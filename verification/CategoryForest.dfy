/** Building the forest and walking it, on category objects whose children are filled in place. */
module CategoryForest {
  import opened Wrappers
  import opened Categories

  class Category {
    const row: Row
    var children: seq<Category>

    constructor (row: Row)
      ensures this.row == row && children == []
    {
      this.row := row;
      children := [];
    }
  }

  function Rows(cats: seq<Category>): (rows: seq<Row>)
    ensures |rows| == |cats| && forall i :: 0 <= i < |cats| ==> rows[i] == cats[i].row
  {
    seq(|cats|, i requires 0 <= i < |cats| => cats[i].row)
  }

  /** Every category's children are those of the first rows of the table, among these objects. */
  ghost predicate Filled(cats: seq<Category>, some: seq<Row>)
    reads cats
  {
    forall c :: c in cats ==> Rows(c.children) == Under(Rows(cats), some, Some(c.row)) && forall k :: k in c.children ==> k in cats
  }

  /** The forest as buildTree leaves it. */
  ghost predicate Built(cats: seq<Category>)
    reads cats
  {
    DistinctIds(Rows(cats)) && Filled(cats, Rows(cats))
  }

  ghost predicate Indexes(byID: map<Id, Category>, cats: seq<Category>, n: nat)
    requires n <= |cats|
  {
    && (forall i :: 0 <= i < n ==> cats[i].row.id in byID)
    && forall id :: id in byID ==> byID[id] in cats && byID[id].row.id == id
  }

  /** The category whose children grow by the i-th row. */
  lemma ParentObject(cats: seq<Category>, byID: map<Id, Category>, i: nat)
    requires DistinctIds(Rows(cats)) && Indexes(byID, cats, |cats|) && i < |cats|
    ensures var r := cats[i].row;
      match Parent(Rows(cats), r)
      case None => r.parent.None? || r.parent.value !in byID
      case Some(p) => r.parent.Some? && r.parent.value in byID && byID[r.parent.value].row == p
  {
    var r, rows := cats[i].row, Rows(cats);
    if r.parent.Some? {
      LookupFinds(rows, r.parent.value);
      if r.parent.value in byID {
        var c := byID[r.parent.value];
        var j :| 0 <= j < |cats| && cats[j] == c;
        assert rows[j] == c.row;
        RowsDiffer(rows, c.row, Lookup(rows, r.parent.value).value);
      }
    }
  }

  lemma OneMore(rows: seq<Row>, i: nat, place: Option<Row>)
    requires i < |rows|
    ensures Under(rows, rows[..i + 1], place) == Under(rows, rows[..i], place) + if Parent(rows, rows[i]) == place then [rows[i]] else []
  {
    assert rows[..i + 1] == rows[..i] + [rows[i]];
    UnderAppend(rows, rows[..i], [rows[i]], place);
    assert Under(rows, [rows[i]][1..], place) == [];
  }

  lemma SameObject(cats: seq<Category>, a: Category, b: Category)
    requires DistinctIds(Rows(cats)) && a in cats && b in cats && a.row == b.row
    ensures a == b
  {
    var i :| 0 <= i < |cats| && cats[i] == a;
    var j :| 0 <= j < |cats| && cats[j] == b;
    assert Rows(cats)[i] == Rows(cats)[j];
  }

  method AddChild(cats: seq<Category>, i: nat, parent: Category)
    requires DistinctIds(Rows(cats)) && i < |cats| && parent in cats && Parent(Rows(cats), cats[i].row) == Some(parent.row)
    requires Filled(cats, Rows(cats)[..i])
    modifies parent
    ensures Filled(cats, Rows(cats)[..i + 1])
  {
    parent.children := parent.children + [cats[i]];
    forall c | c in cats ensures Rows(c.children) == Under(Rows(cats), Rows(cats)[..i + 1], Some(c.row)) {
      OneMore(Rows(cats), i, Some(c.row));
      assert c != parent ==> c.children == old(c.children);
      if c != parent && c.row == parent.row { SameObject(cats, c, parent); }
    }
  }

  method BuildTree(cats: seq<Category>) returns (roots: seq<Category>)
    requires DistinctIds(Rows(cats)) && forall c :: c in cats ==> c.children == []
    modifies cats
    ensures Built(cats)
    ensures Rows(roots) == Categories.Roots(Rows(cats)) && forall r :: r in roots ==> r in cats
  {
    hide Filled, Parent, Under, Rows, DistinctIds;
    ghost var rows := Rows(cats);
    var byID: map<Id, Category> := map[];
    for i := 0 to |cats|
      invariant Indexes(byID, cats, i)
    {
      byID := byID[cats[i].row.id := cats[i]];
    }
    roots := [];
    NothingPlaced(cats, rows);
    for i := 0 to |cats|
      invariant Filled(cats, rows[..i])
      invariant Rows(roots) == Under(rows, rows[..i], None) && forall r :: r in roots ==> r in cats
      invariant forall k :: k in byID ==> byID[k] in cats
    {
      ParentObject(cats, byID, i);
      OneMore(rows, i, None);
      var c := cats[i];
      if c.row.parent.None? || c.row.parent.value !in byID {
        RootAdded(cats, i);
        roots := roots + [c];
      } else {
        AddChild(cats, i, byID[c.row.parent.value]);
      }
    }
    assert rows[..|cats|] == rows;
  }

  lemma NothingPlaced(cats: seq<Category>, rows: seq<Row>)
    requires forall c :: c in cats ==> c.children == []
    ensures Filled(cats, rows[..0]) && Under(rows, rows[..0], None) == [] && Rows([]) == []
  {
  }

  lemma RootAdded(cats: seq<Category>, i: nat)
    requires i < |cats| && Parent(Rows(cats), cats[i].row).None? && Filled(cats, Rows(cats)[..i])
    ensures Filled(cats, Rows(cats)[..i + 1])
  {
    forall c | c in cats ensures Under(Rows(cats), Rows(cats)[..i + 1], Some(c.row)) == Under(Rows(cats), Rows(cats)[..i], Some(c.row)) {
      OneMore(Rows(cats), i, Some(c.row));
    }
  }

  // ---- walking ----

  ghost predicate Level(cats: seq<Category>, nodes: seq<Category>, d: nat) {
    (forall n :: n in nodes ==> n in cats) && AllAtDepth(Rows(cats), Rows(nodes), d)
  }

  ghost predicate HasId(rows: seq<Row>, id: Id) {
    exists r :: r in rows && r.id == id
  }

  lemma ChildrenLevel(cats: seq<Category>, c: Category, d: nat)
    requires Built(cats) && c in cats && AtDepth(Rows(cats), c.row, d)
    ensures Level(cats, c.children, d + 1) && Rows(c.children) == Children(Rows(cats), c.row)
    ensures d < |cats|
  {
    var i :| 0 <= i < |cats| && cats[i] == c;
    assert Rows(cats)[i] == c.row;
    ChildrenAreDeeper(Rows(cats), c.row, d);
    DepthIsBounded(Rows(cats), c.row, d);
  }

  lemma NodeAtLevel(cats: seq<Category>, nodes: seq<Category>, d: nat, i: nat)
    requires Built(cats) && Level(cats, nodes, d) && i < |nodes|
    ensures AtDepth(Rows(cats), nodes[i].row, d) && nodes[i] in cats && d < |cats|
    ensures Rows(nodes[i..]) == [nodes[i].row] + Rows(nodes[i + 1..])
    ensures Preorder(Rows(cats), Rows(nodes[i..]), |cats| - d) ==
      [nodes[i].row] + Preorder(Rows(cats), Children(Rows(cats), nodes[i].row), |cats| - d - 1) + Preorder(Rows(cats), Rows(nodes[i + 1..]), |cats| - d)
  {
    assert Rows(nodes)[i] in Rows(nodes) && nodes[i] in nodes;
    var at :| 0 <= at < |cats| && cats[at] == nodes[i];
    assert Rows(cats)[at] == nodes[i].row;
    DepthIsBounded(Rows(cats), nodes[i].row, d);
    assert Rows(nodes[i..])[1..] == Rows(nodes[i + 1..]);
  }

  /** The first category in walking order that has the id. */
  method Find(nodes: seq<Category>, id: Id, ghost cats: seq<Category>, ghost d: nat) returns (found: Category?)
    requires Built(cats) && Level(cats, nodes, d) && d <= |cats|
    ensures found == null <==> !HasId(Preorder(Rows(cats), Rows(nodes), |cats| - d), id)
    ensures found != null ==> found in cats && found.row.id == id
    decreases |cats| - d
  {
    hide Preorder, Built, Level, HasId, Rows, Children, AtDepth;
    ghost var rows := Rows(cats);
    assert nodes[0..] == nodes;
    for i := 0 to |nodes|
      invariant HasId(Preorder(rows, Rows(nodes[i..]), |cats| - d), id) == HasId(Preorder(rows, Rows(nodes), |cats| - d), id)
    {
      var c := nodes[i];
      NodeAtLevel(cats, nodes, d, i);
      ChildrenLevel(cats, c, d);
      HasIdConcat(c.row, Preorder(rows, Children(rows, c.row), |cats| - d - 1), Preorder(rows, Rows(nodes[i + 1..]), |cats| - d), id);
      if c.row.id == id {
        return c;
      }
      found := Find(c.children, id, cats, d + 1);
      if found != null { return; }
    }
    NoneLeft(rows, nodes, |cats| - d, id);
    found := null;
  }

  lemma NoneLeft(rows: seq<Row>, nodes: seq<Category>, levels: nat, id: Id)
    ensures Preorder(rows, Rows(nodes[|nodes|..]), levels) == [] && !HasId([], id)
  {
    assert Rows(nodes[|nodes|..]) == [];
  }

  lemma HasIdConcat(first: Row, a: seq<Row>, b: seq<Row>, id: Id)
    ensures HasId([first] + a + b, id) <==> first.id == id || HasId(a, id) || HasId(b, id)
  {
    assert first in [first] + a + b;
    assert forall r :: r in [first] + a + b <==> r == first || r in a || r in b;
  }

  /** Appends the ids of these categories and of everything below them. */
  method Walk(nodes: seq<Category>, ids: seq<Id>, ghost cats: seq<Category>, ghost d: nat) returns (ids': seq<Id>)
    requires Built(cats) && Level(cats, nodes, d) && d <= |cats|
    ensures ids' == ids + Ids(Preorder(Rows(cats), Rows(nodes), |cats| - d))
    decreases |cats| - d
  {
    hide Preorder, Built, Level, Rows, Children, AtDepth, Ids;
    ghost var rows := Rows(cats);
    ids' := ids;
    assert nodes[0..] == nodes;
    for i := 0 to |nodes|
      invariant ids' + Ids(Preorder(rows, Rows(nodes[i..]), |cats| - d)) == ids + Ids(Preorder(rows, Rows(nodes), |cats| - d))
    {
      var c := nodes[i];
      NodeAtLevel(cats, nodes, d, i);
      ChildrenLevel(cats, c, d);
      IdsConcat(ids', c.row, Preorder(rows, Children(rows, c.row), |cats| - d - 1), Preorder(rows, Rows(nodes[i + 1..]), |cats| - d));
      ids' := ids' + [c.row.id];
      ids' := Walk(c.children, ids', cats, d + 1);
    }
    NoneLeft(rows, nodes, |cats| - d, "");
    assert Ids([]) == [] by { NoIds(); }
  }

  lemma NoIds()
    ensures Ids([]) == []
  {
  }

  lemma IdsConcat(before: seq<Id>, first: Row, a: seq<Row>, b: seq<Row>)
    ensures before + Ids([first] + a + b) == before + [first.id] + Ids(a) + Ids(b)
  {
    assert Ids([first] + a + b) == [first.id] + Ids(a) + Ids(b);
  }

  method SubtreeIDs(tree: seq<Category>, id: Id, ghost cats: seq<Category>) returns (ids: seq<Id>)
    requires Built(cats) && Rows(tree) == Categories.Roots(Rows(cats)) && forall c :: c in tree ==> c in cats
    ensures ids == Subtree(Rows(cats), id)
  {
    hide *;
    ghost var rows := Rows(cats);
    TreeIsLevel(cats, tree);
    InForest(rows, id);
    var root := Find(tree, id, cats, 0);
    if root == null {
      return [id];
    }
    ghost var d := FoundAt(cats, root, id);
    ids := Walk([root], [], cats, d);
  }

  lemma TreeIsLevel(cats: seq<Category>, tree: seq<Category>)
    requires Built(cats) && Rows(tree) == Categories.Roots(Rows(cats)) && forall c :: c in tree ==> c in cats
    ensures DistinctIds(Rows(cats)) && Level(cats, tree, 0)
  {
    RootsAreOnTop(Rows(cats));
    hide Categories.Roots, Filled;
  }

  /** The category found is at some depth, and its subtree is what walking from there meets. */
  lemma FoundAt(cats: seq<Category>, root: Category, id: Id) returns (d: nat)
    requires Built(cats) && root in cats && root.row.id == id
    requires Lookup(Rows(cats), id).Some? && Grounded(Rows(cats), Lookup(Rows(cats), id).value)
    ensures d <= |cats| && Level(cats, [root], d)
    ensures Subtree(Rows(cats), id) == [] + Ids(Preorder(Rows(cats), Rows([root]), |cats| - d))
  {
    var rows := Rows(cats);
    var at :| 0 <= at < |cats| && cats[at] == root;
    assert rows[at] == root.row;
    LookupFinds(rows, id);
    RowsDiffer(rows, root.row, Lookup(rows, id).value);
    d := Depth(rows, root.row);
    DepthIsBounded(rows, root.row, d);
    assert Rows([root]) == [root.row];
    hide Grounded, AtDepth, Preorder, Ids, DistinctIds, Filled;
  }

  /** The forest has a category with the id exactly if the table has one whose chain of parents ends. */
  lemma InForest(rows: seq<Row>, id: Id)
    requires DistinctIds(rows)
    ensures HasId(Preorder(rows, Categories.Roots(rows), |rows|), id) <==> Lookup(rows, id).Some? && Grounded(rows, Lookup(rows, id).value)
    ensures !HasId(Preorder(rows, Categories.Roots(rows), |rows|), id) ==> Subtree(rows, id) == [id]
  {
    ForestHoldsTheGrounded(rows);
    LookupFinds(rows, id);
    hide Preorder, Grounded, NoRepeats, Lookup, Ids, Categories.Roots;
    var found := Lookup(rows, id);
    forall r | r in rows && r.id == id ensures found == Some(r) {
      RowsDiffer(rows, r, found.value);
    }
  }
}
