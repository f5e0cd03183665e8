/** The category forest (internal/catalog/category.go, buildTree) and its subtrees
    (internal/catalog/facets.go, SubtreeIDs). */
module Categories {
  import opened Wrappers

  type Id = string
  datatype Row = Row(id: Id, parent: Option<Id>)

  ghost predicate DistinctIds(rows: seq<Row>) {
    forall i, j :: 0 <= i < j < |rows| ==> rows[i].id != rows[j].id
  }

  function Lookup(rows: seq<Row>, id: Id): Option<Row> {
    if rows == [] then None else if rows[0].id == id then Some(rows[0]) else Lookup(rows[1..], id)
  }

  /** The category a row hangs under: none at the top, and none when its parent does not exist. */
  function Parent(rows: seq<Row>, r: Row): Option<Row> {
    if r.parent.None? then None else Lookup(rows, r.parent.value)
  }

  /** Those of some rows that hang under a given place in the table. */
  function Under(rows: seq<Row>, some: seq<Row>, place: Option<Row>): seq<Row> {
    if some == [] then []
    else (if Parent(rows, some[0]) == place then [some[0]] else []) + Under(rows, some[1..], place)
  }

  function Children(rows: seq<Row>, r: Row): seq<Row> { Under(rows, rows, Some(r)) }

  function Roots(rows: seq<Row>): seq<Row> { Under(rows, rows, None) }

  // ---- ancestors ----

  /** k steps up from a row. */
  ghost function Up(rows: seq<Row>, r: Row, k: nat): Option<Row>
    decreases k
  {
    if k == 0 then Some(r)
    else match Parent(rows, r)
      case None => None
      case Some(p) => Up(rows, p, k - 1)
  }

  ghost predicate IsBelow(rows: seq<Row>, r: Row, a: Row) {
    exists k: nat :: Up(rows, r, k) == Some(a)
  }

  ghost predicate AtDepth(rows: seq<Row>, r: Row, d: nat) {
    Up(rows, r, d).Some? && Up(rows, r, d + 1).None?
  }

  /** The chain of parents ends. */
  ghost predicate Grounded(rows: seq<Row>, r: Row) {
    exists k: nat :: Up(rows, r, k).None?
  }

  lemma {:induction false} LookupFinds(rows: seq<Row>, id: Id)
    ensures match Lookup(rows, id)
      case None => forall r :: r in rows ==> r.id != id
      case Some(r) => r in rows && r.id == id
  {
    if rows != [] && rows[0].id != id { LookupFinds(rows[1..], id); }
  }

  lemma ParentIsRow(rows: seq<Row>, r: Row)
    ensures Parent(rows, r).Some? ==> Parent(rows, r).value in rows && Some(Parent(rows, r).value.id) == r.parent
  {
    if r.parent.Some? { LookupFinds(rows, r.parent.value); }
  }

  lemma {:induction false} UpAdds(rows: seq<Row>, r: Row, j: nat, k: nat)
    ensures Up(rows, r, j + k) == if Up(rows, r, j).None? then None else Up(rows, Up(rows, r, j).value, k)
    decreases j
  {
    if j > 0 && Parent(rows, r).Some? { UpAdds(rows, Parent(rows, r).value, j - 1, k); }
  }

  lemma {:induction false} UpIsRow(rows: seq<Row>, r: Row, k: nat)
    requires r in rows && Up(rows, r, k).Some?
    ensures Up(rows, r, k).value in rows
    decreases k
  {
    if k > 0 {
      ParentIsRow(rows, r);
      UpIsRow(rows, Parent(rows, r).value, k - 1);
    }
  }

  /** Going up in a circle never ends. */
  lemma {:induction false} CirclesDoNotEnd(rows: seq<Row>, r: Row, period: nat, k: nat)
    requires period > 0 && Up(rows, r, period) == Some(r)
    ensures Up(rows, r, k).Some?
    decreases k
  {
    if k <= period {
      UpAdds(rows, r, k, period - k);
    } else {
      UpAdds(rows, r, period, k - period);
      CirclesDoNotEnd(rows, r, period, k - period);
    }
  }

  lemma {:induction false} Pigeonhole<T>(s: seq<T>, holes: set<T>)
    requires |s| > |holes| && forall i :: 0 <= i < |s| ==> s[i] in holes
    ensures exists i, j :: 0 <= i < j < |s| && s[i] == s[j]
    decreases |s|
  {
    var last := s[|s| - 1];
    var init := s[..|s| - 1];
    if last in init {
      var i :| 0 <= i < |init| && init[i] == last;
      assert s[i] == s[|s| - 1];
    } else {
      Pigeonhole(init, holes - {last});
      var i, j :| 0 <= i < j < |init| && init[i] == init[j];
      assert s[i] == s[j];
    }
  }

  lemma {:induction false} FewerThanRows(rows: seq<Row>)
    ensures |set r | r in rows| <= |rows|
  {
    if rows != [] {
      FewerThanRows(rows[1..]);
      assert (set r | r in rows) == {rows[0]} + (set r | r in rows[1..]);
    }
  }

  /** A chain as long as the table has gone round in a circle. */
  lemma LongChainsCircle(rows: seq<Row>, r: Row)
    requires r in rows && Up(rows, r, |rows|).Some?
    ensures exists j: nat, period: nat ::
      period > 0 && Up(rows, r, j).Some? && Up(rows, Up(rows, r, j).value, period) == Up(rows, r, j)
  {
    var n := |rows|;
    forall k | 0 <= k <= n ensures Up(rows, r, k).Some? && Up(rows, r, k).value in rows {
      UpAdds(rows, r, k, n - k);
      UpIsRow(rows, r, k);
    }
    var chain := seq(n + 1, k requires 0 <= k < n + 1 => Up(rows, r, k).value);
    FewerThanRows(rows);
    Pigeonhole(chain, set x | x in rows);
    var i, j :| 0 <= i < j < |chain| && chain[i] == chain[j];
    UpAdds(rows, r, i, j - i);
  }

  /** A row's chain of parents ends exactly when no ancestor of it is its own proper ancestor; and then
      it ends within the size of the table. */
  lemma GroundedIffNoCircle(rows: seq<Row>, r: Row)
    requires r in rows
    ensures Grounded(rows, r) <==> Up(rows, r, |rows|).None?
    ensures Grounded(rows, r) <==>
      forall a, period: nat :: IsBelow(rows, r, a) && period > 0 ==> Up(rows, a, period) != Some(a)
  {
    if Up(rows, r, |rows|).Some? {
      LongChainsCircle(rows, r);
      var j: nat, period: nat :| period > 0 && Up(rows, r, j).Some? && Up(rows, Up(rows, r, j).value, period) == Up(rows, r, j);
      var a := Up(rows, r, j).value;
      assert IsBelow(rows, r, a);
    }
    forall a, period: nat | IsBelow(rows, r, a) && period > 0 && Up(rows, a, period) == Some(a) ensures !Grounded(rows, r) {
      var j: nat :| Up(rows, r, j) == Some(a);
      forall k: nat ensures Up(rows, r, k).Some? {
        if k <= j { UpAdds(rows, r, k, j - k); } else {
          UpAdds(rows, r, j, k - j);
          CirclesDoNotEnd(rows, a, period, k - j);
        }
      }
    }
  }

  // ---- the forest ----

  /** Parents before children, siblings in table order, over so many levels. */
  function Preorder(rows: seq<Row>, nodes: seq<Row>, levels: nat): seq<Row>
    decreases levels, |nodes|
  {
    if nodes == [] || levels == 0 then []
    else [nodes[0]] + Preorder(rows, Children(rows, nodes[0]), levels - 1) + Preorder(rows, nodes[1..], levels)
  }

  ghost predicate NoRepeats<T>(s: seq<T>) {
    forall i, j :: 0 <= i < j < |s| ==> s[i] != s[j]
  }

  ghost predicate AllAtDepth(rows: seq<Row>, nodes: seq<Row>, d: nat) {
    forall n :: n in nodes ==> n in rows && AtDepth(rows, n, d)
  }

  lemma {:induction false} UnderIs(rows: seq<Row>, some: seq<Row>, place: Option<Row>)
    ensures forall r :: r in Under(rows, some, place) <==> r in some && Parent(rows, r) == place
    ensures NoRepeats(some) ==> NoRepeats(Under(rows, some, place))
  {
    if some != [] {
      UnderIs(rows, some[1..], place);
      assert forall r :: r in some <==> r == some[0] || r in some[1..];
      if NoRepeats(some) {
        assert forall j :: 0 <= j < |some| - 1 ==> some[1..][j] == some[j + 1];
        assert some[0] !in some[1..];
        var rest := Under(rows, some[1..], place);
        assert forall j :: 0 <= j < |rest| ==> rest[j] in rest;
      }
    }
  }

  /** Siblings stay in input order. */
  lemma {:induction false} UnderAppend(rows: seq<Row>, a: seq<Row>, b: seq<Row>, place: Option<Row>)
    ensures Under(rows, a + b, place) == Under(rows, a, place) + Under(rows, b, place)
  {
    if a == [] {
      assert a + b == b;
    } else {
      assert (a + b)[0] == a[0] && (a + b)[1..] == a[1..] + b;
      UnderAppend(rows, a[1..], b, place);
    }
  }

  lemma ChildrenAreDeeper(rows: seq<Row>, r: Row, d: nat)
    requires DistinctIds(rows) && r in rows && AtDepth(rows, r, d)
    ensures AllAtDepth(rows, Children(rows, r), d + 1) && NoRepeats(Children(rows, r))
  {
    UnderIs(rows, rows, Some(r));
  }

  lemma DepthIsBounded(rows: seq<Row>, r: Row, d: nat)
    requires r in rows && AtDepth(rows, r, d)
    ensures d < |rows|
  {
    GroundedIffNoCircle(rows, r);
    if d >= |rows| { UpAdds(rows, r, |rows|, d - |rows|); }
  }

  lemma DepthsAgree(rows: seq<Row>, r: Row, d: nat, k: nat)
    requires AtDepth(rows, r, d)
    ensures Up(rows, r, k).Some? <==> k <= d
  {
    if k <= d { UpAdds(rows, r, k, d - k); } else { UpAdds(rows, r, d + 1, k - d - 1); }
  }

  /** A row is at or below a category exactly when it is that category or at or below one of its children. */
  lemma BelowViaChild(rows: seq<Row>, x: Row, r: Row)
    requires DistinctIds(rows) && x in rows && r in rows
    ensures IsBelow(rows, x, r) <==> x == r || exists c :: c in Children(rows, r) && IsBelow(rows, x, c)
  {
    UnderIs(rows, rows, Some(r));
    assert Up(rows, x, 0) == Some(x);
    if IsBelow(rows, x, r) && x != r {
      var k: nat :| Up(rows, x, k) == Some(r);
      UpAdds(rows, x, k - 1, 1);
      var c := Up(rows, x, k - 1).value;
      UpIsRow(rows, x, k - 1);
      assert Up(rows, c, 1) == Parent(rows, c);
      assert c in Children(rows, r) && IsBelow(rows, x, c);
    }
    forall c | c in Children(rows, r) && IsBelow(rows, x, c) ensures IsBelow(rows, x, r) {
      var k: nat :| Up(rows, x, k) == Some(c);
      UpAdds(rows, x, k, 1);
      assert Up(rows, c, 1) == Parent(rows, c);
      assert Up(rows, x, k + 1) == Some(r);
    }
  }

  /** Walking categories of one depth meets exactly the rows at or below them. */
  lemma {:induction false} PreorderMeets(rows: seq<Row>, nodes: seq<Row>, d: nat)
    requires DistinctIds(rows) && d <= |rows| && AllAtDepth(rows, nodes, d)
    ensures forall x :: x in Preorder(rows, nodes, |rows| - d) <==> x in rows && exists n :: n in nodes && IsBelow(rows, x, n)
    decreases |rows| - d, |nodes|
  {
    if nodes != [] {
      var first, levels := nodes[0], |rows| - d;
      DepthIsBounded(rows, first, d);
      ChildrenAreDeeper(rows, first, d);
      PreorderMeets(rows, Children(rows, first), d + 1);
      PreorderMeets(rows, nodes[1..], d);
      forall x ensures x in Preorder(rows, nodes, levels) <==> x in rows && exists n :: n in nodes && IsBelow(rows, x, n) {
        if x in rows { BelowViaChild(rows, x, first); }
        assert forall n :: n in nodes <==> n == first || n in nodes[1..];
      }
    }
  }

  /** Two categories of one depth share no descendants. */
  lemma SubtreesAreApart(rows: seq<Row>, x: Row, a: Row, b: Row, d: nat)
    requires AtDepth(rows, a, d) && AtDepth(rows, b, d) && IsBelow(rows, x, a) && IsBelow(rows, x, b)
    ensures a == b
  {
    var i: nat :| Up(rows, x, i) == Some(a);
    var j: nat :| Up(rows, x, j) == Some(b);
    if i < j {
      UpAdds(rows, x, i, j - i);
      UpAdds(rows, a, j - i, d);
      DepthsAgree(rows, a, d, j - i + d);
    } else if j < i {
      UpAdds(rows, x, j, i - j);
      UpAdds(rows, b, i - j, d);
      DepthsAgree(rows, b, d, i - j + d);
    }
  }

  lemma {:induction false} PreorderHasNoRepeats(rows: seq<Row>, nodes: seq<Row>, d: nat)
    requires DistinctIds(rows) && d <= |rows| && AllAtDepth(rows, nodes, d) && NoRepeats(nodes)
    ensures NoRepeats(Preorder(rows, nodes, |rows| - d))
    decreases |rows| - d, |nodes|
  {
    if nodes != [] {
      var first, rest, levels := nodes[0], nodes[1..], |rows| - d;
      var children := Children(rows, first);
      DepthIsBounded(rows, first, d);
      ChildrenAreDeeper(rows, first, d);
      PreorderHasNoRepeats(rows, children, d + 1);
      PreorderHasNoRepeats(rows, rest, d);
      PreorderMeets(rows, children, d + 1);
      PreorderMeets(rows, rest, d);
      assert first !in rest by {
        assert forall j :: 0 <= j < |rest| ==> rest[j] == nodes[j + 1];
      }
      var below, later := Preorder(rows, children, levels - 1), Preorder(rows, rest, levels);
      forall x | x in below ensures x != first && x !in later {
        BelowViaChild(rows, x, first);
        forall n | n in rest && IsBelow(rows, x, n) ensures false {
          SubtreesAreApart(rows, x, first, n, d);
        }
        var c :| c in children && IsBelow(rows, x, c);
        ParentIsRow(rows, c);
        NotBelowItsChild(rows, first, c, d);
      }
      forall n | n in rest ensures !IsBelow(rows, first, n) {
        if IsBelow(rows, first, n) {
          assert Up(rows, first, 0) == Some(first);
          SubtreesAreApart(rows, first, first, n, d);
        }
      }
      Disjoint3(first, below, later);
    }
  }

  lemma NotBelowItsChild(rows: seq<Row>, r: Row, c: Row, d: nat)
    requires AtDepth(rows, r, d) && AtDepth(rows, c, d + 1)
    ensures !IsBelow(rows, r, c)
  {
    forall k: nat ensures Up(rows, r, k) != Some(c) {
      if Up(rows, r, k) == Some(c) {
        UpAdds(rows, r, k, d + 1);
        DepthsAgree(rows, r, d, k + d + 1);
      }
    }
  }

  lemma Disjoint3<T>(first: T, a: seq<T>, b: seq<T>)
    requires NoRepeats(a) && NoRepeats(b) && first !in a && first !in b && forall x :: x in a ==> x !in b
    ensures NoRepeats([first] + a + b)
  {
    var s := [first] + a + b;
    forall i, j | 0 <= i < j < |s| ensures s[i] != s[j] {
      if i == 0 {
        assert s[j] in a || s[j] in b;
      } else if i <= |a| < j {
        assert s[i] in a && s[j] in b;
      }
    }
  }

  lemma GroundedHangsFromRoot(rows: seq<Row>, r: Row)
    requires r in rows
    ensures Grounded(rows, r) <==> exists n :: n in Roots(rows) && IsBelow(rows, r, n)
  {
    UnderIs(rows, rows, None);
    if Grounded(rows, r) {
      var d := Depth(rows, r);
      var top := Up(rows, r, d).value;
      UpIsRow(rows, r, d);
      UpAdds(rows, r, d, 1);
      assert Up(rows, top, 1) == Parent(rows, top);
      assert top in Roots(rows) && IsBelow(rows, r, top);
    }
    forall n | n in Roots(rows) && IsBelow(rows, r, n) ensures Grounded(rows, r) {
      var k: nat :| Up(rows, r, k) == Some(n);
      UpAdds(rows, r, k, 1);
      assert Up(rows, n, 1) == Parent(rows, n);
      assert Up(rows, r, k + 1).None?;
    }
  }

  lemma RootsAreOnTop(rows: seq<Row>)
    requires DistinctIds(rows)
    ensures AllAtDepth(rows, Roots(rows), 0) && NoRepeats(Roots(rows))
  {
    UnderIs(rows, rows, None);
    forall r | r in Roots(rows) ensures AtDepth(rows, r, 0) {
      assert Up(rows, r, 1) == Parent(rows, r);
    }
  }

  /** The forest holds every category whose chain of parents ends exactly once, and no other. */
  lemma ForestHoldsTheGrounded(rows: seq<Row>)
    requires DistinctIds(rows)
    ensures var forest := Preorder(rows, Roots(rows), |rows|);
      NoRepeats(forest) && forall r :: r in forest <==> r in rows && Grounded(rows, r)
  {
    hide *;
    RootsAreOnTop(rows);
    PreorderMeets(rows, Roots(rows), 0);
    PreorderHasNoRepeats(rows, Roots(rows), 0);
    var forest := Preorder(rows, Roots(rows), |rows| - 0);
    forall r ensures r in forest <==> r in rows && Grounded(rows, r) {
      if r in rows { GroundedHangsFromRoot(rows, r); }
    }
  }

  lemma {:induction false} DepthExists(rows: seq<Row>, r: Row, k: nat)
    requires Up(rows, r, k).None?
    ensures exists d: nat :: AtDepth(rows, r, d)
    decreases k
  {
    if Up(rows, r, k - 1).Some? {
      assert AtDepth(rows, r, k - 1);
    } else {
      DepthExists(rows, r, k - 1);
    }
  }

  ghost function Depth(rows: seq<Row>, r: Row): (d: nat)
    requires Grounded(rows, r)
    ensures AtDepth(rows, r, d)
  {
    var k: nat :| Up(rows, r, k).None?;
    DepthExists(rows, r, k);
    var d: nat :| AtDepth(rows, r, d);
    d
  }

  function Ids(rows: seq<Row>): seq<Id> {
    seq(|rows|, i requires 0 <= i < |rows| => rows[i].id)
  }

  /** The ids a category's page covers. */
  ghost function Subtree(rows: seq<Row>, id: Id): seq<Id>
  {
    match Lookup(rows, id)
    case None => [id]
    case Some(r) =>
      if Grounded(rows, r) then LookupFinds(rows, id); DepthIsBounded(rows, r, Depth(rows, r));
        Ids(Preorder(rows, [r], |rows| - Depth(rows, r)))
      else [id]
  }

  lemma WalkOf(rows: seq<Row>, r: Row, d: nat)
    requires DistinctIds(rows) && r in rows && AtDepth(rows, r, d)
    ensures d < |rows|
    ensures var ids := Ids(Preorder(rows, [r], |rows| - d));
      && NoRepeats(ids)
      && (forall x :: x in rows ==> (x.id in ids <==> IsBelow(rows, x, r)))
      && forall x :: x in ids ==> exists r :: r in rows && r.id == x
  {
    DepthIsBounded(rows, r, d);
    NoRepeatsInOne(r);
    assert AllAtDepth(rows, [r], d);
    hide *;
    PreorderMeets(rows, [r], d);
    PreorderHasNoRepeats(rows, [r], d);
    IdsTell(rows, Preorder(rows, [r], |rows| - d));
  }

  lemma NoRepeatsInOne<T>(x: T)
    ensures NoRepeats([x])
  {
  }

  lemma SubtreeIs(rows: seq<Row>, id: Id)
    ensures match Lookup(rows, id)
      case Some(r) =>
        if Grounded(rows, r) then r in rows && r.id == id && Depth(rows, r) < |rows| && Subtree(rows, id) == Ids(Preorder(rows, [r], |rows| - Depth(rows, r)))
        else Subtree(rows, id) == [id]
      case None => Subtree(rows, id) == [id]
  {
    LookupFinds(rows, id);
    hide Preorder, Ids;
    if Lookup(rows, id).Some? && Grounded(rows, Lookup(rows, id).value) {
      DepthIsBounded(rows, Lookup(rows, id).value, Depth(rows, Lookup(rows, id).value));
    }
    hide Grounded, Lookup;
  }

  /** They are, without repeats, the category and all its descendants; or the id alone, when the forest
      does not hold it. */
  lemma SubtreeIsTheDescendants(rows: seq<Row>, id: Id)
    requires DistinctIds(rows)
    ensures var ids := Subtree(rows, id);
      && NoRepeats(ids)
      && match Lookup(rows, id)
         case Some(r) =>
           if Grounded(rows, r) then forall x :: x in rows ==> (x.id in ids <==> IsBelow(rows, x, r)) else ids == [id]
         case None => ids == [id]
    ensures forall x :: x in Subtree(rows, id) ==> x == id || exists r :: r in rows && r.id == x
  {
    hide *;
    SubtreeIs(rows, id);
    NoRepeatsInOne(id);
    var found := Lookup(rows, id);
    if found.Some? && Grounded(rows, found.value) { WalkOf(rows, found.value, Depth(rows, found.value)); }
  }

  lemma RowsDiffer(rows: seq<Row>, a: Row, b: Row)
    requires DistinctIds(rows) && a in rows && b in rows && a.id == b.id
    ensures a == b
  {
    var i :| 0 <= i < |rows| && rows[i] == a;
    var j :| 0 <= j < |rows| && rows[j] == b;
  }

  /** Ids say as much as the rows they are from. */
  lemma IdsTell(rows: seq<Row>, walk: seq<Row>)
    requires DistinctIds(rows) && NoRepeats(walk) && forall x :: x in walk ==> x in rows
    ensures NoRepeats(Ids(walk))
    ensures forall x :: x in rows ==> (x.id in Ids(walk) <==> x in walk)
    ensures forall x :: x in Ids(walk) ==> exists r :: r in rows && r.id == x
  {
    forall i, j | 0 <= i < j < |walk| ensures walk[i].id != walk[j].id {
      assert walk[i] in walk && walk[j] in walk;
      if walk[i].id == walk[j].id { RowsDiffer(rows, walk[i], walk[j]); }
    }
    forall x | x in rows ensures x.id in Ids(walk) <==> x in walk {
      if x in walk {
        var i :| 0 <= i < |walk| && walk[i] == x;
        assert Ids(walk)[i] == x.id;
      }
      if x.id in Ids(walk) {
        var i :| 0 <= i < |walk| && Ids(walk)[i] == x.id;
        assert walk[i] in walk;
        RowsDiffer(rows, walk[i], x);
      }
    }
    forall x | x in Ids(walk) ensures exists r :: r in rows && r.id == x {
      var i :| 0 <= i < |walk| && Ids(walk)[i] == x;
      assert walk[i] in walk && walk[i].id == x;
    }
  }

  // ---- moving a category ----

  datatype UpdateError = InvalidParent | NotFound

  function Replace(rows: seq<Row>, id: Id, parent: Option<Id>): seq<Row> {
    seq(|rows|, i requires 0 <= i < |rows| => if rows[i].id == id then Row(id, parent) else rows[i])
  }

  /** The parent a category is given must exist and must not be the category itself; nothing else is asked. */
  function Update(rows: seq<Row>, id: Id, parent: Option<Id>): Result<seq<Row>, UpdateError> {
    if parent == Some(id) then Err(InvalidParent)
    else if Lookup(rows, id).None? then Err(NotFound)
    else if parent.Some? && Lookup(rows, parent.value).None? then Err(InvalidParent)
    else Ok(Replace(rows, id, parent))
  }

  ghost predicate AllGrounded(rows: seq<Row>) {
    forall r :: r in rows ==> Grounded(rows, r)
  }

  function Moved(r: Row, id: Id, parent: Option<Id>): Row {
    if r.id == id then Row(id, parent) else r
  }

  lemma {:induction false} LookupMoved(rows: seq<Row>, id: Id, parent: Option<Id>, key: Id)
    ensures Lookup(Replace(rows, id, parent), key) ==
      match Lookup(rows, key) case None => None case Some(r) => Some(Moved(r, id, parent))
  {
    if rows != [] {
      assert Replace(rows, id, parent)[1..] == Replace(rows[1..], id, parent);
      LookupMoved(rows[1..], id, parent, key);
    }
  }

  /** The first k rows of a chain of parents are other categories. */
  ghost predicate Avoids(rows: seq<Row>, r: Row, id: Id, k: nat) {
    forall j: nat :: j < k && Up(rows, r, j).Some? ==> Up(rows, r, j).value.id != id
  }

  /** A chain of parents that has not reached the moved category is as it was. */
  lemma {:induction false} UpMoved(rows: seq<Row>, id: Id, parent: Option<Id>, r: Row, k: nat)
    requires Avoids(rows, r, id, k)
    ensures Up(Replace(rows, id, parent), Moved(r, id, parent), k) ==
      match Up(rows, r, k) case None => None case Some(a) => Some(Moved(a, id, parent))
    decreases k
  {
    if k > 0 {
      assert Up(rows, r, 0) == Some(r);
      if r.parent.Some? { LookupMoved(rows, id, parent, r.parent.value); }
      var p := Parent(rows, r);
      if p.Some? {
        forall j: nat | j < k - 1 && Up(rows, p.value, j).Some? ensures Up(rows, p.value, j).value.id != id {
          assert Up(rows, r, j + 1) == Up(rows, p.value, j);
        }
        UpMoved(rows, id, parent, p.value, k - 1);
      }
    }
  }

  /** The first time a chain of parents reaches a row. */
  lemma {:induction false} FirstVisit(rows: seq<Row>, r: Row, id: Id, k: nat)
    requires Up(rows, r, k).Some? && Up(rows, r, k).value.id == id
    ensures exists f: nat :: f <= k && Reaches(rows, r, id, f)
    decreases k
  {
    if !Reaches(rows, r, id, k) {
      var j: nat :| j < k && Up(rows, r, j).Some? && Up(rows, r, j).value.id == id;
      FirstVisit(rows, r, id, j);
    }
  }

  ghost predicate Reaches(rows: seq<Row>, r: Row, id: Id, f: nat) {
    Up(rows, r, f).Some? && Up(rows, r, f).value.id == id && Avoids(rows, r, id, f)
  }

  /** Put under one of its own descendants, a category goes round in a circle. */
  lemma MovedBelowItself(rows: seq<Row>, id: Id, r: Row, p: Row)
    requires Lookup(rows, id) == Some(r) && Lookup(rows, p.id) == Some(p) && IsBelow(rows, p, r)
    ensures !Grounded(Replace(rows, id, Some(p.id)), Row(id, Some(p.id)))
  {
    LookupFinds(rows, id);
    var rows', r', p' := Replace(rows, id, Some(p.id)), Row(id, Some(p.id)), Moved(p, id, Some(p.id));
    var k: nat :| Up(rows, p, k) == Some(r);
    FirstVisit(rows, p, id, k);
    var f: nat :| f <= k && Reaches(rows, p, id, f);
    UpMoved(rows, id, Some(p.id), p, f);
    LookupMoved(rows, id, Some(p.id), p.id);
    assert Parent(rows', r') == Some(p') && Up(rows', p', f) == Some(r');
    assert Up(rows', r', f + 1) == Some(r');
    forall k: nat ensures Up(rows', r', k).Some? {
      CirclesDoNotEnd(rows', r', f + 1, k);
    }
  }

  /** A chain of parents that never reaches the moved category still ends. */
  lemma StaysGrounded(rows: seq<Row>, id: Id, parent: Option<Id>, x: Row)
    requires Grounded(rows, x) && forall j: nat :: Up(rows, x, j).Some? ==> Up(rows, x, j).value.id != id
    ensures Grounded(Replace(rows, id, parent), Moved(x, id, parent))
  {
    var k: nat :| Up(rows, x, k).None?;
    UpMoved(rows, id, parent, x, k);
    assert Up(Replace(rows, id, parent), Moved(x, id, parent), k).None?;
  }

  lemma GroundedThroughMoved(rows: seq<Row>, id: Id, parent: Option<Id>, x: Row)
    requires Grounded(rows, x) && Grounded(Replace(rows, id, parent), Row(id, parent))
    ensures Grounded(Replace(rows, id, parent), Moved(x, id, parent))
  {
    if k: nat :| Up(rows, x, k).Some? && Up(rows, x, k).value.id == id {
      FirstVisit(rows, x, id, k);
      var f: nat :| f <= k && Reaches(rows, x, id, f);
      UpMoved(rows, id, parent, x, f);
      var rows', r' := Replace(rows, id, parent), Row(id, parent);
      var e: nat :| Up(rows', r', e).None?;
      UpAdds(rows', Moved(x, id, parent), f, e);
      assert Up(rows', Moved(x, id, parent), f + e).None?;
    } else {
      StaysGrounded(rows, id, parent, x);
    }
  }

  /** An update keeps the forest whole exactly when the new parent is not the category's own descendant.
      Nothing checks that: only a direct self-parent is refused. */
  lemma UpdateKeepsForestIff(rows: seq<Row>, id: Id, parent: Option<Id>)
    requires DistinctIds(rows) && AllGrounded(rows) && Update(rows, id, parent).Ok?
    ensures AllGrounded(Update(rows, id, parent).value) <==>
      parent.None? || !IsBelow(rows, Lookup(rows, parent.value).value, Lookup(rows, id).value)
  {
    var rows', r, r' := Replace(rows, id, parent), Lookup(rows, id).value, Row(id, parent);
    LookupFinds(rows, id);
    var at :| 0 <= at < |rows| && rows[at] == r;
    assert rows'[at] == r';
    if parent.Some? {
      LookupFinds(rows, parent.value);
      var p := Lookup(rows, parent.value).value;
      if IsBelow(rows, p, r) {
        MovedBelowItself(rows, id, r, p);
      } else {
        forall j: nat | Up(rows, p, j).Some? ensures Up(rows, p, j).value.id != id {
          UpIsRow(rows, p, j);
          if Up(rows, p, j).value.id == id { RowsDiffer(rows, Up(rows, p, j).value, r); }
        }
        StaysGrounded(rows, id, parent, p);
        LookupMoved(rows, id, parent, parent.value);
        var p' := Moved(p, id, parent);
        var k: nat :| Up(rows', p', k).None?;
        assert Up(rows', r', k + 1) == Up(rows', p', k);
      }
    } else {
      assert Up(rows', r', 1).None?;
    }
    if Grounded(rows', r') {
      forall x | x in rows' ensures Grounded(rows', x) {
        var i :| 0 <= i < |rows'| && rows'[i] == x;
        assert rows[i] in rows;
        GroundedThroughMoved(rows, id, parent, rows[i]);
      }
    }
  }

  /** Two accepted updates can take two categories out of the forest altogether. */
  lemma TwoUpdatesCanHideCategories()
    ensures var rows := [Row("shoes", None), Row("boots", None)];
      && AllGrounded(rows)
      && Update(rows, "shoes", Some("boots")).Ok?
      && var once := Update(rows, "shoes", Some("boots")).value;
      && Update(once, "boots", Some("shoes")).Ok?
      && forall r :: r in Preorder(Update(once, "boots", Some("shoes")).value, Roots(Update(once, "boots", Some("shoes")).value), 2)
                     ==> r.id != "shoes" && r.id != "boots"
  {
    var rows := [Row("shoes", None), Row("boots", None)];
    assert forall r :: r in rows ==> Up(rows, r, 1).None?;
    var once := [Row("shoes", Some("boots")), Row("boots", None)];
    assert rows[1..] == [Row("boots", None)];
    assert Replace(rows, "shoes", Some("boots")) == once;
    var twice := [Row("shoes", Some("boots")), Row("boots", Some("shoes"))];
    assert once[1..] == [Row("boots", None)];
    assert Replace(once, "boots", Some("shoes")) == twice;
    assert twice[1..] == [Row("boots", Some("shoes"))] && twice[1..][1..] == [];
    assert Roots(twice) == [];
  }
}
