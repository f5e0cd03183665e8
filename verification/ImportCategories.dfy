/** The category cells of an import (internal/catalog/import_plan.go, planner.category): looked up once per
    spelling ignoring case, although a slug matches only as it is written. */
module ImportCategories {
  import opened Wrappers
  import opened Text
  import opened ImportCells
  import opened ImportPlan
  import opened ImportPlanLaws

  /** What a model's own category cell resolves to. */
  function OwnCategory(rows: seq<RawRow>, categories: seq<Category>): Result<string, Msg> {
    if CategoryOf(rows) == "" then Err(NoCategory) else ResolveCategory(categories, CategoryOf(rows))
  }

  predicate Names(g: Group, key: string) {
    g.key != "" && CategoryOf(g.rows) != "" && Lower(CategoryOf(g.rows)) == key
  }

  /** The first spelling of a category among these models. */
  function FirstSpelling(groups: seq<Group>, key: string): (raw: Option<string>)
    ensures raw.None? <==> forall g :: g in groups ==> !Names(g, key)
  {
    if groups == [] then None
    else if Names(groups[0], key) then Some(CategoryOf(groups[0].rows))
    else
      assert forall g :: g in groups <==> g == groups[0] || g in groups[1..];
      FirstSpelling(groups[1..], key)
  }

  /** What the planner takes a model's category for. */
  function Taken(groups: seq<Group>, cache: CategoryCache, categories: seq<Category>, rows: seq<RawRow>): Result<string, Msg> {
    var key := Lower(CategoryOf(rows));
    if CategoryOf(rows) == "" then Err(NoCategory)
    else if key in cache then cache[key]
    else match FirstSpelling(groups, key)
      case None => Err(NoCategory)
      case Some(raw) => ResolveCategory(categories, raw)
  }

  /** Every model with a key is assembled with what the first spelling of its category resolves to. */
  lemma {:induction false} FirstSpellingDecides(groups: seq<Group>, cache: CategoryCache, categories: seq<Category>, i: nat)
    requires (forall g :: g in groups ==> g.rows != []) && i < |groups| && groups[i].key != ""
    ensures |AssembleAll(groups, cache, categories)| == |groups|
    ensures AssembleAll(groups, cache, categories)[i] == Assemble(groups[i].rows, Taken(groups, cache, categories, groups[i].rows))
    decreases |groups|
  {
    hide Assemble, Alone, ResolveCategory, CategoryOf, Lower;
    ModelsFollowGroups(groups, cache, categories);
    if i > 0 {
      var cache' := if groups[0].key == "" then cache else Remember(groups[0].rows, cache, categories);
      FirstSpellingDecides(groups[1..], cache', categories, i - 1);
      assert AssembleAll(groups, cache, categories)[1..] == AssembleAll(groups[1..], cache', categories);
      TakenLater(groups, cache, categories, i);
    }
  }

  lemma TakenLater(groups: seq<Group>, cache: CategoryCache, categories: seq<Category>, i: nat)
    requires 0 < i < |groups| && groups[i].key != ""
    ensures var cache' := if groups[0].key == "" then cache else Remember(groups[0].rows, cache, categories);
      Taken(groups[1..], cache', categories, groups[i].rows) == Taken(groups, cache, categories, groups[i].rows)
  {
    hide ResolveCategory, CategoryOf, Lower;
    assert groups[i] in groups[1..] by { assert groups[1..][i - 1] == groups[i]; }
  }

  /** Which category a model was assembled with shows in the model. */
  lemma AssembleTells(rows: seq<RawRow>, c: Result<string, Msg>, c': Result<string, Msg>)
    requires rows != [] && Assemble(rows, c) == Assemble(rows, c')
    ensures c == c'
  {
    var errs, errs' := ModelErrs(rows, c), ModelErrs(rows, c');
    assert Assemble(rows, c).rows[0] == AssembleRow(rows, errs, 0) && Assemble(rows, c').rows[0] == AssembleRow(rows, errs', 0);
    var before, later := rows[0].errs, VariantErrs(rows, 0);
    assert before + errs + later == before + errs' + later;
    hide Assemble, VariantErrs, Pick, FirstPrice, AssembleRow;
    SameMiddle(before, errs, errs', later);
    var names := if Pick(rows, (r: RawRow) => r.nameRu) == "" then [NoName] else [];
    if c.Err? { assert errs[|names|] == c.error; }
    if c'.Err? { assert errs'[|names|] == c'.error; }
    assert |errs| == |errs'|;
  }

  lemma SameMiddle(a: seq<Msg>, b: seq<Msg>, b': seq<Msg>, c: seq<Msg>)
    requires a + b + c == a + b' + c
    ensures b == b'
  {
    assert |a + b + c| == |a| + |b| + |c| && |a + b' + c| == |a| + |b'| + |c|;
    assert (a + b + c)[|a|..|a| + |b|] == b && (a + b' + c)[|a|..|a| + |b'|] == b';
  }

  /** The models of one plan, and the rows each was made of. */
  ghost predicate AssembledFromOwn(rows: seq<FileRow>, point: PointId, ref: Reference, i: nat)
    requires i < |Plan(rows, point, ref)| && |Grouped(RawRows(rows, point, ref))| == |Plan(rows, point, ref)|
    requires Grouped(RawRows(rows, point, ref))[i].rows != []
  {
    var made := Grouped(RawRows(rows, point, ref))[i].rows;
    Plan(rows, point, ref)[i] == Assemble(made, OwnCategory(made, ref.categories))
  }

  /** The first spelling of a model's category in the file resolves as its own does. */
  ghost predicate SpelledAlike(groups: seq<Group>, categories: seq<Category>, g: Group) {
    CategoryOf(g.rows) != "" ==>
      var first := FirstSpelling(groups, Lower(CategoryOf(g.rows)));
      first.Some? && ResolveCategory(categories, first.value) == ResolveCategory(categories, CategoryOf(g.rows))
  }

  lemma OneModelIff(rows: seq<FileRow>, point: PointId, ref: Reference, i: nat)
    requires i < |Grouped(RawRows(rows, point, ref))| && Grouped(RawRows(rows, point, ref))[i].key != ""
    ensures |Plan(rows, point, ref)| == |Grouped(RawRows(rows, point, ref))| && Grouped(RawRows(rows, point, ref))[i].rows != []
    ensures var groups := Grouped(RawRows(rows, point, ref));
      AssembledFromOwn(rows, point, ref, i) <==> SpelledAlike(groups, ref.categories, groups[i])
  {
    var groups := Grouped(RawRows(rows, point, ref));
    PlanIs(rows, point, ref);
    assert groups[i] in groups;
    FirstSpellingDecides(groups, map[], ref.categories, i);
    var made := groups[i].rows;
    var taken, own := Taken(groups, map[], ref.categories, made), OwnCategory(made, ref.categories);
    assert Names(groups[i], Lower(CategoryOf(made))) || CategoryOf(made) == "";
    assert taken == own <==> SpelledAlike(groups, ref.categories, groups[i]) by { hide ResolveCategory, CategoryOf, Lower; }
    hide Plan, Grouped, RawRows, Assemble, Taken, OwnCategory, AssembleAll, SpelledAlike;
    if Assemble(made, taken) == Assemble(made, own) { AssembleTells(made, taken, own); }
  }

  /** Every model is assembled with what its own category cell resolves to, exactly when every model's
      category resolves as its first spelling in the file does. */
  lemma OwnCategoriesIff(rows: seq<FileRow>, point: PointId, ref: Reference)
    ensures |Plan(rows, point, ref)| == |Grouped(RawRows(rows, point, ref))|
    ensures forall g :: g in Grouped(RawRows(rows, point, ref)) ==> g.rows != []
    ensures var groups := Grouped(RawRows(rows, point, ref));
      (forall i :: 0 <= i < |groups| && groups[i].key != "" ==> AssembledFromOwn(rows, point, ref, i))
      <==> (forall i :: 0 <= i < |groups| && groups[i].key != "" ==> SpelledAlike(groups, ref.categories, groups[i]))
  {
    var groups := Grouped(RawRows(rows, point, ref));
    PlanIs(rows, point, ref);
    ModelsFollowGroups(groups, map[], ref.categories);
    hide Plan, Grouped, RawRows, AssembledFromOwn, SpelledAlike, AssembleAll, AssembledFrom;
    forall i | 0 <= i < |groups| && groups[i].key != ""
      ensures AssembledFromOwn(rows, point, ref, i) <==> SpelledAlike(groups, ref.categories, groups[i])
    {
      OneModelIff(rows, point, ref, i);
    }
  }

  // ---- a file whose order decides ----

  /** One category, whose slug is one small letter. */
  function OneCategory(): Reference { Reference([], [Category("1", "b", "", "")]) }

  /** A model of one row, with an article, a name, a category cell and a price of 1. */
  function PlainRow(line: nat, code: string, category: string): FileRow {
    FileRow(line, Cells(code, "n", "", category, "", "", "", FormatDecimal(100), "", "", "", "", ""), [])
  }

  function PlainRaw(line: nat, code: string, category: string): RawRow {
    RawRow(line, code, "n", "", category, "", "", "", Some(100), None, false, None, [], false, [])
  }

  predicate IsLetter(s: string) { |s| == 1 && ('a' <= s[0] <= 'z' || 'A' <= s[0] <= 'Z') }

  lemma LetterStays(s: string)
    requires IsLetter(s) || s == ""
    ensures NormalizeText(s) == s && TrimSpace(s) == s && NormalizeSize(s) == s
  {
    assert CollapseSpaces(s) == s by { if s != "" { assert s[1..] == ""; } }
    TrimSpaceTrims(s);
    assert CommaToDot(s) == s;
  }

  lemma PriceCell()
    ensures ParseBase(FormatDecimal(100)) == Cell(Some(100), [])
  {
    PriceRoundTrip(100);
    FormatDecimalRoundTrip(100);
    hide FormatDecimal, ParsePrice;
  }

  lemma PlainParses(line: nat, code: string, category: string)
    requires IsLetter(code) && IsLetter(category)
    ensures ParseRow(PlainRow(line, code, category), "", {}) == PlainRaw(line, code, category)
    ensures !IsBlankRow(PlainRow(line, code, category))
  {
    hide NormalizeText, NormalizeSize, TrimSpace, ParseBase, FormatDecimal, IsBlankRow;
    LetterStays(code);
    LetterStays(category);
    LetterStays("n");
    LetterStays("");
    PriceCell();
    NotBlank(line, code, category);
    var cells := PlainRow(line, code, category).cells;
    assert ParseOverride(cells.priceOverride) == Cell(None, []) && ParseVariant(cells) == Cell(None, []);
    assert ParseQuantityCell(cells.quantity, false, "") == Cell(None, []) && ParsePointCells([], false, {}) == PointCells([], []);
    hide ParseOverride, ParseVariant, ParseQuantityCell, ParsePointCells;
  }

  lemma NotBlank(line: nat, code: string, category: string)
    requires IsLetter(code)
    ensures !IsBlankRow(PlainRow(line, code, category))
  {
  }

  lemma TwoRows(a: FileRow, b: FileRow, ra: RawRow, rb: RawRow)
    requires !IsBlankRow(a) && !IsBlankRow(b) && ParseRow(a, "", {}) == ra && ParseRow(b, "", {}) == rb
    requires !HasSku(ra) && !HasSku(rb)
    ensures ParseRows([a, b], "", {}, map[]) == [ra, rb]
  {
    hide IsBlankRow, ParseRow;
    assert [a, b][1..] == [b] && [b][1..] == [];
    assert ParseRows([b], "", {}, map[]) == [rb];
  }

  lemma TwoGroups(ra: RawRow, rb: RawRow)
    requires GroupKey(ra) != "" && GroupKey(rb) != "" && GroupKey(ra) != GroupKey(rb)
    ensures Grouped([ra, rb]) == [Group(GroupKey(ra), [ra]), Group(GroupKey(rb), [rb])]
  {
    hide GroupKey;
    assert [ra, rb][..1] == [ra] && [ra][..0] == [];
    assert Grouped([ra]) == [Group(GroupKey(ra), [ra])];
  }

  lemma PlainKeys(line: nat, code: string, category: string, line': nat, code': string, category': string)
    requires code == "x" && code' == "y"
    ensures var k, k' := GroupKey(PlainRaw(line, code, category)), GroupKey(PlainRaw(line', code', category'));
      k != "" && k' != "" && k != k'
  {
    var k, k' := GroupKey(PlainRaw(line, code, category)), GroupKey(PlainRaw(line', code', category'));
    assert k[2] == 'x' && k'[2] == 'y';
  }

  /** A plain model fails exactly on its category. */
  lemma PlainFailsIff(r: RawRow, c: Result<string, Msg>)
    requires r.nameRu != "" && r.price.Some? && r.variant.None? && r.errs == []
    ensures Failed(Assemble([r], c)) <==> c.Err?
  {
    assert [r][1..] == [];
    assert Pick([r], (r: RawRow) => r.nameRu) == r.nameRu;
    var errs := ModelErrs([r], c);
    assert errs == if c.Err? then [c.error] else [];
    var m := Assemble([r], c);
    assert m.rows == [AssembleRow([r], errs, 0)];
    assert VariantErrs([r], 0) == [];
    assert m.rows[0].errs == errs;
    assert m.rows[0] in m.rows;
  }

  lemma OnlyExactSlug()
    ensures ResolveCategory(OneCategory().categories, "b") == Ok("1")
    ensures ResolveCategory(OneCategory().categories, "B") == Err(CategoryNotFound)
  {
    var categories := OneCategory().categories;
    assert Lower("")  == "" && |Lower("b")| == 1 && |Lower("B")| == 1;
    assert categories[1..] == [];
    assert Matching(categories, "b") == [categories[0]];
    assert Matching(categories, "B") == [];
    assert categories[0] in Matching(categories, "b");
  }

  lemma TwoAssembled(ra: RawRow, rb: RawRow, categories: seq<Category>)
    requires GroupKey(ra) != "" && GroupKey(rb) != "" && ra.category != "" && Lower(ra.category) == Lower(rb.category)
    ensures var groups, c := [Group(GroupKey(ra), [ra]), Group(GroupKey(rb), [rb])], ResolveCategory(categories, ra.category);
      AssembleAll(groups, map[], categories) == [Assemble([ra], c), Assemble([rb], c)]
  {
    var groups := [Group(GroupKey(ra), [ra]), Group(GroupKey(rb), [rb])];
    assert [ra][1..] == [] && CategoryOf([ra]) == ra.category;
    assert [rb][1..] == [] && CategoryOf([rb]) == rb.category;
    hide Assemble, ResolveCategory, CategoryOf, GroupKey, Lower;
    assert groups[1..] == [groups[1]] && groups[1..][1..] == [];
    var cache := Remember([ra], map[], categories);
    assert cache == map[Lower(ra.category) := ResolveCategory(categories, ra.category)];
    assert CategoryLookup([rb], cache, categories) == ResolveCategory(categories, ra.category);
    assert AssembleAll(groups[1..], cache, categories) == [Assemble([rb], ResolveCategory(categories, ra.category))];
  }

  /** Two plain rows of different articles, with spellings of one category: both fare as the first. */
  lemma TwoPlanned(a: FileRow, b: FileRow, ra: RawRow, rb: RawRow)
    requires !IsBlankRow(a) && !IsBlankRow(b) && ParseRow(a, "", {}) == ra && ParseRow(b, "", {}) == rb
    requires GroupKey(ra) != "" && GroupKey(rb) != "" && GroupKey(ra) != GroupKey(rb)
    requires ra.category != "" && Lower(ra.category) == Lower(rb.category)
    requires ra.nameRu != "" && ra.price.Some? && ra.variant.None? && ra.errs == []
    requires rb.nameRu != "" && rb.price.Some? && rb.variant.None? && rb.errs == []
    ensures var models := Plan([a, b], "", OneCategory());
      && |models| == 2
      && (Failed(models[0]) <==> ResolveCategory(OneCategory().categories, ra.category).Err?)
      && (Failed(models[1]) <==> ResolveCategory(OneCategory().categories, ra.category).Err?)
  {
    var ref := OneCategory();
    var c := ResolveCategory(ref.categories, ra.category);
    assert !HasSku(ra) && !HasSku(rb);
    assert Active(ref) == {};
    RawIs([a, b], ref);
    hide IsBlankRow, ParseRow, GroupKey, Lower, ResolveCategory, Plan, Assemble, Failed, ParseRows, RawRows, AssembleAll, Grouped, Active;
    TwoRows(a, b, ra, rb);
    TwoGroups(ra, rb);
    TwoAssembled(ra, rb, ref.categories);
    PlanIs([a, b], "", ref);
    PlainFailsIff(ra, c);
    PlainFailsIff(rb, c);
  }

  lemma RawIs(rows: seq<FileRow>, ref: Reference)
    requires Active(ref) == {}
    ensures RawRows(rows, "", ref) == ParseRows(rows, "", {}, map[])
  {
  }

  /** With the category spelled B before b, the model whose cell is the very slug is refused; with the two
      rows the other way round both models are accepted. */
  lemma OrderOfSpellingsDecides()
    ensures ResolveCategory(OneCategory().categories, "b") == Ok("1")
    ensures var models := Plan([PlainRow(2, "x", "B"), PlainRow(3, "y", "b")], "", OneCategory());
      |models| == 2 && Failed(models[0]) && Failed(models[1])
    ensures var models := Plan([PlainRow(2, "y", "b"), PlainRow(3, "x", "B")], "", OneCategory());
      |models| == 2 && !Failed(models[0]) && !Failed(models[1])
  {
    OnlyExactSlug();
    SpelledTwoWays();
    PlainKeys(2, "x", "B", 3, "y", "b");
    PlainKeys(3, "x", "B", 2, "y", "b");
    hide *;
    TwoPlain(2, "x", "B", 3, "y", "b");
    TwoPlain(2, "y", "b", 3, "x", "B");
  }

  lemma TwoPlain(line: nat, code: string, category: string, line': nat, code': string, category': string)
    requires IsLetter(code) && IsLetter(category) && IsLetter(code') && IsLetter(category') && Lower(category) == Lower(category')
    requires var k, k' := GroupKey(PlainRaw(line, code, category)), GroupKey(PlainRaw(line', code', category'));
      k != "" && k' != "" && k != k'
    ensures var models := Plan([PlainRow(line, code, category), PlainRow(line', code', category')], "", OneCategory());
      && |models| == 2
      && (Failed(models[0]) <==> ResolveCategory(OneCategory().categories, category).Err?)
      && (Failed(models[1]) <==> ResolveCategory(OneCategory().categories, category).Err?)
  {
    PlainParses(line, code, category);
    PlainParses(line', code', category');
    hide ParseRow, IsBlankRow, PlainRow, GroupKey, Lower, ResolveCategory, Plan, Failed;
    TwoPlanned(PlainRow(line, code, category), PlainRow(line', code', category'), PlainRaw(line, code, category), PlainRaw(line', code', category'));
  }

  lemma SpelledTwoWays()
    ensures Lower("B") == Lower("b") && IsLetter("B") && IsLetter("b") && IsLetter("x") && IsLetter("y")
  {
    assert Lower("B")[0] == 'b' == Lower("b")[0];
  }
}
