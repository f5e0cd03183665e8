/** What the planner guarantees: where rows go, and what a model without errors looks like. */
module ImportPlanLaws {
  import opened Wrappers
  import opened Text
  import opened ImportCells
  import opened ImportPlan

  // ---- rows ----

  /** A parsed row: a bad price is an error, prices are positive, and only a variant has stock. */
  ghost predicate RowOk(r: RawRow, defaultPoint: PointId, active: set<PointId>) {
    && (r.priceBad ==> r.errs != [])
    && (r.price.Some? ==> 0 < r.price.value <= MAX_PRICE)
    && (r.priceOverride.Some? ==> r.priceOverride.value <= MAX_PRICE)
    && (r.variant.Some? ==> r.variant.value.size != "" && r.variant.value.color != "")
    && (r.variant.None? ==> r.stock == [])
    && StockOk(r.stock, defaultPoint, active)
  }

  ghost predicate StockOk(stock: seq<(PointId, nat)>, defaultPoint: PointId, active: set<PointId>) {
    forall s :: s in stock ==> s.1 <= MAX_QUANTITY && (s.0 in active || (s.0 == defaultPoint && defaultPoint != ""))
  }

  lemma {:induction false} PointCellsAreOk(points: seq<(PointId, string)>, hasVariant: bool, defaultPoint: PointId, active: set<PointId>)
    ensures var p := ParsePointCells(points, hasVariant, active);
      StockOk(p.stock, defaultPoint, active) && (!hasVariant ==> p.stock == [])
  {
    if points != [] {
      PointCellsAreOk(points[1..], hasVariant, defaultPoint, active);
      hide ParseQuantity;
      QuantityFits(points[0].1);
    }
  }

  lemma QuantityFits(v: string)
    ensures ParseQuantity(v).Ok? ==> ParseQuantity(v).value <= MAX_QUANTITY
  {
  }

  lemma PriceFits(v: string)
    ensures ParsePrice(v).Ok? ==> ParsePrice(v).value <= MAX_PRICE
  {
  }

  lemma ParsedRowIsOk(row: FileRow, defaultPoint: PointId, active: set<PointId>)
    ensures RowOk(ParseRow(row, defaultPoint, active), defaultPoint, active)
  {
    var variant := ParseVariant(row.cells);
    PointCellsAreOk(row.points, variant.value.Some?, defaultPoint, active);
    QuantityFits(row.cells.quantity);
    PriceFits(row.cells.price);
    PriceFits(row.cells.priceOverride);
    hide ParseQuantity, ParsePrice, ParsePointCells, NormalizeText, NormalizeSize, TrimSpace;
  }

  lemma {:induction false} ParsedRowsAreOk(rows: seq<FileRow>, defaultPoint: PointId, active: set<PointId>, skuLines: map<string, nat>)
    ensures forall r :: r in ParseRows(rows, defaultPoint, active, skuLines) ==> RowOk(r, defaultPoint, active)
  {
    hide ParseRow, IsBlankRow;
    if rows != [] {
      var r := ParseRow(rows[0], defaultPoint, active);
      ParsedRowIsOk(rows[0], defaultPoint, active);
      var again := HasSku(r) && r.variant.value.sku in skuLines;
      ParsedRowsAreOk(rows[1..], defaultPoint, active, skuLines);
      if !again && HasSku(r) {
        ParsedRowsAreOk(rows[1..], defaultPoint, active, skuLines[r.variant.value.sku := r.line]);
      }
    }
  }

  function FileLines(rows: seq<FileRow>): seq<nat> {
    if rows == [] then [] else (if IsBlankRow(rows[0]) then [] else [rows[0].line]) + FileLines(rows[1..])
  }

  function Lines(rows: seq<RawRow>): seq<nat> {
    if rows == [] then [] else [rows[0].line] + Lines(rows[1..])
  }

  lemma {:induction false} LinesAppend(rows: seq<RawRow>, r: RawRow)
    ensures Lines(rows + [r]) == Lines(rows) + [r.line]
  {
    if rows == [] {
      assert rows + [r] == [r];
    } else {
      assert (rows + [r])[0] == rows[0] && (rows + [r])[1..] == rows[1..] + [r];
      LinesAppend(rows[1..], r);
    }
  }

  /** Parsing keeps the non-blank rows, in file order. */
  lemma {:induction false} ParsedLines(rows: seq<FileRow>, defaultPoint: PointId, active: set<PointId>, skuLines: map<string, nat>)
    ensures Lines(ParseRows(rows, defaultPoint, active, skuLines)) == FileLines(rows)
  {
    hide IsBlankRow;
    if rows != [] {
      var r := ParseRow(rows[0], defaultPoint, active);
      assert r.line == rows[0].line;
      hide ParseRow;
      if !IsBlankRow(rows[0]) && HasSku(r) && r.variant.value.sku !in skuLines {
        ParsedLines(rows[1..], defaultPoint, active, skuLines[r.variant.value.sku := r.line]);
      } else {
        ParsedLines(rows[1..], defaultPoint, active, skuLines);
      }
    }
  }

  ghost predicate SkuOf(r: RawRow, sku: string) { HasSku(r) && r.variant.value.sku == sku }

  /** Of two rows with one SKU the later is in error. */
  ghost predicate SkusMarked(rows: seq<RawRow>) {
    forall i, j :: 0 <= i < j < |rows| && HasSku(rows[i]) && SkuOf(rows[j], rows[i].variant.value.sku) ==> rows[j].errs != []
  }

  lemma {:induction false} RepeatedSkusAreMarked(rows: seq<FileRow>, defaultPoint: PointId, active: set<PointId>, skuLines: map<string, nat>)
    ensures var raw := ParseRows(rows, defaultPoint, active, skuLines);
      && SkusMarked(raw)
      && forall r :: r in raw && HasSku(r) && r.variant.value.sku in skuLines ==> r.errs != []
  {
    hide IsBlankRow, ParseRow;
    if rows != [] {
      var r := ParseRow(rows[0], defaultPoint, active);
      if !IsBlankRow(rows[0]) && HasSku(r) && r.variant.value.sku !in skuLines {
        RepeatedSkusAreMarked(rows[1..], defaultPoint, active, skuLines[r.variant.value.sku := r.line]);
        var rest := ParseRows(rows[1..], defaultPoint, active, skuLines[r.variant.value.sku := r.line]);
        MarkedFirst(r, rest);
      } else {
        RepeatedSkusAreMarked(rows[1..], defaultPoint, active, skuLines);
        var rest := ParseRows(rows[1..], defaultPoint, active, skuLines);
        if !IsBlankRow(rows[0]) { MarkedFirst(ParseRows(rows, defaultPoint, active, skuLines)[0], rest); }
      }
    }
  }

  lemma MarkedFirst(r: RawRow, rest: seq<RawRow>)
    requires SkusMarked(rest)
    requires HasSku(r) ==> forall s :: s in rest && SkuOf(s, r.variant.value.sku) ==> s.errs != []
    ensures SkusMarked([r] + rest)
  {
    var all := [r] + rest;
    forall i, j | 0 <= i < j < |all| && HasSku(all[i]) && SkuOf(all[j], all[i].variant.value.sku) ensures all[j].errs != [] {
      assert all[j] == rest[j - 1];
      if i > 0 { assert all[i] == rest[i - 1]; }
    }
  }

  // ---- groups ----

  function WithKey(rows: seq<RawRow>, key: string): seq<RawRow> {
    if rows == [] then []
    else WithKey(rows[..|rows| - 1], key) + if GroupKey(rows[|rows| - 1]) == key then [rows[|rows| - 1]] else []
  }

  lemma {:induction false} WithKeyIs(rows: seq<RawRow>, key: string)
    ensures forall r :: r in WithKey(rows, key) <==> r in rows && GroupKey(r) == key
  {
    hide GroupKey;
    if rows != [] {
      WithKeyIs(rows[..|rows| - 1], key);
      assert forall r :: r in rows <==> r in rows[..|rows| - 1] || r == rows[|rows| - 1];
    }
  }

  /** A group with a key is exactly the rows with that key, in file order. */
  ghost predicate HoldTheirRows(groups: seq<Group>, rows: seq<RawRow>) {
    forall i :: 0 <= i < |groups| && groups[i].key != "" ==> groups[i].rows == WithKey(rows, groups[i].key) && groups[i].rows != []
  }

  ghost predicate KeysApart(groups: seq<Group>) {
    forall i, j :: 0 <= i < j < |groups| && groups[i].key != "" ==> groups[i].key != groups[j].key
  }

  ghost predicate EveryKeyHasGroup(groups: seq<Group>, rows: seq<RawRow>) {
    forall r :: r in rows && GroupKey(r) != "" ==> Find(groups, GroupKey(r)) < |groups|
  }

  /** A row without a key is alone. */
  ghost predicate LonersAreAlone(groups: seq<Group>, rows: seq<RawRow>) {
    forall i :: 0 <= i < |groups| && groups[i].key == "" ==> |groups[i].rows| == 1 && IsLoner(groups[i].rows[0], rows)
  }

  ghost predicate IsLoner(shown: RawRow, rows: seq<RawRow>) {
    exists r :: r in rows && GroupKey(r) == "" && shown == Keyless(r)
  }

  lemma WithKeyNext(rows: seq<RawRow>, r: RawRow, key: string)
    ensures WithKey(rows + [r], key) == WithKey(rows, key) + if GroupKey(r) == key then [r] else []
  {
    assert (rows + [r])[..|rows|] == rows;
    hide GroupKey;
  }

  lemma AddedRowHolds(groups: seq<Group>, rows: seq<RawRow>, r: RawRow)
    requires HoldTheirRows(groups, rows) && KeysApart(groups) && EveryKeyHasGroup(groups, rows)
    ensures HoldTheirRows(AddRow(groups, r), rows + [r])
  {
    var groups' := AddRow(groups, r);
    var at := Find(groups, GroupKey(r));
    hide GroupKey, Keyless;
    forall i | 0 <= i < |groups'| && groups'[i].key != ""
      ensures groups'[i].rows == WithKey(rows + [r], groups'[i].key) && groups'[i].rows != []
    {
      WithKeyNext(rows, r, groups'[i].key);
      if i == |groups| {
        WithKeyIs(rows, GroupKey(r));
        assert forall s :: s in rows ==> GroupKey(s) != GroupKey(r);
        NoneThere(WithKey(rows, GroupKey(r)));
      }
    }
  }

  lemma NoneThere(rows: seq<RawRow>)
    ensures rows != [] ==> exists r :: r in rows
  {
    if rows != [] { assert rows[0] in rows; }
  }

  lemma AddedRowKeepsApart(groups: seq<Group>, r: RawRow)
    requires KeysApart(groups)
    ensures KeysApart(AddRow(groups, r))
  {
    hide GroupKey, Keyless;
  }

  lemma FindFinds(groups: seq<Group>, key: string, i: nat)
    requires i < |groups| && groups[i].key == key
    ensures Find(groups, key) < |groups|
  {
  }

  lemma AddedRowHasGroup(groups: seq<Group>, rows: seq<RawRow>, r: RawRow)
    requires EveryKeyHasGroup(groups, rows)
    ensures EveryKeyHasGroup(AddRow(groups, r), rows + [r])
  {
    var groups', at := AddRow(groups, r), Find(groups, GroupKey(r));
    hide GroupKey, Keyless;
    forall s | s in rows + [r] && GroupKey(s) != "" ensures Find(groups', GroupKey(s)) < |groups'| {
      var i := Find(groups, GroupKey(s));
      if i < |groups| { FindFinds(groups', GroupKey(s), i); } else { FindFinds(groups', GroupKey(s), |groups|); }
    }
  }

  lemma AddedRowIsAlone(groups: seq<Group>, rows: seq<RawRow>, r: RawRow)
    requires LonersAreAlone(groups, rows)
    ensures LonersAreAlone(AddRow(groups, r), rows + [r])
  {
    var groups' := AddRow(groups, r);
    hide GroupKey, Keyless;
    forall i | 0 <= i < |groups'| && groups'[i].key == "" ensures |groups'[i].rows| == 1 && IsLoner(groups'[i].rows[0], rows + [r]) {
      if i == |groups| {
        assert r in rows + [r];
      } else {
        var s :| s in rows && GroupKey(s) == "" && groups[i].rows[0] == Keyless(s);
        assert s in rows + [r];
      }
    }
  }

  lemma NoGroups()
    ensures var groups := Grouped([]);
      groups == [] && HoldTheirRows(groups, []) && KeysApart(groups) && EveryKeyHasGroup(groups, []) && LonersAreAlone(groups, [])
  {
  }

  lemma GroupedNext(rows: seq<RawRow>, r: RawRow)
    ensures Grouped(rows + [r]) == AddRow(Grouped(rows), r)
  {
    assert (rows + [r])[..|rows|] == rows;
    hide AddRow;
  }

  /** Rows share a group exactly when they share a key. */
  lemma {:induction false} GroupsFollowKeys(rows: seq<RawRow>)
    ensures var groups := Grouped(rows);
      HoldTheirRows(groups, rows) && KeysApart(groups) && EveryKeyHasGroup(groups, rows) && LonersAreAlone(groups, rows)
  {
    hide *;
    if rows == [] {
      NoGroups();
    } else {
      var init, last := rows[..|rows| - 1], rows[|rows| - 1];
      GroupsFollowKeys(init);
      GroupedNext(init, last);
      assert init + [last] == rows;
      AddedRowHolds(Grouped(init), init, last);
      AddedRowKeepsApart(Grouped(init), last);
      AddedRowHasGroup(Grouped(init), init, last);
      AddedRowIsAlone(Grouped(init), init, last);
    }
  }

  function GroupLines(groups: seq<Group>): seq<nat> {
    if groups == [] then [] else Lines(groups[0].rows) + GroupLines(groups[1..])
  }

  lemma {:induction false} GroupLinesSplit(groups: seq<Group>, i: nat)
    requires i < |groups|
    ensures GroupLines(groups) == GroupLines(groups[..i]) + Lines(groups[i].rows) + GroupLines(groups[i + 1..])
  {
    hide Lines;
    if i == 0 {
      assert groups[..0] == [];
    } else {
      GroupLinesSplit(groups[1..], i - 1);
      assert groups[..i][1..] == groups[1..][..i - 1] && groups[..i][0] == groups[0];
      assert groups[1..][i..] == groups[i + 1..];
    }
  }

  lemma AddedRowLines(groups: seq<Group>, r: RawRow)
    ensures multiset(GroupLines(AddRow(groups, r))) == multiset(GroupLines(groups)) + multiset{r.line}
  {
    var groups', i := AddRow(groups, r), Find(groups, GroupKey(r));
    var known := GroupKey(r) != "" && i < |groups|;
    hide GroupKey;
    if known {
      GroupLinesSplit(groups, i);
      GroupLinesSplit(groups', i);
      assert groups'[..i] == groups[..i] && groups'[i + 1..] == groups[i + 1..];
      LinesAppend(groups[i].rows, r);
    } else {
      GroupLinesSplit(groups', |groups|);
      assert groups'[..|groups|] == groups && groups'[|groups| + 1..] == [];
      assert groups'[|groups|].rows[1..] == [] && groups'[|groups|].rows[0].line == r.line;
      assert Lines(groups'[|groups|].rows) == [r.line];
    }
    hide *;
  }

  /** Every row is in exactly one group. */
  lemma {:induction false} GroupsConserveRows(rows: seq<RawRow>)
    ensures multiset(GroupLines(Grouped(rows))) == multiset(Lines(rows))
  {
    hide AddRow, Lines, GroupLines;
    if rows == [] {
      NoLines();
    } else {
      var init, last := rows[..|rows| - 1], rows[|rows| - 1];
      GroupsConserveRows(init);
      AddedRowLines(Grouped(init), last);
      LinesAppend(init, last);
      assert init + [last] == rows;
      assert Lines(rows) == Lines(init) + [last.line];
    }
  }

  lemma NoLines()
    ensures Lines([]) == [] && GroupLines([]) == []
  {
  }

  // ---- models ----

  function RowLines(rows: seq<Row>): seq<nat> {
    if rows == [] then [] else [rows[0].line] + RowLines(rows[1..])
  }

  function ModelLines(models: seq<Model>): seq<nat> {
    if models == [] then [] else RowLines(models[0].rows) + ModelLines(models[1..])
  }

  ghost predicate AssembledFrom(m: Model, g: Group) {
    && g.rows != []
    && if g.key == "" then m == Alone(g.rows[0]) else exists category :: m == Assemble(g.rows, category)
  }

  lemma {:induction false} SameLines(rows: seq<RawRow>, out: seq<Row>)
    requires |out| == |rows| && forall i :: 0 <= i < |rows| ==> out[i].line == rows[i].line
    ensures RowLines(out) == Lines(rows)
  {
    if rows != [] { SameLines(rows[1..], out[1..]); }
  }

  lemma AssembledLines(m: Model, g: Group)
    requires AssembledFrom(m, g) && (g.key == "" ==> |g.rows| == 1)
    ensures RowLines(m.rows) == Lines(g.rows)
  {
    SameLines(g.rows, m.rows);
  }

  lemma {:induction false} ModelsFollowGroups(groups: seq<Group>, cache: CategoryCache, categories: seq<Category>)
    requires forall g :: g in groups ==> g.rows != []
    ensures var models := AssembleAll(groups, cache, categories);
      |models| == |groups| && forall i :: 0 <= i < |groups| ==> AssembledFrom(models[i], groups[i])
    decreases |groups|
  {
    hide Assemble, Alone, Remember, CategoryLookup;
    if groups != [] {
      var cache' := if groups[0].key == "" then cache else Remember(groups[0].rows, cache, categories);
      ModelsFollowGroups(groups[1..], cache', categories);
    }
  }

  lemma {:induction false} ModelLinesAre(groups: seq<Group>, models: seq<Model>)
    requires |models| == |groups|
    requires forall i :: 0 <= i < |groups| ==> AssembledFrom(models[i], groups[i]) && (groups[i].key == "" ==> |groups[i].rows| == 1)
    ensures ModelLines(models) == GroupLines(groups)
    decreases |groups|
  {
    if groups != [] {
      AssembledLines(models[0], groups[0]);
      hide AssembledFrom, Lines, RowLines;
      assert forall i :: 0 <= i < |groups| - 1 ==> groups[1..][i] == groups[i + 1] && models[1..][i] == models[i + 1];
      ModelLinesAre(groups[1..], models[1..]);
    }
  }

  /** Every non-blank row of the file is in exactly one model. */
  lemma EveryRowIsPlannedOnce(rows: seq<FileRow>, defaultPoint: PointId, ref: Reference)
    ensures multiset(ModelLines(Plan(rows, defaultPoint, ref))) == multiset(FileLines(rows))
  {
    var raw := RawRows(rows, defaultPoint, ref);
    GroupsAreNotEmpty(raw);
    GroupsFollowKeys(raw);
    GroupsConserveRows(raw);
    ParsedLines(rows, defaultPoint, Active(ref), map[]);
    ModelsFollowGroups(Grouped(raw), map[], ref.categories);
    hide AssembledFrom, HoldTheirRows, KeysApart, EveryKeyHasGroup, IsLoner, Lines, ModelLines, GroupLines, AssembleAll, ParseRows, Grouped, FileLines;
    ModelLinesAre(Grouped(raw), Plan(rows, defaultPoint, ref));
  }

  // ---- a model without errors ----

  /** What a variant sells for. */
  function Price(m: Model, i: nat): nat
    requires i < |m.rows|
  {
    var r := m.rows[i];
    if r.variant.Some? && r.variant.value.override.Some? then r.variant.value.override.value else m.product.basePrice
  }

  ghost predicate SameSizeColor(a: Row, b: Row) {
    && a.variant.Some? && b.variant.Some?
    && Lower(a.variant.value.size) == Lower(b.variant.value.size) && Lower(a.variant.value.color) == Lower(b.variant.value.color)
  }

  ghost predicate SoundRow(r: Row, defaultPoint: PointId, active: set<PointId>) {
    && r.errs == [] && StockOk(r.stock, defaultPoint, active)
    && (r.variant.None? ==> r.stock == [])
    && (r.variant.Some? ==> r.variant.value.size != "" && r.variant.value.color != "")
    && (r.variant.Some? && r.variant.value.override.Some? ==> 0 < r.variant.value.override.value <= MAX_PRICE)
  }

  ghost predicate Sound(m: Model, defaultPoint: PointId, active: set<PointId>) {
    && m.rows != [] && m.product.nameRu != "" && 0 < m.product.basePrice <= MAX_PRICE
    && (forall i :: 0 <= i < |m.rows| ==> SoundRow(m.rows[i], defaultPoint, active))
    && (|m.rows| > 1 ==> forall i :: 0 <= i < |m.rows| ==> m.rows[i].variant.Some?)
    && (forall i, j :: 0 <= i < j < |m.rows| ==> !SameSizeColor(m.rows[i], m.rows[j]))
  }

  lemma {:induction false} FirstPriceIs(rows: seq<RawRow>)
    ensures FirstPrice(rows).None? <==> forall r :: r in rows ==> r.price.None?
    ensures FirstPrice(rows).Some? ==> exists r :: r in rows && r.price == FirstPrice(rows)
  {
    if rows != [] {
      FirstPriceIs(rows[1..]);
      assert forall r :: r in rows <==> r == rows[0] || r in rows[1..];
    }
  }

  lemma {:induction false} FirstWithIs(rows: seq<RawRow>, key: string)
    ensures FirstWith(rows, key).None? <==> forall s :: s in rows ==> !HasKey(s, key)
  {
    hide HasKey;
    if rows != [] {
      FirstWithIs(rows[..|rows| - 1], key);
      assert forall s :: s in rows <==> s == rows[|rows| - 1] || s in rows[..|rows| - 1];
    }
  }

  /** What it takes for a model to be free of errors. */
  lemma ErrorFree(rows: seq<RawRow>, category: Result<string, Msg>)
    requires rows != [] && !Failed(Assemble(rows, category))
    ensures ModelErrs(rows, category) == []
    ensures forall i :: 0 <= i < |rows| ==> rows[i].errs == [] && VariantErrs(rows, i) == [] && Assemble(rows, category).rows[i].errs == []
  {
    var m := Assemble(rows, category);
    var errs := ModelErrs(rows, category);
    hide ModelErrs, VariantErrs, Pick, FirstPrice, OverrideOf;
    forall i | 0 <= i < |rows|
      ensures rows[i].errs == [] && VariantErrs(rows, i) == [] && m.rows[i].errs == [] && (i == 0 ==> errs == [])
    {
      assert m.rows[i] in m.rows && m.rows[i] == AssembleRow(rows, errs, i);
      NothingIn(rows[i].errs, if i == 0 then errs else [], VariantErrs(rows, i));
    }
  }

  lemma NothingIn(a: seq<Msg>, b: seq<Msg>, c: seq<Msg>)
    ensures a + b + c == [] <==> a == [] && b == [] && c == []
  {
    assert |a + b + c| == |a| + |b| + |c|;
  }

  /** A model without errors has a category, a name and a positive base price, which is the first price
      among its rows. */
  lemma ErrorFreeProduct(rows: seq<RawRow>, category: Result<string, Msg>, defaultPoint: PointId, active: set<PointId>)
    requires rows != [] && !Failed(Assemble(rows, category)) && forall r :: r in rows ==> RowOk(r, defaultPoint, active)
    ensures category.Ok? && FirstPrice(rows).Some?
    ensures var p := Assemble(rows, category).product;
      && p.categoryId == category.value && p.nameRu != "" && 0 < p.basePrice <= MAX_PRICE
      && p.basePrice == FirstPrice(rows).value && p.modelCode == rows[0].modelCode
  {
    ErrorFree(rows, category);
    FirstPriceIs(rows);
    hide FirstPrice, Pick, StockOk, AssembleRow;
    forall r | r in rows ensures !r.priceBad {
      var i :| 0 <= i < |rows| && rows[i] == r;
      assert rows[i].errs == [];
    }
    assert !HasBadPrice(rows);
  }

  /** A variant sells for its override cell if that is positive, for the base price if that cell is zero,
      and otherwise for its own price cell, or the base price when it has none. */
  lemma EffectivePrice(rows: seq<RawRow>, category: Result<string, Msg>, i: nat, defaultPoint: PointId, active: set<PointId>)
    requires rows != [] && !Failed(Assemble(rows, category)) && forall r :: r in rows ==> RowOk(r, defaultPoint, active)
    requires i < |rows| && rows[i].variant.Some?
    ensures var m, r := Assemble(rows, category), rows[i];
      && 0 < Price(m, i) <= MAX_PRICE
      && Price(m, i) ==
           match r.priceOverride
           case Some(o) => (if o > 0 then o else m.product.basePrice)
           case None => if r.price.Some? then r.price.value else m.product.basePrice
  {
    ErrorFreeProduct(rows, category, defaultPoint, active);
    assert rows[i] in rows;
    var errs := ModelErrs(rows, category);
    var m := Assemble(rows, category);
    hide FirstPrice, Pick, StockOk, VariantErrs, ModelErrs, Failed;
    assert m.rows[i] == AssembleRow(rows, errs, i);
  }

  lemma SoundRows(rows: seq<RawRow>, category: Result<string, Msg>, defaultPoint: PointId, active: set<PointId>, i: nat)
    requires rows != [] && !Failed(Assemble(rows, category)) && forall r :: r in rows ==> RowOk(r, defaultPoint, active)
    requires i < |rows|
    ensures SoundRow(Assemble(rows, category).rows[i], defaultPoint, active)
    ensures Assemble(rows, category).rows[i].variant.Some? <==> rows[i].variant.Some?
    ensures |rows| > 1 ==> rows[i].variant.Some?
  {
    ErrorFree(rows, category);
    ErrorFreeProduct(rows, category, defaultPoint, active);
    assert rows[i] in rows;
    var errs := ModelErrs(rows, category);
    var m := Assemble(rows, category);
    hide FirstPrice, Pick, StockOk, ModelErrs, Failed, FirstWith;
    assert m.rows[i] == AssembleRow(rows, errs, i);
  }

  lemma SoundPair(rows: seq<RawRow>, category: Result<string, Msg>, i: nat, j: nat)
    requires rows != [] && !Failed(Assemble(rows, category)) && i < j < |rows|
    ensures !SameSizeColor(Assemble(rows, category).rows[i], Assemble(rows, category).rows[j])
  {
    ErrorFree(rows, category);
    if rows[j].variant.Some? { FirstWithIs(rows[..j], SizeKey(rows[j].variant.value)); }
    assert rows[i] == rows[..j][i] && rows[i] in rows[..j];
    assert rows[j].variant.Some? ==> !HasKey(rows[i], SizeKey(rows[j].variant.value));
    var errs := ModelErrs(rows, category);
    var m := Assemble(rows, category);
    hide FirstPrice, Pick, ModelErrs, Failed, FirstWith, Lower;
    assert m.rows[i] == AssembleRow(rows, errs, i) && m.rows[j] == AssembleRow(rows, errs, j);
  }

  lemma AssembledIsSound(rows: seq<RawRow>, category: Result<string, Msg>, defaultPoint: PointId, active: set<PointId>)
    requires rows != [] && !Failed(Assemble(rows, category)) && forall r :: r in rows ==> RowOk(r, defaultPoint, active)
    ensures Sound(Assemble(rows, category), defaultPoint, active)
  {
    ErrorFreeProduct(rows, category, defaultPoint, active);
    var m := Assemble(rows, category);
    assert |m.rows| == |rows|;
    hide Assemble, SoundRow, SameSizeColor;
    forall i | 0 <= i < |rows| ensures SoundRow(m.rows[i], defaultPoint, active) && (|rows| > 1 ==> m.rows[i].variant.Some?) {
      SoundRows(rows, category, defaultPoint, active, i);
    }
    forall i, j | 0 <= i < j < |rows| ensures !SameSizeColor(m.rows[i], m.rows[j]) {
      SoundPair(rows, category, i, j);
    }
  }

  lemma LonerFails(shown: RawRow, rows: seq<RawRow>)
    requires IsLoner(shown, rows)
    ensures Failed(Alone(shown))
  {
    var r :| r in rows && GroupKey(r) == "" && shown == Keyless(r);
    assert r.nameRu == "" || r.category == "";
    hide Lower, GroupKey;
    var m := Alone(shown);
    assert m.rows[0] in m.rows;
  }

  /** The group behind a model, and that a model without errors is sound. */
  lemma PlannedModel(rows: seq<FileRow>, defaultPoint: PointId, ref: Reference, i: nat)
    requires i < |Plan(rows, defaultPoint, ref)|
    ensures var raw, m := RawRows(rows, defaultPoint, ref), Plan(rows, defaultPoint, ref)[i];
      && |Grouped(raw)| == |Plan(rows, defaultPoint, ref)|
      && m.rows != []
      && AssembledFrom(m, Grouped(raw)[i])
      && (!Failed(m) ==> Grouped(raw)[i].key != "" && Sound(m, defaultPoint, Active(ref)))
  {
    var raw := RawRows(rows, defaultPoint, ref);
    var groups, m := Grouped(raw), Plan(rows, defaultPoint, ref)[i];
    GroupsAreNotEmpty(raw);
    GroupsFollowKeys(raw);
    ParsedRowsAreOk(rows, defaultPoint, Active(ref), map[]);
    ModelsFollowGroups(groups, map[], ref.categories);
    hide RawRows, Grouped, Plan, RowOk, Sound, Assemble, Alone, IsLoner, Failed, ParseRows;
    assert |groups| == |Plan(rows, defaultPoint, ref)| && AssembledFrom(m, groups[i]) by { PlanIs(rows, defaultPoint, ref); }
    var g := groups[i];
    if g.key == "" {
      LonerFails(g.rows[0], raw);
      assert m.rows != [] by { AloneHasRow(g.rows[0]); }
    } else {
      var category :| m == Assemble(g.rows, category);
      AssembledHasRows(g.rows, category);
      WithKeyIs(raw, g.key);
      if !Failed(m) { AssembledIsSound(g.rows, category, defaultPoint, Active(ref)); }
    }
  }

  lemma PlanIs(rows: seq<FileRow>, defaultPoint: PointId, ref: Reference)
    ensures var groups := Grouped(RawRows(rows, defaultPoint, ref));
      && (forall g :: g in groups ==> g.rows != [])
      && Plan(rows, defaultPoint, ref) == AssembleAll(groups, map[], ref.categories)
  {
    GroupsAreNotEmpty(RawRows(rows, defaultPoint, ref));
  }

  lemma AloneHasRow(r: RawRow)
    ensures Alone(r).rows != []
  {
  }

  lemma AssembledHasRows(rows: seq<RawRow>, category: Result<string, Msg>)
    requires rows != []
    ensures |Assemble(rows, category).rows| == |rows|
  {
  }

  /** Every model without errors sells each of its variants for a positive price. */
  lemma PlannedModelsAreSound(rows: seq<FileRow>, defaultPoint: PointId, ref: Reference)
    ensures forall m :: m in Plan(rows, defaultPoint, ref) && !Failed(m) ==> Sound(m, defaultPoint, Active(ref))
    ensures forall m :: m in Plan(rows, defaultPoint, ref) ==> m.rows != []
  {
    var models := Plan(rows, defaultPoint, ref);
    hide *;
    forall m | m in models ensures m.rows != [] && (!Failed(m) ==> Sound(m, defaultPoint, Active(ref))) {
      var i :| 0 <= i < |models| && models[i] == m;
      PlannedModel(rows, defaultPoint, ref, i);
    }
  }
}
