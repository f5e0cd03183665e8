/** What a form without a price column does to stored overrides: saved at once it leaves them alone, but sent
    back from a conflict page it clears them. */
module LostOverrides {
  import opened Wrappers
  import opened Text
  import opened ProductStore
  import opened ProductForm
  import opened FormRoundTrips
  import opened Resubmission

  /** A row of the form that stands for a stored variant. */
  ghost predicate StandsFor(db: Db, input: SaveInput, new_: NewIds, i: nat) {
    i < |input.variants| && input.variants[i].id != "" && input.variants[i].id in Existing(db, Target(input, new_))
  }

  ghost predicate Proper(db: Db, input: SaveInput, new_: NewIds) {
    |new_.variants| == |input.variants| && Drawn(db, new_)
  }

  /** A committed save leaves a surviving variant's override as the last row for it that sets one says. */
  lemma SavedOverride(db: Db, input: SaveInput, new_: NewIds, i: nat)
    requires Proper(db, input, new_) && Save(db, input, new_).Ok? && StandsFor(db, input, new_, i)
    ensures var row, db' := input.variants[i], Save(db, input, new_).value.0;
      && row.id in db.variants && row.id in db'.variants
      && db'.variants[row.id].price == PriceLeft(input.variants, row.id, db.variants[row.id].price)
  {
    SaveStoresRows(db, input, new_);
    var row, existing := input.variants[i], Existing(db, Target(input, new_));
    var j := LastFor(input.variants, existing, new_.variants, i);
    assert input.variants[j].id == row.id;
    hide Save, Drawn, PriceLeft, IsLast;
    assert RowId(input.variants[j], existing, new_.variants[j]) == row.id;
  }

  lemma NoPriceIsSet(form: Form, points: seq<PointId>, i: nat)
    requires !PricesSubmitted(form) && i < |ParseProductForm(form, points).input.variants|
    ensures !ParseProductForm(form, points).input.variants[i].priceSet
  {
    PricesLeftAlone(form, points, 0, {});
    var variants := ParseRows(form, points, 0, {}).variants;
    assert variants[i] in variants;
    hide ParseRows, PricesSubmitted;
  }

  /** Saved without submitted prices, every surviving variant keeps its override. */
  lemma OverridesAreKept(db: Db, form: Form, points: seq<PointId>, new_: NewIds, i: nat)
    requires !PricesSubmitted(form)
    requires var input := ParseProductForm(form, points).input;
      Proper(db, input, new_) && Save(db, input, new_).Ok? && StandsFor(db, input, new_, i)
    ensures var input := ParseProductForm(form, points).input;
      var id, db' := input.variants[i].id, Save(db, input, new_).value.0;
      id in db.variants && id in db'.variants && db'.variants[id].price == db.variants[id].price
  {
    var input := ParseProductForm(form, points).input;
    forall j | 0 <= j < |input.variants| ensures !input.variants[j].priceSet { NoPriceIsSet(form, points, j); }
    hide *;
    SavedOverride(db, input, new_, i);
    PriceLeftIs(input.variants, input.variants[i].id, db.variants[input.variants[i].id].price);
  }

  /** The same form's conflict page, sent back and saved, leaves no surviving variant an override: it keeps
      what was stored exactly where nothing was. */
  lemma OverridesAreCleared(db: Db, form: Form, form': Form, points: seq<PointId>, conflicts: seq<StockConflict>, new_: NewIds, i: nat)
    requires var p := ParseProductForm(form, points); p.errs == {} && Resubmits(form', form, MarkStockConflicts(p.rows, conflicts))
    requires forall c :: c in conflicts ==> Reportable(c)
    requires ParseProductForm(form', points).errs == {} && !PricesSubmitted(form)
    requires var again := ParseProductForm(form', points).input;
      Proper(db, again, new_) && Save(db, again, new_).Ok? && StandsFor(db, again, new_, i)
    ensures var again := ParseProductForm(form', points).input;
      var id, db' := again.variants[i].id, Save(db, again, new_).value.0;
      && id in db.variants && id in db'.variants && db'.variants[id].price == None
      && (db'.variants[id].price == db.variants[id].price <==> db.variants[id].price.None?)
  {
    hide *;
    MissingPricesAreCleared(form, form', points, conflicts);
    ClearedBySave(db, ParseProductForm(form', points).input, new_, i);
  }

  lemma ClearedBySave(db: Db, input: SaveInput, new_: NewIds, i: nat)
    requires Proper(db, input, new_) && Save(db, input, new_).Ok? && StandsFor(db, input, new_, i)
    requires forall v :: v in input.variants ==> v.priceSet && v.price.None?
    ensures var id, db' := input.variants[i].id, Save(db, input, new_).value.0;
      id in db.variants && id in db'.variants && db'.variants[id].price == None
  {
    assert forall j :: 0 <= j < |input.variants| ==> input.variants[j] in input.variants;
    SavedOverride(db, input, new_, i);
    hide Save, Proper, PriceLeft;
    PriceLeftIs(input.variants, input.variants[i].id, db.variants[input.variants[i].id].price);
  }

  // ---- one form that loses an override ----

  /** A product with one variant, priced apart, of which two are in stock. */
  function OneVariant(): Db {
    Db({"c"}, {"x"}, map["p" := Product("c", "n", "n", 100)], map["v" := Variant("p", "s", "k", None, Some(500))],
       map[("v", "x") := 2], map[], {})
  }

  /** Its form without a price column, rendered before there was stock, with one piece typed in. */
  function OneRow(prices: Option<seq<string>>, qty: string, orig: string): Form {
    Form("p", "c", "n", "n", "1", [], ["v"], ["v"], ["s"], ["k"], prices, map["qty_v_x" := qty, "orig_v_x" := orig])
  }

  /** What the form asks to save. */
  function Asked(priceSet: bool, stock: seq<CellChange>): SaveInput {
    SaveInput("p", Product("c", "n", "n", 100), [VariantRow("v", "v", "s", "k", priceSet, None)], stock, [])
  }

  lemma OneDigit(s: string, n: nat)
    requires n < 10 && s == Itoa(n)
    ensures TrimSpace(s) == s && s != "" && Atoi(s) == Some(n)
  {
    ItoaRoundTrip(n);
    TrimSpaceTrims(s);
  }

  lemma OneLetter(s: string)
    requires |s| == 1 && 'a' <= s[0] <= 'z'
    ensures TrimSpace(s) == s
  {
    TrimSpaceTrims(s);
  }

  lemma Names(prices: Option<seq<string>>, qty: string, orig: string)
    ensures var form := OneRow(prices, qty, orig);
      Get(form, Qty("v", "x")) == Some(qty) && Get(form, Orig("v", "x")) == Some(orig) && Get(form, OrigPrice("v")) == None
  {
    assert FieldName(Qty("v", "x")) == "qty_v_x";
    assert FieldName(Orig("v", "x")) == "orig_v_x";
    assert FieldName(OrigPrice("v")) == "orig_variant_price_v";
    assert "qty_v_x"[0] == 'q' && "orig_v_x"[0] == 'o';
    assert |"orig_v_x"| != |"orig_variant_price_v"| && |"qty_v_x"| != |"orig_variant_price_v"|;
  }

  /** The form's field for a cell with q pieces typed in, where o were shown, or nothing. */
  ghost predicate Types(form: Form, key: Key, q: nat, o: Option<nat>) {
    && q < 10 && (o.Some? ==> o.value < 10)
    && Get(form, Qty(key, "x")) == Some(Itoa(q)) && Get(form, Orig(key, "x")) == Some(if o.Some? then Itoa(o.value) else "")
  }

  lemma CellOf(form: Form, key: Key, q: nat, o: Option<nat>)
    requires Types(form, key, q, o)
    ensures var orig := if o.Some? then Itoa(o.value) else "";
      var changed := q != if o.Some? then o.value else 0;
      ParseCells(form, key, ["x"])
        == Cells([CellVM("x", Itoa(q), orig, true, false, false)], if changed then [CellChange(key, "x", q, o)] else [], {})
  {
    var orig := if o.Some? then Itoa(o.value) else "";
    TypedCell(q, o);
    hide TrimSpace, Atoi, Itoa, Get, ParseStockCell;
    assert TextOf(Some(Itoa(q))) == Itoa(q) && TextOf(Some(orig)) == orig;
    assert ["x"][1..] == [] && ["x"][0] == "x";
    assert ParseCells(form, key, []) == Cells([], [], {});
  }

  lemma TypedCell(q: nat, o: Option<nat>)
    requires q < 10 && (o.Some? ==> o.value < 10)
    ensures var orig := if o.Some? then Itoa(o.value) else "";
      && ParseStockCell(Some(Itoa(q)), Some(orig)) == Ok(ParsedCell(q, o, q != if o.Some? then o.value else 0))
      && TrimSpace(Itoa(q)) == Itoa(q) && TrimSpace(orig) == orig
  {
    OneDigit(Itoa(q), q);
    if o.Some? { OneDigit(Itoa(o.value), o.value); } else { TrimSpaceTrims(""); }
    hide TrimSpace, Atoi, Itoa;
  }

  /** The i-th row of the form stands for variant v and leaves its price blank, if there is a price column. */
  ghost predicate ListsV(form: Form, i: nat, key: Key) {
    && i < |form.keys| == |form.ids| == |form.sizes| == |form.colors| && |key| == 1 && 'a' <= key[0] <= 'z'
    && form.keys[i] == key && form.ids[i] == "v" && form.sizes[i] == "s" && form.colors[i] == "k"
    && (form.prices.Some? ==> |form.prices.value| == |form.sizes| && form.prices.value[i] == "")
    && Get(form, OrigPrice(key)) == None
  }

  lemma RowOf(form: Form, i: nat, key: Key, q: nat, o: Option<nat>)
    requires ListsV(form, i, key) && Types(form, key, q, o)
    ensures RowKey(form, i) == key
    ensures var orig := if o.Some? then Itoa(o.value) else "";
      var changed := q != if o.Some? then o.value else 0;
      ParseRow(form, ["x"], i) ==
        ParsedRow(RowVM(key, "v", "s", "k", "", "", false, false, [CellVM("x", Itoa(q), orig, true, false, false)]),
                  VariantRow(key, "v", "s", "k", form.prices.Some?, None), if changed then [CellChange(key, "x", q, o)] else [], {})
  {
    OneLetter(key); OneLetter("v"); OneLetter("s"); OneLetter("k");
    TrimSpaceTrims("");
    CellOf(form, key, q, o);
    hide ParseCells, Itoa, TrimSpace, Get, HasStock, Types;
  }

  lemma FormOf(prices: Option<seq<string>>, q: nat, o: Option<nat>)
    requires q < 10 && (o.Some? ==> o.value < 10) && (prices.Some? ==> prices.value == [""])
    ensures var orig := if o.Some? then Itoa(o.value) else "";
      var changed := q != if o.Some? then o.value else 0;
      ParseProductForm(OneRow(prices, Itoa(q), orig), ["x"]) ==
        ParsedForm(Asked(prices.Some?, if changed then [CellChange("v", "x", q, o)] else []),
                   [RowVM("v", "v", "s", "k", "", "", false, false, [CellVM("x", Itoa(q), orig, true, false, false)])], {})
  {
    var orig := if o.Some? then Itoa(o.value) else "";
    var form := OneRow(prices, Itoa(q), orig);
    Names(prices, Itoa(q), orig);
    RowOf(form, 0, "v", q, o);
    OneLetter("n");
    hide ParseRow, ParseRows, Itoa, TrimSpace, ParseAmount;
    PriceOfOne();
    OnlyRow(form, ["x"], ParseRow(form, ["x"], 0));
  }

  lemma PriceOfOne()
    ensures ParseAmount("1") == Some(100)
  {
    hide ParseAmount, FormatDecimal;
    AmountRoundTrip(100);
    OneIsFormatted();
  }

  lemma OneIsFormatted()
    ensures FormatDecimal(100) == "1"
  {
    hide ParseAmount;
    assert 100 / 100 == 1 && 100 / 10 % 10 == 0 && 100 % 10 == 0;
    assert Digits(1) == "1";
  }

  lemma OnlyRow(form: Form, points: seq<PointId>, row: ParsedRow)
    requires |form.sizes| == 1 && row == ParseRow(form, points, 0) && row.ParsedRow?
    ensures ParseRows(form, points, 0, {}) == Matrix([row.row], [row.variant], row.changes, row.errs)
  {
    hide ParseRow, RowKey;
    assert ParseRows(form, points, 1, {RowKey(form, 0)}) == Matrix([], [], [], {});
  }

  lemma AskedIsValid(priceSet: bool, stock: seq<CellChange>)
    ensures IsValid(Asked(priceSet, stock))
  {
    OneLetter("c"); OneLetter("n"); OneLetter("s"); OneLetter("k");
    hide TrimSpace;
  }

  lemma OneIsKept(priceSet: bool)
    ensures Existing(OneVariant(), "p") == {"v"} && Kept(Asked(priceSet, []).variants, {"v"}) == {"v"}
  {
    var rows := Asked(priceSet, []).variants;
    assert rows[0] in rows;
    assert "v" in Kept(rows, {"v"});
  }

  /** The row is written; stock is as it was. */
  lemma AskedIsSynced(priceSet: bool, stock: seq<CellChange>, new_: NewIds)
    requires |new_.variants| == 1
    ensures Synced(OneVariant(), Asked(priceSet, stock), new_).Ok?
    ensures var db2 := Synced(OneVariant(), Asked(priceSet, stock), new_).value;
      db2.stock == OneVariant().stock && db2.points == OneVariant().points
  {
    var db, input := OneVariant(), Asked(priceSet, stock);
    OneIsKept(priceSet);
    var db1 := db.(products := db.products["p" := input.product]);
    assert UpsertProduct(db, input, new_.product) == Ok((db1, "p"));
    assert Existing(db1, "p") == Existing(db, "p");
    var kept := DeleteVariants(db1, {});
    assert kept == db1 by { assert kept.variants == db1.variants && kept.stock == db1.stock; }
    assert {"v"} - {"v"} == {};
    var row := input.variants[0];
    assert !Clashes(db1, "v", "p", "s", "k");
    var written := WriteRow(db1, "p", row, {"v"}, new_.variants[0]);
    assert written.Ok? && written.value == db1.(variants := written.value.variants);
    hide WriteRow, Existing, Kept, DeleteVariants;
    assert input.variants[1..] == [] && new_.variants[1..] == [];
    assert WriteRows(db1, "p", input.variants, {"v"}, new_.variants) == WriteRows(written.value, "p", [], {"v"}, []);
  }

  lemma AskedIds(priceSet: bool, stock: seq<CellChange>, new_: NewIds)
    requires |new_.variants| == 1
    ensures RowIds(OneVariant(), Asked(priceSet, stock), new_) == map["v" := "v"]
  {
    OneIsKept(priceSet);
    hide Existing;
    var rows := Asked(priceSet, stock).variants;
    assert IdByKey(rows[1..], {"v"}, new_.variants[1..]) == map[];
  }

  /** Its first save conflicts, as two pieces arrived meanwhile. */
  lemma FirstSaveConflicts(new_: NewIds)
    requires |new_.variants| == 1
    ensures Save(OneVariant(), Asked(false, [CellChange("v", "x", 1, None)]), new_)
         == Err(StockChanged([StockConflict("v", "x", 2, true)]))
  {
    var changes := [CellChange("v", "x", 1, None)];
    AskedIsValid(false, changes);
    AskedIsSynced(false, changes, new_);
    AskedIds(false, changes, new_);
    hide Synced, RowIds, IsValid, Save;
    OneChange(Synced(OneVariant(), Asked(false, changes), new_).value);
    SaveAppliesChanges(OneVariant(), Asked(false, changes), new_);
  }

  lemma OneChange(db: Db)
    requires db.stock == map[("v", "x") := 2]
    ensures ApplyChanges(db, map["v" := "v"], [CellChange("v", "x", 1, None)]) == Ok((db, [StockConflict("v", "x", 2, true)]))
  {
    var changes := [CellChange("v", "x", 1, None)];
    assert changes[1..] == [];
    assert ApplyChanges(db, map["v" := "v"], changes[1..]) == Ok((db, []));
    assert WriteCell(db, ("v", "x"), 1, None) == Ok((db, false));
    var conflict := StockConflict("v", "x", 2, true);
    assert ConflictAt(db.stock, changes[0], ("v", "x")) == conflict && [conflict] + [] == [conflict];
  }

  /** Sent back, it commits. */
  lemma SecondSaveCommits(new_: NewIds)
    requires |new_.variants| == 1
    ensures Save(OneVariant(), Asked(true, []), new_).Ok?
  {
    AskedIsValid(true, []);
    AskedIsSynced(true, [], new_);
    hide Synced, RowIds, IsValid, Save;
    SaveAppliesChanges(OneVariant(), Asked(true, []), new_);
  }

  /** The override of this variant is lost, although nobody entered a price: a form that is accepted, conflicts
      in one cell, and is sent back as shown. */
  lemma OneOverrideIsLost(new_: NewIds) returns (form: Form, form': Form, cells: seq<StockConflict>)
    requires |new_.variants| == 1 && Drawn(OneVariant(), new_)
    ensures DbOk(OneVariant()) && OneVariant().variants["v"].price == Some(500) && !PricesSubmitted(form)
    ensures var p := ParseProductForm(form, ["x"]);
      && p.errs == {} && |p.input.variants| == 1 && Save(OneVariant(), p.input, new_) == Err(StockChanged(cells))
      && Resubmits(form', form, MarkStockConflicts(p.rows, cells))
    ensures var again := ParseProductForm(form', ["x"]);
      && again.errs == {} && |again.input.variants| == 1 && Save(OneVariant(), again.input, new_).Ok?
      && var db' := Save(OneVariant(), again.input, new_).value.0;
      "v" in db'.variants && db'.variants["v"].price == None
  {
    form, form' := OneRow(None, Itoa(1), ""), OneRow(Some([""]), Itoa(2), Itoa(2));
    cells := [StockConflict("v", "x", 2, true)];
    assert DbOk(OneVariant()) && OneVariant().variants["v"].price == Some(500) && !PricesSubmitted(form);
    FirstAsks();
    SecondAsks();
    hide *;
    FirstSaveConflicts(new_);
    SecondSaveCommits(new_);
    OneIsSentBack(form, form', cells);
    OneIsCleared(new_);
  }

  lemma FirstAsks()
    ensures var p := ParseProductForm(OneRow(None, Itoa(1), ""), ["x"]);
      p.errs == {} && |p.input.variants| == 1 && p.input == Asked(false, [CellChange("v", "x", 1, None)])
  {
    FormOf(None, 1, None);
    hide ParseProductForm, Itoa;
  }

  lemma SecondAsks()
    ensures var p := ParseProductForm(OneRow(Some([""]), Itoa(2), Itoa(2)), ["x"]);
      p.errs == {} && |p.input.variants| == 1 && p.input == Asked(true, [])
  {
    FormOf(Some([""]), 2, Some(2));
    hide ParseProductForm, Itoa;
  }

  lemma OneIsCleared(new_: NewIds)
    requires |new_.variants| == 1 && Drawn(OneVariant(), new_) && Save(OneVariant(), Asked(true, []), new_).Ok?
    ensures var db' := Save(OneVariant(), Asked(true, []), new_).value.0; "v" in db'.variants && db'.variants["v"].price == None
  {
    AskedIsValid(true, []);
    OneIsKept(true);
    hide Save, Existing, Drawn;
    SavedOverride(OneVariant(), Asked(true, []), new_, 0);
  }

  lemma OneIsSentBack(form: Form, form': Form, cells: seq<StockConflict>)
    requires form == OneRow(None, Itoa(1), "") && form' == OneRow(Some([""]), Itoa(2), Itoa(2))
    requires cells == [StockConflict("v", "x", 2, true)]
    ensures Resubmits(form', form, MarkStockConflicts(ParseProductForm(form, ["x"]).rows, cells))
  {
    FormOf(None, 1, None);
    hide ParseProductForm, Itoa, Get;
    var cell := CellVM("x", Itoa(1), "", true, false, false);
    var row := RowVM("v", "v", "s", "k", "", "", false, false, [cell]);
    var shown := row.(cells := [cell.(value := Itoa(2), orig := Itoa(2), conflict := true)]);
    OneIsRefreshed(row, cell, cells);
    OneIsSubmitted(form', shown);
    assert MarkStockConflicts([row], cells) == [shown];
  }

  lemma OneIsRefreshed(row: RowVM, cell: CellVM, cells: seq<StockConflict>)
    requires row.key == "v" && row.cells == [cell] && cell.point == "x" && cells == [StockConflict("v", "x", 2, true)]
    ensures RefreshRow(row, cells) == row.(cells := [cell.(value := Itoa(2), orig := Itoa(2), hasOrig := true, conflict := true)])
  {
    hide Itoa;
    assert FindConflict(cells, "v", "x") == Some(cells[0]);
  }

  lemma OneIsSubmitted(form': Form, shown: RowVM)
    requires form' == OneRow(Some([""]), Itoa(2), Itoa(2))
    requires shown == RowVM("v", "v", "s", "k", "", "", false, false, [CellVM("x", Itoa(2), Itoa(2), true, true, false)])
    ensures SubmitsRow(form', 0, shown)
  {
    Names(Some([""]), Itoa(2), Itoa(2));
    hide Itoa, Get;
  }
}
