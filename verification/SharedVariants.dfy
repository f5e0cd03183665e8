/** Forms in which two rows stand for one stored variant: the parser only refuses rows that share a key. What the
    conflicts of a save then say, exactly when they are about the table as stored, and a form for which they
    are not. */
module SharedVariants {
  import opened Wrappers
  import opened Text
  import opened ProductStore
  import opened ProductForm
  import opened Resubmission
  import opened LostOverrides

  /** A parsed form keeps its cells apart unless two of its rows name one variant. */
  lemma ParsedCellsStayApart(db: Db, form: Form, points: seq<PointId>, new_: NewIds)
    requires DistinctPoints(points) && Drawn(db, new_)
    requires var input := ParseProductForm(form, points).input;
      |new_.variants| == |input.variants| && DistinctVariants(input.variants)
    ensures var input := ParseProductForm(form, points).input; CellsApart(RowIds(db, input, new_), input.stock)
  {
    ParsedCellsAreDistinct(form, points, 0, {});
    hide RowIds, CellsApart, ParseRows;
    CellsStayApart(db, ParseProductForm(form, points).input, new_);
  }

  /** The conflicts a form is refused with are the cells that moved exactly when none of its changes that matches the
      table is followed by another for the same cell. */
  lemma RefusalNamesMovedCellsIff(db: Db, form: Form, points: seq<PointId>, new_: NewIds)
    requires DistinctPoints(points) && Drawn(db, new_)
    requires var input := ParseProductForm(form, points).input;
      |new_.variants| == |input.variants| && Save(db, input, new_).Err? && Save(db, input, new_).error.StockChanged?
    ensures var input := ParseProductForm(form, points).input;
      var ids := RowIds(db, input, new_);
      Save(db, input, new_).error.cells == Mismatches(db.stock, ids, input.stock) <==> MatchesComeLast(db.stock, ids, input.stock)
  {
    ParsedCellsAreDistinct(form, points, 0, {});
    hide RowIds, ParseRows, Save, Mismatches, MatchesComeLast, DistinctCells, AsksForChanges, EachSawTheLast;
    SaveIsCompareAndSet(db, ParseProductForm(form, points).input, new_);
  }

  // ---- one form with a conflict where nothing moved ----

  /** Variant v twice, with seven pieces typed in one row and nine in the other, where two were shown. */
  function TwoRows(): Form {
    Form("p", "c", "n", "n", "1", [], ["k", "l"], ["v", "v"], ["s", "s"], ["k", "k"], None,
         map["qty_k_x" := Itoa(7), "orig_k_x" := Itoa(2), "qty_l_x" := Itoa(9), "orig_l_x" := Itoa(2)])
  }

  function RowFor(key: Key): VariantRow {
    VariantRow(key, "v", "s", "k", false, None)
  }

  function TwoChanges(): seq<CellChange> {
    [CellChange("k", "x", 7, Some(2)), CellChange("l", "x", 9, Some(2))]
  }

  /** What the form asks to save. */
  function AskedTwice(): SaveInput {
    SaveInput("p", Product("c", "n", "n", 100), [RowFor("k"), RowFor("l")], TwoChanges(), [])
  }

  lemma NamesOfTwo()
    ensures Types(TwoRows(), "k", 7, Some(2)) && Types(TwoRows(), "l", 9, Some(2))
    ensures ListsV(TwoRows(), 0, "k") && ListsV(TwoRows(), 1, "l")
  {
    hide Itoa;
    assert FieldName(Qty("k", "x")) == "qty_k_x" && FieldName(Orig("k", "x")) == "orig_k_x";
    assert FieldName(Qty("l", "x")) == "qty_l_x" && FieldName(Orig("l", "x")) == "orig_l_x";
    assert "qty_k_x"[4] == 'k' && "qty_l_x"[4] == 'l' && "orig_k_x"[5] == 'k' && "orig_l_x"[5] == 'l';
    assert "qty_k_x"[0] == "qty_l_x"[0] == 'q' && "orig_k_x"[0] == "orig_l_x"[0] == 'o';
    assert |FieldName(OrigPrice("k"))| == |FieldName(OrigPrice("l"))| == 20;
  }

  lemma OneIsRead(i: nat, key: Key, q: nat)
    requires ListsV(TwoRows(), i, key) && Types(TwoRows(), key, q, Some(2)) && q != 2
    ensures RowKey(TwoRows(), i) == key
    ensures var row := ParseRow(TwoRows(), ["x"], i);
      row.ParsedRow? && row.variant == RowFor(key) && row.changes == [CellChange(key, "x", q, Some(2))] && row.errs == {}
  {
    assert TwoRows().prices == None;
    hide ParseRow, RowKey, Itoa, ListsV, Types;
    RowOf(TwoRows(), i, key, q, Some(2));
  }

  lemma TwoAreRead()
    ensures var m := ParseRows(TwoRows(), ["x"], 0, {});
      m.variants == [RowFor("k"), RowFor("l")] && m.stock == TwoChanges() && m.errs == {}
  {
    var form := TwoRows();
    NamesOfTwo();
    assert |form.sizes| == 2;
    hide ParseRow, RowKey, Itoa, ListsV, Types, TwoRows, RowFor, ParseRows;
    OneIsRead(0, "k", 7);
    OneIsRead(1, "l", 9);
    var first, second := ParseRow(form, ["x"], 0), ParseRow(form, ["x"], 1);
    BothRows(form, first, second);
    BothAdded(first, second);
    hide AddRow;
    assert first.changes + second.changes == TwoChanges();
  }

  lemma BothAdded(first: ParsedRow, second: ParsedRow)
    requires first.ParsedRow? && second.ParsedRow? && first.errs == second.errs == {}
    ensures var m := AddRow(first, AddRow(second, Matrix([], [], [], {})));
      m.variants == [first.variant, second.variant] && m.stock == first.changes + second.changes && m.errs == {}
  {
  }

  lemma BothRows(form: Form, first: ParsedRow, second: ParsedRow)
    requires |form.sizes| == 2 && RowKey(form, 0) == "k" && RowKey(form, 1) == "l"
    requires first == ParseRow(form, ["x"], 0) && second == ParseRow(form, ["x"], 1)
    ensures ParseRows(form, ["x"], 0, {}) == AddRow(first, AddRow(second, Matrix([], [], [], {})))
  {
    hide ParseRow, RowKey, AddRow;
    assert ParseRows(form, ["x"], 2, {} + {"k"} + {"l"}) == Matrix([], [], [], {});
  }

  /** The parser accepts it. */
  lemma TwoAreParsed()
    ensures ParseProductForm(TwoRows(), ["x"]).input == AskedTwice() && ParseProductForm(TwoRows(), ["x"]).errs == {}
  {
    TwoAreRead();
    OneLetter("n");
    PriceOfOne();
    hide ParseRows, TrimSpace, ParseAmount, Itoa;
  }

  lemma RewriteV(db: Db, key: Key, id: VariantId)
    requires db.variants == OneVariant().variants
    ensures WriteRow(db, "p", RowFor(key), {"v"}, id) == Ok(db)
  {
    assert !Clashes(db, "v", "p", "s", "k");
    var v := db.variants["v"];
    assert db.variants["v" := v.(size := "s", color := "k", price := v.price)] == db.variants;
  }

  lemma TwoAreKept(db: Db)
    requires db.variants == OneVariant().variants && db.stock == OneVariant().stock
    ensures Existing(db, "p") == {"v"} && Kept(AskedTwice().variants, {"v"}) == {"v"} && DeleteVariants(db, {}) == db
  {
    var rows := AskedTwice().variants;
    assert rows[0] in rows;
    assert DeleteVariants(db, {}).variants == db.variants && DeleteVariants(db, {}).stock == db.stock;
  }

  lemma TwoAreWritten(db: Db, ids: seq<VariantId>)
    requires db.variants == OneVariant().variants && |ids| == 2
    ensures WriteRows(db, "p", AskedTwice().variants, {"v"}, ids) == Ok(db)
    ensures IdByKey(AskedTwice().variants, {"v"}, ids) == map["k" := "v", "l" := "v"]
  {
    RewriteV(db, "k", ids[0]);
    RewriteV(db, "l", ids[1]);
    hide WriteRow, OneVariant;
    var rows := AskedTwice().variants;
    assert rows[1..] == [RowFor("l")] && rows[1..][1..] == [] && ids[1..][1..] == [];
    assert WriteRows(db, "p", [], {"v"}, []) == Ok(db) && WriteRows(db, "p", rows[1..], {"v"}, ids[1..]) == Ok(db);
    assert IdByKey(rows[1..], {"v"}, ids[1..]) == map["l" := "v"] + IdByKey([], {"v"}, []) == map["l" := "v"];
  }

  lemma TwoAreSynced(new_: NewIds)
    requires |new_.variants| == 2
    ensures var db, input := OneVariant(), AskedTwice();
      Synced(db, input, new_) == Ok(db.(products := db.products["p" := input.product])) && RowIds(db, input, new_) == map["k" := "v", "l" := "v"]
  {
    var db, input := OneVariant(), AskedTwice();
    var db1 := db.(products := db.products["p" := input.product]);
    TwoAreKept(db);
    TwoAreKept(db1);
    TwoAreWritten(db1, new_.variants);
    assert {"v"} - {"v"} == {};
    assert UpsertProduct(db, input, new_.product) == Ok((db1, "p"));
    hide WriteRows, IdByKey, Existing, Kept, DeleteVariants, UpsertProduct;
  }

  lemma TwoConflict(db: Db)
    requires db.stock == map[("v", "x") := 2]
    ensures var r := ApplyChanges(db, map["k" := "v", "l" := "v"], TwoChanges());
      r.Ok? && r.value.1 == [StockConflict("l", "x", 7, true)]
    ensures Mismatches(db.stock, map["k" := "v", "l" := "v"], TwoChanges()) == []
  {
    var ids, cell, changes := map["k" := "v", "l" := "v"], ("v", "x"), TwoChanges();
    var next := db.(stock := db.stock[cell := 7]);
    var rest := changes[1..];
    assert rest == [CellChange("l", "x", 9, Some(2))] && rest[1..] == [];
    assert ApplyChanges(next, ids, rest[1..]) == Ok((next, []));
    assert WriteCell(next, cell, 9, Some(2)) == Ok((next, false));
    assert ConflictAt(next.stock, rest[0], cell) == StockConflict("l", "x", 7, true);
    assert ApplyChanges(next, ids, rest) == Ok((next, [StockConflict("l", "x", 7, true)] + []));
    assert WriteCell(db, cell, 7, Some(2)) == Ok((next, true));
    assert Mismatches(db.stock, ids, rest[1..]) == [] && Mismatches(db.stock, ids, rest) == [];
  }

  lemma TwoAreValid()
    ensures IsValid(AskedTwice())
  {
    OneLetter("c"); OneLetter("n"); OneLetter("s"); OneLetter("k");
    hide TrimSpace;
  }

  /** No cell has moved, and the form is refused for one that holds 7: a quantity that the same save had written
      and took back. */
  lemma SharedVariantConflictsWithItself(new_: NewIds)
    requires |new_.variants| == 2
    ensures DbOk(OneVariant()) && OneVariant().stock == map[("v", "x") := 2]
    ensures var p := ParseProductForm(TwoRows(), ["x"]);
      && p.errs == {} && |p.input.variants| == 2
      && Save(OneVariant(), p.input, new_) == Err(StockChanged([StockConflict("l", "x", 7, true)]))
      && Mismatches(OneVariant().stock, RowIds(OneVariant(), p.input, new_), p.input.stock) == []
  {
    assert DbOk(OneVariant());
    assert |AskedTwice().variants| == 2;
    TwoAreParsed();
    TwoAreValid();
    TwoAreSynced(new_);
    hide Save, RowIds, Synced, IsValid, ParseProductForm, Mismatches, ApplyChanges;
    TwoConflict(Synced(OneVariant(), AskedTwice(), new_).value);
    SaveAppliesChanges(OneVariant(), AskedTwice(), new_);
  }
}
