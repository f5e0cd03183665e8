/** A save that conflicts is shown again with the conflicting cells refreshed. Sending that form back
    unedited saves everything else, unless a refreshed quantity is one the form does not accept. */
module Resubmission {
  import opened Wrappers
  import opened Text
  import opened ProductStore
  import opened ProductForm
  import opened FormRoundTrips
  import opened FreshDraws

  // ---- conflicts by cell ----

  lemma {:induction false} FindConflictFinds(conflicts: seq<StockConflict>, key: Key, point: PointId)
    ensures var found := FindConflict(conflicts, key, point);
      && (found.None? <==> forall c :: c in conflicts ==> c.rowKey != key || c.pointId != point)
      && (found.Some? ==> found.value in conflicts && found.value.rowKey == key && found.value.pointId == point)
  {
    if conflicts != [] {
      var init := conflicts[..|conflicts| - 1];
      FindConflictFinds(init, key, point);
      assert forall c :: c in conflicts <==> c == conflicts[|conflicts| - 1] || c in init;
    }
  }

  function Unconflicted(changes: seq<CellChange>, conflicts: seq<StockConflict>): seq<CellChange> {
    if changes == [] then []
    else (if FindConflict(conflicts, changes[0].rowKey, changes[0].pointId).None? then [changes[0]] else [])
         + Unconflicted(changes[1..], conflicts)
  }

  lemma {:induction false} UnconflictedAppend(a: seq<CellChange>, b: seq<CellChange>, conflicts: seq<StockConflict>)
    ensures Unconflicted(a + b, conflicts) == Unconflicted(a, conflicts) + Unconflicted(b, conflicts)
  {
    if a == [] {
      assert a + b == b;
    } else {
      assert (a + b)[0] == a[0] && (a + b)[1..] == a[1..] + b;
      UnconflictedAppend(a[1..], b, conflicts);
    }
  }

  lemma {:induction false} UnconflictedIs(changes: seq<CellChange>, conflicts: seq<StockConflict>)
    ensures forall c :: c in Unconflicted(changes, conflicts) <==>
      c in changes && FindConflict(conflicts, c.rowKey, c.pointId).None?
    ensures DistinctCells(changes) ==> DistinctCells(Unconflicted(changes, conflicts))
  {
    if changes != [] {
      var rest := Unconflicted(changes[1..], conflicts);
      UnconflictedIs(changes[1..], conflicts);
      assert forall c :: c in changes <==> c == changes[0] || c in changes[1..];
      if DistinctCells(changes) {
        forall c | c in rest ensures c.rowKey != changes[0].rowKey || c.pointId != changes[0].pointId {
          var j :| 0 <= j < |changes[1..]| && changes[1..][j] == c;
          assert changes[j + 1] == c;
        }
        hide FindConflict;
      }
    }
  }

  // ---- parsing the refreshed form ----

  /** A conflict as a save reports it. */
  predicate Reportable(c: StockConflict) {
    0 <= c.current <= MAX_INT && (!c.present ==> c.current == 0)
  }

  /** A cell that can be sent back: a refreshed one if its quantity is one the form accepts, any other if
      its input field came with its original. */
  predicate Resendable(form: Form, key: Key, point: PointId, conflicts: seq<StockConflict>) {
    match FindConflict(conflicts, key, point)
    case Some(c) => c.current <= MAX_STOCK_QTY
    case None => Get(form, Qty(key, point)).Some? || TextOf(Get(form, Orig(key, point))) == ""
  }

  lemma RefreshedCellParses(c: StockConflict)
    requires Reportable(c)
    ensures var r := ParseStockCell(Some(Itoa(c.current)), Some(if c.present then Itoa(c.current) else ""));
      if c.current <= MAX_STOCK_QTY then r.Ok? && !r.value.changed else r.Err?
  {
    if c.present { StoredCellParses(c.current); } else { AbsentCellParses(); assert Itoa(0) == "0"; }
    hide ParseStockCell;
  }

  lemma KeptCellParses(raw: Option<string>, origRaw: Option<string>)
    requires ParseStockCell(raw, origRaw).Ok?
    ensures var r := ParseStockCell(Some(TextOf(raw)), if origRaw.Some? then Some(TextOf(origRaw)) else None);
      if raw.Some? || TextOf(origRaw) == "" then r == ParseStockCell(raw, origRaw) || (raw.None? && r.Ok? && !r.value.changed && !ParseStockCell(raw, origRaw).value.changed)
      else r.Err?
  {
    if raw.Some? { TrimSpaceTrims(raw.value); }
    if origRaw.Some? { TrimSpaceTrims(origRaw.value); }
    TrimSpaceTrims("");
    hide Atoi, TrimSpace;
  }

  /** The refreshed form holds, for each of these cells, what the table shows. */
  ghost predicate HoldsShown(form: Form, key: Key, cells: seq<CellVM>, conflicts: seq<StockConflict>) {
    forall j :: 0 <= j < |cells| ==>
      var c := RefreshCell(cells[j], key, conflicts);
      && Get(form, Qty(key, c.point)) == Some(c.value)
      && Get(form, Orig(key, c.point)) == if c.hasOrig then Some(c.orig) else None
  }

  lemma ResentCell(form: Form, form': Form, key: Key, p: PointId, conflicts: seq<StockConflict>)
    requires ParseStockCell(Get(form, Qty(key, p)), Get(form, Orig(key, p))).Ok?
    requires var raw, origRaw := Get(form, Qty(key, p)), Get(form, Orig(key, p));
      HoldsShown(form', key, [CellVM(p, TextOf(raw), TextOf(origRaw), origRaw.Some?, false, false)], conflicts)
    requires forall c :: c in conflicts ==> Reportable(c)
    ensures var pc := ParseStockCell(Get(form, Qty(key, p)), Get(form, Orig(key, p))).value;
      var now := ParseStockCell(Get(form', Qty(key, p)), Get(form', Orig(key, p)));
      && (now.Ok? <==> Resendable(form, key, p, conflicts))
      && (now.Ok? ==> now.value.changed == (pc.changed && FindConflict(conflicts, key, p).None?))
      && (now.Ok? && now.value.changed ==> now.value == pc)
  {
    var raw, origRaw := Get(form, Qty(key, p)), Get(form, Orig(key, p));
    var cell := CellVM(p, TextOf(raw), TextOf(origRaw), origRaw.Some?, false, false);
    var shown := RefreshCell([cell][0], key, conflicts);
    FindConflictFinds(conflicts, key, p);
    KeptCellParses(raw, origRaw);
    var found := FindConflict(conflicts, key, p);
    if found.Some? { RefreshedCellParses(found.value); }
    hide ParseStockCell, FindConflict, Itoa, Reportable;
  }

  /** What parsing one row's refreshed cells gives, next to what parsing them gave. */
  ghost predicate CellsResent(form: Form, key: Key, points: seq<PointId>, conflicts: seq<StockConflict>, was: Cells, now: Cells) {
    && (now.errs == {} <==> forall p :: p in points ==> Resendable(form, key, p, conflicts))
    && (now.errs == {} ==> now.changes == Unconflicted(was.changes, conflicts))
  }

  lemma CellsNext(form: Form, form': Form, key: Key, points: seq<PointId>, conflicts: seq<StockConflict>)
    requires points != [] && ParseCells(form, key, points).errs == {}
    requires var p := points[0];
      var was, now := ParseStockCell(Get(form, Qty(key, p)), Get(form, Orig(key, p))), ParseStockCell(Get(form', Qty(key, p)), Get(form', Orig(key, p)));
      && was.Ok?
      && (now.Ok? <==> Resendable(form, key, p, conflicts))
      && (now.Ok? ==> now.value.changed == (was.value.changed && FindConflict(conflicts, key, p).None?))
      && (now.Ok? && now.value.changed ==> now.value == was.value)
    requires CellsResent(form, key, points[1..], conflicts, ParseCells(form, key, points[1..]), ParseCells(form', key, points[1..]))
    ensures CellsResent(form, key, points, conflicts, ParseCells(form, key, points), ParseCells(form', key, points))
  {
    hide ParseStockCell, FindConflict, TextOf, Get, Resendable;
    var p, rest := points[0], points[1..];
    var pc := ParseStockCell(Get(form, Qty(key, p)), Get(form, Orig(key, p))).value;
    var mine := if pc.changed then [CellChange(key, p, pc.qty, pc.orig)] else [];
    assert ParseCells(form, key, points).changes == mine + ParseCells(form, key, rest).changes;
    UnconflictedAppend(mine, ParseCells(form, key, rest).changes, conflicts);
    assert mine[..] == mine;
    assert forall q :: q in points <==> q == p || q in rest;
  }

  lemma {:induction false} ResentCells(form: Form, form': Form, key: Key, points: seq<PointId>, conflicts: seq<StockConflict>)
    requires var cells := ParseCells(form, key, points); cells.errs == {} && HoldsShown(form', key, cells.cells, conflicts)
    requires forall c :: c in conflicts ==> Reportable(c)
    ensures CellsResent(form, key, points, conflicts, ParseCells(form, key, points), ParseCells(form', key, points))
  {
    hide ParseStockCell, FindConflict, TextOf, Itoa, Reportable, Resendable, RefreshCell;
    if points != [] {
      hide CellsResent;
      var p, rest := points[0], points[1..];
      var was, restWas := ParseCells(form, key, points), ParseCells(form, key, rest);
      assert ParseStockCell(Get(form, Qty(key, p)), Get(form, Orig(key, p))).Err? ==> was.errs != {};
      assert was.cells == [was.cells[0]] + restWas.cells;
      assert HoldsShown(form', key, [was.cells[0]], conflicts);
      assert HoldsShown(form', key, restWas.cells, conflicts) by {
        assert forall j :: 0 <= j < |restWas.cells| ==> restWas.cells[j] == was.cells[j + 1];
      }
      hide HoldsShown;
      ResentCells(form, form', key, rest, conflicts);
      ResentCell(form, form', key, p, conflicts);
      CellsNext(form, form', key, points, conflicts);
    }
  }

  lemma RowKeyIsTrimmed(form: Form, i: nat)
    ensures RowKey(form, i) != "" && TrimSpace(RowKey(form, i)) == RowKey(form, i)
  {
    if At(form.keys, i) == "" {
      RowNumberIsTrimmed(i);
    } else {
      TrimSpaceTrims(form.keys[i]);
    }
  }

  lemma RowNumberIsTrimmed(i: nat)
    ensures TrimSpace("row" + Itoa(i)) == "row" + Itoa(i)
  {
    DigitsRoundTrip(i);
    assert Itoa(i) == Digits(i);
    hide Digits, Value, TrimSpace, Itoa, AllDigits;
    RowAndDigits(Itoa(i));
    TrimSpaceTrims("row" + Itoa(i));
  }

  lemma RowAndDigits(d: string)
    requires d != "" && AllDigits(d)
    ensures IsTrim("row" + d)
  {
    var s := "row" + d;
    assert s[|s| - 1] == d[|d| - 1] && IsDigit(d[|d| - 1]) && s[0] == 'r';
  }

  lemma AtIsTrimmed(texts: seq<string>, i: nat)
    ensures TrimSpace(At(texts, i)) == At(texts, i)
  {
    if i < |texts| { TrimSpaceTrims(texts[i]); } else { TrimSpaceTrims(""); }
    hide TrimSpace;
  }

  /** The table always shows a price column, so a form without one comes back with blank prices. */
  function Resent(form: Form, v: VariantRow): VariantRow {
    if PricesSubmitted(form) then v else v.(priceSet := true, price := None)
  }

  lemma ResentPrice(submitted: Option<string>, origRaw: Option<string>, id: VariantId)
    requires !ParseRowPrice(submitted, origRaw, id).invalid
    ensures var was := ParseRowPrice(submitted, origRaw, id);
      var now := ParseRowPrice(Some(was.text), if was.hasOrig then Some(was.orig) else None, id);
      && !now.invalid
      && now.priceSet == (submitted.None? || was.priceSet) && now.price == was.price
  {
    TrimSpaceTrims("");
    if submitted.Some? { TrimSpaceTrims(submitted.value); }
    if origRaw.Some? {
      TrimSpaceTrims(origRaw.value);
      AmountIgnoresEnds(origRaw.value);
    }
    hide TrimSpace, ParseAmount;
  }

  ghost predicate Aligned(form: Form) {
    && |form.keys| == |form.ids| == |form.sizes| == |form.colors|
    && form.prices.Some? && |form.prices.value| == |form.keys|
  }

  lemma ShownCells(form': Form, j: nat, row: RowVM, conflicts: seq<StockConflict>)
    requires Aligned(form') && j < |form'.keys| && SubmitsRow(form', j, RefreshRow(row, conflicts))
    ensures HoldsShown(form', row.key, row.cells, conflicts)
  {
    var shown := RefreshRow(row, conflicts);
    hide RefreshCell;
    forall k | 0 <= k < |row.cells|
      ensures var c := RefreshCell(row.cells[k], row.key, conflicts);
        && Get(form', Qty(row.key, c.point)) == Some(c.value)
        && Get(form', Orig(row.key, c.point)) == if c.hasOrig then Some(c.orig) else None
    {
      assert shown.cells[k] in shown.cells;
    }
  }

  lemma ShownTexts(form': Form, j: nat, row: RowVM)
    requires Aligned(form') && j < |form'.keys| && SubmitsRow(form', j, row)
    requires row.key != "" && TrimSpace(row.key) == row.key && TrimSpace(row.id) == row.id
    requires TrimSpace(row.size) == row.size && TrimSpace(row.color) == row.color
    ensures RowKey(form', j) == row.key && At(form'.ids, j) == row.id && At(form'.sizes, j) == row.size && At(form'.colors, j) == row.color
    ensures PricesSubmitted(form') && form'.prices.value[j] == row.price
    ensures Get(form', OrigPrice(row.key)) == if row.hasPriceOrig then Some(row.priceOrig) else None
  {
    hide TrimSpace, Itoa;
  }

  lemma ResentRow(form: Form, form': Form, points: seq<PointId>, i: nat, j: nat, conflicts: seq<StockConflict>)
    requires i < |form.sizes| && Aligned(form') && j < |form'.keys|
    requires var was := ParseRow(form, points, i);
      was.ParsedRow? && was.errs == {} && SubmitsRow(form', j, RefreshRow(was.row, conflicts))
    requires forall c :: c in conflicts ==> Reportable(c)
    ensures RowKey(form', j) == RowKey(form, i)
    ensures var was, now := ParseRow(form, points, i), ParseRow(form', points, j);
      && now.ParsedRow?
      && (now.errs == {} <==> forall p :: p in points ==> Resendable(form, was.row.key, p, conflicts))
      && (now.errs == {} ==> now.variant == Resent(form, was.variant) && now.changes == Unconflicted(was.changes, conflicts))
  {
    var was := ParseRow(form, points, i);
    var key, shown := was.row.key, RefreshRow(was.row, conflicts);
    RowKeyIsTrimmed(form, i);
    AtIsTrimmed(form.ids, i);
    AtIsTrimmed(form.sizes, i);
    AtIsTrimmed(form.colors, i);
    ResentPrice(if PricesSubmitted(form) then Some(form.prices.value[i]) else None, Get(form, OrigPrice(key)), was.row.id);
    ShownCells(form', j, was.row, conflicts);
    ShownTexts(form', j, shown);
    hide ParseCells, ParseRowPrice, TrimSpace, Itoa, HoldsShown, RefreshCell, Resendable, HasStock, FindConflict, SubmitsRow, RowKey, At;
    ResentCells(form, form', key, points, conflicts);
  }

  /** The rows of form' from j on are these rows, with the conflicting cells refreshed. */
  ghost predicate ResubmitsFrom(form': Form, j: nat, rows: seq<RowVM>, conflicts: seq<StockConflict>) {
    && Aligned(form') && |form'.keys| == j + |rows|
    && forall k :: 0 <= k < |rows| ==> SubmitsRow(form', j + k, RefreshRow(rows[k], conflicts))
  }

  predicate AllResendable(form: Form, rows: seq<RowVM>, points: seq<PointId>, conflicts: seq<StockConflict>) {
    forall r, p :: r in rows && p in points ==> Resendable(form, r.key, p, conflicts)
  }

  function AllResent(form: Form, variants: seq<VariantRow>): seq<VariantRow> {
    seq(|variants|, i requires 0 <= i < |variants| => Resent(form, variants[i]))
  }

  /** What parsing the refreshed rows gives, next to what parsing the rows gave. */
  ghost predicate ResentAs(form: Form, points: seq<PointId>, conflicts: seq<StockConflict>, was: Matrix, now: Matrix) {
    && (now.errs == {} <==> AllResendable(form, was.rows, points, conflicts))
    && (now.errs == {} ==> now.variants == AllResent(form, was.variants) && now.stock == Unconflicted(was.stock, conflicts))
  }

  lemma ResentNext(form: Form, points: seq<PointId>, conflicts: seq<StockConflict>, first: ParsedRow, first': ParsedRow, was: Matrix, now: Matrix)
    requires ResentAs(form, points, conflicts, was, now) && first.ParsedRow? && first'.ParsedRow?
    requires first'.errs == {} <==> forall p :: p in points ==> Resendable(form, first.row.key, p, conflicts)
    requires first'.errs == {} ==> first'.variant == Resent(form, first.variant) && first'.changes == Unconflicted(first.changes, conflicts)
    ensures ResentAs(form, points, conflicts, AddRow(first, was), AddRow(first', now))
  {
    hide Resendable, Resent, FindConflict, Unconflicted, AllResendable, AllResent;
    UnconflictedAppend(first.changes, was.stock, conflicts);
    AllResendableNext(form, first.row, was.rows, points, conflicts);
    AllResentNext(form, first.variant, was.variants);
  }

  lemma AllResendableNext(form: Form, row: RowVM, rows: seq<RowVM>, points: seq<PointId>, conflicts: seq<StockConflict>)
    ensures AllResendable(form, [row] + rows, points, conflicts) <==>
      AllResendable(form, rows, points, conflicts) && forall p :: p in points ==> Resendable(form, row.key, p, conflicts)
  {
    hide Resendable;
    assert row in [row] + rows && forall r :: r in rows ==> r in [row] + rows;
  }

  lemma AllResentNext(form: Form, v: VariantRow, variants: seq<VariantRow>)
    ensures AllResent(form, [v] + variants) == [Resent(form, v)] + AllResent(form, variants)
  {
    hide Resent;
  }

  lemma {:induction false} ResentRows(form: Form, form': Form, points: seq<PointId>, conflicts: seq<StockConflict>,
                                      i: nat, seen: set<Key>, j: nat, seen': set<Key>)
    requires i <= |form.sizes| && seen' <= seen
    requires var was := ParseRows(form, points, i, seen); was.errs == {} && ResubmitsFrom(form', j, was.rows, conflicts)
    requires forall c :: c in conflicts ==> Reportable(c)
    ensures ResentAs(form, points, conflicts, ParseRows(form, points, i, seen), ParseRows(form', points, j, seen'))
    decreases |form.sizes| - i
  {
    hide ParseRow, RowKey, SubmitsRow, RefreshRow, Resendable, Resent, FindConflict, Reportable;
    if i < |form.sizes| {
      hide ResentAs;
      var key := RowKey(form, i);
      var rest := ParseRows(form, points, i + 1, seen + {key});
      var first := ParseRow(form, points, i);
      if first.Skipped? {
        ResentRows(form, form', points, conflicts, i + 1, seen + {key}, j, seen');
      } else {
        var was := ParseRows(form, points, i, seen);
        assert was.rows == [first.row] + rest.rows && was.rows[0] == first.row;
        assert ResubmitsFrom(form', j + 1, rest.rows, conflicts) by {
          assert forall k :: 0 <= k < |rest.rows| ==> rest.rows[k] == was.rows[k + 1] && j + 1 + k == j + (k + 1);
        }
        ResentRow(form, form', points, i, j, conflicts);
        ResentRows(form, form', points, conflicts, i + 1, seen + {key}, j + 1, seen' + {key});
        ResentNext(form, points, conflicts, first, ParseRow(form', points, j), rest, ParseRows(form', points, j + 1, seen' + {key}));
      }
    }
  }

  // ---- the changes a form asks for ----

  ghost predicate DistinctPoints(points: seq<PointId>) {
    forall i, j :: 0 <= i < j < |points| ==> points[i] != points[j]
  }

  lemma {:induction false} CellsOfOneRow(form: Form, key: Key, points: seq<PointId>)
    requires DistinctPoints(points)
    ensures var changes := ParseCells(form, key, points).changes;
      && DistinctCells(changes) && AsksForChanges(changes)
      && forall c :: c in changes ==> c.rowKey == key && c.pointId in points && 0 <= c.qty <= MAX_STOCK_QTY
  {
    hide TextOf, ParseStockCell;
    if points != [] {
      var p, rest := points[0], points[1..];
      assert forall k :: 0 <= k < |rest| ==> rest[k] == points[k + 1];
      assert p !in rest;
      CellsOfOneRow(form, key, rest);
      var later := ParseCells(form, key, rest).changes;
      var raw, origRaw := Get(form, Qty(key, p)), Get(form, Orig(key, p));
      QuantityIsNatural(raw, origRaw);
      var pc := ParseStockCell(raw, origRaw);
      if pc.Ok? && pc.value.changed {
        FirstApart(CellChange(key, p, pc.value.qty, pc.value.orig), later);
      }
      hide DistinctCells, DistinctPoints;
    }
  }

  lemma QuantityIsNatural(raw: Option<string>, origRaw: Option<string>)
    ensures var r := ParseStockCell(raw, origRaw);
      r.Ok? && r.value.changed ==> 0 <= r.value.qty <= MAX_STOCK_QTY && r.value.orig != Some(r.value.qty)
  {
    hide TextOf, Atoi, TrimSpace;
  }

  lemma FirstApart(c: CellChange, later: seq<CellChange>)
    requires DistinctCells(later) && forall d :: d in later ==> d.pointId != c.pointId
    ensures DistinctCells([c] + later)
  {
    assert forall k :: 0 <= k < |later| ==> later[k] in later;
  }

  lemma DistinctConcat(a: seq<CellChange>, b: seq<CellChange>, key: Key)
    requires DistinctCells(a) && DistinctCells(b)
    requires (forall c :: c in a ==> c.rowKey == key) && (forall c :: c in b ==> c.rowKey != key)
    ensures DistinctCells(a + b)
  {
    var ab := a + b;
    forall i, j | 0 <= i < j < |ab| ensures ab[i].rowKey != ab[j].rowKey || ab[i].pointId != ab[j].pointId {
      if i < |a| <= j { assert ab[i] in a && ab[j] in b; }
    }
  }

  /** A form asks for each cell of each row at most once, and only for changes, whatever was submitted. */
  lemma {:induction false} ParsedCellsAreDistinct(form: Form, points: seq<PointId>, i: nat, seen: set<Key>)
    requires DistinctPoints(points) && i <= |form.sizes|
    ensures var m := ParseRows(form, points, i, seen);
      && DistinctCells(m.stock) && AsksForChanges(m.stock)
      && forall c :: c in m.stock ==> c.rowKey !in seen && c.pointId in points && 0 <= c.qty <= MAX_STOCK_QTY
    decreases |form.sizes| - i
  {
    hide RowKey, ParseCells, ParseRowPrice, HasStock, DistinctCells, DistinctPoints;
    if i < |form.sizes| {
      var key := RowKey(form, i);
      if key in seen {
        ParsedCellsAreDistinct(form, points, i + 1, seen);
      } else {
        ParsedCellsAreDistinct(form, points, i + 1, seen + {key});
        CellsOfOneRow(form, key, points);
        var row := ParseRow(form, points, i);
        if row.ParsedRow? {
          assert row.changes == ParseCells(form, key, points).changes;
          hide ParseRow;
          DistinctConcat(row.changes, ParseRows(form, points, i + 1, seen + {key}).stock, key);
        }
      }
    } else {
      NoCells();
    }
  }

  lemma NoCells()
    ensures DistinctCells([])
  {
  }

  // ---- the unconflicted changes, again ----

  lemma {:induction false} UnconflictedIgnores(changes: seq<CellChange>, head: StockConflict, conflicts: seq<StockConflict>)
    requires forall c :: c in changes ==> c.rowKey != head.rowKey || c.pointId != head.pointId
    ensures Unconflicted(changes, [head] + conflicts) == Unconflicted(changes, conflicts)
  {
    if changes != [] {
      var c := changes[0];
      assert c in changes && forall d :: d in changes[1..] ==> d in changes;
      UnconflictedIgnores(changes[1..], head, conflicts);
      FindConflictFinds([head] + conflicts, c.rowKey, c.pointId);
      FindConflictFinds(conflicts, c.rowKey, c.pointId);
      hide FindConflict;
    }
  }

  /** The changes that found no conflict find none when they are made alone. */
  lemma {:induction false} UnconflictedTakeTurns(db: Db, ids: map<Key, VariantId>, changes: seq<CellChange>)
    requires ApplyChanges(db, ids, changes).Ok? && DistinctCells(changes)
    ensures EachSawTheLast(db.stock, ids, Unconflicted(changes, ApplyChanges(db, ids, changes).value.1))
    decreases |changes|
  {
    if changes != [] {
      var c, rest := changes[0], changes[1..];
      RestIsOthers(changes);
      var next := db.(stock := if Matches(db.stock, ids, c) then Put(db.stock, ids, c) else db.stock);
      FirstApplies(db, next, ids, changes);
      var later := ApplyChanges(next, ids, rest).value.1;
      OnlyOwnReports(next, ids, rest, c);
      hide DistinctCells, ApplyChanges;
      UnconflictedTakeTurns(next, ids, rest);
      FindConflictFinds(later, c.rowKey, c.pointId);
      hide EachSawTheLast;
      if c.rowKey in ids && !Matches(db.stock, ids, c) {
        var head := ConflictAt(db.stock, c, (ids[c.rowKey], c.pointId));
        FindConflictFinds([head] + later, c.rowKey, c.pointId);
        assert head in [head] + later;
        assert FindConflict([head] + later, c.rowKey, c.pointId).Some?;
        hide FindConflict;
        UnconflictedIgnores(rest, head, later);
        assert Unconflicted(changes, [head] + later) == Unconflicted(rest, later);
      } else {
        var kept := [c] + Unconflicted(rest, later);
        TurnsAfterFirst(db.stock, ids, kept);
        assert kept[1..] == Unconflicted(rest, later);
        hide FindConflict;
      }
    }
  }

  lemma RestIsOthers(changes: seq<CellChange>)
    requires changes != [] && DistinctCells(changes)
    ensures DistinctCells(changes[1..])
    ensures forall d :: d in changes[1..] ==> d.rowKey != changes[0].rowKey || d.pointId != changes[0].pointId
  {
    assert forall j :: 0 <= j < |changes| - 1 ==> changes[1..][j] == changes[j + 1];
  }

  lemma {:induction false} HeldTransfers(stock: map<Cell, int>, ids: map<Key, VariantId>, ids': map<Key, VariantId>,
                                         changes: seq<CellChange>, k: Key, point: PointId)
    requires SameStored(stock, ids, ids') && k in ids
    ensures Held(stock, ids, changes, (ids[k], point)) == Held(stock, ids', changes, (ids'[k], point))
    decreases |changes|
  {
    hide Stored;
    if changes != [] { HeldTransfers(stock, ids, ids', changes[..|changes| - 1], k, point); }
  }

  /** Other draws change nobody's turn. */
  lemma TurnsTransfer(stock: map<Cell, int>, ids: map<Key, VariantId>, ids': map<Key, VariantId>, changes: seq<CellChange>)
    requires SameStored(stock, ids, ids') && EachSawTheLast(stock, ids, changes)
    ensures EachSawTheLast(stock, ids', changes)
  {
    hide Held;
    forall i | 0 <= i < |changes| && changes[i].rowKey in ids'
      ensures Held(stock, ids', changes[..i], (ids'[changes[i].rowKey], changes[i].pointId)) == changes[i].orig
    {
      HeldTransfers(stock, ids, ids', changes[..i], changes[i].rowKey, changes[i].pointId);
    }
  }

  /** What a form may send and a table may hold is what a conflict may show. */
  lemma {:induction false} ReportsAreReportable(db: Db, ids: map<Key, VariantId>, changes: seq<CellChange>)
    requires ApplyChanges(db, ids, changes).Ok?
    requires forall cell :: cell in db.stock ==> 0 <= db.stock[cell] <= MAX_INT
    requires forall c :: c in changes ==> 0 <= c.qty <= MAX_INT
    ensures forall c :: c in ApplyChanges(db, ids, changes).value.1 ==> Reportable(c)
    decreases |changes|
  {
    if changes != [] {
      var c, rest := changes[0], changes[1..];
      assert c in changes && forall d :: d in rest ==> d in changes;
      var next := db.(stock := if Matches(db.stock, ids, c) then Put(db.stock, ids, c) else db.stock);
      FirstApplies(db, next, ids, changes);
      hide ApplyChanges, Matches;
      ReportsAreReportable(next, ids, rest);
    }
  }

  /** The conflict page, sent back: the refreshed matrix, everything else as it was. */
  ghost predicate Resubmits(form': Form, form: Form, rows: seq<RowVM>) {
    && Submits(form', rows)
    && form'.productId == form.productId && form'.categoryId == form.categoryId && form'.nameRu == form.nameRu
    && form'.nameKy == form.nameKy && form'.basePrice == form.basePrice && form'.images == form.images
  }

  /** What the resubmitted form parses to. */
  lemma ResubmissionParses(form: Form, form': Form, points: seq<PointId>, conflicts: seq<StockConflict>)
    requires var p := ParseProductForm(form, points); p.errs == {} && Resubmits(form', form, MarkStockConflicts(p.rows, conflicts))
    requires forall c :: c in conflicts ==> Reportable(c)
    ensures var p, again := ParseProductForm(form, points), ParseProductForm(form', points);
      && (again.errs == {} <==> AllResendable(form, p.rows, points, conflicts))
      && (again.errs == {} ==>
            again.input == p.input.(variants := AllResent(form, p.input.variants), stock := Unconflicted(p.input.stock, conflicts)))
  {
    var m := ParseRows(form, points, 0, {});
    var rows' := MarkStockConflicts(m.rows, conflicts);
    assert ResubmitsFrom(form', 0, m.rows, conflicts) by {
      hide SubmitsRow, RefreshRow, ParseRows;
      assert forall k :: 0 <= k < |m.rows| ==> rows'[k] == RefreshRow(m.rows[k], conflicts) && SubmitsRow(form', k, rows'[k]);
    }
    hide Submits, ResubmitsFrom, AllResendable, Reportable, ParseRows, ParsePrice, TrimSpace, ParseImages, Unconflicted, AllResent;
    ResentRows(form, form', points, conflicts, 0, {}, 0, {});
  }

  lemma ResentIsSameButPrices(form: Form, rows: seq<VariantRow>)
    ensures SameButPrices(rows, AllResent(form, rows))
  {
  }

  lemma ResentIsValid(form: Form, input: SaveInput, stock: seq<CellChange>)
    requires IsValid(input)
    ensures IsValid(input.(variants := AllResent(form, input.variants), stock := stock))
  {
    var again := AllResent(form, input.variants);
    forall v | v in again ensures !Blank(v.size) && !Blank(v.color) && (v.price.Some? ==> v.price.value > 0) {
      var i :| 0 <= i < |again| && again[i] == v;
      assert input.variants[i] in input.variants;
    }
  }

  /** A conflict page sent back unedited parses exactly when every cell it shows is one the form accepts.
      Against an unchanged database it then saves, writing every edit that did not conflict and leaving
      the conflicting cells as stored. That holds with or without submitted prices, and for a product that
      is being created; only the overrides depend on the prices. */
  lemma ResubmissionConverges(db: Db, form: Form, form': Form, points: seq<PointId>, new_: NewIds, new': NewIds)
    requires DistinctPoints(points) && forall p :: p in points ==> p in db.points
    requires DbOk(db) && forall c :: c in db.stock ==> db.stock[c] <= MAX_INT
    requires Drawn(db, new_) && Drawn(db, new')
    requires var p := ParseProductForm(form, points);
      && p.errs == {}
      && |new_.variants| == |new'.variants| == |p.input.variants|
      && Save(db, p.input, new_).Err? && Save(db, p.input, new_).error.StockChanged?
      && Resubmits(form', form, MarkStockConflicts(p.rows, Save(db, p.input, new_).error.cells))
    ensures var p, again := ParseProductForm(form, points), ParseProductForm(form', points);
      var cells := Save(db, p.input, new_).error.cells;
      && (again.errs == {} <==> AllResendable(form, p.rows, points, cells))
      && (again.errs == {} ==>
            && again.input == p.input.(variants := AllResent(form, p.input.variants), stock := Unconflicted(p.input.stock, cells))
            && Converges(db, p.input, again.input, cells, new'))
  {
    var p := ParseProductForm(form, points);
    var cells := Save(db, p.input, new_).error.cells;
    ParsedCellsAreDistinct(form, points, 0, {});
    assert DistinctCells(p.input.stock);
    assert forall c :: c in p.input.stock ==> c.pointId in points && 0 <= c.qty <= MAX_STOCK_QTY;
    hide ParseProductForm, Converges;
    if Synced(db, p.input, new_).Err? || !IsValid(p.input) { EarlyErrors(db, p.input, new_); }
    ConflictsComeFrom(db, p.input, new_);
    ResubmissionParses(form, form', points, cells);
    if ParseProductForm(form', points).errs == {} {
      var again := ParseProductForm(form', points).input;
      ResentIsSameButPrices(form, p.input.variants);
      ResentIsValid(form, p.input, again.stock);
      hide SameButPrices, IsValid, AllResent, Save, Synced, RowIds;
      EditsCommit(db, p.input, again, cells, new_, new');
    }
  }

  lemma ConflictsComeFrom(db: Db, input: SaveInput, new_: NewIds)
    requires |new_.variants| == |input.variants| && IsValid(input) && Synced(db, input, new_).Ok? && DbOk(db)
    requires Save(db, input, new_).Err? && Save(db, input, new_).error.StockChanged?
    requires forall c :: c in db.stock ==> db.stock[c] <= MAX_INT
    requires forall c :: c in input.stock ==> 0 <= c.qty <= MAX_STOCK_QTY
    ensures var r := ApplyChanges(Synced(db, input, new_).value, RowIds(db, input, new_), input.stock);
      r.Ok? && Save(db, input, new_).error.cells == r.value.1
    ensures forall c :: c in Save(db, input, new_).error.cells ==> Reportable(c)
  {
    var db2, ids := Synced(db, input, new_).value, RowIds(db, input, new_);
    SaveAppliesChanges(db, input, new_);
    ApplyErrors(db2, ids, input.stock);
    SyncLeavesStock(db, input, new_);
    forall cell | cell in db2.stock ensures 0 <= db2.stock[cell] <= MAX_INT {
      assert Stored(db2.stock, cell) == if cell.0 in Gone(db, input, new_) then None else Stored(db.stock, cell);
    }
    hide Save, Synced, RowIds, DbOk, ApplyChanges;
    ReportsAreReportable(db2, ids, input.stock);
  }

  /** The second save commits, and each cell of its rows ends up with the last edit for it that did not conflict, or
      as it was. Where no two edits are for one cell, a change that conflicted left its cell alone and every
      other one is written. */
  ghost predicate Converges(db: Db, input: SaveInput, again: SaveInput, cells: seq<StockConflict>, new': NewIds) {
    && |new'.variants| == |again.variants|
    && Save(db, again, new').Ok?
    && var ids, db' := RowIds(db, again, new'), Save(db, again, new').value.0;
    && (forall k, p :: k in ids ==> Stored(db'.stock, (ids[k], p)) == Held(db.stock, ids, Unconflicted(input.stock, cells), (ids[k], p)))
    && (CellsApart(ids, input.stock) ==> forall c :: c in input.stock && c.rowKey in ids ==>
          Stored(db'.stock, (ids[c.rowKey], c.pointId))
          == if FindConflict(cells, c.rowKey, c.pointId).None? then Some(c.qty) else Stored(db.stock, (ids[c.rowKey], c.pointId)))
  }

  /** The save of the resubmitted form. */
  lemma EditsCommit(db: Db, input: SaveInput, again: SaveInput, cells: seq<StockConflict>, new_: NewIds, new': NewIds)
    requires SameAttempt(db, input, again, new_, new') && again.stock == Unconflicted(input.stock, cells)
    requires DistinctCells(input.stock) && IsValid(again) && Synced(db, input, new_).Ok?
    requires forall c :: c in input.stock ==> c.pointId in db.points && c.qty >= 0
    requires var r := ApplyChanges(Synced(db, input, new_).value, RowIds(db, input, new_), input.stock); r.Ok? && cells == r.value.1
    ensures Converges(db, input, again, cells, new')
  {
    hide Save, Synced, RowIds, Unconflicted, IsValid, FindConflict, Gone, SameStored, ApplyChanges, EachSawTheLast, Held, CellsApart, AgreeOn;
    UnconflictedIs(input.stock, cells);
    SyncIgnoresDraws(db, input, again, new_, new');
    EditsTakeTurns(db, input, again, new_, new');
    SaveCommitsIffNothingMoved(db, again, new');
    SaveIsCompareAndSet(db, again, new');
    hide DbOk;
    var ids := RowIds(db, again, new');
    forall k, p | k in ids
      ensures Stored(Save(db, again, new').value.0.stock, (ids[k], p)) == Held(db.stock, ids, again.stock, (ids[k], p))
    {
      RowIdsSurvive(db, again, new', k);
    }
    if CellsApart(ids, input.stock) {
      EditedCells(db.stock, ids, input.stock, cells);
    }
  }

  lemma EditsTakeTurns(db: Db, input: SaveInput, again: SaveInput, new_: NewIds, new': NewIds)
    requires SameAttempt(db, input, again, new_, new') && DistinctCells(input.stock) && Synced(db, input, new_).Ok?
    requires ApplyChanges(Synced(db, input, new_).value, RowIds(db, input, new_), input.stock).Ok?
    requires again.stock == Unconflicted(input.stock, ApplyChanges(Synced(db, input, new_).value, RowIds(db, input, new_), input.stock).value.1)
    ensures EachSawTheLast(db.stock, RowIds(db, again, new'), again.stock)
  {
    var db2, ids := Synced(db, input, new_).value, RowIds(db, input, new_);
    SyncLeavesRows(db, input, new_);
    RowIdsStoreTheSame(db, input, again, new_, new');
    hide Synced, RowIds, SameStored, ApplyChanges, Unconflicted, DistinctCells, SameAttempt, EachSawTheLast;
    UnconflictedIs(input.stock, ApplyChanges(db2, ids, input.stock).value.1);
    UnconflictedTakeTurns(db2, ids, input.stock);
    hide Stored;
    TurnsAgree(db2.stock, db.stock, ids, again.stock);
    TurnsTransfer(db.stock, ids, RowIds(db, again, new'), again.stock);
  }

  /** With all cells apart, a cell holds its own edit or, if that one conflicted, what was stored. */
  lemma EditedCells(stock: map<Cell, int>, ids: map<Key, VariantId>, changes: seq<CellChange>, cells: seq<StockConflict>)
    requires CellsApart(ids, changes)
    ensures forall c :: c in changes && c.rowKey in ids ==>
      Held(stock, ids, Unconflicted(changes, cells), (ids[c.rowKey], c.pointId))
      == if FindConflict(cells, c.rowKey, c.pointId).None? then Some(c.qty) else Stored(stock, (ids[c.rowKey], c.pointId))
  {
    UnconflictedIs(changes, cells);
    hide Unconflicted, FindConflict, Held, Stored;
    forall c | c in changes && c.rowKey in ids
      ensures Held(stock, ids, Unconflicted(changes, cells), (ids[c.rowKey], c.pointId))
           == if FindConflict(cells, c.rowKey, c.pointId).None? then Some(c.qty) else Stored(stock, (ids[c.rowKey], c.pointId))
    {
      HeldIsTyped(stock, ids, Unconflicted(changes, cells), (ids[c.rowKey], c.pointId));
      OnlyOneTouches(ids, changes, c);
    }
  }

  lemma OnlyOneTouches(ids: map<Key, VariantId>, changes: seq<CellChange>, c: CellChange)
    requires CellsApart(ids, changes) && c in changes && c.rowKey in ids
    ensures forall d :: d in changes && Touches(ids, d, (ids[c.rowKey], c.pointId)) <==> d == c
  {
    var i :| 0 <= i < |changes| && changes[i] == c;
    forall d | d in changes && Touches(ids, d, (ids[c.rowKey], c.pointId)) ensures d == c {
      var j :| 0 <= j < |changes| && changes[j] == d;
      if i < j { assert SameCell(ids, changes[i], changes[j]); }
      if j < i { assert SameCell(ids, changes[j], changes[i]); }
    }
  }

  /** Without submitted prices the same page saves differently: overrides it would have left alone are
      cleared. A page sent back asks for the same variants exactly when the prices were submitted (or no
      row was). */
  lemma MissingPricesAreCleared(form: Form, form': Form, points: seq<PointId>, conflicts: seq<StockConflict>)
    requires var p := ParseProductForm(form, points); p.errs == {} && Resubmits(form', form, MarkStockConflicts(p.rows, conflicts))
    requires forall c :: c in conflicts ==> Reportable(c)
    requires ParseProductForm(form', points).errs == {}
    ensures var was, now := ParseProductForm(form, points).input.variants, ParseProductForm(form', points).input.variants;
      && (now == was <==> PricesSubmitted(form) || was == [])
      && (!PricesSubmitted(form) ==> forall v :: v in was ==> !v.priceSet)
      && (!PricesSubmitted(form) ==> forall v :: v in now ==> v.priceSet && v.price.None?)
  {
    ResubmissionParses(form, form', points, conflicts);
    var was := ParseProductForm(form, points).input.variants;
    if !PricesSubmitted(form) { PricesLeftAlone(form, points, 0, {}); }
    assert was == ParseRows(form, points, 0, {}).variants;
    hide ParseProductForm, ParseRows, Resubmits, Reportable, PricesSubmitted;
    ResentDiffers(form, was);
  }

  lemma ResentDiffers(form: Form, was: seq<VariantRow>)
    requires !PricesSubmitted(form) ==> forall v :: v in was ==> !v.priceSet
    ensures AllResent(form, was) == was <==> PricesSubmitted(form) || was == []
    ensures !PricesSubmitted(form) ==> forall v :: v in AllResent(form, was) ==> v.priceSet && v.price.None?
  {
    hide PricesSubmitted;
    if was != [] {
      assert was[0] in was;
      assert AllResent(form, was)[0] == Resent(form, was[0]);
    }
  }

  lemma {:induction false} PricesLeftAlone(form: Form, points: seq<PointId>, i: nat, seen: set<Key>)
    requires i <= |form.sizes| && !PricesSubmitted(form)
    ensures forall v :: v in ParseRows(form, points, i, seen).variants ==> !v.priceSet
    decreases |form.sizes| - i
  {
    hide RowKey, ParseCells, HasStock;
    if i < |form.sizes| {
      var key := RowKey(form, i);
      PricesLeftAlone(form, points, i + 1, if key in seen then seen else seen + {key});
    }
  }
}
