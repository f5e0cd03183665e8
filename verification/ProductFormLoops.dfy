/** The loops of internal/admin/product_form_parse.go, proved equal to the functions of ProductForm. */
module ProductFormLoops {
  import opened Wrappers
  import opened Text
  import opened ProductStore
  import opened ProductForm

  method BuildRows(variants: seq<StoredVariant>, stock: map<Cell, int>, points: seq<PointId>) returns (rows: seq<RowVM>)
    ensures rows == BuildVariantRows(variants, stock, points)
  {
    hide FormatDecimal, Itoa;
    rows := [];
    for i := 0 to |variants|
      invariant rows == BuildVariantRows(variants[..i], stock, points)
    {
      var v := variants[i];
      var price, orig := "", "";
      if v.price.Some? {
        orig := FormatDecimal(v.price.value);
        if v.price.value > 0 { price := orig; }
      }
      var cells := [];
      for j := 0 to |points|
        invariant cells == BuildCells(v.id, stock, points[..j])
      {
        var cell := CellVM(points[j], "0", "", true, false, false);
        if (v.id, points[j]) in stock {
          var shown := Itoa(stock[(v.id, points[j])]);
          cell := cell.(value := shown, orig := shown);
        }
        cells := cells + [cell];
      }
      assert points[..|points|] == points;
      rows := rows + [RowVM(v.id, v.id, v.size, v.color, price, orig, true, false, cells)];
    }
    assert variants[..|variants|] == variants;
  }

  /** What the loop has so far, followed by what the rest of the rows gives. */
  function Joined(a: Matrix, b: Matrix): Matrix {
    Matrix(a.rows + b.rows, a.variants + b.variants, a.stock + b.stock, a.errs + b.errs)
  }

  function JoinedCells(a: Cells, b: Cells): Cells {
    Cells(a.cells + b.cells, a.changes + b.changes, a.errs + b.errs)
  }

  method ParseOneCell(form: Form, key: Key, p: PointId) returns (out: Cells)
    ensures out == ParseCells(form, key, [p])
  {
    hide ParseStockCell, TextOf;
    var raw, origRaw := Get(form, Qty(key, p)), Get(form, Orig(key, p));
    var cell := CellVM(p, TextOf(raw), TextOf(origRaw), origRaw.Some?, false, false);
    var parsed := ParseStockCell(raw, origRaw);
    match parsed {
      case Err(e) =>
        out := Cells([cell.(invalid := true)], [], {if e == Stale then StaleForm else BadStockCell});
      case Ok(pc) =>
        out := Cells([cell], if pc.changed then [CellChange(key, p, pc.qty, pc.orig)] else [], {});
    }
    assert ParseCells(form, key, [p][1..]) == Cells([], [], {});
  }

  /** What one point adds to a row. */
  function CellFor(form: Form, key: Key, p: PointId): Cells {
    var raw, origRaw := Get(form, Qty(key, p)), Get(form, Orig(key, p));
    var cell := CellVM(p, TextOf(raw), TextOf(origRaw), origRaw.Some?, false, false);
    match ParseStockCell(raw, origRaw)
    case Err(e) => Cells([cell.(invalid := true)], [], {if e == Stale then StaleForm else BadStockCell})
    case Ok(pc) => Cells([cell], if pc.changed then [CellChange(key, p, pc.qty, pc.orig)] else [], {})
  }

  lemma CellsAre(form: Form, key: Key, points: seq<PointId>)
    requires points != []
    ensures ParseCells(form, key, points) == JoinedCells(CellFor(form, key, points[0]), ParseCells(form, key, points[1..]))
  {
    hide ParseStockCell, TextOf, Get;
  }

  lemma FirstCell(form: Form, key: Key, points: seq<PointId>)
    requires points != []
    ensures ParseCells(form, key, points) == JoinedCells(ParseCells(form, key, [points[0]]), ParseCells(form, key, points[1..]))
  {
    var p := points[0];
    assert ParseCells(form, key, []) == Cells([], [], {});
    hide ParseCells, CellFor, JoinedCells;
    CellsAre(form, key, points);
    CellsAre(form, key, [p]);
    assert [p][1..] == [];
    JoinedEmpty(CellFor(form, key, p));
  }

  lemma JoinedTwice(a: Cells, b: Cells, c: Cells)
    ensures JoinedCells(JoinedCells(a, b), c) == JoinedCells(a, JoinedCells(b, c))
  {
  }

  lemma JoinedEmpty(a: Cells)
    ensures JoinedCells(Cells([], [], {}), a) == a == JoinedCells(a, Cells([], [], {}))
  {
  }

  method ParseStockCells(form: Form, key: Key, points: seq<PointId>) returns (out: Cells)
    ensures out == ParseCells(form, key, points)
  {
    hide JoinedCells;
    out := Cells([], [], {});
    JoinedEmpty(ParseCells(form, key, points));
    assert points[0..] == points;
    for j := 0 to |points|
      invariant JoinedCells(out, ParseCells(form, key, points[j..])) == ParseCells(form, key, points)
    {
      FirstCell(form, key, points[j..]);
      assert points[j..][0] == points[j] && points[j..][1..] == points[j + 1..];
      hide ParseCells;
      var cell := ParseOneCell(form, key, points[j]);
      JoinedTwice(out, cell, ParseCells(form, key, points[j + 1..]));
      out := JoinedCells(out, cell);
    }
    assert points[|points|..] == [];
    JoinedEmpty(out);
  }

  /** One row of the form, unless it was added and never filled in. */
  method ParseOneRow(form: Form, points: seq<PointId>, i: nat) returns (out: ParsedRow)
    requires i < |form.sizes|
    ensures out == ParseRow(form, points, i)
  {
    hide TrimSpace, Itoa, ParseAmount, HasStock;
    var key, id, size, color := RowKey(form, i), At(form.ids, i), At(form.sizes, i), At(form.colors, i);
    if size == "" && color == "" && id == "" && !HasStock(form, key, points) {
      return Skipped;
    }
    var errs: set<FormError> := {};
    if size == "" || color == "" { errs := errs + {SizeOrColorMissing}; }
    var row := RowVM(key, id, size, color, "", "", false, false, []);
    var variant := VariantRow(key, id, size, color, false, None);
    if PricesSubmitted(form) {
      var origRaw := Get(form, OrigPrice(key));
      row := row.(price := TrimSpace(form.prices.value[i]), priceOrig := TextOf(origRaw), hasPriceOrig := origRaw.Some?);
      var override: Option<int> := None;
      match ParseVariantPrice(row.price) {
        case Err(_) =>
          errs := errs + {BadVariantPrice};
          row := row.(priceInvalid := true);
        case Ok(v) => override := v;
      }
      variant := variant.(priceSet := id == "" || origRaw.None? || VariantPriceChanged(override, origRaw.value), price := override);
    }
    var cells := ParseStockCells(form, key, points);
    out := ParsedRow(row.(cells := cells.cells), variant, cells.changes, errs + cells.errs);
  }

  method ParseMatrix(form: Form, points: seq<PointId>) returns (out: Matrix)
    ensures out == ParseRows(form, points, 0, {})
  {
    hide ParseRow, RowKey;
    out := Matrix([], [], [], {});
    var seenKeys: set<Key> := {};
    for i := 0 to |form.sizes|
      invariant Joined(out, ParseRows(form, points, i, seenKeys)) == ParseRows(form, points, 0, {})
    {
      ghost var was, now := out, ParseRows(form, points, i, seenKeys);
      var key := RowKey(form, i);
      if key in seenKeys {
        out := out.(errs := out.errs + {DuplicateRow});
      } else {
        seenKeys := seenKeys + {key};
        var row := ParseOneRow(form, points, i);
        if row.ParsedRow? {
          out := Matrix(out.rows + [row.row], out.variants + [row.variant], out.stock + row.changes, out.errs + row.errs);
        }
      }
      assert Joined(out, ParseRows(form, points, i + 1, seenKeys)) == Joined(was, now);
    }
  }

  method ParsePhotos(photos: seq<(string, string)>) returns (images: seq<Image>)
    ensures images == ParseImages(photos, 0)
  {
    hide TrimSpace;
    images := [];
    for i := 0 to |photos|
      invariant images + ParseImages(photos, i) == ParseImages(photos, 0)
    {
      var key := TrimSpace(photos[i].0);
      ghost var was := images;
      if key != "" { images := images + [Image(key, i, photos[i].1)]; }
      assert images + ParseImages(photos, i + 1) == was + ParseImages(photos, i);
    }
  }

  method ParseForm(form: Form, points: seq<PointId>) returns (out: ParsedForm)
    ensures out == ParseProductForm(form, points)
  {
    hide TrimSpace, ParsePrice, ParseRows, ParseImages;
    var price := ParsePrice(form.basePrice);
    var m := ParseMatrix(form, points);
    var errs := m.errs;
    if price.None? { errs := errs + {BadBasePrice}; }
    var images := ParsePhotos(form.images);
    var product := Product(form.categoryId, TrimSpace(form.nameRu), TrimSpace(form.nameKy), if price.Some? then price.value else 0);
    out := ParsedForm(SaveInput(form.productId, product, m.variants, m.stock, images), m.rows, errs);
  }

  /** byCell holds the last conflict reported for each cell. */
  ghost predicate Indexes(byCell: map<(Key, PointId), StockConflict>, conflicts: seq<StockConflict>) {
    forall k, p :: FindConflict(conflicts, k, p) == if (k, p) in byCell then Some(byCell[(k, p)]) else None
  }

  method IndexConflicts(conflicts: seq<StockConflict>) returns (byCell: map<(Key, PointId), StockConflict>)
    ensures Indexes(byCell, conflicts)
  {
    byCell := map[];
    for i := 0 to |conflicts|
      invariant Indexes(byCell, conflicts[..i])
    {
      var c := conflicts[i];
      ghost var was := byCell;
      byCell := byCell[(c.rowKey, c.pointId) := c];
      assert conflicts[..i + 1][..i] == conflicts[..i];
    }
    assert conflicts[..|conflicts|] == conflicts;
  }

  method MarkConflicts(rows: array<RowVM>, conflicts: seq<StockConflict>)
    modifies rows
    ensures rows[..] == MarkStockConflicts(old(rows[..]), conflicts)
  {
    hide FindConflict, Itoa;
    var byCell := IndexConflicts(conflicts);
    for i := 0 to rows.Length
      invariant forall k :: 0 <= k < i ==> rows[k] == RefreshRow(old(rows[k]), conflicts)
      invariant forall k :: i <= k < rows.Length ==> rows[k] == old(rows[k])
    {
      var row := rows[i];
      var cells := row.cells;
      for j := 0 to |cells|
        invariant |cells| == |row.cells|
        invariant forall k :: 0 <= k < j ==> cells[k] == RefreshCell(row.cells[k], row.key, conflicts)
        invariant forall k :: j <= k < |cells| ==> cells[k] == row.cells[k]
      {
        var at := (row.key, cells[j].point);
        if at in byCell {
          var c := byCell[at];
          cells := cells[j := cells[j].(value := Itoa(c.current), hasOrig := true,
                                        orig := if c.present then Itoa(c.current) else "", conflict := true)];
        }
      }
      rows[i] := row.(cells := cells);
      assert cells == RefreshRow(row, conflicts).cells;
    }
  }
}
