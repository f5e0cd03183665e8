/** The product form's stock matrix (internal/admin/product_form_parse.go): rendering it, parsing what
    comes back, and refreshing the cells that conflicted. */
module ProductForm {
  import opened Wrappers
  import opened Text
  import opened ProductStore

  const MAX_STOCK_QTY := 100_000
  /** NUMERIC(10,2), in hundredths. */
  const MAX_PRICE := 9_999_999_999

  // ---- cells ----

  datatype CellError = Empty | NotInt | Negative | TooBig | Stale

  function ParseStockQty(text: string): Result<int, CellError> {
    var s := TrimSpace(text);
    if s == "" then Err(Empty)
    else match Atoi(s)
      case None => Err(NotInt)
      case Some(n) => if n < 0 then Err(Negative) else if n > MAX_STOCK_QTY then Err(TooBig) else Ok(n)
  }

  datatype ParsedCell = ParsedCell(qty: int, orig: Option<int>, changed: bool)

  function TextOf(field: Option<string>): string {
    if field.Some? then TrimSpace(field.value) else ""
  }

  /** raw and origRaw are None when the field was not submitted. */
  function ParseStockCell(raw: Option<string>, origRaw: Option<string>): Result<ParsedCell, CellError> {
    var text, origText := TextOf(raw), TextOf(origRaw);
    var orig := if origText == "" then None else Atoi(origText);
    if origText != "" && (orig.None? || orig.value < 0) then Err(Stale)
    else if raw.None? || (text == "" && orig.None?) then
      Ok(ParsedCell(if orig.Some? then orig.value else 0, orig, false))
    else match ParseStockQty(text)
      case Err(e) => Err(e)
      case Ok(qty) => Ok(ParsedCell(qty, orig, qty != if orig.Some? then orig.value else 0))
  }

  // ---- prices ----

  function WithoutBlanks(s: string): string {
    if s == "" then "" else (if s[0] == ' ' || s[0] == '\U{00A0}' then "" else [s[0]]) + WithoutBlanks(s[1..])
  }

  function ParseAmount(text: string): Option<int> {
    var s := CommaToDot(TrimSpace(WithoutBlanks(text)));
    if s == "" then None else ParseDecimal(s)
  }

  /** The form's parsePrice. */
  function ParsePrice(text: string): Option<int> {
    match ParseAmount(text)
    case None => None
    case Some(v) => if 0 < v <= MAX_PRICE then Some(v) else None
  }

  /** A blank override means none. */
  function ParseVariantPrice(text: string): Result<Option<int>, ()> {
    if TrimSpace(text) == "" then Ok(None)
    else match ParsePrice(text)
      case None => Err(())
      case Some(v) => Ok(Some(v))
  }

  function VariantPriceChanged(submitted: Option<int>, origRaw: string): bool {
    if TrimSpace(origRaw) == "" then submitted.Some?
    else match ParseAmount(origRaw)
      case None => true
      case Some(orig) => submitted != Some(orig)
  }

  // ---- the form ----

  /** The submitted matrix fields; FieldName spells out their names. */
  datatype Field = Qty(key: Key, point: PointId) | Orig(key: Key, point: PointId) | OrigPrice(key: Key)

  function FieldName(f: Field): string {
    match f
    case Qty(key, point) => "qty_" + key + "_" + point
    case Orig(key, point) => "orig_" + key + "_" + point
    case OrigPrice(key) => "orig_variant_price_" + key
  }

  /** Quantity fields of different cells never share a name, as point ids all have one length. */
  lemma CellNamesDiffer(f: Field, g: Field)
    requires f.Qty? || f.Orig?
    requires g.Qty? || g.Orig?
    requires |f.point| == |g.point| && FieldName(f) == FieldName(g)
    ensures f == g
  {
    var a, b := FieldName(f), FieldName(g);
    var pre, pre' := if f.Qty? then "qty_" else "orig_", if g.Qty? then "qty_" else "orig_";
    assert a[0] == b[0];
    assert pre == pre' by { assert a[0] == pre[0] && b[0] == pre'[0]; }
    assert a == pre + (f.key + "_" + f.point) && b == pre + (g.key + "_" + g.point);
    var x, y := f.key + "_" + f.point, g.key + "_" + g.point;
    assert a[|pre|..] == x && b[|pre|..] == y;
    assert |f.key| == |g.key|;
    assert x[..|f.key|] == f.key && y[..|f.key|] == g.key;
    assert x[|f.key| + 1..] == f.point && y[|f.key| + 1..] == g.point;
  }

  /** The keys for which a cell's original and a row's price original go by one name. */
  predicate NamesMeet(key: Key, point: PointId, priceKey: Key) {
    || (key == "variant" && point == "price_" + priceKey)
    || (|key| >= 13 && key[..13] == "variant_price" && key[13..] + "_" + point == "_" + priceKey)
  }

  lemma OriginalsMeet(key: Key, point: PointId, priceKey: Key)
    ensures key + "_" + point == "variant_price_" + priceKey <==> NamesMeet(key, point, priceKey)
  {
    var a, b := key + "_" + point, "variant_price_" + priceKey;
    assert b[..13] == "variant_price" && b[13..] == "_" + priceKey;
    if |key| >= 13 {
      assert a[..13] == key[..13] && a[13..] == key[13..] + "_" + point;
      assert a == a[..13] + a[13..] && b == b[..13] + b[13..];
    } else if a == b {
      assert b[|key|] == a[|key|] == '_';
      assert |key| == 7;
      assert a[..7] == key && b[..7] == "variant";
      assert a[8..] == point && b[8..] == "price_" + priceKey;
    }
  }

  /** Which fields share a name, for any keys, where points have one length: only a cell's original and a
      price original can, and exactly when a row key starts like the price field's name. */
  lemma FieldNamesMeetIff(f: Field, g: Field)
    requires f.OrigPrice? || g.OrigPrice? || |f.point| == |g.point|
    ensures FieldName(f) == FieldName(g) <==>
      || f == g
      || (f.Orig? && g.OrigPrice? && NamesMeet(f.key, f.point, g.key))
      || (f.OrigPrice? && g.Orig? && NamesMeet(g.key, g.point, f.key))
  {
    hide NamesMeet;
    if f.OrigPrice? && g.OrigPrice? {
      assert FieldName(f)[|"orig_variant_price_"|..] == f.key && FieldName(g)[|"orig_variant_price_"|..] == g.key;
    } else if f.OrigPrice? {
      MeetsPrice(g, f);
    } else if g.OrigPrice? {
      MeetsPrice(f, g);
    } else if FieldName(f) == FieldName(g) {
      CellNamesDiffer(f, g);
    }
  }

  lemma MeetsPrice(f: Field, g: Field)
    requires !f.OrigPrice? && g.OrigPrice?
    ensures FieldName(f) == FieldName(g) <==> f.Orig? && NamesMeet(f.key, f.point, g.key)
  {
    var a, b := FieldName(f), FieldName(g);
    hide NamesMeet;
    if f.Qty? {
      assert a[0] == 'q' && b[0] == 'o';
    } else {
      var x, y := f.key + "_" + f.point, "variant_price_" + g.key;
      OriginalsMeet(f.key, f.point, g.key);
      assert a == "orig_" + x && b == "orig_" + y;
      assert a[5..] == x && b[5..] == y;
    }
  }

  /** The submitted form: the product's fields, the parallel arrays of the variant rows (prices absent
      when the form has no price column), and the matrix fields. */
  datatype Form = Form(productId: ProductId, categoryId: string, nameRu: string, nameKy: string, basePrice: string,
                       images: seq<(string, string)>,
                       keys: seq<string>, ids: seq<string>, sizes: seq<string>, colors: seq<string>,
                       prices: Option<seq<string>>, fields: map<string, string>)

  function At(texts: seq<string>, i: nat): string {
    if i < |texts| then TrimSpace(texts[i]) else ""
  }

  function Get(form: Form, f: Field): Option<string> {
    if FieldName(f) in form.fields then Some(form.fields[FieldName(f)]) else None
  }

  datatype CellVM = CellVM(point: PointId, value: string, orig: string, hasOrig: bool, conflict: bool, invalid: bool)
  datatype RowVM = RowVM(key: Key, id: VariantId, size: string, color: string, price: string, priceOrig: string,
                         hasPriceOrig: bool, priceInvalid: bool, cells: seq<CellVM>)

  datatype FormError = BadBasePrice | DuplicateRow | SizeOrColorMissing | BadVariantPrice | StaleForm | BadStockCell

  datatype Cells = Cells(cells: seq<CellVM>, changes: seq<CellChange>, errs: set<FormError>)

  /** The stock cells of one row, point by point. */
  function ParseCells(form: Form, key: Key, points: seq<PointId>): Cells {
    if points == [] then Cells([], [], {})
    else
      var p := points[0];
      var raw, origRaw := Get(form, Qty(key, p)), Get(form, Orig(key, p));
      var rest := ParseCells(form, key, points[1..]);
      match ParseStockCell(raw, origRaw)
      case Err(e) =>
        var cell := CellVM(p, TextOf(raw), TextOf(origRaw), origRaw.Some?, false, true);
        Cells([cell] + rest.cells, rest.changes, rest.errs + {if e == Stale then StaleForm else BadStockCell})
      case Ok(pc) =>
        var cell := CellVM(p, TextOf(raw), TextOf(origRaw), origRaw.Some?, false, false);
        Cells([cell] + rest.cells,
              (if pc.changed then [CellChange(key, p, pc.qty, pc.orig)] else []) + rest.changes, rest.errs)
  }

  function PricesSubmitted(form: Form): bool {
    form.prices.Some? && |form.prices.value| == |form.sizes|
  }

  predicate HasStock(form: Form, key: Key, points: seq<PointId>) {
    exists p :: p in points && TextOf(Get(form, Qty(key, p))) != "" && TextOf(Get(form, Qty(key, p))) != "0"
  }

  function RowKey(form: Form, i: nat): Key {
    if At(form.keys, i) == "" then "row" + Itoa(i) else At(form.keys, i)
  }

  datatype ParsedRow = Skipped | ParsedRow(row: RowVM, variant: VariantRow, changes: seq<CellChange>, errs: set<FormError>)

  /** The price half of a row: what the table shows again, and what is saved. */
  datatype ParsedPrice = ParsedPrice(text: string, orig: string, hasOrig: bool, invalid: bool, priceSet: bool, price: Option<int>)

  function ParseRowPrice(submitted: Option<string>, origRaw: Option<string>, id: VariantId): ParsedPrice {
    if submitted.None? then ParsedPrice("", "", false, false, false, None)
    else
      var text := TrimSpace(submitted.value);
      var parsed := ParseVariantPrice(text);
      var override := if parsed.Ok? then parsed.value else None;
      var changed := id == "" || origRaw.None? || VariantPriceChanged(override, origRaw.value);
      ParsedPrice(text, TextOf(origRaw), origRaw.Some?, parsed.Err?, changed, override)
  }

  function ParseRow(form: Form, points: seq<PointId>, i: nat): ParsedRow
    requires i < |form.sizes|
  {
    var key, id, size, color := RowKey(form, i), At(form.ids, i), At(form.sizes, i), At(form.colors, i);
    if size == "" && color == "" && id == "" && !HasStock(form, key, points) then Skipped
    else
      var price := ParseRowPrice(if PricesSubmitted(form) then Some(form.prices.value[i]) else None, Get(form, OrigPrice(key)), id);
      var cells := ParseCells(form, key, points);
      ParsedRow(RowVM(key, id, size, color, price.text, price.orig, price.hasOrig, price.invalid, cells.cells),
                VariantRow(key, id, size, color, price.priceSet, price.price),
                cells.changes,
                (if size == "" || color == "" then {SizeOrColorMissing} else {})
                + (if price.invalid then {BadVariantPrice} else {}) + cells.errs)
  }

  datatype Matrix = Matrix(rows: seq<RowVM>, variants: seq<VariantRow>, stock: seq<CellChange>, errs: set<FormError>)

  function AddRow(p: ParsedRow, rest: Matrix): Matrix {
    match p
    case Skipped => rest
    case ParsedRow(row, variant, changes, errs) =>
      Matrix([row] + rest.rows, [variant] + rest.variants, changes + rest.stock, errs + rest.errs)
  }

  /** The rows from i on; a key already seen is an error and its row is dropped. */
  function ParseRows(form: Form, points: seq<PointId>, i: nat, seen: set<Key>): Matrix
    requires i <= |form.sizes|
    decreases |form.sizes| - i
  {
    if i == |form.sizes| then Matrix([], [], [], {})
    else
      var key := RowKey(form, i);
      if key in seen then
        var rest := ParseRows(form, points, i + 1, seen);
        rest.(errs := rest.errs + {DuplicateRow})
      else AddRow(ParseRow(form, points, i), ParseRows(form, points, i + 1, seen + {key}))
  }

  function ParseImages(images: seq<(string, string)>, i: nat): seq<Image>
    requires i <= |images|
    decreases |images| - i
  {
    if i == |images| then []
    else
      var key := TrimSpace(images[i].0);
      (if key == "" then [] else [Image(key, i, images[i].1)]) + ParseImages(images, i + 1)
  }

  datatype ParsedForm = ParsedForm(input: SaveInput, rows: seq<RowVM>, errs: set<FormError>)

  function ParseProductForm(form: Form, points: seq<PointId>): ParsedForm {
    var m := ParseRows(form, points, 0, {});
    var price := ParsePrice(form.basePrice);
    var product := Product(form.categoryId, TrimSpace(form.nameRu), TrimSpace(form.nameKy), if price.Some? then price.value else 0);
    ParsedForm(SaveInput(form.productId, product, m.variants, m.stock, ParseImages(form.images, 0)), m.rows,
               m.errs + if price.None? then {BadBasePrice} else {})
  }

  // ---- rendering ----

  datatype StoredVariant = StoredVariant(id: VariantId, size: string, color: string, price: Option<int>)

  function BuildCells(v: VariantId, stock: map<Cell, int>, points: seq<PointId>): seq<CellVM> {
    seq(|points|, j requires 0 <= j < |points| =>
      if (v, points[j]) in stock then
        CellVM(points[j], Itoa(stock[(v, points[j])]), Itoa(stock[(v, points[j])]), true, false, false)
      else CellVM(points[j], "0", "", true, false, false))
  }

  /** A stored override that is not positive is shown blank, next to its verbatim original. */
  function BuildRow(v: StoredVariant, stock: map<Cell, int>, points: seq<PointId>): RowVM {
    var orig := if v.price.Some? then FormatDecimal(v.price.value) else "";
    RowVM(v.id, v.id, v.size, v.color, if v.price.Some? && v.price.value > 0 then orig else "", orig, true, false,
          BuildCells(v.id, stock, points))
  }

  function BuildVariantRows(variants: seq<StoredVariant>, stock: map<Cell, int>, points: seq<PointId>): seq<RowVM> {
    seq(|variants|, i requires 0 <= i < |variants| => BuildRow(variants[i], stock, points))
  }

  function RefreshCell(cell: CellVM, key: Key, conflicts: seq<StockConflict>): CellVM {
    match FindConflict(conflicts, key, cell.point)
    case None => cell
    case Some(c) =>
      cell.(value := Itoa(c.current), hasOrig := true, orig := if c.present then Itoa(c.current) else "", conflict := true)
  }

  /** The last conflict reported for a cell, as in a map filled in order. */
  function FindConflict(conflicts: seq<StockConflict>, key: Key, point: PointId): Option<StockConflict> {
    if conflicts == [] then None
    else
      var c := conflicts[|conflicts| - 1];
      if c.rowKey == key && c.pointId == point then Some(c) else FindConflict(conflicts[..|conflicts| - 1], key, point)
  }

  function RefreshRow(row: RowVM, conflicts: seq<StockConflict>): RowVM {
    row.(cells := seq(|row.cells|, j requires 0 <= j < |row.cells| => RefreshCell(row.cells[j], row.key, conflicts)))
  }

  function MarkStockConflicts(rows: seq<RowVM>, conflicts: seq<StockConflict>): seq<RowVM> {
    seq(|rows|, i requires 0 <= i < |rows| => RefreshRow(rows[i], conflicts))
  }

  /** The browser sends these rows back exactly as they were rendered. */
  ghost predicate Submits(form: Form, rows: seq<RowVM>) {
    && |form.keys| == |form.ids| == |form.sizes| == |form.colors| == |rows|
    && form.prices.Some? && |form.prices.value| == |rows|
    && forall i :: 0 <= i < |rows| ==> SubmitsRow(form, i, rows[i])
  }

  ghost predicate SubmitsRow(form: Form, i: nat, row: RowVM)
    requires i < |form.keys| && |form.keys| == |form.ids| == |form.sizes| == |form.colors|
    requires form.prices.Some? && |form.prices.value| == |form.keys|
  {
    && form.keys[i] == row.key && form.ids[i] == row.id && form.sizes[i] == row.size && form.colors[i] == row.color
    && form.prices.value[i] == row.price
    && Get(form, OrigPrice(row.key)) == (if row.hasPriceOrig then Some(row.priceOrig) else None)
    && forall c :: c in row.cells ==>
         && Get(form, Qty(row.key, c.point)) == Some(c.value)
         && Get(form, Orig(row.key, c.point)) == if c.hasOrig then Some(c.orig) else None
  }
}
