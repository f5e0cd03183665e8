/** Planning an import (internal/catalog/import_plan.go): rows are validated, grouped into models by
    article or by brand, name and category, and each model's product and variants are assembled. */
module ImportPlan {
  import opened Wrappers
  import opened Text
  import opened ImportCells

  type PointId = string

  // ---- the file and what planning reads of the catalogue ----

  /** One data row: its spreadsheet line, its cells, and its per-point stock cells in column-name order. */
  datatype Cells = Cells(modelCode: string, nameRu: string, nameKy: string, category: string, brand: string,
                         descRu: string, descKy: string, price: string, priceOverride: string,
                         size: string, color: string, sku: string, quantity: string)

  datatype FileRow = FileRow(line: nat, cells: Cells, points: seq<(PointId, string)>)

  predicate IsBlankRow(row: FileRow) {
    row.cells == Cells("", "", "", "", "", "", "", "", "", "", "", "", "") && forall p :: p in row.points ==> p.1 == ""
  }

  datatype Category = Category(id: string, slug: string, nameRu: string, nameKy: string)

  /** The active points of sale, oldest first, and every category. */
  datatype Reference = Reference(points: seq<PointId>, categories: seq<Category>)

  function Active(ref: Reference): set<PointId> { set p | p in ref.points }

  /** resolveTargetPoint: where the quantity column goes; "" when there is no active point. */
  function ResolveTargetPoint(ref: Reference, requested: string): Option<PointId> {
    var id := TrimSpace(requested);
    if id == "" then Some(if ref.points == [] then "" else ref.points[0])
    else if id in ref.points then Some(id)
    else None
  }

  function Matching(categories: seq<Category>, raw: string): seq<Category> {
    if categories == [] then []
    else
      var c := categories[0];
      (if c.slug == raw || Lower(c.nameRu) == Lower(raw) || Lower(c.nameKy) == Lower(raw) then [c] else [])
        + Matching(categories[1..], raw)
  }

  /** ResolveCategory: by id, else by exact slug, else by the only category with that name. */
  function ResolveCategory(categories: seq<Category>, raw: string): Result<string, Msg> {
    var hits := Matching(categories, raw);
    if exists c :: c in categories && c.id == raw then Ok(raw)
    else if exists c :: c in hits && c.slug == raw then
      BySlug(hits, raw)
    else if hits == [] then Err(CategoryNotFound)
    else if |hits| == 1 then Ok(hits[0].id)
    else Err(CategoryAmbiguous)
  }

  function BySlug(hits: seq<Category>, raw: string): Result<string, Msg> {
    if hits == [] then Err(CategoryNotFound) else if hits[0].slug == raw then Ok(hits[0].id) else BySlug(hits[1..], raw)
  }

  // ---- one row ----

  datatype ParsedVariant = ParsedVariant(size: string, color: string, sku: string)

  datatype RawRow = RawRow(line: nat, modelCode: string, nameRu: string, nameKy: string, category: string, brand: string,
                           descRu: string, descKy: string, price: Option<nat>, priceOverride: Option<nat>, priceBad: bool,
                           variant: Option<ParsedVariant>, stock: seq<(PointId, nat)>, usesDefaultPoint: bool, errs: seq<Msg>)

  /** A cell's value, if it has one, and what is wrong with it. */
  datatype Cell<T> = Cell(value: Option<T>, errs: seq<Msg>)

  /** A price of 0 could become the model's base price and sell it for free. */
  function ParseBase(v: string): Cell<nat> {
    if v == "" then Cell(None, [])
    else match ParsePrice(v)
      case Err(e) => Cell(None, [e])
      case Ok(f) => if f == 0 then Cell(None, [PriceNotPositive]) else Cell(Some(f), [])
  }

  function ParseOverride(v: string): Cell<nat> {
    if v == "" then Cell(None, [])
    else match ParsePrice(v)
      case Err(e) => Cell(None, [VariantPrice(e)])
      case Ok(f) => Cell(Some(f), [])
  }

  function ParseVariant(cells: Cells): Cell<ParsedVariant> {
    var size, color, sku := NormalizeSize(cells.size), NormalizeText(cells.color), TrimSpace(cells.sku);
    if size != "" && color != "" then Cell(Some(ParsedVariant(size, color, sku)), [])
    else if size != "" || color != "" then Cell(None, [VariantNeedsSizeAndColor])
    else if sku != "" then Cell(None, [SkuWithoutVariant])
    else Cell(None, [])
  }

  function ParseQuantityCell(v: string, hasVariant: bool, defaultPoint: PointId): Cell<nat> {
    if v == "" then Cell(None, [])
    else match ParseQuantity(v)
      case Err(e) => Cell(None, [e])
      case Ok(n) =>
        if !hasVariant then Cell(None, [StockWithoutVariant])
        else if defaultPoint == "" then Cell(None, [NoActivePoint])
        else Cell(Some(n), [])
  }

  function ParsePointCell(p: (PointId, string), hasVariant: bool, active: set<PointId>): Cell<nat> {
    if p.1 == "" then Cell(None, [])
    else match ParseQuantity(p.1)
      case Err(e) => Cell(None, [PointStock(p.0, e)])
      case Ok(n) =>
        if !hasVariant then Cell(None, [StockWithoutVariant])
        else if p.0 !in active then Cell(None, [PointInactive(p.0)])
        else Cell(Some(n), [])
  }

  datatype PointCells = PointCells(stock: seq<(PointId, nat)>, errs: seq<Msg>)

  function ParsePointCells(points: seq<(PointId, string)>, hasVariant: bool, active: set<PointId>): PointCells {
    if points == [] then PointCells([], [])
    else
      var c := ParsePointCell(points[0], hasVariant, active);
      var rest := ParsePointCells(points[1..], hasVariant, active);
      PointCells((if c.value.Some? then [(points[0].0, c.value.value)] else []) + rest.stock, c.errs + rest.errs)
  }

  function ParseRow(row: FileRow, defaultPoint: PointId, active: set<PointId>): RawRow {
    var cells := row.cells;
    var price, override, variant := ParseBase(cells.price), ParseOverride(cells.priceOverride), ParseVariant(cells);
    var qty := ParseQuantityCell(cells.quantity, variant.value.Some?, defaultPoint);
    var points := ParsePointCells(row.points, variant.value.Some?, active);
    RawRow(row.line, NormalizeText(cells.modelCode), NormalizeText(cells.nameRu), NormalizeText(cells.nameKy),
           NormalizeText(cells.category), NormalizeText(cells.brand), TrimSpace(cells.descRu), TrimSpace(cells.descKy),
           price.value, override.value, price.errs != [], variant.value,
           (if qty.value.Some? then [(defaultPoint, qty.value.value)] else []) + points.stock, qty.value.Some?,
           price.errs + override.errs + variant.errs + qty.errs + points.errs)
  }

  predicate HasSku(r: RawRow) {
    r.variant.Some? && r.variant.value.sku != ""
  }

  /** The non-blank rows, each after the first with a SKU marked as its repetition. */
  function ParseRows(rows: seq<FileRow>, defaultPoint: PointId, active: set<PointId>, skuLines: map<string, nat>): seq<RawRow> {
    if rows == [] then []
    else if IsBlankRow(rows[0]) then ParseRows(rows[1..], defaultPoint, active, skuLines)
    else
      var r := ParseRow(rows[0], defaultPoint, active);
      if HasSku(r) && r.variant.value.sku in skuLines then
        [r.(errs := r.errs + [SkuDuplicateInFile(skuLines[r.variant.value.sku])])] + ParseRows(rows[1..], defaultPoint, active, skuLines)
      else
        [r] + ParseRows(rows[1..], defaultPoint, active, if HasSku(r) then skuLines[r.variant.value.sku := r.line] else skuLines)
  }

  // ---- grouping ----

  /** The model a row belongs to; empty when nothing tells. */
  function GroupKey(r: RawRow): string {
    if r.modelCode != "" then "a\0" + Lower(r.modelCode)
    else if r.nameRu == "" || r.category == "" then ""
    else "n\0" + Lower(r.brand) + "\0" + Lower(r.nameRu) + "\0" + Lower(r.category)
  }

  /** A row without a key is a group of its own. */
  datatype Group = Group(key: string, rows: seq<RawRow>)

  function Keyless(r: RawRow): RawRow {
    r.(errs := r.errs + (if r.nameRu == "" then [NoNameOrArticle] else []) + (if r.category == "" then [NoCategoryOrArticle] else []))
  }

  /** The position of a key's group, or the number of groups. */
  function Find(groups: seq<Group>, key: string): (i: nat)
    ensures i <= |groups| && (i < |groups| ==> groups[i].key == key) && forall j :: 0 <= j < i ==> groups[j].key != key
  {
    if groups == [] || groups[0].key == key then 0 else 1 + Find(groups[1..], key)
  }

  function AddRow(groups: seq<Group>, r: RawRow): seq<Group> {
    var key := GroupKey(r);
    if key == "" then groups + [Group("", [Keyless(r)])]
    else
      var i := Find(groups, key);
      if i < |groups| then groups[i := Group(key, groups[i].rows + [r])] else groups + [Group(key, [r])]
  }

  function Grouped(rows: seq<RawRow>): seq<Group> {
    if rows == [] then [] else AddRow(Grouped(rows[..|rows| - 1]), rows[|rows| - 1])
  }

  // ---- assembling a model ----

  /** Empty texts are NULL in the database. */
  datatype Product = Product(modelCode: string, categoryId: string, nameRu: string, nameKy: string, brand: string,
                             descRu: string, descKy: string, basePrice: nat)
  datatype Variant = Variant(size: string, color: string, sku: string, override: Option<nat>)
  datatype Row = Row(line: nat, variant: Option<Variant>, stock: seq<(PointId, nat)>, errs: seq<Msg>)
  datatype Model = Model(title: string, product: Product, rows: seq<Row>)

  function FirstNonEmpty(a: string, b: string): string { if a != "" then a else b }

  /** The first non-empty value of a field wins. */
  function Pick(rows: seq<RawRow>, get: RawRow -> string): string {
    if rows == [] then "" else if get(rows[0]) != "" then get(rows[0]) else Pick(rows[1..], get)
  }

  function FirstPrice(rows: seq<RawRow>): Option<nat> {
    if rows == [] then None else if rows[0].price.Some? then rows[0].price else FirstPrice(rows[1..])
  }

  predicate HasBadPrice(rows: seq<RawRow>) { exists r :: r in rows && r.priceBad }

  /** A zero override means none; a price that differs from the base is an override. */
  function OverrideOf(r: RawRow, base: Option<nat>): Option<nat> {
    if r.priceOverride.Some? then if r.priceOverride.value > 0 then r.priceOverride else None
    else if r.price.Some? && base.Some? && r.price != base then r.price
    else None
  }

  /** Size and colour, ignoring case. */
  function SizeKey(v: ParsedVariant): string { Lower(v.size) + "\0" + Lower(v.color) }

  predicate HasKey(r: RawRow, key: string) { r.variant.Some? && SizeKey(r.variant.value) == key }

  /** The first of these rows with a size and colour. */
  function FirstWith(rows: seq<RawRow>, key: string): Option<RawRow> {
    if rows == [] then None
    else if FirstWith(rows[..|rows| - 1], key).Some? then FirstWith(rows[..|rows| - 1], key)
    else if HasKey(rows[|rows| - 1], key) then Some(rows[|rows| - 1])
    else None
  }

  function VariantErrs(rows: seq<RawRow>, i: nat): seq<Msg>
    requires i < |rows|
  {
    if rows[i].variant.None? then if |rows| > 1 then [MultiRowNeedsVariant] else []
    else match FirstWith(rows[..i], SizeKey(rows[i].variant.value))
      case None => []
      case Some(first) => [DuplicateVariant(first.line)]
  }

  function ModelErrs(rows: seq<RawRow>, category: Result<string, Msg>): seq<Msg> {
    (if Pick(rows, (r: RawRow) => r.nameRu) == "" then [NoName] else [])
    + (if category.Err? then [category.error] else [])
    + (if FirstPrice(rows).None? && !HasBadPrice(rows) then [NoPrice] else [])
  }

  function AssembleRow(rows: seq<RawRow>, modelErrs: seq<Msg>, i: nat): Row
    requires i < |rows|
  {
    var r := rows[i];
    Row(r.line,
        if r.variant.Some? then
          var v := r.variant.value; Some(Variant(v.size, v.color, v.sku, OverrideOf(r, FirstPrice(rows))))
        else None,
        r.stock,
        r.errs + (if i == 0 then modelErrs else []) + VariantErrs(rows, i))
  }

  type CategoryCache = map<string, Result<string, Msg>>

  /** Category cells are looked up once per spelling, ignoring case: the first spelling decides. */
  function LookUp(cache: CategoryCache, categories: seq<Category>, raw: string): Result<string, Msg> {
    if Lower(raw) in cache then cache[Lower(raw)] else ResolveCategory(categories, raw)
  }

  function CategoryOf(rows: seq<RawRow>): string { Pick(rows, (r: RawRow) => r.category) }

  function CategoryLookup(rows: seq<RawRow>, cache: CategoryCache, categories: seq<Category>): Result<string, Msg> {
    if CategoryOf(rows) == "" then Err(NoCategory) else LookUp(cache, categories, CategoryOf(rows))
  }

  function Remember(rows: seq<RawRow>, cache: CategoryCache, categories: seq<Category>): CategoryCache {
    if CategoryOf(rows) == "" then cache
    else cache[Lower(CategoryOf(rows)) := LookUp(cache, categories, CategoryOf(rows))]
  }

  function Assemble(rows: seq<RawRow>, category: Result<string, Msg>): Model
    requires rows != []
  {
    var base := FirstPrice(rows);
    var product := Product(rows[0].modelCode, if category.Ok? then category.value else "",
                           Pick(rows, (r: RawRow) => r.nameRu), Pick(rows, (r: RawRow) => r.nameKy),
                           Pick(rows, (r: RawRow) => r.brand), Pick(rows, (r: RawRow) => r.descRu),
                           Pick(rows, (r: RawRow) => r.descKy), if base.Some? then base.value else 0);
    var errs := ModelErrs(rows, category);
    Model(FirstNonEmpty(product.modelCode, product.nameRu), product,
          seq(|rows|, i requires 0 <= i < |rows| => AssembleRow(rows, errs, i)))
  }

  /** A row that nothing ties to a model is reported alone. */
  function Alone(r: RawRow): Model {
    var v := if r.variant.None? then None
             else Some(Variant(r.variant.value.size, r.variant.value.color, r.variant.value.sku, None));
    Model(FirstNonEmpty(r.modelCode, r.nameRu), Product("", "", "", "", "", "", "", 0), [Row(r.line, v, r.stock, r.errs)])
  }

  function AssembleAll(groups: seq<Group>, cache: CategoryCache, categories: seq<Category>): seq<Model>
    requires forall g :: g in groups ==> g.rows != []
  {
    if groups == [] then []
    else if groups[0].key == "" then [Alone(groups[0].rows[0])] + AssembleAll(groups[1..], cache, categories)
    else
      [Assemble(groups[0].rows, CategoryLookup(groups[0].rows, cache, categories))]
        + AssembleAll(groups[1..], Remember(groups[0].rows, cache, categories), categories)
  }

  predicate Failed(m: Model) { exists r :: r in m.rows && r.errs != [] }

  function RawRows(rows: seq<FileRow>, defaultPoint: PointId, ref: Reference): seq<RawRow> {
    ParseRows(rows, defaultPoint, Active(ref), map[])
  }

  /** Whether the quantity column was used. */
  predicate UsesPoint(rows: seq<RawRow>) { exists r :: r in rows && r.usesDefaultPoint }

  lemma {:induction false} GroupsAreNotEmpty(rows: seq<RawRow>)
    ensures forall g :: g in Grouped(rows) ==> g.rows != []
  {
    if rows != [] { GroupsAreNotEmpty(rows[..|rows| - 1]); }
  }

  function Plan(rows: seq<FileRow>, defaultPoint: PointId, ref: Reference): seq<Model> {
    var raw := RawRows(rows, defaultPoint, ref);
    GroupsAreNotEmpty(raw);
    AssembleAll(Grouped(raw), map[], ref.categories)
  }
}
