/** The catalogue an import writes to (internal/catalog/import_store.go), and how one model is written
    (internal/catalog/import.go, importModel). A failed statement leaves the transaction to be rolled
    back, so a model is a function from the catalogue to the next one, or to a failure. */
module ImportStore {
  import opened Wrappers
  import opened ImportCells
  import opened ImportPlan

  type ProductId = nat
  type VariantId = nat

  datatype StoredVariant = StoredVariant(product: ProductId, variant: Variant)

  /** A row's id is its position, so the next id is part of the state that is rolled back. */
  datatype Db = Db(products: seq<Product>, variants: seq<StoredVariant>, stock: map<(VariantId, PointId), nat>,
                   points: set<PointId>, ref: Reference)

  // ---- lookups ----

  predicate SameCode(p: Product, code: string) { p.modelCode != "" && Lower(p.modelCode) == Lower(code) }

  function ProductByCode(products: seq<Product>, code: string): (r: Option<ProductId>)
    ensures r.Some? ==> r.value < |products| && SameCode(products[r.value], code)
    ensures r.None? ==> forall p :: p in products ==> !SameCode(p, code)
  {
    if products == [] then None
    else if SameCode(products[|products| - 1], code) then Some(|products| - 1)
    else ProductByCode(products[..|products| - 1], code)
  }

  predicate SameName(p: Product, m: Product) {
    && p.categoryId == m.categoryId && Lower(p.nameRu) == Lower(m.nameRu) && Lower(p.brand) == Lower(m.brand)
    && (m.modelCode == "" || p.modelCode == "")
  }

  /** Brand, name and category; for a model with an article only among products without one. */
  function ProductsByName(products: seq<Product>, m: Product): (ids: seq<ProductId>)
    ensures forall i: nat :: i in ids <==> i < |products| && SameName(products[i], m)
  {
    if products == [] then []
    else
      ProductsByName(products[..|products| - 1], m)
      + if SameName(products[|products| - 1], m) then [|products| - 1] else []
  }

  function VariantBySku(variants: seq<StoredVariant>, sku: string): (r: Option<VariantId>)
    ensures r.Some? ==> r.value < |variants| && variants[r.value].variant.sku == sku
    ensures r.None? ==> forall v :: v in variants ==> v.variant.sku != sku
  {
    if variants == [] then None
    else if variants[|variants| - 1].variant.sku == sku then Some(|variants| - 1)
    else VariantBySku(variants[..|variants| - 1], sku)
  }

  predicate LikeSizeColor(s: StoredVariant, product: ProductId, size: string, color: string) {
    s.product == product && Lower(s.variant.size) == Lower(size) && Lower(s.variant.color) == Lower(color)
  }

  predicate ExactSizeColor(s: StoredVariant, product: ProductId, size: string, color: string) {
    s.product == product && s.variant.size == size && s.variant.color == color
  }

  function Exact(variants: seq<StoredVariant>, product: ProductId, size: string, color: string): (r: Option<VariantId>)
    ensures r.Some? ==> r.value < |variants| && ExactSizeColor(variants[r.value], product, size, color)
    ensures r.None? ==> forall v :: v in variants ==> !ExactSizeColor(v, product, size, color)
  {
    if variants == [] then None
    else if ExactSizeColor(variants[|variants| - 1], product, size, color) then Some(|variants| - 1)
    else Exact(variants[..|variants| - 1], product, size, color)
  }

  function Like(variants: seq<StoredVariant>, product: ProductId, size: string, color: string): (r: Option<VariantId>)
    ensures r.Some? ==> r.value < |variants| && LikeSizeColor(variants[r.value], product, size, color)
    ensures r.None? ==> forall v :: v in variants ==> !LikeSizeColor(v, product, size, color)
  {
    if variants == [] then None
    else if LikeSizeColor(variants[|variants| - 1], product, size, color) then Some(|variants| - 1)
    else Like(variants[..|variants| - 1], product, size, color)
  }

  /** Case is ignored, but an exact match comes first. */
  function VariantBySizeColor(variants: seq<StoredVariant>, product: ProductId, size: string, color: string): Option<VariantId> {
    if Exact(variants, product, size, color).Some? then Exact(variants, product, size, color) else Like(variants, product, size, color)
  }

  // ---- statements ----

  predicate KnownCategory(db: Db, id: string) { exists c :: c in db.ref.categories && c.id == id }

  function AsCreated(p: Product): Product {
    p.(nameKy := if p.nameKy == "" then p.nameRu else p.nameKy)
  }

  function CreateProduct(db: Db, p: Product): Result<Db, Msg> {
    if p.modelCode != "" && ProductByCode(db.products, p.modelCode).Some? then Err(DbConflict)
    else if !KnownCategory(db, p.categoryId) then Err(DbNotFound)
    else Ok(db.(products := db.products + [AsCreated(p)]))
  }

  /** Empty optional cells keep what is stored. */
  function AsUpdated(old_: Product, p: Product): Product {
    Product(FirstNonEmpty(p.modelCode, old_.modelCode), p.categoryId, p.nameRu, FirstNonEmpty(p.nameKy, old_.nameKy),
            FirstNonEmpty(p.brand, old_.brand), FirstNonEmpty(p.descRu, old_.descRu), FirstNonEmpty(p.descKy, old_.descKy),
            p.basePrice)
  }

  predicate CodeTaken(products: seq<Product>, id: ProductId, code: string) {
    exists i :: 0 <= i < |products| && i != id && SameCode(products[i], code)
  }

  function UpdateProduct(db: Db, id: ProductId, p: Product): Result<Db, Msg>
    requires id < |db.products|
  {
    var next := AsUpdated(db.products[id], p);
    if next.modelCode != "" && CodeTaken(db.products, id, next.modelCode) then Err(DbConflict)
    else if !KnownCategory(db, p.categoryId) then Err(DbNotFound)
    else Ok(db.(products := db.products[id := next]))
  }

  predicate Clashes(variants: seq<StoredVariant>, id: VariantId, s: StoredVariant) {
    exists i :: 0 <= i < |variants| && i != id
      && (ExactSizeColor(variants[i], s.product, s.variant.size, s.variant.color)
          || (s.variant.sku != "" && variants[i].variant.sku == s.variant.sku))
  }

  function CreateVariant(db: Db, product: ProductId, v: Variant): Result<Db, Msg> {
    var s := StoredVariant(product, v);
    if Clashes(db.variants, |db.variants|, s) then Err(DbConflict) else Ok(db.(variants := db.variants + [s]))
  }

  function UpdateVariant(db: Db, id: VariantId, v: Variant): Result<Db, Msg>
    requires id < |db.variants|
  {
    var was := db.variants[id];
    var s := StoredVariant(was.product, v.(sku := FirstNonEmpty(v.sku, was.variant.sku)));
    if Clashes(db.variants, id, s) then Err(DbConflict) else Ok(db.(variants := db.variants[id := s]))
  }

  function SetStock(db: Db, variant: VariantId, point: PointId, qty: nat): Result<Db, Msg> {
    if point !in db.points || variant >= |db.variants| then Err(DbNotFound)
    else Ok(db.(stock := db.stock[(variant, point) := qty]))
  }

  // ---- one model ----

  datatype Failure = Failure(line: nat, msg: Msg)
  datatype Status = RowCreated | RowUpdated

  datatype Outcome = Outcome(created: bool, status: map<nat, Status>, variantsNew: nat, variantsUpd: nat)

  predicate HasSkuCell(r: Row) { r.variant.Some? && r.variant.value.sku != "" }

  /** The product that the rows' SKUs belong to. */
  function FindBySku(db: Db, m: Product, rows: seq<Row>, found: Option<ProductId>): Result<Option<ProductId>, Failure> {
    if rows == [] then Ok(found)
    else if !HasSkuCell(rows[0]) then FindBySku(db, m, rows[1..], found)
    else match VariantBySku(db.variants, rows[0].variant.value.sku)
      case None => FindBySku(db, m, rows[1..], found)
      case Some(v) =>
        var owner := db.variants[v].product;
        var code := if owner < |db.products| then db.products[owner].modelCode else "";
        if m.modelCode != "" && code != "" && Lower(code) != Lower(m.modelCode) then Err(Failure(rows[0].line, SkuTakenArticle))
        else if found.Some? && found.value != owner then Err(Failure(rows[0].line, SkuOtherProduct))
        else FindBySku(db, m, rows[1..], Some(owner))
  }

  /** By article, then by SKU, then by brand, name and category; None means create. */
  function FindProduct(db: Db, m: Model): Result<Option<ProductId>, Failure>
    requires m.rows != []
  {
    if m.product.modelCode != "" && ProductByCode(db.products, m.product.modelCode).Some? then
      Ok(ProductByCode(db.products, m.product.modelCode))
    else match FindBySku(db, m.product, m.rows, None)
      case Err(f) => Err(f)
      case Ok(Some(id)) => Ok(Some(id))
      case Ok(None) =>
        var ids := ProductsByName(db.products, m.product);
        if |ids| == 0 then Ok(None)
        else if |ids| == 1 then Ok(Some(ids[0]))
        else Err(Failure(m.rows[0].line, AmbiguousProduct))
  }

  function SetAll(db: Db, variant: VariantId, stock: seq<(PointId, nat)>): Result<Db, Msg>
    decreases |stock|
  {
    if stock == [] then Ok(db)
    else match SetStock(db, variant, stock[0].0, stock[0].1)
      case Err(e) => Err(e)
      case Ok(next) => SetAll(next, variant, stock[1..])
  }

  /** The stored variant of a row, if any: by SKU, else by size and colour within a product that existed. */
  function FindVariant(db: Db, product: ProductId, created: bool, r: Row): Result<Option<VariantId>, Failure>
    requires r.variant.Some?
  {
    var v := r.variant.value;
    var bySku := if v.sku == "" then None else VariantBySku(db.variants, v.sku);
    if bySku.Some? && db.variants[bySku.value].product != product then Err(Failure(r.line, SkuTaken))
    else if bySku.None? && !created then Ok(VariantBySizeColor(db.variants, product, v.size, v.color))
    else Ok(bySku)
  }

  function Noted(out: Outcome, line: nat, status: Status, new_: nat, upd: nat): Outcome {
    out.(status := out.status[line := status], variantsNew := out.variantsNew + new_, variantsUpd := out.variantsUpd + upd)
  }

  function WithStock(r: Result<Db, Msg>, variant: VariantId, row: Row, out: Outcome): Result<(Db, Outcome), Failure> {
    match r
    case Err(e) => Err(Failure(row.line, e))
    case Ok(db) =>
      match SetAll(db, variant, row.stock)
      case Err(e) => Err(Failure(row.line, e))
      case Ok(next) => Ok((next, out))
  }

  function ImportRow(db: Db, product: ProductId, r: Row, out: Outcome): Result<(Db, Outcome), Failure> {
    if r.variant.None? then Ok((db, Noted(out, r.line, if out.created then RowCreated else RowUpdated, 0, 0)))
    else match FindVariant(db, product, out.created, r)
      case Err(f) => Err(f)
      case Ok(None) =>
        WithStock(CreateVariant(db, product, r.variant.value), |db.variants|, r, Noted(out, r.line, RowCreated, 1, 0))
      case Ok(Some(id)) =>
        WithStock(UpdateVariant(db, id, r.variant.value), id, r, Noted(out, r.line, RowUpdated, 0, 1))
  }

  function ImportRows(db: Db, product: ProductId, rows: seq<Row>, out: Outcome): Result<(Db, Outcome), Failure>
    decreases |rows|
  {
    if rows == [] then Ok((db, out))
    else match ImportRow(db, product, rows[0], out)
      case Err(f) => Err(f)
      case Ok((next, out')) => ImportRows(next, product, rows[1..], out')
  }

  function WriteProduct(db: Db, m: Model, found: Option<ProductId>): Result<Db, Msg> {
    if found.None? then CreateProduct(db, m.product)
    else if found.value < |db.products| then UpdateProduct(db, found.value, m.product)
    else Ok(db)
  }

  /** importModel: the catalogue and the outcome, or the failing row. */
  function ImportModel(db: Db, m: Model): Result<(Db, Outcome), Failure>
    requires m.rows != []
  {
    match FindProduct(db, m)
    case Err(f) => Err(f)
    case Ok(found) =>
      match WriteProduct(db, m, found)
      case Err(e) => Err(Failure(m.rows[0].line, e))
      case Ok(next) =>
        ImportRows(next, if found.Some? then found.value else |db.products|, m.rows, Outcome(found.None?, map[], 0, 0))
  }
}
