/** What every import keeps, whatever the file and whatever the catalogue already holds. */
module ImportInvariant {
  import opened Wrappers
  import opened ImportCells
  import opened ImportPlan
  import opened ImportPlanLaws
  import opened ImportStore
  import opened ImportRun
  import opened Reimport

  /** No two products share an article, ignoring case. */
  ghost predicate UniqueCodes(products: seq<Product>) {
    forall i, j :: 0 <= i < |products| && 0 <= j < |products| && i != j && products[i].modelCode != "" ==>
      !SameCode(products[j], products[i].modelCode)
  }

  /** No two variants share a SKU, or a size and colour of one product. */
  ghost predicate UniqueVariants(variants: seq<StoredVariant>) {
    forall i, j :: 0 <= i < |variants| && 0 <= j < |variants| && i != j ==>
      && !(variants[i].variant.sku != "" && variants[j].variant.sku == variants[i].variant.sku)
      && !ExactSizeColor(variants[j], variants[i].product, variants[i].variant.size, variants[i].variant.color)
  }

  ghost predicate Consistent(db: Db) {
    DbOk(db) && UniqueCodes(db.products) && UniqueVariants(db.variants)
  }

  /** Nothing is removed, a variant keeps its product, and an article or SKU once set is never cleared. */
  ghost predicate Grows(db: Db, db': Db) {
    && db'.ref == db.ref && db'.points == db.points
    && |db.products| <= |db'.products| && |db.variants| <= |db'.variants|
    && (forall i :: 0 <= i < |db.products| && db.products[i].modelCode != "" ==> db'.products[i].modelCode != "")
    && (forall i :: 0 <= i < |db.variants| ==> db'.variants[i].product == db.variants[i].product)
    && (forall i :: 0 <= i < |db.variants| && db.variants[i].variant.sku != "" ==> db'.variants[i].variant.sku != "")
    && db.stock.Keys <= db'.stock.Keys
  }

  ghost predicate Kept(db: Db, db': Db) { Consistent(db') && Grows(db, db') }

  lemma GrowsOn(a: Db, b: Db, c: Db)
    requires Grows(a, b) && Grows(b, c)
    ensures Grows(a, c)
  {
  }

  lemma StaysPut(db: Db)
    ensures Grows(db, db)
  {
  }

  // ---- the statements ----

  lemma ProductWritten(db: Db, m: Model, found: Option<ProductId>)
    requires Consistent(db) && WriteProduct(db, m, found).Ok?
    ensures Kept(db, WriteProduct(db, m, found).value)
  {
    var db' := WriteProduct(db, m, found).value;
    hide UniqueVariants, Lower, KnownCategory;
    assert db' == db.(products := db'.products);
    if found.None? {
      CreatedCodes(db, m.product, db');
    } else if found.value < |db.products| {
      UpdatedCodes(db, found.value, m.product, db');
    }
    hide CreateProduct, UpdateProduct, UniqueCodes;
  }

  lemma CreatedCodes(db: Db, p: Product, db': Db)
    requires UniqueCodes(db.products) && CreateProduct(db, p) == Ok(db')
    ensures UniqueCodes(db'.products) && |db'.products| == |db.products| + 1
    ensures forall i :: 0 <= i < |db.products| ==> db'.products[i] == db.products[i]
  {
    hide KnownCategory;
    var n := |db.products|;
    forall j | 0 <= j < n && p.modelCode != "" ensures !SameCode(db.products[j], p.modelCode) {
      assert db.products[j] in db.products;
    }
    assert db'.products[n].modelCode == p.modelCode;
    forall i, j | 0 <= i < n + 1 && 0 <= j < n + 1 && i != j && db'.products[i].modelCode != ""
      ensures !SameCode(db'.products[j], db'.products[i].modelCode)
    {
      if i < n && j == n { assert p.modelCode != "" ==> !SameCode(db.products[i], p.modelCode); }
    }
  }

  lemma UpdatedCodes(db: Db, id: ProductId, p: Product, db': Db)
    requires UniqueCodes(db.products) && id < |db.products| && UpdateProduct(db, id, p) == Ok(db')
    ensures UniqueCodes(db'.products) && |db'.products| == |db.products|
    ensures forall i :: 0 <= i < |db.products| && db.products[i].modelCode != "" ==> db'.products[i].modelCode != ""
  {
    hide KnownCategory;
    var next := AsUpdated(db.products[id], p);
    forall i, j | 0 <= i < |db.products| && 0 <= j < |db.products| && i != j && db'.products[i].modelCode != ""
      ensures !SameCode(db'.products[j], db'.products[i].modelCode)
    {
      if j == id && next.modelCode != "" { assert !SameCode(db.products[i], next.modelCode); }
    }
  }

  /** Writing a variant that clashes with none keeps them apart. */
  lemma ApartAfterWrite(variants: seq<StoredVariant>, id: VariantId, s: StoredVariant)
    requires UniqueVariants(variants) && id <= |variants| && !Clashes(variants, id, s)
    ensures UniqueVariants(if id < |variants| then variants[id := s] else variants + [s])
  {
    var next := if id < |variants| then variants[id := s] else variants + [s];
    forall i, j | 0 <= i < |next| && 0 <= j < |next| && i != j
      ensures !(next[i].variant.sku != "" && next[j].variant.sku == next[i].variant.sku)
      ensures !ExactSizeColor(next[j], next[i].product, next[i].variant.size, next[i].variant.color)
    {
      if i == id { assert next[j] == variants[j]; }
      if j == id { assert next[i] == variants[i]; }
    }
  }

  lemma VariantCreated(db: Db, product: ProductId, v: Variant)
    requires Consistent(db) && product < |db.products| && CreateVariant(db, product, v).Ok?
    ensures Kept(db, CreateVariant(db, product, v).value)
  {
    ApartAfterWrite(db.variants, |db.variants|, StoredVariant(product, v));
    hide UniqueVariants, UniqueCodes, Clashes;
  }

  lemma VariantUpdated(db: Db, id: VariantId, v: Variant)
    requires Consistent(db) && id < |db.variants| && UpdateVariant(db, id, v).Ok?
    ensures Kept(db, UpdateVariant(db, id, v).value)
  {
    var db' := UpdateVariant(db, id, v).value;
    ApartAfterWrite(db.variants, id, db'.variants[id]);
    hide UniqueVariants, UniqueCodes, Clashes;
    forall x | x in db'.variants ensures x.product < |db.products| {
      var i :| 0 <= i < |db'.variants| && db'.variants[i] == x;
      assert db.variants[i] in db.variants;
    }
  }

  lemma {:induction false} StockSet(db: Db, v: VariantId, stock: seq<(PointId, nat)>)
    requires Consistent(db) && SetAll(db, v, stock).Ok?
    ensures Kept(db, SetAll(db, v, stock).value)
    decreases |stock|
  {
    hide UniqueVariants, UniqueCodes;
    if stock != [] { StockSet(SetStock(db, v, stock[0].0, stock[0].1).value, v, stock[1..]); }
  }

  // ---- models and runs ----

  lemma RowWritten(db: Db, product: ProductId, r: Row, out: Outcome)
    requires Consistent(db) && product < |db.products| && ImportRow(db, product, r, out).Ok?
    ensures Kept(db, ImportRow(db, product, r, out).value.0)
  {
    StaysPut(db);
    if r.variant.Some? {
      var id := FindVariant(db, product, out.created, r).value;
      hide Consistent, Grows, CreateVariant, UpdateVariant, SetAll;
      if id.None? {
        VariantCreated(db, product, r.variant.value);
        var next := CreateVariant(db, product, r.variant.value).value;
        StockSet(next, |db.variants|, r.stock);
        GrowsOn(db, next, SetAll(next, |db.variants|, r.stock).value);
      } else {
        VariantUpdated(db, id.value, r.variant.value);
        var next := UpdateVariant(db, id.value, r.variant.value).value;
        StockSet(next, id.value, r.stock);
        GrowsOn(db, next, SetAll(next, id.value, r.stock).value);
      }
    }
  }

  lemma {:induction false} RowsWritten(db: Db, product: ProductId, rows: seq<Row>, out: Outcome)
    requires Consistent(db) && product < |db.products| && ImportRows(db, product, rows, out).Ok?
    ensures Kept(db, ImportRows(db, product, rows, out).value.0)
    decreases |rows|
  {
    hide ImportRow, Consistent;
    StaysPut(db);
    if rows != [] {
      RowWritten(db, product, rows[0], out);
      var (next, out') := ImportRow(db, product, rows[0], out).value;
      RowsWritten(next, product, rows[1..], out');
      GrowsOn(db, next, ImportRows(next, product, rows[1..], out').value.0);
    }
  }

  /** FindProduct finds a stored product. */
  lemma FoundIsStored(db: Db, m: Model)
    requires DbOk(db) && m.rows != [] && FindProduct(db, m).Ok?
    ensures FindProduct(db, m).value.Some? ==> FindProduct(db, m).value.value < |db.products|
  {
    OwnerIsStored(db, m.product, m.rows, None);
    hide DbOk, FindBySku, SameCode, SameName;
    var ids := ProductsByName(db.products, m.product);
    if |ids| == 1 { assert ids[0] in ids; }
  }

  lemma {:induction false} OwnerIsStored(db: Db, m: Product, rows: seq<Row>, found: Option<ProductId>)
    requires DbOk(db) && (found.Some? ==> found.value < |db.products|)
    ensures var r := FindBySku(db, m, rows, found); r.Ok? && r.value.Some? ==> r.value.value < |db.products|
    decreases |rows|
  {
    hide Lower;
    if rows != [] {
      var v := if HasSkuCell(rows[0]) then VariantBySku(db.variants, rows[0].variant.value.sku) else None;
      if v.None? {
        OwnerIsStored(db, m, rows[1..], found);
      } else {
        assert db.variants[v.value] in db.variants;
        OwnerIsStored(db, m, rows[1..], Some(db.variants[v.value].product));
      }
    }
  }

  lemma ModelWritten(db: Db, m: Model)
    requires Consistent(db) && m.rows != [] && ImportModel(db, m).Ok?
    ensures Kept(db, ImportModel(db, m).value.0)
  {
    FoundIsStored(db, m);
    var found := FindProduct(db, m).value;
    var next := WriteProduct(db, m, found).value;
    ProductWritten(db, m, found);
    assert found.None? ==> |next.products| == |db.products| + 1;
    hide FindProduct, WriteProduct, Consistent, ImportRows;
    var product := if found.Some? then found.value else |db.products|;
    RowsWritten(next, product, m.rows, Outcome(found.None?, map[], 0, 0));
    GrowsOn(db, next, ImportModel(db, m).value.0);
  }

  lemma {:induction false} StepsKeep(db: Db, models: seq<Model>, res: Report)
    requires Consistent(db) && forall m :: m in models ==> m.rows != []
    ensures Kept(db, Steps(db, models, res).0)
    decreases |models|
  {
    hide ImportModel, Consistent, Failed, AddModel, Fail;
    StaysPut(db);
    if models != [] {
      var (next, res') := Step(db, models[0], res);
      if !Failed(models[0]) && ImportModel(db, models[0]).Ok? { ModelWritten(db, models[0]); }
      StepsKeep(next, models[1..], res');
      GrowsOn(db, next, Steps(next, models[1..], res').0);
    }
  }

  /** An import of any file keeps the catalogue consistent, and removes nothing from it. */
  lemma ImportKeepsCatalogue(db: Db, rows: seq<FileRow>, point: PointId, dryRun: bool)
    requires Consistent(db)
    ensures Kept(db, Import(db, rows, point, dryRun).0)
  {
    PlannedModelsAreSound(rows, point, db.ref);
    StaysPut(db);
    ImportIs(db, rows, point, dryRun);
    hide Plan, Start, Import, Grows, Consistent;
    StepsKeep(db, Plan(rows, point, db.ref), Start(db, rows, point, dryRun));
  }
}
