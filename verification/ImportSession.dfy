/** Running an import: the transaction a model is written in, the session that commits it or, in a dry run,
    rolls everything back, and the report filled along the way. */
module ImportSession {
  import opened Wrappers
  import opened ImportCells
  import opened ImportPlan
  import opened ImportPlanLaws
  import opened ImportStore
  import opened ImportRun
  import opened ImportPlanner

  /** What one transaction sees and has written. */
  class Tx {
    var db: Db

    constructor (db: Db)
      ensures this.db == db
    {
      this.db := db;
    }

    method WriteProduct(m: Model, found: Option<ProductId>) returns (r: Result<ProductId, Msg>)
      modifies this
      ensures match ImportStore.WriteProduct(old(db), m, found)
        case Err(e) => r == Err(e)
        case Ok(next) => db == next && r == Ok(if found.Some? then found.value else |old(db).products|)
    {
      var id := |db.products|;
      if found.None? {
        if m.product.modelCode != "" && ProductByCode(db.products, m.product.modelCode).Some? { return Err(DbConflict); }
        if !KnownCategory(db, m.product.categoryId) { return Err(DbNotFound); }
        db := db.(products := db.products + [AsCreated(m.product)]);
        return Ok(id);
      }
      id := found.value;
      if id < |db.products| {
        var next := AsUpdated(db.products[id], m.product);
        if next.modelCode != "" && CodeTaken(db.products, id, next.modelCode) { return Err(DbConflict); }
        if !KnownCategory(db, m.product.categoryId) { return Err(DbNotFound); }
        db := db.(products := db.products[id := next]);
      }
      r := Ok(id);
    }

    method CreateVariant(product: ProductId, v: Variant) returns (r: Result<VariantId, Msg>)
      modifies this
      ensures match ImportStore.CreateVariant(old(db), product, v)
        case Err(e) => r == Err(e)
        case Ok(next) => db == next && r == Ok(|old(db).variants|)
    {
      var s := StoredVariant(product, v);
      if Clashes(db.variants, |db.variants|, s) { return Err(DbConflict); }
      r := Ok(|db.variants|);
      db := db.(variants := db.variants + [s]);
    }

    method UpdateVariant(id: VariantId, v: Variant) returns (r: Result<VariantId, Msg>)
      requires id < |db.variants|
      modifies this
      ensures match ImportStore.UpdateVariant(old(db), id, v)
        case Err(e) => r == Err(e)
        case Ok(next) => db == next && r == Ok(id)
    {
      var was := db.variants[id];
      var s := StoredVariant(was.product, v.(sku := FirstNonEmpty(v.sku, was.variant.sku)));
      if Clashes(db.variants, id, s) { return Err(DbConflict); }
      db := db.(variants := db.variants[id := s]);
      r := Ok(id);
    }

    method SetStocks(variant: VariantId, stock: seq<(PointId, nat)>) returns (e: Option<Msg>)
      modifies this
      ensures match SetAll(old(db), variant, stock)
        case Err(err) => e == Some(err)
        case Ok(next) => e == None && db == next
    {
      assert stock[0..] == stock;
      for i := 0 to |stock|
        invariant SetAll(db, variant, stock[i..]) == SetAll(old(db), variant, stock)
      {
        assert stock[i..][0] == stock[i] && stock[i..][1..] == stock[i + 1..];
        var (point, qty) := stock[i];
        if point !in db.points || variant >= |db.variants| { return Some(DbNotFound); }
        db := db.(stock := db.stock[(variant, point) := qty]);
      }
      e := None;
    }

    method FindProduct(m: Model) returns (r: Result<Option<ProductId>, Failure>)
      requires m.rows != []
      ensures r == ImportStore.FindProduct(db, m)
    {
      hide FindBySku, ProductByCode, ProductsByName;
      if m.product.modelCode != "" {
        var id := ProductByCode(db.products, m.product.modelCode);
        if id.Some? { return Ok(id); }
      }
      var bySku := FindOwner(m);
      if bySku.Err? || bySku.value.Some? { return bySku; }
      var ids := ProductsByName(db.products, m.product);
      if |ids| == 0 { return Ok(None); }
      if |ids| == 1 { return Ok(Some(ids[0])); }
      r := Err(Failure(m.rows[0].line, AmbiguousProduct));
    }

    /** The product that owns the rows' SKUs. */
    method FindOwner(m: Model) returns (r: Result<Option<ProductId>, Failure>)
      ensures r == FindBySku(db, m.product, m.rows, None)
    {
      hide VariantBySku, Lower;
      var found: Option<ProductId> := None;
      assert m.rows[0..] == m.rows;
      for i := 0 to |m.rows|
        invariant FindBySku(db, m.product, m.rows[i..], found) == FindBySku(db, m.product, m.rows, None)
      {
        assert m.rows[i..][0] == m.rows[i] && m.rows[i..][1..] == m.rows[i + 1..];
        var row := m.rows[i];
        if !HasSkuCell(row) { continue; }
        var v := VariantBySku(db.variants, row.variant.value.sku);
        if v.None? { continue; }
        var owner := db.variants[v.value].product;
        var code := if owner < |db.products| then db.products[owner].modelCode else "";
        if m.product.modelCode != "" && code != "" && Lower(code) != Lower(m.product.modelCode) {
          return Err(Failure(row.line, SkuTakenArticle));
        }
        if found.Some? && found.value != owner { return Err(Failure(row.line, SkuOtherProduct)); }
        found := Some(owner);
      }
      r := Ok(found);
    }

    /** One row of a model. */
    method WriteRow(product: ProductId, row: Row, out: Outcome) returns (r: Result<Outcome, Failure>)
      modifies this
      ensures match ImportRow(old(db), product, row, out)
        case Err(f) => r == Err(f)
        case Ok((next, out')) => db == next && r == Ok(out')
    {
      hide ImportStore.CreateVariant, ImportStore.UpdateVariant, SetAll, Noted, VariantBySku, VariantBySizeColor;
      if row.variant.None? {
        return Ok(Noted(out, row.line, if out.created then RowCreated else RowUpdated, 0, 0));
      }
      var v := row.variant.value;
      var ref: Option<VariantId> := None;
      if v.sku != "" {
        ref := VariantBySku(db.variants, v.sku);
        if ref.Some? && db.variants[ref.value].product != product { return Err(Failure(row.line, SkuTaken)); }
      }
      if ref.None? && !out.created {
        VariantIsStored(db.variants, product, v.size, v.color);
        ref := VariantBySizeColor(db.variants, product, v.size, v.color);
      }
      var id: Result<VariantId, Msg>;
      if ref.None? { id := CreateVariant(product, v); } else { id := UpdateVariant(ref.value, v); }
      if id.Err? { return Err(Failure(row.line, id.error)); }
      var e := SetStocks(id.value, row.stock);
      if e.Some? { return Err(Failure(row.line, e.value)); }
      r := Ok(if ref.None? then Noted(out, row.line, RowCreated, 1, 0) else Noted(out, row.line, RowUpdated, 0, 1));
    }

    /** importModel. */
    method ImportModel(m: Model) returns (r: Result<Outcome, Failure>)
      requires m.rows != []
      modifies this
      ensures match ImportStore.ImportModel(old(db), m)
        case Err(f) => r == Err(f)
        case Ok((next, out)) => db == next && r == Ok(out)
    {
      hide ImportStore.FindProduct, ImportStore.WriteProduct, ImportRow;
      var found := FindProduct(m);
      if found.Err? { return Err(found.error); }
      var product := WriteProduct(m, found.value);
      if product.Err? { return Err(Failure(m.rows[0].line, product.error)); }
      var out := Outcome(found.value.None?, map[], 0, 0);
      assert m.rows[0..] == m.rows;
      for i := 0 to |m.rows|
        invariant ImportRows(db, product.value, m.rows[i..], out) == ImportStore.ImportModel(old(db), m)
      {
        assert m.rows[i..][0] == m.rows[i] && m.rows[i..][1..] == m.rows[i + 1..];
        var row := WriteRow(product.value, m.rows[i], out);
        if row.Err? { return Err(row.error); }
        out := row.value;
      }
      r := Ok(out);
    }
  }

  lemma VariantIsStored(variants: seq<StoredVariant>, product: ProductId, size: string, color: string)
    ensures var v := VariantBySizeColor(variants, product, size, color); v.Some? ==> v.value < |variants|
  {
    hide Exact, Like;
  }

  /** The committed catalogue. */
  class Store {
    var db: Db

    constructor (db: Db)
      ensures this.db == db
    {
      this.db := db;
    }
  }

  /** A real run commits each model by itself; a dry run holds one transaction, with a savepoint per model,
      that is always rolled back. */
  class Session {
    const store: Store
    const dry: Tx?

    ghost function View(): (db: Db)
      reads this, store, dry
      ensures dry == null ==> db == store.db
    {
      if dry == null then store.db else dry.db
    }

    constructor (store: Store, dryRun: bool)
      ensures this.store == store && (dry == null <==> !dryRun) && (dryRun ==> fresh(dry))
      ensures View() == store.db
    {
      this.store := store;
      if dryRun {
        var tx := new Tx(store.db);
        dry := tx;
      } else {
        dry := null;
      }
    }

    method Model(m: Model) returns (r: Result<Outcome, Failure>)
      requires m.rows != []
      modifies store, dry
      ensures match ImportStore.ImportModel(old(View()), m)
        case Err(f) => r == Err(f) && View() == old(View())
        case Ok((next, out)) => r == Ok(out) && View() == next
      ensures dry != null ==> store.db == old(store.db)
    {
      hide ImportStore.ImportModel;
      if dry == null {
        var tx := new Tx(store.db);
        r := tx.ImportModel(m);
        if r.Ok? { store.db := tx.db; }
      } else {
        var savepoint := dry.db;
        r := dry.ImportModel(m);
        if r.Err? { dry.db := savepoint; }
      }
    }
  }

  /** ImportResult, filled model by model. */
  class ImportResult {
    const dryRun: bool
    const point: Option<PointId>
    var summary: Summary
    var rows: seq<RowResult>
    var imported: nat
    var errors: seq<nat>

    function Value(): Report
      reads this
    {
      Report(dryRun, point, summary, rows, imported, errors)
    }

    constructor (dryRun: bool, point: Option<PointId>)
      ensures Value() == Report(dryRun, point, Summary(0, 0, 0, 0, 0, 0, 0, 0, 0), [], 0, [])
    {
      this.dryRun, this.point := dryRun, point;
      summary, rows, imported, errors := Summary(0, 0, 0, 0, 0, 0, 0, 0, 0), [], 0, [];
    }

    method AddModel(m: Model, out: Option<Outcome>)
      modifies this
      ensures Value() == ImportRun.AddModel(old(Value()), m, out)
    {
      hide ReportRow, FirstErrLine;
      if out.Some? {
        if out.value.created {
          summary := summary.(productsCreated := summary.productsCreated + 1);
        } else {
          summary := summary.(productsUpdated := summary.productsUpdated + 1);
        }
        imported := imported + 1;
        summary := summary.(variantsCreated := summary.variantsCreated + out.value.variantsNew,
                            variantsUpdated := summary.variantsUpdated + out.value.variantsUpd);
      }
      assert Value() == AddOutcome(old(Value()), out);
      assert m.rows[0..] == m.rows;
      for i := 0 to |m.rows|
        invariant AddRows(Value(), m, m.rows[i..], out) == ImportRun.AddModel(old(Value()), m, out)
      {
        assert m.rows[i..][0] == m.rows[i] && m.rows[i..][1..] == m.rows[i + 1..];
        var r := ReportRow(m, m.rows[i], out);
        AddRow(r);
      }
    }

    method AddRow(r: RowResult)
      modifies this
      ensures Value() == AddRowResult(old(Value()), r)
    {
      summary := summary.(rows := summary.rows + 1);
      match r.status {
        case Unset =>
        case Created => summary := summary.(created := summary.created + 1);
        case Updated => summary := summary.(updated := summary.updated + 1);
        case Skipped =>
          summary := summary.(skipped := summary.skipped + 1);
          errors := errors + [r.line];
        case Error =>
          summary := summary.(errors := summary.errors + 1);
          errors := errors + [r.line];
      }
      rows := rows + [r];
    }
  }

  /** One model of the run: planned with errors, refused by the catalogue, or written. */
  method ImportOne(session: Session, m: Model, res: ImportResult)
    requires m.rows != []
    modifies session.store, session.dry, res
    ensures (session.View(), res.Value()) == Step(old(session.View()), m, old(res.Value()))
    ensures session.dry != null ==> session.store.db == old(session.store.db)
  {
    hide ImportStore.ImportModel, ImportRun.AddModel, Failed, Fail;
    if Failed(m) {
      res.AddModel(m, None);
      return;
    }
    var out := session.Model(m);
    match out {
      case Err(f) => res.AddModel(Fail(m, f), None);
      case Ok(o) => res.AddModel(m, Some(o));
    }
  }

  /** ImportProducts. None: the requested point of sale is refused. */
  method ImportProducts(store: Store, rows: seq<FileRow>, requested: string, dryRun: bool) returns (r: Option<Report>)
    modifies store
    ensures match ResolveTargetPoint(old(store.db).ref, requested)
      case None => r == None && store.db == old(store.db)
      case Some(point) => r.Some? && (store.db, r.value) == Import(old(store.db), rows, point, dryRun)
  {
    hide *;
    ghost var db := store.db;
    var point := ResolveTargetPoint(store.db.ref, requested);
    if point.None? { return None; }
    var planner := new Planner(store.db.ref, point.value);
    var models := planner.Plan(rows);
    var res := new ImportResult(dryRun, if planner.usedPoint then Some(point.value) else None);
    PlannedModelsAreSound(rows, point.value, db.ref);
    StartIs(db, rows, point.value, dryRun);
    ImportIs(db, rows, point.value, dryRun);
    var session := new Session(store, dryRun);
    assert models[0..] == models;
    for i := 0 to |models|
      invariant Steps(session.View(), models[i..], res.Value()) == Steps(db, models, Start(db, rows, point.value, dryRun))
      invariant dryRun ==> store.db == db
    {
      NextModel(session.View(), models, i, res.Value());
      ImportOne(session, models[i], res);
    }
    NoModelsLeft(session.View(), models, res.Value());
    r := Some(Finished(res.Value()));
  }

  lemma NextModel(db: Db, models: seq<Model>, i: nat, res: Report)
    requires i < |models| && forall m :: m in models ==> m.rows != []
    ensures models[i] in models
    ensures Steps(db, models[i..], res) == var (next, res') := Step(db, models[i], res); Steps(next, models[i + 1..], res')
  {
    hide Step;
    assert models[i..][0] == models[i] && models[i..][1..] == models[i + 1..];
  }

  lemma NoModelsLeft(db: Db, models: seq<Model>, res: Report)
    requires forall m :: m in models ==> m.rows != []
    ensures Steps(db, models[|models|..], res) == (db, res)
  {
  }
}
