/** Importing a file twice: a first import of new articles creates every model without errors exactly as
    planned, and a second finds all of it and changes nothing. */
module Reimport {
  import opened Wrappers
  import opened ImportCells
  import opened ImportPlan
  import opened ImportPlanLaws
  import opened ImportPlanKeys
  import opened ImportStore

  // ---- stock of one variant ----

  /** What the last entry for each point says. */
  function Final(stock: seq<(PointId, nat)>): map<PointId, nat> {
    if stock == [] then map[] else map[stock[0].0 := stock[0].1] + Final(stock[1..])
  }

  function Put(all: map<(VariantId, PointId), nat>, v: VariantId, stock: seq<(PointId, nat)>): map<(VariantId, PointId), nat>
    decreases |stock|
  {
    if stock == [] then all else Put(all[(v, stock[0].0) := stock[0].1], v, stock[1..])
  }

  ghost predicate Holds(all: map<(VariantId, PointId), nat>, v: VariantId, stock: seq<(PointId, nat)>) {
    forall p :: p in Final(stock) ==> (v, p) in all && all[(v, p)] == Final(stock)[p]
  }

  lemma {:induction false} PutIs(all: map<(VariantId, PointId), nat>, v: VariantId, stock: seq<(PointId, nat)>)
    ensures Put(all, v, stock).Keys == all.Keys + set p | p in Final(stock) :: (v, p)
    ensures forall w, p :: (w, p) in Put(all, v, stock) ==>
      Put(all, v, stock)[(w, p)] == if w == v && p in Final(stock) then Final(stock)[p] else all[(w, p)]
    decreases |stock|
  {
    if stock != [] {
      PutIs(all[(v, stock[0].0) := stock[0].1], v, stock[1..]);
    }
  }

  lemma PutHolds(all: map<(VariantId, PointId), nat>, v: VariantId, stock: seq<(PointId, nat)>)
    ensures Holds(Put(all, v, stock), v, stock)
    ensures Holds(all, v, stock) ==> Put(all, v, stock) == all
    ensures forall w: nat, other :: w != v && Holds(all, w, other) ==> Holds(Put(all, v, stock), w, other)
  {
    PutIs(all, v, stock);
    if Holds(all, v, stock) {
      assert Put(all, v, stock).Keys == all.Keys;
      forall k | k in all ensures Put(all, v, stock)[k] == all[k] {
        assert k == (k.0, k.1);
      }
    }
  }

  lemma {:induction false} SetAllPuts(db: Db, v: VariantId, stock: seq<(PointId, nat)>)
    requires v < |db.variants| && forall s :: s in stock ==> s.0 in db.points
    ensures SetAll(db, v, stock) == Ok(db.(stock := Put(db.stock, v, stock)))
    decreases |stock|
  {
    if stock != [] {
      assert stock[0] in stock && forall s :: s in stock[1..] ==> s in stock;
      SetAllPuts(db.(stock := db.stock[(v, stock[0].0) := stock[0].1]), v, stock[1..]);
    }
  }

  // ---- what a planned model brings, and where it is stored ----

  ghost predicate DbOk(db: Db) {
    && (forall v :: v in db.variants ==> v.product < |db.products|)
    && (forall k :: k in db.stock ==> k.0 < |db.variants|)
    && forall p :: p in db.ref.points ==> p in db.points
  }

  /** Every row is a variant, or the only row is not. */
  ghost predicate AllVariants(m: Model) {
    forall i :: 0 <= i < |m.rows| ==> m.rows[i].variant.Some?
  }

  /** A model without errors, as planned for this catalogue. */
  ghost predicate Ready(db: Db, m: Model) {
    && m.rows != [] && m.product.modelCode != "" && KnownCategory(db, m.product.categoryId)
    && (|m.rows| > 1 ==> AllVariants(m))
    && (forall i, s :: 0 <= i < |m.rows| && s in m.rows[i].stock ==> s.0 in db.points)
    && (forall i :: 0 <= i < |m.rows| && m.rows[i].variant.None? ==> m.rows[i].stock == [])
    && (forall i, j :: 0 <= i < j < |m.rows| ==> !SameSizeColor(m.rows[i], m.rows[j]) && !SharesSku(m.rows[i], m.rows[j]))
  }

  ghost predicate SkuUnknown(variants: seq<StoredVariant>, r: Row) {
    HasSkuCell(r) ==> forall v :: v in variants ==> v.variant.sku != r.variant.value.sku
  }

  /** The catalogue holds neither the article, nor any SKU, nor an article-less product of the same brand,
      name and category. */
  ghost predicate Unknown(db: Db, m: Model) {
    && (forall p :: p in db.products ==> !SameCode(p, m.product.modelCode) && !SameName(p, m.product))
    && (forall i :: 0 <= i < |m.rows| ==> SkuUnknown(db.variants, m.rows[i]))
  }

  ghost predicate StoredRow(db: Db, p: ProductId, id: VariantId, r: Row) {
    && id < |db.variants| && r.variant.Some? && db.variants[id] == StoredVariant(p, r.variant.value)
    && Holds(db.stock, id, r.stock)
    && (HasSkuCell(r) ==> forall i :: 0 <= i < |db.variants| && db.variants[i].variant.sku == r.variant.value.sku ==> i == id)
  }

  /** The model is product p, the only one with its article, with its variants at base, base + 1, ... */
  ghost predicate StoredAt(db: Db, m: Model, p: ProductId, base: VariantId) {
    && p < |db.products| && db.products[p] == AsCreated(m.product)
    && (forall i :: 0 <= i < |db.products| && SameCode(db.products[i], m.product.modelCode) ==> i == p)
    && (forall k :: 0 <= k < |m.rows| && m.rows[k].variant.Some? ==> StoredRow(db, p, base + k, m.rows[k]))
    && (forall i :: 0 <= i < |db.variants| && db.variants[i].product == p ==> base <= i < base + |m.rows| && m.rows[i - base].variant.Some?)
  }

  ghost predicate IsStored(db: Db, m: Model) {
    exists p: ProductId, base: VariantId :: StoredAt(db, m, p, base)
  }

  // ---- the second import ----

  lemma NotSame(db: Db, m: Model, j: nat, k: nat)
    requires Ready(db, m) && j < |m.rows| && k < |m.rows| && j != k
    ensures !SameSizeColor(m.rows[j], m.rows[k])
  {
    hide Lower, KnownCategory;
    assert !SameSizeColor(m.rows[if j < k then j else k], m.rows[if j < k then k else j]);
  }

  /** Only a row's own variant has its size and colour. */
  lemma OnlyItsVariant(db: Db, m: Model, p: ProductId, base: VariantId, k: nat, i: nat)
    requires Ready(db, m) && StoredAt(db, m, p, base) && k < |m.rows| && m.rows[k].variant.Some?
    requires i < |db.variants| && ExactSizeColor(db.variants[i], p, m.rows[k].variant.value.size, m.rows[k].variant.value.color)
    ensures i == base + k
  {
    var j: nat := i - base;
    assert StoredRow(db, p, base + j, m.rows[j]);
    assert SameSizeColor(m.rows[j], m.rows[k]);
    hide Ready, StoredAt, StoredRow, SameSizeColor;
    if j != k { NotSame(db, m, j, k); }
  }

  lemma FindsVariant(db: Db, m: Model, p: ProductId, base: VariantId, k: nat)
    requires Ready(db, m) && StoredAt(db, m, p, base) && k < |m.rows| && m.rows[k].variant.Some?
    ensures FindVariant(db, p, false, m.rows[k]) == Ok(Some(base + k))
  {
    var v := m.rows[k].variant.value;
    assert StoredRow(db, p, base + k, m.rows[k]);
    assert db.variants[base + k] in db.variants;
    if v.sku == "" {
      hide Lower;
      assert ExactSizeColor(db.variants[base + k], p, v.size, v.color);
      OnlyItsVariant(db, m, p, base, k, Exact(db.variants, p, v.size, v.color).value);
    }
  }

  lemma UpdatesInPlace(db: Db, m: Model, p: ProductId, base: VariantId, k: nat)
    requires Ready(db, m) && StoredAt(db, m, p, base) && k < |m.rows| && m.rows[k].variant.Some?
    ensures base + k < |db.variants| && UpdateVariant(db, base + k, m.rows[k].variant.value) == Ok(db)
  {
    var v := m.rows[k].variant.value;
    assert StoredRow(db, p, base + k, m.rows[k]);
    hide Lower, Ready;
    forall i | 0 <= i < |db.variants| && i != base + k
      ensures !ExactSizeColor(db.variants[i], p, v.size, v.color) && !(v.sku != "" && db.variants[i].variant.sku == v.sku)
    {
      if ExactSizeColor(db.variants[i], p, v.size, v.color) { OnlyItsVariant(db, m, p, base, k, i); }
    }
    assert db.variants[base + k := StoredVariant(p, v)] == db.variants;
  }

  /** Everything a model brings is reported as an update. */
  ghost predicate OnlyUpdates(out: Outcome) {
    !out.created && out.variantsNew == 0 && forall l :: l in out.status ==> out.status[l] == RowUpdated
  }

  lemma RowAgain(db: Db, m: Model, p: ProductId, base: VariantId, k: nat, out: Outcome)
    requires Ready(db, m) && StoredAt(db, m, p, base) && k < |m.rows| && OnlyUpdates(out)
    ensures var r := ImportRow(db, p, m.rows[k], out);
      && r.Ok? && r.value.0 == db && OnlyUpdates(r.value.1) && r.value.1.status.Keys == out.status.Keys + {m.rows[k].line}
      && r.value.1.variantsUpd == out.variantsUpd + if m.rows[k].variant.Some? then 1 else 0
  {
    var r := m.rows[k];
    if r.variant.Some? {
      FindsVariant(db, m, p, base, k);
      UpdatesInPlace(db, m, p, base, k);
      assert StoredRow(db, p, base + k, r);
      SetAllPuts(db, base + k, r.stock);
      PutHolds(db.stock, base + k, r.stock);
      hide FindVariant, UpdateVariant, Ready, StoredAt, StoredRow;
    }
  }

  function CountVariants(rows: seq<Row>): nat {
    if rows == [] then 0 else (if rows[0].variant.Some? then 1 else 0) + CountVariants(rows[1..])
  }

  function LineSet(rows: seq<Row>): set<nat> {
    if rows == [] then {} else {rows[0].line} + LineSet(rows[1..])
  }

  lemma {:induction false} RowsAgain(db: Db, m: Model, p: ProductId, base: VariantId, k: nat, out: Outcome)
    requires Ready(db, m) && StoredAt(db, m, p, base) && k <= |m.rows| && OnlyUpdates(out)
    ensures var r := ImportRows(db, p, m.rows[k..], out);
      && r.Ok? && r.value.0 == db && OnlyUpdates(r.value.1) && r.value.1.status.Keys == out.status.Keys + LineSet(m.rows[k..])
      && r.value.1.variantsUpd == out.variantsUpd + CountVariants(m.rows[k..])
    decreases |m.rows| - k
  {
    hide Ready, StoredAt, ImportRow, OnlyUpdates;
    if k < |m.rows| {
      RowAgain(db, m, p, base, k, out);
      assert m.rows[k..][0] == m.rows[k] && m.rows[k..][1..] == m.rows[k + 1..];
      RowsAgain(db, m, p, base, k + 1, ImportRow(db, p, m.rows[k], out).value.1);
    }
  }

  lemma ProductAgain(db: Db, m: Model, p: ProductId, base: VariantId)
    requires Ready(db, m) && StoredAt(db, m, p, base)
    ensures FindProduct(db, m) == Ok(Some(p)) && WriteProduct(db, m, Some(p)) == Ok(db)
  {
    hide Lower, StoredRow, SameSizeColor, SharesSku;
    var code := m.product.modelCode;
    assert db.products[p] in db.products;
    assert SameCode(db.products[p], code);
    assert ProductByCode(db.products, code) == Some(p);
    assert AsUpdated(db.products[p], m.product) == db.products[p];
    assert db.products[p := db.products[p]] == db.products;
    assert !CodeTaken(db.products, p, code);
  }

  /** A stored model is found, and writing it again changes nothing. */
  lemma ImportAgain(db: Db, m: Model)
    requires Ready(db, m) && IsStored(db, m)
    ensures var r := ImportModel(db, m);
      && r.Ok? && r.value.0 == db && OnlyUpdates(r.value.1) && r.value.1.status.Keys == LineSet(m.rows)
      && r.value.1.variantsUpd == CountVariants(m.rows)
  {
    var p: ProductId, base: VariantId :| StoredAt(db, m, p, base);
    assert p < |db.products|;
    ProductAgain(db, m, p, base);
    assert m.rows[0..] == m.rows;
    RowsAgain(db, m, p, base, 0, Outcome(false, map[], 0, 0));
    hide FindProduct, WriteProduct, ImportRows, Ready, StoredAt;
  }

  // ---- the first import ----

  function NewVariants(p: ProductId, rows: seq<Row>): seq<StoredVariant>
    requires forall r :: r in rows ==> r.variant.Some?
  {
    seq(|rows|, i requires 0 <= i < |rows| => assert rows[i] in rows; StoredVariant(p, rows[i].variant.value))
  }

  function PutRows(all: map<(VariantId, PointId), nat>, base: VariantId, rows: seq<Row>): map<(VariantId, PointId), nat> {
    if rows == [] then all else Put(PutRows(all, base, rows[..|rows| - 1]), base + |rows| - 1, rows[|rows| - 1].stock)
  }

  /** The catalogue with the model's product and its first rows written. */
  function Begun(db: Db, m: Model, rows: seq<Row>): Db
    requires forall r :: r in rows ==> r.variant.Some?
  {
    db.(products := db.products + [AsCreated(m.product)], variants := db.variants + NewVariants(|db.products|, rows),
        stock := PutRows(db.stock, |db.variants|, rows))
  }

  /** The rows of a model that are variants: all of them, or none. */
  function VariantRows(m: Model): (rows: seq<Row>)
    ensures forall r :: r in rows ==> r.variant.Some?
  {
    if forall r :: r in m.rows ==> r.variant.Some? then m.rows else []
  }

  function Added(db: Db, m: Model): Db { Begun(db, m, VariantRows(m)) }

  ghost predicate OnlyCreates(out: Outcome) {
    out.created && out.variantsUpd == 0 && forall l :: l in out.status ==> out.status[l] == RowCreated
  }

  lemma ProductIsNew(db: Db, m: Model)
    requires Ready(db, m) && Unknown(db, m)
    ensures FindProduct(db, m) == Ok(None)
    ensures WriteProduct(db, m, None) == Ok(db.(products := db.products + [AsCreated(m.product)]))
  {
    hide Lower, SameSizeColor, SharesSku;
    forall p | p in db.products ensures !SameCode(p, m.product.modelCode) && !SameName(p, m.product) {
    }
    assert m.rows[0..] == m.rows;
    NoSkuKnown(db, m, 0);
    hide SameName, SameCode, FindBySku;
    assert ProductByCode(db.products, m.product.modelCode).None?;
    var ids := ProductsByName(db.products, m.product);
    assert forall i: nat :: i < |db.products| ==> db.products[i] in db.products;
    NoneIn(ids);
  }

  lemma NoneIn(ids: seq<nat>)
    ensures ids != [] ==> exists i :: i in ids
  {
    if ids != [] { assert ids[0] in ids; }
  }

  lemma {:induction false} NoSkuKnown(db: Db, m: Model, k: nat)
    requires k <= |m.rows| && forall i :: 0 <= i < |m.rows| ==> SkuUnknown(db.variants, m.rows[i])
    ensures FindBySku(db, m.product, m.rows[k..], None) == Ok(None)
    decreases |m.rows| - k
  {
    if k < |m.rows| {
      assert m.rows[k..][0] == m.rows[k] && m.rows[k..][1..] == m.rows[k + 1..];
      assert SkuUnknown(db.variants, m.rows[k]);
      var sku := VariantBySku(db.variants, if HasSkuCell(m.rows[k]) then m.rows[k].variant.value.sku else "");
      assert sku.Some? ==> db.variants[sku.value] in db.variants;
      NoSkuKnown(db, m, k + 1);
      hide SkuUnknown;
    }
  }

  /** While the model is being written no stored variant is this row's yet. */
  lemma RowIsNew(db: Db, m: Model, k: nat)
    requires DbOk(db) && Ready(db, m) && Unknown(db, m) && AllVariants(m) && k < |m.rows|
    requires forall r :: r in m.rows[..k] ==> r.variant.Some?
    ensures var variants, v := Begun(db, m, m.rows[..k]).variants, m.rows[k].variant.value;
      forall i :: 0 <= i < |variants| ==>
        && !ExactSizeColor(variants[i], |db.products|, v.size, v.color)
        && !(v.sku != "" && variants[i].variant.sku == v.sku)
  {
    var variants, v := Begun(db, m, m.rows[..k]).variants, m.rows[k].variant.value;
    hide Lower, PutRows, KnownCategory, SameName, SameCode;
    forall i | 0 <= i < |variants|
      ensures !ExactSizeColor(variants[i], |db.products|, v.size, v.color) && !(v.sku != "" && variants[i].variant.sku == v.sku)
    {
      if i < |db.variants| {
        assert variants[i] == db.variants[i] && db.variants[i] in db.variants;
        assert SkuUnknown(db.variants, m.rows[k]);
      } else {
        var j := i - |db.variants|;
        assert variants[i] == StoredVariant(|db.products|, m.rows[j].variant.value);
        assert !SameSizeColor(m.rows[j], m.rows[k]) && !SharesSku(m.rows[j], m.rows[k]);
      }
    }
  }

  lemma RowIsCreated(db: Db, m: Model, k: nat, out: Outcome)
    requires DbOk(db) && Ready(db, m) && Unknown(db, m) && AllVariants(m) && k < |m.rows| && OnlyCreates(out)
    requires forall r :: r in m.rows[..k] ==> r.variant.Some?
    requires forall r :: r in m.rows[..k + 1] ==> r.variant.Some?
    ensures ImportRow(Begun(db, m, m.rows[..k]), |db.products|, m.rows[k], out)
         == Ok((Begun(db, m, m.rows[..k + 1]), Noted(out, m.rows[k].line, RowCreated, 1, 0)))
  {
    var now, next, r := Begun(db, m, m.rows[..k]), Begun(db, m, m.rows[..k + 1]), m.rows[k];
    var v := r.variant.value;
    RowIsNew(db, m, k);
    assert m.rows[..k + 1][..k] == m.rows[..k];
    var id := |db.variants| + k;
    assert |now.variants| == id && next.variants == now.variants + [StoredVariant(|db.products|, v)];
    var written := now.(variants := next.variants);
    assert next.stock == Put(now.stock, id, r.stock);
    assert next == written.(stock := Put(now.stock, id, r.stock));
    SetAllPuts(written, id, r.stock);
    hide Begun, Put, SetAll, Ready, Unknown, DbOk;
    assert CreateVariant(now, |db.products|, v) == Ok(written);
    var bySku := VariantBySku(now.variants, v.sku);
    assert v.sku != "" ==> bySku.None?;
  }

  lemma NotedCreated(out: Outcome, line: nat)
    requires OnlyCreates(out)
    ensures var out' := Noted(out, line, RowCreated, 1, 0);
      OnlyCreates(out') && out'.status.Keys == out.status.Keys + {line} && out'.variantsNew == out.variantsNew + 1
  {
  }

  lemma {:induction false} RowsAreCreated(db: Db, m: Model, k: nat, out: Outcome)
    requires DbOk(db) && Ready(db, m) && Unknown(db, m) && AllVariants(m) && k <= |m.rows| && OnlyCreates(out)
    requires forall r :: r in m.rows[..k] ==> r.variant.Some?
    ensures var r := ImportRows(Begun(db, m, m.rows[..k]), |db.products|, m.rows[k..], out);
      && r.Ok? && r.value.0 == Added(db, m) && OnlyCreates(r.value.1)
      && r.value.1.status.Keys == out.status.Keys + LineSet(m.rows[k..])
      && r.value.1.variantsNew == out.variantsNew + CountVariants(m.rows[k..])
    decreases |m.rows| - k
  {
    hide Ready, Unknown, DbOk, ImportRow, Begun, OnlyCreates, Noted;
    if k == |m.rows| {
      assert m.rows[..k] == m.rows;
    } else {
      forall r | r in m.rows[..k + 1] ensures r.variant.Some? {
        var i :| 0 <= i < k + 1 && m.rows[i] == r;
      }
      RowIsCreated(db, m, k, out);
      assert m.rows[k..][0] == m.rows[k] && m.rows[k..][1..] == m.rows[k + 1..];
      var out' := Noted(out, m.rows[k].line, RowCreated, 1, 0);
      assert m.rows[k].variant.Some?;
      hide Added, AllVariants;
      NotedCreated(out, m.rows[k].line);
      RowsAreCreated(db, m, k + 1, out');
    }
  }

  lemma NotAllVariants(db: Db, m: Model)
    requires Ready(db, m) && !AllVariants(m)
    ensures |m.rows| == 1 && m.rows[0].variant.None? && m.rows[0].stock == [] && VariantRows(m) == []
  {
    assert m.rows[0] in m.rows;
    hide KnownCategory, SameSizeColor, SharesSku;
  }

  lemma RowsAreWritten(db: Db, m: Model)
    requires DbOk(db) && Ready(db, m) && Unknown(db, m)
    ensures var r := ImportRows(Begun(db, m, []), |db.products|, m.rows, Outcome(true, map[], 0, 0));
      && r.Ok? && r.value.0 == Added(db, m) && OnlyCreates(r.value.1) && r.value.1.status.Keys == LineSet(m.rows)
      && r.value.1.variantsNew == CountVariants(m.rows)
  {
    var out := Outcome(true, map[], 0, 0);
    if AllVariants(m) {
      assert m.rows[..0] == [] && m.rows[0..] == m.rows;
      RowsAreCreated(db, m, 0, out);
      hide Ready, Unknown, DbOk, Begun, Added, ImportRows;
    } else {
      NotAllVariants(db, m);
      hide Ready, Unknown, DbOk, Begun;
      var begun := Begun(db, m, []);
      var out' := Noted(out, m.rows[0].line, RowCreated, 0, 0);
      assert m.rows[1..] == [];
      assert ImportRow(begun, |db.products|, m.rows[0], out) == Ok((begun, out'));
      assert ImportRows(begun, |db.products|, m.rows[1..], out') == Ok((begun, out'));
      assert LineSet(m.rows[1..]) == {} && CountVariants(m.rows[1..]) == 0;
    }
  }

  /** A model the catalogue knows nothing of is written exactly as planned. */
  lemma FirstImport(db: Db, m: Model)
    requires DbOk(db) && Ready(db, m) && Unknown(db, m)
    ensures var r := ImportModel(db, m);
      && r.Ok? && r.value.0 == Added(db, m) && OnlyCreates(r.value.1) && r.value.1.status.Keys == LineSet(m.rows)
      && r.value.1.variantsNew == CountVariants(m.rows)
  {
    ProductIsNew(db, m);
    assert Begun(db, m, []) == db.(products := db.products + [AsCreated(m.product)]) by {
      assert db.variants + NewVariants(|db.products|, []) == db.variants;
    }
    RowsAreWritten(db, m);
    hide FindProduct, WriteProduct, Unknown, DbOk, Begun, ImportRows, Added;
  }

  // ---- what one model's import leaves of another's ----

  lemma {:induction false} PutRowsIs(all: map<(VariantId, PointId), nat>, base: VariantId, rows: seq<Row>)
    ensures forall w: nat, stock :: w < base && Holds(all, w, stock) ==> Holds(PutRows(all, base, rows), w, stock)
    ensures forall k :: 0 <= k < |rows| ==> Holds(PutRows(all, base, rows), base + k, rows[k].stock)
    ensures (forall k :: k in all ==> k.0 < base) ==> forall k :: k in PutRows(all, base, rows) ==> k.0 < base + |rows|
  {
    if rows != [] {
      var init, last := rows[..|rows| - 1], rows[|rows| - 1];
      var before := PutRows(all, base, init);
      PutRowsIs(all, base, init);
      PutHolds(before, base + |rows| - 1, last.stock);
      PutIs(before, base + |rows| - 1, last.stock);
      hide Holds, Put, Final;
      forall k | 0 <= k < |rows| ensures Holds(PutRows(all, base, rows), base + k, rows[k].stock) {
        if k < |rows| - 1 { assert rows[k] == init[k]; }
      }
    }
  }

  lemma AddedIsOk(db: Db, m: Model)
    requires DbOk(db)
    ensures DbOk(Added(db, m)) && Added(db, m).points == db.points && Added(db, m).ref == db.ref
  {
    var rows := VariantRows(m);
    PutRowsIs(db.stock, |db.variants|, rows);
    hide VariantRows, PutRows;
    var db' := Added(db, m);
    forall v | v in db'.variants ensures v.product < |db'.products| {
      var i :| 0 <= i < |db'.variants| && db'.variants[i] == v;
      if i < |db.variants| { assert db.variants[i] in db.variants; }
    }
  }

  /** Two models share neither article nor SKU. */
  ghost predicate Apart(m: Model, n: Model) {
    && Lower(m.product.modelCode) != Lower(n.product.modelCode)
    && forall a, b :: 0 <= a < |m.rows| && 0 <= b < |n.rows| ==> !SharesSku(m.rows[a], n.rows[b])
  }

  /** The variants an import adds, by position. */
  lemma AddedVariants(db: Db, m: Model)
    ensures var db', rows := Added(db, m), VariantRows(m);
      && |db'.variants| == |db.variants| + |rows| && (rows == m.rows || rows == [])
      && (forall i :: 0 <= i < |db.variants| ==> db'.variants[i] == db.variants[i])
      && (forall k :: 0 <= k < |rows| ==>
            rows[k].variant.Some? && db'.variants[|db.variants| + k] == StoredVariant(|db.products|, rows[k].variant.value))
      && db'.products == db.products + [AsCreated(m.product)]
  {
    forall k | 0 <= k < |VariantRows(m)| ensures VariantRows(m)[k].variant.Some? {
      assert VariantRows(m)[k] in VariantRows(m);
    }
    hide PutRows;
  }

  lemma AddedHolds(db: Db, m: Model, k: nat)
    requires AllVariants(m) && k < |m.rows|
    ensures VariantRows(m) == m.rows && Holds(Added(db, m).stock, |db.variants| + k, m.rows[k].stock)
  {
    assert forall r :: r in m.rows ==> r.variant.Some?;
    PutRowsIs(db.stock, |db.variants|, m.rows);
    hide PutRows, Holds;
  }

  lemma AddedSkuIsOnly(db: Db, m: Model, k: nat, i: nat)
    requires Ready(db, m) && AllVariants(m) && k < |m.rows| && SkuUnknown(db.variants, m.rows[k]) && VariantRows(m) == m.rows
    requires HasSkuCell(m.rows[k]) && i < |Added(db, m).variants| && Added(db, m).variants[i].variant.sku == m.rows[k].variant.value.sku
    ensures i == |db.variants| + k
  {
    AddedVariants(db, m);
    hide Added, VariantRows, Ready;
    forall j | 0 <= j < |db.variants| ensures db.variants[j].variant.sku != m.rows[k].variant.value.sku {
      assert db.variants[j] in db.variants;
    }
    if i >= |db.variants| { RowsSharingSku(db, m, i - |db.variants|, k); }
  }

  lemma AddedRowIsStored(db: Db, m: Model, k: nat)
    requires Ready(db, m) && Unknown(db, m) && AllVariants(m) && k < |m.rows|
    ensures StoredRow(Added(db, m), |db.products|, |db.variants| + k, m.rows[k])
  {
    AddedVariants(db, m);
    AddedHolds(db, m, k);
    assert SkuUnknown(db.variants, m.rows[k]);
    hide Added, VariantRows, Holds, Ready, Unknown, SkuUnknown;
    var db' := Added(db, m);
    forall i | HasSkuCell(m.rows[k]) && 0 <= i < |db'.variants| && db'.variants[i].variant.sku == m.rows[k].variant.value.sku
      ensures i == |db.variants| + k
    {
      AddedSkuIsOnly(db, m, k, i);
    }
  }

  lemma RowsSharingSku(db: Db, m: Model, j: nat, k: nat)
    requires Ready(db, m) && j < |m.rows| && k < |m.rows| && SharesSku(m.rows[j], m.rows[k])
    ensures j == k
  {
    hide KnownCategory, SameSizeColor;
    assert j != k ==> !SharesSku(m.rows[if j < k then j else k], m.rows[if j < k then k else j]);
  }

  lemma AddedOwners(db: Db, m: Model)
    requires DbOk(db) && Ready(db, m)
    ensures var db', base := Added(db, m), |db.variants|;
      forall i :: 0 <= i < |db'.variants| && db'.variants[i].product == |db.products| ==>
        base <= i < base + |m.rows| && m.rows[i - base].variant.Some?
  {
    AddedVariants(db, m);
    hide Added, VariantRows, Ready;
    forall i | 0 <= i < |db.variants| ensures db.variants[i].product < |db.products| {
      assert db.variants[i] in db.variants;
    }
  }

  lemma AddedArticle(db: Db, m: Model)
    requires Unknown(db, m)
    ensures forall i :: 0 <= i < |db.products| + 1 && SameCode((db.products + [AsCreated(m.product)])[i], m.product.modelCode) ==> i == |db.products|
  {
    hide SameCode, SkuUnknown;
    forall i | 0 <= i < |db.products| ensures !SameCode(db.products[i], m.product.modelCode) {
      assert db.products[i] in db.products;
    }
  }

  /** Written, a model is stored. */
  lemma AddedIsStored(db: Db, m: Model)
    requires DbOk(db) && Ready(db, m) && Unknown(db, m)
    ensures IsStored(Added(db, m), m)
  {
    var db', p, base := Added(db, m), |db.products|, |db.variants|;
    AddedVariants(db, m);
    AddedOwners(db, m);
    AddedArticle(db, m);
    AddedRowsAreStored(db, m);
    hide DbOk, Unknown, Added, StoredRow, SameCode, VariantRows, Ready, AsCreated;
    assert StoredAt(db', m, p, base);
  }

  lemma AddedRowsAreStored(db: Db, m: Model)
    requires Ready(db, m) && Unknown(db, m)
    ensures forall k :: 0 <= k < |m.rows| && m.rows[k].variant.Some? ==> StoredRow(Added(db, m), |db.products|, |db.variants| + k, m.rows[k])
  {
    hide Unknown, Added, StoredRow, Ready;
    forall k | 0 <= k < |m.rows| && m.rows[k].variant.Some? ensures StoredRow(Added(db, m), |db.products|, |db.variants| + k, m.rows[k]) {
      if AllVariants(m) { AddedRowIsStored(db, m, k); } else { NotAllVariants(db, m); }
    }
  }

  lemma StoredRowStays(db: Db, p: ProductId, id: VariantId, r: Row, n: Model)
    requires StoredRow(db, p, id, r) && forall b :: 0 <= b < |n.rows| ==> !SharesSku(r, n.rows[b])
    ensures StoredRow(Added(db, n), p, id, r)
  {
    AddedVariants(db, n);
    PutRowsIs(db.stock, |db.variants|, VariantRows(n));
    var db' := Added(db, n);
    assert Holds(db'.stock, id, r.stock);
    hide Added, VariantRows, PutRows, Holds;
    forall i | HasSkuCell(r) && 0 <= i < |db'.variants| && db'.variants[i].variant.sku == r.variant.value.sku ensures i == id {
      assert i >= |db.variants| ==> !SharesSku(r, n.rows[i - |db.variants|]);
    }
  }

  lemma OthersArticle(n: Model, m: Model)
    requires Apart(m, n)
    ensures !SameCode(AsCreated(n.product), m.product.modelCode)
  {
    hide SharesSku;
  }

  /** A stored model stays stored while other models are written. */
  lemma StoredStays(db: Db, m: Model, n: Model)
    requires DbOk(db) && IsStored(db, m) && Apart(m, n)
    ensures IsStored(Added(db, n), m)
  {
    var p: ProductId, base: VariantId :| StoredAt(db, m, p, base);
    assert p < |db.products|;
    var db' := Added(db, n);
    AddedVariants(db, n);
    OthersArticle(n, m);
    hide SharesSku, Added, StoredRow, Lower, VariantRows, SameCode, DbOk, AsCreated;
    forall k | 0 <= k < |m.rows| && m.rows[k].variant.Some? ensures StoredRow(db', p, base + k, m.rows[k]) {
      StoredRowStays(db, p, base + k, m.rows[k], n);
    }
    assert StoredAt(db', m, p, base);
  }

  lemma SkuStaysUnknown(db: Db, r: Row, m: Model)
    requires SkuUnknown(db.variants, r) && forall b :: 0 <= b < |m.rows| ==> !SharesSku(r, m.rows[b])
    ensures SkuUnknown(Added(db, m).variants, r)
  {
    AddedVariants(db, m);
    var db' := Added(db, m);
    hide Added, VariantRows;
    forall v | HasSkuCell(r) && v in db'.variants ensures v.variant.sku != r.variant.value.sku {
      var i :| 0 <= i < |db'.variants| && db'.variants[i] == v;
      if i < |db.variants| { assert db.variants[i] in db.variants; } else { assert !SharesSku(r, m.rows[i - |db.variants|]); }
    }
  }

  /** An unknown model stays unknown while other models are written. */
  lemma UnknownStays(db: Db, n: Model, m: Model)
    requires Unknown(db, n) && Apart(n, m) && m.product.modelCode != "" && n.product.modelCode != ""
    ensures Unknown(Added(db, m), n)
  {
    AddedVariants(db, m);
    forall i | 0 <= i < |n.rows| ensures SkuUnknown(Added(db, m).variants, n.rows[i]) {
      SkuStaysUnknown(db, n.rows[i], m);
    }
    hide Added, VariantRows, SkuUnknown, SharesSku, Lower;
  }

  // ---- both runs ----

  /** The models without errors are ready and share nothing. */
  ghost predicate AllReady(db: Db, models: seq<Model>) {
    && (forall i :: 0 <= i < |models| ==> models[i].rows != [] && (!Failed(models[i]) ==> Ready(db, models[i])))
    && forall i, j :: 0 <= i < |models| && 0 <= j < |models| && i != j && !Failed(models[i]) && !Failed(models[j]) ==> Apart(models[i], models[j])
  }

  ghost predicate AllUnknown(db: Db, models: seq<Model>) {
    forall i :: 0 <= i < |models| && !Failed(models[i]) ==> Unknown(db, models[i])
  }

  ghost predicate AllStored(db: Db, models: seq<Model>) {
    forall i :: 0 <= i < |models| && !Failed(models[i]) ==> IsStored(db, models[i])
  }

  function AddedAll(db: Db, models: seq<Model>): Db
    decreases |models|
  {
    if models == [] then db else AddedAll(if Failed(models[0]) then db else Added(db, models[0]), models[1..])
  }

  lemma {:induction false} AddedAllKeeps(db: Db, models: seq<Model>)
    requires DbOk(db)
    ensures DbOk(AddedAll(db, models)) && AddedAll(db, models).points == db.points && AddedAll(db, models).ref == db.ref
    decreases |models|
  {
    hide Failed, Added, DbOk;
    if models != [] {
      if !Failed(models[0]) { AddedIsOk(db, models[0]); }
      AddedAllKeeps(if Failed(models[0]) then db else Added(db, models[0]), models[1..]);
    }
  }

  lemma ReadyStays(db: Db, db': Db, models: seq<Model>)
    requires AllReady(db, models) && models != [] && db'.points == db.points && db'.ref == db.ref
    ensures AllReady(db', models[1..])
  {
    hide Apart, SameSizeColor, SharesSku, Failed;
    forall i | 0 <= i < |models| - 1 && !Failed(models[1..][i]) ensures Ready(db', models[1..][i]) {
      assert models[1..][i] == models[i + 1];
    }
    hide Ready;
  }

  lemma AllStaysUnknown(db: Db, models: seq<Model>)
    requires DbOk(db) && AllReady(db, models) && AllUnknown(db, models) && models != []
    ensures AllUnknown(if Failed(models[0]) then db else Added(db, models[0]), models[1..])
  {
    hide Failed, Added, Unknown, Apart;
    forall i | 0 <= i < |models| - 1 && !Failed(models[1..][i])
      ensures Unknown(if Failed(models[0]) then db else Added(db, models[0]), models[1..][i])
    {
      assert models[1..][i] == models[i + 1];
      if !Failed(models[0]) {
        assert Ready(db, models[0]) && Ready(db, models[i + 1]) && Apart(models[i + 1], models[0]);
        UnknownStays(db, models[i + 1], models[0]);
      }
    }
  }

  /** A model stored before the rest is written is stored after. */
  lemma {:induction false} StoredThroughout(db: Db, m: Model, models: seq<Model>)
    requires DbOk(db) && IsStored(db, m) && forall i :: 0 <= i < |models| && !Failed(models[i]) ==> Apart(m, models[i])
    ensures IsStored(AddedAll(db, models), m)
    decreases |models|
  {
    hide Failed, Added, DbOk, IsStored, Apart;
    if models != [] {
      if !Failed(models[0]) {
        AddedIsOk(db, models[0]);
        StoredStays(db, m, models[0]);
      }
      StoredThroughout(if Failed(models[0]) then db else Added(db, models[0]), m, models[1..]);
    }
  }

  /** Afterwards every model without errors is stored. */
  lemma {:induction false} AllBecomeStored(db: Db, models: seq<Model>)
    requires DbOk(db) && AllReady(db, models) && AllUnknown(db, models)
    ensures AllStored(AddedAll(db, models), models)
    decreases |models|
  {
    hide Failed, Added, DbOk, IsStored, Apart, Ready, Unknown;
    if models != [] {
      var next := if Failed(models[0]) then db else Added(db, models[0]);
      AddedIsOk(db, models[0]);
      ReadyStays(db, next, models);
      AllStaysUnknown(db, models);
      AllBecomeStored(next, models[1..]);
      if !Failed(models[0]) {
        AddedIsStored(db, models[0]);
        StoredThroughout(next, models[0], models[1..]);
      }
      assert forall i :: 1 <= i < |models| ==> models[i] == models[1..][i - 1];
    }
  }
}
