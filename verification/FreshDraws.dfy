/** Whether a save gets past the variants, and what is stored for them, does not depend on the identifiers the
    database draws, nor on the prices the rows carry. */
module FreshDraws {
  import opened Wrappers
  import opened ProductStore

  /** The same rows, but for their prices. */
  ghost predicate SameButPrice(r: VariantRow, r': VariantRow) {
    r'.key == r.key && r'.id == r.id && r'.size == r.size && r'.color == r.color
  }

  ghost predicate SameButPrices(rows: seq<VariantRow>, rows': seq<VariantRow>) {
    |rows| == |rows'| && forall i :: 0 <= i < |rows| ==> SameButPrice(rows[i], rows'[i])
  }

  /** One attempt: the database as far as it got, the product, and the ids drawn for new variants. */
  datatype Draft = Draft(db: Db, product: ProductId, ids: seq<VariantId>)

  ghost predicate SameShape(a: Draft, v: VariantId, b: Draft, w: VariantId)
    requires v in a.db.variants && w in b.db.variants
  {
    var x, y := a.db.variants[v], b.db.variants[w];
    (x.product == a.product <==> y.product == b.product) && x.size == y.size && x.color == y.color
  }

  /** Every variant of a is in b, with fresh ids renamed position by position. */
  ghost predicate Renamed(a: Draft, b: Draft)
    requires |a.ids| == |b.ids|
  {
    && (forall v :: v in a.db.variants && v !in a.ids ==> v !in b.ids && v in b.db.variants && SameShape(a, v, b, v))
    && (forall i :: 0 <= i < |a.ids| && a.ids[i] in a.db.variants ==> b.ids[i] in b.db.variants && SameShape(a, a.ids[i], b, b.ids[i]))
  }

  /** Two attempts that differ in what they drew. */
  ghost predicate Twins(a: Draft, b: Draft, existing: set<VariantId>) {
    |a.ids| == |b.ids| && Fresh(a.ids, existing) && Fresh(b.ids, existing) && Renamed(a, b) && Renamed(b, a)
  }

  lemma ClashesRename(a: Draft, b: Draft, row: VariantRow, existing: set<VariantId>, k: nat)
    requires Twins(a, b, existing) && k < |a.ids|
    requires Clashes(a.db, RowId(row, existing, a.ids[k]), a.product, row.size, row.color)
    ensures Clashes(b.db, RowId(row, existing, b.ids[k]), b.product, row.size, row.color)
  {
    var v :| v in a.db.variants && v != RowId(row, existing, a.ids[k]) && a.db.variants[v].product == a.product
             && a.db.variants[v].size == row.size && a.db.variants[v].color == row.color;
    var w := OtherName(a, b, row, existing, k, v);
    hide Twins, RowId;
    assert b.db.variants[w].product == b.product && b.db.variants[w].size == row.size && b.db.variants[w].color == row.color;
  }

  /** Where b keeps what a keeps as another variant than the row's. */
  lemma OtherName(a: Draft, b: Draft, row: VariantRow, existing: set<VariantId>, k: nat, v: VariantId) returns (w: VariantId)
    requires Twins(a, b, existing) && k < |a.ids| && v in a.db.variants && v != RowId(row, existing, a.ids[k])
    ensures w in b.db.variants && w != RowId(row, existing, b.ids[k]) && SameShape(a, v, b, w)
  {
    hide SameShape;
    if v in a.ids {
      var i :| 0 <= i < |a.ids| && a.ids[i] == v;
      w := b.ids[i];
      hide Renamed;
      AnotherDrawn(a.ids, b.ids, row, existing, k, i);
    } else {
      w := v;
      assert w in b.db.variants && w !in b.ids && SameShape(a, v, b, w);
      hide Renamed, Fresh;
      assert b.ids[k] in b.ids;
    }
  }

  lemma AnotherDrawn(ids: seq<VariantId>, ids': seq<VariantId>, row: VariantRow, existing: set<VariantId>, k: nat, i: nat)
    requires |ids| == |ids'| && Fresh(ids, existing) && Fresh(ids', existing) && k < |ids| && i < |ids|
    requires ids[i] != RowId(row, existing, ids[k])
    ensures ids'[i] != RowId(row, existing, ids'[k])
  {
    if !(row.id != "" && row.id in existing) {
      assert i != k;
      assert ids'[if i < k then i else k] != ids'[if i < k then k else i];
    }
  }

  /** The draft after one row. */
  function Written(a: Draft, row: VariantRow, existing: set<VariantId>, k: nat): Result<Draft, SaveError>
    requires k < |a.ids|
  {
    match WriteRow(a.db, a.product, row, existing, a.ids[k])
    case Err(e) => Err(e)
    case Ok(db) => Ok(a.(db := db))
  }

  lemma WrittenAgrees(a: Draft, b: Draft, row: VariantRow, row': VariantRow, existing: set<VariantId>, k: nat)
    requires Twins(a, b, existing) && k < |a.ids| && SameButPrice(row, row')
    ensures Written(a, row, existing, k).Ok? <==> Written(b, row', existing, k).Ok?
  {
    if Clashes(a.db, RowId(row, existing, a.ids[k]), a.product, row.size, row.color) { ClashesRename(a, b, row, existing, k); }
    if Clashes(b.db, RowId(row, existing, b.ids[k]), b.product, row.size, row.color) { ClashesRename(b, a, row, existing, k); }
    hide Clashes, Twins;
  }

  predicate UpdatesStored(a: Draft, row: VariantRow, existing: set<VariantId>) {
    row.id != "" && row.id in existing && row.id in a.db.variants
  }

  /** What a row leaves in the table. */
  lemma WrittenIs(a: Draft, row: VariantRow, existing: set<VariantId>, k: nat)
    requires k < |a.ids| && Written(a, row, existing, k).Ok?
    ensures var id, a' := RowId(row, existing, a.ids[k]), Written(a, row, existing, k).value;
      && id in a'.db.variants && a' == a.(db := a.db.(variants := a.db.variants[id := a'.db.variants[id]]))
      && var w := a'.db.variants[id];
      && w.size == row.size && w.color == row.color
      && w.product == if UpdatesStored(a, row, existing) then a.db.variants[row.id].product else a.product
  {
    hide Clashes;
  }

  lemma UpdateRenames(a: Draft, b: Draft, existing: set<VariantId>, k: nat, id: VariantId, id': VariantId, w: Variant, w': Variant)
    requires Twins(a, b, existing) && k < |a.ids|
    requires (id == id' && id in existing) || (id == a.ids[k] && id' == b.ids[k])
    requires (w.product == a.product <==> w'.product == b.product) && w.size == w'.size && w.color == w'.color
    ensures Renamed(a.(db := a.db.(variants := a.db.variants[id := w])), b.(db := b.db.(variants := b.db.variants[id' := w'])))
  {
    var a', b' := a.(db := a.db.(variants := a.db.variants[id := w])), b.(db := b.db.(variants := b.db.variants[id' := w']));
    assert SameShape(a', id, b', id');
    forall v | v in a'.db.variants && v !in a'.ids ensures v !in b'.ids && v in b'.db.variants && SameShape(a', v, b', v) {
      if v != id { assert v in a.db.variants && v != id'; ShapeKept(a, b, id, id', w, w', v, v); }
    }
    forall i | 0 <= i < |a.ids| && a.ids[i] in a'.db.variants
      ensures b.ids[i] in b'.db.variants && SameShape(a', a.ids[i], b', b.ids[i])
    {
      if a.ids[i] != id { ShapeKept(a, b, id, id', w, w', a.ids[i], b.ids[i]); }
    }
  }

  lemma ShapeKept(a: Draft, b: Draft, id: VariantId, id': VariantId, w: Variant, w': Variant, v: VariantId, v': VariantId)
    requires v in a.db.variants && v' in b.db.variants && SameShape(a, v, b, v') && v != id && v' != id'
    ensures SameShape(a.(db := a.db.(variants := a.db.variants[id := w])), v, b.(db := b.db.(variants := b.db.variants[id' := w'])), v')
  {
  }

  lemma TwinsFlip(a: Draft, b: Draft, existing: set<VariantId>)
    requires Twins(a, b, existing)
    ensures Twins(b, a, existing)
  {
  }

  lemma WrittenRenames(a: Draft, b: Draft, row: VariantRow, row': VariantRow, existing: set<VariantId>, k: nat)
    requires Twins(a, b, existing) && k < |a.ids| && SameButPrice(row, row')
    requires Written(a, row, existing, k).Ok? && Written(b, row', existing, k).Ok?
    ensures Renamed(Written(a, row, existing, k).value, Written(b, row', existing, k).value)
  {
    WrittenIs(a, row, existing, k);
    WrittenIs(b, row', existing, k);
    var id, id' := RowId(row, existing, a.ids[k]), RowId(row', existing, b.ids[k]);
    var a', b' := Written(a, row, existing, k).value, Written(b, row', existing, k).value;
    if row.id != "" && row.id in existing { StoredAlike(a, b, existing, row.id); }
    hide Written, Twins;
    UpdateRenames(a, b, existing, k, id, id', a'.db.variants[id], b'.db.variants[id']);
  }

  lemma StoredAlike(a: Draft, b: Draft, existing: set<VariantId>, v: VariantId)
    requires Twins(a, b, existing) && v in existing
    ensures v in a.db.variants <==> v in b.db.variants
    ensures v in a.db.variants ==> SameShape(a, v, b, v)
  {
  }

  lemma {:induction false} WriteRowsRename(a: Draft, b: Draft, rows: seq<VariantRow>, rows': seq<VariantRow>, existing: set<VariantId>, k: nat)
    requires Twins(a, b, existing) && |rows| == |a.ids| - k && SameButPrices(rows, rows')
    ensures WriteRows(a.db, a.product, rows, existing, a.ids[k..]).Ok? <==> WriteRows(b.db, b.product, rows', existing, b.ids[k..]).Ok?
    decreases |rows|
  {
    hide Renamed, Fresh, WriteRow;
    if rows != [] {
      assert SameButPrice(rows[0], rows'[0]);
      assert SameButPrices(rows[1..], rows'[1..]) by {
        assert forall i :: 0 <= i < |rows| - 1 ==> rows[1..][i] == rows[i + 1] && rows'[1..][i] == rows'[i + 1];
      }
      WrittenAgrees(a, b, rows[0], rows'[0], existing, k);
      assert a.ids[k..][1..] == a.ids[k + 1..] && b.ids[k..][1..] == b.ids[k + 1..];
      var r, r' := Written(a, rows[0], existing, k), Written(b, rows'[0], existing, k);
      if r.Ok? {
        WrittenRenames(a, b, rows[0], rows'[0], existing, k);
        TwinsFlip(a, b, existing);
        WrittenRenames(b, a, rows'[0], rows[0], existing, k);
        assert r.value.ids == a.ids && r'.value.ids == b.ids && r.value.product == a.product && r'.value.product == b.product;
        hide SameButPrices, SameButPrice;
        WriteRowsRename(r.value, r'.value, rows[1..], rows'[1..], existing, k + 1);
      }
    }
  }

  // ---- a whole save ----

  /** A second attempt at the same product, on the same rows but for their prices. */
  ghost predicate SameAttempt(db: Db, input: SaveInput, input': SaveInput, new_: NewIds, new': NewIds) {
    && |new_.variants| == |new'.variants| == |input.variants|
    && input'.productId == input.productId && input'.product == input.product && SameButPrices(input.variants, input'.variants)
    && DbOk(db) && Drawn(db, new_) && Drawn(db, new')
  }

  lemma ExistingSame(db: Db, input: SaveInput, input': SaveInput, new_: NewIds, new': NewIds)
    requires SameAttempt(db, input, input', new_, new')
    ensures Existing(db, Target(input, new_)) == Existing(db, Target(input', new'))
    ensures Gone(db, input, new_) == Gone(db, input', new')
  {
    var existing := Existing(db, Target(input, new_));
    assert existing == Existing(db, Target(input', new')) by {
      assert forall v :: v in db.variants ==> db.variants[v].product != new_.product && db.variants[v].product != new'.product;
    }
    KeptSame(input.variants, input'.variants, existing);
  }

  lemma KeptSame(rows: seq<VariantRow>, rows': seq<VariantRow>, existing: set<VariantId>)
    requires SameButPrices(rows, rows')
    ensures Kept(rows, existing) == Kept(rows', existing)
  {
    forall v ensures v in Kept(rows, existing) <==> v in Kept(rows', existing) {
      if r :| r in rows && r.id != "" && r.id in existing && r.id == v {
        var i :| 0 <= i < |rows| && rows[i] == r;
        assert SameButPrice(rows[i], rows'[i]) && rows'[i] in rows';
      }
      if r :| r in rows' && r.id != "" && r.id in existing && r.id == v {
        var i :| 0 <= i < |rows'| && rows'[i] == r;
        assert SameButPrice(rows[i], rows'[i]) && rows[i] in rows;
      }
    }
  }

  lemma TwinsAtFirst(db: Db, a: Db, b: Db, product: ProductId, product': ProductId, existing: set<VariantId>,
                     ids: seq<VariantId>, ids': seq<VariantId>)
    requires |ids| == |ids'| && a.variants == b.variants && a.variants.Keys <= db.variants.Keys && existing <= db.variants.Keys
    requires forall i :: 0 <= i < |ids| ==> ids[i] !in db.variants && ids'[i] !in db.variants
    requires forall i, j :: 0 <= i < j < |ids| ==> ids[i] != ids[j] && ids'[i] != ids'[j]
    requires product == product' || forall v :: v in a.variants ==> a.variants[v].product != product && a.variants[v].product != product'
    ensures Twins(Draft(a, product, ids), Draft(b, product', ids'), existing)
  {
  }

  /** Whether the variants can be written depends neither on the ids drawn nor on the prices. */
  lemma SyncIgnoresDraws(db: Db, input: SaveInput, input': SaveInput, new_: NewIds, new': NewIds)
    requires SameAttempt(db, input, input', new_, new') && Synced(db, input, new_).Ok?
    ensures Synced(db, input', new').Ok?
  {
    var (db1, product) := UpsertProduct(db, input, new_.product).value;
    var (db1', product') := UpsertProduct(db, input', new'.product).value;
    var existing := Existing(db, product);
    assert Existing(db1, product) == existing && Existing(db1', product') == Existing(db, product');
    ExistingSame(db, input, input', new_, new');
    KeptSame(input.variants, input'.variants, existing);
    var gone := existing - Kept(input.variants, existing);
    var a, b := DeleteVariants(db1, gone), DeleteVariants(db1', gone);
    TwinsAtFirst(db, a, b, product, product', existing, new_.variants, new'.variants);
    assert new_.variants[0..] == new_.variants && new'.variants[0..] == new'.variants;
    WriteRowsRename(Draft(a, product, new_.variants), Draft(b, product', new'.variants), input.variants, input'.variants, existing, 0);
  }

  // ---- stock ----

  /** Which variants the rows stand for may differ between two attempts only in what was not stored yet; rows
      that share a variant in one share one in the other. */
  ghost predicate SameStored(stock: map<Cell, int>, ids: map<Key, VariantId>, ids': map<Key, VariantId>) {
    && ids.Keys == ids'.Keys
    && (forall k, p :: k in ids ==> Stored(stock, (ids[k], p)) == Stored(stock, (ids'[k], p)))
    && (forall k, l :: k in ids && l in ids ==> (ids[k] == ids[l] <==> ids'[k] == ids'[l]))
  }

  ghost predicate Unstored(stock: map<Cell, int>, ids: seq<VariantId>) {
    forall i, p :: 0 <= i < |ids| ==> (ids[i], p) !in stock
  }

  lemma SharedAlike(rows: seq<VariantRow>, existing: set<VariantId>, ids: seq<VariantId>, ids': seq<VariantId>, i: nat, j: nat)
    requires |ids| == |ids'| == |rows| && Fresh(ids, existing) && Fresh(ids', existing) && i < |rows| && j < |rows|
    ensures RowId(rows[i], existing, ids[i]) == RowId(rows[j], existing, ids[j]) <==>
      RowId(rows[i], existing, ids'[i]) == RowId(rows[j], existing, ids'[j])
  {
  }

  lemma FreshIdsStoreTheSame(stock: map<Cell, int>, rows: seq<VariantRow>, existing: set<VariantId>,
                             ids: seq<VariantId>, ids': seq<VariantId>)
    requires |ids| == |ids'| == |rows| && Unstored(stock, ids) && Unstored(stock, ids')
    requires Fresh(ids, existing) && Fresh(ids', existing)
    ensures SameStored(stock, IdByKey(rows, existing, ids), IdByKey(rows, existing, ids'))
  {
    var m, m' := IdByKey(rows, existing, ids), IdByKey(rows, existing, ids');
    forall i, p | 0 <= i < |rows| ensures Stored(stock, (RowId(rows[i], existing, ids[i]), p)) == Stored(stock, (RowId(rows[i], existing, ids'[i]), p)) {
    }
    hide IdByKey, RowId, Unstored, Stored, Fresh;
    forall k | k in m' ensures k in m { var i := KeyRow(rows, existing, ids', ids, k); }
    forall k | k in m ensures k in m' && forall p :: Stored(stock, (m[k], p)) == Stored(stock, (m'[k], p)) {
      var i := KeyRow(rows, existing, ids, ids', k);
    }
    forall k, l | k in m && l in m ensures m[k] == m[l] <==> m'[k] == m'[l] {
      var i := KeyRow(rows, existing, ids, ids', k);
      var j := KeyRow(rows, existing, ids, ids', l);
      SharedAlike(rows, existing, ids, ids', i, j);
    }
  }

  lemma {:induction false} IdByKeyIgnoresPrices(rows: seq<VariantRow>, rows': seq<VariantRow>, existing: set<VariantId>, ids: seq<VariantId>)
    requires |ids| == |rows| && SameButPrices(rows, rows')
    ensures IdByKey(rows, existing, ids) == IdByKey(rows', existing, ids)
  {
    if rows != [] {
      assert SameButPrice(rows[0], rows'[0]);
      assert forall i :: 0 <= i < |rows| - 1 ==> rows[1..][i] == rows[i + 1] && rows'[1..][i] == rows'[i + 1];
      IdByKeyIgnoresPrices(rows[1..], rows'[1..], existing, ids[1..]);
    }
  }

  /** Both attempts find the same stock where the form's rows stand. */
  lemma RowIdsStoreTheSame(db: Db, input: SaveInput, input': SaveInput, new_: NewIds, new': NewIds)
    requires SameAttempt(db, input, input', new_, new')
    ensures SameStored(db.stock, RowIds(db, input, new_), RowIds(db, input', new'))
  {
    ExistingSame(db, input, input', new_, new');
    var existing := Existing(db, Target(input, new_));
    IdByKeyIgnoresPrices(input.variants, input'.variants, existing, new'.variants);
    NewIdsAreUnstored(db, new_);
    NewIdsAreUnstored(db, new');
    assert Fresh(new_.variants, existing) && Fresh(new'.variants, existing);
    hide Existing, IdByKey, SameStored, Unstored, SameButPrices, DbOk, Drawn, Fresh;
    FreshIdsStoreTheSame(db.stock, input.variants, existing, new_.variants, new'.variants);
  }

  lemma NewIdsAreUnstored(db: Db, new_: NewIds)
    requires DbOk(db) && Drawn(db, new_)
    ensures Unstored(db.stock, new_.variants)
  {
  }
}
