/** The two stores that write stock, as objects over one database: productStore.Save, statement by
    statement in a transaction that rolls back on any error, and adminStockStore.Set. */
module StockStores {
  import opened Wrappers
  import opened ProductStore
  import opened StockRuns

  /** A result whose conflicts follow the ones already collected. */
  ghost function Following(conflicts: seq<StockConflict>, r: Result<(Db, seq<StockConflict>), SaveError>)
    : Result<(Db, seq<StockConflict>), SaveError>
  {
    match r
    case Err(e) => Err(e)
    case Ok((db, more)) => Ok((db, conflicts + more))
  }

  lemma NextChange(db: Db, ids: map<Key, VariantId>, changes: seq<CellChange>, i: nat, conflicts: seq<StockConflict>)
    requires i < |changes|
    ensures var c, rest := changes[i], changes[i + 1..];
      Following(conflicts, ApplyChanges(db, ids, changes[i..])) ==
        if c.rowKey !in ids then Following(conflicts, ApplyChanges(db, ids, rest))
        else
          var cell := (ids[c.rowKey], c.pointId);
          match WriteCell(db, cell, c.qty, c.orig)
          case Err(e) => Err(e)
          case Ok((next, applied)) =>
            Following(if applied then conflicts else conflicts + [ConflictAt(db.stock, c, cell)], ApplyChanges(next, ids, rest))
  {
    assert changes[i..][0] == changes[i] && changes[i..][1..] == changes[i + 1..];
    var c := changes[i];
    if c.rowKey in ids && WriteCell(db, (ids[c.rowKey], c.pointId), c.qty, c.orig).Ok? {
      var (next, applied) := WriteCell(db, (ids[c.rowKey], c.pointId), c.qty, c.orig).value;
      var r := ApplyChanges(next, ids, changes[i + 1..]);
      if r.Ok? && !applied {
        var conflict := ConflictAt(db.stock, c, (ids[c.rowKey], c.pointId));
        assert conflicts + ([conflict] + r.value.1) == conflicts + [conflict] + r.value.1;
      }
    }
  }

  lemma FollowingNothing(r: Result<(Db, seq<StockConflict>), SaveError>)
    ensures Following([], r) == r
  {
    if r.Ok? { assert [] + r.value.1 == r.value.1; }
  }

  lemma NextRow(m: map<Key, VariantId>, rows: seq<VariantRow>, existing: set<VariantId>, ids: seq<VariantId>, i: nat)
    requires |ids| == |rows| && i < |rows|
    ensures m + IdByKey(rows[i..], existing, ids[i..])
         == m[rows[i].key := RowId(rows[i], existing, ids[i])] + IdByKey(rows[i + 1..], existing, ids[i + 1..])
  {
    assert rows[i..][0] == rows[i] && rows[i..][1..] == rows[i + 1..];
    assert ids[i..][0] == ids[i] && ids[i..][1..] == ids[i + 1..];
  }

  lemma NextWrite(db: Db, product: ProductId, rows: seq<VariantRow>, existing: set<VariantId>, ids: seq<VariantId>, i: nat)
    requires |ids| == |rows| && i < |rows|
    ensures WriteRows(db, product, rows[i..], existing, ids[i..]) ==
      match WriteRow(db, product, rows[i], existing, ids[i])
      case Err(e) => Err(e)
      case Ok(next) => WriteRows(next, product, rows[i + 1..], existing, ids[i + 1..])
  {
    assert rows[i..][0] == rows[i] && rows[i..][1..] == rows[i + 1..];
    assert ids[i..][0] == ids[i] && ids[i..][1..] == ids[i + 1..];
  }

  class Stores {
    var db: Db

    constructor (db: Db)
      ensures this.db == db
    {
      this.db := db;
    }

    /** productStore.Save. Any error leaves the database as it was. */
    method Save(input: SaveInput, new_: NewIds) returns (r: Result<ProductId, SaveError>)
      requires |new_.variants| == |input.variants|
      modifies this
      ensures match ProductStore.Save(old(db), input, new_)
        case Ok((db', product)) => db == db' && r == Ok(product)
        case Err(e) => db == old(db) && r == Err(e)
    {
      var before := db;
      r := SaveTx(input, new_);
      if r.Err? {
        db := before;
      }
    }

    method SaveTx(input: SaveInput, new_: NewIds) returns (r: Result<ProductId, SaveError>)
      requires |new_.variants| == |input.variants|
      modifies this
      ensures match ProductStore.Save(old(db), input, new_)
        case Ok((db', product)) => db == db' && r == Ok(product)
        case Err(e) => r == Err(e)
    {
      if !IsValid(input) {
        return Err(InvalidInput);
      }
      var upserted := UpsertProduct(db, input, new_.product);
      if upserted.Err? {
        return Err(upserted.error);
      }
      db := upserted.value.0;
      var product := upserted.value.1;
      var ids := SyncVariantsTx(product, input.variants, new_.variants);
      if ids.Err? {
        return Err(ids.error);
      }
      var applied := ApplyStockChangesTx(ids.value, input.stock);
      if applied.Err? {
        return Err(applied.error);
      }
      db := ReplaceImages(db, product, input.images);
      r := Ok(product);
    }

    /** Deletes the variants the form dropped, then updates or inserts row by row. */
    method SyncVariantsTx(product: ProductId, rows: seq<VariantRow>, newIds: seq<VariantId>) returns (r: Result<map<Key, VariantId>, SaveError>)
      requires |newIds| == |rows|
      modifies this
      ensures match SyncVariants(old(db), product, rows, newIds)
        case Ok(db') => db == db' && r == Ok(IdByKey(rows, Existing(old(db), product), newIds))
        case Err(e) => r == Err(e)
    {
      var existing := Existing(db, product);
      var gone := existing - Kept(rows, existing);
      if gone * db.ordered != {} {
        return Err(VariantInUse);
      }
      db := DeleteVariants(db, gone);
      ghost var start := db;
      var idByKey: map<Key, VariantId> := map[];
      assert rows[0..] == rows && newIds[0..] == newIds;
      for i := 0 to |rows|
        invariant existing == Existing(old(db), product)
        invariant WriteRows(start, product, rows, existing, newIds) == WriteRows(db, product, rows[i..], existing, newIds[i..])
        invariant IdByKey(rows, existing, newIds) == idByKey + IdByKey(rows[i..], existing, newIds[i..])
      {
        hide WriteRow, RowId, IdByKey, WriteRows;
        NextWrite(db, product, rows, existing, newIds, i);
        NextRow(idByKey, rows, existing, newIds, i);
        var written := WriteRow(db, product, rows[i], existing, newIds[i]);
        if written.Err? {
          return Err(written.error);
        }
        db := written.value;
        idByKey := idByKey[rows[i].key := RowId(rows[i], existing, newIds[i])];
      }
      assert idByKey + map[] == idByKey;
      r := Ok(idByKey);
    }

    /** Attempts every cell, so that the error lists all conflicts. */
    method ApplyStockChangesTx(ids: map<Key, VariantId>, changes: seq<CellChange>) returns (r: Result<(), SaveError>)
      modifies this
      ensures match ApplyChanges(old(db), ids, changes)
        case Ok((db', conflicts)) => db == db' && r == (if conflicts != [] then Err(StockChanged(conflicts)) else Ok(()))
        case Err(e) => r == Err(e)
    {
      ghost var start := db;
      var conflicts: seq<StockConflict> := [];
      FollowingNothing(ApplyChanges(db, ids, changes));
      assert changes[0..] == changes;
      for i := 0 to |changes|
        invariant ApplyChanges(start, ids, changes) == Following(conflicts, ApplyChanges(db, ids, changes[i..]))
      {
        hide ApplyChanges, Following, WriteCell;
        var c := changes[i];
        NextChange(db, ids, changes, i, conflicts);
        if c.rowKey in ids {
          var cell := (ids[c.rowKey], c.pointId);
          var written := WriteCell(db, cell, c.qty, c.orig);
          if written.Err? {
            return Err(written.error);
          }
          if !written.value.1 {
            conflicts := conflicts + [ConflictAt(db.stock, c, cell)];
          }
          db := written.value.0;
        }
      }
      assert conflicts + [] == conflicts;
      if conflicts != [] {
        return Err(StockChanged(conflicts));
      }
      r := Ok(());
    }

    /** adminStockStore.Set. */
    method Set(cell: Cell, quantity: int, expected: Option<int>) returns (r: Result<int, SetError>)
      modifies this
      ensures match StockRuns.Set(old(db), cell, quantity, expected)
        case Ok(db') => db == db' && r == Ok(quantity)
        case Err(e) => db == old(db) && r == Err(e)
    {
      if quantity < 0 {
        return Err(BadQuantity);
      }
      if expected.Some? && expected.value < 0 {
        return Err(BadExpected);
      }
      var prev, exists_ := 0, cell in db.stock;
      if exists_ {
        prev := db.stock[cell];
      }
      if expected.Some? && expected.value != prev {
        return Err(Changed(prev));
      }
      if !exists_ && (cell.0 !in db.variants || cell.1 !in db.points) {
        return Err(NotFound);
      }
      db := db.(stock := db.stock[cell := quantity]);
      r := Ok(quantity);
    }
  }
}
