/** The product form's transaction (internal/admin/product_store.go): product row, variants, stock
    cells and photos in one all-or-nothing save, each changed stock cell written only if it still holds
    the value the form was rendered with. */
module ProductStore {
  import opened Wrappers
  import opened Text

  type ProductId = string
  type VariantId = string
  type PointId = string
  type Key = string
  type Cell = (VariantId, PointId)

  /** basePrice and overrides are in hundredths. */
  datatype Product = Product(categoryId: string, nameRu: string, nameKy: string, basePrice: int)
  datatype Variant = Variant(product: ProductId, size: string, color: string, sku: Option<string>, price: Option<int>)
  datatype Image = Image(objectKey: string, sortOrder: nat, color: string)

  /** ordered: variants that order lines reference, which cannot be deleted. */
  datatype Db = Db(categories: set<string>, points: set<PointId>, products: map<ProductId, Product>,
                   variants: map<VariantId, Variant>, stock: map<Cell, int>, images: map<ProductId, seq<Image>>,
                   ordered: set<VariantId>)

  datatype VariantRow = VariantRow(key: Key, id: VariantId, size: string, color: string, priceSet: bool, price: Option<int>)

  /** orig is None when no stock row existed at render time. */
  datatype CellChange = CellChange(rowKey: Key, pointId: PointId, qty: int, orig: Option<int>)

  datatype SaveInput = SaveInput(productId: ProductId, product: Product, variants: seq<VariantRow>,
                                 stock: seq<CellChange>, images: seq<Image>)

  datatype StockConflict = StockConflict(rowKey: Key, pointId: PointId, current: int, present: bool)

  datatype SaveError =
    | InvalidInput | ProductNotFound | InvalidCategory | VariantInUse | VariantExists
    | InvalidQuantity | InvalidVariantOrPoint
    | StockChanged(cells: seq<StockConflict>)

  /** Identifiers the database draws: one for a new product, one per row for new variants. */
  datatype NewIds = NewIds(product: ProductId, variants: seq<VariantId>)

  predicate Blank(s: string) { TrimSpace(s) == "" }

  predicate IsValid(input: SaveInput) {
    && !Blank(input.product.categoryId) && !Blank(input.product.nameRu) && !Blank(input.product.nameKy)
    && input.product.basePrice >= 0
    && (forall v :: v in input.variants ==>
          !Blank(v.size) && !Blank(v.color) && (v.price.Some? ==> v.price.value > 0))
    && (forall i :: i in input.images ==> !Blank(i.objectKey))
  }

  // ---- the statements ----

  function UpsertProduct(db: Db, input: SaveInput, newId: ProductId): Result<(Db, ProductId), SaveError> {
    var id := if input.productId == "" then newId else input.productId;
    if input.productId != "" && id !in db.products then Err(ProductNotFound)
    else if input.product.categoryId !in db.categories then Err(InvalidCategory)
    else Ok((db.(products := db.products[id := input.product]), id))
  }

  function Existing(db: Db, product: ProductId): set<VariantId> {
    set v | v in db.variants && db.variants[v].product == product
  }

  function Kept(rows: seq<VariantRow>, existing: set<VariantId>): set<VariantId> {
    set r | r in rows && r.id != "" && r.id in existing :: r.id
  }

  /** DELETE FROM product_variants; stock rows cascade. */
  function DeleteVariants(db: Db, gone: set<VariantId>): Db {
    db.(variants := db.variants - gone, stock := map c | c in db.stock && c.0 !in gone :: db.stock[c])
  }

  predicate Clashes(db: Db, id: VariantId, product: ProductId, size: string, color: string) {
    exists v :: v in db.variants && v != id && db.variants[v].product == product
      && db.variants[v].size == size && db.variants[v].color == color
  }

  /** The id a row ends up with. */
  function RowId(row: VariantRow, existing: set<VariantId>, newId: VariantId): VariantId {
    if row.id != "" && row.id in existing then row.id else newId
  }

  function WriteRow(db: Db, product: ProductId, row: VariantRow, existing: set<VariantId>, newId: VariantId): Result<Db, SaveError> {
    var id := RowId(row, existing, newId);
    if Clashes(db, id, product, row.size, row.color) then Err(VariantExists)
    else if row.id != "" && row.id in existing && id in db.variants then
      var v := db.variants[id];
      Ok(db.(variants := db.variants[id := v.(size := row.size, color := row.color, price := if row.priceSet then row.price else v.price)]))
    else
      Ok(db.(variants := db.variants[id := Variant(product, row.size, row.color, None, row.price)]))
  }

  function WriteRows(db: Db, product: ProductId, rows: seq<VariantRow>, existing: set<VariantId>, ids: seq<VariantId>): Result<Db, SaveError>
    requires |ids| == |rows|
    decreases |rows|
  {
    if rows == [] then Ok(db)
    else match WriteRow(db, product, rows[0], existing, ids[0])
      case Err(e) => Err(e)
      case Ok(next) => WriteRows(next, product, rows[1..], existing, ids[1..])
  }

  /** idByKey of syncVariantsTx. */
  function IdByKey(rows: seq<VariantRow>, existing: set<VariantId>, ids: seq<VariantId>): map<Key, VariantId>
    requires |ids| == |rows|
  {
    if rows == [] then map[]
    else map[rows[0].key := RowId(rows[0], existing, ids[0])] + IdByKey(rows[1..], existing, ids[1..])
  }

  function SyncVariants(db: Db, product: ProductId, rows: seq<VariantRow>, ids: seq<VariantId>): Result<Db, SaveError>
    requires |ids| == |rows|
  {
    var existing := Existing(db, product);
    var gone := existing - Kept(rows, existing);
    if gone * db.ordered != {} then Err(VariantInUse)
    else WriteRows(DeleteVariants(db, gone), product, rows, existing, ids)
  }

  function Stored(stock: map<Cell, int>, cell: Cell): Option<int> {
    if cell in stock then Some(stock[cell]) else None
  }

  /** writeStockCellTx; the flag is whether the row was written. */
  function WriteCell(db: Db, cell: Cell, qty: int, orig: Option<int>): Result<(Db, bool), SaveError> {
    if qty < 0 then Err(InvalidQuantity)
    else if orig.None? then
      if cell in db.stock then Ok((db, false))
      else if cell.0 !in db.variants || cell.1 !in db.points then Err(InvalidVariantOrPoint)
      else Ok((db.(stock := db.stock[cell := qty]), true))
    else if Stored(db.stock, cell) == orig then Ok((db.(stock := db.stock[cell := qty]), true))
    else Ok((db, false))
  }

  function ConflictAt(stock: map<Cell, int>, c: CellChange, cell: Cell): StockConflict {
    StockConflict(c.rowKey, c.pointId, if cell in stock then stock[cell] else 0, cell in stock)
  }

  /** applyStockChangesTx: every cell is attempted, and every conflict collected. */
  function ApplyChanges(db: Db, ids: map<Key, VariantId>, changes: seq<CellChange>): Result<(Db, seq<StockConflict>), SaveError>
    decreases |changes|
  {
    if changes == [] then Ok((db, []))
    else
      var c := changes[0];
      if c.rowKey !in ids then ApplyChanges(db, ids, changes[1..])
      else
        var cell := (ids[c.rowKey], c.pointId);
        match WriteCell(db, cell, c.qty, c.orig)
        case Err(e) => Err(e)
        case Ok((next, applied)) =>
          match ApplyChanges(next, ids, changes[1..])
          case Err(e) => Err(e)
          case Ok((last, conflicts)) => Ok((last, if applied then conflicts else [ConflictAt(db.stock, c, cell)] + conflicts))
  }

  function ReplaceImages(db: Db, product: ProductId, images: seq<Image>): Db {
    db.(images := db.images[product := images])
  }

  /** productStore.Save: the committed database and the product's id, or the error that rolled it back. */
  function Save(db: Db, input: SaveInput, new_: NewIds): Result<(Db, ProductId), SaveError>
    requires |new_.variants| == |input.variants|
  {
    if !IsValid(input) then Err(InvalidInput)
    else match UpsertProduct(db, input, new_.product)
      case Err(e) => Err(e)
      case Ok((db1, product)) =>
        match SyncVariants(db1, product, input.variants, new_.variants)
        case Err(e) => Err(e)
        case Ok(db2) =>
          match ApplyChanges(db2, IdByKey(input.variants, Existing(db1, product), new_.variants), input.stock)
          case Err(e) => Err(e)
          case Ok((db3, conflicts)) =>
            if conflicts != [] then Err(StockChanged(conflicts))
            else Ok((ReplaceImages(db3, product, input.images), product))
  }

  // ---- what the schema and the id generator guarantee ----

  ghost predicate DbOk(db: Db) {
    && (forall c :: c in db.stock ==> c.0 in db.variants && c.1 in db.points && db.stock[c] >= 0)
    && (forall v :: v in db.variants ==> v != "" && db.variants[v].product in db.products)
  }

  /** Freshly drawn ids are nobody's yet. */
  ghost predicate Drawn(db: Db, new_: NewIds) {
    && new_.product != "" && new_.product !in db.products
    && (forall i :: 0 <= i < |new_.variants| ==> new_.variants[i] != "" && new_.variants[i] !in db.variants)
    && (forall i, j :: 0 <= i < j < |new_.variants| ==> new_.variants[i] != new_.variants[j])
  }

  /** No two rows claim the same stored variant. */
  ghost predicate DistinctVariants(rows: seq<VariantRow>) {
    forall i, j :: 0 <= i < j < |rows| && rows[i].id != "" ==> rows[i].id != rows[j].id
  }

  ghost predicate DistinctCells(changes: seq<CellChange>) {
    forall i, j :: 0 <= i < j < |changes| ==>
      changes[i].rowKey != changes[j].rowKey || changes[i].pointId != changes[j].pointId
  }

  ghost predicate Injective(ids: map<Key, VariantId>) {
    forall k, l :: k in ids && l in ids && ids[k] == ids[l] ==> k == l
  }

  /** The product a save works on. */
  function Target(input: SaveInput, new_: NewIds): ProductId {
    if input.productId == "" then new_.product else input.productId
  }

  /** Where each submitted row's stock cells live. */
  function RowIds(db: Db, input: SaveInput, new_: NewIds): map<Key, VariantId>
    requires |new_.variants| == |input.variants|
  {
    IdByKey(input.variants, Existing(db, Target(input, new_)), new_.variants)
  }

  /** The row a key stands for: the last one with it, whatever ids are drawn. */
  lemma {:induction false} KeyRow(rows: seq<VariantRow>, existing: set<VariantId>, ids: seq<VariantId>, ids': seq<VariantId>, k: Key)
    returns (i: nat)
    requires |ids| == |ids'| == |rows| && k in IdByKey(rows, existing, ids)
    ensures i < |rows| && rows[i].key == k && k in IdByKey(rows, existing, ids')
    ensures IdByKey(rows, existing, ids)[k] == RowId(rows[i], existing, ids[i])
    ensures IdByKey(rows, existing, ids')[k] == RowId(rows[i], existing, ids'[i])
  {
    hide RowId;
    if k in IdByKey(rows[1..], existing, ids[1..]) {
      i := KeyRow(rows[1..], existing, ids[1..], ids'[1..], k);
      i := i + 1;
    } else {
      i := 0;
      if k in IdByKey(rows[1..], existing, ids'[1..]) {
        var j := KeyRow(rows[1..], existing, ids'[1..], ids[1..], k);
      }
    }
  }

  lemma RowIdsDiffer(existing: set<VariantId>, a: VariantRow, b: VariantRow, idA: VariantId, idB: VariantId)
    requires idA != idB && idA !in existing && idB !in existing && (a.id != "" ==> a.id != b.id)
    ensures RowId(a, existing, idA) != RowId(b, existing, idB)
  {
  }

  lemma RowIdsInjective(db: Db, input: SaveInput, new_: NewIds)
    requires |new_.variants| == |input.variants| && DistinctVariants(input.variants) && Drawn(db, new_)
    ensures Injective(RowIds(db, input, new_))
  {
    var existing, rows, ids := Existing(db, Target(input, new_)), input.variants, new_.variants;
    var m := RowIds(db, input, new_);
    forall i, j | 0 <= i < j < |rows| ensures RowId(rows[i], existing, ids[i]) != RowId(rows[j], existing, ids[j]) {
      RowIdsDiffer(existing, rows[i], rows[j], ids[i], ids[j]);
    }
    hide RowId, IdByKey, Existing;
    forall k, l | k in m && l in m && m[k] == m[l] ensures k == l {
      var i := KeyRow(rows, existing, ids, ids, k);
      var j := KeyRow(rows, existing, ids, ids, l);
    }
  }

  // ---- stock cells as one compare-and-set ----

  /** The changes of live rows whose stored value is not what the form showed, as reported. */
  function Mismatches(stock: map<Cell, int>, ids: map<Key, VariantId>, changes: seq<CellChange>): seq<StockConflict> {
    if changes == [] then []
    else
      var c := changes[0];
      var rest := Mismatches(stock, ids, changes[1..]);
      if c.rowKey in ids && Stored(stock, (ids[c.rowKey], c.pointId)) != c.orig
      then [ConflictAt(stock, c, (ids[c.rowKey], c.pointId))] + rest else rest
  }

  predicate Touches(ids: map<Key, VariantId>, c: CellChange, cell: Cell) {
    c.rowKey in ids && (ids[c.rowKey], c.pointId) == cell
  }

  /** What a cell holds once all these changes are written: the quantity of the last one for it, or what it held. */
  function Held(stock: map<Cell, int>, ids: map<Key, VariantId>, changes: seq<CellChange>, cell: Cell): Option<int>
    decreases |changes|
  {
    if changes == [] then Stored(stock, cell)
    else
      var n := |changes| - 1;
      if Touches(ids, changes[n], cell) then Some(changes[n].qty) else Held(stock, ids, changes[..n], cell)
  }

  /** Every change of a live row saw what its cell holds when its turn comes. */
  ghost predicate EachSawTheLast(stock: map<Cell, int>, ids: map<Key, VariantId>, changes: seq<CellChange>) {
    forall i :: 0 <= i < |changes| && changes[i].rowKey in ids ==>
      Held(stock, ids, changes[..i], (ids[changes[i].rowKey], changes[i].pointId)) == changes[i].orig
  }

  ghost predicate SameCell(ids: map<Key, VariantId>, c: CellChange, d: CellChange) {
    c.rowKey in ids && Touches(ids, d, (ids[c.rowKey], c.pointId))
  }

  /** No two changes of live rows are for one cell. */
  ghost predicate CellsApart(ids: map<Key, VariantId>, changes: seq<CellChange>) {
    forall i, j :: 0 <= i < j < |changes| ==> !SameCell(ids, changes[i], changes[j])
  }

  /** A change that matches what is stored is the last one for its cell. */
  ghost predicate MatchesComeLast(stock: map<Cell, int>, ids: map<Key, VariantId>, changes: seq<CellChange>) {
    forall i, j :: 0 <= i < j < |changes| && SameCell(ids, changes[i], changes[j]) ==>
      Stored(stock, (ids[changes[i].rowKey], changes[i].pointId)) != changes[i].orig
  }

  /** Every change asks for another quantity than the form showed. */
  ghost predicate AsksForChanges(changes: seq<CellChange>) {
    forall c :: c in changes ==> c.orig != Some(c.qty)
  }

  /** Two stocks agree on every cell these changes look at. */
  ghost predicate AgreeOn(a: map<Cell, int>, b: map<Cell, int>, ids: map<Key, VariantId>, changes: seq<CellChange>) {
    forall c :: c in changes && c.rowKey in ids ==>
      Stored(a, (ids[c.rowKey], c.pointId)) == Stored(b, (ids[c.rowKey], c.pointId))
  }

  lemma {:induction false} MismatchesAgree(a: map<Cell, int>, b: map<Cell, int>, ids: map<Key, VariantId>, changes: seq<CellChange>)
    requires AgreeOn(a, b, ids, changes)
    ensures Mismatches(a, ids, changes) == Mismatches(b, ids, changes)
  {
    if changes != [] {
      assert changes[0] in changes;
      assert forall c :: c in changes[1..] ==> c in changes;
      MismatchesAgree(a, b, ids, changes[1..]);
    }
  }

  lemma {:induction false} HeldAgree(a: map<Cell, int>, b: map<Cell, int>, ids: map<Key, VariantId>, changes: seq<CellChange>, cell: Cell)
    requires Stored(a, cell) == Stored(b, cell)
    ensures Held(a, ids, changes, cell) == Held(b, ids, changes, cell)
    decreases |changes|
  {
    if changes != [] { HeldAgree(a, b, ids, changes[..|changes| - 1], cell); }
  }

  lemma TurnsAgree(a: map<Cell, int>, b: map<Cell, int>, ids: map<Key, VariantId>, changes: seq<CellChange>)
    requires AgreeOn(a, b, ids, changes)
    ensures EachSawTheLast(a, ids, changes) <==> EachSawTheLast(b, ids, changes)
    ensures MatchesComeLast(a, ids, changes) <==> MatchesComeLast(b, ids, changes)
  {
    hide Stored, Held;
    forall i | 0 <= i < |changes| && changes[i].rowKey in ids
      ensures var cell := (ids[changes[i].rowKey], changes[i].pointId);
        Stored(a, cell) == Stored(b, cell) && Held(a, ids, changes[..i], cell) == Held(b, ids, changes[..i], cell)
    {
      assert changes[i] in changes;
      HeldAgree(a, b, ids, changes[..i], (ids[changes[i].rowKey], changes[i].pointId));
    }
  }

  /** The stock after the first change, had it been written. */
  function Put(stock: map<Cell, int>, ids: map<Key, VariantId>, c: CellChange): map<Cell, int> {
    if c.rowKey in ids then stock[(ids[c.rowKey], c.pointId) := c.qty] else stock
  }

  lemma {:induction false} HeldAfterFirst(stock: map<Cell, int>, ids: map<Key, VariantId>, changes: seq<CellChange>, cell: Cell)
    requires changes != []
    ensures Held(stock, ids, changes, cell) == Held(Put(stock, ids, changes[0]), ids, changes[1..], cell)
    decreases |changes|
  {
    var n := |changes| - 1;
    if n > 0 {
      assert changes[..n][0] == changes[0] && changes[..n][1..] == changes[1..][..n - 1];
      HeldAfterFirst(stock, ids, changes[..n], cell);
    } else {
      assert changes[..0] == [] && changes[1..] == [];
    }
  }

  lemma TurnsAfterFirst(stock: map<Cell, int>, ids: map<Key, VariantId>, changes: seq<CellChange>)
    requires changes != []
    ensures var c := changes[0];
      EachSawTheLast(stock, ids, changes) <==>
        (c.rowKey in ids ==> Stored(stock, (ids[c.rowKey], c.pointId)) == c.orig) && EachSawTheLast(Put(stock, ids, c), ids, changes[1..])
  {
    var c, rest := changes[0], changes[1..];
    var next := Put(stock, ids, c);
    assert changes[..0] == [];
    assert c.rowKey in ids ==> Held(stock, ids, changes[..0], (ids[c.rowKey], c.pointId)) == Stored(stock, (ids[c.rowKey], c.pointId));
    hide Put, Stored;
    forall i, cell | 0 < i < |changes| ensures Held(stock, ids, changes[..i], cell) == Held(next, ids, rest[..i - 1], cell) {
      assert changes[..i][1..] == rest[..i - 1];
      HeldAfterFirst(stock, ids, changes[..i], cell);
    }
    hide Held;
    if EachSawTheLast(stock, ids, changes) {
      forall i | 0 <= i < |rest| && rest[i].rowKey in ids
        ensures Held(next, ids, rest[..i], (ids[rest[i].rowKey], rest[i].pointId)) == rest[i].orig
      {
        assert rest[i] == changes[i + 1];
      }
    }
  }

  /** A change of a live row that matches what is stored. */
  predicate Matches(stock: map<Cell, int>, ids: map<Key, VariantId>, c: CellChange) {
    c.rowKey in ids && Stored(stock, (ids[c.rowKey], c.pointId)) == c.orig
  }

  /** What writing one change does. */
  ghost predicate Wrote(db: Db, next: Db, ids: map<Key, VariantId>, c: CellChange) {
    next == db.(stock := if Matches(db.stock, ids, c) then Put(db.stock, ids, c) else db.stock)
  }

  lemma FirstApplies(db: Db, next: Db, ids: map<Key, VariantId>, changes: seq<CellChange>)
    requires changes != [] && Wrote(db, next, ids, changes[0]) && ApplyChanges(db, ids, changes).Ok?
    ensures ApplyChanges(next, ids, changes[1..]).Ok?
    ensures var c := changes[0];
      var ((last, conflicts), (last', later)) := (ApplyChanges(db, ids, changes).value, ApplyChanges(next, ids, changes[1..]).value);
      && last == last'
      && conflicts == (if c.rowKey in ids && !Matches(db.stock, ids, c) then [ConflictAt(db.stock, c, (ids[c.rowKey], c.pointId))] else []) + later
  {
    var c := changes[0];
    if c.rowKey in ids {
      assert WriteCell(db, (ids[c.rowKey], c.pointId), c.qty, c.orig).value == (next, Matches(db.stock, ids, c));
    }
    hide WriteCell;
  }

  /** Cell by cell writing goes through without a conflict exactly when every change saw what its cell holds
      when its turn comes, and then every cell holds the last quantity typed for it. */
  lemma {:induction false} TurnsDecide(db: Db, ids: map<Key, VariantId>, changes: seq<CellChange>)
    requires ApplyChanges(db, ids, changes).Ok?
    ensures var (db', conflicts) := ApplyChanges(db, ids, changes).value;
      && (conflicts == [] <==> EachSawTheLast(db.stock, ids, changes))
      && (conflicts == [] ==> forall cell :: Stored(db'.stock, cell) == Held(db.stock, ids, changes, cell))
    decreases |changes|
  {
    if changes != [] {
      var c, rest := changes[0], changes[1..];
      TurnsAfterFirst(db.stock, ids, changes);
      var next := db.(stock := if Matches(db.stock, ids, c) then Put(db.stock, ids, c) else db.stock);
      FirstApplies(db, next, ids, changes);
      hide EachSawTheLast, Held, ApplyChanges;
      TurnsDecide(next, ids, rest);
      forall cell ensures Held(db.stock, ids, changes, cell) == Held(Put(db.stock, ids, c), ids, rest, cell) {
        HeldAfterFirst(db.stock, ids, changes, cell);
      }
    }
  }

  // ---- conflicts judged together ----

  /** Every change that matched left its quantity behind. */
  ghost predicate MatchesWritten(before: map<Cell, int>, after_: map<Cell, int>, ids: map<Key, VariantId>, changes: seq<CellChange>) {
    forall c :: c in changes && c.rowKey in ids && Stored(before, (ids[c.rowKey], c.pointId)) == c.orig ==>
      Stored(after_, (ids[c.rowKey], c.pointId)) == Some(c.qty)
  }

  /** A cell that no matching change is for is as it was. */
  ghost predicate OthersKept(before: map<Cell, int>, after_: map<Cell, int>, ids: map<Key, VariantId>, changes: seq<CellChange>) {
    forall cell :: (forall c :: c in changes && Touches(ids, c, cell) ==> Stored(before, cell) != c.orig) ==>
      Stored(after_, cell) == Stored(before, cell)
  }

  lemma FirstChange(db: Db, next: Db, after_: map<Cell, int>, ids: map<Key, VariantId>, changes: seq<CellChange>)
    requires changes != [] && Wrote(db, next, ids, changes[0]) && OthersKept(next.stock, after_, ids, changes[1..])
    ensures OthersKept(db.stock, after_, ids, changes)
    ensures MatchesComeLast(db.stock, ids, changes) ==> AgreeOn(next.stock, db.stock, ids, changes[1..])
    ensures MatchesComeLast(db.stock, ids, changes) && MatchesWritten(next.stock, after_, ids, changes[1..]) ==>
      MatchesWritten(db.stock, after_, ids, changes)
  {
    var c, rest := changes[0], changes[1..];
    assert forall d :: d in changes <==> d == c || d in rest;
    if c.rowKey in ids {
      var cell := (ids[c.rowKey], c.pointId);
      assert forall other: Cell :: other != cell ==> Stored(next.stock, other) == Stored(db.stock, other);
      assert Stored(next.stock, cell) == if Stored(db.stock, cell) == c.orig then Some(c.qty) else Stored(db.stock, cell);
      hide Wrote, Stored;
      if MatchesComeLast(db.stock, ids, changes) && Stored(db.stock, cell) == c.orig {
        forall d | d in rest ensures !Touches(ids, d, cell) {
          var j :| 0 <= j < |rest| && rest[j] == d;
          assert !SameCell(ids, changes[0], changes[j + 1]);
        }
      }
      forall other: Cell | forall d :: d in changes && Touches(ids, d, other) ==> Stored(db.stock, other) != d.orig
        ensures Stored(after_, other) == Stored(db.stock, other)
      {
        if other == cell { assert Touches(ids, c, other); }
      }
    }
  }

  /** If every change that matches what is stored is the last one for its cell, each write sees its cell as it
      was before all of them: the conflicts are judged together, on what is stored, and a cell ends up with
      the quantity of the change that matched it, or as it was. */
  lemma {:induction false} ChangesAreIndependent(db: Db, ids: map<Key, VariantId>, changes: seq<CellChange>)
    requires ApplyChanges(db, ids, changes).Ok?
    ensures var (db', conflicts) := ApplyChanges(db, ids, changes).value;
      && OthersKept(db.stock, db'.stock, ids, changes)
      && (MatchesComeLast(db.stock, ids, changes) ==>
            conflicts == Mismatches(db.stock, ids, changes) && MatchesWritten(db.stock, db'.stock, ids, changes))
    decreases |changes|
  {
    if changes != [] {
      var c, rest := changes[0], changes[1..];
      var next := db.(stock := if Matches(db.stock, ids, c) then Put(db.stock, ids, c) else db.stock);
      FirstApplies(db, next, ids, changes);
      LaterMatches(db.stock, ids, changes);
      hide ApplyChanges;
      ChangesAreIndependent(next, ids, rest);
      FirstChange(db, next, ApplyChanges(db, ids, changes).value.0.stock, ids, changes);
      hide MatchesComeLast, MatchesWritten, OthersKept, Put;
      if MatchesComeLast(db.stock, ids, changes) {
        MismatchesAgree(next.stock, db.stock, ids, rest);
        TurnsAgree(next.stock, db.stock, ids, rest);
      }
      hide AgreeOn;
    }
  }

  lemma LaterMatches(stock: map<Cell, int>, ids: map<Key, VariantId>, changes: seq<CellChange>)
    requires changes != []
    ensures MatchesComeLast(stock, ids, changes) ==> MatchesComeLast(stock, ids, changes[1..])
  {
    hide SameCell, Stored;
    assert forall i :: 0 <= i < |changes| - 1 ==> changes[1..][i] == changes[i + 1];
  }
  /** What is reported for a change that no earlier one shares its cell with. */
  lemma {:induction false} ReportOfFirst(db: Db, ids: map<Key, VariantId>, changes: seq<CellChange>, k: nat)
    requires ApplyChanges(db, ids, changes).Ok? && DistinctCells(changes) && k < |changes| && changes[k].rowKey in ids
    requires forall j :: 0 <= j < k ==> !Touches(ids, changes[j], (ids[changes[k].rowKey], changes[k].pointId))
    ensures ReportedAs(ApplyChanges(db, ids, changes).value.1, changes[k],
                       Stored(db.stock, (ids[changes[k].rowKey], changes[k].pointId)) != changes[k].orig,
                       ConflictAt(db.stock, changes[k], (ids[changes[k].rowKey], changes[k].pointId)))
    decreases |changes|
  {
    var c, rest := changes[0], changes[1..];
    assert k > 0 ==> rest[k - 1] == changes[k];
    assert forall j :: 0 <= j < |rest| ==> rest[j] == changes[j + 1];
    if c.rowKey !in ids {
      ReportOfFirst(db, ids, rest, k - 1);
    } else {
      var cell := (ids[c.rowKey], c.pointId);
      var next := WriteCell(db, cell, c.qty, c.orig).value.0;
      if k > 0 {
        assert !Touches(ids, changes[0], (ids[changes[k].rowKey], changes[k].pointId));
        ReportOfFirst(next, ids, rest, k - 1);
      } else {
        OnlyOwnReports(next, ids, rest, c);
      }
    }
  }

  /** Whether a change is among these reports, in what words. */
  ghost predicate ReportedAs(conflicts: seq<StockConflict>, c: CellChange, reported: bool, report: StockConflict) {
    && (reported <==> report in conflicts)
    && (forall e :: e in conflicts && e.rowKey == c.rowKey && e.pointId == c.pointId ==> e == report)
  }

  lemma {:induction false} OnlyOwnReports(db: Db, ids: map<Key, VariantId>, changes: seq<CellChange>, c: CellChange)
    requires ApplyChanges(db, ids, changes).Ok?
    requires forall j :: 0 <= j < |changes| ==> changes[j].rowKey != c.rowKey || changes[j].pointId != c.pointId
    ensures forall e :: e in ApplyChanges(db, ids, changes).value.1 ==> e.rowKey != c.rowKey || e.pointId != c.pointId
    decreases |changes|
  {
    if changes != [] {
      var d, rest := changes[0], changes[1..];
      if d.rowKey !in ids { OnlyOwnReports(db, ids, rest, c); }
      else { OnlyOwnReports(WriteCell(db, (ids[d.rowKey], d.pointId), d.qty, d.orig).value.0, ids, rest, c); }
    }
  }

  lemma {:induction false} ReportOfMismatch(stock: map<Cell, int>, ids: map<Key, VariantId>, changes: seq<CellChange>, k: nat)
    requires DistinctCells(changes) && k < |changes| && changes[k].rowKey in ids
    ensures ReportedAs(Mismatches(stock, ids, changes), changes[k],
                       Stored(stock, (ids[changes[k].rowKey], changes[k].pointId)) != changes[k].orig,
                       ConflictAt(stock, changes[k], (ids[changes[k].rowKey], changes[k].pointId)))
  {
    var c, rest := changes[0], changes[1..];
    assert forall j :: 0 <= j < |rest| ==> rest[j] == changes[j + 1];
    if k > 0 { ReportOfMismatch(stock, ids, rest, k - 1); } else { OnlyOwnMismatches(stock, ids, rest, c); }
  }

  lemma {:induction false} OnlyOwnMismatches(stock: map<Cell, int>, ids: map<Key, VariantId>, changes: seq<CellChange>, c: CellChange)
    requires forall j :: 0 <= j < |changes| ==> changes[j].rowKey != c.rowKey || changes[j].pointId != c.pointId
    ensures forall e :: e in Mismatches(stock, ids, changes) ==> e.rowKey != c.rowKey || e.pointId != c.pointId
  {
    if changes != [] { OnlyOwnMismatches(stock, ids, changes[1..], c); }
  }

  /** After a change was written over what is stored, the next one for its cell is reported differently. */
  lemma WrittenShows(db: Db, next: Db, ids: map<Key, VariantId>, c: CellChange, rest: seq<CellChange>, k: nat)
    requires c.rowKey in ids && Stored(db.stock, (ids[c.rowKey], c.pointId)) == c.orig != Some(c.qty)
    requires next.stock == Put(db.stock, ids, c)
    requires ApplyChanges(next, ids, rest).Ok? && DistinctCells(rest) && k < |rest| && SameCell(ids, c, rest[k])
    requires forall j :: 0 <= j < k ==> !SameCell(ids, c, rest[j])
    ensures ApplyChanges(next, ids, rest).value.1 != Mismatches(db.stock, ids, rest)
  {
    var cell := (ids[c.rowKey], c.pointId);
    assert Touches(ids, rest[k], cell);
    ReportOfFirst(next, ids, rest, k);
    ReportOfMismatch(db.stock, ids, rest, k);
    assert ConflictAt(next.stock, rest[k], cell) != ConflictAt(db.stock, rest[k], cell);
    assert Stored(next.stock, cell) == Some(c.qty);
    hide ApplyChanges, Mismatches, ConflictAt, Stored, Put, DistinctCells;
  }

  lemma {:induction false} FirstOfCell(ids: map<Key, VariantId>, c: CellChange, changes: seq<CellChange>) returns (k: nat)
    requires exists j :: 0 <= j < |changes| && SameCell(ids, c, changes[j])
    ensures k < |changes| && SameCell(ids, c, changes[k]) && forall j :: 0 <= j < k ==> !SameCell(ids, c, changes[j])
    decreases |changes|
  {
    var j :| 0 <= j < |changes| && SameCell(ids, c, changes[j]);
    hide SameCell;
    if SameCell(ids, c, changes[0]) {
      k := 0;
    } else {
      assert changes[1..][j - 1] == changes[j];
      k := FirstOfCell(ids, c, changes[1..]);
      k := k + 1;
    }
  }

  /** Whether the first change is one that matches the table and is followed by another for its cell. */
  ghost predicate Followed(stock: map<Cell, int>, ids: map<Key, VariantId>, changes: seq<CellChange>)
    requires changes != []
  {
    Matches(stock, ids, changes[0]) && exists j :: 0 <= j < |changes| - 1 && SameCell(ids, changes[0], changes[1..][j])
  }

  lemma MatchesFirst(stock: map<Cell, int>, ids: map<Key, VariantId>, changes: seq<CellChange>)
    requires changes != []
    ensures MatchesComeLast(stock, ids, changes) <==> !Followed(stock, ids, changes) && MatchesComeLast(stock, ids, changes[1..])
  {
    hide Stored;
    var rest := changes[1..];
    assert forall j :: 0 <= j < |rest| ==> rest[j] == changes[j + 1];
    if MatchesComeLast(stock, ids, rest) && !Followed(stock, ids, changes) {
      forall i, j | 0 <= i < j < |changes| && SameCell(ids, changes[i], changes[j])
        ensures Stored(stock, (ids[changes[i].rowKey], changes[i].pointId)) != changes[i].orig
      {
        assert rest[j - 1] == changes[j];
        if i > 0 { assert rest[i - 1] == changes[i]; }
      }
    }
  }

  /** The conflicts are those of the table as stored exactly when every change that matches it is the last one
      for its cell. */
  lemma {:induction false} ConflictsAreStoredIff(db: Db, ids: map<Key, VariantId>, changes: seq<CellChange>)
    requires ApplyChanges(db, ids, changes).Ok? && DistinctCells(changes) && AsksForChanges(changes)
    ensures ApplyChanges(db, ids, changes).value.1 == Mismatches(db.stock, ids, changes) <==> MatchesComeLast(db.stock, ids, changes)
    decreases |changes|
  {
    if changes != [] {
      var c, rest := changes[0], changes[1..];
      var next := db.(stock := if Matches(db.stock, ids, c) then Put(db.stock, ids, c) else db.stock);
      AskedFirst(changes);
      MatchesFirst(db.stock, ids, changes);
      FirstReport(db, next, ids, changes);
      hide MatchesComeLast, DistinctCells, AsksForChanges, ApplyChanges, Mismatches, Put, Matches;
      if Followed(db.stock, ids, changes) {
        var k := FirstOfCell(ids, c, rest);
        WrittenShows(db, next, ids, c, rest, k);
      } else {
        ConflictsAreStoredIff(next, ids, rest);
        NotFollowed(db, next, ids, changes);
        hide AgreeOn, Followed;
        MismatchesAgree(next.stock, db.stock, ids, rest);
        TurnsAgree(next.stock, db.stock, ids, rest);
      }
    }
  }

  lemma AskedFirst(changes: seq<CellChange>)
    requires changes != [] && DistinctCells(changes) && AsksForChanges(changes)
    ensures DistinctCells(changes[1..]) && AsksForChanges(changes[1..]) && changes[0].orig != Some(changes[0].qty)
  {
    assert forall j :: 0 <= j < |changes| - 1 ==> changes[1..][j] == changes[j + 1];
    assert changes[0] in changes && forall d :: d in changes[1..] ==> d in changes;
  }

  /** The first change is reported alike by both. */
  lemma FirstReport(db: Db, next: Db, ids: map<Key, VariantId>, changes: seq<CellChange>)
    requires changes != [] && Wrote(db, next, ids, changes[0]) && ApplyChanges(db, ids, changes).Ok?
    ensures ApplyChanges(next, ids, changes[1..]).Ok?
    ensures ApplyChanges(db, ids, changes).value.1 == Mismatches(db.stock, ids, changes) <==>
      ApplyChanges(next, ids, changes[1..]).value.1 == Mismatches(db.stock, ids, changes[1..])
  {
    var c := changes[0];
    FirstApplies(db, next, ids, changes);
    hide ApplyChanges;
    if c.rowKey in ids {
      var report := ConflictAt(db.stock, c, (ids[c.rowKey], c.pointId));
      hide ConflictAt, Put, Wrote;
      SameHead([report], ApplyChanges(next, ids, changes[1..]).value.1, Mismatches(db.stock, ids, changes[1..]));
    }
  }

  lemma SameHead<T>(head: seq<T>, a: seq<T>, b: seq<T>)
    ensures head + a == head + b <==> a == b
  {
    if head + a == head + b { assert a == (head + a)[|head|..] == (head + b)[|head|..] == b; }
  }

  lemma NotFollowed(db: Db, next: Db, ids: map<Key, VariantId>, changes: seq<CellChange>)
    requires changes != [] && Wrote(db, next, ids, changes[0]) && !Followed(db.stock, ids, changes)
    ensures AgreeOn(next.stock, db.stock, ids, changes[1..])
  {
    var c, rest := changes[0], changes[1..];
    if Matches(db.stock, ids, c) {
      var cell := (ids[c.rowKey], c.pointId);
      assert forall other: Cell :: other != cell ==> Stored(next.stock, other) == Stored(db.stock, other);
      hide Stored, Wrote;
      forall d | d in rest ensures !Touches(ids, d, cell) {
        var j :| 0 <= j < |rest| && rest[j] == d;
        assert !SameCell(ids, c, rest[j]);
      }
    }
  }

  // ---- cells apart ----

  lemma {:induction false} NoMismatchMeansMatch(stock: map<Cell, int>, ids: map<Key, VariantId>, changes: seq<CellChange>)
    ensures Mismatches(stock, ids, changes) == [] <==>
      forall c :: c in changes && c.rowKey in ids ==> Stored(stock, (ids[c.rowKey], c.pointId)) == c.orig
  {
    if changes != [] {
      NoMismatchMeansMatch(stock, ids, changes[1..]);
      assert forall c :: c in changes <==> c == changes[0] || c in changes[1..];
    }
  }

  lemma {:induction false} HeldIsTyped(stock: map<Cell, int>, ids: map<Key, VariantId>, changes: seq<CellChange>, cell: Cell)
    ensures (forall c :: c in changes ==> !Touches(ids, c, cell)) ==> Held(stock, ids, changes, cell) == Stored(stock, cell)
    ensures (exists c :: c in changes && Touches(ids, c, cell)) ==>
      exists c :: c in changes && Touches(ids, c, cell) && Held(stock, ids, changes, cell) == Some(c.qty)
    decreases |changes|
  {
    hide Touches, Stored;
    if changes != [] {
      var n := |changes| - 1;
      HeldIsTyped(stock, ids, changes[..n], cell);
      assert forall c :: c in changes <==> c == changes[n] || c in changes[..n];
    }
  }

  /** With all cells apart, a change's turn is the stored table: each saw the last quantity if none mismatches,
      and its own is the last. Otherwise changes cannot both take their turns and all match what is stored. */
  lemma TurnsAreStored(stock: map<Cell, int>, ids: map<Key, VariantId>, changes: seq<CellChange>)
    ensures CellsApart(ids, changes) ==>
      && MatchesComeLast(stock, ids, changes)
      && (EachSawTheLast(stock, ids, changes) <==> Mismatches(stock, ids, changes) == [])
      && forall c :: c in changes && c.rowKey in ids ==> Held(stock, ids, changes, (ids[c.rowKey], c.pointId)) == Some(c.qty)
    ensures AsksForChanges(changes) && EachSawTheLast(stock, ids, changes) && Mismatches(stock, ids, changes) == [] ==>
      CellsApart(ids, changes)
  {
    NoMismatchMeansMatch(stock, ids, changes);
    if CellsApart(ids, changes) { ApartHeld(stock, ids, changes); }
    if AsksForChanges(changes) && EachSawTheLast(stock, ids, changes) && Mismatches(stock, ids, changes) == [] {
      hide Mismatches, Held;
      forall i, j | 0 <= i < j < |changes| ensures !SameCell(ids, changes[i], changes[j]) {
        if SameCell(ids, changes[i], changes[j]) { OneDoesNotMatch(stock, ids, changes, i, j); }
      }
    }
  }

  /** Of two changes for a cell that take their turns, one expects what is not stored. */
  lemma OneDoesNotMatch(stock: map<Cell, int>, ids: map<Key, VariantId>, changes: seq<CellChange>, i: nat, j: nat)
    requires AsksForChanges(changes) && EachSawTheLast(stock, ids, changes) && i < j < |changes| && SameCell(ids, changes[i], changes[j])
    ensures exists c :: c in changes && c.rowKey in ids && Stored(stock, (ids[c.rowKey], c.pointId)) != c.orig
  {
    hide Held;
    var cell := (ids[changes[i].rowKey], changes[i].pointId);
    HeldIsTyped(stock, ids, changes[..j], cell);
    assert changes[..j][i] == changes[i] && changes[i] in changes[..j] && changes[j] in changes;
    var c :| c in changes[..j] && Touches(ids, c, cell) && Held(stock, ids, changes[..j], cell) == Some(c.qty);
    assert c in changes;
    if Stored(stock, cell) == c.orig { assert Stored(stock, cell) != changes[j].orig; }
  }

  lemma ApartHeld(stock: map<Cell, int>, ids: map<Key, VariantId>, changes: seq<CellChange>)
    requires CellsApart(ids, changes)
    ensures forall i :: 0 <= i < |changes| && changes[i].rowKey in ids ==>
      var cell := (ids[changes[i].rowKey], changes[i].pointId);
      && Held(stock, ids, changes[..i], cell) == Stored(stock, cell)
      && Held(stock, ids, changes, cell) == Some(changes[i].qty)
  {
    hide Held, Stored;
    forall i | 0 <= i < |changes| && changes[i].rowKey in ids
      ensures var cell := (ids[changes[i].rowKey], changes[i].pointId);
        && Held(stock, ids, changes[..i], cell) == Stored(stock, cell)
        && Held(stock, ids, changes, cell) == Some(changes[i].qty)
    {
      var cell := (ids[changes[i].rowKey], changes[i].pointId);
      forall j | 0 <= j < |changes| && j != i ensures !Touches(ids, changes[j], cell) {
        assert !SameCell(ids, changes[if i < j then i else j], changes[if i < j then j else i]);
      }
      HeldIsTyped(stock, ids, changes[..i], cell);
      HeldIsTyped(stock, ids, changes, cell);
      assert changes[i] in changes;
    }
  }

  // ---- the whole save ----

  /** The stored variants of the product that the form no longer lists. */
  function Gone(db: Db, input: SaveInput, new_: NewIds): set<VariantId> {
    var existing := Existing(db, Target(input, new_));
    existing - Kept(input.variants, existing)
  }

  lemma WriteRowFrame(db: Db, product: ProductId, row: VariantRow, existing: set<VariantId>, newId: VariantId)
    requires WriteRow(db, product, row, existing, newId).Ok?
    ensures var db', id := WriteRow(db, product, row, existing, newId).value, RowId(row, existing, newId);
      id in db'.variants && db' == db.(variants := db.variants[id := db'.variants[id]])
  {
    hide Clashes;
  }

  lemma {:induction false} WriteRowsFrame(db: Db, product: ProductId, rows: seq<VariantRow>, existing: set<VariantId>, ids: seq<VariantId>)
    requires |ids| == |rows| && WriteRows(db, product, rows, existing, ids).Ok?
    ensures var db' := WriteRows(db, product, rows, existing, ids).value;
      && db' == db.(variants := db'.variants)
      && db.variants.Keys <= db'.variants.Keys
      && (forall v :: v in db'.variants && (v !in db.variants || db'.variants[v] != db.variants[v]) ==>
            exists i :: 0 <= i < |rows| && v == RowId(rows[i], existing, ids[i]))
      && (forall i :: 0 <= i < |rows| ==> RowId(rows[i], existing, ids[i]) in db'.variants)
    decreases |rows|
  {
    if rows != [] {
      var next := WriteRow(db, product, rows[0], existing, ids[0]).value;
      WriteRowFrame(db, product, rows[0], existing, ids[0]);
      hide WriteRow, RowId;
      WriteRowsFrame(next, product, rows[1..], existing, ids[1..]);
      var db' := WriteRows(db, product, rows, existing, ids).value;
      forall i | 0 <= i < |rows| ensures RowId(rows[i], existing, ids[i]) in db'.variants {
        if i > 0 { assert rows[1..][i - 1] == rows[i] && ids[1..][i - 1] == ids[i]; }
      }
      forall v | v in db'.variants && (v !in db.variants || db'.variants[v] != db.variants[v])
        ensures exists i :: 0 <= i < |rows| && v == RowId(rows[i], existing, ids[i])
      {
        if v != RowId(rows[0], existing, ids[0]) {
          var j :| 0 <= j < |rows[1..]| && v == RowId(rows[1..][j], existing, ids[1..][j]);
          assert rows[j + 1] == rows[1..][j] && ids[j + 1] == ids[1..][j];
        } else {
          assert v == RowId(rows[0], existing, ids[0]);
        }
      }
    }
  }

  lemma RowIdsSurvive(db: Db, input: SaveInput, new_: NewIds, k: Key)
    requires |new_.variants| == |input.variants| && Drawn(db, new_)
    requires k in RowIds(db, input, new_)
    ensures RowIds(db, input, new_)[k] !in Gone(db, input, new_)
  {
    var existing, rows, ids := Existing(db, Target(input, new_)), input.variants, new_.variants;
    var i := KeyRow(rows, existing, ids, ids, k);
    assert rows[i] in rows;
  }

  /** The state in which Save starts on the stock cells. */
  function Synced(db: Db, input: SaveInput, new_: NewIds): Result<Db, SaveError>
    requires |new_.variants| == |input.variants|
  {
    match UpsertProduct(db, input, new_.product)
    case Err(e) => Err(e)
    case Ok((db1, product)) => SyncVariants(db1, product, input.variants, new_.variants)
  }

  lemma SyncLeavesStock(db: Db, input: SaveInput, new_: NewIds)
    requires |new_.variants| == |input.variants| && Synced(db, input, new_).Ok?
    ensures var db2 := Synced(db, input, new_).value;
      && db2.points == db.points
      && (forall cell :: Stored(db2.stock, cell) == if cell.0 in Gone(db, input, new_) then None else Stored(db.stock, cell))
  {
    var (db1, product) := UpsertProduct(db, input, new_.product).value;
    var existing := Existing(db1, product);
    assert existing == Existing(db, product);
    WriteRowsFrame(DeleteVariants(db1, existing - Kept(input.variants, existing)), product, input.variants, existing, new_.variants);
  }

  /** Deleting the dropped variants leaves the cells of the submitted rows alone. */
  lemma SyncLeavesRows(db: Db, input: SaveInput, new_: NewIds)
    requires |new_.variants| == |input.variants| && Drawn(db, new_) && Synced(db, input, new_).Ok?
    ensures AgreeOn(Synced(db, input, new_).value.stock, db.stock, RowIds(db, input, new_), input.stock)
  {
    var ids, db2 := RowIds(db, input, new_), Synced(db, input, new_).value;
    SyncLeavesStock(db, input, new_);
    forall c | c in input.stock && c.rowKey in ids
      ensures Stored(db2.stock, (ids[c.rowKey], c.pointId)) == Stored(db.stock, (ids[c.rowKey], c.pointId))
    {
      RowIdsSurvive(db, input, new_, c.rowKey);
    }
  }

  /** Form save as a multi-cell compare-and-set, for any form. Either every changed cell of a submitted row held
      what its author saw, or what the change before it for the same cell typed, and now every cell holds the
      last quantity typed for it, and every other cell of a surviving variant is as it was; or the save
      reports conflicts. Those are the cells that moved exactly when no change that matches the table is followed
      by another for its cell. */
  lemma SaveIsCompareAndSet(db: Db, input: SaveInput, new_: NewIds)
    requires |new_.variants| == |input.variants| && Drawn(db, new_)
    ensures var ids, gone := RowIds(db, input, new_), Gone(db, input, new_);
      match Save(db, input, new_)
      case Ok((db', product)) =>
        && product == Target(input, new_)
        && EachSawTheLast(db.stock, ids, input.stock)
        && (forall cell: Cell :: Stored(db'.stock, cell) == if cell.0 in gone then None else Held(db.stock, ids, input.stock, cell))
      case Err(StockChanged(cells)) =>
        && cells != [] && !EachSawTheLast(db.stock, ids, input.stock)
        && (MatchesComeLast(db.stock, ids, input.stock) ==> cells == Mismatches(db.stock, ids, input.stock))
        && (DistinctCells(input.stock) && AsksForChanges(input.stock) && cells == Mismatches(db.stock, ids, input.stock) ==>
              MatchesComeLast(db.stock, ids, input.stock))
      case Err(_) => true
  {
    if !IsValid(input) || Synced(db, input, new_).Err? {
      EarlyErrors(db, input, new_);
    } else {
      SaveAppliesChanges(db, input, new_);
      SyncLeavesStock(db, input, new_);
      SyncLeavesRows(db, input, new_);
      forall k | k in RowIds(db, input, new_) ensures RowIds(db, input, new_)[k] !in Gone(db, input, new_) {
        RowIdsSurvive(db, input, new_, k);
      }
      hide Save, RowIds, Synced, IsValid, Gone, Mismatches, DistinctCells, AsksForChanges, EachSawTheLast, MatchesComeLast, Held, AgreeOn;
      CommittedCells(db.stock, Synced(db, input, new_).value, Gone(db, input, new_), RowIds(db, input, new_), input.stock);
    }
  }

  /** applyStockChangesTx after variants gone were deleted from a stock. */
  lemma CommittedCells(stock: map<Cell, int>, db2: Db, gone: set<VariantId>, ids: map<Key, VariantId>, changes: seq<CellChange>)
    requires forall cell :: Stored(db2.stock, cell) == if cell.0 in gone then None else Stored(stock, cell)
    requires AgreeOn(db2.stock, stock, ids, changes) && forall k :: k in ids ==> ids[k] !in gone
    ensures match ApplyChanges(db2, ids, changes)
      case Err(e) => !e.StockChanged?
      case Ok((db3, conflicts)) =>
        && (conflicts == [] <==> EachSawTheLast(stock, ids, changes))
        && (conflicts == [] ==> forall cell: Cell ::
              Stored(db3.stock, cell) == if cell.0 in gone then None else Held(stock, ids, changes, cell))
        && (MatchesComeLast(stock, ids, changes) ==> conflicts == Mismatches(stock, ids, changes))
        && (DistinctCells(changes) && AsksForChanges(changes) && conflicts == Mismatches(stock, ids, changes) ==>
              MatchesComeLast(stock, ids, changes))
  {
    ApplyErrors(db2, ids, changes);
    MismatchesAgree(db2.stock, stock, ids, changes);
    TurnsAgree(db2.stock, stock, ids, changes);
    if ApplyChanges(db2, ids, changes).Ok? {
      ChangesAreIndependent(db2, ids, changes);
      TurnsDecide(db2, ids, changes);
      if DistinctCells(changes) && AsksForChanges(changes) { ConflictsAreStoredIff(db2, ids, changes); }
      forall cell: Cell ensures Held(db2.stock, ids, changes, cell) == if cell.0 in gone then None else Held(stock, ids, changes, cell) {
        if cell.0 in gone { HeldIsTyped(db2.stock, ids, changes, cell); } else { HeldAgree(db2.stock, stock, ids, changes, cell); }
      }
    }
    hide Mismatches, ApplyChanges, DistinctCells, AsksForChanges, EachSawTheLast, MatchesComeLast, Held, Stored;
  }

  lemma {:induction false} ApplyErrors(db: Db, ids: map<Key, VariantId>, changes: seq<CellChange>)
    ensures var r := ApplyChanges(db, ids, changes); r.Err? ==> !r.error.StockChanged?
    decreases |changes|
  {
    if changes != [] {
      var c := changes[0];
      if c.rowKey !in ids {
        ApplyErrors(db, ids, changes[1..]);
      } else if WriteCell(db, (ids[c.rowKey], c.pointId), c.qty, c.orig).Ok? {
        ApplyErrors(WriteCell(db, (ids[c.rowKey], c.pointId), c.qty, c.orig).value.0, ids, changes[1..]);
      }
    }
  }

  lemma {:induction false} WriteRowsErrors(db: Db, product: ProductId, rows: seq<VariantRow>, existing: set<VariantId>, ids: seq<VariantId>)
    requires |ids| == |rows|
    ensures var r := WriteRows(db, product, rows, existing, ids); r.Err? ==> r.error == VariantExists
    decreases |rows|
  {
    if rows != [] && WriteRow(db, product, rows[0], existing, ids[0]).Ok? {
      WriteRowsErrors(WriteRow(db, product, rows[0], existing, ids[0]).value, product, rows[1..], existing, ids[1..]);
    }
  }

  lemma EarlyErrors(db: Db, input: SaveInput, new_: NewIds)
    requires |new_.variants| == |input.variants| && (!IsValid(input) || Synced(db, input, new_).Err?)
    ensures Save(db, input, new_).Err? && !Save(db, input, new_).error.StockChanged?
  {
    if UpsertProduct(db, input, new_.product).Ok? {
      var (db1, product) := UpsertProduct(db, input, new_.product).value;
      var existing := Existing(db1, product);
      WriteRowsErrors(DeleteVariants(db1, existing - Kept(input.variants, existing)), product, input.variants, existing, new_.variants);
    }
  }

  /** What Save does once the variants are in place. */
  lemma SaveAppliesChanges(db: Db, input: SaveInput, new_: NewIds)
    requires |new_.variants| == |input.variants| && IsValid(input) && Synced(db, input, new_).Ok?
    ensures var r := ApplyChanges(Synced(db, input, new_).value, RowIds(db, input, new_), input.stock);
      Save(db, input, new_) ==
        match r
        case Err(e) => Err(e)
        case Ok((db3, conflicts)) =>
          if conflicts != [] then Err(StockChanged(conflicts))
          else Ok((ReplaceImages(db3, Target(input, new_), input.images), Target(input, new_)))
  {
    var (db1, product) := UpsertProduct(db, input, new_.product).value;
    assert Existing(db1, product) == Existing(db, product);
  }

  lemma {:induction false} WritableChangesApply(db: Db, ids: map<Key, VariantId>, changes: seq<CellChange>)
    requires forall c :: c in changes ==> c.qty >= 0 && c.pointId in db.points && (c.rowKey in ids ==> ids[c.rowKey] in db.variants)
    ensures ApplyChanges(db, ids, changes).Ok?
    decreases |changes|
  {
    if changes != [] {
      var c := changes[0];
      assert c in changes && forall d :: d in changes[1..] ==> d in changes;
      if c.rowKey !in ids { WritableChangesApply(db, ids, changes[1..]); }
      else { WritableChangesApply(WriteCell(db, (ids[c.rowKey], c.pointId), c.qty, c.orig).value.0, ids, changes[1..]); }
    }
  }

  lemma RowIdsStored(db: Db, input: SaveInput, new_: NewIds)
    requires |new_.variants| == |input.variants| && Synced(db, input, new_).Ok?
    ensures forall k :: k in RowIds(db, input, new_) ==> RowIds(db, input, new_)[k] in Synced(db, input, new_).value.variants
  {
    var (db1, product) := UpsertProduct(db, input, new_.product).value;
    var existing, rows, ids := Existing(db1, product), input.variants, new_.variants;
    assert existing == Existing(db, product);
    WriteRowsFrame(DeleteVariants(db1, existing - Kept(rows, existing)), product, rows, existing, ids);
    forall k | k in RowIds(db, input, new_) ensures RowIds(db, input, new_)[k] in Synced(db, input, new_).value.variants {
      var i := KeyRow(rows, existing, ids, ids, k);
    }
  }

  /** When nothing but stock can stand in the way, a save commits exactly when every change saw the last value of
      its cell. If no two changes are for one cell, that is: exactly when no changed cell moved; if two are, a
      form that asks for changes never commits over a table in which none moved. */
  lemma SaveCommitsIffNothingMoved(db: Db, input: SaveInput, new_: NewIds)
    requires |new_.variants| == |input.variants| && Drawn(db, new_)
    requires IsValid(input) && Synced(db, input, new_).Ok?
    requires forall c :: c in input.stock ==> c.qty >= 0 && c.pointId in db.points
    ensures var ids := RowIds(db, input, new_);
      && (Save(db, input, new_).Ok? <==> EachSawTheLast(db.stock, ids, input.stock))
      && (CellsApart(ids, input.stock) ==> (Save(db, input, new_).Ok? <==> Mismatches(db.stock, ids, input.stock) == []))
      && (AsksForChanges(input.stock) && !CellsApart(ids, input.stock) ==>
            !(Save(db, input, new_).Ok? && Mismatches(db.stock, ids, input.stock) == []))
  {
    SyncLeavesStock(db, input, new_);
    SyncLeavesRows(db, input, new_);
    RowIdsStored(db, input, new_);
    hide EachSawTheLast, CellsApart, AsksForChanges, Mismatches, RowIds, Synced, Save, AgreeOn, MatchesComeLast, Held;
    WritableChangesApply(Synced(db, input, new_).value, RowIds(db, input, new_), input.stock);
    SaveAppliesChanges(db, input, new_);
    TurnsDecide(Synced(db, input, new_).value, RowIds(db, input, new_), input.stock);
    TurnsAgree(Synced(db, input, new_).value.stock, db.stock, RowIds(db, input, new_), input.stock);
    TurnsAreStored(db.stock, RowIds(db, input, new_), input.stock);
    hide ApplyChanges;
  }

  /** A form whose rows never claim one stored variant twice, and that asks for each cell of each row once, keeps its
      cells apart. */
  lemma CellsStayApart(db: Db, input: SaveInput, new_: NewIds)
    requires |new_.variants| == |input.variants| && DistinctVariants(input.variants) && DistinctCells(input.stock) && Drawn(db, new_)
    ensures CellsApart(RowIds(db, input, new_), input.stock)
  {
    RowIdsInjective(db, input, new_);
    hide RowIds;
  }

  // ---- the variants of a saved product ----

  /** The override of a stored variant once these rows are written: that of the last row for it that sets one. */
  function PriceLeft(rows: seq<VariantRow>, id: VariantId, price: Option<int>): Option<int> {
    if rows == [] then price
    else PriceLeft(rows[1..], id, if rows[0].id == id && rows[0].priceSet then rows[0].price else price)
  }

  lemma {:induction false} PriceLeftIs(rows: seq<VariantRow>, id: VariantId, price: Option<int>)
    ensures (forall j :: 0 <= j < |rows| && rows[j].id == id ==> !rows[j].priceSet) ==> PriceLeft(rows, id, price) == price
    ensures (exists j :: 0 <= j < |rows| && rows[j].id == id && rows[j].priceSet) ==>
      exists j :: 0 <= j < |rows| && rows[j].id == id && rows[j].priceSet && PriceLeft(rows, id, price) == rows[j].price
                  && forall k :: j < k < |rows| && rows[k].id == id ==> !rows[k].priceSet
  {
    if rows != [] {
      var rest := rows[1..];
      assert forall j :: 0 <= j < |rest| ==> rest[j] == rows[j + 1];
      PriceLeftIs(rest, id, if rows[0].id == id && rows[0].priceSet then rows[0].price else price);
      if j :| 0 <= j < |rest| && rest[j].id == id && rest[j].priceSet && PriceLeft(rows, id, price) == rest[j].price
              && forall k :: j < k < |rest| && rest[k].id == id ==> !rest[k].priceSet {
        assert rows[j + 1] == rest[j] && forall k :: j + 1 < k < |rows| ==> rows[k] == rest[k - 1];
      }
    }
  }

  /** What the last row for a variant leaves stored: an existing variant keeps its sku, and its price unless a
      row sets it. */
  function RowContent(db: Db, product: ProductId, rows: seq<VariantRow>, row: VariantRow, existing: set<VariantId>): Variant {
    if row.id != "" && row.id in existing && row.id in db.variants then
      db.variants[row.id].(size := row.size, color := row.color, price := PriceLeft(rows, row.id, db.variants[row.id].price))
    else Variant(product, row.size, row.color, None, row.price)
  }

  /** No later row is for the same variant. */
  ghost predicate IsLast(rows: seq<VariantRow>, existing: set<VariantId>, ids: seq<VariantId>, i: nat)
    requires |ids| == |rows| && i < |rows|
  {
    forall j :: i < j < |rows| ==> RowId(rows[j], existing, ids[j]) != RowId(rows[i], existing, ids[i])
  }

  /** Distinct ids that no existing variant has. */
  ghost predicate Fresh(ids: seq<VariantId>, existing: set<VariantId>) {
    && (forall j :: 0 <= j < |ids| ==> ids[j] !in existing)
    && (forall i, j :: 0 <= i < j < |ids| ==> ids[i] != ids[j])
  }

  lemma ContentAfterFirst(db: Db, product: ProductId, rows: seq<VariantRow>, existing: set<VariantId>, ids: seq<VariantId>, i: nat)
    requires |ids| == |rows| && 0 < i < |rows| && Fresh(ids, existing)
    requires forall j :: 0 <= j < |rows| && rows[j].id != "" && rows[j].id in existing ==> rows[j].id in db.variants
    requires WriteRow(db, product, rows[0], existing, ids[0]).Ok?
    ensures RowContent(WriteRow(db, product, rows[0], existing, ids[0]).value, product, rows[1..], rows[i], existing)
         == RowContent(db, product, rows, rows[i], existing)
  {
    hide Clashes;
  }

  lemma ContentOfLast(db: Db, product: ProductId, rows: seq<VariantRow>, existing: set<VariantId>, ids: seq<VariantId>)
    requires |ids| == |rows| && rows != [] && Fresh(ids, existing) && IsLast(rows, existing, ids, 0)
    requires rows[0].id != "" && rows[0].id in existing ==> rows[0].id in db.variants
    requires WriteRow(db, product, rows[0], existing, ids[0]).Ok?
    ensures var id := RowId(rows[0], existing, ids[0]);
      var next := WriteRow(db, product, rows[0], existing, ids[0]).value;
      id in next.variants && next.variants[id] == RowContent(db, product, rows, rows[0], existing)
  {
    hide Clashes;
    var row, rest := rows[0], rows[1..];
    if row.id != "" && row.id in existing {
      forall j | 0 <= j < |rest| ensures rest[j].id != row.id {
        assert rest[j] == rows[j + 1];
      }
      var price := db.variants[row.id].price;
      PriceLeftIs(rest, row.id, if row.priceSet then row.price else price);
    }
  }

  lemma {:induction false} WriteRowsContent(db: Db, product: ProductId, rows: seq<VariantRow>, existing: set<VariantId>,
                                            ids: seq<VariantId>, i: nat)
    requires |ids| == |rows| && i < |rows| && Fresh(ids, existing) && IsLast(rows, existing, ids, i)
    requires forall j :: 0 <= j < |rows| && rows[j].id != "" && rows[j].id in existing ==> rows[j].id in db.variants
    requires WriteRows(db, product, rows, existing, ids).Ok?
    ensures var db' := WriteRows(db, product, rows, existing, ids).value;
      var id := RowId(rows[i], existing, ids[i]);
      id in db'.variants && db'.variants[id] == RowContent(db, product, rows, rows[i], existing)
    decreases |rows|
  {
    var next := WriteRow(db, product, rows[0], existing, ids[0]).value;
    assert forall j :: 0 <= j < |rows| - 1 ==> rows[1..][j] == rows[j + 1] && ids[1..][j] == ids[j + 1];
    if i == 0 {
      WriteRowsFrame(next, product, rows[1..], existing, ids[1..]);
      ContentOfLast(db, product, rows, existing, ids);
    } else {
      assert db.variants.Keys <= next.variants.Keys;
      hide WriteRow, RowContent;
      WriteRowsContent(next, product, rows[1..], existing, ids[1..], i - 1);
      ContentAfterFirst(db, product, rows, existing, ids, i);
    }
  }

  lemma {:induction false} ApplyTouchesStockOnly(db: Db, ids: map<Key, VariantId>, changes: seq<CellChange>)
    requires ApplyChanges(db, ids, changes).Ok?
    ensures var db' := ApplyChanges(db, ids, changes).value.0; db' == db.(stock := db'.stock)
    decreases |changes|
  {
    if changes != [] {
      var c := changes[0];
      if c.rowKey !in ids { ApplyTouchesStockOnly(db, ids, changes[1..]); }
      else { ApplyTouchesStockOnly(WriteCell(db, (ids[c.rowKey], c.pointId), c.qty, c.orig).value.0, ids, changes[1..]); }
    }
  }

  /** syncVariantsTx leaves the product with exactly the submitted variants, each as the last row for it says, and
      every variant of other products as it was. */
  lemma SyncStoresRows(db: Db, product: ProductId, rows: seq<VariantRow>, ids: seq<VariantId>)
    requires |ids| == |rows| && Fresh(ids, db.variants.Keys) && SyncVariants(db, product, rows, ids).Ok?
    ensures var db', existing := SyncVariants(db, product, rows, ids).value, Existing(db, product);
      && db' == db.(variants := db'.variants, stock := db'.stock)
      && (forall i :: 0 <= i < |rows| && IsLast(rows, existing, ids, i) ==>
            var id := RowId(rows[i], existing, ids[i]);
            id in db'.variants && db'.variants[id] == RowContent(db, product, rows, rows[i], existing))
      && (forall v :: v in db'.variants && db'.variants[v].product == product ==>
            exists i :: 0 <= i < |rows| && IsLast(rows, existing, ids, i) && v == RowId(rows[i], existing, ids[i]))
      && (forall v :: v in db.variants && db.variants[v].product != product ==> v in db'.variants && db'.variants[v] == db.variants[v])
  {
    var existing := Existing(db, product);
    var kept := DeleteVariants(db, existing - Kept(rows, existing));
    WriteRowsFrame(kept, product, rows, existing, ids);
    hide WriteRows, IsLast;
    var db' := SyncVariants(db, product, rows, ids).value;
    forall i | 0 <= i < |rows| && IsLast(rows, existing, ids, i)
      ensures var id := RowId(rows[i], existing, ids[i]);
        id in db'.variants && db'.variants[id] == RowContent(db, product, rows, rows[i], existing)
    {
      KeptRows(db, product, rows);
      WriteRowsContent(kept, product, rows, existing, ids, i);
      assert rows[i] in rows;
    }
    OnlyRowsRemain(kept, db', product, rows, existing, ids);
    hide RowId, RowContent;
    forall v | v in db'.variants && db'.variants[v].product == product
      ensures exists i :: 0 <= i < |rows| && IsLast(rows, existing, ids, i) && v == RowId(rows[i], existing, ids[i])
    {
      var j :| 0 <= j < |rows| && v == RowId(rows[j], existing, ids[j]);
      var i := LastFor(rows, existing, ids, j);
    }
  }

  lemma KeptRows(db: Db, product: ProductId, rows: seq<VariantRow>)
    ensures var existing := Existing(db, product);
      forall j :: 0 <= j < |rows| && rows[j].id in existing && rows[j].id != "" ==>
        rows[j].id in DeleteVariants(db, existing - Kept(rows, existing)).variants
  {
    assert forall j :: 0 <= j < |rows| ==> rows[j] in rows;
  }

  /** The last row for the variant of a row. */
  lemma {:induction false} LastFor(rows: seq<VariantRow>, existing: set<VariantId>, ids: seq<VariantId>, j: nat) returns (i: nat)
    requires |ids| == |rows| && j < |rows|
    ensures j <= i < |rows| && IsLast(rows, existing, ids, i) && RowId(rows[i], existing, ids[i]) == RowId(rows[j], existing, ids[j])
    decreases |rows| - j
  {
    hide RowId;
    if k :| j < k < |rows| && RowId(rows[k], existing, ids[k]) == RowId(rows[j], existing, ids[j]) {
      i := LastFor(rows, existing, ids, k);
    } else {
      i := j;
    }
  }

  lemma OnlyRowsRemain(kept: Db, db': Db, product: ProductId, rows: seq<VariantRow>, existing: set<VariantId>, ids: seq<VariantId>)
    requires |ids| == |rows|
    requires forall v :: v in kept.variants && kept.variants[v].product == product ==> v in Kept(rows, existing)
    requires forall v :: v in db'.variants && (v !in kept.variants || db'.variants[v] != kept.variants[v]) ==>
      exists i :: 0 <= i < |rows| && v == RowId(rows[i], existing, ids[i])
    ensures forall v :: v in db'.variants && db'.variants[v].product == product ==>
      exists i :: 0 <= i < |rows| && v == RowId(rows[i], existing, ids[i])
  {
    forall v | v in db'.variants && db'.variants[v].product == product
      ensures exists i :: 0 <= i < |rows| && v == RowId(rows[i], existing, ids[i])
    {
      if v in kept.variants && db'.variants[v] == kept.variants[v] {
        var r :| r in rows && r.id != "" && r.id in existing && r.id == v;
        var i :| 0 <= i < |rows| && rows[i] == r;
        assert v == RowId(rows[i], existing, ids[i]);
      }
    }
  }

  lemma SameContent(db: Db, db1: Db, product: ProductId, rows: seq<VariantRow>)
    requires db1.variants == db.variants
    ensures forall i :: 0 <= i < |rows| ==>
      RowContent(db1, product, rows, rows[i], Existing(db, product)) == RowContent(db, product, rows, rows[i], Existing(db, product))
  {
  }

  /** A committed save leaves the product, its variants and its photos exactly as submitted, the last row for a
      variant deciding, and every variant of other products as it was. */
  lemma SaveStoresRows(db: Db, input: SaveInput, new_: NewIds)
    requires |new_.variants| == |input.variants| && Drawn(db, new_) && Save(db, input, new_).Ok?
    ensures var db', product, rows, ids := Save(db, input, new_).value.0, Target(input, new_), input.variants, new_.variants;
      var existing := Existing(db, product);
      && (forall i :: 0 <= i < |rows| && IsLast(rows, existing, ids, i) ==>
            var id := RowId(rows[i], existing, ids[i]);
            id in db'.variants && db'.variants[id] == RowContent(db, product, rows, rows[i], existing))
      && (forall v :: v in db'.variants && db'.variants[v].product == product ==>
            exists i :: 0 <= i < |rows| && IsLast(rows, existing, ids, i) && v == RowId(rows[i], existing, ids[i]))
      && (forall v :: v in db.variants && db.variants[v].product != product ==> v in db'.variants && db'.variants[v] == db.variants[v])
      && product in db'.products && db'.products[product] == input.product
      && product in db'.images && db'.images[product] == input.images
  {
    var product := Target(input, new_);
    var db1 := UpsertProduct(db, input, new_.product).value.0;
    assert Existing(db1, product) == Existing(db, product);
    SaveAppliesChanges(db, input, new_);
    var db2 := Synced(db, input, new_).value;
    ApplyTouchesStockOnly(db2, RowIds(db, input, new_), input.stock);
    var db' := Save(db, input, new_).value.0;
    assert db'.variants == db2.variants && db'.products == db2.products && SyncVariants(db1, product, input.variants, new_.variants) == Ok(db2);
    assert Fresh(new_.variants, db1.variants.Keys);
    hide Save, SyncVariants, ApplyChanges, RowId, RowContent, IsLast, Fresh;
    SyncStoresRows(db1, product, input.variants, new_.variants);
    SameContent(db, db1, product, input.variants);
  }
}
