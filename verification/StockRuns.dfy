/** Everything that writes stock, over whole runs: sales and restocks (internal/orders/order.go,
    lifecycle.go), the quantity endpoint (internal/httpapi/admin_catalog_stock.go) and the product form. */
module StockRuns {
  import opened Wrappers
  import opened ProductStore

  datatype SetError = BadQuantity | BadExpected | Changed(current: int) | NotFound

  function Quantity(db: Db, cell: Cell): int {
    if cell in db.stock then db.stock[cell] else 0
  }

  /** adminStockStore.Set: lock the cell, compare, write. */
  function Set(db: Db, cell: Cell, quantity: int, expected: Option<int>): Result<Db, SetError> {
    if quantity < 0 then Err(BadQuantity)
    else if expected.Some? && expected.value < 0 then Err(BadExpected)
    else if expected.Some? && expected.value != Quantity(db, cell) then Err(Changed(Quantity(db, cell)))
    else if cell in db.stock then Ok(db.(stock := db.stock[cell := quantity]))
    else if cell.0 !in db.variants || cell.1 !in db.points then Err(NotFound)
    else Ok(db.(stock := db.stock[cell := quantity]))
  }

  /** lockAndDecrementStock for one line. */
  function Sell(db: Db, cell: Cell, n: nat): Option<Db> {
    if cell in db.stock && db.stock[cell] >= n then Some(db.(stock := db.stock[cell := db.stock[cell] - n])) else None
  }

  /** The restock of a cancelled order, for one line. */
  function Restock(db: Db, cell: Cell, n: nat): Option<Db> {
    if cell in db.stock then Some(db.(stock := db.stock[cell := db.stock[cell] + n]))
    else if cell.0 in db.variants && cell.1 in db.points then Some(db.(stock := db.stock[cell := n]))
    else None
  }

  /** seen: the quantity that the author of an unchecked set had in view. */
  datatype Event =
    | Sale(cell: Cell, n: nat)
    | Return(cell: Cell, n: nat)
    | SetChecked(cell: Cell, quantity: int, expected: int)
    | SetUnchecked(cell: Cell, quantity: int, seen: int)
    | FormSave(input: SaveInput, new_: NewIds)

  ghost predicate Proper(db: Db, e: Event) {
    e.FormSave? ==> |e.new_.variants| == |e.input.variants| && Drawn(db, e.new_)
  }

  /** What the event commits, if it is not refused. */
  function Outcome(db: Db, e: Event): Option<Db>
    requires e.FormSave? ==> |e.new_.variants| == |e.input.variants|
  {
    match e
    case Sale(cell, n) => Sell(db, cell, n)
    case Return(cell, n) => Restock(db, cell, n)
    case SetChecked(cell, quantity, expected) =>
      (match Set(db, cell, quantity, Some(expected)) case Ok(db') => Some(db') case Err(_) => None)
    case SetUnchecked(cell, quantity, _) =>
      (match Set(db, cell, quantity, None) case Ok(db') => Some(db') case Err(_) => None)
    case FormSave(input, new_) =>
      (match Save(db, input, new_) case Ok((db', _)) => Some(db') case Err(_) => None)
  }

  /** The change to a cell that the author of the event meant, judged by what they saw. */
  function Intended(db: Db, e: Event, cell: Cell): int
    requires e.FormSave? ==> |e.new_.variants| == |e.input.variants|
  {
    match e
    case Sale(c, n) => if c == cell then 0 - n else 0
    case Return(c, n) => if c == cell then n else 0
    case SetChecked(c, quantity, expected) => if c == cell then quantity - expected else 0
    case SetUnchecked(c, quantity, seen) => if c == cell then quantity - seen else 0
    case FormSave(input, new_) => Typed(RowIds(db, input, new_), input.stock, cell)
  }

  function Typed(ids: map<Key, VariantId>, changes: seq<CellChange>, cell: Cell): int {
    if changes == [] then 0
    else
      var c := changes[0];
      (if c.rowKey in ids && (ids[c.rowKey], c.pointId) == cell then c.qty - (if c.orig.Some? then c.orig.value else 0) else 0)
        + Typed(ids, changes[1..], cell)
  }

  function Pieces(held: Option<int>): int {
    if held.Some? then held.value else 0
  }

  /** When every change took its turn, what a cell holds in the end is what it held plus all that was typed,
      whether or not rows share the cell. */
  lemma {:induction false} TurnsAddUp(stock: map<Cell, int>, ids: map<Key, VariantId>, changes: seq<CellChange>, cell: Cell)
    requires EachSawTheLast(stock, ids, changes)
    ensures Pieces(Held(stock, ids, changes, cell)) == Pieces(Stored(stock, cell)) + Typed(ids, changes, cell)
    decreases |changes|
  {
    if changes != [] {
      TurnsAfterFirst(stock, ids, changes);
      HeldAfterFirst(stock, ids, changes, cell);
      hide EachSawTheLast, Held;
      TurnsAddUp(Put(stock, ids, changes[0]), ids, changes[1..], cell);
    }
  }

  /** How far off an unchecked set was about the cell it overwrites. */
  function Drift(db: Db, e: Event, cell: Cell): int {
    if e.SetUnchecked? && e.cell == cell then e.seen - Quantity(db, cell) else 0
  }

  /** One committed event moves every cell of a surviving variant by exactly what its author meant; only an
      unchecked set is off, by what its author did not see. */
  lemma EventMovesAsIntended(db: Db, e: Event, cell: Cell)
    requires Proper(db, e) && Outcome(db, e).Some?
    requires e.FormSave? ==> cell.0 !in Gone(db, e.input, e.new_)
    ensures Quantity(Outcome(db, e).value, cell) == Quantity(db, cell) + Intended(db, e, cell) + Drift(db, e, cell)
    ensures Quantity(Outcome(db, e).value, cell) == Quantity(db, cell) + Intended(db, e, cell) <==>
      !(e.SetUnchecked? && e.cell == cell) || e.seen == Quantity(db, cell)
  {
    if e.FormSave? {
      SaveIsCompareAndSet(db, e.input, e.new_);
      hide Save, Typed, RowIds, Gone, EachSawTheLast, Held, Drawn;
      TurnsAddUp(db.stock, RowIds(db, e.input, e.new_), e.input.stock, cell);
      assert Stored(Outcome(db, e).value.stock, cell) == Held(db.stock, RowIds(db, e.input, e.new_), e.input.stock, cell);
    }
  }

  /** A refused event changes nothing. */
  function After(db: Db, e: Event): Db
    requires e.FormSave? ==> |e.new_.variants| == |e.input.variants|
  {
    if Outcome(db, e).Some? then Outcome(db, e).value else db
  }

  ghost predicate IsRun(dbs: seq<Db>, events: seq<Event>) {
    && |dbs| == |events| + 1
    && forall k :: 0 <= k < |events| ==> Proper(dbs[k], events[k]) && dbs[k + 1] == After(dbs[k], events[k])
  }

  /** No committed form save dropped the variant. */
  ghost predicate Survives(dbs: seq<Db>, events: seq<Event>, v: VariantId)
    requires IsRun(dbs, events)
  {
    forall k :: 0 <= k < |events| && events[k].FormSave? && Outcome(dbs[k], events[k]).Some? ==>
      v !in Gone(dbs[k], events[k].input, events[k].new_)
  }

  /** The sum of what the authors of all committed events meant for the cell. */
  ghost function Sum(dbs: seq<Db>, events: seq<Event>, cell: Cell): int
    requires IsRun(dbs, events)
    decreases |events|
  {
    if events == [] then 0
    else
      var n := |events| - 1;
      Sum(dbs[..n + 1], events[..n], cell) + if Outcome(dbs[n], events[n]).Some? then Intended(dbs[n], events[n], cell) else 0
  }

  /** What the unchecked sets of a run were off by, in all. */
  ghost function Drifts(dbs: seq<Db>, events: seq<Event>, cell: Cell): int
    requires IsRun(dbs, events)
    decreases |events|
  {
    if events == [] then 0
    else
      var n := |events| - 1;
      Drifts(dbs[..n + 1], events[..n], cell) + if Outcome(dbs[n], events[n]).Some? then Drift(dbs[n], events[n], cell) else 0
  }

  /** After any mix of sales, restocks, sets and form saves a cell holds what it held, plus every committed
      change, each counted from the value its author saw, plus what the unchecked sets were off by. */
  lemma {:induction false} RunAddsUp(dbs: seq<Db>, events: seq<Event>, cell: Cell)
    requires IsRun(dbs, events) && Survives(dbs, events, cell.0)
    ensures Quantity(dbs[|events|], cell) == Quantity(dbs[0], cell) + Sum(dbs, events, cell) + Drifts(dbs, events, cell)
    decreases |events|
  {
    if events != [] {
      var n := |events| - 1;
      var dbs0, events0 := dbs[..n + 1], events[..n];
      assert IsRun(dbs0, events0);
      forall k | 0 <= k < n && events0[k].FormSave? && Outcome(dbs0[k], events0[k]).Some?
        ensures cell.0 !in Gone(dbs0[k], events0[k].input, events0[k].new_)
      {
        assert events[k] == events0[k] && dbs[k] == dbs0[k];
      }
      RunAddsUp(dbs0, events0, cell);
      assert dbs[n + 1] == After(dbs[n], events[n]);
      if Outcome(dbs[n], events[n]).Some? {
        hide Outcome, Intended, Gone, Drift;
        EventMovesAsIntended(dbs[n], events[n], cell);
      }
    }
  }

  /** No checked write ever loses an update: without unchecked sets of the cell it holds what it held, plus
      every committed change, each counted from the value its author saw. */
  lemma NoUpdateIsLost(dbs: seq<Db>, events: seq<Event>, cell: Cell)
    requires IsRun(dbs, events) && Survives(dbs, events, cell.0)
    requires forall k :: 0 <= k < |events| ==> !(events[k].SetUnchecked? && events[k].cell == cell)
    ensures Quantity(dbs[|events|], cell) == Quantity(dbs[0], cell) + Sum(dbs, events, cell)
  {
    RunAddsUp(dbs, events, cell);
    NothingDrifts(dbs, events, cell);
  }

  lemma {:induction false} NothingDrifts(dbs: seq<Db>, events: seq<Event>, cell: Cell)
    requires IsRun(dbs, events) && forall k :: 0 <= k < |events| ==> !(events[k].SetUnchecked? && events[k].cell == cell)
    ensures Drifts(dbs, events, cell) == 0
    decreases |events|
  {
    hide Outcome;
    if events != [] { NothingDrifts(dbs[..|events|], events[..|events| - 1], cell); }
  }

  /** A set made without an expected quantity, after n pieces were sold behind its author's back: it commits and
      the sale is lost, unless n is 0; with the quantity its author saw it is refused. */
  lemma UncheckedSetLosesASale(db: Db, cell: Cell, n: nat, quantity: nat)
    requires cell in db.stock && db.stock[cell] >= n
    ensures Sell(db, cell, n).Some?
    ensures var sold, seen := Sell(db, cell, n).value, Quantity(db, cell);
      && Set(sold, cell, quantity, None).Ok?
      && Quantity(Set(sold, cell, quantity, None).value, cell)
           == Quantity(db, cell) + Intended(db, Sale(cell, n), cell) + Intended(sold, SetUnchecked(cell, quantity, seen), cell) + n
      && (n > 0 ==> Set(sold, cell, quantity, Some(seen)) == Err(Changed(seen - n)))
  {
  }

  // ---- the schema's promises survive ----

  lemma {:induction false} ApplyKeepsStockOk(db: Db, ids: map<Key, VariantId>, changes: seq<CellChange>)
    requires DbOk(db) && ApplyChanges(db, ids, changes).Ok?
    ensures DbOk(ApplyChanges(db, ids, changes).value.0)
    decreases |changes|
  {
    if changes != [] {
      var c := changes[0];
      if c.rowKey !in ids { ApplyKeepsStockOk(db, ids, changes[1..]); }
      else { ApplyKeepsStockOk(WriteCell(db, (ids[c.rowKey], c.pointId), c.qty, c.orig).value.0, ids, changes[1..]); }
    }
  }

  lemma {:induction false} WriteRowsKeepOk(db: Db, product: ProductId, rows: seq<VariantRow>, existing: set<VariantId>, ids: seq<VariantId>)
    requires |ids| == |rows| && DbOk(db) && product in db.products && WriteRows(db, product, rows, existing, ids).Ok?
    requires forall i :: 0 <= i < |ids| ==> ids[i] != ""
    ensures DbOk(WriteRows(db, product, rows, existing, ids).value)
    decreases |rows|
  {
    if rows != [] {
      WriteRowsKeepOk(WriteRow(db, product, rows[0], existing, ids[0]).value, product, rows[1..], existing, ids[1..]);
    }
  }

  lemma SaveKeepsOk(db: Db, input: SaveInput, new_: NewIds)
    requires |new_.variants| == |input.variants| && DbOk(db) && Drawn(db, new_) && Save(db, input, new_).Ok?
    ensures DbOk(Save(db, input, new_).value.0)
  {
    var (db1, product) := UpsertProduct(db, input, new_.product).value;
    var existing := Existing(db1, product);
    WriteRowsKeepOk(DeleteVariants(db1, existing - Kept(input.variants, existing)), product, input.variants, existing, new_.variants);
    var db2 := SyncVariants(db1, product, input.variants, new_.variants).value;
    ApplyKeepsStockOk(db2, IdByKey(input.variants, existing, new_.variants), input.stock);
  }

  /** No run ever stores a negative quantity, or stock of a variant or at a point that does not exist. */
  lemma {:induction false} RunKeepsOk(dbs: seq<Db>, events: seq<Event>, k: nat)
    requires IsRun(dbs, events) && DbOk(dbs[0]) && k < |dbs|
    ensures DbOk(dbs[k])
    decreases k
  {
    hide *;
    if k > 0 {
      StepOfRun(dbs, events, k - 1);
      RunKeepsOk(dbs, events, k - 1);
      EventKeepsOk(dbs[k - 1], events[k - 1]);
    }
  }

  lemma StepOfRun(dbs: seq<Db>, events: seq<Event>, k: nat)
    requires IsRun(dbs, events)
    ensures |dbs| == |events| + 1
    ensures k < |events| ==> Proper(dbs[k], events[k]) && dbs[k + 1] == After(dbs[k], events[k])
  {
    hide After, Proper;
  }

  lemma EventKeepsOk(db: Db, e: Event)
    requires DbOk(db) && Proper(db, e)
    ensures DbOk(After(db, e))
  {
    if e.FormSave? {
      if Save(db, e.input, e.new_).Ok? { SaveKeepsOk(db, e.input, e.new_); }
      hide Save, DbOk;
    }
  }
}
