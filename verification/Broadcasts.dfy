/** The promo-push worker of internal/broadcasts/worker.go, followed through one broadcast.

    The worker pages through device_tokens by id, sends a batch, and commits the batch's counters
    together with the new cursor. It may be stopped between batches, fail on any store call, or crash
    anywhere; a restart resumes from the committed cursor. Everybody else (registrations, opt-outs,
    account deletions, other broadcasts) may change the device table between any two steps. */
module Broadcasts {
  import opened Wrappers

  const MAX_ATTEMPT_ERRORS := 5

  /** device_tokens.id; only its order matters. */
  type Id = int

  /** eligible: the owner kept promo_push on and is not deleted. */
  datatype Device = Device(token: string, eligible: bool)

  datatype Target = Target(id: Id, token: string)

  datatype Status = Queued | Sending | Done | Failed

  /** The columns of the broadcasts row that the worker reads or writes. */
  datatype Row = Row(status: Status, targets: nat, sent: nat, failed: nat, invalidRemoved: nat, cursor: Option<Id>)

  datatype Outcome = Delivered | InvalidToken | SendError

  datatype BatchResult = BatchResult(sent: nat, failed: nat, invalidRemoved: nat, cursor: Id)

  // ---- the device table ----

  /** fcm_token is UNIQUE, and registration upserts by it. */
  predicate UniqueTokens(devices: map<Id, Device>) {
    forall i, j :: i in devices && j in devices && i != j ==> devices[i].token != devices[j].token
  }

  function Audience(devices: map<Id, Device>): set<Id> {
    set i | i in devices && devices[i].eligible
  }

  predicate After(cursor: Option<Id>, id: Id) {
    cursor.None? || id > cursor.value
  }

  /** What NextTargets may answer: the first limit eligible devices after the cursor, by id. */
  ghost predicate IsPage(devices: map<Id, Device>, cursor: Option<Id>, limit: nat, page: seq<Target>)
    requires limit > 0
  {
    && |page| <= limit
    && (forall k :: 0 <= k < |page| ==>
          page[k].id in devices && devices[page[k].id] == Device(page[k].token, true) && After(cursor, page[k].id))
    && (forall j, k :: 0 <= j < k < |page| ==> page[j].id < page[k].id)
    && (forall i | i in Audience(devices) && After(cursor, i) ::
          |page| < limit || i <= page[|page| - 1].id ==> i in Ids(page))
  }

  function Ids(page: seq<Target>): set<Id> {
    set k | 0 <= k < |page| :: page[k].id
  }

  function WithoutTokens(devices: map<Id, Device>, tokens: set<string>): map<Id, Device> {
    map i | i in devices && devices[i].token !in tokens :: devices[i]
  }

  function Recorded(row: Row, res: BatchResult): Row {
    row.(sent := row.sent + res.sent, failed := row.failed + res.failed,
         invalidRemoved := row.invalidRemoved + res.invalidRemoved, cursor := Some(res.cursor))
  }

  // ---- the batch in flight ----

  function InvalidOf(batch: seq<Target>, outcomes: map<Id, Outcome>): set<string> {
    set k | 0 <= k < |batch| && batch[k].id in outcomes && outcomes[batch[k].id] == InvalidToken :: batch[k].token
  }

  function WithOutcome(outcomes: map<Id, Outcome>, o: Outcome): set<Id> {
    set i | i in outcomes && outcomes[i] == o
  }

  function ResultOf(batch: seq<Target>, outcomes: map<Id, Outcome>): BatchResult
    requires batch != []
  {
    BatchResult(|WithOutcome(outcomes, Delivered)|, |WithOutcome(outcomes, SendError)|,
                |WithOutcome(outcomes, InvalidToken)|, batch[|batch| - 1].id)
  }

  // ---- the step system ----

  /** Where the worker process stands; all of it is lost in a crash. */
  datatype Worker =
    | Idle
    | Between(cursor: Option<Id>)
    | InFlight(cursor: Option<Id>, batch: seq<Target>, outcomes: map<Id, Outcome>)
    | Finishing

  /** The last five fields are bookkeeping the program does not have: the audience when sending
      started, those of it that stayed eligible since, the devices of committed batches, every send,
      and, per device, how many of its batches were sent (or begun) but never committed. */
  datatype Sys = Sys(devices: map<Id, Device>, row: Row, worker: Worker, errors: nat,
                     audience: set<Id>, stayed: set<Id>, recorded: set<Id>,
                     sends: multiset<Id>, lost: multiset<Id>)

  /** counted: the failure was not caused by a shutdown, so it counts against the broadcast. */
  datatype Event =
    | MarkSending
    | Resume
    | LoadPage(limit: nat, page: seq<Target>)
    | Send(id: Id, outcome: Outcome)
    | RecordBatch
    | RecordFails(counted: bool)
    | Finish
    | StoreFails(counted: bool)
    | GiveUp
    | Stop
    | Crash
    | Others(devices: map<Id, Device>)

  ghost function Commit(s: Sys, batch: seq<Target>, outcomes: map<Id, Outcome>): Sys
    requires batch != []
  {
    var res := ResultOf(batch, outcomes);
    var devices := WithoutTokens(s.devices, InvalidOf(batch, outcomes));
    s.(devices := devices, row := Recorded(s.row, res), worker := Between(Some(res.cursor)), errors := 0,
       stayed := s.stayed * Audience(devices), recorded := s.recorded + Ids(batch))
  }

  /** Losing the batch in flight, if there is one. */
  ghost function Abandon(s: Sys): Sys {
    s.(worker := Idle,
       lost := if s.worker.InFlight? then s.lost + multiset(Ids(s.worker.batch)) else s.lost)
  }

  ghost predicate Next(s: Sys, e: Event, s': Sys) {
    match e
    case MarkSending =>
      && s.worker.Idle? && s.row.status == Queued
      && var now := Audience(s.devices);
         s' == s.(row := s.row.(status := Sending, targets := |now|), worker := Between(s.row.cursor),
                  audience := now, stayed := now)
    case Resume =>
      && s.worker.Idle? && s.row.status == Sending
      && s' == s.(worker := Between(s.row.cursor))
    case LoadPage(limit, page) =>
      && s.worker.Between? && limit > 0 && IsPage(s.devices, s.worker.cursor, limit, page)
      && s' == s.(worker := if page == [] then Finishing else InFlight(s.worker.cursor, page, map[]))
    case Send(id, outcome) =>
      && s.worker.InFlight? && id in Ids(s.worker.batch) && id !in s.worker.outcomes
      && s' == s.(worker := s.worker.(outcomes := s.worker.outcomes[id := outcome]), sends := s.sends + multiset{id})
    case RecordBatch =>
      && s.worker.InFlight? && s.worker.outcomes.Keys == Ids(s.worker.batch) && s.worker.batch != []
      && s' == Commit(s, s.worker.batch, s.worker.outcomes)
    case RecordFails(counted) =>
      && s.worker.InFlight? && s.worker.outcomes.Keys == Ids(s.worker.batch)
      && s' == Abandon(s).(errors := if counted then s.errors + 1 else s.errors)
    case Finish =>
      && s.worker.Finishing?
      && s' == s.(row := s.row.(status := Done), worker := Idle, errors := 0)
    case StoreFails(counted) =>
      && !s.worker.InFlight?
      && (s.worker.Idle? ==> s.row.status == Queued)
      && s' == s.(worker := Idle, errors := if counted then s.errors + 1 else s.errors)
    case GiveUp =>
      && s.worker.Idle? && s.errors >= MAX_ATTEMPT_ERRORS && s.row.status in {Queued, Sending}
      && s' == s.(row := s.row.(status := Failed), errors := 0)
    case Stop =>
      && s.worker.Between?
      && s' == s.(worker := Idle)
    case Crash =>
      s' == Abandon(s).(errors := 0)
    case Others(devices) =>
      && UniqueTokens(devices)
      && s' == s.(devices := devices, stayed := s.stayed * Audience(devices))
  }

  ghost predicate Initial(s: Sys) {
    && UniqueTokens(s.devices)
    && s.row == Row(Queued, 0, 0, 0, 0, None)
    && s.worker == Idle && s.errors == 0
    && s.audience == s.stayed == s.recorded == {}
    && s.sends == s.lost == multiset{}
  }

  // ---- what every step keeps ----

  function Total(row: Row): nat { row.sent + row.failed + row.invalidRemoved }

  ghost predicate BatchOk(s: Sys) {
    s.worker.InFlight? ==>
      var b, o := s.worker.batch, s.worker.outcomes;
      && b != []
      && s.worker.cursor == s.row.cursor
      && (forall k :: 0 <= k < |b| ==> After(s.row.cursor, b[k].id))
      && (forall j, k :: 0 <= j < k < |b| ==> b[j].id < b[k].id)
      && o.Keys <= Ids(b)
      && (forall i :: i in s.stayed && After(s.row.cursor, i) && i <= b[|b| - 1].id ==> i in Ids(b))
  }

  /** The counters count the recorded devices, and the cursor is past exactly those that stayed. */
  ghost predicate CursorOk(s: Sys) {
    && Total(s.row) == |s.recorded|
    && (forall i :: i in s.recorded ==> !After(s.row.cursor, i))
    && (forall i :: i in s.stayed && !After(s.row.cursor, i) ==> i in s.recorded)
    && (s.row.status == Done ==> s.stayed <= s.recorded)
    && (s.worker.Finishing? ==> forall i :: i in s.stayed ==> !After(s.row.cursor, i))
  }

  ghost predicate AudienceOk(s: Sys) {
    && UniqueTokens(s.devices)
    && s.stayed <= s.audience && s.stayed <= Audience(s.devices)
    && s.row.targets == |s.audience|
  }

  ghost predicate WorkerOk(s: Sys) {
    && (s.row.status == Queued ==> s.row.cursor == None && s.audience == {} && s.worker.Idle?)
    && (s.worker.Between? ==> s.worker.cursor == s.row.cursor)
    && (!s.worker.Idle? ==> s.row.status == Sending)
  }

  ghost predicate Inv(s: Sys) {
    CursorOk(s) && AudienceOk(s) && WorkerOk(s) && BatchOk(s) && SendsOk(s)
  }

  /** A device is sent to once for its committed batch, at most once for each batch that was lost, and
      at most once so far for the batch in flight. */
  ghost predicate SendsOk(s: Sys) {
    forall i: Id ::
      && s.sends[i] <= (if i in s.recorded then 1 else 0) + s.lost[i]
                       + (if s.worker.InFlight? && i in s.worker.outcomes then 1 else 0)
      && (i in s.recorded ==> s.sends[i] >= 1)
      && (s.worker.InFlight? && i in s.worker.outcomes ==> s.sends[i] >= 1)
  }

  lemma ResultCountsBatch(batch: seq<Target>, outcomes: map<Id, Outcome>)
    requires batch != [] && outcomes.Keys == Ids(batch)
    ensures var r := ResultOf(batch, outcomes); r.sent + r.failed + r.invalidRemoved == |Ids(batch)|
  {
    var a, b, c := WithOutcome(outcomes, Delivered), WithOutcome(outcomes, SendError), WithOutcome(outcomes, InvalidToken);
    assert Ids(batch) == a + b + c;
    assert |a + b| == |a| + |b| && |a + b + c| == |a + b| + |c|;
  }

  lemma LastIsGreatest(batch: seq<Target>, i: Id)
    requires batch != [] && i in Ids(batch)
    requires forall j, k :: 0 <= j < k < |batch| ==> batch[j].id < batch[k].id
    ensures i <= batch[|batch| - 1].id
  {
  }

  /** The cursor moves to the last device of the batch: everyone it passes was in the batch. */
  lemma CommitCovers(s: Sys, s': Sys)
    requires Inv(s) && Next(s, RecordBatch, s')
    ensures forall i :: i in s'.recorded ==> !After(s'.row.cursor, i)
    ensures forall i :: i in s'.stayed && !After(s'.row.cursor, i) ==> i in s'.recorded
    ensures s.recorded !! Ids(s.worker.batch)
    ensures Total(s'.row) == |s'.recorded|
  {
    var b := s.worker.batch;
    ResultCountsBatch(b, s.worker.outcomes);
    forall i | i in s'.recorded ensures !After(s'.row.cursor, i) {
      assert b[|b| - 1].id in Ids(b);
      if i in Ids(b) { LastIsGreatest(b, i); }
    }
    assert |s.recorded + Ids(b)| == |s.recorded| + |Ids(b)|;
  }

  lemma CommitKeepsCursor(s: Sys, s': Sys)
    requires Inv(s) && Next(s, RecordBatch, s')
    ensures CursorOk(s') && s.recorded !! Ids(s.worker.batch)
  {
    CommitCovers(s, s');
  }

  lemma CommitKeepsSends(s: Sys, s': Sys)
    requires Inv(s) && Next(s, RecordBatch, s') && s.recorded !! Ids(s.worker.batch)
    ensures SendsOk(s')
  {
  }

  lemma StepKeepsSends(s: Sys, e: Event, s': Sys)
    requires Inv(s) && Next(s, e, s') && !e.RecordBatch?
    ensures SendsOk(s')
  {
  }

  lemma StepKeepsCursor(s: Sys, e: Event, s': Sys)
    requires CursorOk(s) && WorkerOk(s) && AudienceOk(s) && Next(s, e, s') && !e.RecordBatch?
    ensures CursorOk(s')
  {
    if e.Finish? {
      forall i | i in s.stayed ensures i in s.recorded { assert !After(s.row.cursor, i); }
    }
  }

  lemma StepKeepsAudience(s: Sys, e: Event, s': Sys)
    requires AudienceOk(s) && WorkerOk(s) && Next(s, e, s')
    ensures AudienceOk(s') && WorkerOk(s')
  {
  }

  lemma StepKeepsBatch(s: Sys, e: Event, s': Sys)
    requires AudienceOk(s) && WorkerOk(s) && BatchOk(s) && Next(s, e, s')
    ensures BatchOk(s')
  {
  }

  lemma StepKeepsInv(s: Sys, e: Event, s': Sys)
    requires Inv(s) && Next(s, e, s')
    ensures Inv(s')
  {
    hide CursorOk, SendsOk, AudienceOk, WorkerOk, BatchOk, Next;
    StepKeepsAudience(s, e, s');
    StepKeepsBatch(s, e, s');
    if e.RecordBatch? {
      CommitKeepsCursor(s, s');
      CommitKeepsSends(s, s');
    } else {
      StepKeepsSends(s, e, s');
      StepKeepsCursor(s, e, s');
    }
  }

  // ---- runs ----

  ghost predicate IsRun(states: seq<Sys>, events: seq<Event>) {
    && |states| == |events| + 1
    && forall k :: 0 <= k < |events| ==> Next(states[k], events[k], states[k + 1])
  }

  ghost predicate IsHistory(states: seq<Sys>, events: seq<Event>) {
    IsRun(states, events) && Initial(states[0])
  }

  lemma InitialCursor(s: Sys)
    requires Initial(s)
    ensures CursorOk(s)
  {
  }

  lemma InitialInv(s: Sys)
    requires Initial(s)
    ensures Inv(s) && FixedInv(s)
  {
    hide CursorOk;
    InitialCursor(s);
  }

  lemma {:induction false} RunKeepsInv(states: seq<Sys>, events: seq<Event>, k: nat)
    requires IsHistory(states, events) && k < |states|
    ensures Inv(states[k])
    decreases k
  {
    hide Inv, Next, Initial;
    if k == 0 {
      InitialInv(states[0]);
    } else {
      RunKeepsInv(states, events, k - 1);
      StepKeepsInv(states[k - 1], events[k - 1], states[k]);
    }
  }

  /** In every state of every run the counters account for exactly the devices of the committed
      batches: all at or before the cursor, each sent to. */
  lemma CountersAreExact(states: seq<Sys>, events: seq<Event>, k: nat)
    requires IsHistory(states, events) && k < |states|
    ensures var s := states[k];
      && Total(s.row) == |s.recorded|
      && (forall i :: i in s.recorded ==> !After(s.row.cursor, i) && s.sends[i] >= 1)
  {
    RunKeepsInv(states, events, k);
  }

  /** How many batches holding device i were begun and never committed. */
  function LostBatches(states: seq<Sys>, events: seq<Event>, i: Id): nat
    requires |states| == |events| + 1
    decreases |events|
  {
    if events == [] then 0
    else
      var n := |events| - 1;
      var w := states[n].worker;
      LostBatches(states[..n + 1], events[..n], i)
        + if (events[n].RecordFails? || events[n].Crash?) && w.InFlight? && i in Ids(w.batch) then 1 else 0
  }

  lemma {:induction false} LostIsCounted(states: seq<Sys>, events: seq<Event>, i: Id)
    requires IsHistory(states, events)
    ensures states[|events|].lost[i] == LostBatches(states, events, i)
    decreases |events|
  {
    if events != [] {
      var n := |events| - 1;
      assert Next(states[n], events[n], states[n + 1]);
      LostIsCounted(states[..n + 1], events[..n], i);
    }
  }

  /** A device is sent to at most once more than the number of its batches that were lost. */
  lemma RepeatsAreBounded(states: seq<Sys>, events: seq<Event>, i: Id)
    requires IsHistory(states, events)
    ensures var s := states[|events|];
      s.sends[i] <= 1 + LostBatches(states, events, i)
  {
    RunKeepsInv(states, events, |events|);
    LostIsCounted(states, events, i);
    var s := states[|events|];
    if s.worker.InFlight? && i in s.worker.outcomes {
      assert i in Ids(s.worker.batch);
      assert i !in s.recorded;
    }
  }

  lemma {:induction false} SendingStartsOnce(states: seq<Sys>, events: seq<Event>, m: nat, k: nat)
    requires IsRun(states, events) && m < |events| && events[m].MarkSending? && m < k < |states|
    ensures states[k].row.status != Queued
    decreases k
  {
    assert Next(states[k - 1], events[k - 1], states[k]);
    if k - 1 > m {
      SendingStartsOnce(states, events, m, k - 1);
    }
  }

  lemma {:induction false} EligibleThroughoutStays(states: seq<Sys>, events: seq<Event>, m: nat, i: Id, k: nat)
    requires IsRun(states, events) && m < |events| && events[m].MarkSending? && m < k < |states|
    requires forall j :: m <= j <= k ==> i in Audience(states[j].devices)
    ensures i in states[k].stayed
    decreases k
  {
    assert Next(states[k - 1], events[k - 1], states[k]);
    if k - 1 > m {
      SendingStartsOnce(states, events, m, k - 1);
      EligibleThroughoutStays(states, events, m, i, k - 1);
    }
  }

  /** Whatever crashes, failures, shutdowns and changes to the device table happened: once the
      broadcast is done, every device that was eligible all along was sent to, and exactly once if
      none of its batches was lost. */
  lemma NobodyIsSkipped(states: seq<Sys>, events: seq<Event>, m: nat, i: Id)
    requires IsHistory(states, events) && m < |events| && events[m].MarkSending?
    requires states[|events|].row.status == Done
    requires forall j :: m <= j < |states| ==> i in Audience(states[j].devices)
    ensures var s := states[|events|];
      1 <= s.sends[i] <= 1 + LostBatches(states, events, i)
  {
    RunKeepsInv(states, events, |events|);
    EligibleThroughoutStays(states, events, m, i, |events|);
    RepeatsAreBounded(states, events, i);
  }

  // ---- a device table that only the worker changes ----

  /** While the broadcast is being sent, nobody else touches the device table. */
  ghost predicate AudienceIsFixed(states: seq<Sys>, events: seq<Event>) {
    IsRun(states, events) &&
    forall k :: 0 <= k < |events| && events[k].Others? ==> states[k].row.status != Sending
  }

  ghost function UpTo(ids: set<Id>, cursor: Option<Id>): set<Id> {
    set i | i in ids && !After(cursor, i)
  }

  ghost predicate FixedInv(s: Sys) {
    && (s.row.status != Queued ==> s.recorded == UpTo(s.audience, s.row.cursor))
    && (s.row.status == Queued ==> s.recorded == {})
    && (s.row.status == Done ==> s.recorded == s.audience)
    && (s.row.status == Sending ==> forall i ::
          i in s.audience && After(s.row.cursor, i) <==> i in Audience(s.devices) && After(s.row.cursor, i))
    && (s.worker.Finishing? ==> s.audience == s.recorded)
    && FixedBatch(s)
  }

  ghost predicate FixedBatch(s: Sys) {
    s.worker.InFlight? && s.worker.batch != [] ==>
      var b := s.worker.batch;
      && (forall k :: 0 <= k < |b| ==> b[k].id in s.devices && s.devices[b[k].id].token == b[k].token)
      && Ids(b) <= s.audience
      && (forall i :: i in s.audience && After(s.row.cursor, i) && i <= b[|b| - 1].id ==> i in Ids(b))
  }

  lemma DeletesOnlyTheBatch(s: Sys, i: Id)
    requires Inv(s) && FixedInv(s) && s.worker.InFlight? && i in s.devices && i !in Ids(s.worker.batch)
    ensures s.devices[i].token !in InvalidOf(s.worker.batch, s.worker.outcomes)
  {
  }

  lemma CommitRecordsAudience(s: Sys, s': Sys, i: Id)
    requires Inv(s) && FixedInv(s) && Next(s, RecordBatch, s')
    ensures i in s'.recorded <==> i in s'.audience && !After(s'.row.cursor, i)
  {
    hide SendsOk, AudienceOk, WithOutcome, InvalidOf, WithoutTokens, Audience, UniqueTokens;
    var b := s.worker.batch;
    assert b[|b| - 1].id in Ids(b);
    if i in Ids(b) { LastIsGreatest(b, i); }
    if i in s.recorded { assert i in UpTo(s.audience, s.row.cursor); }
    if i in s.audience && !After(s.row.cursor, i) { assert i in UpTo(s.audience, s.row.cursor); }
  }

  lemma CommitLeavesTheRest(s: Sys, s': Sys, i: Id)
    requires Inv(s) && FixedInv(s) && Next(s, RecordBatch, s') && After(s'.row.cursor, i)
    ensures i in s'.audience <==> i in Audience(s'.devices)
  {
    hide SendsOk, WithOutcome, CursorOk, InvalidOf;
    var b := s.worker.batch;
    assert b[|b| - 1].id in Ids(b);
    if i in Ids(b) { LastIsGreatest(b, i); }
    if i in Audience(s.devices) { DeletesOnlyTheBatch(s, i); }
  }

  lemma CommitKeepsFixedInv(s: Sys, s': Sys)
    requires Inv(s) && FixedInv(s) && Next(s, RecordBatch, s')
    ensures FixedInv(s')
  {
    hide SendsOk, AudienceOk, WithOutcome, InvalidOf, WithoutTokens, UniqueTokens, CursorOk, BatchOk, Audience;
    forall i ensures i in s'.recorded <==> i in UpTo(s'.audience, s'.row.cursor) {
      CommitRecordsAudience(s, s', i);
    }
    forall i ensures i in s'.audience && After(s'.row.cursor, i) <==> i in Audience(s'.devices) && After(s'.row.cursor, i) {
      if After(s'.row.cursor, i) { CommitLeavesTheRest(s, s', i); }
    }
  }

  lemma LoadKeepsFixedInv(s: Sys, e: Event, s': Sys)
    requires Inv(s) && FixedInv(s) && e.LoadPage? && Next(s, e, s') && Inv(s')
    ensures FixedInv(s')
  {
    if e.page == [] {
      assert Ids(e.page) == {};
      assert forall i :: i in s.audience ==> !After(s.row.cursor, i);
    }
  }

  lemma StepKeepsFixedInv(s: Sys, e: Event, s': Sys)
    requires Inv(s) && FixedInv(s) && Next(s, e, s') && (e.Others? ==> s.row.status != Sending)
    ensures FixedInv(s')
  {
    hide SendsOk, Commit, ResultOf, InvalidOf, WithoutTokens, IsPage, CursorOk, UniqueTokens, Ids;
    StepKeepsInv(s, e, s');
    if e.RecordBatch? {
      CommitKeepsFixedInv(s, s');
    } else if e.LoadPage? {
      LoadKeepsFixedInv(s, e, s');
    }
  }

  lemma {:induction false} RunKeepsFixedInv(states: seq<Sys>, events: seq<Event>, k: nat)
    requires IsHistory(states, events) && AudienceIsFixed(states, events) && k < |states|
    ensures FixedInv(states[k])
    decreases k
  {
    hide Inv, FixedInv, Next, Initial;
    RunKeepsInv(states, events, k);
    if k == 0 {
      InitialInv(states[0]);
    } else {
      RunKeepsInv(states, events, k - 1);
      RunKeepsFixedInv(states, events, k - 1);
      StepKeepsFixedInv(states[k - 1], events[k - 1], states[k]);
    }
  }

  /** Crash-safe accounting: over a fixed audience the counters always add up to the audience devices
      at or before the cursor, and to the recorded number of targets once the broadcast is done. */
  lemma AccountingIsCrashSafe(states: seq<Sys>, events: seq<Event>, k: nat)
    requires IsHistory(states, events) && AudienceIsFixed(states, events) && k < |states|
    ensures var s := states[k];
      && Total(s.row) == |UpTo(s.audience, s.row.cursor)|
      && (s.row.status == Done ==> Total(s.row) == s.row.targets == |s.audience|)
  {
    RunKeepsInv(states, events, k);
    RunKeepsFixedInv(states, events, k);
    var s := states[k];
    if s.row.status == Queued {
      assert UpTo(s.audience, s.row.cursor) == {};
    }
  }

  /** Over a fixed audience a done broadcast reached every device of it, and no other. */
  lemma FixedAudienceIsReached(states: seq<Sys>, events: seq<Event>, i: Id)
    requires IsHistory(states, events) && AudienceIsFixed(states, events)
    requires states[|events|].row.status == Done
    ensures var s := states[|events|];
      && (i in s.audience ==> 1 <= s.sends[i] <= 1 + LostBatches(states, events, i))
      && (i !in s.audience ==> s.sends[i] <= LostBatches(states, events, i))
  {
    RunKeepsInv(states, events, |events|);
    RunKeepsFixedInv(states, events, |events|);
    RepeatsAreBounded(states, events, i);
    LostIsCounted(states, events, i);
  }
}
