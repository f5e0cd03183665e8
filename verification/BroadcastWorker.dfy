/** The worker and its store as objects: Repo holds the rows, Worker the volatile error count.
    Worker keeps a ghost history of the step system in Broadcasts, so whatever a call does is a run of
    that system, and the theorems about runs hold of it. */
module BroadcastWorker {
  import opened Wrappers
  import opened Broadcasts

  /** broadcasts.Repo. A call that fails changes nothing. */
  class Repo {
    var devices: map<Id, Device>
    var row: Row

    constructor (devices: map<Id, Device>)
      ensures this.devices == devices && row == Row(Queued, 0, 0, 0, 0, None)
    {
      this.devices := devices;
      row := Row(Queued, 0, 0, 0, 0, None);
    }

    method MarkSending() returns (ok: bool)
      modifies this`row
      ensures row == if ok && old(row).status == Queued
                     then old(row).(status := Sending, targets := |Audience(devices)|) else old(row)
    {
      ok := *;
      if ok && row.status == Queued {
        row := row.(status := Sending, targets := |Audience(devices)|);
      }
    }

    /** SELECT ... WHERE audience AND id > cursor ORDER BY id LIMIT limit. */
    method NextTargets(cursor: Option<Id>, limit: nat) returns (ok: bool, page: seq<Target>)
      requires limit > 0
      ensures ok ==> IsPage(devices, cursor, limit, page)
    {
      page := [];
      ok := *;
      var rest := set i | i in devices && devices[i].eligible && After(cursor, i);
      while |page| < limit && rest != {}
        invariant |page| <= limit && Splits(devices, cursor, page, rest)
        decreases |rest|
      {
        var least := Least(rest);
        TakeLeast(devices, cursor, page, rest, least);
        page := page + [Target(least, devices[least].token)];
        rest := rest - {least};
      }
    }

    method RecordBatch(res: BatchResult, invalid: set<string>) returns (ok: bool)
      modifies this
      ensures ok ==> devices == WithoutTokens(old(devices), invalid) && row == Recorded(old(row), res)
      ensures !ok ==> devices == old(devices) && row == old(row)
    {
      ok := *;
      if ok {
        devices := WithoutTokens(devices, invalid);
        row := Recorded(row, res);
      }
    }

    method Finish(failed: bool) returns (ok: bool)
      modifies this`row
      ensures row == if ok then old(row).(status := if failed then Failed else Done) else old(row)
    {
      ok := *;
      if ok {
        row := row.(status := if failed then Failed else Done);
      }
    }
  }

  /** page holds the least of the devices after the cursor, in order, and rest the others. */
  ghost predicate Splits(devices: map<Id, Device>, cursor: Option<Id>, page: seq<Target>, rest: set<Id>) {
    && (forall k :: 0 <= k < |page| ==>
          page[k].id in devices && devices[page[k].id] == Device(page[k].token, true) && After(cursor, page[k].id))
    && (forall j, k :: 0 <= j < k < |page| ==> page[j].id < page[k].id)
    && (forall k, i :: 0 <= k < |page| && i in rest ==> page[k].id < i)
    && (forall i :: i in rest ==> i in devices && devices[i].eligible && After(cursor, i))
    && (forall i :: i in Audience(devices) && After(cursor, i) ==> i in rest || i in Ids(page))
  }

  lemma TakeLeast(devices: map<Id, Device>, cursor: Option<Id>, page: seq<Target>, rest: set<Id>, least: Id)
    requires Splits(devices, cursor, page, rest) && least in rest && forall i :: i in rest ==> least <= i
    ensures Splits(devices, cursor, page + [Target(least, devices[least].token)], rest - {least})
  {
    var grown := page + [Target(least, devices[least].token)];
    forall i | i in Ids(page) || i == least ensures i in Ids(grown) {
      if i in Ids(page) {
        var k :| 0 <= k < |page| && page[k].id == i;
        assert grown[k].id == i;
      } else {
        assert grown[|page|].id == least;
      }
    }
  }

  method Least(ids: set<int>) returns (least: int)
    requires ids != {}
    ensures least in ids && forall i :: i in ids ==> least <= i
  {
    HasMember(ids);
    least :| least in ids;
    var rest := ids - {least};
    while rest != {}
      invariant rest <= ids && least in ids
      invariant forall i :: i in ids ==> i in rest || least <= i
      decreases |rest|
    {
      HasMember(rest);
      var i :| i in rest;
      if i < least { least := i; }
      rest := rest - {i};
    }
  }

  /** What FCM answers is not ours to know. */
  method SendPush(token: string) returns (outcome: Outcome) {
    outcome := *;
  }

  datatype Progress = Continue(cursor: Option<Id>) | Ended(final: bool)

  class Worker {
    const repo: Repo
    const batchSize: nat
    var errors: nat
    var stopping: bool

    ghost var states: seq<Sys>
    ghost var events: seq<Event>

    constructor (repo: Repo, batchSize: nat)
      requires batchSize > 0 && UniqueTokens(repo.devices) && repo.row == Row(Queued, 0, 0, 0, 0, None)
      ensures this.repo == repo && Valid() && IsHistory(states, events) && At(Idle)
      ensures fresh(this)
    {
      this.repo := repo;
      this.batchSize := batchSize;
      errors, stopping := 0, false;
      states := [Sys(repo.devices, repo.row, Idle, 0, {}, {}, {}, multiset{}, multiset{})];
      events := [];
    }

    ghost predicate Valid()
      reads this, repo
    {
      && batchSize > 0
      && UniqueTokens(repo.devices)
      && IsRun(states, events)
      && Now().devices == repo.devices && Now().row == repo.row && Now().errors == errors
    }

    ghost function Now(): Sys
      requires IsRun(states, events)
      reads this
    {
      states[|states| - 1]
    }

    ghost predicate At(w: Broadcasts.Worker)
      requires IsRun(states, events)
      reads this
    {
      Now().worker == w
    }

    /** The history has only grown. */
    twostate predicate Continues()
      reads this
    {
      old(states) <= states && old(events) <= events
    }

    ghost method Log(e: Event, s: Sys)
      requires IsRun(states, events) && Next(Now(), e, s)
      modifies this`states, this`events
      ensures IsRun(states, events) && Now() == s
      ensures states == old(states) + [s] && events == old(events) + [e]
    {
      states := states + [s];
      events := events + [e];
    }

    /** Registrations, opt-outs, deletions and other broadcasts, and perhaps a shutdown request. */
    method Others()
      requires Valid()
      modifies this`stopping, this`states, this`events, repo`devices
      ensures Valid() && Continues()
      ensures Now() == old(Now()).(devices := repo.devices, stayed := old(Now()).stayed * Audience(repo.devices))
      ensures old(Inv(Now())) ==> Inv(Now())
    {
      var request: bool := *;
      stopping := stopping || request;
      var devices: map<Id, Device> := *;
      if !UniqueTokens(devices) {
        devices := repo.devices;
      }
      ghost var s := Now();
      ghost var s' := s.(devices := devices, stayed := s.stayed * Audience(devices));
      if Inv(s) {
        StepKeepsInv(s, Event.Others(devices), s');
      }
      repo.devices := devices;
      Log(Event.Others(devices), s');
    }

    /** Pushes to every target, in whatever order the sends complete; runs on even if a shutdown was
        requested meanwhile. */
    method SendBatch(targets: seq<Target>) returns (res: BatchResult, invalid: set<string>)
      requires Valid() && Sendable(Now(), targets) && Now().worker.outcomes == map[]
      modifies this`stopping, this`states, this`events, repo`devices
      ensures Valid() && Continues() && Sendable(Now(), targets) && Now().worker.outcomes.Keys == Ids(targets)
      ensures Inv(Now()) && Now().worker.InFlight? && Now().worker.batch == targets
      ensures res == ResultOf(targets, Now().worker.outcomes) && invalid == InvalidOf(targets, Now().worker.outcomes)
    {
      hide Inv, Tally, IsRun, Ids, UniqueTokens, Audience, ResultOf, InvalidOf;
      var sent, failed, invalidRemoved := 0, 0, 0;
      invalid := {};
      var pending := set t | t in targets;
      StartTally(targets);
      while pending != {}
        invariant Valid() && Continues() && Sendable(Now(), targets)
        invariant Tally(targets, Now().worker.outcomes, pending, sent, failed, invalidRemoved, invalid)
        decreases pending
      {
        Others();
        var t :| t in pending;
        var outcome := SendPush(t.token);
        ghost var s := Now();
        AddToTally(targets, s.worker.outcomes, pending, sent, failed, invalidRemoved, invalid, t, outcome);
        match outcome {
          case Delivered =>
            sent := sent + 1;
          case InvalidToken =>
            invalidRemoved := invalidRemoved + 1;
            invalid := invalid + {t.token};
          case SendError =>
            failed := failed + 1;
        }
        pending := pending - {t};
        LogSend(t, outcome, targets);
      }
      EndTally(targets, Now().worker.outcomes, sent, failed, invalidRemoved, invalid);
      res := BatchResult(sent, failed, invalidRemoved, targets[|targets| - 1].id);
    }

    /** Counts a store error against the broadcast and gives up on it after MAX_ATTEMPT_ERRORS in a row.
        True: the broadcast reached a final status. */
    method StoreError() returns (final: bool)
      requires Valid() && Inv(Now()) && At(Idle) && repo.row.status in {Queued, Sending}
      modifies this`errors, this`states, this`events, repo`row
      ensures Valid() && Continues() && Inv(Now()) && At(Idle)
      ensures repo.row.status == if final then Failed else old(repo.row.status)
      ensures final ==> !stopping && old(errors) >= MAX_ATTEMPT_ERRORS
    {
      if stopping || errors < MAX_ATTEMPT_ERRORS {
        return false;
      }
      var ok := repo.Finish(true);
      if ok {
        ghost var s := Now();
        ghost var s' := s.(row := s.row.(status := Failed), errors := 0);
        StepKeepsInv(s, GiveUp, s');
        errors := 0;
        Log(GiveUp, s');
      }
      final := ok;
    }

    ghost method LogSend(t: Target, outcome: Outcome, targets: seq<Target>)
      requires Valid() && Sendable(Now(), targets) && t in targets && t.id !in Now().worker.outcomes
      modifies this`states, this`events
      ensures Valid() && Continues() && Sendable(Now(), targets)
      ensures Now().worker.outcomes == old(Now()).worker.outcomes[t.id := outcome]
    {
      var s := Now();
      var e := Event.Send(t.id, outcome);
      var s' := s.(worker := s.worker.(outcomes := s.worker.outcomes[t.id := outcome]), sends := s.sends + multiset{t.id});
      var k :| 0 <= k < |targets| && targets[k] == t;
      assert Next(s, e, s');
      StepKeepsInv(s, e, s');
      Log(e, s');
    }

    /** Records a step whose effect on the rows and on errors has just happened. */
    ghost method Note(e: Event, s': Sys)
      requires batchSize > 0 && IsRun(states, events) && Inv(Now()) && Next(Now(), e, s')
      requires s'.devices == repo.devices && s'.row == repo.row && s'.errors == errors
      modifies this`states, this`events
      ensures Valid() && Continues() && Inv(Now()) && Now() == s'
    {
      StepKeepsInv(Now(), e, s');
      Log(e, s');
    }

    /** A store call failed: nothing changed, and unless a shutdown caused it, it counts. */
    method Fail(e: Event) returns (final: bool)
      requires Valid() && Inv(Now())
      requires e == if Now().worker.InFlight? then RecordFails(!stopping) else StoreFails(!stopping)
      requires Now().worker.InFlight? ==> Now().worker.outcomes.Keys == Ids(Now().worker.batch)
      requires Now().worker.Idle? ==> repo.row.status == Queued
      modifies this`errors, this`states, this`events, repo`row
      ensures Valid() && Continues() && Inv(Now()) && At(Idle)
      ensures if final then repo.row.status == Failed else repo.row.status in {Queued, Sending}
    {
      hide Inv, IsRun, UniqueTokens, Audience, Ids;
      BusyMeansSending(Now());
      errors := if stopping then errors else errors + 1;
      Note(e, Abandon(Now()).(errors := errors));
      hide Next, Abandon;
      final := StoreError();
    }

    method Start() returns (ok: bool)
      requires Valid() && Inv(Now()) && At(Idle) && repo.row.status in {Queued, Sending}
      modifies this`states, this`events, repo`row
      ensures Valid() && Continues() && Inv(Now())
      ensures ok ==> repo.row.status == Sending && At(Between(old(repo.row.cursor)))
      ensures !ok ==> repo.row == old(repo.row) && repo.row.status == Queued && At(Idle)
    {
      ghost var s := Now();
      ok := true;
      if repo.row.status == Queued {
        ok := repo.MarkSending();
        if ok {
          ghost var now := Audience(repo.devices);
          Note(Event.MarkSending, s.(row := repo.row, worker := Between(None), audience := now, stayed := now));
        }
      } else {
        Note(Resume, s.(worker := Between(repo.row.cursor)));
      }
    }

    method Load(cursor: Option<Id>) returns (ok: bool, targets: seq<Target>)
      requires Valid() && Inv(Now()) && At(Between(cursor))
      modifies this`states, this`events
      ensures Valid() && Continues() && Inv(Now())
      ensures !ok ==> Now() == old(Now())
      ensures ok && targets == [] ==> At(Finishing)
      ensures ok && targets != [] ==> At(InFlight(cursor, targets, map[]))
    {
      ghost var s := Now();
      ok, targets := repo.NextTargets(cursor, batchSize);
      if ok {
        var worker := if targets == [] then Finishing else InFlight(cursor, targets, map[]);
        Note(LoadPage(batchSize, targets), s.(worker := worker));
      }
    }

    method Complete() returns (ok: bool)
      requires Valid() && Inv(Now()) && At(Finishing)
      modifies this`errors, this`states, this`events, repo`row
      ensures Valid() && Continues() && Inv(Now())
      ensures if ok then repo.row.status == Done && At(Idle) else Now() == old(Now()) && repo.row == old(repo.row)
    {
      ghost var s := Now();
      ok := repo.Finish(false);
      if ok {
        errors := 0;
        Note(Event.Finish, s.(row := s.row.(status := Done), worker := Idle, errors := 0));
      }
    }

    method Record(targets: seq<Target>, res: BatchResult, invalid: set<string>) returns (ok: bool)
      requires Valid() && Sendable(Now(), targets) && Now().worker.outcomes.Keys == Ids(targets)
      requires res == ResultOf(targets, Now().worker.outcomes) && invalid == InvalidOf(targets, Now().worker.outcomes)
      modifies this`errors, this`states, this`events, repo
      ensures Valid() && Continues() && Inv(Now())
      ensures if ok then At(Between(Some(res.cursor))) else Now() == old(Now()) && repo.row == old(repo.row)
    {
      ghost var s := Now();
      ok := repo.RecordBatch(res, invalid);
      if ok {
        errors := 0;
        Note(Event.RecordBatch, Commit(s, targets, s.worker.outcomes));
      }
    }

    /** Loads, sends and records one batch; with nothing left to send, marks the broadcast done. */
    method OneBatch(cursor: Option<Id>) returns (p: Progress)
      requires Valid() && Inv(Now()) && At(Between(cursor))
      modifies this, repo
      ensures Valid() && Continues() && Inv(Now())
      ensures match p
        case Continue(c) => At(Between(c))
        case Ended(final) => At(Idle) && (final <==> repo.row.status in {Done, Failed})
    {
      hide Inv, IsRun, UniqueTokens, Audience, Next, ResultOf, InvalidOf, IsPage, Sendable, Ids;
      var ok, targets := Load(cursor);
      if !ok {
        var final := Fail(StoreFails(!stopping));
        return Ended(final);
      }
      Others();
      if |targets| == 0 {
        ok := Complete();
        if !ok {
          var final := Fail(StoreFails(!stopping));
          return Ended(final);
        }
        return Ended(true);
      }
      InFlightIsSendable(Now());
      p := SendAndRecord(targets);
    }

    /** Sends a page and commits its counters, its cursor and the removal of invalid tokens. */
    method SendAndRecord(targets: seq<Target>) returns (p: Progress)
      requires Valid() && Inv(Now()) && Sendable(Now(), targets) && Now().worker.outcomes == map[]
      modifies this, repo
      ensures Valid() && Continues() && Inv(Now())
      ensures match p
        case Continue(c) => At(Between(c))
        case Ended(final) => At(Idle) && (final <==> repo.row.status in {Done, Failed})
    {
      hide Inv, IsRun, UniqueTokens, Audience, Next, ResultOf, InvalidOf, IsPage, Sendable, Ids;
      var res, invalid := SendBatch(targets);
      var ok := Record(targets, res, invalid);
      if !ok {
        var final := Fail(RecordFails(!stopping));
        return Ended(final);
      }
      p := Continue(Some(res.cursor));
    }

    /** Sends the broadcast batch by batch. True: it reached a final status; false: retry later, after a
        store error or a shutdown. A finite execution gets through some number of batches; budget
        bounds it, a shutdown being requested when it runs out. */
    method Process(budget: nat) returns (final: bool)
      requires Valid() && Inv(Now()) && At(Idle) && repo.row.status in {Queued, Sending}
      modifies this, repo
      ensures Valid() && Continues() && Inv(Now()) && At(Idle)
      ensures final <==> repo.row.status in {Done, Failed}
    {
      hide Inv, IsRun, UniqueTokens, Audience, Next;
      var cursor := repo.row.cursor;
      var ok := Start();
      if !ok {
        final := Fail(StoreFails(!stopping));
        return;
      }
      var left := budget;
      while true
        invariant Valid() && Continues() && Inv(Now()) && At(Between(cursor))
        decreases left
      {
        Others();
        if left == 0 { stopping := true; }
        if stopping {
          Pause();
          return false;
        }
        left := left - 1;
        var p := OneBatch(cursor);
        match p {
          case Ended(f) => return f;
          case Continue(c) => cursor := c;
        }
      }
    }

    /** run and drain for this broadcast: every wake-up or poll looks it up again and processes it, until
        it is final or a shutdown ends the process. Reading the queue may fail, too. */
    method Run(rounds: nat, budget: nat)
      requires Valid() && Inv(Now()) && At(Idle)
      modifies this, repo
      ensures Valid() && Continues() && At(Idle)
      ensures Total(repo.row) == |Now().recorded|
      ensures repo.row.status == Done ==> forall i :: i in Now().stayed ==> Now().sends[i] >= 1
      ensures forall i: Id :: Now().sends[i] <= 1 + Now().lost[i]
    {
      for round := 0 to rounds
        invariant Valid() && Continues() && Inv(Now()) && At(Idle)
      {
        hide Inv, IsRun, UniqueTokens, Audience, Next;
        Others();
        var found: bool := *;
        if found && !stopping && repo.row.status in {Queued, Sending} {
          var final := Process(budget);
        }
      }
    }

    /** The process died, or was stopped, and was started again. */
    method Restart()
      requires Valid() && Inv(Now())
      modifies this`errors, this`stopping, this`states, this`events
      ensures Valid() && Continues() && Inv(Now()) && At(Idle) && repo.row == old(repo.row)
    {
      errors, stopping := 0, false;
      Note(Crash, Abandon(Now()).(errors := 0));
    }

    ghost method Pause()
      requires Valid() && Inv(Now()) && Now().worker.Between?
      modifies this`states, this`events
      ensures Valid() && Continues() && Inv(Now()) && At(Idle) && repo.row.status == Sending
    {
      Note(Stop, Now().(worker := Idle));
    }
  }

  lemma BusyMeansSending(s: Sys)
    requires Inv(s)
    ensures !s.worker.Idle? ==> s.row.status == Sending
  {
  }

  lemma InFlightIsSendable(s: Sys)
    requires Inv(s) && s.worker.InFlight?
    ensures Sendable(s, s.worker.batch)
  {
  }

  /** The worker is in the middle of sending targets. */
  ghost predicate Sendable(s: Sys, targets: seq<Target>) {
    && Inv(s)
    && targets != []
    && s.worker.InFlight? && s.worker.batch == targets
    && (forall j, k :: 0 <= j < k < |targets| ==> targets[j].id < targets[k].id)
  }

  /** The counters describe the sends that completed; pending are the others. */
  ghost predicate Tally(batch: seq<Target>, outcomes: map<Id, Outcome>, pending: set<Target>,
                        sent: nat, failed: nat, invalidRemoved: nat, invalid: set<string>) {
    && (forall t :: t in pending ==> t in batch)
    && (forall t :: t in batch ==> (t in pending <==> t.id !in outcomes))
    && outcomes.Keys <= Ids(batch)
    && sent == |WithOutcome(outcomes, Delivered)|
    && failed == |WithOutcome(outcomes, SendError)|
    && invalidRemoved == |WithOutcome(outcomes, InvalidToken)|
    && invalid == InvalidOf(batch, outcomes)
  }

  lemma StartTally(batch: seq<Target>)
    ensures Tally(batch, map[], set t | t in batch, 0, 0, 0, {})
  {
    assert WithOutcome(map[], Delivered) == {} && WithOutcome(map[], SendError) == {} && WithOutcome(map[], InvalidToken) == {};
  }

  lemma EndTally(batch: seq<Target>, outcomes: map<Id, Outcome>, sent: nat, failed: nat, invalidRemoved: nat,
                 invalid: set<string>)
    requires batch != [] && Tally(batch, outcomes, {}, sent, failed, invalidRemoved, invalid)
    ensures outcomes.Keys == Ids(batch)
    ensures BatchResult(sent, failed, invalidRemoved, batch[|batch| - 1].id) == ResultOf(batch, outcomes)
    ensures invalid == InvalidOf(batch, outcomes)
  {
    forall k | 0 <= k < |batch| ensures batch[k].id in outcomes { assert batch[k] in batch; }
  }

  lemma OneMoreWithOutcome(outcomes: map<Id, Outcome>, id: Id, outcome: Outcome, x: Outcome)
    requires id !in outcomes
    ensures |WithOutcome(outcomes[id := outcome], x)| == |WithOutcome(outcomes, x)| + if x == outcome then 1 else 0
  {
    var o := outcomes[id := outcome];
    assert WithOutcome(o, x) == WithOutcome(outcomes, x) + if x == outcome then {id} else {};
  }

  lemma OneMoreInvalid(batch: seq<Target>, outcomes: map<Id, Outcome>, t: Target, outcome: Outcome)
    requires t in batch && t.id !in outcomes
    requires forall j, k :: 0 <= j < k < |batch| ==> batch[j].id < batch[k].id
    ensures InvalidOf(batch, outcomes[t.id := outcome])
         == InvalidOf(batch, outcomes) + if outcome == InvalidToken then {t.token} else {}
  {
    var o := outcomes[t.id := outcome];
    var i :| 0 <= i < |batch| && batch[i] == t;
    forall k | 0 <= k < |batch| && k != i
      ensures batch[k].id in o && o[batch[k].id] == InvalidToken
          <==> batch[k].id in outcomes && outcomes[batch[k].id] == InvalidToken
    {
      assert batch[k].id != t.id;
    }
  }

  lemma AddToTally(batch: seq<Target>, outcomes: map<Id, Outcome>, pending: set<Target>,
                   sent: nat, failed: nat, invalidRemoved: nat, invalid: set<string>, t: Target, outcome: Outcome)
    requires Tally(batch, outcomes, pending, sent, failed, invalidRemoved, invalid) && t in pending
    requires forall j, k :: 0 <= j < k < |batch| ==> batch[j].id < batch[k].id
    ensures t in batch && t.id !in outcomes
    ensures Tally(batch, outcomes[t.id := outcome], pending - {t},
                  if outcome == Delivered then sent + 1 else sent,
                  if outcome == SendError then failed + 1 else failed,
                  if outcome == InvalidToken then invalidRemoved + 1 else invalidRemoved,
                  if outcome == InvalidToken then invalid + {t.token} else invalid)
  {
    hide WithOutcome, InvalidOf;
    assert t in batch && t.id !in outcomes;
    OneMoreWithOutcome(outcomes, t.id, outcome, Delivered);
    OneMoreWithOutcome(outcomes, t.id, outcome, SendError);
    OneMoreWithOutcome(outcomes, t.id, outcome, InvalidToken);
    OneMoreInvalid(batch, outcomes, t, outcome);
  }
}
