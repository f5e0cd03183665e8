/** The queue of broadcasts (internal/broadcasts/worker.go): the oldest pending one is worked on until it is final, and
    one that keeps failing is given up. What Broadcasts follows in detail is here only a committed batch, a
    store error or the end. */
module BroadcastQueue {
  import Broadcasts

  type Status = Broadcasts.Status
  type Id = int

  datatype Entry = Entry(created: int, status: Status)

  /** errors: store errors in a row, by broadcast, as the process counts them. */
  datatype Queue = Queue(rows: map<Id, Entry>, errors: map<Id, nat>, now: int)

  /** Stuck: the broadcast should have been given up, but marking it failed also failed. A failure during a shutdown
      counts for nothing and is no event. */
  datatype Event =
    | Enqueue(id: Id)
    | Tick(to: int)
    | Begin(id: Id)
    | Commit(id: Id)
    | Complete(id: Id)
    | Break(id: Id)
    | Stuck(id: Id)
    | GiveUp(id: Id)
    | Restart

  predicate Pending(q: Queue, id: Id) {
    id in q.rows && (q.rows[id].status.Queued? || q.rows[id].status.Sending?)
  }

  /** What NextPending may answer: ORDER BY created_at LIMIT 1. */
  ghost predicate IsHead(q: Queue, id: Id) {
    Pending(q, id) && forall j :: Pending(q, j) ==> q.rows[id].created <= q.rows[j].created
  }

  function Errors(q: Queue, id: Id): nat {
    if id in q.errors then q.errors[id] else 0
  }

  ghost predicate Enabled(q: Queue, e: Event) {
    match e
    case Enqueue(id) => id !in q.rows
    case Tick(to) => q.now <= to
    case Begin(id) => IsHead(q, id) && q.rows[id].status.Queued?
    case Commit(id) => IsHead(q, id) && q.rows[id].status.Sending?
    case Complete(id) => IsHead(q, id) && q.rows[id].status.Sending?
    case Break(id) => IsHead(q, id) && Errors(q, id) + 1 < Broadcasts.MAX_ATTEMPT_ERRORS
    case Stuck(id) => IsHead(q, id) && Errors(q, id) + 1 >= Broadcasts.MAX_ATTEMPT_ERRORS
    case GiveUp(id) => IsHead(q, id) && Errors(q, id) + 1 >= Broadcasts.MAX_ATTEMPT_ERRORS
    case Restart => true
  }

  function WithStatus(q: Queue, id: Id, status: Status): Queue
    requires id in q.rows
  {
    q.(rows := q.rows[id := q.rows[id].(status := status)])
  }

  function Cleared(q: Queue, id: Id): Queue {
    q.(errors := q.errors - {id})
  }

  function Step(q: Queue, e: Event): Queue
    requires Enabled(q, e)
  {
    match e
    case Enqueue(id) => q.(rows := q.rows[id := Entry(q.now, Broadcasts.Queued)])
    case Tick(to) => q.(now := to)
    case Begin(id) => WithStatus(q, id, Broadcasts.Sending)
    case Commit(id) => Cleared(q, id)
    case Complete(id) => Cleared(WithStatus(q, id, Broadcasts.Done), id)
    case Break(id) => q.(errors := q.errors[id := Errors(q, id) + 1])
    case Stuck(id) => q.(errors := q.errors[id := Errors(q, id) + 1])
    case GiveUp(id) => Cleared(WithStatus(q, id, Broadcasts.Failed), id)
    case Restart => q.(errors := map[])
  }

  ghost predicate IsRun(states: seq<Queue>, events: seq<Event>) {
    && |states| == |events| + 1 && states[0].rows == map[] && states[0].errors == map[]
    && forall k :: 0 <= k < |events| ==> Enabled(states[k], events[k]) && states[k + 1] == Step(states[k], events[k])
  }

  // ---- one after another ----

  /** Nothing older than a broadcast that was begun or given up is still waiting. */
  ghost predicate InTurn(q: Queue) {
    && (forall i :: i in q.rows ==> q.rows[i].created <= q.now)
    && (forall i, j :: i in q.rows && !q.rows[i].status.Queued? && Pending(q, j) ==> q.rows[i].created <= q.rows[j].created)
  }

  lemma StepKeepsTurns(q: Queue, e: Event)
    requires InTurn(q) && Enabled(q, e)
    ensures InTurn(Step(q, e))
  {
  }

  lemma {:induction false} RunKeepsTurns(states: seq<Queue>, events: seq<Event>, k: nat)
    requires IsRun(states, events) && k < |states|
    ensures InTurn(states[k])
    decreases k
  {
    hide Enabled, Step;
    if k > 0 {
      RunKeepsTurns(states, events, k - 1);
      StepKeepsTurns(states[k - 1], events[k - 1]);
    }
  }

  /** Broadcasts go out one after another: in every reachable state the ones created before one that was begun or
      given up are final, and two can be half sent only if they were created at one instant. */
  lemma OneAfterAnother(states: seq<Queue>, events: seq<Event>, k: nat, i: Id, j: Id)
    requires IsRun(states, events) && k < |states| && i in states[k].rows && j in states[k].rows
    requires !states[k].rows[i].status.Queued?
    ensures states[k].rows[j].created < states[k].rows[i].created ==> !Pending(states[k], j)
    ensures states[k].rows[i].status.Sending? && states[k].rows[j].status.Sending? ==>
      states[k].rows[i].created == states[k].rows[j].created
  {
    RunKeepsTurns(states, events, k);
    hide IsRun;
  }

  // ---- how long one can hold up the others ----

  /** How many events of a run satisfy f. */
  function Count(events: seq<Event>, f: Event -> bool): nat
    decreases |events|
  {
    if events == [] then 0
    else Count(events[..|events| - 1], f) + if f(events[|events| - 1]) then 1 else 0
  }

  function Breaks(events: seq<Event>, id: Id): nat { Count(events, e => e == Break(id)) }
  function Stucks(events: seq<Event>, id: Id): nat { Count(events, e => e == Stuck(id)) }
  function GiveUps(events: seq<Event>, id: Id): nat { Count(events, e => e == GiveUp(id)) }

  /** A batch of the broadcast was committed, or the process restarted: its errors in a row start again. */
  function FreshStarts(events: seq<Event>, id: Id): nat { Count(events, e => e == Commit(id) || e.Restart?) }

  function MinNat(a: nat, b: nat): nat { if a <= b then a else b }

  /** Errors before the fifth in a row come in fours, and the last one is final. */
  ghost predicate Counted(q: Queue, events: seq<Event>, id: Id) {
    && Breaks(events, id) <= 4 * FreshStarts(events, id) + (if id !in q.rows || Pending(q, id) then MinNat(Errors(q, id), 4) else 4)
    && GiveUps(events, id) == (if IsFailed(q, id) then 1 else 0)
    && (id !in q.rows ==> Errors(q, id) == 0)
    && (FreshStarts(events, id) == 0 ==>
          && (id !in q.rows || Pending(q, id) ==> Breaks(events, id) + Stucks(events, id) == Errors(q, id))
          && (IsFailed(q, id) ==> Breaks(events, id) + Stucks(events, id) >= 4))
  }

  lemma {:induction false} RunIsCounted(states: seq<Queue>, events: seq<Event>, id: Id)
    requires IsRun(states, events)
    ensures Counted(states[|events|], events, id)
    decreases |events|
  {
    if events != [] {
      var n := |events| - 1;
      RunIsCounted(states[..n + 1], events[..n], id);
      assert states[..n + 1][n] == states[n];
      CountedNext(states[n], events[..n], events[n], id);
      assert events == events[..n] + [events[n]];
    }
  }

  ghost predicate IsFailed(q: Queue, id: Id) {
    id in q.rows && q.rows[id].status.Failed?
  }

  /** What a step means for one broadcast. */
  lemma StepOfOne(q: Queue, e: Event, id: Id)
    requires Enabled(q, e) && (id !in q.rows ==> Errors(q, id) == 0)
    ensures var q' := Step(q, e);
      && (id !in q'.rows ==> Errors(q', id) == 0 && id !in q.rows)
      && (e == Break(id) ==> Pending(q, id) && Pending(q', id) && Errors(q, id) < 4 && Errors(q', id) == Errors(q, id) + 1)
      && (e == Stuck(id) ==> Pending(q, id) && Pending(q', id) && Errors(q, id) >= 4 && Errors(q', id) == Errors(q, id) + 1)
      && (e == GiveUp(id) ==> Pending(q, id) && Errors(q, id) >= 4 && !IsFailed(q, id) && IsFailed(q', id))
      && (e == Complete(id) ==> Pending(q, id) && !IsFailed(q', id) && !Pending(q', id))
      && (e == Commit(id) || e.Restart? ==> Errors(q', id) == 0 && Pending(q', id) == Pending(q, id))
      && (e != GiveUp(id) ==> IsFailed(q', id) == IsFailed(q, id))
      && (e !in {Break(id), Stuck(id), GiveUp(id), Complete(id), Commit(id), Restart} ==>
            Errors(q', id) == Errors(q, id) && (Pending(q', id) == Pending(q, id) || id !in q.rows))
      && (id !in q.rows ==> !Pending(q, id) && !IsFailed(q, id))
  {
  }

  lemma CountedNext(q: Queue, events: seq<Event>, e: Event, id: Id)
    requires Counted(q, events, id) && Enabled(q, e)
    ensures Counted(Step(q, e), events + [e], id)
  {
    CountStep(events, e, id);
    StepOfOne(q, e, id);
    hide Step, Enabled, Breaks, Stucks, GiveUps, FreshStarts, Errors, Pending, IsFailed;
  }

  lemma CountStep(events: seq<Event>, e: Event, id: Id)
    ensures Breaks(events + [e], id) == Breaks(events, id) + if e == Break(id) then 1 else 0
    ensures Stucks(events + [e], id) == Stucks(events, id) + if e == Stuck(id) then 1 else 0
    ensures GiveUps(events + [e], id) == GiveUps(events, id) + if e == GiveUp(id) then 1 else 0
    ensures FreshStarts(events + [e], id) == FreshStarts(events, id) + if e == Commit(id) || e.Restart? then 1 else 0
  {
    var all := events + [e];
    assert all[..|all| - 1] == events && all[|all| - 1] == e;
  }

  /** All store errors of a broadcast in a run. */
  function AllErrors(events: seq<Event>, id: Id): nat {
    Breaks(events, id) + Stucks(events, id) + GiveUps(events, id)
  }

  /** How often a broadcast can fail: four times from every fresh start on, plus the times marking it failed also
      failed, plus once more when it is given up. */
  lemma ErrorsAreBounded(states: seq<Queue>, events: seq<Event>, id: Id)
    requires IsRun(states, events)
    ensures AllErrors(events, id) <= 4 * (1 + FreshStarts(events, id)) + Stucks(events, id)
                                     + if IsFailed(states[|events|], id) then 1 else 0
  {
    RunIsCounted(states, events, id);
    hide IsRun, Breaks, Stucks, GiveUps, FreshStarts;
  }

  /** A broadcast that never gets a batch through is Failed from its fifth error on and not before, as long as the
      process runs on and can mark it: it cannot hold up the others any longer. */
  lemma BrokenIsGivenUp(states: seq<Queue>, events: seq<Event>, id: Id)
    requires IsRun(states, events) && FreshStarts(events, id) == 0 && Stucks(events, id) == 0
    ensures AllErrors(events, id) <= 5
    ensures AllErrors(events, id) == 5 <==> IsFailed(states[|events|], id)
  {
    RunIsCounted(states, events, id);
    hide IsRun, Breaks, Stucks, GiveUps, FreshStarts;
  }

  // ---- and how it can do so for ever ----

  /** Two broadcasts that nobody has begun, the older one with so many errors. */
  function Waiting(errors: map<Id, nat>): Queue {
    Queue(map[1 := Entry(0, Broadcasts.Queued), 2 := Entry(1, Broadcasts.Queued)], errors, 1)
  }

  lemma Extends(states: seq<Queue>, events: seq<Event>, e: Event)
    requires IsRun(states, events) && Enabled(states[|events|], e)
    ensures IsRun(states + [Step(states[|events|], e)], events + [e])
  {
  }

  lemma Queued() returns (states: seq<Queue>, events: seq<Event>)
    ensures IsRun(states, events) && states[|events|] == Waiting(map[])
    ensures AllErrors(events, 1) == Stucks(events, 1) == FreshStarts(events, 1) == 0
  {
    var q0, q1 := Queue(map[], map[], 0), Queue(map[1 := Entry(0, Broadcasts.Queued)], map[], 0);
    states := [q0, q1, q1.(now := 1), Waiting(map[])];
    events := [Enqueue(1), Tick(1), Enqueue(2)];
    assert states[3] == Step(states[2], events[2]);
    CountStep([], events[0], 1);
    CountStep([events[0]], events[1], 1);
    CountStep([events[0]] + [events[1]], events[2], 1);
    assert events == [] + [events[0]] + [events[1]] + [events[2]];
  }

  /** The head breaks n times in a row, and stays the head. */
  lemma {:induction false} Fails(states: seq<Queue>, events: seq<Event>, n: nat) returns (states': seq<Queue>, events': seq<Event>)
    requires IsRun(states, events) && states[|events|].rows == Waiting(map[]).rows && Errors(states[|events|], 1) == 0
    ensures IsRun(states', events') && states'[|events'|].rows == Waiting(map[]).rows && Errors(states'[|events'|], 1) == n
    ensures AllErrors(events', 1) == AllErrors(events, 1) + n
    ensures FreshStarts(events', 1) == FreshStarts(events, 1) && (n <= 4 ==> Stucks(events', 1) == Stucks(events, 1))
  {
    if n == 0 {
      states', events' := states, events;
    } else {
      var states0, events0 := Fails(states, events, n - 1);
      var q := states0[|events0|];
      assert IsHead(q, 1);
      var e := if n < 5 then Break(1) else Stuck(1);
      Extends(states0, events0, e);
      states', events' := states0 + [Step(q, e)], events0 + [e];
      CountStep(events0, e, 1);
      hide Count, IsRun, Breaks, Stucks, GiveUps, FreshStarts;
      assert Errors(Step(q, e), 1) == n;
    }
  }

  /** While marking it failed fails, too, one broadcast can fail any number of times and the next one waits. */
  lemma BlockedWhileUnmarked(n: nat) returns (states: seq<Queue>, events: seq<Event>)
    ensures IsRun(states, events) && AllErrors(events, 1) == n && FreshStarts(events, 1) == 0
    ensures states[|events|].rows == Waiting(map[]).rows && IsHead(states[|events|], 1)
  {
    states, events := Queued();
    states, events := Fails(states, events, n);
  }

  /** So it can in a process that restarts before the fifth error, though no marking ever fails. */
  lemma {:induction false} BlockedByRestarts(n: nat) returns (states: seq<Queue>, events: seq<Event>)
    ensures IsRun(states, events) && AllErrors(events, 1) == 4 * n && Stucks(events, 1) == 0
    ensures states[|events|].rows == Waiting(map[]).rows && IsHead(states[|events|], 1) && Errors(states[|events|], 1) == 0
  {
    if n == 0 {
      states, events := Queued();
    } else {
      states, events := BlockedByRestarts(n - 1);
      states, events := Fails(states, events, 4);
      var q := states[|events|];
      Extends(states, events, Restart);
      CountStep(events, Restart, 1);
      hide Count, IsRun, Breaks, Stucks, GiveUps, FreshStarts;
      states, events := states + [Step(q, Restart)], events + [Restart];
    }
  }

  /** Broadcasts created at one instant can be half sent both: after an error on the one, the other may be next. */
  lemma TwoHalfSent() returns (states: seq<Queue>, events: seq<Event>)
    ensures IsRun(states, events)
    ensures var rows := states[|events|].rows; 1 in rows && 2 in rows && rows[1].status.Sending? && rows[2].status.Sending?
  {
    events := [Enqueue(1), Enqueue(2), Begin(1), Break(1), Begin(2)];
    var q0 := Queue(map[], map[], 0);
    var q1 := Step(q0, events[0]);
    var q2 := Step(q1, events[1]);
    assert IsHead(q2, 1);
    var q3 := Step(q2, events[2]);
    assert IsHead(q3, 1);
    var q4 := Step(q3, events[3]);
    assert IsHead(q4, 2);
    states := [q0, q1, q2, q3, q4, Step(q4, events[4])];
  }
}
