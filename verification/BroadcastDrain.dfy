/** The worker's loop over the queue as an object: rows and the error counts it holds in memory, and a ghost history
    of the step system in BroadcastQueue, so that the theorems about runs hold of it. */
module BroadcastDrain {
  import opened Wrappers
  import opened BroadcastQueue
  import Broadcasts

  /** How a drain ends. */
  datatype Drained = Emptied | Unread | Retry(id: Id) | ShutDown

  datatype Progress = Continue | Ended(final: bool)

  class Worker {
    var rows: map<Id, Entry>
    var now: int
    var errors: map<Id, nat>
    var stopping: bool

    ghost var states: seq<Queue>
    ghost var events: seq<Event>

    constructor (now: int)
      ensures Valid() && rows == map[] && events == []
    {
      rows, errors, stopping := map[], map[], false;
      this.now := now;
      states := [Queue(map[], map[], now)];
      events := [];
    }

    ghost predicate Valid()
      reads this
    {
      IsRun(states, events) && Now() == Queue(rows, errors, now)
    }

    ghost function Now(): Queue
      requires IsRun(states, events)
      reads this
    {
      states[|events|]
    }

    twostate predicate Continues()
      reads this
    {
      old(states) <= states && old(events) <= events
    }

    ghost method Note(e: Event)
      requires IsRun(states, events) && Enabled(Now(), e) && Step(Now(), e) == Queue(rows, errors, now)
      modifies this`states, this`events
      ensures Valid() && Continues() && events == old(events) + [e]
    {
      Extends(states, events, e);
      states, events := states + [Step(Now(), e)], events + [e];
    }

    /** Staff queue broadcasts, time passes, and perhaps the process is asked to stop. */
    method Others()
      requires Valid()
      modifies this`rows, this`now, this`stopping, this`states, this`events
      ensures Valid() && Continues()
      ensures forall i :: i in old(rows) ==> i in rows && rows[i] == old(rows)[i]
      ensures InTurn(old(Now())) ==> forall i :: IsHead(old(Now()), i) ==> IsHead(Now(), i)
    {
      var request: bool, n: nat := *, *;
      stopping := stopping || request;
      ghost var before := Now();
      hide IsHead, InTurn, IsRun, Enabled, Step;
      while n > 0
        invariant Valid() && Continues() && before == old(Now())
        invariant forall i :: i in old(rows) ==> i in rows && rows[i] == old(rows)[i]
        invariant InTurn(before) ==> InTurn(Now()) && forall i :: IsHead(before, i) ==> IsHead(Now(), i)
        decreases n
      {
        n := n - 1;
        OneOther();
      }
    }

    method OneOther()
      requires Valid()
      modifies this`rows, this`now, this`states, this`events
      ensures Valid() && Continues()
      ensures forall i :: i in old(rows) ==> i in rows && rows[i] == old(rows)[i]
      ensures InTurn(old(Now())) ==> InTurn(Now()) && forall i :: IsHead(old(Now()), i) ==> IsHead(Now(), i)
    {
      var id: Id, to: int := *, *;
      ghost var was := Now();
      if id !in rows {
        rows := rows[id := Entry(now, Broadcasts.Queued)];
        Note(Enqueue(id));
      } else if now <= to {
        now := to;
        Note(Tick(to));
      }
      if InTurn(was) { HeadStays(was, Now()); }
    }

    /** SELECT ... WHERE status IN ('queued', 'sending') ORDER BY created_at LIMIT 1. */
    method NextPending() returns (ok: bool, head: Option<Id>)
      requires Valid()
      ensures ok ==> match head { case None => forall j :: !Pending(Now(), j) case Some(i) => IsHead(Now(), i) }
    {
      ok, head := *, None;
      var rest := rows.Keys;
      while rest != {}
        invariant rest <= rows.Keys
        invariant head.Some? ==> Pending(Now(), head.value)
        invariant forall j :: Pending(Now(), j) && j !in rest ==> head.Some? && rows[head.value].created <= rows[j].created
        decreases rest
      {
        HasMember(rest);
        var i :| i in rest;
        rest := rest - {i};
        if rows[i].status.Queued? || rows[i].status.Sending? {
          if head.None? || rows[i].created < rows[head.value].created {
            head := Some(i);
          }
        }
      }
    }

    /** Counts a store error, and gives the broadcast up at the fifth in a row. True: it is final. */
    method StoreError(id: Id) returns (final: bool)
      requires Valid() && IsHead(Now(), id)
      modifies this`rows, this`errors, this`states, this`events
      ensures Valid() && Continues()
      ensures if final then id in rows && rows == old(rows)[id := old(rows)[id].(status := Broadcasts.Failed)] else rows == old(rows)
      ensures final ==> !stopping && Errors(old(Now()), id) + 1 >= Broadcasts.MAX_ATTEMPT_ERRORS && events == old(events) + [GiveUp(id)]
      ensures !final ==> events == if stopping then old(events)
        else old(events) + [if Errors(old(Now()), id) + 1 < Broadcasts.MAX_ATTEMPT_ERRORS then Break(id) else Stuck(id)]
    {
      if stopping {
        return false;
      }
      errors := errors[id := 1 + if id in errors then errors[id] else 0];
      if errors[id] < Broadcasts.MAX_ATTEMPT_ERRORS {
        Note(Break(id));
        return false;
      }
      final := *;
      if !final {
        Note(Stuck(id));
        return;
      }
      rows := rows[id := rows[id].(status := Broadcasts.Failed)];
      errors := errors - {id};
      Note(GiveUp(id));
    }

    /** Works on the head of the queue until it is final (true), or a store call fails or a shutdown comes (false).
        budget bounds the batches of one execution; a shutdown is requested when it runs out. */
    method Process(id: Id, budget: nat) returns (final: bool)
      requires Valid() && IsHead(Now(), id)
      modifies this
      ensures Valid() && Continues() && id in rows
      ensures if final then !Pending(Now(), id) else IsHead(Now(), id)
    {
      hide IsHead, IsRun, InTurn, Enabled, Step;
      HeadIsPending(Now(), id);
      var ok := Start(id);
      if !ok {
        final := Fails(id);
        return;
      }
      var left := budget;
      while true
        invariant Valid() && Continues() && IsHead(Now(), id) && id in rows && rows[id].status.Sending?
        decreases left
      {
        OthersMeanwhile(id);
        if left == 0 { stopping := true; }
        if stopping {
          return false;
        }
        left := left - 1;
        var p := OneBatch(id);
        match p {
          case Ended(f) => return f;
          case Continue =>
        }
      }
    }

    /** Loads, sends and records one batch; with nothing left to send, marks the broadcast done. */
    method OneBatch(id: Id) returns (p: Progress)
      requires Valid() && IsHead(Now(), id) && id in rows && rows[id].status.Sending?
      modifies this
      ensures Valid() && Continues() && id in rows
      ensures match p
        case Continue => IsHead(Now(), id) && rows[id].status.Sending?
        case Ended(final) => if final then !Pending(Now(), id) else IsHead(Now(), id)
    {
      hide IsHead, IsRun, InTurn, Enabled, Step, Pending;
      var loaded: bool, more: bool := *, *;
      var ok := loaded;
      if loaded && !more {
        ok := Finish(id);
        if ok {
          return Ended(true);
        }
      } else if loaded {
        OthersMeanwhile(id);
        ok := Record(id);
      }
      if ok {
        return Continue;
      }
      var final := Fails(id);
      return Ended(final);
    }

    method Start(id: Id) returns (ok: bool)
      requires Valid() && IsHead(Now(), id)
      modifies this`rows, this`states, this`events
      ensures Valid() && Continues() && IsHead(Now(), id) && id in rows
      ensures ok ==> rows[id].status.Sending?
    {
      ok := true;
      if rows[id].status.Queued? {
        ok := *;
        if ok {
          rows := rows[id := rows[id].(status := Broadcasts.Sending)];
          Note(Begin(id));
        }
      }
    }

    method Record(id: Id) returns (ok: bool)
      requires Valid() && IsHead(Now(), id) && rows[id].status.Sending?
      modifies this`errors, this`states, this`events
      ensures Valid() && Continues() && IsHead(Now(), id)
    {
      ok := *;
      if ok {
        errors := errors - {id};
        Note(Commit(id));
      }
    }

    method Finish(id: Id) returns (ok: bool)
      requires Valid() && IsHead(Now(), id) && rows[id].status.Sending?
      modifies this`rows, this`errors, this`states, this`events
      ensures Valid() && Continues() && id in rows
      ensures if ok then !Pending(Now(), id) else IsHead(Now(), id)
    {
      ok := *;
      if ok {
        rows := rows[id := rows[id].(status := Broadcasts.Done)];
        errors := errors - {id};
        Note(Complete(id));
      }
    }

    method Fails(id: Id) returns (final: bool)
      requires Valid() && IsHead(Now(), id)
      modifies this`rows, this`errors, this`states, this`events
      ensures Valid() && Continues() && id in rows
      ensures if final then !Pending(Now(), id) else IsHead(Now(), id)
    {
      final := StoreError(id);
    }

    /** What others do leaves the broadcast at the head. */
    method OthersMeanwhile(id: Id)
      requires Valid() && IsHead(Now(), id)
      modifies this`rows, this`now, this`stopping, this`states, this`events
      ensures Valid() && Continues() && IsHead(Now(), id) && id in rows && id in old(rows) && rows[id] == old(rows)[id]
    {
      RunKeepsTurns(states, events, |events|);
      Others();
    }

    /** One broadcast after another, until none is left, one has to be retried, or a shutdown comes. */
    method Drain(rounds: nat, budget: nat) returns (how: Drained)
      requires Valid()
      modifies this
      ensures Valid() && Continues()
      ensures how.Emptied? ==> forall j :: !Pending(Now(), j)
      ensures how.Retry? ==> IsHead(Now(), how.id)
    {
      hide IsHead, IsRun, InTurn, Pending;
      var left := rounds;
      while !stopping
        invariant Valid() && Continues()
        decreases left, if stopping then 0 else 1
      {
        var ok, head := NextPending();
        if !ok {
          return Unread;
        }
        if head.None? {
          return Emptied;
        }
        var final := Process(head.value, budget);
        if !final {
          return Retry(head.value);
        }
        if left == 0 { stopping := true; } else { left := left - 1; }
      }
      return ShutDown;
    }

    /** Polls and wake-ups, each draining the queue; the process may be stopped and started again in between. Whatever
        happens, broadcasts go out in turn, and the errors of each are bounded as in ErrorsAreBounded. */
    method Run(polls: nat, rounds: nat, budget: nat)
      requires Valid()
      modifies this
      ensures Valid() && Continues() && InTurn(Now())
      ensures forall id :: AllErrors(events, id) <= 4 * (1 + FreshStarts(events, id)) + Stucks(events, id) + if IsFailed(Now(), id) then 1 else 0
    {
      for poll := 0 to polls
        invariant Valid() && Continues()
      {
        hide *;
        Others();
        if stopping { Restarted(); }
        var how := Drain(rounds, budget);
      }
      RunKeepsTurns(states, events, |events|);
      hide IsRun, InTurn, AllErrors, FreshStarts, Stucks, IsFailed;
      forall id ensures AllErrors(events, id) <= 4 * (1 + FreshStarts(events, id)) + Stucks(events, id) + if IsFailed(Now(), id) then 1 else 0 {
        ErrorsAreBounded(states, events, id);
      }
    }

    method Restarted()
      requires Valid()
      modifies this`errors, this`stopping, this`states, this`events
      ensures Valid() && Continues()
    {
      errors, stopping := map[], false;
      Note(Event.Restart);
    }
  }

  lemma HeadIsPending(q: Queue, id: Id)
    requires IsHead(q, id)
    ensures Pending(q, id) && id in q.rows
  {
  }

  /** Queueing and time leave the head of the queue where it is. */
  lemma HeadStays(q: Queue, q': Queue)
    requires InTurn(q) && (q' == q || (exists i :: Enabled(q, Enqueue(i)) && q' == Step(q, Enqueue(i))) || (exists t :: Enabled(q, Tick(t)) && q' == Step(q, Tick(t))))
    ensures InTurn(q') && forall i :: IsHead(q, i) ==> IsHead(q', i)
  {
  }
}
