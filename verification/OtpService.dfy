/** otpRepo as an object, and VerifyOTP as it runs: a sequence of repository calls and one provider
    check, between which any other call may do any of its steps. Service keeps a ghost history of the
    step system in OtpCodes. */
module OtpService {
  import opened Wrappers
  import opened OtpCodes

  /** otpRepo; now() is the clock field. */
  class OtpRepo {
    var rows: Table
    var now: int

    constructor (now: int)
      ensures rows == map[] && this.now == now
    {
      rows := map[];
      this.now := now;
    }

    /** SELECT max(created_at), count(*) FILTER (created_at >= now() - 1 hour) WHERE phone = phone. */
    method PhoneStats(phone: Phone) returns (last: Option<int>, inHour: nat)
      ensures (last.Some? && now - last.value < OTP_RESEND_COOLDOWN) <==> CoolingDown(rows, now, phone)
      ensures inHour == |PhoneSince(rows, phone, now - HOUR)|
    {
      last, inHour := None, 0;
      var ids := rows.Keys;
      ghost var counted: set<RowId> := {};
      while ids != {}
        invariant ids <= rows.Keys
        invariant last.Some? ==> exists i :: i in rows && i !in ids && rows[i].phone == phone && rows[i].created == last.value
        invariant forall i :: i in rows && i !in ids && rows[i].phone == phone ==> last.Some? && rows[i].created <= last.value
        invariant inHour == |counted|
        invariant forall i :: i in counted <==> i in PhoneSince(rows, phone, now - HOUR) && i !in ids
        decreases ids
      {
        HasMember(ids);
        var i :| i in ids;
        ids := ids - {i};
        if rows[i].phone == phone {
          if last.None? || last.value < rows[i].created {
            last := Some(rows[i].created);
          }
          if rows[i].created >= now - HOUR {
            inHour := inHour + 1;
            counted := counted + {i};
          }
        }
      }
      var from := now - HOUR;
      forall i ensures i in counted <==> i in PhoneSince(rows, phone, from) {}
      assert counted == PhoneSince(rows, phone, from);
    }

    /** reserve, under the phone's advisory lock: every limit, then the INSERT. */
    method Reserve(id: RowId, phone: Phone, ip: string, expires: int, lim: Limits) returns (r: Result<RowId, Refusal>)
      modifies this`rows
      ensures r == match Refuses(old(rows), now, phone, ip, lim) { case Some(e) => Err(e) case None => Ok(id) }
      ensures rows == if r.Ok? then Insert(old(rows), id, now, phone, ip, expires) else old(rows)
    {
      var last, inHour := PhoneStats(phone);
      if last.Some? && now - last.value < OTP_RESEND_COOLDOWN {
        return Err(Cooldown);
      }
      if inHour >= OTP_MAX_PER_HOUR {
        return Err(RateLimited);
      }
      if lim.perIP > 0 && ip != "" {
        var n := |IpSince(rows, ip, now - HOUR)|;
        if n >= lim.perIP {
          return Err(RateLimited);
        }
      }
      if lim.globalDay > 0 {
        var n := |Since(rows, now - DAY)|;
        if n >= lim.globalDay {
          return Err(DailyLimit);
        }
      }
      rows := rows[id := Otp(phone, ip, "", expires, None, now, 0)];
      return Ok(id);
    }

    /** The newest usable row: ORDER BY created_at DESC LIMIT 1. */
    method LatestActive(phone: Phone) returns (found: Option<RowId>)
      ensures IsLatestActive(rows, now, phone, found)
    {
      found := None;
      var ids := rows.Keys;
      while ids != {}
        invariant ids <= rows.Keys
        invariant found.Some? ==> found.value in Usable(rows, now, phone) && found.value !in ids
        invariant forall i :: i in Usable(rows, now, phone) && i !in ids ==>
          found.Some? && rows[i].created <= rows[found.value].created
        decreases ids
      {
        HasMember(ids);
        var i :| i in ids;
        ids := ids - {i};
        var r := rows[i];
        if r.phone == phone && r.consumed.None? && r.expires > now && r.token != "" {
          if found.None? || rows[found.value].created < r.created {
            found := Some(i);
          }
        }
      }
      HasMember(Usable(rows, now, phone));
    }

    method TakeAttempt(id: RowId, max: int) returns (attempt: Option<nat>)
      modifies this`rows
      ensures (rows, attempt) == OtpCodes.TakeAttempt(old(rows), id, max)
    {
      if id !in rows || rows[id].consumed.Some? || rows[id].attempts >= max {
        return None;
      }
      rows := rows[id := rows[id].(attempts := rows[id].attempts + 1)];
      return Some(rows[id].attempts);
    }

    /** burn and consume. */
    method Close(id: RowId) returns (changed: bool)
      modifies this`rows
      ensures (rows, changed) == OtpCodes.Close(old(rows), now, id)
    {
      changed := id in rows && rows[id].consumed.None?;
      if changed {
        rows := rows[id := rows[id].(consumed := Some(now))];
      }
    }

    method SetToken(id: RowId, token: string)
      modifies this`rows
      ensures rows == OtpCodes.SetToken(old(rows), id, token)
    {
      if id in rows { rows := rows[id := rows[id].(token := token)]; }
    }

    /** One pass of the cleanup loop; returns how many rows went. */
    method DeleteBefore(cutoff: int) returns (deleted: nat)
      modifies this`rows
      ensures rows == OtpCodes.DeleteBefore(old(rows), cutoff)
      ensures deleted == |old(rows)| - |rows|
    {
      var kept := map i | i in rows && rows[i].created >= cutoff :: rows[i];
      SubsetSize(kept.Keys, rows.Keys);
      deleted := |rows.Keys| - |kept.Keys|;
      assert |rows| == |rows.Keys| && |kept| == |kept.Keys|;
      rows := kept;
    }
  }

  /** Row ids never run out. */
  lemma {:induction false} FreshRowId(ids: set<RowId>)
    ensures exists i: RowId :: i !in ids && forall j :: j in ids ==> j < i
    decreases ids
  {
    if ids == {} {
      assert 0 !in ids;
    } else {
      HasMember(ids);
      var j :| j in ids;
      FreshRowId(ids - {j});
      var i: RowId :| i !in ids - {j} && forall k :: k in ids - {j} ==> k < i;
      var above := if i <= j then j + 1 else i;
      forall k | k in ids ensures k < above {
        if k != j { assert k in ids - {j}; }
      }
      assert above !in ids;
    }
  }

  function CallOf(e: Event): Option<CallId> {
    if e.Begin? || e.Choose? || e.Take? || e.Compare? || e.Burn? || e.Consume? || e.Abort? then Some(e.call) else None
  }

  /** What a step does does not depend on the bookkeeping, but for the row ids already drawn. */
  lemma SameButBookkeeping(s: Sys, t: Sys, e: Event)
    requires s.table == t.table && s.now == t.now && s.calls == t.calls && s.limits == t.limits
    requires s.maxAttempts == t.maxAttempts && s.retention == t.retention && s.sent == t.sent
    ensures Enabled(s, e) <==> Enabled(t, e)
    ensures Enabled(s, e) ==>
      var s', t' := Step(s, e), Step(t, e);
      && s'.table == t'.table && s'.now == t'.now && s'.calls == t'.calls && s'.limits == s.limits == t'.limits
      && s'.maxAttempts == s.maxAttempts == t'.maxAttempts && s'.retention == s.retention == t'.retention && s'.sent == t'.sent
  {
    hide Refuses, IsLatestActive, Close, TakeAttempt, Insert, SetToken, DeleteBefore, DeletePhone, AfterVerdict;
    if CallOf(e).None? { SameOfOthers(s, t, e); } else { SameOfCalls(s, t, e); }
    hide Step, Enabled;
  }

  lemma SameOfCalls(s: Sys, t: Sys, e: Event)
    requires s.table == t.table && s.now == t.now && s.calls == t.calls && s.limits == t.limits && s.sent == t.sent
    requires s.maxAttempts == t.maxAttempts && s.retention == t.retention && CallOf(e).Some?
    ensures Enabled(s, e) <==> Enabled(t, e)
    ensures Enabled(s, e) ==> AlikeButBookkeeping(Step(s, e), Step(t, e)) && KeepsSettings(s, Step(s, e)) && KeepsSettings(t, Step(t, e))
  {
    hide Refuses, IsLatestActive, Close, TakeAttempt, Insert, SetToken, DeleteBefore, DeletePhone, AfterVerdict;
  }

  lemma SameOfOthers(s: Sys, t: Sys, e: Event)
    requires s.table == t.table && s.now == t.now && s.calls == t.calls && s.limits == t.limits && s.sent == t.sent
    requires s.maxAttempts == t.maxAttempts && s.retention == t.retention && CallOf(e).None?
    ensures Enabled(s, e) <==> Enabled(t, e)
    ensures Enabled(s, e) ==> AlikeButBookkeeping(Step(s, e), Step(t, e)) && KeepsSettings(s, Step(s, e)) && KeepsSettings(t, Step(t, e))
  {
    hide Refuses, IsLatestActive, Close, TakeAttempt, Insert, SetToken, DeleteBefore, DeletePhone, AfterVerdict;
  }

  predicate AlikeButBookkeeping(s: Sys, t: Sys) {
    s.table == t.table && s.now == t.now && s.calls == t.calls && s.sent == t.sent
  }

  predicate KeepsSettings(s: Sys, s': Sys) {
    s'.limits == s.limits && s'.maxAttempts == s.maxAttempts && s'.retention == s.retention
  }

  lemma OtherCallsUntouched(s: Sys, e: Event, me: CallId)
    requires Enabled(s, e) && CallOf(e) != Some(me)
    ensures var s' := Step(s, e);
      (me in s'.calls <==> me in s.calls) && (me in s.calls ==> s'.calls[me] == s.calls[me])
  {
    hide Refuses, IsLatestActive;
  }

  lemma OnlyLogin(states: seq<Sys>, events: seq<Event>, me: CallId)
    requires IsHistory(states, events)
    ensures var calls := states[|events|].calls;
      me in calls && calls[me].LoggedIn? ==> forall c :: c in calls && c != me ==> calls[c] != calls[me]
  {
    RunKeepsBudget(states, events, |events|);
  }

  /** The clock does not go back. */
  lemma {:induction false} TimeGoesOn(states: seq<Sys>, events: seq<Event>, states': seq<Sys>, events': seq<Event>)
    requires IsHistory(states, events) && IsHistory(states', events') && states <= states' && events <= events'
    ensures states[|events|].now <= states'[|events'|].now
    decreases |events'| - |events|
  {
    hide Refuses, IsLatestActive;
    if |events'| > |events| {
      var k := |events|;
      var next := states'[..k + 2];
      assert states'[k] == states[k];
      assert states'[k].now <= states'[k + 1].now;
      TimeGoesOn(states'[..k + 2], events'[..k + 1], states', events');
    } else {
      assert events' == events && states' == states;
    }
  }

  /** Step k inserted the row of a request that no limit refused. */
  ghost predicate Reserves(states: seq<Sys>, events: seq<Event>, k: nat, id: RowId, phone: Phone, ip: string) {
    && k < |events| && |states| == |events| + 1
    && events[k].Reserve? && events[k].id == id && events[k].phone == phone && events[k].ip == ip
    && Refuses(states[k].table, states[k].now, phone, ip, states[k].limits).None?
    && states[k + 1].table == Insert(states[k].table, id, states[k].now, phone, ip, events[k].expires)
  }

  lemma ReservationStays(states: seq<Sys>, events: seq<Event>, states': seq<Sys>, events': seq<Event>, k: nat, id: RowId, phone: Phone, ip: string)
    requires Reserves(states, events, k, id, phone, ip) && states <= states' && events <= events' && |states'| == |events'| + 1
    ensures Reserves(states', events', k, id, phone, ip)
  {
    hide Refuses, Insert;
  }

  /** Step k deleted so many rows: those older than the retention when the pass began, and no other. */
  ghost predicate Cleans(states: seq<Sys>, events: seq<Event>, k: nat, deleted: nat) {
    && k < |events| && |states| == |events| + 1 && events[k].Cleanup?
    && states[k + 1].table == DeleteBefore(states[k].table, events[k].at - states[k].retention)
    && deleted == |states[k].table| - |states[k + 1].table|
  }

  lemma CleansStay(states: seq<Sys>, events: seq<Event>, states': seq<Sys>, events': seq<Event>, passes: seq<nat>, counts: seq<nat>)
    requires |passes| == |counts| && states <= states' && events <= events' && |states'| == |events'| + 1
    requires forall a :: 0 <= a < |passes| ==> Cleans(states, events, passes[a], counts[a])
    ensures forall a :: 0 <= a < |passes| ==> Cleans(states', events', passes[a], counts[a])
  {
    hide DeleteBefore;
  }

  /** How a request for a code ends. NotReserved, TokenLost and an unburned Unsent are store errors; a row reserved before
      one stays as it is, without a token. */
  datatype Requested =
    | NotReserved
    | Denied(why: Refusal)
    | Sent(id: RowId)
    | TokenLost(id: RowId)
    | Unsent(id: RowId, burned: bool)

  class Service {
    const repo: OtpRepo
    const limits: Limits
    const maxAttempts: int
    const retention: int
    var calls: map<CallId, Stage>
    var drawn: map<RowId, (Phone, int)>

    ghost var states: seq<Sys>
    ghost var events: seq<Event>

    constructor (repo: OtpRepo, limits: Limits, configured: int, retention: int)
      requires repo.rows == map[]
      ensures this.repo == repo && maxAttempts == MaxAttempts(configured) && Valid() && calls == map[]
    {
      this.repo, this.limits, this.retention := repo, limits, retention;
      maxAttempts := MaxAttempts(configured);
      calls, drawn := map[], map[];
      states := [Sys(map[], repo.now, map[], limits, MaxAttempts(configured), retention, map[], map[],
                     multiset{}, multiset{}, multiset{}, {})];
      events := [];
    }

    ghost predicate Valid()
      reads this, repo
    {
      IsHistory(states, events) && Agrees(states[|events|])
    }

    ghost predicate Agrees(s: Sys)
      reads this, repo
    {
      && s.table == repo.rows && s.now == repo.now && s.calls == calls && s.sent == drawn
      && s.limits == limits && s.maxAttempts == maxAttempts && s.retention == retention
    }

    ghost function Now(): Sys
      requires IsHistory(states, events)
      reads this
    {
      states[|events|]
    }

    twostate predicate Continues()
      reads this
    {
      old(states) <= states && old(events) <= events
    }

    ghost method Note(e: Event)
      requires IsHistory(states, events) && Enabled(Now(), e) && Agrees(Step(Now(), e))
      modifies this`states, this`events
      ensures Valid() && Continues() && Now() == Step(old(Now()), e) && events == old(events) + [e]
    {
      states := states + [Step(Now(), e)];
      events := events + [e];
    }

    /** Any steps of anybody else: requests, other verifications, cleanup, deletions, time passing. */
    method Others(me: CallId)
      requires Valid()
      modifies this`calls, this`drawn, this`states, this`events, repo
      ensures Valid() && Continues()
      ensures (me in calls <==> me in old(calls)) && (me in calls ==> calls[me] == old(calls)[me])
    {
      hide Step, Enabled;
      var n: int := *;
      while n > 0
        invariant Valid() && Continues()
        invariant (me in calls <==> me in old(calls)) && (me in calls ==> calls[me] == old(calls)[me])
      {
        n := n - 1;
        var e: Event := *;
        var s := Sys(repo.rows, repo.now, calls, limits, maxAttempts, retention, map[], drawn,
                     multiset{}, multiset{}, multiset{}, {});
        if CallOf(e) != Some(me) && Enabled(s, e) {
          var s' := Step(s, e);
          SameButBookkeeping(s, Now(), e);
          OtherCallsUntouched(s, e, me);
          repo.rows, repo.now, calls, drawn := s'.table, s'.now, s'.calls, s'.sent;
          Note(e);
        }
      }
    }

    /** RequestOTP: a row is reserved before the SMS goes out, so a failed send counts towards the limits
        too; then the row gets the provider's token or is burned, unless that store call fails. */
    method RequestOTP(phone: Phone, ip: string, token: string) returns (r: Requested)
      requires Valid()
      modifies this`calls, this`drawn, this`states, this`events, repo
      ensures Valid() && Continues()
      ensures r.Denied? ==> |events| > |old(events)| && events[|events| - 1].Reserve? && Refuses(repo.rows, repo.now, phone, ip, limits) == Some(r.why)
      ensures r.Sent? || r.TokenLost? || r.Unsent? ==> exists k :: |old(events)| <= k < |events| && Reserves(states, events, k, r.id, phone, ip)
      ensures r.Sent? ==> |events| >= |old(events)| + 2 && events[|events| - 1] == SetTokenOf(r.id, token)
      ensures r.Unsent? && r.burned ==> |events| >= |old(events)| + 2 && events[|events| - 1] == BurnUnsent(r.id)
    {
      hide Refuses, Step, Enabled;
      var expires := repo.now + OTP_TTL;
      var bystander: CallId := *;
      Others(bystander);
      var failed: bool := *;
      if failed {
        return NotReserved;
      }
      TimeGoesOn(old(states), old(events), states, events);
      var reserved := ReserveRow(phone, ip, expires);
      if reserved.Err? {
        return Denied(reserved.error);
      }
      ghost var events0, states0 := events, states;
      r := SendCode(reserved.value, token);
      ReservationStays(states0, events0, states, events, |events0| - 1, reserved.value, phone, ip);
    }

    /** Meanwhile the SMS goes out, or fails; then the store call that records it may fail. */
    method SendCode(id: RowId, token: string) returns (r: Requested)
      requires Valid()
      modifies this`calls, this`drawn, this`states, this`events, repo
      ensures Valid() && Continues()
      ensures match r
        case Sent(i) => i == id && |events| > |old(events)| && events[|events| - 1] == SetTokenOf(id, token)
        case TokenLost(i) => i == id
        case Unsent(i, burned) => i == id && (burned ==> |events| > |old(events)| && events[|events| - 1] == BurnUnsent(id))
        case _ => false
    {
      var bystander: CallId := *;
      Others(bystander);
      var sent: bool, failed: bool := *, *;
      if sent && failed {
        return TokenLost(id);
      }
      if sent {
        repo.SetToken(id, token);
        Note(SetTokenOf(id, token));
        return Sent(id);
      }
      if !failed {
        var _ := repo.Close(id);
        Note(BurnUnsent(id));
      }
      return Unsent(id, !failed);
    }

    method ReserveRow(phone: Phone, ip: string, expires: int) returns (r: Result<RowId, Refusal>)
      requires Valid() && expires <= repo.now + OTP_TTL
      modifies this`drawn, this`states, this`events, repo
      ensures Valid() && Continues() && |events| == |old(events)| + 1
      ensures r.Ok? ==> Reserves(states, events, |events| - 1, r.value, phone, ip)
      ensures r.Err? ==> events[|events| - 1].Reserve? && Refuses(repo.rows, repo.now, phone, ip, limits) == Some(r.error)
    {
      hide Refuses;
      FreshRowId(drawn.Keys);
      var id: RowId :| id !in drawn.Keys;
      r := repo.Reserve(id, phone, ip, expires, limits);
      if r.Ok? { drawn := drawn[id := (phone, repo.now)]; }
      Note(Reserve(id, phone, ip, expires));
    }

    /** The cleanup loop: each pass deletes what was older than the retention when the pass began, and counts
        it. passes says which steps of the history they were. */
    method RunCleanup(rounds: nat) returns (counts: seq<nat>, ghost passes: seq<nat>)
      requires Valid()
      modifies this`calls, this`drawn, this`states, this`events, repo
      ensures Valid() && Continues() && |counts| == |passes| == rounds
      ensures forall i, j :: 0 <= i < j < rounds ==> passes[i] < passes[j]
      ensures forall i :: 0 <= i < rounds ==> |old(events)| <= passes[i] && Cleans(states, events, passes[i], counts[i])
    {
      hide Cleans, IsHistory;
      counts, passes := [], [];
      for i := 0 to rounds
        invariant Valid() && Continues() && |counts| == |passes| == i
        invariant forall a, b :: 0 <= a < b < i ==> passes[a] < passes[b]
        invariant forall a :: 0 <= a < i ==> |old(events)| <= passes[a] < |events| && Cleans(states, events, passes[a], counts[a])
      {
        var bystander: CallId := *;
        ghost var before, beforeEvents := states, events;
        var n := CleanupPass(repo.now, bystander);
        CleansStay(before, beforeEvents, states, events, passes, counts);
        counts, passes := counts + [n], passes + [|events| - 1];
      }
    }

    method CleanupPass(at: int, bystander: CallId) returns (deleted: nat)
      requires Valid() && at <= repo.now
      modifies this`calls, this`drawn, this`states, this`events, repo
      ensures Valid() && Continues() && |events| > |old(events)| && events[|events| - 1] == Cleanup(at)
      ensures Cleans(states, events, |events| - 1, deleted)
    {
      Others(bystander);
      TimeGoesOn(old(states), old(events), states, events);
      deleted := repo.DeleteBefore(at - retention);
      Note(Cleanup(at));
    }

    /** VerifyOTP up to the login. A row number: this call, and no other call ever, logs in with it. */
    method VerifyOTP(me: CallId, phone: Phone) returns (row: Option<RowId>)
      requires Valid() && me !in calls
      modifies this`calls, this`drawn, this`states, this`events, repo
      ensures Valid() && Continues() && me in calls
      ensures row.Some? ==> calls[me] == LoggedIn(row.value) && forall c :: c in calls && c != me ==> calls[c] != LoggedIn(row.value)
      ensures row.None? ==> calls[me] == Refused
    {
      calls := calls[me := Verifying(phone)];
      Note(Begin(me, phone));
      row := Find(me, phone);
      OnlyLogin(states, events, me);
    }

    /** Picks the newest usable code of the phone. */
    method Find(me: CallId, phone: Phone) returns (row: Option<RowId>)
      requires Valid() && me in calls && calls[me] == Verifying(phone)
      modifies this`calls, this`drawn, this`states, this`events, repo
      ensures Valid() && Continues() && me in calls
      ensures calls[me] == if row.Some? then LoggedIn(row.value) else Refused
    {
      Others(me);
      var failed: bool := *;
      if failed {
        Fail(me);
        return None;
      }
      var found := repo.LatestActive(phone);
      calls := calls[me := if found.Some? then Chosen(found.value) else Refused];
      Note(Choose(me, found));
      if found.None? {
        return None;
      }
      row := Guess(me, found.value);
    }

    /** A store error ends the call. */
    method Fail(me: CallId)
      requires Valid() && me in calls && !calls[me].LoggedIn?
      modifies this`calls, this`states, this`events
      ensures Valid() && Continues() && me in calls && calls[me] == Refused
    {
      calls := calls[me := Refused];
      Note(Abort(me));
    }

    /** Spends one attempt, before the provider sees the code. */
    method Guess(me: CallId, id: RowId) returns (row: Option<RowId>)
      requires Valid() && me in calls && calls[me] == Chosen(id)
      modifies this`calls, this`drawn, this`states, this`events, repo
      ensures Valid() && Continues() && me in calls
      ensures calls[me] == if row.Some? then LoggedIn(row.value) else Refused
    {
      Others(me);
      var failed: bool := *;
      if failed {
        Fail(me);
        return None;
      }
      var attempt := SpendAttempt(me, id);
      if attempt.None? {
        return None;
      }
      row := Check(me, id, attempt.value);
    }

    method SpendAttempt(me: CallId, id: RowId) returns (attempt: Option<nat>)
      requires Valid() && me in calls && calls[me] == Chosen(id)
      modifies this`calls, this`states, this`events, repo`rows
      ensures Valid() && Continues() && me in calls
      ensures calls[me] == if attempt.Some? then Guessing(id, attempt.value) else Refused
    {
      attempt := repo.TakeAttempt(id, maxAttempts);
      calls := calls[me := if attempt.Some? then Guessing(id, attempt.value) else Refused];
      Note(Take(me));
    }

    /** Asks the provider; the last wrong guess burns the code, a right one consumes it. */
    method Check(me: CallId, id: RowId, attempt: nat) returns (row: Option<RowId>)
      requires Valid() && me in calls && calls[me] == Guessing(id, attempt)
      modifies this`calls, this`drawn, this`states, this`events, repo
      ensures Valid() && Continues() && me in calls
      ensures calls[me] == if row.Some? then LoggedIn(row.value) else Refused
    {
      Others(me);
      var verdict: Verdict := *;
      calls := calls[me := AfterVerdict(calls[me], verdict, maxAttempts)];
      Note(Compare(me, verdict));
      if calls[me].Refused? {
        return None;
      }
      row := Settle(me, id);
    }

    method Settle(me: CallId, id: RowId) returns (row: Option<RowId>)
      requires Valid() && me in calls && calls[me] in {Burning(id), Consuming(id)}
      modifies this`calls, this`drawn, this`states, this`events, repo
      ensures Valid() && Continues() && me in calls
      ensures calls[me] == if row.Some? then LoggedIn(row.value) else Refused
    {
      Others(me);
      var failed: bool := *;
      if failed {
        Fail(me);
        return None;
      }
      var changed := repo.Close(id);
      if calls[me].Burning? {
        calls := calls[me := Refused];
        Note(Burn(me));
        return None;
      }
      calls := calls[me := if changed then LoggedIn(id) else Refused];
      Note(Consume(me));
      row := if changed then Some(id) else None;
    }
  }
}
