/** Exactly when the limiter's sweeps can be noticed: whenever a burst does not refill in a whole number of
    nanoseconds, some run shows it, but for the limits with room for one client of OneClient. */
module SweepVisibility {
  import opened RateLimit
  import opened OneClient

  /** n requests at one instant. */
  function Repeat(key: string, now: int, n: nat): (calls: seq<Call>)
    ensures |calls| == n && forall i :: 0 <= i < n ==> calls[i] == Call(key, now)
  {
    if n == 0 then [] else [Call(key, now)] + Repeat(key, now, n - 1)
  }

  function AllAdmitted(n: nat): (answers: seq<Answer>)
    ensures |answers| == n && forall i :: 0 <= i < n ==> answers[i] == Admitted
  {
    if n == 0 then [] else [Admitted] + AllAdmitted(n - 1)
  }

  function IdealAfter(l: Limits, m: map<string, Bucket>, calls: seq<Call>): map<string, Bucket>
    decreases |calls|
  {
    if calls == [] then m else IdealAfter(l, IdealAllow(l, m, calls[0].key, calls[0].now).0, calls[1..])
  }

  lemma {:induction false} IdealRunSplits(l: Limits, m: map<string, Bucket>, a: seq<Call>, b: seq<Call>)
    ensures IdealRun(l, m, a + b) == IdealRun(l, m, a) + IdealRun(l, IdealAfter(l, m, a), b)
    decreases |a|
  {
    hide IdealAllow;
    if a == [] {
      assert a + b == b;
    } else {
      assert (a + b)[0] == a[0] && (a + b)[1..] == a[1..] + b;
      IdealRunSplits(l, IdealAllow(l, m, a[0].key, a[0].now).0, a[1..], b);
    }
  }

  lemma SameInstant(l: Limits, tokens: real, now: int)
    requires l.rps > 0.0 && tokens <= l.burst as real
    ensures Balance(l, Bucket(tokens, now), now) == tokens
  {
    RefillSplits(l, 0, 0);
  }

  /** No sweep is due at now. */
  ghost predicate Quiet(s: State, now: int) { now - s.lastSweep < SWEEP_INTERVAL }

  lemma OneAdmitted(l: Limits, s: State, key: string, now: int)
    requires WellFormed(l) && Quiet(s, now) && key in s.buckets && Balance(l, s.buckets[key], now) >= 1.0
    ensures AllowStep(l, s, key, now) == (State(s.buckets[key := Bucket(Balance(l, s.buckets[key], now) - 1.0, now)], s.lastSweep), Admitted)
  {
    hide Balance;
  }

  lemma {:induction false} LimiterAdmits(l: Limits, s: State, key: string, now: int, n: nat)
    requires WellFormed(l) && Quiet(s, now) && key in s.buckets && s.buckets[key].last == now
    requires n as real <= s.buckets[key].tokens <= l.burst as real
    ensures Run(l, s, Repeat(key, now, n)) == AllAdmitted(n)
    ensures After(l, s, Repeat(key, now, n)) == State(s.buckets[key := Bucket(s.buckets[key].tokens - n as real, now)], s.lastSweep)
    decreases n
  {
    hide Balance, AllowStep;
    var b := s.buckets[key];
    SameInstant(l, b.tokens, now);
    if n == 0 {
      assert s.buckets[key := Bucket(b.tokens - 0.0, now)] == s.buckets;
    } else {
      OneAdmitted(l, s, key, now);
      var s' := State(s.buckets[key := Bucket(b.tokens - 1.0, now)], s.lastSweep);
      LimiterAdmits(l, s', key, now, n - 1);
      var calls := Repeat(key, now, n);
      assert calls[0] == Call(key, now) && calls[1..] == Repeat(key, now, n - 1);
    }
  }

  /** A client that was not tracked, or has a full bucket, can spend its whole burst. */
  ghost predicate HasBurst(l: Limits, buckets: map<string, Bucket>, key: string, now: int) {
    key in buckets ==> Balance(l, buckets[key], now) == l.burst as real
  }

  lemma BurstFirst(l: Limits, s: State, key: string, now: int)
    requires WellFormed(l) && Quiet(s, now) && HasBurst(l, s.buckets, key, now) && (key in s.buckets || |s.buckets| < l.maxClients)
    ensures AllowStep(l, s, key, now) == (State(s.buckets[key := Bucket(l.burst as real - 1.0, now)], s.lastSweep), Admitted)
    ensures Quiet(State(s.buckets[key := Bucket(l.burst as real - 1.0, now)], s.lastSweep), now)
  {
    SameInstant(l, l.burst as real, now);
    assert l.burst >= 1;
    hide Balance, WellFormed;
  }

  lemma BurstAdmitted(l: Limits, s: State, key: string, now: int)
    requires WellFormed(l) && Quiet(s, now) && HasBurst(l, s.buckets, key, now) && (key in s.buckets || |s.buckets| < l.maxClients)
    ensures Run(l, s, Repeat(key, now, l.burst)) == AllAdmitted(l.burst)
    ensures After(l, s, Repeat(key, now, l.burst)) == State(s.buckets[key := Bucket(0.0, now)], s.lastSweep)
  {
    hide *;
    OneLess(l);
    var rest := (l.burst - 1) as real;
    var s' := State(s.buckets[key := Bucket(rest, now)], s.lastSweep);
    BurstFirst(l, s, key, now);
    LimiterAdmits(l, s', key, now, l.burst - 1);
    OneOfMany(l, s, key, now, l.burst);
    SetTwice(s.buckets, key, Bucket(rest, now), Bucket(rest - rest, now));
  }

  lemma OneLess(l: Limits)
    requires WellFormed(l)
    ensures l.burst >= 1 && 0.0 <= (l.burst - 1) as real == l.burst as real - 1.0
  {
  }

  lemma SetTwice(m: map<string, Bucket>, key: string, first: Bucket, second: Bucket)
    ensures m[key := first][key := second] == m[key := second]
  {
  }

  lemma OneOfMany(l: Limits, s: State, key: string, now: int, n: nat)
    requires n > 0
    ensures var (s', a) := AllowStep(l, s, key, now);
      && Run(l, s, Repeat(key, now, n)) == [a] + Run(l, s', Repeat(key, now, n - 1))
      && After(l, s, Repeat(key, now, n)) == After(l, s', Repeat(key, now, n - 1))
    ensures AllAdmitted(n) == [Admitted] + AllAdmitted(n - 1)
  {
    hide AllowStep;
    var calls := Repeat(key, now, n);
    assert calls[0] == Call(key, now) && calls[1..] == Repeat(key, now, n - 1);
  }

  lemma OneOfManyIdeal(l: Limits, m: map<string, Bucket>, key: string, now: int, n: nat)
    requires n > 0
    ensures IdealAfter(l, m, Repeat(key, now, n)) == IdealAfter(l, IdealAllow(l, m, key, now).0, Repeat(key, now, n - 1))
  {
    hide IdealAllow;
    var calls := Repeat(key, now, n);
    assert calls[0] == Call(key, now) && calls[1..] == Repeat(key, now, n - 1);
  }

  lemma IdealFirst(l: Limits, m: map<string, Bucket>, key: string, now: int)
    requires WellFormed(l) && HasBurst(l, m, key, now)
    ensures IdealAllow(l, m, key, now) == (m[key := Bucket(l.burst as real - 1.0, now)], Admitted)
  {
    SameInstant(l, l.burst as real, now);
    assert l.burst >= 1;
    hide Balance, WellFormed;
  }

  lemma {:induction false} IdealAdmits(l: Limits, m: map<string, Bucket>, key: string, now: int, n: nat)
    requires WellFormed(l) && key in m && m[key].last == now && n as real <= m[key].tokens <= l.burst as real
    ensures IdealAfter(l, m, Repeat(key, now, n)) == m[key := Bucket(m[key].tokens - n as real, now)]
    decreases n
  {
    hide Balance;
    SameInstant(l, m[key].tokens, now);
    if n == 0 {
      assert m[key := Bucket(m[key].tokens - 0.0, now)] == m;
    } else {
      var m' := m[key := Bucket(m[key].tokens - 1.0, now)];
      assert IdealAllow(l, m, key, now) == (m', Admitted);
      IdealAdmits(l, m', key, now, n - 1);
      var calls := Repeat(key, now, n);
      assert calls[0] == Call(key, now) && calls[1..] == Repeat(key, now, n - 1);
    }
  }

  lemma IdealDrains(l: Limits, m: map<string, Bucket>, key: string, now: int)
    requires WellFormed(l) && HasBurst(l, m, key, now)
    ensures IdealAfter(l, m, Repeat(key, now, l.burst)) == m[key := Bucket(0.0, now)]
  {
    hide *;
    OneLess(l);
    var rest := (l.burst - 1) as real;
    IdealFirst(l, m, key, now);
    IdealAdmits(l, m[key := Bucket(rest, now)], key, now, l.burst - 1);
    OneOfManyIdeal(l, m, key, now, l.burst);
    SetTwice(m, key, Bucket(rest, now), Bucket(rest - rest, now));
  }

  /** With fewer than n tokens the last of n requests is refused. */
  lemma {:induction false} IdealRefusesLast(l: Limits, m: map<string, Bucket>, key: string, now: int, n: nat)
    requires WellFormed(l) && key in m && 1 <= n <= l.burst && Balance(l, m[key], now) < n as real
    ensures IdealRun(l, m, Repeat(key, now, n))[n - 1].Refused?
    decreases n
  {
    var y := Balance(l, m[key], now);
    var left := if y >= 1.0 then y - 1.0 else y;
    SameInstant(l, left, now);
    hide Balance;
    var (m', a) := IdealAllow(l, m, key, now);
    assert m' == m[key := Bucket(left, now)] && (y < 1.0 ==> a.Refused?);
    hide IdealAllow;
    var calls := Repeat(key, now, n);
    assert calls[0] == Call(key, now) && calls[1..] == Repeat(key, now, n - 1);
    assert IdealRun(l, m, calls) == [a] + IdealRun(l, m', calls[1..]);
    if n > 1 { IdealRefusesLast(l, m', key, now, n - 1); }
  }

  /** The first call of a fresh limiter finds a sweep due: lastSweep starts at the zero time. */
  ghost predicate Plausible(zeroTime: int, calls: seq<Call>) {
    ClockNeverGoesBack(calls) && (calls != [] ==> calls[0].now - zeroTime >= SWEEP_INTERVAL)
  }

  ghost predicate Unnoticed(l: Limits, zeroTime: int, calls: seq<Call>) {
    var s := State(map[], zeroTime);
    FailedOpen !in Run(l, s, calls) ==> Run(l, s, calls) == IdealRun(l, map[], calls)
  }

  // ---- runs that show it ----

  lemma {:induction false} AfterSplits(l: Limits, s: State, a: seq<Call>, b: seq<Call>)
    ensures After(l, s, a + b) == After(l, After(l, s, a), b)
    decreases |a|
  {
    hide AllowStep;
    if a == [] {
      assert a + b == b;
    } else {
      assert (a + b)[0] == a[0] && (a + b)[1..] == a[1..] + b;
      AfterSplits(l, AllowStep(l, s, a[0].key, a[0].now).0, a[1..], b);
    }
  }

  /** A state in which a client has just spent its burst, as both limiters see it. */
  ghost predicate Drained(l: Limits, s: State, m: map<string, Bucket>, key: string, drained: int) {
    key in s.buckets && key in m && s.buckets[key] == m[key] == Bucket(0.0, drained)
  }

  lemma BothDrain(l: Limits, s: State, m: map<string, Bucket>, key: string, now: int)
    requires WellFormed(l) && Quiet(s, now) && (key in s.buckets || |s.buckets| < l.maxClients)
    requires HasBurst(l, s.buckets, key, now) && HasBurst(l, m, key, now)
    ensures var calls := Repeat(key, now, l.burst);
      var s', m' := After(l, s, calls), IdealAfter(l, m, calls);
      && Run(l, s, calls) == AllAdmitted(l.burst)
      && s' == State(s.buckets[key := Bucket(0.0, now)], s.lastSweep) && m' == m[key := Bucket(0.0, now)]
      && Drained(l, s', m', key, now)
  {
    BurstAdmitted(l, s, key, now);
    IdealDrains(l, m, key, now);
    hide WellFormed, Run, After, IdealAfter, Repeat, AllAdmitted, HasBurst;
  }

  /** A due sweep of a map in which everybody has been idle for fullAfter forgets all, as does the first call of a
      fresh limiter. */
  lemma SweptClean(l: Limits, s: State, key: string, now: int)
    requires WellFormed(l) && now - s.lastSweep >= SWEEP_INTERVAL && forall k :: k in s.buckets ==> now - s.buckets[k].last >= l.fullAfter
    ensures forall n: nat :: n > 0 ==>
      && Run(l, s, Repeat(key, now, n)) == Run(l, State(map[], now), Repeat(key, now, n))
      && After(l, s, Repeat(key, now, n)) == After(l, State(map[], now), Repeat(key, now, n))
  {
    var empty := State(map[], now);
    assert Swept(l, s, now) == empty;
    assert AllowStep(l, s, key, now) == AllowStep(l, empty, key, now) by { hide Spend; }
    hide AllowStep;
    forall n: nat | n > 0
      ensures Run(l, s, Repeat(key, now, n)) == Run(l, empty, Repeat(key, now, n))
      ensures After(l, s, Repeat(key, now, n)) == After(l, empty, Repeat(key, now, n))
    {
      var calls := Repeat(key, now, n);
      assert calls[0] == Call(key, now);
    }
  }

  /** The sweep forgets a burst spent fullAfter ago, and the next one is served whole; ideally its last request is
      refused. */
  lemma SecondBurst(l: Limits, s: State, m: map<string, Bucket>, key: string, drained: int, again: int)
    requires WellFormed(l) && !WholeRefillTime(l) && Drained(l, s, m, key, drained) && again == drained + l.fullAfter
    requires again - s.lastSweep >= SWEEP_INTERVAL && forall k :: k in s.buckets ==> again - s.buckets[k].last >= l.fullAfter
    ensures Run(l, s, Repeat(key, again, l.burst)) == AllAdmitted(l.burst)
    ensures l.burst >= 1 && IdealRun(l, m, Repeat(key, again, l.burst))[l.burst - 1].Refused?
  {
    OneLess(l);
    SweptClean(l, s, key, again);
    assert Balance(l, m[key], again) < l.burst as real by {
      WholeRefillTimeIsExact(l);
      FullAfterBounds(l);
    }
    assert l.maxClients >= 1;
    hide WellFormed, WholeRefillTime, Run, Repeat, Balance, IdealRun;
    BurstAdmitted(l, State(map[], again), key, again);
    IdealRefusesLast(l, m, key, again, l.burst);
  }

  /** A run that is served to its end although the ideal limiter refuses its last request. */
  lemma Shows(l: Limits, calls: seq<Call>)
    requires calls != [] && Plausible(-SWEEP_INTERVAL, calls)
    requires Run(l, State(map[], -SWEEP_INTERVAL), calls) == AllAdmitted(|calls|)
    requires IdealRun(l, map[], calls)[|calls| - 1].Refused?
    ensures !Unnoticed(l, -SWEEP_INTERVAL, calls)
  {
    hide Run, IdealRun;
    assert AllAdmitted(|calls|)[|calls| - 1] == Admitted;
  }

  lemma {:induction false} AdmittedConcat(m: nat, n: nat)
    ensures AllAdmitted(m) + AllAdmitted(n) == AllAdmitted(m + n)
  {
  }

  /** Served calls, and then a burst that follows on one spent fullAfter ago. */
  lemma BurstShows(l: Limits, first: seq<Call>, key: string, drained: int, again: int) returns (calls: seq<Call>)
    requires WellFormed(l) && !WholeRefillTime(l) && again == drained + l.fullAfter && again >= SWEEP_INTERVAL
    requires first != [] && ClockNeverGoesBack(first) && first[0].now == 0 && first[|first| - 1].now == drained
    requires var s, m := After(l, State(map[], -SWEEP_INTERVAL), first), IdealAfter(l, map[], first);
      && Run(l, State(map[], -SWEEP_INTERVAL), first) == AllAdmitted(|first|)
      && Drained(l, s, m, key, drained) && s.lastSweep == 0 && forall k :: k in s.buckets ==> again - s.buckets[k].last >= l.fullAfter
    ensures Plausible(-SWEEP_INTERVAL, calls) && !Unnoticed(l, -SWEEP_INTERVAL, calls)
  {
    var s0, second := State(map[], -SWEEP_INTERVAL), Repeat(key, again, l.burst);
    calls := first + second;
    OneLess(l);
    FullAfterBounds(l);
    SecondBurst(l, After(l, s0, first), IdealAfter(l, map[], first), key, drained, again);
    hide Run, After, IdealRun, IdealAfter, WholeRefillTime, AllAdmitted, Drained;
    RunSplits(l, s0, first, second);
    IdealRunSplits(l, map[], first, second);
    AdmittedConcat(|first|, l.burst);
    hide WellFormed;
    Later(first, second, drained, again);
    Shows(l, calls);
  }

  lemma Later(first: seq<Call>, second: seq<Call>, drained: int, again: int)
    requires first != [] && ClockNeverGoesBack(first) && first[|first| - 1].now == drained <= again
    requires forall i :: 0 <= i < |second| ==> second[i].now == again
    ensures ClockNeverGoesBack(first + second)
  {
  }

  /** One client to start the sweep clock, another that drains its burst a moment too short before the
      sweep and asks for all of it again just after. */
  lemma TwoClientsShow(l: Limits) returns (calls: seq<Call>)
    requires WellFormed(l) && !WholeRefillTime(l) && l.maxClients >= 2 && 1 <= l.fullAfter < SWEEP_INTERVAL
    ensures Plausible(-SWEEP_INTERVAL, calls) && !Unnoticed(l, -SWEEP_INTERVAL, calls)
  {
    var start := [Call("b", 0)];
    var drained, again := SWEEP_INTERVAL - l.fullAfter, SWEEP_INTERVAL;
    var s1 := State(map["b" := Bucket(l.burst as real - 1.0, 0)], 0);
    StartOf(l, "b");
    assert HasBurst(l, s1.buckets, "a", drained);
    hide WellFormed, WholeRefillTime, Run, After, IdealRun, IdealAfter, HasBurst, Balance;
    var burst := Repeat("a", drained, l.burst);
    BothDrain(l, s1, s1.buckets, "a", drained);
    Joined(l, start, burst, s1);
    AdmittedConcat(1, l.burst);
    Later(start, burst, 0, drained);
    calls := BurstShows(l, start + burst, "a", drained, again);
  }

  /** The first call of a fresh limiter. */
  lemma StartOf(l: Limits, key: string)
    requires WellFormed(l)
    ensures var s1 := State(map[key := Bucket(l.burst as real - 1.0, 0)], 0);
      && l.burst >= 1
      && Run(l, State(map[], -SWEEP_INTERVAL), [Call(key, 0)]) == AllAdmitted(1)
      && After(l, State(map[], -SWEEP_INTERVAL), [Call(key, 0)]) == s1
      && IdealAfter(l, map[], [Call(key, 0)]) == s1.buckets
  {
  }

  lemma {:induction false} IdealAfterSplits(l: Limits, m: map<string, Bucket>, a: seq<Call>, b: seq<Call>)
    ensures IdealAfter(l, m, a + b) == IdealAfter(l, IdealAfter(l, m, a), b)
    decreases |a|
  {
    hide IdealAllow;
    if a == [] {
      assert a + b == b;
    } else {
      assert (a + b)[0] == a[0] && (a + b)[1..] == a[1..] + b;
      IdealAfterSplits(l, IdealAllow(l, m, a[0].key, a[0].now).0, a[1..], b);
    }
  }

  /** A run that goes on where another, served throughout, ended. */
  lemma Joined(l: Limits, first: seq<Call>, second: seq<Call>, s: State)
    requires WellFormed(l)
    requires var s0 := State(map[], -SWEEP_INTERVAL);
      Run(l, s0, first) == AllAdmitted(|first|) && After(l, s0, first) == s && IdealAfter(l, map[], first) == s.buckets
    ensures var s0 := State(map[], -SWEEP_INTERVAL);
      && Run(l, s0, first + second) == AllAdmitted(|first|) + Run(l, s, second)
      && After(l, s0, first + second) == After(l, s, second)
      && IdealAfter(l, map[], first + second) == IdealAfter(l, s.buckets, second)
      && IdealRun(l, map[], first + second) == IdealRun(l, map[], first) + IdealRun(l, s.buckets, second)
  {
    var s0 := State(map[], -SWEEP_INTERVAL);
    assert l.rps > 0.0;
    hide Run, After, IdealRun, IdealAfter, WellFormed;
    RunSplits(l, s0, first, second);
    AfterSplits(l, s0, first, second);
    IdealAfterSplits(l, map[], first, second);
    IdealRunSplits(l, map[], first, second);
  }

  /** The client itself starts the sweep clock, and has refilled by the last nanosecond before the sweep. */
  lemma OneClientShows(l: Limits) returns (calls: seq<Call>)
    requires WellFormed(l) && !WholeRefillTime(l) && 1 <= l.fullAfter < SWEEP_INTERVAL && !LastNanosecond(l)
    ensures Plausible(-SWEEP_INTERVAL, calls) && !Unnoticed(l, -SWEEP_INTERVAL, calls)
  {
    var start := [Call("a", 0)];
    var drained := SWEEP_INTERVAL - 1;
    var again := drained + l.fullAfter;
    var s1 := State(map["a" := Bucket(l.burst as real - 1.0, 0)], 0);
    StartOf(l, "a");
    OneRefills(l);
    assert HasBurst(l, s1.buckets, "a", drained);
    hide WellFormed, WholeRefillTime, Run, After, IdealRun, IdealAfter, HasBurst, Balance, LastNanosecond;
    var burst := Repeat("a", drained, l.burst);
    BothDrain(l, s1, s1.buckets, "a", drained);
    Joined(l, start, burst, s1);
    AdmittedConcat(1, l.burst);
    Later(start, burst, 0, drained);
    calls := BurstShows(l, start + burst, "a", drained, again);
  }

  lemma OneRefills(l: Limits)
    requires WellFormed(l) && l.fullAfter < SWEEP_INTERVAL && !LastNanosecond(l)
    ensures Refill(l, SWEEP_INTERVAL - 1) >= 1.0
  {
    FullAfterBounds(l);
    RefillGrows(l, l.fullAfter + 1, SWEEP_INTERVAL - 1);
    RefillGrows(l, l.fullAfter + 1, SWEEP_INTERVAL);
    RefillGrows(l, 1, SWEEP_INTERVAL - 1);
    RefillSplits(l, SWEEP_INTERVAL - 1, 1);
    hide Refill, PerNano;
    assert l.burst == 1 || l.burst as real >= 2.0;
  }

  /** A burst that takes longer to refill than a sweep is away. */
  lemma LongRefillShows(l: Limits) returns (calls: seq<Call>)
    requires WellFormed(l) && !WholeRefillTime(l) && l.fullAfter >= SWEEP_INTERVAL
    ensures Plausible(-SWEEP_INTERVAL, calls) && !Unnoticed(l, -SWEEP_INTERVAL, calls)
  {
    var s0, empty, burst := State(map[], -SWEEP_INTERVAL), State(map[], 0), Repeat("a", 0, l.burst);
    OneLess(l);
    SweptClean(l, s0, "a", 0);
    assert l.maxClients >= 1;
    hide WellFormed, WholeRefillTime, Run, After, IdealRun, IdealAfter, Balance;
    BothDrain(l, empty, map[], "a", 0);
    calls := BurstShows(l, burst, "a", 0, l.fullAfter);
  }

  // ---- a burst that refills within a nanosecond ----

  function Filler(i: nat): (key: string)
    ensures |key| == i + 1 && key[0] == 'c'
  {
    if i == 0 then "c" else Filler(i - 1) + "c"
  }

  /** One request each of the i-th to the last of n other clients. */
  function Fill(i: nat, n: nat): (calls: seq<Call>)
    requires i <= n
    ensures |calls| == n - i && forall j :: 0 <= j < n - i ==> calls[j].now == 0
    decreases n - i
  {
    if i == n then [] else [Call(Filler(i), 0)] + Fill(i + 1, n)
  }

  ghost predicate FilledBy(buckets: map<string, Bucket>, i: nat) {
    |buckets| == i && forall k :: k in buckets ==> 1 <= |k| <= i && k[0] == 'c' && buckets[k].last == 0
  }

  lemma {:induction false} Fills(l: Limits, s: State, i: nat, n: nat)
    requires WellFormed(l) && i <= n < l.maxClients && s.lastSweep == 0 && FilledBy(s.buckets, i)
    ensures var s' := After(l, s, Fill(i, n));
      && s'.lastSweep == 0 && FilledBy(s'.buckets, n) && IdealAfter(l, s.buckets, Fill(i, n)) == s'.buckets
      && Run(l, s, Fill(i, n)) == AllAdmitted(n - i)
    decreases n - i
  {
    if i < n {
      var key := Filler(i);
      var s' := State(s.buckets[key := Bucket(l.burst as real - 1.0, 0)], 0);
      assert HasBurst(l, s.buckets, key, 0) && key !in s.buckets;
      BurstFirst(l, s, key, 0);
      IdealFirst(l, s.buckets, key, 0);
      assert FilledBy(s'.buckets, i + 1);
      hide AllowStep, IdealAllow, HasBurst, FilledBy, WellFormed;
      Fills(l, s', i + 1, n);
      assert Fill(i, n)[0] == Call(key, 0) && Fill(i, n)[1..] == Fill(i + 1, n);
      assert n - i - 1 == n - (i + 1);
    }
  }

  /** The limiter's map full of clients that came at 0, one of them having come in at least a second ago. */
  lemma MapFills(l: Limits)
    requires WellFormed(l) && l.maxClients >= 2
    ensures var s0, first := State(map[], -SWEEP_INTERVAL), Fill(0, l.maxClients - 1);
      var s := After(l, s0, first);
      && s.lastSweep == 0 && FilledBy(s.buckets, l.maxClients - 1) && IdealAfter(l, map[], first) == s.buckets
      && Run(l, s0, first) == AllAdmitted(|first|)
  {
    var s0, empty, n := State(map[], -SWEEP_INTERVAL), State(map[], 0), l.maxClients - 1;
    Fills(l, empty, 0, n);
    assert Swept(l, s0, 0) == empty;
    var first := Fill(0, n);
    assert first[0] == Call(Filler(0), 0);
    assert AllowStep(l, s0, Filler(0), 0) == AllowStep(l, empty, Filler(0), 0) by { hide Spend; }
    hide AllowStep, Fill, IdealAllow;
  }

  /** A newcomer to a full map makes a sweep that forgets, within the same nanosecond, a client that has just spent
      its burst. */
  lemma NewcomerSweeps(l: Limits, s: State, m: map<string, Bucket>, now: int)
    requires WellFormed(l) && l.fullAfter == 0 && l.maxClients >= 2 && Drained(l, s, m, "a", now) && "d" !in s.buckets && "d" !in m
    requires |s.buckets| == l.maxClients && now - s.lastSweep == MIN_SWEEP_GAP && forall k :: k in s.buckets ==> s.buckets[k].last <= now
    ensures var calls := [Call("d", now), Call("a", now)];
      Run(l, s, calls) == [Admitted, Admitted] && IdealRun(l, m, calls)[1].Refused?
  {
    var full := Bucket(l.burst as real - 1.0, now);
    var swept := State(map[], now);
    assert Swept(l, s, now) == swept;
    assert AllowStep(l, s, "d", now) == AllowStep(l, swept, "d", now) by { hide Spend; }
    var s1 := State(map["d" := full], now);
    assert HasBurst(l, swept.buckets, "d", now) && HasBurst(l, s1.buckets, "a", now) && HasBurst(l, m, "d", now);
    BurstFirst(l, swept, "d", now);
    BurstFirst(l, s1, "a", now);
    IdealFirst(l, m, "d", now);
    SameInstant(l, 0.0, now);
    var m1 := m["d" := full];
    assert IdealAllow(l, m1, "a", now).1.Refused?;
    hide AllowStep, IdealAllow, HasBurst, WellFormed;
    var calls := [Call("d", now), Call("a", now)];
    assert calls[1..] == [Call("a", now)] && calls[1..][1..] == [];
    assert Run(l, s1, calls[1..]) == [Admitted];
    assert IdealRun(l, m1, calls[1..])[0].Refused?;
  }

  lemma FullMapShows(l: Limits) returns (calls: seq<Call>)
    requires WellFormed(l) && l.maxClients >= 2 && l.fullAfter == 0
    ensures Plausible(-SWEEP_INTERVAL, calls) && !Unnoticed(l, -SWEEP_INTERVAL, calls)
  {
    var now, n := MIN_SWEEP_GAP, l.maxClients - 1;
    var before, last := Fill(0, n) + Repeat("a", now, l.burst), [Call("d", now), Call("a", now)];
    var s := FullMap(l);
    hide Run, After, IdealRun, IdealAfter, Fill, WellFormed, Repeat;
    NewcomerSweeps(l, s, s.buckets, now);
    Joined(l, before, last, s);
    AdmittedConcat(n + l.burst, 2);
    assert AllAdmitted(2) == [Admitted, Admitted];
    FillThen(n, Repeat("a", now, l.burst), last);
    calls := before + last;
    Shows(l, calls);
  }

  /** A full map, in which one client has just spent its burst. */
  lemma FullMap(l: Limits) returns (s: State)
    requires WellFormed(l) && l.maxClients >= 2
    ensures var s0, calls := State(map[], -SWEEP_INTERVAL), Fill(0, l.maxClients - 1) + Repeat("a", MIN_SWEEP_GAP, l.burst);
      && Run(l, s0, calls) == AllAdmitted(|calls|) && After(l, s0, calls) == s && IdealAfter(l, map[], calls) == s.buckets
    ensures Drained(l, s, s.buckets, "a", MIN_SWEEP_GAP) && "d" !in s.buckets && |s.buckets| == l.maxClients && s.lastSweep == 0
    ensures forall k :: k in s.buckets ==> s.buckets[k].last <= MIN_SWEEP_GAP
  {
    var s0, n, now := State(map[], -SWEEP_INTERVAL), l.maxClients - 1, MIN_SWEEP_GAP;
    var first, burst := Fill(0, n), Repeat("a", now, l.burst);
    MapFills(l);
    var before := After(l, s0, first);
    assert HasBurst(l, before.buckets, "a", now) && "a" !in before.buckets && "d" !in before.buckets;
    hide Run, After, IdealRun, IdealAfter, HasBurst, Fill, WellFormed, Repeat;
    BothDrain(l, before, before.buckets, "a", now);
    s := After(l, before, burst);
    Joined(l, first, burst, before);
    AdmittedConcat(n, l.burst);
  }

  lemma FillThen(n: nat, burst: seq<Call>, last: seq<Call>)
    requires n > 0 && (forall i :: 0 <= i < |burst| ==> burst[i].now == MIN_SWEEP_GAP)
    requires last == [Call("d", MIN_SWEEP_GAP), Call("a", MIN_SWEEP_GAP)]
    ensures Plausible(-SWEEP_INTERVAL, Fill(0, n) + burst + last)
  {
    var calls := Fill(0, n) + burst + last;
    forall i | 0 <= i < |calls| ensures calls[i].now == if i < n then 0 else MIN_SWEEP_GAP {
    }
  }

  // ---- exactly when ----

  /** In any plausible run in which nobody is turned away untracked, the sweeps go unnoticed: for exactly those limits
      whose burst refills in a whole number of nanoseconds, and, with room for one client, two kinds more. */
  lemma SweepingIsInvisibleIff(l: Limits)
    requires WellFormed(l)
    ensures WholeRefillTime(l) || NeverSeen(l) <==>
      forall zeroTime, calls :: Plausible(zeroTime, calls) ==> Unnoticed(l, zeroTime, calls)
  {
    if WholeRefillTime(l) || NeverSeen(l) {
      forall zeroTime, calls | Plausible(zeroTime, calls) ensures Unnoticed(l, zeroTime, calls) {
        if FailedOpen !in Run(l, State(map[], zeroTime), calls) {
          if WholeRefillTime(l) { SweepingIsInvisible(l, zeroTime, calls); } else { ForgettingOneIsInvisible(l, zeroTime, calls); }
        }
      }
    } else {
      FullAfterBounds(l);
      var calls := SomeRunShows(l);
    }
  }

  lemma SomeRunShows(l: Limits) returns (calls: seq<Call>)
    requires WellFormed(l) && !WholeRefillTime(l) && !NeverSeen(l) && l.fullAfter >= 0
    ensures Plausible(-SWEEP_INTERVAL, calls) && !Unnoticed(l, -SWEEP_INTERVAL, calls)
  {
    assert l.maxClients >= 1;
    hide WellFormed, WholeRefillTime, Plausible, Unnoticed;
    if l.fullAfter >= SWEEP_INTERVAL {
      calls := LongRefillShows(l);
    } else if l.fullAfter == 0 {
      calls := FullMapShows(l);
    } else if LastNanosecond(l) {
      calls := TwoClientsShow(l);
    } else {
      calls := OneClientShows(l);
    }
  }
}
