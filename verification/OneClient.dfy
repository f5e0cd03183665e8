/** A limiter with room for a single client, at two kinds of limits where its sweeps go unnoticed although a burst
    does not refill in a whole number of nanoseconds: whoever is forgotten early can only come back later. */
module OneClient {
  import opened RateLimit

  /** Room for one client, and a burst that refills within a nanosecond, or a burst of one that refills in
      the last nanosecond before a sweep. */
  ghost predicate NeverSeen(l: Limits) {
    l.maxClients == 1 && (l.fullAfter == 0 || LastNanosecond(l))
  }

  ghost predicate LastNanosecond(l: Limits) {
    l.burst == 1 && l.fullAfter == SWEEP_INTERVAL - 1
  }

  /** Between sweeps one client is remembered exactly, and everybody else is full from the next nanosecond on. */
  ghost predicate Follows(l: Limits, s: State, m: map<string, Bucket>, now: int) {
    && |s.buckets| == 1 && s.lastSweep <= now < s.lastSweep + SWEEP_INTERVAL
    && Sane(l, m, now)
    && (forall k :: k in s.buckets ==>
          && k in m && m[k] == s.buckets[k] && s.lastSweep <= m[k].last
          && (LastNanosecond(l) ==> m[k].tokens == Refill(l, m[k].last - s.lastSweep)))
    && (forall k :: k in m && k !in s.buckets ==> Balance(l, m[k], s.lastSweep + 1) == l.burst as real)
  }

  ghost predicate AllFull(l: Limits, m: map<string, Bucket>, now: int) {
    forall k :: k in m ==> Balance(l, m[k], now) == l.burst as real
  }

  lemma RefilledBy(l: Limits, b: Bucket, now: int)
    requires WellFormed(l) && b.tokens >= 0.0 && now - b.last > l.fullAfter
    ensures Balance(l, b, now) == l.burst as real
  {
    FullAfterBounds(l);
    RefillGrows(l, l.fullAfter + 1, now - b.last);
    hide Refill;
  }

  /** When a sweep is due everybody is full again. */
  lemma DueMeansFull(l: Limits, s: State, m: map<string, Bucket>, t: int, now: int)
    requires WellFormed(l) && NeverSeen(l) && Follows(l, s, m, t) && now >= s.lastSweep + SWEEP_INTERVAL
    ensures AllFull(l, m, now)
  {
    hide Refill, WellFormed;
    assert l.rps > 0.0 by { RateIsPositive(l); }
    forall k | k in m ensures Balance(l, m[k], now) == l.burst as real {
      if k !in s.buckets {
        FullStaysFull(l, m[k], s.lastSweep + 1, now);
      } else if l.fullAfter == 0 {
        RefilledBy(l, m[k], now);
      } else {
        FullAfterBounds(l);
        RefillSplits(l, m[k].last - s.lastSweep, now - m[k].last);
        RefillGrows(l, l.fullAfter + 1, now - s.lastSweep);
        assert m[k].last - s.lastSweep + (now - m[k].last) == now - s.lastSweep;
      }
    }
  }

  lemma RateIsPositive(l: Limits)
    requires WellFormed(l)
    ensures l.rps > 0.0 && l.burst >= 1
  {
  }

  /** A client admitted by a sweep that left room for it, with everybody full. */
  lemma EntersAfterSweep(l: Limits, s': State, m: map<string, Bucket>, key: string, now: int)
    requires WellFormed(l) && NeverSeen(l) && Sane(l, m, now) && AllFull(l, m - {key}, now + 1)
    requires s' == State(map[key := Bucket(l.burst as real - 1.0, now)], now)
    ensures Follows(l, s', m[key := Bucket(l.burst as real - 1.0, now)], now)
  {
    RateIsPositive(l);
    RefillGrows(l, 0, 0);
    hide Refill, WellFormed, Balance;
    var m' := m[key := Bucket(l.burst as real - 1.0, now)];
    forall k | k in m' && k !in s'.buckets ensures Balance(l, m'[k], now + 1) == l.burst as real {
      assert k in m - {key} && (m - {key})[k] == m'[k];
    }
  }

  lemma SpendsFull(l: Limits, b: Bucket, now: int)
    requires WellFormed(l) && Balance(l, b, now) == l.burst as real
    ensures Spend(l, b, now) == (Bucket(l.burst as real - 1.0, now), Admitted)
  {
    hide Balance;
  }

  lemma FullIsFull(l: Limits, now: int)
    requires WellFormed(l)
    ensures Balance(l, Bucket(l.burst as real, now), now) == l.burst as real
  {
    RefillGrows(l, 0, 0);
  }

  lemma FullLater(l: Limits, m: map<string, Bucket>, t: int, now: int)
    requires WellFormed(l) && AllFull(l, m, t) && t <= now
    ensures AllFull(l, m, now)
  {
    RateIsPositive(l);
    hide WellFormed, Balance;
    forall k | k in m ensures Balance(l, m[k], now) == l.burst as real { FullStaysFull(l, m[k], t, now); }
  }

  /** A call when a sweep is due. */
  lemma DueCall(l: Limits, s: State, m: map<string, Bucket>, key: string, now: int)
    requires WellFormed(l) && NeverSeen(l) && Sane(l, m, now) && AllFull(l, m, now) && now - s.lastSweep >= SWEEP_INTERVAL
    requires |s.buckets| <= 1 && forall k :: k in s.buckets ==> k in m && m[k] == s.buckets[k]
    requires !AllowStep(l, s, key, now).1.FailedOpen?
    ensures AllowStep(l, s, key, now).1 == IdealAllow(l, m, key, now).1
    ensures Follows(l, AllowStep(l, s, key, now).0, IdealAllow(l, m, key, now).0, now)
  {
    var p := Prepared(l, s, key, now);
    var full := Bucket(l.burst as real - 1.0, now);
    FullIsFull(l, now);
    SpendsFull(l, if key in m then m[key] else Bucket(l.burst as real, now), now);
    SpendsFull(l, if key in p.buckets then p.buckets[key] else Bucket(l.burst as real, now), now);
    hide Balance, Spend, WellFormed;
    SubMapSize(p.buckets, s.buckets);
    OnlyOne(p.buckets, key, full);
    FullLater(l, m, now, now + 1);
    EntersAfterSweep(l, State(map[key := full], now), m, key, now);
  }

  lemma OnlyOne(buckets: map<string, Bucket>, key: string, b: Bucket)
    requires if key in buckets then |buckets| == 1 else |buckets| < 1
    ensures buckets[key := b] == map[key := b]
  {
    if key in buckets {
      assert buckets.Keys == {key} by {
        assert |buckets.Keys - {key}| == 0;
      }
    } else {
      assert buckets == map[];
    }
  }

  /** A call of the client that is remembered, between sweeps. */
  lemma OwnCall(l: Limits, s: State, m: map<string, Bucket>, t: int, key: string, now: int)
    requires WellFormed(l) && !WholeRefillTime(l) && NeverSeen(l) && Follows(l, s, m, t)
    requires t <= now < s.lastSweep + SWEEP_INTERVAL && key in s.buckets
    ensures AllowStep(l, s, key, now).1 == IdealAllow(l, m, key, now).1
    ensures Follows(l, AllowStep(l, s, key, now).0, IdealAllow(l, m, key, now).0, now)
  {
    RateIsPositive(l);
    var (b', a) := Spend(l, m[key], now);
    SpendStaysSane(l, m[key], now);
    if LastNanosecond(l) {
      FullAfterBounds(l);
      WholeRefillTimeIsExact(l);
      RefillSplits(l, m[key].last - s.lastSweep, now - m[key].last);
      assert m[key].last - s.lastSweep + (now - m[key].last) == now - s.lastSweep;
      RefillGrows(l, now - s.lastSweep, l.fullAfter);
      assert b'.tokens == Refill(l, now - s.lastSweep);
    }
    hide Spend, Refill, WellFormed, WholeRefillTime, Balance;
    assert Prepared(l, s, key, now) == s;
    var s', m' := AllowStep(l, s, key, now).0, IdealAllow(l, m, key, now).0;
    assert s'.buckets == s.buckets[key := b'] && m' == m[key := b'] && s'.lastSweep == s.lastSweep;
    assert s.buckets[key := b'].Keys == s.buckets.Keys;
    assert |s'.buckets| == |s'.buckets.Keys| == |s.buckets.Keys| == |s.buckets|;
  }

  /** Another client's call between sweeps, which sweeps for room. */
  lemma OtherCall(l: Limits, s: State, m: map<string, Bucket>, t: int, key: string, now: int)
    requires WellFormed(l) && NeverSeen(l) && Follows(l, s, m, t)
    requires t <= now < s.lastSweep + SWEEP_INTERVAL && key !in s.buckets
    requires !AllowStep(l, s, key, now).1.FailedOpen?
    ensures AllowStep(l, s, key, now).1 == IdealAllow(l, m, key, now).1
    ensures Follows(l, AllowStep(l, s, key, now).0, IdealAllow(l, m, key, now).0, now)
  {
    RateIsPositive(l);
    var p := Prepared(l, s, key, now);
    var full := Bucket(l.burst as real - 1.0, now);
    FullIsFull(l, now);
    SpendsFull(l, Bucket(l.burst as real, now), now);
    if key in m {
      FullStaysFull(l, m[key], s.lastSweep + 1, now);
      SpendsFull(l, m[key], now);
    }
    hide Balance, Spend, WellFormed;
    assert p.buckets == map[] && p.lastSweep == now && p == Swept(l, s, now);
    OnlyOne(p.buckets, key, full);
    forall k | k in m - {key} ensures Balance(l, m[k], now + 1) == l.burst as real {
      if k in s.buckets {
        assert now - s.buckets[k].last >= l.fullAfter by { assert k !in p.buckets; }
        RefilledBy(l, m[k], now + 1);
      } else {
        FullStaysFull(l, m[k], s.lastSweep + 1, now + 1);
      }
    }
    EntersAfterSweep(l, State(map[key := full], now), m, key, now);
  }

  lemma NextCall(l: Limits, s: State, m: map<string, Bucket>, t: int, key: string, now: int)
    requires WellFormed(l) && !WholeRefillTime(l) && NeverSeen(l) && Follows(l, s, m, t) && t <= now
    requires !AllowStep(l, s, key, now).1.FailedOpen?
    ensures AllowStep(l, s, key, now).1 == IdealAllow(l, m, key, now).1
    ensures Follows(l, AllowStep(l, s, key, now).0, IdealAllow(l, m, key, now).0, now)
  {
    hide WellFormed, WholeRefillTime, NeverSeen, AllowStep, IdealAllow, Balance, Refill;
    if now - s.lastSweep >= SWEEP_INTERVAL {
      DueMeansFull(l, s, m, t, now);
      DueCall(l, s, m, key, now);
    } else if key in s.buckets {
      OwnCall(l, s, m, t, key, now);
    } else {
      OtherCall(l, s, m, t, key, now);
    }
  }

  lemma {:induction false} RestMatchesIdeal(l: Limits, s: State, m: map<string, Bucket>, t: int, calls: seq<Call>)
    requires WellFormed(l) && !WholeRefillTime(l) && NeverSeen(l) && Follows(l, s, m, t)
    requires ClockNeverGoesBack(calls) && (calls != [] ==> t <= calls[0].now)
    requires FailedOpen !in Run(l, s, calls)
    ensures Run(l, s, calls) == IdealRun(l, m, calls)
    decreases |calls|
  {
    hide WellFormed, WholeRefillTime, NeverSeen, AllowStep, IdealAllow, Follows;
    if calls != [] {
      var c, rest := calls[0], calls[1..];
      var (s', a) := AllowStep(l, s, c.key, c.now);
      RunStep(l, s, calls);
      assert a in Run(l, s, calls) && forall x :: x in Run(l, s', rest) ==> x in Run(l, s, calls)[1..];
      NextCall(l, s, m, t, c.key, c.now);
      RestMatchesIdeal(l, s', IdealAllow(l, m, c.key, c.now).0, c.now, rest);
    }
  }

  /** From the first call on, which finds a sweep due, a run answers as the ideal limiter does. */
  lemma ForgettingOneIsInvisible(l: Limits, zeroTime: int, calls: seq<Call>)
    requires WellFormed(l) && !WholeRefillTime(l) && NeverSeen(l) && ClockNeverGoesBack(calls)
    requires calls != [] ==> calls[0].now - zeroTime >= SWEEP_INTERVAL
    requires FailedOpen !in Run(l, State(map[], zeroTime), calls)
    ensures Run(l, State(map[], zeroTime), calls) == IdealRun(l, map[], calls)
  {
    hide WellFormed, WholeRefillTime, NeverSeen, AllowStep, IdealAllow, Follows;
    if calls != [] {
      var s, c, rest := State(map[], zeroTime), calls[0], calls[1..];
      var (s', a) := AllowStep(l, s, c.key, c.now);
      RunStep(l, s, calls);
      assert a in Run(l, s, calls) && forall x :: x in Run(l, s', rest) ==> x in Run(l, s, calls)[1..];
      DueCall(l, s, map[], c.key, c.now);
      RestMatchesIdeal(l, s', IdealAllow(l, map[], c.key, c.now).0, c.now, rest);
    }
  }
}
