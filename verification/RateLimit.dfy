/** The per-client token-bucket limiter of internal/httpmw/ratelimit.go.

    Instants and durations are whole nanoseconds, as in Go; token balances are exact reals.
    Both conversions to time.Duration truncate, and that truncation is kept. */
module RateLimit {
  import opened Wrappers

  const SECOND := 1_000_000_000
  const SWEEP_INTERVAL := 60 * SECOND
  const MIN_SWEEP_GAP := SECOND
  const DEFAULT_MAX_CLIENTS := 100_000

  /** What the deployment configures. RPS <= 0 disables the limiter before one is built. */
  datatype Config = Config(rps: real, burst: int, maxClients: int)

  /** What newLimiter derives from it. */
  datatype Limits = Limits(rps: real, burst: nat, maxClients: nat, fullAfter: int)

  function NewLimits(cfg: Config): Limits
    requires cfg.rps > 0.0
  {
    var burst: nat := if cfg.burst > 1 then cfg.burst else 1;
    Limits(cfg.rps, burst,
           if cfg.maxClients <= 0 then DEFAULT_MAX_CLIENTS else cfg.maxClients,
           Truncate(burst as real / cfg.rps * SECOND as real))
  }

  function Truncate(x: real): int {
    if x >= 0.0 then x.Floor else -((-x).Floor)
  }

  /** Limits that newLimiter can produce. */
  ghost predicate WellFormed(l: Limits) {
    && l.rps > 0.0
    && l.burst >= 1
    && l.maxClients >= 1
    && l.fullAfter == Truncate(l.burst as real / l.rps * SECOND as real)
  }

  /** Tokens gained per nanosecond. */
  function PerNano(l: Limits): real { l.rps / SECOND as real }

  function Refill(l: Limits, elapsed: int): real {
    elapsed as real * PerNano(l)
  }

  datatype Bucket = Bucket(tokens: real, last: int)

  function MinReal(a: real, b: real): real { if a <= b then a else b }

  function Balance(l: Limits, b: Bucket, now: int): real {
    MinReal(l.burst as real, b.tokens + Refill(l, now - b.last))
  }

  datatype State = State(buckets: map<string, Bucket>, lastSweep: int)

  /** FailedOpen is the "still full of active clients" branch: served, but untracked. A refusal
      carries the part of a token that is missing; Wait turns it into the duration returned. */
  datatype Answer = Admitted | FailedOpen | Refused(missing: real)

  function Wait(l: Limits, a: Answer): int
    requires l.rps > 0.0
  {
    if a.Refused? then Truncate(a.missing / l.rps * SECOND as real) else 0
  }

  function Swept(l: Limits, s: State, now: int): State {
    State(map k | k in s.buckets && now - s.buckets[k].last < l.fullAfter :: s.buckets[k], now)
  }

  function AfterTimedSweep(l: Limits, s: State, now: int): State {
    if now - s.lastSweep >= SWEEP_INTERVAL then Swept(l, s, now) else s
  }

  function AfterRoomSweep(l: Limits, s: State, key: string, now: int): State {
    if key !in s.buckets && |s.buckets| >= l.maxClients && now - s.lastSweep >= MIN_SWEEP_GAP
    then Swept(l, s, now) else s
  }

  /** The state after both sweeps a call may make before it looks at its own bucket. */
  function Prepared(l: Limits, s: State, key: string, now: int): State {
    AfterRoomSweep(l, AfterTimedSweep(l, s, now), key, now)
  }

  /** Spending one token from a bucket. */
  function Spend(l: Limits, b: Bucket, now: int): (Bucket, Answer) {
    var t := Balance(l, b, now);
    if t >= 1.0 then (Bucket(t - 1.0, now), Admitted)
    else (Bucket(t, now), Refused(1.0 - t))
  }

  function AllowStep(l: Limits, s: State, key: string, now: int): (State, Answer)
  {
    var p := Prepared(l, s, key, now);
    if key !in p.buckets && |p.buckets| >= l.maxClients then
      (p, FailedOpen)
    else
      var b := if key in p.buckets then p.buckets[key] else Bucket(l.burst as real, now);
      var (b', a) := Spend(l, b, now);
      (State(p.buckets[key := b'], p.lastSweep), a)
  }

  // ---- the limiter object ----

  class Limiter {
    const limits: Limits
    var buckets: map<string, Bucket>
    var lastSweep: int

    constructor (cfg: Config, zeroTime: int)
      requires cfg.rps > 0.0
      ensures limits == NewLimits(cfg) && buckets == map[] && lastSweep == zeroTime
    {
      limits := NewLimits(cfg);
      buckets := map[];
      lastSweep := zeroTime;
    }

    ghost function Abstract(): State
      reads this
    {
      State(buckets, lastSweep)
    }

    /** Drops every bucket idle for at least fullAfter. */
    method Sweep(now: int)
      modifies this
      ensures Abstract() == Swept(limits, old(Abstract()), now)
    {
      var all := buckets;
      var pending := buckets.Keys;
      while pending != {}
        invariant pending <= all.Keys
        invariant lastSweep == old(lastSweep)
        invariant buckets == map k | k in all && (k in pending || now - all[k].last < limits.fullAfter) :: all[k]
        decreases |pending|
      {
        var k :| k in pending;
        if now - buckets[k].last >= limits.fullAfter {
          buckets := buckets - {k};
        }
        pending := pending - {k};
      }
      lastSweep := now;
    }

    method Allow(key: string, now: int) returns (ok: bool, wait: int)
      requires limits.rps > 0.0
      modifies this
      ensures Abstract() == AllowStep(limits, old(Abstract()), key, now).0
      ensures var a := AllowStep(limits, old(Abstract()), key, now).1;
              ok == !a.Refused? && wait == Wait(limits, a)
    {
      if now - lastSweep >= SWEEP_INTERVAL {
        Sweep(now);
      }
      if key !in buckets {
        if |buckets| >= limits.maxClients && now - lastSweep >= MIN_SWEEP_GAP {
          Sweep(now);
        }
        assert Abstract() == Prepared(limits, old(Abstract()), key, now);
        if |buckets| >= limits.maxClients {
          return true, 0;
        }
        buckets := buckets[key := Bucket(limits.burst as real, now)];
      }
      ghost var p := Prepared(limits, old(Abstract()), key, now);
      var b := buckets[key];
      ghost var (b', a) := Spend(limits, b, now);
      assert p.buckets[key := b'] == buckets[key := b'];
      var tokens := MinReal(limits.burst as real, b.tokens + Refill(limits, now - b.last));
      if tokens >= 1.0 {
        buckets := buckets[key := Bucket(tokens - 1.0, now)];
        return true, 0;
      }
      buckets := buckets[key := Bucket(tokens, now)];
      return false, Truncate((1.0 - tokens) / limits.rps * SECOND as real);
    }
  }

  // ---- runs ----

  datatype Call = Call(key: string, now: int)

  function Run(l: Limits, s: State, calls: seq<Call>): (r: seq<Answer>)
    ensures |r| == |calls|
    decreases |calls|
  {
    if calls == [] then []
    else
      var (s', a) := AllowStep(l, s, calls[0].key, calls[0].now);
      [a] + Run(l, s', calls[1..])
  }

  function After(l: Limits, s: State, calls: seq<Call>): State
    decreases |calls|
  {
    if calls == [] then s
    else After(l, AllowStep(l, s, calls[0].key, calls[0].now).0, calls[1..])
  }

  /** The limiter that never forgets a client and has room for all of them. */
  function IdealAllow(l: Limits, m: map<string, Bucket>, key: string, now: int): (map<string, Bucket>, Answer)
  {
    var (b', a) := Spend(l, if key in m then m[key] else Bucket(l.burst as real, now), now);
    (m[key := b'], a)
  }

  function IdealRun(l: Limits, m: map<string, Bucket>, calls: seq<Call>): (r: seq<Answer>)
    ensures |r| == |calls|
    decreases |calls|
  {
    if calls == [] then []
    else
      var (m', a) := IdealAllow(l, m, calls[0].key, calls[0].now);
      [a] + IdealRun(l, m', calls[1..])
  }

  ghost predicate ClockNeverGoesBack(calls: seq<Call>) {
    forall i, j :: 0 <= i < j < |calls| ==> calls[i].now <= calls[j].now
  }

  /** Every bucket holds between nothing and a full burst, and was touched no later than now. */
  ghost predicate Sane(l: Limits, buckets: map<string, Bucket>, now: int) {
    forall k :: k in buckets ==> 0.0 <= buckets[k].tokens <= l.burst as real && buckets[k].last <= now
  }

  // ---- arithmetic ----

  lemma Distributes(x: real, y: real, r: real)
    ensures (x + y) * r == x * r + y * r && (x - y) * r == x * r - y * r
  {
  }

  lemma Product(x: real, y: real)
    ensures x >= 0.0 && y >= 0.0 ==> x * y >= 0.0
    ensures x > 0.0 && y > 0.0 ==> x * y > 0.0
  {
  }

  lemma Scales(x: real, y: real, r: real)
    ensures x <= y && r >= 0.0 ==> x * r <= y * r
    ensures x < y && r > 0.0 ==> x * r < y * r
  {
    Product(y - x, r);
    Distributes(y, x, r);
  }

  lemma Associates(x: real, y: real, z: real)
    ensures x * y * z == x * (y * z)
  {
  }

  lemma Divides(x: real, p: real)
    requires p != 0.0
    ensures x / p * p == x && p * (x / p) == x
  {
  }

  /** Back from a duration in nanoseconds to the tokens that refill in it. */
  lemma Unscales(x: real, p: real, s: real)
    requires p > 0.0 && s > 0.0
    ensures x / p * s * (p / s) == x
  {
    var q, u := x / p, p / s;
    Divides(x, p);
    Divides(p, s);
    Associates(q, s, u);
    assert s * u == p && q * p == x;
  }

  lemma RefillIs(l: Limits, d: int)
    requires l.rps > 0.0
    ensures PerNano(l) > 0.0 && Refill(l, d) == d as real * PerNano(l)
  {
  }

  lemma RefillSplits(l: Limits, d: int, e: int)
    requires l.rps > 0.0
    ensures Refill(l, d + e) == Refill(l, d) + Refill(l, e)
    ensures e >= 0 ==> Refill(l, e) >= 0.0
  {
    RefillIs(l, d);
    RefillIs(l, e);
    RefillIs(l, d + e);
    hide Refill, PerNano;
    Distributes(d as real, e as real, PerNano(l));
    Product(e as real, PerNano(l));
  }

  /** Refilling is strictly monotone, and by at least a nanosecond's worth. */
  lemma RefillGrows(l: Limits, d: int, e: int)
    requires l.rps > 0.0
    ensures d <= e ==> Refill(l, d) <= Refill(l, e)
    ensures d < e ==> Refill(l, d) < Refill(l, e) && Refill(l, d + 1) <= Refill(l, e)
    ensures Refill(l, 0) == 0.0
  {
    RefillIs(l, d);
    RefillIs(l, e);
    RefillIs(l, d + 1);
    RefillIs(l, 0);
    hide Refill, PerNano;
    Scales(d as real, e as real, PerNano(l));
    Scales((d + 1) as real, e as real, PerNano(l));
  }

  /** A truncated duration x/rps is the last whole nanosecond that refills at most x. */
  lemma TruncatedTime(l: Limits, x: real, w: int)
    requires l.rps > 0.0 && x >= 0.0
    requires w == Truncate(x / l.rps * SECOND as real)
    ensures w >= 0 && Refill(l, w) <= x < Refill(l, w + 1)
  {
    var r := PerNano(l);
    var t := x / l.rps * SECOND as real;
    Unscales(x, l.rps, SECOND as real);
    assert t * r == x;
    NotNegative(x, l.rps, SECOND as real);
    RefillIs(l, w);
    RefillIs(l, w + 1);
    hide Refill, PerNano;
    assert w as real <= t < (w + 1) as real;
    Scales(w as real, t, r);
    Scales(t, (w + 1) as real, r);
  }

  lemma NotNegative(x: real, p: real, s: real)
    requires x >= 0.0 && p > 0.0 && s > 0.0
    ensures x / p * s >= 0.0
  {
    var q := x / p;
    Divides(x, p);
    if q < 0.0 { Scales(q, 0.0, p); }
    Product(q, s);
  }

  lemma FullAfterBounds(l: Limits)
    requires WellFormed(l)
    ensures l.fullAfter >= 0
    ensures Refill(l, l.fullAfter) <= l.burst as real < Refill(l, l.fullAfter + 1)
  {
    TruncatedTime(l, l.burst as real, l.fullAfter);
  }

  // ---- sane states ----

  lemma SpendStaysSane(l: Limits, b: Bucket, now: int)
    requires l.rps > 0.0 && 0.0 <= b.tokens <= l.burst as real && b.last <= now
    ensures var b' := Spend(l, b, now).0; 0.0 <= b'.tokens <= l.burst as real && b'.last == now
    ensures b.tokens <= Balance(l, b, now)
  {
    RefillSplits(l, 0, now - b.last);
  }

  lemma AllowStaysSane(l: Limits, s: State, key: string, now: int)
    requires WellFormed(l) && Sane(l, s.buckets, now) && |s.buckets| <= l.maxClients
    ensures var s' := AllowStep(l, s, key, now).0; Sane(l, s'.buckets, now) && |s'.buckets| <= l.maxClients
  {
    var p := Prepared(l, s, key, now);
    assert l.rps > 0.0;
    hide Balance, Refill, PerNano, WellFormed, Spend;
    assert Sane(l, p.buckets, now);
    SubMapSize(AfterTimedSweep(l, s, now).buckets, s.buckets);
    SubMapSize(p.buckets, AfterTimedSweep(l, s, now).buckets);
    if key in p.buckets || |p.buckets| < l.maxClients {
      var b := if key in p.buckets then p.buckets[key] else Bucket(l.burst as real, now);
      SpendStaysSane(l, b, now);
      var b' := Spend(l, b, now).0;
      assert p.buckets[key := b'].Keys == p.buckets.Keys + {key};
    }
  }

  lemma SubMapSize<K, V>(a: map<K, V>, b: map<K, V>)
    requires a.Keys <= b.Keys
    ensures |a| <= |b|
  {
    SubsetSize(a.Keys, b.Keys);
    assert |a| == |a.Keys| && |b| == |b.Keys|;
  }

  // ---- sweeping ----

  /** A burst refills in a whole number of nanoseconds, so fullAfter truncates nothing. */
  ghost predicate WholeRefillTime(l: Limits)
    requires l.rps > 0.0
  {
    var t := l.burst as real / l.rps * SECOND as real;
    t.Floor as real == t
  }

  lemma WholeRefillTimeIsExact(l: Limits)
    requires WellFormed(l)
    ensures WholeRefillTime(l) <==> Refill(l, l.fullAfter) == l.burst as real
  {
    FullAfterBounds(l);
    var b := l.burst as real;
    var t, r := b / l.rps * SECOND as real, PerNano(l);
    Unscales(b, l.rps, SECOND as real);
    assert t * r == b;
    NotNegative(b, l.rps, SECOND as real);
    RefillIs(l, l.fullAfter);
    assert l.fullAfter == t.Floor;
    hide Refill, PerNano;
    Scales(l.fullAfter as real, t, r);
  }

  /** The comment on type limiter, "dropping it loses nothing", for one bucket at a time:
      exactly the limits whose refill time is a whole number of nanoseconds make it true. */
  lemma SweepDropsOnlyFullBuckets(l: Limits)
    requires WellFormed(l)
    ensures WholeRefillTime(l) <==>
      forall b: Bucket, now: int ::
        0.0 <= b.tokens <= l.burst as real && now - b.last >= l.fullAfter ==> Balance(l, b, now) == l.burst as real
  {
    WholeRefillTimeIsExact(l);
    FullAfterBounds(l);
    hide Refill, PerNano, WholeRefillTime;
    if WholeRefillTime(l) {
      forall b: Bucket, now: int | 0.0 <= b.tokens <= l.burst as real && now - b.last >= l.fullAfter
        ensures Balance(l, b, now) == l.burst as real
      {
        RefillGrows(l, l.fullAfter, now - b.last);
      }
    } else {
      var emptied := Bucket(0.0, 0);
      assert Balance(l, emptied, l.fullAfter) == Refill(l, l.fullAfter - 0) < l.burst as real;
    }
  }

  /** At time now, m remembers everyone s does and nobody else who is short of tokens. */
  ghost predicate Mirrors(l: Limits, s: State, m: map<string, Bucket>, now: int) {
    && Sane(l, m, now)
    && (forall k :: k in s.buckets ==> k in m && m[k] == s.buckets[k])
    && (forall k :: k in m && k !in s.buckets ==> Balance(l, m[k], now) == l.burst as real)
  }

  lemma FullStaysFull(l: Limits, b: Bucket, t: int, now: int)
    requires l.rps > 0.0 && t <= now && Balance(l, b, t) == l.burst as real
    ensures Balance(l, b, now) == l.burst as real
  {
    hide Refill;
    RefillGrows(l, t - b.last, now - b.last);
  }

  lemma SweepKeepsMirror(l: Limits, s: State, m: map<string, Bucket>, now: int)
    requires WellFormed(l) && WholeRefillTime(l) && Mirrors(l, s, m, now)
    ensures Mirrors(l, Swept(l, s, now), m, now)
  {
    SweepDropsOnlyFullBuckets(l);
  }

  lemma PreparingKeepsMirror(l: Limits, s: State, m: map<string, Bucket>, t: int, key: string, now: int)
    requires WellFormed(l) && WholeRefillTime(l) && Mirrors(l, s, m, t) && t <= now
    ensures Mirrors(l, Prepared(l, s, key, now), m, now)
  {
    forall k | k in m && k !in s.buckets
      ensures Balance(l, m[k], now) == l.burst as real
    {
      FullStaysFull(l, m[k], t, now);
    }
    SweepKeepsMirror(l, s, m, now);
    SweepKeepsMirror(l, AfterTimedSweep(l, s, now), m, now);
  }

  lemma CallKeepsMirror(l: Limits, s: State, m: map<string, Bucket>, t: int, key: string, now: int)
    requires WellFormed(l) && WholeRefillTime(l) && Mirrors(l, s, m, t) && t <= now
    requires !AllowStep(l, s, key, now).1.FailedOpen?
    ensures AllowStep(l, s, key, now).1 == IdealAllow(l, m, key, now).1
    ensures Mirrors(l, AllowStep(l, s, key, now).0, IdealAllow(l, m, key, now).0, now)
  {
    PreparingKeepsMirror(l, s, m, t, key, now);
    var p := Prepared(l, s, key, now);
    var full := Bucket(l.burst as real, now);
    assert Balance(l, full, now) == l.burst as real by { RefillSplits(l, 0, 0); }
    var b := if key in m then m[key] else full;
    SpendStaysSane(l, b, now);
    if key in p.buckets {
      assert Spend(l, p.buckets[key], now) == Spend(l, b, now);
    } else {
      assert Balance(l, b, now) == Balance(l, full, now);
      assert Spend(l, full, now) == Spend(l, b, now);
    }
    assert Sane(l, IdealAllow(l, m, key, now).0, now);
  }

  /** Refilled buckets are dropped in the middle of traffic, and no caller can tell. */
  lemma {:induction false} RunsMatchIdeal(l: Limits, s: State, m: map<string, Bucket>, t: int, calls: seq<Call>)
    requires WellFormed(l) && WholeRefillTime(l) && Mirrors(l, s, m, t)
    requires ClockNeverGoesBack(calls) && (calls != [] ==> t <= calls[0].now)
    requires FailedOpen !in Run(l, s, calls)
    ensures Run(l, s, calls) == IdealRun(l, m, calls)
    decreases |calls|
  {
    if calls != [] {
      var c := calls[0];
      var (s', a) := AllowStep(l, s, c.key, c.now);
      assert Run(l, s, calls)[0] == a;
      CallKeepsMirror(l, s, m, t, c.key, c.now);
      var rest := Run(l, s', calls[1..]);
      assert Run(l, s, calls) == [a] + rest;
      assert forall i :: 0 <= i < |rest| ==> rest[i] == Run(l, s, calls)[i + 1];
      RunsMatchIdeal(l, s', IdealAllow(l, m, c.key, c.now).0, c.now, calls[1..]);
    }
  }

  lemma SweepingIsInvisible(l: Limits, zeroTime: int, calls: seq<Call>)
    requires WellFormed(l) && WholeRefillTime(l) && ClockNeverGoesBack(calls)
    requires FailedOpen !in Run(l, State(map[], zeroTime), calls)
    ensures Run(l, State(map[], zeroTime), calls) == IdealRun(l, map[], calls)
  {
    RunsMatchIdeal(l, State(map[], zeroTime), map[], if calls == [] then 0 else calls[0].now, calls);
  }

  /** Without a whole refill time a sweep can show: at 3 requests per second and a burst of 1 a
      burst takes 333333333.3 ns, so the client is forgotten a third of a nanosecond early and its
      next request is served instead of refused. */
  lemma SweepingShowsWhenTruncated()
    ensures var l := NewLimits(Config(3.0, 1, 10));
      var calls := [Call("b", 0), Call("a", SWEEP_INTERVAL - l.fullAfter), Call("a", SWEEP_INTERVAL)];
      var ideal := IdealRun(l, map[], calls);
      && WellFormed(l) && !WholeRefillTime(l) && ClockNeverGoesBack(calls)
      && Run(l, State(map[], -SWEEP_INTERVAL), calls) == [Admitted, Admitted, Admitted]
      && ideal[2].Refused? && Wait(l, ideal[2]) == 0
  {
    var l := NewLimits(Config(3.0, 1, 10));
    assert l.fullAfter == 333_333_333;
    WholeRefillTimeIsExact(l);
    TruncatedRun(l);
    TruncatedIdealRun(l);
  }

  lemma TruncatedRun(l: Limits)
    requires l == Limits(3.0, 1, 10, 333_333_333)
    ensures Run(l, State(map[], -SWEEP_INTERVAL),
                [Call("b", 0), Call("a", SWEEP_INTERVAL - l.fullAfter), Call("a", SWEEP_INTERVAL)])
         == [Admitted, Admitted, Admitted]
  {
    var t := SWEEP_INTERVAL - l.fullAfter;
    var c0, c1, c2 := Call("b", 0), Call("a", t), Call("a", SWEEP_INTERVAL);
    var s0 := State(map[], -SWEEP_INTERVAL);
    var s1 := State(map["b" := Bucket(0.0, 0)], 0);
    var s2 := State(map["b" := Bucket(0.0, 0), "a" := Bucket(0.0, t)], 0);
    assert Swept(l, s0, 0) == State(map[], 0);
    assert AllowStep(l, s0, "b", 0) == (s1, Admitted);
    assert AllowStep(l, s1, "a", t) == (s2, Admitted);
    assert Swept(l, s2, SWEEP_INTERVAL) == State(map[], SWEEP_INTERVAL);
    assert AllowStep(l, s2, "a", SWEEP_INTERVAL).1 == Admitted;
    RunSplits(l, s0, [c0], [c1, c2]);
    RunSplits(l, s1, [c1], [c2]);
    assert [c0, c1, c2] == [c0] + [c1, c2] && [c1, c2] == [c1] + [c2];
  }

  lemma TruncatedIdealRun(l: Limits)
    requires l == Limits(3.0, 1, 10, 333_333_333)
    ensures var ideal := IdealRun(l, map[],
        [Call("b", 0), Call("a", SWEEP_INTERVAL - l.fullAfter), Call("a", SWEEP_INTERVAL)]);
      ideal[2].Refused? && Wait(l, ideal[2]) == 0
  {
    var t := SWEEP_INTERVAL - l.fullAfter;
    var c0, c1, c2 := Call("b", 0), Call("a", t), Call("a", SWEEP_INTERVAL);
    var m1 := map["b" := Bucket(0.0, 0)];
    var m2 := map["b" := Bucket(0.0, 0), "a" := Bucket(0.0, t)];
    assert IdealAllow(l, map[], "b", 0) == (m1, Admitted);
    assert IdealAllow(l, m1, "a", t) == (m2, Admitted);
    var missing := 1.0 - 333_333_333.0 * PerNano(l);
    assert IdealAllow(l, m2, "a", SWEEP_INTERVAL).1 == Refused(missing);
    assert [c0, c1, c2][1..] == [c1, c2] && [c1, c2][1..] == [c2];
    assert IdealRun(l, m2, [c2])[0] == Refused(missing);
    assert IdealRun(l, m1, [c1, c2])[1] == Refused(missing);
  }

  /** The map stays bounded, and balances stay between nothing and a burst, in every run. */
  lemma {:induction false} MapStaysBounded(l: Limits, s: State, t: int, calls: seq<Call>)
    requires WellFormed(l) && Sane(l, s.buckets, t) && |s.buckets| <= l.maxClients
    requires ClockNeverGoesBack(calls) && (calls != [] ==> t <= calls[0].now)
    ensures |After(l, s, calls).buckets| <= l.maxClients
    ensures Sane(l, After(l, s, calls).buckets, if calls == [] then t else calls[|calls| - 1].now)
    decreases |calls|
  {
    if calls != [] {
      AllowStaysSane(l, s, calls[0].key, calls[0].now);
      MapStaysBounded(l, AllowStep(l, s, calls[0].key, calls[0].now).0, calls[0].now, calls[1..]);
    }
  }

  // ---- how much one client gets ----

  /** Requests of key that spent one of its tokens. */
  function Admissions(calls: seq<Call>, answers: seq<Answer>, key: string): nat
    requires |calls| == |answers|
  {
    if calls == [] then 0
    else (if calls[0].key == key && answers[0] == Admitted then 1 else 0) + Admissions(calls[1..], answers[1..], key)
  }

  /** fullAfter times the tokens a bucket would have earned if a burst refilled in exactly fullAfter. */
  ghost function Earned(l: Limits, b: Bucket, now: int): real {
    b.tokens * l.fullAfter as real + Span(l, now - b.last)
  }

  ghost function Span(l: Limits, elapsed: int): real {
    elapsed as real * l.burst as real
  }

  ghost function Capacity(l: Limits): real {
    Span(l, l.fullAfter)
  }

  ghost function Potential(l: Limits, s: State, key: string, now: int): real {
    if key in s.buckets then MinReal(Capacity(l), Earned(l, s.buckets[key], now)) else Capacity(l)
  }

  lemma SpanSplits(l: Limits, d: int, e: int)
    ensures Span(l, d + e) == Span(l, d) + Span(l, e)
    ensures e >= 0 ==> Span(l, e) >= 0.0
  {
    assert (d + e) as real == d as real + e as real;
    Distributes(d as real, e as real, l.burst as real);
    Product(e as real, l.burst as real);
  }

  lemma EarnedGrows(l: Limits, b: Bucket, t: int, now: int)
    requires t <= now && l.fullAfter >= 0 && b.tokens >= 0.0
    ensures Earned(l, b, now) == Earned(l, b, t) + Span(l, now - t)
    ensures now - b.last >= l.fullAfter ==> Earned(l, b, now) >= Capacity(l)
    ensures b.last <= now ==> Earned(l, b, now) >= 0.0
    ensures Capacity(l) >= 0.0 && Span(l, now - t) >= 0.0
  {
    hide Span;
    SpanSplits(l, t - b.last, now - t);
    assert (t - b.last) + (now - t) == now - b.last;
    Product(b.tokens, l.fullAfter as real);
    if now - b.last >= l.fullAfter { SpanSplits(l, l.fullAfter, now - b.last - l.fullAfter); }
    if b.last <= now { SpanSplits(l, 0, now - b.last); }
    SpanSplits(l, 0, l.fullAfter);
  }

  lemma PotentialOfPrepared(l: Limits, s: State, key: string, other: string, t: int, now: int)
    requires t <= now && l.fullAfter >= 0 && Sane(l, s.buckets, t)
    ensures Potential(l, Prepared(l, s, other, now), key, now) <= Potential(l, s, key, t) + Span(l, now - t)
  {
    if key in s.buckets {
      EarnedGrows(l, s.buckets[key], t, now);
    } else {
      SpanSplits(l, 0, now - t);
    }
  }

  lemma SpendingUsesPotential(l: Limits, b: Bucket, now: int)
    requires WellFormed(l) && 0.0 <= b.tokens <= l.burst as real && b.last <= now
    ensures Balance(l, b, now) * l.fullAfter as real <= MinReal(Capacity(l), Earned(l, b, now))
  {
    FullAfterBounds(l);
    var f, e, r, c := l.fullAfter as real, (now - b.last) as real, PerNano(l), l.burst as real;
    RefillIs(l, now - b.last);
    RefillIs(l, l.fullAfter);
    assert Capacity(l) == f * c && Earned(l, b, now) == b.tokens * f + e * c;
    hide Refill, PerNano, WellFormed, Capacity, Earned;
    assert Balance(l, b, now) == MinReal(c, b.tokens + e * r);
    PaceCoversRate(b.tokens, e, r, f, c);
  }

  lemma PaceCoversRate(x: real, e: real, r: real, f: real, c: real)
    requires e >= 0.0 && f >= 0.0 && f * r <= c
    ensures MinReal(c, x + e * r) * f <= MinReal(f * c, x * f + e * c)
  {
    var y := x + e * r;
    Scales(MinReal(c, y), c, f);
    Scales(MinReal(c, y), y, f);
    Distributes(x, e * r, f);
    Swaps(e, r, f);
    Scales(f * r, c, e);
    Commutes(f * r, e);
    Commutes(c, e);
    Commutes(c, f);
  }

  lemma Commutes(x: real, y: real)
    ensures x * y == y * x
  {
  }

  lemma Swaps(e: real, r: real, f: real)
    ensures e * r * f == e * (f * r)
  {
    Associates(e, r, f);
    Commutes(r, f);
  }

  /** A call that found its own bucket b, known or new. */
  lemma OwnCallUsesPotential(l: Limits, p: State, key: string, now: int, b: Bucket)
    requires WellFormed(l) && l.fullAfter >= 0 && 0.0 <= b.tokens <= l.burst as real && b.last <= now
    requires key in p.buckets ==> b == p.buckets[key]
    ensures var (b', a) := Spend(l, b, now);
      (if a == Admitted then l.fullAfter as real else 0.0) + Potential(l, State(p.buckets[key := b'], p.lastSweep), key, now)
        <= Potential(l, p, key, now)
  {
    hide Balance, Span, PerNano, Earned, Capacity, Spend, WellFormed;
    SpendingUsesPotential(l, b, now);
    PotentialAfterSpending(l, b, now);
  }

  lemma CallUsesPotential(l: Limits, s: State, key: string, t: int, c: Call)
    requires WellFormed(l) && t <= c.now && Sane(l, s.buckets, t) && |s.buckets| <= l.maxClients
    ensures var (s', a) := AllowStep(l, s, c.key, c.now);
      (if c.key == key && a == Admitted then l.fullAfter as real else 0.0) + Potential(l, s', key, c.now)
        <= Potential(l, s, key, t) + Span(l, c.now - t)
  {
    FullAfterBounds(l);
    assert l.burst >= 1;
    SaneLater(l, s.buckets, t, c.now);
    PreparedStaysSane(l, s, c.key, c.now);
    PotentialOfPrepared(l, s, key, c.key, t, c.now);
    hide Balance, Span, PerNano, Earned, Capacity, Spend, Prepared, WellFormed;
    var p := Prepared(l, s, c.key, c.now);
    if c.key in p.buckets || |p.buckets| < l.maxClients {
      var b := if c.key in p.buckets then p.buckets[c.key] else Bucket(l.burst as real, c.now);
      OwnCallUsesPotential(l, p, c.key, c.now, b);
      if c.key != key { OtherBucketKept(l, p, key, c.key, Spend(l, b, c.now).0, c.now); }
    }
  }

  lemma OtherBucketKept(l: Limits, p: State, key: string, other: string, b: Bucket, now: int)
    requires other != key
    ensures Potential(l, State(p.buckets[other := b], p.lastSweep), key, now) == Potential(l, p, key, now)
  {
    hide Earned, Capacity;
  }

  lemma PreparedStaysSane(l: Limits, s: State, key: string, now: int)
    requires Sane(l, s.buckets, now)
    ensures Sane(l, Prepared(l, s, key, now).buckets, now)
  {
  }

  lemma PotentialAfterSpending(l: Limits, b: Bucket, now: int)
    requires WellFormed(l) && l.fullAfter >= 0
    requires Balance(l, b, now) * l.fullAfter as real <= MinReal(Capacity(l), Earned(l, b, now))
    ensures var (b', a) := Spend(l, b, now);
      (if a == Admitted then l.fullAfter as real else 0.0) + Earned(l, b', now)
        <= MinReal(Capacity(l), Earned(l, b, now))
  {
    var bal := Balance(l, b, now);
    EarnedAtOnce(l, bal, now);
    hide Balance, Capacity, Earned, WellFormed;
  }

  /** What a bucket touched this instant has earned. */
  lemma EarnedAtOnce(l: Limits, tokens: real, now: int)
    ensures Earned(l, Bucket(tokens, now), now) == tokens * l.fullAfter as real
    ensures Earned(l, Bucket(tokens - 1.0, now), now) == tokens * l.fullAfter as real - l.fullAfter as real
  {
    SpanSplits(l, 0, 0);
    var f := l.fullAfter as real;
    assert (tokens - 1.0) * f == tokens * f - f;
  }

  lemma PotentialIsNonNegative(l: Limits, s: State, key: string, t: int, end: int)
    requires l.fullAfter >= 0 && Sane(l, s.buckets, t) && t <= end
    ensures Potential(l, s, key, t) + Span(l, end - t) >= 0.0
  {
    SpanSplits(l, 0, end - t);
    EarnedGrows(l, if key in s.buckets then s.buckets[key] else Bucket(0.0, t), t, t);
  }

  /** cost for every request that spent one of key's tokens. */
  ghost function Spent(cost: real, calls: seq<Call>, answers: seq<Answer>, key: string): real
    requires |calls| == |answers|
  {
    if calls == [] then 0.0
    else (if calls[0].key == key && answers[0] == Admitted then cost else 0.0)
         + Spent(cost, calls[1..], answers[1..], key)
  }

  lemma {:induction false} SpentCountsAdmissions(cost: real, calls: seq<Call>, answers: seq<Answer>, key: string)
    requires |calls| == |answers|
    ensures Spent(cost, calls, answers, key) == Times(Admissions(calls, answers, key), cost)
  {
    if calls != [] {
      SpentCountsAdmissions(cost, calls[1..], answers[1..], key);
      TimesAdds(if calls[0].key == key && answers[0] == Admitted then 1 else 0,
                  Admissions(calls[1..], answers[1..], key), cost);
    }
  }

  lemma RunStep(l: Limits, s: State, calls: seq<Call>)
    requires calls != []
    ensures var (s', a) := AllowStep(l, s, calls[0].key, calls[0].now);
      Run(l, s, calls)[0] == a && Run(l, s, calls)[1..] == Run(l, s', calls[1..])
  {
  }

  lemma {:induction false} RunUsesPotential(l: Limits, s: State, key: string, t: int, end: int, calls: seq<Call>)
    requires WellFormed(l) && l.fullAfter >= 0 && Sane(l, s.buckets, t) && |s.buckets| <= l.maxClients
    requires ClockNeverGoesBack(calls) && t <= end
    requires forall i :: 0 <= i < |calls| ==> t <= calls[i].now <= end
    ensures Spent(l.fullAfter as real, calls, Run(l, s, calls), key) <= Potential(l, s, key, t) + Span(l, end - t)
    decreases |calls|
  {
    hide *;
    if calls == [] {
      NothingSpent(l.fullAfter as real, calls, Run(l, s, calls), key);
      PotentialIsNonNegative(l, s, key, t, end);
    } else {
      var c := calls[0];
      var s' := AllowStep(l, s, c.key, c.now).0;
      CallUsesPotential(l, s, key, t, c);
      SaneLater(l, s.buckets, t, c.now);
      AllowStaysSane(l, s, c.key, c.now);
      ClockTail(calls, end);
      RunUsesPotential(l, s', key, c.now, end, calls[1..]);
      RunStep(l, s, calls);
      SpentStep(l.fullAfter as real, calls, Run(l, s, calls), key);
      SpanSplits(l, end - c.now, c.now - t);
      assert (end - c.now) + (c.now - t) == end - t;
    }
  }

  lemma NothingSpent(cost: real, calls: seq<Call>, answers: seq<Answer>, key: string)
    requires calls == [] && answers == []
    ensures Spent(cost, calls, answers, key) == 0.0
  {
  }

  lemma SpentStep(cost: real, calls: seq<Call>, answers: seq<Answer>, key: string)
    requires |calls| == |answers| && calls != []
    ensures Spent(cost, calls, answers, key) ==
      (if calls[0].key == key && answers[0] == Admitted then cost else 0.0) + Spent(cost, calls[1..], answers[1..], key)
  {
  }

  lemma ClockTail(calls: seq<Call>, end: int)
    requires ClockNeverGoesBack(calls) && calls != [] && forall i :: 0 <= i < |calls| ==> calls[i].now <= end
    ensures ClockNeverGoesBack(calls[1..]) && forall i :: 0 <= i < |calls| - 1 ==> calls[0].now <= calls[1..][i].now <= end
  {
    assert forall i :: 0 <= i < |calls| - 1 ==> calls[1..][i] == calls[i + 1];
  }

  lemma SaneLater(l: Limits, buckets: map<string, Bucket>, t: int, now: int)
    requires Sane(l, buckets, t) && t <= now
    ensures Sane(l, buckets, now)
  {
  }

  ghost function Times(n: int, cost: real): real {
    n as real * cost
  }

  lemma TimesAdds(one: int, later: int, f: real)
    ensures Times(one + later, f) == Times(one, f) + Times(later, f)
  {
    assert (one + later) as real == one as real + later as real;
    Distributes(one as real, later as real, f);
  }

  lemma {:induction false} RunSplits(l: Limits, s: State, a: seq<Call>, b: seq<Call>)
    requires l.rps > 0.0
    ensures Run(l, s, a + b) == Run(l, s, a) + Run(l, After(l, s, a), b)
    decreases |a|
  {
    if a == [] {
      assert a + b == b;
    } else {
      assert (a + b)[0] == a[0] && (a + b)[1..] == a[1..] + b;
      RunSplits(l, AllowStep(l, s, a[0].key, a[0].now).0, a[1..], b);
    }
  }

  lemma WindowSpends(l: Limits, s: State, window: seq<Call>, key: string, span: nat)
    requires WellFormed(l) && l.fullAfter >= 0 && |s.buckets| <= l.maxClients
    requires ClockNeverGoesBack(window) && window != [] && Sane(l, s.buckets, window[0].now)
    requires window[|window| - 1].now - window[0].now <= span
    ensures Times(Admissions(window, Run(l, s, window), key), l.fullAfter as real) <= Capacity(l) + Span(l, span)
  {
    hide Balance, Span, PerNano, Times;
    var t := window[0].now;
    RunUsesPotential(l, s, key, t, t + span, window);
    SpentCountsAdmissions(l.fullAfter as real, window, Run(l, s, window), key);
  }

  /** Any stretch of any run: within span nanoseconds a client spends at most burst tokens plus what
      refills, at the pace of one burst per fullAfter. With a whole refill time that pace is rps. */
  lemma AdmissionBound(l: Limits, zeroTime: int, before: seq<Call>, window: seq<Call>, key: string, span: nat)
    requires WellFormed(l) && ClockNeverGoesBack(before + window) && window != []
    requires window[|window| - 1].now - window[0].now <= span
    ensures var answers := Run(l, State(map[], zeroTime), before + window)[|before|..];
      var n := Admissions(window, answers, key);
      && n * l.fullAfter <= l.burst * (l.fullAfter + span)
      && (WholeRefillTime(l) ==> n as real <= l.burst as real + Refill(l, span))
  {
    hide Balance, Span, PerNano, Wait, Times;
    var s0 := State(map[], zeroTime);
    var s := After(l, s0, before);
    RunSplits(l, s0, before, window);
    assert Run(l, s0, before + window)[|before|..] == Run(l, s, window);
    ReachedSane(l, s0, before, window);
    FullAfterBounds(l);
    WholeRefillTimeIsExact(l);
    WindowSpends(l, s, window, key, span);
    PotentialGivesBound(l, Admissions(window, Run(l, s, window), key), span);
  }

  lemma ReachedSane(l: Limits, s0: State, before: seq<Call>, window: seq<Call>)
    requires WellFormed(l) && ClockNeverGoesBack(before + window) && window != [] && s0.buckets == map[]
    ensures var s := After(l, s0, before); Sane(l, s.buckets, window[0].now) && |s.buckets| <= l.maxClients
    ensures ClockNeverGoesBack(window)
  {
    var all := before + window;
    assert forall i :: 0 <= i < |before| ==> all[i] == before[i];
    assert forall i :: 0 <= i < |window| ==> all[|before| + i] == window[i];
    MapStaysBounded(l, s0, if before == [] then window[0].now else before[0].now, before);
  }

  lemma PotentialGivesBound(l: Limits, n: nat, span: nat)
    requires WellFormed(l) && l.fullAfter >= 0
    requires Times(n, l.fullAfter as real) <= Capacity(l) + Span(l, span)
    ensures n * l.fullAfter <= l.burst * (l.fullAfter + span)
    ensures Refill(l, l.fullAfter) == l.burst as real ==> n as real <= l.burst as real + Refill(l, span)
  {
    var f, b, r, d := l.fullAfter as real, l.burst as real, PerNano(l), span as real;
    assert Times(n, f) == n as real * f && Capacity(l) == f * b && Span(l, span) == d * b && b >= 1.0;
    RefillIs(l, l.fullAfter);
    RefillIs(l, span);
    hide Times, Capacity, Span, Refill, PerNano, WellFormed;
    Distributes(f, d, b);
    BoundInWhole(n, l.fullAfter, l.burst, span);
    if Refill(l, l.fullAfter) == b {
      Associates(d, f, r);
      Associates(d, r, f);
      Commutes(f, r);
      Distributes(b, d * r, f);
      Commutes(f, b);
      Product(f, r);
      assert f != 0.0 by { Product(0.0, r); }
      NotAbove(n as real, b + d * r, f);
    }
  }

  lemma BoundInWhole(n: nat, f: nat, b: nat, d: nat)
    requires n as real * f as real <= (f as real + d as real) * b as real
    ensures n * f <= b * (f + d)
  {
    Whole(n, f);
    Whole(f + d, b);
  }

  lemma Whole(x: nat, y: nat)
    ensures (x * y) as real == x as real * y as real
  {
  }

  lemma NotAbove(x: real, y: real, f: real)
    requires f > 0.0 && x * f <= y * f
    ensures x <= y
  {
    Scales(y, x, f);
  }

  // ---- what a refused client is told ----

  /** The balance of key's bucket follows the line that starts with tokens at refusedAt: refused
      calls move the point along it, and the bucket is not forgotten before fullAfter. */
  ghost predicate OnLine(l: Limits, s: State, key: string, tokens: real, refusedAt: int, now: int) {
    && refusedAt <= now
    && (key in s.buckets ==>
          && refusedAt <= s.buckets[key].last <= now
          && s.buckets[key].tokens == tokens + Refill(l, s.buckets[key].last - refusedAt))
    && (key !in s.buckets ==> now >= refusedAt + l.fullAfter)
  }

  lemma PreparingKeepsLine(l: Limits, s: State, key: string, tokens: real, refusedAt: int, t: int, other: string, now: int)
    requires OnLine(l, s, key, tokens, refusedAt, t) && t <= now
    ensures OnLine(l, Prepared(l, s, other, now), key, tokens, refusedAt, now)
    ensures key in s.buckets && now < refusedAt + l.fullAfter ==> key in Prepared(l, s, other, now).buckets
  {
  }

  lemma WaitWithinFullAfter(l: Limits, tokens: real, wait: int)
    requires WellFormed(l) && 0.0 <= tokens < 1.0
    requires Refill(l, wait) <= 1.0 - tokens
    ensures wait <= l.fullAfter
  {
    FullAfterBounds(l);
    if wait > l.fullAfter {
      RefillGrows(l, l.fullAfter, wait);
      assert false;
    }
  }

  /** The balance of a bucket on the line, before, at and after the end of the wait. */
  lemma BalanceOnLine(l: Limits, b: Bucket, tokens: real, refusedAt: int, wait: int, now: int)
    requires WellFormed(l) && 0.0 <= tokens < 1.0
    requires Refill(l, wait) <= 1.0 - tokens < Refill(l, wait + 1)
    requires b.tokens == tokens + Refill(l, b.last - refusedAt)
    ensures now < refusedAt + wait ==> Balance(l, b, now) < 1.0
    ensures now < refusedAt + wait ==> Balance(l, b, now) == tokens + Refill(l, now - refusedAt)
    ensures now > refusedAt + wait ==> Balance(l, b, now) >= 1.0
    ensures now == refusedAt + wait ==> (Balance(l, b, now) >= 1.0 <==> Refill(l, wait) == 1.0 - tokens)
  {
    assert l.rps > 0.0 && l.burst >= 1;
    hide Refill, PerNano, WellFormed;
    RefillSplits(l, b.last - refusedAt, now - b.last);
    assert (b.last - refusedAt) + (now - b.last) == now - refusedAt;
    if now < refusedAt + wait {
      RefillSplits(l, now - refusedAt, wait - (now - refusedAt));
      RefillGrows(l, 0, wait - (now - refusedAt));
    } else if now > refusedAt + wait {
      RefillGrows(l, wait, now - refusedAt);
    }
  }

  /** What a call of key answers while its bucket is on the line. */
  lemma AnswerOnLine(l: Limits, s: State, key: string, tokens: real, refusedAt: int, t: int, wait: int, now: int)
    requires WellFormed(l) && OnLine(l, s, key, tokens, refusedAt, t) && t <= now
    requires 0.0 <= tokens < 1.0 && wait == Wait(l, Refused(1.0 - tokens))
    ensures wait <= l.fullAfter
    ensures var (s', a) := AllowStep(l, s, key, now);
      && (now < refusedAt + wait ==> a.Refused? && OnLine(l, s', key, tokens, refusedAt, now))
      && (now > refusedAt + wait ==> !a.Refused?)
      && (now == refusedAt + wait ==>
            && (a.Refused? <==> Refill(l, wait) != 1.0 - tokens && key in Prepared(l, s, key, now).buckets)
            && (wait < l.fullAfter ==> key in Prepared(l, s, key, now).buckets))
  {
    TruncatedTime(l, 1.0 - tokens, wait);
    WaitWithinFullAfter(l, tokens, wait);
    PreparingKeepsLine(l, s, key, tokens, refusedAt, t, key, now);
    var p := Prepared(l, s, key, now);
    if key in p.buckets {
      BalanceOnLine(l, p.buckets[key], tokens, refusedAt, wait, now);
    } else if |p.buckets| < l.maxClients {
      RefillSplits(l, 0, 0);
    }
  }

  /** Call i finds its client's bucket still there after the sweeps it may make itself. */
  predicate FindsBucket(l: Limits, s: State, calls: seq<Call>, i: nat)
    requires i < |calls|
  {
    calls[i].key in Prepared(l, After(l, s, calls[..i]), calls[i].key, calls[i].now).buckets
  }

  /** What a call answers that comes once the first of these calls was made. */
  lemma OneCallLater(l: Limits, s: State, calls: seq<Call>, i: nat)
    requires 0 < i < |calls|
    ensures var s' := AllowStep(l, s, calls[0].key, calls[0].now).0;
      && Run(l, s, calls)[i] == Run(l, s', calls[1..])[i - 1]
      && (FindsBucket(l, s, calls, i) <==> FindsBucket(l, s', calls[1..], i - 1))
  {
    hide AllowStep, Prepared;
    assert calls[..i][0] == calls[0] && calls[..i][1..] == calls[1..][..i - 1];
  }

  /** A refused client is refused until its wait is over and served from then on, whoever else calls
      and however often it retries in between. At the nanosecond at which the wait ends it is refused
      exactly if the wait was truncated and no sweep has forgotten it yet; none can have, unless the wait
      is a whole fullAfter. */
  lemma {:induction false} WaitIsHonest(l: Limits, s: State, key: string, tokens: real, refusedAt: int, t: int,
                                        wait: int, calls: seq<Call>, i: nat)
    requires WellFormed(l) && OnLine(l, s, key, tokens, refusedAt, t)
    requires 0.0 <= tokens < 1.0 && wait == Wait(l, Refused(1.0 - tokens))
    requires ClockNeverGoesBack(calls) && i < |calls| && t <= calls[0].now
    requires calls[i].key == key
    requires forall j :: 0 <= j < i && calls[j].key == key ==> calls[j].now < refusedAt + wait
    ensures var a, now := Run(l, s, calls)[i], calls[i].now;
      && (now < refusedAt + wait ==> a.Refused?)
      && (now > refusedAt + wait ==> !a.Refused?)
      && (now == refusedAt + wait ==>
            && (a.Refused? <==> Refill(l, wait) != 1.0 - tokens && FindsBucket(l, s, calls, i))
            && (wait < l.fullAfter ==> FindsBucket(l, s, calls, i)))
    decreases i
  {
    if i == 0 {
      assert calls[..0] == [];
      hide OnLine, AllowStep, Wait, Refill, Prepared, WellFormed;
      AnswerOnLine(l, s, key, tokens, refusedAt, t, wait, calls[0].now);
    } else {
      hide *;
      var c := calls[0];
      StaysOnLine(l, s, key, tokens, refusedAt, t, wait, c);
      OneCallLater(l, s, calls, i);
      ClockTail(calls, calls[|calls| - 1].now) by { LastIsLatest(calls); }
      assert forall j :: 0 <= j < |calls| - 1 ==> calls[1..][j] == calls[j + 1];
      WaitIsHonest(l, AllowStep(l, s, c.key, c.now).0, key, tokens, refusedAt, c.now, wait, calls[1..], i - 1);
    }
  }

  lemma LastIsLatest(calls: seq<Call>)
    requires ClockNeverGoesBack(calls) && calls != []
    ensures forall i :: 0 <= i < |calls| ==> calls[i].now <= calls[|calls| - 1].now
  {
  }

  lemma StaysOnLine(l: Limits, s: State, key: string, tokens: real, refusedAt: int, t: int, wait: int, c: Call)
    requires WellFormed(l) && OnLine(l, s, key, tokens, refusedAt, t) && t <= c.now
    requires 0.0 <= tokens < 1.0 && wait == Wait(l, Refused(1.0 - tokens))
    requires c.key == key ==> c.now < refusedAt + wait
    ensures OnLine(l, AllowStep(l, s, c.key, c.now).0, key, tokens, refusedAt, c.now)
  {
    hide Balance, Wait, Refill, WellFormed;
    if c.key == key {
      AnswerOnLine(l, s, key, tokens, refusedAt, t, wait, c.now);
    } else {
      PreparingKeepsLine(l, s, key, tokens, refusedAt, t, c.key, c.now);
    }
  }

  /** The same, starting from the refused call itself in a state some run can reach. */
  lemma RefusalIsHonest(l: Limits, s: State, key: string, now: int, calls: seq<Call>, i: nat)
    requires WellFormed(l) && Sane(l, s.buckets, now) && |s.buckets| <= l.maxClients
    requires AllowStep(l, s, key, now).1.Refused?
    requires ClockNeverGoesBack([Call(key, now)] + calls) && i < |calls| && calls[i].key == key
    requires var end := now + Wait(l, AllowStep(l, s, key, now).1);
      forall j :: 0 <= j < i && calls[j].key == key ==> calls[j].now < end
    ensures var (s', a) := AllowStep(l, s, key, now);
      var answer, left := Run(l, s', calls)[i], s'.buckets[key].tokens;
      && (calls[i].now < now + Wait(l, a) ==> answer.Refused?)
      && (calls[i].now > now + Wait(l, a) ==> !answer.Refused?)
      && (calls[i].now == now + Wait(l, a) ==>
            && (answer.Refused? <==> Refill(l, Wait(l, a)) != 1.0 - left && FindsBucket(l, s', calls, i))
            && (Wait(l, a) < l.fullAfter ==> FindsBucket(l, s', calls, i)))
  {
    var (s', a) := AllowStep(l, s, key, now);
    AllowStaysSane(l, s, key, now);
    var left := s'.buckets[key].tokens;
    var all := [Call(key, now)] + calls;
    assert forall j :: 0 <= j < |calls| ==> calls[j] == all[j + 1];
    assert all[0].now <= all[1].now;
    RefillSplits(l, 0, 0);
    TruncatedTime(l, 1.0 - left, Wait(l, a));
    hide FindsBucket;
    WaitIsHonest(l, s', key, left, now, now, Wait(l, a), calls, i);
  }

  /** Both happen, at 3 requests per second and a burst of 1. Told to wait 333333333 ns, a third of a nanosecond
      too little, a client that calls at that very nanosecond is refused again; unless the call is the one that
      sweeps, and so forgets the client first. */
  lemma TruncatedWaitEndsEitherWay()
    ensures var l := NewLimits(Config(3.0, 1, 10));
      var swept, kept := SWEEP_INTERVAL - l.fullAfter, SWEEP_INTERVAL - l.fullAfter - 1;
      && WellFormed(l) && Wait(l, Refused(1.0)) == l.fullAfter && Refill(l, l.fullAfter) != 1.0
      && Run(l, State(map[], -SWEEP_INTERVAL), [Call("b", 0), Call("a", swept), Call("a", swept), Call("a", swept + l.fullAfter)])
           == [Admitted, Admitted, Refused(1.0), Admitted]
      && Run(l, State(map[], -SWEEP_INTERVAL), [Call("b", 0), Call("a", kept), Call("a", kept), Call("a", kept + l.fullAfter)])[3].Refused?
  {
    ThreePerSecond();
    var l := Limits(3.0, 1, 10, 333_333_333);
    DrainedRefused(l, SWEEP_INTERVAL - l.fullAfter);
    DrainedRefused(l, SWEEP_INTERVAL - l.fullAfter - 1);
    hide Run, Wait, Refill, WellFormed, NewLimits, AllowStep;
    AfterTheSweep(l);
    BeforeTheSweep(l);
  }

  lemma ThreePerSecond()
    ensures var l := NewLimits(Config(3.0, 1, 10));
      l == Limits(3.0, 1, 10, 333_333_333) && WellFormed(l) && Wait(l, Refused(1.0)) == l.fullAfter && Refill(l, l.fullAfter) != 1.0
  {
  }

  lemma AfterTheSweep(l: Limits)
    requires l == Limits(3.0, 1, 10, 333_333_333)
    ensures AllowStep(l, DrainedAt(SWEEP_INTERVAL - l.fullAfter), "a", SWEEP_INTERVAL).1 == Admitted
  {
    var s := DrainedAt(SWEEP_INTERVAL - l.fullAfter);
    assert Swept(l, s, SWEEP_INTERVAL) == State(map[], SWEEP_INTERVAL);
  }

  lemma BeforeTheSweep(l: Limits)
    requires l == Limits(3.0, 1, 10, 333_333_333)
    ensures AllowStep(l, DrainedAt(SWEEP_INTERVAL - l.fullAfter - 1), "a", SWEEP_INTERVAL - 1).1.Refused?
  {
  }

  function DrainedAt(t: int): State { State(map["b" := Bucket(0.0, 0), "a" := Bucket(0.0, t)], 0) }

  /** A run that leaves client a without a token at t, refused once, and then calls once more. */
  lemma DrainedRefused(l: Limits, t: int)
    requires l == Limits(3.0, 1, 10, 333_333_333) && 0 <= t < SWEEP_INTERVAL
    ensures Run(l, State(map[], -SWEEP_INTERVAL), [Call("b", 0), Call("a", t), Call("a", t), Call("a", t + l.fullAfter)])
         == [Admitted, Admitted, Refused(1.0), AllowStep(l, DrainedAt(t), "a", t + l.fullAfter).1]
  {
    var s0, s1, s2 := State(map[], -SWEEP_INTERVAL), State(map["b" := Bucket(0.0, 0)], 0), DrainedAt(t);
    var c0, c1, c3 := Call("b", 0), Call("a", t), Call("a", t + l.fullAfter);
    assert Swept(l, s0, 0) == State(map[], 0);
    assert AllowStep(l, s0, "b", 0) == (s1, Admitted);
    assert s1.buckets["a" := Bucket(0.0, t)] == s2.buckets;
    assert AllowStep(l, s1, "a", t) == (s2, Admitted);
    assert s2.buckets["a" := Bucket(0.0, t)] == s2.buckets;
    assert AllowStep(l, s2, "a", t) == (s2, Refused(1.0));
    hide AllowStep;
    FourCalls(l, s0, s1, s2, s2, c0, c1, c1, c3);
  }

  lemma FourCalls(l: Limits, s0: State, s1: State, s2: State, s3: State, c0: Call, c1: Call, c2: Call, c3: Call)
    requires AllowStep(l, s0, c0.key, c0.now).0 == s1 && AllowStep(l, s1, c1.key, c1.now).0 == s2
    requires AllowStep(l, s2, c2.key, c2.now).0 == s3
    ensures Run(l, s0, [c0, c1, c2, c3])
         == [AllowStep(l, s0, c0.key, c0.now).1, AllowStep(l, s1, c1.key, c1.now).1,
             AllowStep(l, s2, c2.key, c2.now).1, AllowStep(l, s3, c3.key, c3.now).1]
  {
    hide AllowStep;
    assert [c0, c1, c2, c3][1..] == [c1, c2, c3] && [c1, c2, c3][1..] == [c2, c3] && [c2, c3][1..] == [c3] && [c3][1..] == [];
    assert Run(l, s3, [c3]) == [AllowStep(l, s3, c3.key, c3.now).1];
    assert Run(l, s2, [c2, c3]) == [AllowStep(l, s2, c2.key, c2.now).1] + Run(l, s3, [c3]);
    assert Run(l, s1, [c1, c2, c3]) == [AllowStep(l, s1, c1.key, c1.now).1] + Run(l, s2, [c2, c3]);
  }
}
