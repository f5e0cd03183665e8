/** Customer sessions: refresh-token families with rotation, a reuse grace window and family
    revocation (internal/auth/service.go, refresh_repo.go and the revoking statement of
    account_repo.go).

    Every repository call is one atomic step on the token table; a Refresh or Logout call is several
    of them, and calls interleave freely. There is one clock, read by the application and by now(). */
module RefreshTokens {
  import opened Wrappers

  type Hash = string
  type Customer = int
  type Family = int
  type CallId = int

  datatype Token = Token(customer: Customer, family: Family, expires: int, revoked: Option<int>, rotated: Option<int>)

  /** refresh_tokens by token_hash, which is UNIQUE. Rows are never deleted. */
  type Table = map<Hash, Token>

  predicate Active(t: Token, now: int) {
    t.revoked.None? && t.expires > now
  }

  // ---- refresh_repo.go, one function per statement or transaction ----

  function Create(tab: Table, customer: Customer, hash: Hash, family: Family, expires: int): Table {
    tab[hash := Token(customer, family, expires, None, None)]
  }

  /** The row that was rotated, or None when oldHash is not active. */
  function Rotate(tab: Table, now: int, oldHash: Hash, newHash: Hash, expires: int): (Table, Option<Token>) {
    if oldHash in tab && Active(tab[oldHash], now) then
      var t := tab[oldHash];
      (tab[oldHash := t.(revoked := Some(now), rotated := Some(now))]
          [newHash := Token(t.customer, t.family, expires, None, None)], Some(t))
    else (tab, None)
  }

  function Lookup(tab: Table, hash: Hash): Option<Token> {
    if hash in tab then Some(tab[hash]) else None
  }

  function RevokeFamily(tab: Table, now: int, family: Family): Table {
    map h | h in tab :: if tab[h].family == family && tab[h].revoked.None? then tab[h].(revoked := Some(now)) else tab[h]
  }

  function IssueInFamily(tab: Table, now: int, customer: Customer, family: Family, hash: Hash, expires: int): (Table, bool) {
    if exists h :: h in tab && tab[h].family == family && Active(tab[h], now) then
      (Create(tab, customer, hash, family, expires), true)
    else (tab, false)
  }

  /** The refresh_tokens statement of deleteCustomer. */
  function RevokeCustomer(tab: Table, now: int, customer: Customer): Table {
    map h | h in tab :: if tab[h].customer == customer && tab[h].revoked.None? then tab[h].(revoked := Some(now)) else tab[h]
  }

  // ---- calls in flight ----

  /** Where a Refresh or Logout call stands. oldHash is the presented token, newHash its replacement,
      drawn before the first statement. */
  datatype Stage =
    | Presented(oldHash: Hash, newHash: Hash)
    | Inactive(oldHash: Hash, newHash: Hash)
    | Retrying(oldHash: Hash, newHash: Hash, customer: Customer, family: Family)
    | Reused(oldHash: Hash, family: Family)
    | Granted(oldHash: Hash, newHash: Hash)
    | Rejected
    | LeavingWith(oldHash: Hash)
    | Leaving(oldHash: Hash, family: Family)
    | LoggedOut

  /** The last two fields are bookkeeping the program does not have: families that were revoked as a
      whole, and the successful grace re-issues per family. grace is refreshReuseGrace. */
  datatype Sys = Sys(table: Table, now: int, calls: map<CallId, Stage>, grace: int,
                     revoked: set<Family>, reissues: multiset<Family>)

  datatype Event =
    | BeginRefresh(id: CallId, oldHash: Hash, newHash: Hash)
    | DoRotate(id: CallId, expires: int)
    | DoLookup(id: CallId)
    | DoIssue(id: CallId, expires: int)
    | DoRevoke(id: CallId)
    | BeginLogout(id: CallId, oldHash: Hash)
    | LogoutLookup(id: CallId)
    | LogoutRevoke(id: CallId)
    | Abort(id: CallId)
    | Login(customer: Customer, hash: Hash, family: Family, expires: int)
    | DeleteAccount(customer: Customer)
    | Tick(to: int)

  /** newOpaqueToken draws a token nobody has. */
  predicate Unused(s: Sys, hash: Hash) {
    && hash !in s.table
    && forall i :: i in s.calls ==> !Holds(s.calls[i], hash)
  }

  predicate Holds(c: Stage, hash: Hash) {
    (c.Presented? || c.Inactive? || c.Retrying?) && c.newHash == hash
  }

  predicate HasFamily(tab: Table, family: Family) {
    exists h :: h in tab && tab[h].family == family
  }

  function FamiliesOf(tab: Table, customer: Customer): set<Family> {
    set h | h in tab && tab[h].customer == customer :: tab[h].family
  }

  predicate Enabled(s: Sys, e: Event) {
    match e
    case BeginRefresh(id, oldHash, newHash) => id !in s.calls && Unused(s, newHash)
    case DoRotate(id, _) => id in s.calls && s.calls[id].Presented?
    case DoLookup(id) => id in s.calls && s.calls[id].Inactive?
    case DoIssue(id, _) => id in s.calls && s.calls[id].Retrying?
    case DoRevoke(id) => id in s.calls && s.calls[id].Reused?
    case BeginLogout(id, _) => id !in s.calls
    case LogoutLookup(id) => id in s.calls && s.calls[id].LeavingWith?
    case LogoutRevoke(id) => id in s.calls && s.calls[id].Leaving?
    case Abort(id) => id in s.calls && !s.calls[id].Granted? && !s.calls[id].LoggedOut?
    case Login(_, hash, family, _) => Unused(s, hash) && !HasFamily(s.table, family)
    case DeleteAccount(_) => true
    case Tick(to) => s.now <= to
  }

  /** handleInactiveRefresh after its lookup. */
  function Judge(s: Sys, c: Stage): Stage
    requires c.Inactive?
  {
    match Lookup(s.table, c.oldHash)
    case None => Rejected
    case Some(t) =>
      if t.rotated.None? then Rejected
      else if s.grace > 0 && s.now - t.rotated.value < s.grace then
        Retrying(c.oldHash, c.newHash, t.customer, t.family)
      else Reused(c.oldHash, t.family)
  }

  function Step(s: Sys, e: Event): Sys
    requires Enabled(s, e)
  {
    match e
    case BeginRefresh(id, oldHash, newHash) => s.(calls := s.calls[id := Presented(oldHash, newHash)])
    case DoRotate(id, expires) =>
      var c := s.calls[id];
      var (tab, t) := Rotate(s.table, s.now, c.oldHash, c.newHash, expires);
      s.(table := tab, calls := s.calls[id := if t.Some? then Granted(c.oldHash, c.newHash) else Inactive(c.oldHash, c.newHash)])
    case DoLookup(id) => s.(calls := s.calls[id := Judge(s, s.calls[id])])
    case DoIssue(id, expires) =>
      var c := s.calls[id];
      var (tab, ok) := IssueInFamily(s.table, s.now, c.customer, c.family, c.newHash, expires);
      s.(table := tab, calls := s.calls[id := if ok then Granted(c.oldHash, c.newHash) else Rejected],
         reissues := if ok then s.reissues + multiset{c.family} else s.reissues)
    case DoRevoke(id) =>
      var f := s.calls[id].family;
      s.(table := RevokeFamily(s.table, s.now, f), calls := s.calls[id := Rejected], revoked := s.revoked + {f})
    case BeginLogout(id, oldHash) => s.(calls := s.calls[id := LeavingWith(oldHash)])
    case LogoutLookup(id) =>
      var c := s.calls[id];
      var t := Lookup(s.table, c.oldHash);
      s.(calls := s.calls[id := if t.Some? then Leaving(c.oldHash, t.value.family) else LoggedOut])
    case LogoutRevoke(id) =>
      var f := s.calls[id].family;
      s.(table := RevokeFamily(s.table, s.now, f), calls := s.calls[id := LoggedOut], revoked := s.revoked + {f})
    case Abort(id) => s.(calls := s.calls[id := Rejected])
    case Login(customer, hash, family, expires) => s.(table := Create(s.table, customer, hash, family, expires))
    case DeleteAccount(customer) =>
      s.(table := RevokeCustomer(s.table, s.now, customer), revoked := s.revoked + FamiliesOf(s.table, customer))
    case Tick(to) => s.(now := to)
  }

  ghost predicate Next(s: Sys, e: Event, s': Sys) {
    Enabled(s, e) && s' == Step(s, e)
  }

  ghost predicate Initial(s: Sys) {
    s.table == map[] && s.calls == map[] && s.revoked == {} && s.reissues == multiset{}
  }

  ghost predicate IsRun(states: seq<Sys>, events: seq<Event>) {
    && |states| == |events| + 1
    && forall k :: 0 <= k < |events| ==> Next(states[k], events[k], states[k + 1])
  }

  ghost predicate IsHistory(states: seq<Sys>, events: seq<Event>) {
    IsRun(states, events) && Initial(states[0])
  }

  // ---- what every step keeps ----

  function Unrevoked(tab: Table, family: Family): set<Hash> {
    set h | h in tab && tab[h].family == family && tab[h].revoked.None?
  }

  /** All tokens of a family belong to one customer. */
  ghost predicate OneCustomer(tab: Table) {
    forall g, h :: g in tab && h in tab && tab[g].family == tab[h].family ==> tab[g].customer == tab[h].customer
  }

  /** What a call remembers about the token it was given is still true of it. */
  ghost predicate Remembers(tab: Table, c: Stage) {
    && (c.Retrying? || c.Reused? || c.Leaving? ==> c.oldHash in tab && tab[c.oldHash].family == c.family)
    && (c.Retrying? ==> tab[c.oldHash].customer == c.customer)
    && (c.Granted? ==> c.oldHash in tab && c.newHash in tab && tab[c.oldHash].family == tab[c.newHash].family)
  }

  ghost predicate CallsRemember(s: Sys) {
    forall i :: i in s.calls ==> Remembers(s.table, s.calls[i])
  }

  /** Replacement tokens in flight are in nobody else's hands. */
  ghost predicate FreshTokens(s: Sys) {
    && (forall i, h :: i in s.calls && Holds(s.calls[i], h) ==> h !in s.table)
    && (forall i, j, h :: i in s.calls && j in s.calls && i != j && Holds(s.calls[i], h) ==> !Holds(s.calls[j], h))
  }

  /** The number of live lines a family has. */
  function LivesOf(s: Sys, family: Family): nat {
    if family in s.revoked then 0 else 1 + s.reissues[family]
  }

  ghost predicate CountLaw(s: Sys) {
    && (forall h :: h in s.table ==> |Unrevoked(s.table, s.table[h].family)| == LivesOf(s, s.table[h].family))
    && (forall f :: !HasFamily(s.table, f) ==> f !in s.revoked && s.reissues[f] == 0)
    && (s.grace <= 0 ==> s.reissues == multiset{} && forall i :: i in s.calls ==> !s.calls[i].Retrying?)
  }

  ghost predicate RotatedIsRevoked(s: Sys) {
    forall h :: h in s.table && s.table[h].rotated.Some? ==> s.table[h].revoked.Some?
  }

  ghost predicate Inv(s: Sys) {
    OneCustomer(s.table) && CallsRemember(s) && FreshTokens(s) && CountLaw(s) && RotatedIsRevoked(s)
  }

  /** Nothing a row says is ever unsaid: rows stay, keep owner, family and expiry, and a revocation or
      rotation stays as it is. */
  ghost predicate Persists(t: Token, t': Token) {
    && t'.customer == t.customer && t'.family == t.family && t'.expires == t.expires
    && (t.revoked.Some? ==> t' == t)
  }

  lemma RowsPersist(s: Sys, e: Event)
    requires FreshTokens(s) && RotatedIsRevoked(s) && Enabled(s, e)
    ensures forall h :: h in s.table ==> h in Step(s, e).table && Persists(s.table[h], Step(s, e).table[h])
  {
  }

  /** The one row a step may add: it continues a family, or starts a new one. */
  lemma NewRow(s: Sys, e: Event, h: Hash)
    requires FreshTokens(s) && CallsRemember(s) && Enabled(s, e)
    requires h !in s.table && h in Step(s, e).table
    ensures var t := Step(s, e).table[h];
      && t.revoked.None? && t.rotated.None?
      && if e.Login? then t.family == e.family && !HasFamily(s.table, t.family)
         else exists g :: g in s.table && s.table[g].family == t.family && s.table[g].customer == t.customer
    ensures forall g :: g !in s.table && g in Step(s, e).table ==> g == h
  {
    if e.DoRotate? {
      assert s.calls[e.id].oldHash in s.table;
    } else if e.DoIssue? {
      assert Remembers(s.table, s.calls[e.id]);
    }
  }

  lemma StepKeepsOneCustomer(s: Sys, e: Event)
    requires OneCustomer(s.table) && CallsRemember(s) && FreshTokens(s) && RotatedIsRevoked(s) && Enabled(s, e)
    ensures OneCustomer(Step(s, e).table)
  {
    RowsPersist(s, e);
    var tab, tab' := s.table, Step(s, e).table;
    hide Step, Enabled, FreshTokens, CallsRemember, RotatedIsRevoked;
    forall g, h | g in tab' && h in tab' && tab'[g].family == tab'[h].family
      ensures tab'[g].customer == tab'[h].customer
    {
      if g !in tab { NewRow(s, e, g); }
      if h !in tab { NewRow(s, e, h); }
    }
  }

  lemma StepKeepsRemembering(s: Sys, e: Event)
    requires CallsRemember(s) && FreshTokens(s) && RotatedIsRevoked(s) && Enabled(s, e)
    ensures CallsRemember(Step(s, e))
  {
    RowsPersist(s, e);
  }

  lemma StepKeepsFresh(s: Sys, e: Event)
    requires FreshTokens(s) && Enabled(s, e)
    ensures FreshTokens(Step(s, e))
  {
    if !e.DoRotate? && !e.DoIssue? && !e.Login? {
      assert Step(s, e).table.Keys == s.table.Keys;
    }
  }

  lemma StepKeepsRotated(s: Sys, e: Event)
    requires RotatedIsRevoked(s) && FreshTokens(s) && Enabled(s, e)
    ensures RotatedIsRevoked(Step(s, e))
  {
  }

  // ---- counting the live tokens of a family ----

  lemma RotateKeepsCount(tab: Table, now: int, oldHash: Hash, newHash: Hash, expires: int, f: Family)
    requires newHash !in tab
    ensures |Unrevoked(Rotate(tab, now, oldHash, newHash, expires).0, f)| == |Unrevoked(tab, f)|
  {
    var tab' := Rotate(tab, now, oldHash, newHash, expires).0;
    if tab' != tab && tab[oldHash].family == f {
      assert Unrevoked(tab', f) == Unrevoked(tab, f) - {oldHash} + {newHash};
    } else {
      assert Unrevoked(tab', f) == Unrevoked(tab, f);
    }
  }

  lemma CreateCounts(tab: Table, customer: Customer, family: Family, hash: Hash, expires: int, f: Family)
    requires hash !in tab
    ensures |Unrevoked(Create(tab, customer, hash, family, expires), f)|
         == |Unrevoked(tab, f)| + if f == family then 1 else 0
  {
    assert Unrevoked(Create(tab, customer, hash, family, expires), f) == Unrevoked(tab, f) + if f == family then {hash} else {};
  }

  lemma RevokeCounts(tab: Table, now: int, family: Family, f: Family)
    ensures |Unrevoked(RevokeFamily(tab, now, family), f)| == if f == family then 0 else |Unrevoked(tab, f)|
  {
    assert Unrevoked(RevokeFamily(tab, now, family), f) == if f == family then {} else Unrevoked(tab, f);
  }

  lemma DeleteCounts(tab: Table, now: int, customer: Customer, f: Family)
    requires OneCustomer(tab)
    ensures |Unrevoked(RevokeCustomer(tab, now, customer), f)| == if f in FamiliesOf(tab, customer) then 0 else |Unrevoked(tab, f)|
  {
    assert Unrevoked(RevokeCustomer(tab, now, customer), f) == if f in FamiliesOf(tab, customer) then {} else Unrevoked(tab, f);
  }

  /** The size of every family's live set, before and after a step. */
  lemma StepCounts(s: Sys, e: Event, f: Family)
    requires Inv(s) && Enabled(s, e) && HasFamily(s.table, f)
    ensures |Unrevoked(Step(s, e).table, f)| == LivesOf(Step(s, e), f)
  {
    hide Unrevoked;
    var h :| h in s.table && s.table[h].family == f;
    assert |Unrevoked(s.table, f)| == LivesOf(s, f);
    match e {
      case DoRotate(id, expires) =>
        RotateKeepsCount(s.table, s.now, s.calls[id].oldHash, s.calls[id].newHash, expires, f);
      case DoIssue(id, expires) =>
        var c := s.calls[id];
        CreateCounts(s.table, c.customer, c.family, c.newHash, expires, f);
        if IssueInFamily(s.table, s.now, c.customer, c.family, c.newHash, expires).1 {
          LiveFamilyNotRevoked(s, c.family);
        }
      case DoRevoke(id) => RevokeCounts(s.table, s.now, s.calls[id].family, f);
      case LogoutRevoke(id) => RevokeCounts(s.table, s.now, s.calls[id].family, f);
      case Login(customer, hash, family, expires) => CreateCounts(s.table, customer, family, hash, expires, f);
      case DeleteAccount(customer) => DeleteCounts(s.table, s.now, customer, f);
      case _ =>
    }
  }

  lemma LiveFamilyNotRevoked(s: Sys, f: Family)
    requires CountLaw(s)
    requires exists h :: h in s.table && s.table[h].family == f && Active(s.table[h], s.now)
    ensures f !in s.revoked
  {
    var h :| h in s.table && s.table[h].family == f && Active(s.table[h], s.now);
    assert h in Unrevoked(s.table, f);
    assert |Unrevoked(s.table, f)| == LivesOf(s, f);
  }

  lemma NewFamilyCounts(s: Sys, e: Event)
    requires Inv(s) && Enabled(s, e) && e.Login?
    ensures var s' := Step(s, e); |Unrevoked(s'.table, e.family)| == LivesOf(s', e.family)
  {
    CreateCounts(s.table, e.customer, e.family, e.hash, e.expires, e.family);
    assert Unrevoked(s.table, e.family) == {};
  }

  lemma StepKeepsCountLaw(s: Sys, e: Event)
    requires Inv(s) && Enabled(s, e)
    ensures CountLaw(Step(s, e))
  {
    var s' := Step(s, e);
    RowsPersist(s, e);
    forall h | h in s'.table ensures |Unrevoked(s'.table, s'.table[h].family)| == LivesOf(s', s'.table[h].family) {
      if h in s.table || !e.Login? {
        if h !in s.table { NewRow(s, e, h); }
        StepCounts(s, e, s'.table[h].family);
      } else {
        NewRow(s, e, h);
        NewFamilyCounts(s, e);
      }
    }
    UnknownFamiliesStayUnknown(s, e);
    StrictStaysStrict(s, e);
  }

  lemma UnknownFamiliesStayUnknown(s: Sys, e: Event)
    requires Inv(s) && Enabled(s, e)
    ensures var s' := Step(s, e);
      forall f :: !HasFamily(s'.table, f) ==> f !in s'.revoked && s'.reissues[f] == 0
  {
    var s' := Step(s, e);
    RowsPersist(s, e);
    forall f | !HasFamily(s'.table, f) ensures f !in s'.revoked && s'.reissues[f] == 0 {
      assert forall h :: h in s.table ==> s'.table[h].family == s.table[h].family;
      assert !HasFamily(s.table, f);
      if e.DoIssue? || e.DoRevoke? || e.LogoutRevoke? {
        assert Remembers(s.table, s.calls[e.id]);
      }
    }
  }

  lemma StrictStaysStrict(s: Sys, e: Event)
    requires CountLaw(s) && Enabled(s, e)
    ensures var s' := Step(s, e);
      s'.grace <= 0 ==> s'.reissues == multiset{} && forall i :: i in s'.calls ==> !s'.calls[i].Retrying?
  {
  }

  lemma StepKeepsInv(s: Sys, e: Event)
    requires Inv(s) && Enabled(s, e)
    ensures Inv(Step(s, e))
  {
    hide OneCustomer, CallsRemember, FreshTokens, RotatedIsRevoked, CountLaw, Step, Enabled;
    StepKeepsOneCustomer(s, e);
    StepKeepsRemembering(s, e);
    StepKeepsFresh(s, e);
    StepKeepsRotated(s, e);
    StepKeepsCountLaw(s, e);
  }

  // ---- over whole runs ----

  lemma InitialInv(s: Sys)
    requires Initial(s)
    ensures Inv(s)
  {
  }

  lemma {:induction false} RunKeepsInv(states: seq<Sys>, events: seq<Event>, k: nat)
    requires IsHistory(states, events) && k < |states|
    ensures Inv(states[k])
    decreases k
  {
    hide Inv, Initial, Step, Enabled;
    if k == 0 {
      InitialInv(states[0]);
    } else {
      RunKeepsInv(states, events, k - 1);
      assert Next(states[k - 1], events[k - 1], states[k]);
      StepKeepsInv(states[k - 1], events[k - 1]);
    }
  }

  /** The grace re-issues of a family that succeeded. */
  function Reissues(states: seq<Sys>, events: seq<Event>, f: Family): nat
    requires |states| == |events| + 1
    decreases |events|
  {
    if events == [] then 0
    else
      var n := |events| - 1;
      var e, calls, calls' := events[n], states[n].calls, states[n + 1].calls;
      Reissues(states[..n + 1], events[..n], f)
        + if e.DoIssue? && e.id in calls && calls[e.id].Retrying? && calls[e.id].family == f
             && e.id in calls' && calls'[e.id].Granted? then 1 else 0
  }

  lemma {:induction false} ReissuesAreCounted(states: seq<Sys>, events: seq<Event>, f: Family)
    requires IsHistory(states, events)
    ensures states[|events|].reissues[f] == Reissues(states, events, f)
    decreases |events|
  {
    if events != [] {
      var n := |events| - 1;
      assert Next(states[n], events[n], states[n + 1]);
      ReissuesAreCounted(states[..n + 1], events[..n], f);
    }
  }

  /** Some step so far revoked family f as a whole. */
  ghost predicate WasRevoked(states: seq<Sys>, events: seq<Event>, f: Family)
    requires |states| == |events| + 1
  {
    exists k :: 0 <= k < |events| && RevokesFamily(states[k], events[k], f)
  }

  ghost predicate RevokesFamily(s: Sys, e: Event, f: Family) {
    Enabled(s, e) && (
    || ((e.DoRevoke? || e.LogoutRevoke?) && s.calls[e.id].family == f)
    || (e.DeleteAccount? && f in FamiliesOf(s.table, e.customer)))
  }

  lemma {:induction false} RevocationsAreRemembered(states: seq<Sys>, events: seq<Event>, f: Family)
    requires IsHistory(states, events)
    ensures f in states[|events|].revoked <==> WasRevoked(states, events, f)
    decreases |events|
  {
    hide Enabled, FamiliesOf;
    if events != [] {
      var n := |events| - 1;
      var earlier, before := states[..n + 1], events[..n];
      assert Next(states[n], events[n], states[n + 1]);
      RevocationsAreRemembered(earlier, before, f);
      if WasRevoked(earlier, before, f) {
        var k :| 0 <= k < |before| && RevokesFamily(earlier[k], before[k], f);
        assert RevokesFamily(states[k], events[k], f);
      }
      if WasRevoked(states, events, f) {
        var k :| 0 <= k < |events| && RevokesFamily(states[k], events[k], f);
        if k < n { assert RevokesFamily(earlier[k], before[k], f); }
      }
    }
  }

  /** In every reachable state a family has no unrevoked token once it was revoked, and otherwise one
      plus its successful grace re-issues; with no grace window, never more than one. */
  lemma TokenCountLaw(states: seq<Sys>, events: seq<Event>, h: Hash)
    requires IsHistory(states, events) && h in states[|events|].table
    ensures var s := states[|events|];
      var f := s.table[h].family;
      && |Unrevoked(s.table, f)| == (if WasRevoked(states, events, f) then 0 else 1 + Reissues(states, events, f))
      && (s.grace <= 0 ==> |Unrevoked(s.table, f)| <= 1)
      && (forall g :: g in s.table && s.table[g].family == f ==> s.table[g].customer == s.table[h].customer)
  {
    RunKeepsInv(states, events, |events|);
    ReissuesAreCounted(states, events, states[|events|].table[h].family);
    RevocationsAreRemembered(states, events, states[|events|].table[h].family);
  }

  lemma {:induction false} RowsPersistOverRuns(states: seq<Sys>, events: seq<Event>, h: Hash, j: nat, k: nat)
    requires IsHistory(states, events) && j <= k < |states| && h in states[j].table
    ensures h in states[k].table && Persists(states[j].table[h], states[k].table[h])
    decreases k
  {
    hide Step, Enabled, CountLaw, OneCustomer, FreshTokens, RotatedIsRevoked, CallsRemember, Initial;
    if j < k {
      RowsPersistOverRuns(states, events, h, j, k - 1);
      RunKeepsInv(states, events, k - 1);
      assert Next(states[k - 1], events[k - 1], states[k]);
      RowsPersist(states[k - 1], events[k - 1]);
    }
  }

  /** Step k rotated token h. */
  ghost predicate RotatesAt(states: seq<Sys>, events: seq<Event>, k: nat, h: Hash)
    requires |states| == |events| + 1 && k < |events|
  {
    && Enabled(states[k], events[k])
    && events[k].DoRotate? && states[k].calls[events[k].id].oldHash == h
    && h in states[k].table && Active(states[k].table[h], states[k].now)
  }

  /** No token is ever exchanged twice, however many calls present it at once. */
  lemma RotatedAtMostOnce(states: seq<Sys>, events: seq<Event>, j: nat, k: nat, h: Hash)
    requires IsHistory(states, events) && j < |events| && k < |events|
    requires RotatesAt(states, events, j, h) && RotatesAt(states, events, k, h)
    ensures j == k
  {
    if j != k {
      var first, second := if j < k then j else k, if j < k then k else j;
      assert Next(states[first], events[first], states[first + 1]);
      RunKeepsInv(states, events, first);
      assert Holds(states[first].calls[events[first].id], states[first].calls[events[first].id].newHash);
      assert states[first + 1].table[h].revoked.Some?;
      RowsPersistOverRuns(states, events, h, first + 1, second);
      assert false;
    }
  }

  // ---- a dead family stays dead ----

  /** No token of family f can be exchanged, or vouch for a re-issue. */
  ghost predicate Dead(s: Sys, f: Family) {
    HasFamily(s.table, f) && forall h :: h in s.table && s.table[h].family == f ==> !Active(s.table[h], s.now)
  }

  lemma StepKeepsDead(s: Sys, e: Event, f: Family)
    requires FreshTokens(s) && RotatedIsRevoked(s) && CallsRemember(s) && Enabled(s, e) && Dead(s, f)
    ensures Dead(Step(s, e), f)
  {
    var s' := Step(s, e);
    RowsPersist(s, e);
    var g :| g in s.table && s.table[g].family == f;
    assert g in s'.table && s'.table[g].family == f;
    forall h | h in s'.table && s'.table[h].family == f ensures !Active(s'.table[h], s'.now) {
      if h !in s.table { NewRow(s, e, h); }
    }
  }

  lemma DeadFamilyGrantsNothing(s: Sys, e: Event, f: Family, i: CallId)
    requires CallsRemember(s) && Enabled(s, e) && Dead(s, f)
    requires i in Step(s, e).calls && Step(s, e).calls[i].Granted?
    requires Step(s, e).calls[i].oldHash in s.table && s.table[Step(s, e).calls[i].oldHash].family == f
    ensures i in s.calls && s.calls[i] == Step(s, e).calls[i]
  {
    if e.DoIssue? { assert Remembers(s.table, s.calls[e.id]); }
  }

  lemma {:induction false} DeadStaysDead(states: seq<Sys>, events: seq<Event>, f: Family, j: nat, k: nat)
    requires IsHistory(states, events) && j <= k < |states| && Dead(states[j], f)
    ensures Dead(states[k], f)
    decreases k
  {
    hide Step, Enabled, CountLaw, OneCustomer, Dead, FreshTokens, RotatedIsRevoked, CallsRemember, Initial;
    if j < k {
      DeadStaysDead(states, events, f, j, k - 1);
      RunKeepsInv(states, events, k - 1);
      assert Next(states[k - 1], events[k - 1], states[k]);
      StepKeepsDead(states[k - 1], events[k - 1], f);
    }
  }

  /** Once a family is dead, no call that presents one of its tokens is granted any more, not even one
      that was already between its lookup and its re-issue. */
  lemma {:induction false} NoGrantFromDeadFamily(states: seq<Sys>, events: seq<Event>, h: Hash, i: CallId, j: nat, k: nat)
    requires IsHistory(states, events) && j <= k < |states|
    requires h in states[j].table && Dead(states[j], states[j].table[h].family)
    requires i in states[k].calls && states[k].calls[i].Granted? && states[k].calls[i].oldHash == h
    ensures i in states[j].calls && states[j].calls[i] == states[k].calls[i]
    decreases k
  {
    hide Step, Enabled, CountLaw, OneCustomer, Dead, FreshTokens, RotatedIsRevoked, CallsRemember, Initial;
    if j < k {
      var f := states[j].table[h].family;
      DeadStaysDead(states, events, f, j, k - 1);
      RowsPersistOverRuns(states, events, h, j, k - 1);
      RunKeepsInv(states, events, k - 1);
      assert Next(states[k - 1], events[k - 1], states[k]);
      assert CallsRemember(states[k - 1]);
      DeadFamilyGrantsNothing(states[k - 1], events[k - 1], f, i);
      NoGrantFromDeadFamily(states, events, h, i, j, k - 1);
    }
  }

  /** Logout, detected reuse and account deletion each leave the family dead. */
  lemma RevokingKills(s: Sys, e: Event, f: Family)
    requires Inv(s) && Enabled(s, e) && RevokesFamily(s, e, f)
    ensures Dead(Step(s, e), f)
  {
    RowsPersist(s, e);
    if e.DeleteAccount? {
      var h :| h in s.table && s.table[h].customer == e.customer && s.table[h].family == f;
      assert h in Step(s, e).table && Step(s, e).table[h].family == f;
    } else {
      assert Remembers(s.table, s.calls[e.id]);
      var h := s.calls[e.id].oldHash;
      assert h in Step(s, e).table && Step(s, e).table[h].family == f;
    }
  }

  /** After a logout (or detected reuse, or account deletion) in step j, no Refresh presenting any token
      of that family is granted in any continuation, and no token of it is active again. */
  lemma RevocationIsFinal(states: seq<Sys>, events: seq<Event>, f: Family, j: nat, k: nat, i: CallId)
    requires IsHistory(states, events) && j < k < |states| && RevokesFamily(states[j], events[j], f)
    requires i in states[k].calls && states[k].calls[i].Granted?
    requires states[k].calls[i].oldHash in states[j + 1].table && states[j + 1].table[states[k].calls[i].oldHash].family == f
    ensures i in states[j + 1].calls && states[j + 1].calls[i] == states[k].calls[i]
    ensures states[k].calls[i].newHash in states[k].table
    ensures !Active(states[k].table[states[k].calls[i].newHash], states[k].now)
  {
    RunKeepsInv(states, events, j);
    assert Next(states[j], events[j], states[j + 1]);
    RevokingKills(states[j], events[j], f);
    var h := states[k].calls[i].oldHash;
    NoGrantFromDeadFamily(states, events, h, i, j + 1, k);
    DeadStaysDead(states, events, f, j + 1, k);
    RowsPersistOverRuns(states, events, h, j + 1, k);
    RunKeepsInv(states, events, k);
    assert Remembers(states[k].table, states[k].calls[i]);
  }
}
