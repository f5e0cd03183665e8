/** One-time codes: send limits, background cleanup and the verification budget
    (internal/auth/otp_repo.go, otp_cleanup.go and the OTP half of service.go).

    Every repository call is one atomic step; VerifyOTP is several, and calls interleave freely. There
    is one clock. Account deletion removes a phone's rows. */
module OtpCodes {
  import opened Wrappers

  const SECOND := 1_000_000_000
  const HOUR := 3600 * SECOND
  const DAY := 24 * HOUR
  const OTP_TTL := 5 * 60 * SECOND
  const OTP_RESEND_COOLDOWN := 60 * SECOND
  const OTP_MAX_PER_HOUR := 5
  const DEFAULT_MAX_ATTEMPTS := 5
  const MIN_RETENTION := 2 * DAY

  type RowId = int
  type Phone = string
  type CallId = int

  /** token is empty until the SMS is out. */
  datatype Otp = Otp(phone: Phone, ip: string, token: string, expires: int, consumed: Option<int>, created: int, attempts: nat)

  type Table = map<RowId, Otp>

  /** otpSendLimits; the cooldown and the per-phone limit are fixed by RequestOTP. Zero disables the
      other two. */
  datatype Limits = Limits(perIP: int, globalDay: int)

  datatype Refusal = Cooldown | RateLimited | DailyLimit

  // ---- otp_repo.go ----

  function PhoneSince(tab: Table, phone: Phone, from: int): set<RowId> {
    set i | i in tab && tab[i].phone == phone && tab[i].created >= from
  }

  function IpSince(tab: Table, ip: string, from: int): set<RowId> {
    set i | i in tab && tab[i].ip == ip && tab[i].created >= from
  }

  function Since(tab: Table, from: int): set<RowId> {
    set i | i in tab && tab[i].created >= from
  }

  predicate CoolingDown(tab: Table, now: int, phone: Phone) {
    exists i :: i in tab && tab[i].phone == phone && now - tab[i].created < OTP_RESEND_COOLDOWN
  }

  /** The checks of reserve, in its order. */
  function Refuses(tab: Table, now: int, phone: Phone, ip: string, lim: Limits): Option<Refusal> {
    if CoolingDown(tab, now, phone) then Some(Cooldown)
    else if |PhoneSince(tab, phone, now - HOUR)| >= OTP_MAX_PER_HOUR then Some(RateLimited)
    else if lim.perIP > 0 && ip != "" && |IpSince(tab, ip, now - HOUR)| >= lim.perIP then Some(RateLimited)
    else if lim.globalDay > 0 && |Since(tab, now - DAY)| >= lim.globalDay then Some(DailyLimit)
    else None
  }

  function Insert(tab: Table, id: RowId, now: int, phone: Phone, ip: string, expires: int): Table {
    tab[id := Otp(phone, ip, "", expires, None, now, 0)]
  }

  /** The rows latestActive chooses the newest of. */
  function Usable(tab: Table, now: int, phone: Phone): set<RowId> {
    set i | i in tab && tab[i].phone == phone && tab[i].consumed.None? && tab[i].expires > now && tab[i].token != ""
  }

  predicate IsLatestActive(tab: Table, now: int, phone: Phone, found: Option<RowId>) {
    match found
    case None => Usable(tab, now, phone) == {}
    case Some(i) => i in Usable(tab, now, phone) && forall j :: j in Usable(tab, now, phone) ==> tab[j].created <= tab[i].created
  }

  function SetToken(tab: Table, id: RowId, token: string): Table {
    if id in tab then tab[id := tab[id].(token := token)] else tab
  }

  /** burn and consume run the same UPDATE; the flag is whether it changed a row. */
  function Close(tab: Table, now: int, id: RowId): (Table, bool) {
    if id in tab && tab[id].consumed.None? then (tab[id := tab[id].(consumed := Some(now))], true) else (tab, false)
  }

  function TakeAttempt(tab: Table, id: RowId, max: int): (Table, Option<nat>) {
    if id in tab && tab[id].consumed.None? && tab[id].attempts < max then
      (tab[id := tab[id].(attempts := tab[id].attempts + 1)], Some(tab[id].attempts + 1))
    else (tab, None)
  }

  function DeleteBefore(tab: Table, cutoff: int): Table {
    map i | i in tab && tab[i].created >= cutoff :: tab[i]
  }

  function DeletePhone(tab: Table, phone: Phone): Table {
    map i | i in tab && tab[i].phone != phone :: tab[i]
  }

  /** The budget VerifyOTP uses for a configured OTP_VERIFY_MAX_ATTEMPTS. */
  function MaxAttempts(configured: int): int {
    if configured <= 0 then DEFAULT_MAX_ATTEMPTS else configured
  }

  // ---- the step system ----

  datatype Verdict = Right | Wrong | ProviderDown

  /** Where a VerifyOTP call stands. */
  datatype Stage =
    | Verifying(phone: Phone)
    | Chosen(id: RowId)
    | Guessing(id: RowId, attempt: nat)
    | Burning(id: RowId)
    | Consuming(id: RowId)
    | LoggedIn(id: RowId)
    | Refused

  /** all, sent and the rest are bookkeeping the program does not have: the table as it would be if
      cleanup deleted nothing, every code ever inserted, the attempt numbers handed out and compared
      with the provider, the logins, and the rows that were burned or consumed. */
  datatype Sys = Sys(table: Table, now: int, calls: map<CallId, Stage>, limits: Limits, maxAttempts: int, retention: int,
                     all: Table, sent: map<RowId, (Phone, int)>,
                     handed: multiset<(RowId, nat)>, compared: multiset<(RowId, nat)>,
                     logins: multiset<RowId>, closed: set<RowId>)

  datatype Event =
    | Reserve(id: RowId, phone: Phone, ip: string, expires: int)
    | SetTokenOf(id: RowId, token: string)
    | BurnUnsent(id: RowId)
    | Cleanup(at: int)
    | DeleteAccount(phone: Phone)
    | Tick(to: int)
    | Begin(call: CallId, phone: Phone)
    | Choose(call: CallId, found: Option<RowId>)
    | Take(call: CallId)
    | Compare(call: CallId, verdict: Verdict)
    | Burn(call: CallId)
    | Consume(call: CallId)
    | Abort(call: CallId)

  predicate Enabled(s: Sys, e: Event) {
    match e
    case Reserve(id, _, _, expires) => id !in s.sent && expires <= s.now + OTP_TTL
    case SetTokenOf(_, _) => true
    case BurnUnsent(_) => true
    case Cleanup(at) => at <= s.now
    case DeleteAccount(_) => true
    case Tick(to) => s.now <= to
    case Begin(call, _) => call !in s.calls
    case Choose(call, found) => call in s.calls && s.calls[call].Verifying? && IsLatestActive(s.table, s.now, s.calls[call].phone, found)
    case Take(call) => call in s.calls && s.calls[call].Chosen?
    case Compare(call, _) => call in s.calls && s.calls[call].Guessing?
    case Burn(call) => call in s.calls && s.calls[call].Burning?
    case Consume(call) => call in s.calls && s.calls[call].Consuming?
    case Abort(call) => call in s.calls && !s.calls[call].LoggedIn?
  }

  function AfterVerdict(c: Stage, verdict: Verdict, maxAttempts: int): Stage
    requires c.Guessing?
  {
    match verdict
    case Right => Consuming(c.id)
    case Wrong => if c.attempt >= maxAttempts then Burning(c.id) else Refused
    case ProviderDown => Refused
  }

  function Shut(s: Sys, id: RowId): Sys {
    var (tab, changed) := Close(s.table, s.now, id);
    s.(table := tab, all := Close(s.all, s.now, id).0, closed := if changed then s.closed + {id} else s.closed)
  }

  function Step(s: Sys, e: Event): Sys
    requires Enabled(s, e)
  {
    match e
    case Reserve(id, phone, ip, expires) =>
      if Refuses(s.table, s.now, phone, ip, s.limits).Some? then s
      else s.(table := Insert(s.table, id, s.now, phone, ip, expires), all := Insert(s.all, id, s.now, phone, ip, expires),
              sent := s.sent[id := (phone, s.now)])
    case SetTokenOf(id, token) => s.(table := SetToken(s.table, id, token), all := SetToken(s.all, id, token))
    case BurnUnsent(id) => Shut(s, id)
    case Cleanup(at) => s.(table := DeleteBefore(s.table, at - s.retention))
    case DeleteAccount(phone) => s.(table := DeletePhone(s.table, phone), all := DeletePhone(s.all, phone))
    case Tick(to) => s.(now := to)
    case Begin(call, phone) => s.(calls := s.calls[call := Verifying(phone)])
    case Choose(call, found) => s.(calls := s.calls[call := if found.Some? then Chosen(found.value) else Refused])
    case Take(call) =>
      var id := s.calls[call].id;
      var (tab, n) := TakeAttempt(s.table, id, s.maxAttempts);
      s.(table := tab, all := TakeAttempt(s.all, id, s.maxAttempts).0,
         calls := s.calls[call := if n.Some? then Guessing(id, n.value) else Refused],
         handed := if n.Some? then s.handed + multiset{(id, n.value)} else s.handed)
    case Compare(call, verdict) =>
      var c := s.calls[call];
      s.(calls := s.calls[call := AfterVerdict(c, verdict, s.maxAttempts)], compared := s.compared + multiset{(c.id, c.attempt)})
    case Burn(call) => Shut(s, s.calls[call].id).(calls := s.calls[call := Refused])
    case Consume(call) =>
      var id := s.calls[call].id;
      var won := Close(s.table, s.now, id).1;
      Shut(s, id).(calls := s.calls[call := if won then LoggedIn(id) else Refused],
                   logins := if won then s.logins + multiset{id} else s.logins)
    case Abort(call) => s.(calls := s.calls[call := Refused])
  }

  ghost predicate Initial(s: Sys) {
    && s.table == s.all == map[] && s.calls == map[] && s.sent == map[]
    && s.handed == s.compared == multiset{} && s.logins == multiset{} && s.closed == {}
    && s.maxAttempts >= 1
  }

  ghost predicate IsHistory(states: seq<Sys>, events: seq<Event>) {
    && |states| == |events| + 1 && Initial(states[0])
    && forall k :: 0 <= k < |events| ==> Enabled(states[k], events[k]) && states[k + 1] == Step(states[k], events[k])
  }

  // ---- cleanup ----

  /** The cleaned table is the uncleaned one without some rows older than a day. */
  ghost predicate Shadows(tab: Table, all: Table, now: int) {
    && (forall i :: i in tab ==> i in all && all[i] == tab[i])
    && (forall i :: i in all && i !in tab ==> all[i].created < now - DAY)
  }

  /** Every row is as it was inserted, but for its token, its attempts and its end. */
  ghost predicate Truthful(all: Table, sent: map<RowId, (Phone, int)>) {
    forall i :: i in all ==>
      i in sent && sent[i] == (all[i].phone, all[i].created) && all[i].expires <= all[i].created + OTP_TTL
  }

  ghost predicate NoneFromTheFuture(sent: map<RowId, (Phone, int)>, now: int) {
    forall i :: i in sent ==> sent[i].1 <= now
  }

  ghost predicate CleanupInv(s: Sys) {
    Shadows(s.table, s.all, s.now) && Truthful(s.all, s.sent) && NoneFromTheFuture(s.sent, s.now)
  }

  lemma StepKeepsShadow(s: Sys, e: Event)
    requires Shadows(s.table, s.all, s.now) && Truthful(s.all, s.sent) && Enabled(s, e) && s.retention >= DAY
    ensures var s' := Step(s, e); Shadows(s'.table, s'.all, s'.now)
  {
    hide Refuses, IsLatestActive, AfterVerdict, Close, TakeAttempt;
    if e.BurnUnsent? { CloseKeepsShadow(s, e.id); }
    if e.Burn? || e.Consume? { CloseKeepsShadow(s, s.calls[e.call].id); }
    if e.Take? { TakeKeepsShadow(s, s.calls[e.call].id); }
  }

  lemma CloseKeepsShadow(s: Sys, id: RowId)
    requires Shadows(s.table, s.all, s.now)
    ensures Shadows(Close(s.table, s.now, id).0, Close(s.all, s.now, id).0, s.now)
  {
  }

  lemma TakeKeepsShadow(s: Sys, id: RowId)
    requires Shadows(s.table, s.all, s.now)
    ensures Shadows(TakeAttempt(s.table, id, s.maxAttempts).0, TakeAttempt(s.all, id, s.maxAttempts).0, s.now)
  {
  }

  lemma StepKeepsTruth(s: Sys, e: Event)
    requires Truthful(s.all, s.sent) && NoneFromTheFuture(s.sent, s.now) && Enabled(s, e)
    ensures var s' := Step(s, e); Truthful(s'.all, s'.sent) && NoneFromTheFuture(s'.sent, s'.now)
  {
    hide Refuses, IsLatestActive, AfterVerdict;
  }

  /** Every decision that reads otp_codes comes out as if cleanup had never run. */
  lemma CleanupIsInvisible(s: Sys, phone: Phone, ip: string, found: Option<RowId>)
    requires CleanupInv(s)
    ensures Refuses(s.table, s.now, phone, ip, s.limits) == Refuses(s.all, s.now, phone, ip, s.limits)
    ensures IsLatestActive(s.table, s.now, phone, found) <==> IsLatestActive(s.all, s.now, phone, found)
  {
    SameSince(s.table, s.all, s.now, phone, ip);
    SameUsable(s, phone);
    assert CoolingDown(s.table, s.now, phone) == CoolingDown(s.all, s.now, phone);
  }

  lemma SameSince(tab: Table, all: Table, now: int, phone: Phone, ip: string)
    requires Shadows(tab, all, now)
    ensures PhoneSince(tab, phone, now - HOUR) == PhoneSince(all, phone, now - HOUR)
    ensures IpSince(tab, ip, now - HOUR) == IpSince(all, ip, now - HOUR)
    ensures Since(tab, now - DAY) == Since(all, now - DAY)
  {
    var hour, day := now - HOUR, now - DAY;
    forall i ensures i in PhoneSince(tab, phone, hour) <==> i in PhoneSince(all, phone, hour) {}
    forall i ensures i in IpSince(tab, ip, hour) <==> i in IpSince(all, ip, hour) {}
    forall i ensures i in Since(tab, day) <==> i in Since(all, day) {}
  }

  lemma SameUsable(s: Sys, phone: Phone)
    requires CleanupInv(s)
    ensures Usable(s.table, s.now, phone) == Usable(s.all, s.now, phone)
  {
    forall i ensures i in Usable(s.table, s.now, phone) <==> i in Usable(s.all, s.now, phone) {}
  }

  // ---- send limits ----

  function InWindow(all: Table, phone: Phone, from: int): set<RowId> {
    set i | i in all && all[i].phone == phone && from <= all[i].created <= from + HOUR
  }

  ghost predicate Spaced(all: Table) {
    forall i, j :: i in all && j in all && i != j && all[i].phone == all[j].phone ==>
      all[i].created + OTP_RESEND_COOLDOWN <= all[j].created || all[j].created + OTP_RESEND_COOLDOWN <= all[i].created
  }

  ghost predicate Capped(all: Table) {
    forall phone, from :: |InWindow(all, phone, from)| <= OTP_MAX_PER_HOUR
  }

  /** A step that inserts nothing leaves a part of the rows, with the phones and times they had. */
  ghost predicate NoNewRows(all: Table, all': Table) {
    forall i :: i in all' ==> i in all && all'[i].phone == all[i].phone && all'[i].created == all[i].created
  }

  lemma FewerRowsStayCapped(all: Table, all': Table)
    requires NoNewRows(all, all') && Capped(all)
    ensures Capped(all')
  {
    forall phone, from ensures |InWindow(all', phone, from)| <= OTP_MAX_PER_HOUR {
      forall i | i in InWindow(all', phone, from) ensures i in InWindow(all, phone, from) { assert i in all'; }
      SubsetSize(InWindow(all', phone, from), InWindow(all, phone, from));
      assert |InWindow(all, phone, from)| <= OTP_MAX_PER_HOUR;
    }
  }

  lemma InsertStaysCapped(all: Table, id: RowId, now: int, phone: Phone, ip: string, expires: int)
    requires Capped(all) && id !in all && |PhoneSince(all, phone, now - HOUR)| < OTP_MAX_PER_HOUR
    ensures Capped(Insert(all, id, now, phone, ip, expires))
  {
    var all' := Insert(all, id, now, phone, ip, expires);
    forall p, from ensures |InWindow(all', p, from)| <= OTP_MAX_PER_HOUR {
      if p == phone && from <= now <= from + HOUR {
        var recent := PhoneSince(all, phone, now - HOUR);
        SubsetSize(InWindow(all', p, from), recent + {id});
      } else {
        assert InWindow(all', p, from) == InWindow(all, p, from);
        assert |InWindow(all, p, from)| <= OTP_MAX_PER_HOUR;
      }
    }
  }

  lemma StepKeepsLimits(s: Sys, e: Event)
    requires CleanupInv(s) && Spaced(s.all) && Capped(s.all) && Enabled(s, e)
    ensures Spaced(Step(s, e).all) && Capped(Step(s, e).all)
  {
    var all' := Step(s, e).all;
    if e.Reserve? {
      CleanupIsInvisible(s, e.phone, e.ip, None);
      if Refuses(s.table, s.now, e.phone, e.ip, s.limits).None? {
        InsertStaysCapped(s.all, e.id, s.now, e.phone, e.ip, e.expires);
        assert !CoolingDown(s.all, s.now, e.phone);
      }
    } else {
      StepAddsNothing(s, e);
      FewerRowsStayCapped(s.all, all');
    }
  }

  lemma StepAddsNothing(s: Sys, e: Event)
    requires Enabled(s, e) && !e.Reserve?
    ensures NoNewRows(s.all, Step(s, e).all)
  {
    hide IsLatestActive;
  }

  lemma {:induction false} RunKeepsLimits(states: seq<Sys>, events: seq<Event>, k: nat)
    requires IsHistory(states, events) && k < |states| && states[0].retention >= DAY
    ensures var s := states[k]; CleanupInv(s) && Spaced(s.all) && Capped(s.all) && s.retention == states[0].retention
    decreases k
  {
    hide Step, Enabled, CleanupInv, Spaced, Capped, Initial;
    if k == 0 {
      NothingSent(states[0]);
    } else {
      RunKeepsLimits(states, events, k - 1);
      var s, e := states[k - 1], events[k - 1];
      assert Enabled(s, e) && states[k] == Step(s, e);
      StepKeepsCleanupInv(s, e);
      StepKeepsLimits(s, e);
    }
  }

  lemma NothingSent(s: Sys)
    requires Initial(s)
    ensures CleanupInv(s) && Spaced(s.all) && Capped(s.all)
  {
    forall phone, from ensures |InWindow(s.all, phone, from)| <= OTP_MAX_PER_HOUR {
      assert InWindow(s.all, phone, from) == {};
    }
  }

  lemma StepKeepsCleanupInv(s: Sys, e: Event)
    requires CleanupInv(s) && Enabled(s, e) && s.retention >= DAY
    ensures CleanupInv(Step(s, e)) && Step(s, e).retention == s.retention
  {
    StepKeepsShadow(s, e);
    StepKeepsTruth(s, e);
    hide Refuses, IsLatestActive, Shadows, Truthful, NoneFromTheFuture;
  }

  /** Cleanup never changes a decision, in any reachable state. */
  lemma DecisionsIgnoreCleanup(states: seq<Sys>, events: seq<Event>, k: nat, phone: Phone, ip: string, found: Option<RowId>)
    requires IsHistory(states, events) && k < |states| && states[0].retention >= DAY
    ensures var s := states[k];
      && Refuses(s.table, s.now, phone, ip, s.limits) == Refuses(s.all, s.now, phone, ip, s.limits)
      && (IsLatestActive(s.table, s.now, phone, found) <==> IsLatestActive(s.all, s.now, phone, found))
  {
    RunKeepsLimits(states, events, k);
    CleanupIsInvisible(states[k], phone, ip, found);
  }

  function SentIn(sent: map<RowId, (Phone, int)>, phone: Phone, from: int): set<RowId> {
    set i | i in sent && sent[i].0 == phone && from <= sent[i].1 <= from + HOUR
  }

  /** The codes a phone was sent between two moments of a run. */
  function SentDuring(earlier: Sys, later: Sys, phone: Phone): set<RowId> {
    set i | i in later.sent && i !in earlier.sent && later.sent[i].0 == phone
  }

  lemma StepKeepsRows(s: Sys, e: Event, i: RowId)
    requires Truthful(s.all, s.sent) && Enabled(s, e) && i in s.all && e != DeleteAccount(s.all[i].phone)
    ensures i in Step(s, e).all && Step(s, e).all[i].phone == s.all[i].phone
  {
    hide Refuses, IsLatestActive, AfterVerdict;
  }

  lemma StepSends(s: Sys, e: Event, i: RowId)
    requires Enabled(s, e) && i in Step(s, e).sent
    ensures i in s.sent ==> Step(s, e).sent[i] == s.sent[i]
    ensures i !in s.sent ==>
      && e.Reserve? && e.id == i && Refuses(s.table, s.now, e.phone, e.ip, s.limits).None?
      && Step(s, e).sent[i] == (e.phone, s.now) && i in Step(s, e).all && Step(s, e).all[i].phone == e.phone
  {
    hide Refuses, IsLatestActive, AfterVerdict;
  }

  lemma StepSendsNothingElse(s: Sys, e: Event)
    requires Enabled(s, e)
    ensures forall i :: i in s.sent && !(e.Reserve? && e.id == i) ==> i in Step(s, e).sent && Step(s, e).sent[i] == s.sent[i]
    ensures forall i :: i in s.sent ==> i in Step(s, e).sent
  {
    hide Refuses, IsLatestActive, AfterVerdict;
  }

  /** Rows sent in a stretch of the run without a deletion of the phone's account are still there. */
  lemma {:induction false} SentRowsStay(states: seq<Sys>, events: seq<Event>, phone: Phone, j: nat, k: nat)
    requires IsHistory(states, events) && states[0].retention >= DAY && j <= k < |states|
    requires forall m :: j <= m < k ==> events[m] != DeleteAccount(phone)
    ensures forall i :: i in SentDuring(states[j], states[k], phone) ==> i in states[k].all && states[k].all[i].phone == phone
    decreases k
  {
    hide Step, Enabled, Initial, Spaced, Capped, Truthful;
    if j < k {
      var s, e := states[k - 1], events[k - 1];
      assert Enabled(s, e) && states[k] == Step(s, e);
      RunKeepsLimits(states, events, k - 1);
      SentRowsStay(states, events, phone, j, k - 1);
      forall i | i in SentDuring(states[j], states[k], phone) ensures i in states[k].all && states[k].all[i].phone == phone {
        StepSends(s, e, i);
        if i in s.sent {
          assert i in SentDuring(states[j], s, phone);
          StepKeepsRows(s, e, i);
        }
      }
    }
  }

  ghost predicate ApartBy(a: int, b: int, gap: int) { a + gap <= b || b + gap <= a }

  /** Over any stretch of any run without a deletion of the phone's account, cleanup included: two codes sent
      to the phone are at least the cooldown apart, and no hour holds more than the hourly cap. */
  lemma SendLimitsHold(states: seq<Sys>, events: seq<Event>, phone: Phone, j: nat, k: nat, from: int)
    requires IsHistory(states, events) && states[0].retention >= DAY && j <= k < |states|
    requires forall m :: j <= m < k ==> events[m] != DeleteAccount(phone)
    ensures var codes, sent := SentDuring(states[j], states[k], phone), states[k].sent;
      && |(set i | i in codes && from <= sent[i].1 <= from + HOUR)| <= OTP_MAX_PER_HOUR
      && forall a, b :: a in codes && b in codes && a != b ==> ApartBy(sent[a].1, sent[b].1, OTP_RESEND_COOLDOWN)
  {
    RunKeepsLimits(states, events, k);
    SentRowsStay(states, events, phone, j, k);
    var s := states[k];
    var codes := SentDuring(states[j], s, phone);
    forall i | i in codes && from <= s.sent[i].1 <= from + HOUR ensures i in InWindow(s.all, phone, from) {
      assert i in s.all && s.sent[i] == (s.all[i].phone, s.all[i].created);
    }
    SubsetSize((set i | i in codes && from <= s.sent[i].1 <= from + HOUR), InWindow(s.all, phone, from));
    assert |InWindow(s.all, phone, from)| <= OTP_MAX_PER_HOUR;
  }

  /** What an hour holds is still there while it lasts, if the account is not deleted in it. */
  ghost predicate HourKept(s: Sys, phone: Phone, from: int) {
    s.now <= from + HOUR ==> forall i :: i in SentIn(s.sent, phone, from) ==> i in s.all && s.all[i].phone == phone
  }

  lemma StepKeepsHour(s: Sys, e: Event, phone: Phone, from: int)
    requires CleanupInv(s) && Enabled(s, e) && HourKept(s, phone, from) && |SentIn(s.sent, phone, from)| <= OTP_MAX_PER_HOUR
    requires CleanupInv(Step(s, e)) && Capped(Step(s, e).all) && s.now <= Step(s, e).now
    requires e == DeleteAccount(phone) ==> !(from <= s.now <= from + HOUR)
    ensures HourKept(Step(s, e), phone, from) && |SentIn(Step(s, e).sent, phone, from)| <= OTP_MAX_PER_HOUR
  {
    var s' := Step(s, e);
    StepSendsNothingElse(s, e);
    forall i | i in SentIn(s'.sent, phone, from) ensures s.now <= from + HOUR ==> i in s'.all && s'.all[i].phone == phone {
      StepSends(s, e, i);
      if s.now <= from + HOUR && i in s.sent { StepKeepsRows(s, e, i); }
    }
    forall i | i in SentIn(s'.sent, phone, from) && from + HOUR < s.now ensures i in SentIn(s.sent, phone, from) {
      StepSends(s, e, i);
    }
    hide Step, Enabled, Shadows;
    if s.now <= from + HOUR {
      forall i | i in SentIn(s'.sent, phone, from) ensures i in InWindow(s'.all, phone, from) {
        assert i in s'.all && s'.sent[i] == (s'.all[i].phone, s'.all[i].created);
      }
      SubsetSize(SentIn(s'.sent, phone, from), InWindow(s'.all, phone, from));
      assert |InWindow(s'.all, phone, from)| <= OTP_MAX_PER_HOUR;
    } else {
      SubsetSize(SentIn(s'.sent, phone, from), SentIn(s.sent, phone, from));
    }
  }

  lemma ClockGoesOn(s: Sys, e: Event)
    requires Enabled(s, e)
    ensures s.now <= Step(s, e).now
  {
    hide Refuses, IsLatestActive, AfterVerdict;
  }

  lemma {:induction false} HourIsKept(states: seq<Sys>, events: seq<Event>, phone: Phone, from: int, k: nat)
    requires IsHistory(states, events) && states[0].retention >= DAY && k < |states|
    requires forall m :: 0 <= m < k && events[m] == DeleteAccount(phone) ==> !(from <= states[m].now <= from + HOUR)
    ensures HourKept(states[k], phone, from) && |SentIn(states[k].sent, phone, from)| <= OTP_MAX_PER_HOUR
    decreases k
  {
    hide Step, Enabled, CleanupInv, Capped, Spaced;
    if k == 0 {
      assert SentIn(states[0].sent, phone, from) == {};
    } else {
      hide Initial, HourKept, SentIn;
      HourIsKept(states, events, phone, from, k - 1);
      RunKeepsLimits(states, events, k - 1);
      RunKeepsLimits(states, events, k);
      var s, e := states[k - 1], events[k - 1];
      assert Enabled(s, e) && states[k] == Step(s, e);
      ClockGoesOn(s, e);
      StepKeepsHour(s, e, phone, from);
    }
  }

  /** An hour in which the phone's account is not deleted never holds more codes than the hourly cap. */
  lemma HourlyCapHolds(states: seq<Sys>, events: seq<Event>, phone: Phone, from: int)
    requires IsHistory(states, events) && states[0].retention >= DAY
    requires forall m :: 0 <= m < |events| && events[m] == DeleteAccount(phone) ==> !(from <= states[m].now <= from + HOUR)
    ensures |SentIn(states[|events|].sent, phone, from)| <= OTP_MAX_PER_HOUR
  {
    HourIsKept(states, events, phone, from, |events|);
  }

  // ---- exactly when the limits hold over everything sent ----

  ghost predicate AllApart(sent: map<RowId, (Phone, int)>, phone: Phone) {
    forall a, b :: a in sent && b in sent && a != b && sent[a].0 == sent[b].0 == phone ==>
      ApartBy(sent[a].1, sent[b].1, OTP_RESEND_COOLDOWN)
  }

  ghost predicate AllCapped(sent: map<RowId, (Phone, int)>, phone: Phone) {
    forall from :: |SentIn(sent, phone, from)| <= OTP_MAX_PER_HOUR
  }

  /** Codes of the phone since a moment whose rows are gone. */
  function ErasedSince(s: Sys, phone: Phone, from: int): set<RowId> {
    set i | i in s.sent && i !in s.all && s.sent[i].0 == phone && s.sent[i].1 >= from
  }

  /** A request that would be refused, had no row been erased. */
  ghost predicate ErasedWouldRefuse(s: Sys, phone: Phone) {
    || (exists i :: i in s.sent && i !in s.all && s.sent[i].0 == phone && s.now - s.sent[i].1 < OTP_RESEND_COOLDOWN)
    || |ErasedSince(s, phone, s.now - HOUR)| + |PhoneSince(s.all, phone, s.now - HOUR)| >= OTP_MAX_PER_HOUR
  }

  ghost predicate Accepts(s: Sys, e: Event, phone: Phone) {
    e.Reserve? && e.phone == phone && Refuses(s.table, s.now, phone, e.ip, s.limits).None?
  }

  lemma AcceptedMeans(s: Sys, e: Event, phone: Phone)
    requires CleanupInv(s) && Accepts(s, e, phone)
    ensures !CoolingDown(s.all, s.now, phone) && |PhoneSince(s.all, phone, s.now - HOUR)| < OTP_MAX_PER_HOUR
  {
    CleanupIsInvisible(s, phone, e.ip, None);
  }

  /** Adding a code sent now to those sent before. */
  lemma OneMoreApart(s: Sys, phone: Phone, id: RowId)
    requires Truthful(s.all, s.sent) && NoneFromTheFuture(s.sent, s.now) && id !in s.sent && !CoolingDown(s.all, s.now, phone)
    ensures AllApart(s.sent[id := (phone, s.now)], phone) <==>
      && AllApart(s.sent, phone)
      && !exists i :: i in s.sent && i !in s.all && s.sent[i].0 == phone && s.now - s.sent[i].1 < OTP_RESEND_COOLDOWN
  {
    var sent' := s.sent[id := (phone, s.now)];
    if AllApart(sent', phone) {
      forall a, b | a in s.sent && b in s.sent && a != b && s.sent[a].0 == s.sent[b].0 == phone
        ensures ApartBy(s.sent[a].1, s.sent[b].1, OTP_RESEND_COOLDOWN)
      {
        assert sent'[a] == s.sent[a] && sent'[b] == s.sent[b];
      }
      forall i | i in s.sent && s.sent[i].0 == phone ensures s.now - s.sent[i].1 >= OTP_RESEND_COOLDOWN {
        assert ApartBy(sent'[i].1, sent'[id].1, OTP_RESEND_COOLDOWN);
      }
    }
  }

  lemma OneMoreCapped(s: Sys, phone: Phone, id: RowId)
    requires Truthful(s.all, s.sent) && NoneFromTheFuture(s.sent, s.now) && id !in s.sent
    ensures AllCapped(s.sent[id := (phone, s.now)], phone) <==>
      && AllCapped(s.sent, phone)
      && |ErasedSince(s, phone, s.now - HOUR)| + |PhoneSince(s.all, phone, s.now - HOUR)| < OTP_MAX_PER_HOUR
  {
    var sent', from := s.sent[id := (phone, s.now)], s.now - HOUR;
    var erased, kept := ErasedSince(s, phone, from), PhoneSince(s.all, phone, from);
    RecentIs(s, phone);
    assert |erased + kept| == |erased| + |kept|;
    hide ErasedSince, PhoneSince, AllCapped, Truthful;
    if |erased| + |kept| < OTP_MAX_PER_HOUR {
      if AllCapped(s.sent, phone) { StaysCapped(s.sent, phone, id, s.now); }
    } else if AllCapped(sent', phone) {
      WindowIsFull(s.sent, phone, id, s.now);
    }
    if AllCapped(sent', phone) { FewerStayCapped(s.sent, phone, id, s.now); }
  }

  lemma StaysCapped(sent: map<RowId, (Phone, int)>, phone: Phone, id: RowId, now: int)
    requires AllCapped(sent, phone) && NoneFromTheFuture(sent, now) && id !in sent && |SentIn(sent, phone, now - HOUR)| < OTP_MAX_PER_HOUR
    ensures AllCapped(sent[id := (phone, now)], phone)
  {
    var sent' := sent[id := (phone, now)];
    forall f ensures |SentIn(sent', phone, f)| <= OTP_MAX_PER_HOUR {
      if f <= now <= f + HOUR {
        forall i | i in SentIn(sent', phone, f) ensures i in SentIn(sent, phone, now - HOUR) + {id} {
          if i != id { assert i in sent && sent[i].1 <= now; }
        }
        SubsetSize(SentIn(sent', phone, f), SentIn(sent, phone, now - HOUR) + {id});
      } else {
        assert SentIn(sent', phone, f) == SentIn(sent, phone, f);
        assert |SentIn(sent, phone, f)| <= OTP_MAX_PER_HOUR;
      }
    }
  }

  lemma WindowIsFull(sent: map<RowId, (Phone, int)>, phone: Phone, id: RowId, now: int)
    requires id !in sent && |SentIn(sent, phone, now - HOUR)| >= OTP_MAX_PER_HOUR
    ensures !AllCapped(sent[id := (phone, now)], phone)
  {
    var sent', from := sent[id := (phone, now)], now - HOUR;
    assert SentIn(sent', phone, from) == SentIn(sent, phone, from) + {id};
    assert |SentIn(sent', phone, from)| > OTP_MAX_PER_HOUR;
  }

  lemma FewerStayCapped(sent: map<RowId, (Phone, int)>, phone: Phone, id: RowId, now: int)
    requires id !in sent && AllCapped(sent[id := (phone, now)], phone)
    ensures AllCapped(sent, phone)
  {
    var sent' := sent[id := (phone, now)];
    forall f ensures |SentIn(sent, phone, f)| <= OTP_MAX_PER_HOUR {
      assert |SentIn(sent', phone, f)| <= OTP_MAX_PER_HOUR;
      SubsetSize(SentIn(sent, phone, f), SentIn(sent', phone, f));
    }
  }

  /** The codes of the last hour are those still there and those erased. */
  lemma RecentIs(s: Sys, phone: Phone)
    requires Truthful(s.all, s.sent) && NoneFromTheFuture(s.sent, s.now)
    ensures SentIn(s.sent, phone, s.now - HOUR) == ErasedSince(s, phone, s.now - HOUR) + PhoneSince(s.all, phone, s.now - HOUR)
    ensures ErasedSince(s, phone, s.now - HOUR) !! PhoneSince(s.all, phone, s.now - HOUR)
  {
    var from := s.now - HOUR;
    forall i ensures i in SentIn(s.sent, phone, from) <==> i in ErasedSince(s, phone, from) || i in PhoneSince(s.all, phone, from) {
      if i in s.all { assert s.sent[i] == (s.all[i].phone, s.all[i].created); }
    }
  }

  lemma StepKeepsLimitsIff(s: Sys, e: Event, phone: Phone)
    requires CleanupInv(s) && Enabled(s, e)
    ensures AllApart(Step(s, e).sent, phone) && AllCapped(Step(s, e).sent, phone) <==>
      AllApart(s.sent, phone) && AllCapped(s.sent, phone) && (Accepts(s, e, phone) ==> !ErasedWouldRefuse(s, phone))
  {
    if Accepts(s, e, phone) {
      AcceptedMeans(s, e, phone);
      assert Step(s, e).sent == s.sent[e.id := (phone, s.now)];
      hide Step, Accepts, Refuses, AllApart, AllCapped, CoolingDown, PhoneSince, ErasedSince;
      OneMoreApart(s, phone, e.id);
      OneMoreCapped(s, phone, e.id);
    } else {
      OthersSent(s, e, phone);
    }
  }

  /** A step that sends this phone nothing. */
  lemma OthersSent(s: Sys, e: Event, phone: Phone)
    requires Enabled(s, e) && !Accepts(s, e, phone)
    ensures AllApart(Step(s, e).sent, phone) == AllApart(s.sent, phone) && AllCapped(Step(s, e).sent, phone) == AllCapped(s.sent, phone)
  {
    var sent, sent' := s.sent, Step(s, e).sent;
    StepSendsNothingElse(s, e);
    forall i | i in sent' && sent'[i].0 == phone ensures i in sent && sent[i] == sent'[i] { StepSends(s, e, i); }
    forall i | i in sent ensures i in sent' && sent'[i] == sent[i] { StepSends(s, e, i); }
    hide Step, Accepts, Enabled;
    forall from ensures SentIn(sent', phone, from) == SentIn(sent, phone, from) {}
    assert AllCapped(sent', phone) == AllCapped(sent, phone);
  }

  /** Everything a phone was ever sent keeps to the cooldown and the hourly cap exactly when no accepted
      request was one that rows erased since would have refused. */
  lemma {:induction false} LimitsHoldIff(states: seq<Sys>, events: seq<Event>, phone: Phone, n: nat)
    requires IsHistory(states, events) && states[0].retention >= DAY && n <= |events|
    ensures AllApart(states[n].sent, phone) && AllCapped(states[n].sent, phone) <==>
      forall k :: 0 <= k < n && Accepts(states[k], events[k], phone) ==> !ErasedWouldRefuse(states[k], phone)
    decreases n
  {
    hide Step, Enabled, CleanupInv, Accepts, ErasedWouldRefuse, Spaced, Capped;
    if n == 0 {
      NothingSentYet(states[0], phone);
    } else {
      hide AllApart, AllCapped, Initial;
      LimitsHoldIff(states, events, phone, n - 1);
      RunKeepsLimits(states, events, n - 1);
      var s, e := states[n - 1], events[n - 1];
      assert Enabled(s, e) && states[n] == Step(s, e);
      StepKeepsLimitsIff(s, e, phone);
    }
  }

  lemma NothingSentYet(s: Sys, phone: Phone)
    requires s.sent == map[]
    ensures AllApart(s.sent, phone) && AllCapped(s.sent, phone)
  {
    forall from ensures |SentIn(s.sent, phone, from)| <= OTP_MAX_PER_HOUR {
      assert SentIn(s.sent, phone, from) == {};
    }
  }

  /** A code's row is gone exactly because some deletion of its phone's account took it. */
  lemma {:induction false} ErasedByDeletion(states: seq<Sys>, events: seq<Event>, i: RowId, n: nat)
    requires IsHistory(states, events) && n <= |events| && states[0].retention >= DAY && i in states[n].sent
    ensures i !in states[n].all <==>
      exists m :: 0 <= m < n && events[m] == DeleteAccount(states[n].sent[i].0) && i in states[m].all
    decreases n
  {
    hide Step, Enabled, CleanupInv, Spaced, Capped;
    if n > 0 {
      hide Initial;
      var s, e := states[n - 1], events[n - 1];
      assert Enabled(s, e) && states[n] == Step(s, e);
      RunKeepsLimits(states, events, n - 1);
      StepSends(s, e, i);
      if i in s.sent {
        ErasedByDeletion(states, events, i, n - 1);
        StepErases(s, e, i);
      } else {
        forall m | 0 <= m < n && i in states[m].all ensures false {
          RunKeepsLimits(states, events, m);
          SentStaysSent(states, events, i, m, n - 1);
        }
      }
    }
  }

  lemma StepErases(s: Sys, e: Event, i: RowId)
    requires CleanupInv(s) && Enabled(s, e) && i in s.sent
    ensures i in Step(s, e).all <==> i in s.all && e != DeleteAccount(s.sent[i].0)
  {
    hide Refuses, IsLatestActive, AfterVerdict;
  }

  lemma {:induction false} SentStaysSent(states: seq<Sys>, events: seq<Event>, i: RowId, j: nat, k: nat)
    requires IsHistory(states, events) && states[0].retention >= DAY && j <= k < |states| && i in states[j].all
    ensures i in states[k].sent
    decreases k
  {
    hide Step, Enabled, Spaced, Capped, Initial;
    if j == k {
      RunKeepsLimits(states, events, j);
    } else {
      SentStaysSent(states, events, i, j, k - 1);
      var s, e := states[k - 1], events[k - 1];
      assert Enabled(s, e) && states[k] == Step(s, e);
      StepSendsNothingElse(s, e);
    }
  }

  /** Deleting the account in between forgets the limits: two codes at the same instant. */
  lemma AccountDeletionResetsLimits(now: int, phone: Phone, limits: Limits)
    requires limits.globalDay <= 0 && limits.perIP <= 0
    ensures exists states: seq<Sys> ::
      IsHistory(states, [Reserve(1, phone, "", now), DeleteAccount(phone), Reserve(2, phone, "", now)])
        && states[3].sent == map[1 := (phone, now), 2 := (phone, now)]
  {
    var s0 := Sys(map[], now, map[], limits, 5, MIN_RETENTION, map[], map[], multiset{}, multiset{}, multiset{}, {});
    var e1, e2, e3 := Reserve(1, phone, "", now), DeleteAccount(phone), Reserve(2, phone, "", now);
    assert PhoneSince(map[], phone, now - HOUR) == {};
    var s1 := Step(s0, e1);
    var s2 := Step(s1, e2);
    assert s2.table == map[] && s2.sent == map[1 := (phone, now)];
    var s3 := Step(s2, e3);
    var states := [s0, s1, s2, s3];
    assert IsHistory(states, [e1, e2, e3]);
    assert states[3].sent == map[1 := (phone, now), 2 := (phone, now)];
  }

  // ---- the verification budget ----

  /** Of each row exactly the numbers up to its attempt counter were handed out, once each. */
  ghost predicate HandedOk(s: Sys) {
    && s.maxAttempts >= 1
    && s.table.Keys <= s.sent.Keys
    && (forall i :: i in s.table ==> s.table[i].attempts <= s.maxAttempts)
    && (forall i, n: nat :: i in s.table ==> s.handed[(i, n)] == if 1 <= n <= s.table[i].attempts then 1 else 0)
    && (forall i, n: nat :: s.handed[(i, n)] <= 1)
    && (forall i, n: nat :: s.handed[(i, n)] == 1 ==> 1 <= n <= s.maxAttempts && i in s.sent)
  }

  /** Each number is compared at most once, and only after it was handed out. */
  ghost predicate ComparedOk(s: Sys) {
    && (forall g :: s.compared[g] <= s.handed[g])
    && (forall c :: c in s.calls && s.calls[c].Guessing? ==> s.compared[GuessOf(s.calls[c])] < s.handed[GuessOf(s.calls[c])])
  }

  ghost predicate GuessesDiffer(s: Sys) {
    forall c, d :: c in s.calls && d in s.calls && c != d && s.calls[c].Guessing? ==> s.calls[d] != s.calls[c]
  }

  function GuessOf(c: Stage): (RowId, nat)
    requires c.Guessing?
  {
    (c.id, c.attempt)
  }

  ghost predicate ClosedOk(s: Sys) {
    && (forall i :: s.logins[i] <= if i in s.closed then 1 else 0)
    && (forall i :: i in s.closed ==> i in s.sent && (i in s.table ==> s.table[i].consumed.Some?))
    && s.table.Keys <= s.sent.Keys
  }

  ghost predicate LoginsDiffer(s: Sys) {
    && (forall c :: c in s.calls && s.calls[c].LoggedIn? ==> s.calls[c].id in s.closed)
    && (forall c, d :: c in s.calls && d in s.calls && c != d && s.calls[c].LoggedIn? ==> s.calls[d] != s.calls[c])
  }

  ghost predicate LoginsOk(s: Sys) {
    ClosedOk(s) && LoginsDiffer(s)
  }

  lemma TakeKeepsHanded(s: Sys, e: Event)
    requires HandedOk(s) && Enabled(s, e) && e.Take?
    ensures HandedOk(Step(s, e))
  {
  }

  lemma StepKeepsHanded(s: Sys, e: Event)
    requires HandedOk(s) && Enabled(s, e)
    ensures HandedOk(Step(s, e))
  {
    hide Refuses, IsLatestActive, TakeAttempt;
    if e.Take? { TakeKeepsHanded(s, e); }
  }

  /** The number handed out is new: nobody compared it or is about to. */
  lemma HandedIsNew(s: Sys, call: CallId)
    requires HandedOk(s) && ComparedOk(s) && Enabled(s, Take(call))
    requires Step(s, Take(call)).calls[call].Guessing?
    ensures var g := GuessOf(Step(s, Take(call)).calls[call]);
      && s.handed[g] == 0 && s.compared[g] == 0
      && Step(s, Take(call)).handed == s.handed + multiset{g}
      && forall c :: c in s.calls && s.calls[c].Guessing? ==> GuessOf(s.calls[c]) != g
  {
  }

  lemma TakeKeepsCompared(s: Sys, e: Event)
    requires HandedOk(s) && ComparedOk(s) && Enabled(s, e) && e.Take?
    ensures ComparedOk(Step(s, e))
  {
    hide HandedOk, TakeAttempt, IsLatestActive;
    if Step(s, e).calls[e.call].Guessing? { HandedIsNew(s, e.call); }
  }

  lemma StepKeepsCompared(s: Sys, e: Event)
    requires HandedOk(s) && ComparedOk(s) && GuessesDiffer(s) && Enabled(s, e)
    ensures ComparedOk(Step(s, e))
  {
    hide Refuses, IsLatestActive, HandedOk, TakeAttempt;
    if e.Take? { TakeKeepsCompared(s, e); }
  }

  lemma TakeKeepsGuessesDifferent(s: Sys, e: Event)
    requires HandedOk(s) && ComparedOk(s) && GuessesDiffer(s) && Enabled(s, e) && e.Take?
    ensures GuessesDiffer(Step(s, e))
  {
    hide HandedOk, ComparedOk, TakeAttempt, IsLatestActive;
    if Step(s, e).calls[e.call].Guessing? { HandedIsNew(s, e.call); }
  }

  lemma StepKeepsGuessesDifferent(s: Sys, e: Event)
    requires HandedOk(s) && ComparedOk(s) && GuessesDiffer(s) && Enabled(s, e)
    ensures GuessesDiffer(Step(s, e))
  {
    hide Refuses, IsLatestActive, HandedOk, ComparedOk, TakeAttempt;
    if e.Take? { TakeKeepsGuessesDifferent(s, e); }
  }

  lemma StepKeepsClosed(s: Sys, e: Event)
    requires ClosedOk(s) && Enabled(s, e)
    ensures ClosedOk(Step(s, e))
  {
    hide Refuses, IsLatestActive;
  }

  lemma StepKeepsLogins(s: Sys, e: Event)
    requires LoginsOk(s) && Enabled(s, e)
    ensures LoginsOk(Step(s, e))
  {
    hide Refuses, IsLatestActive, ClosedOk;
    StepKeepsClosed(s, e);
    if e.Consume? { WinnerIsFirst(s, e.call); }
  }

  /** A row that can still be consumed has not logged anybody in. */
  lemma WinnerIsFirst(s: Sys, call: CallId)
    requires ClosedOk(s) && Enabled(s, Consume(call))
    ensures Close(s.table, s.now, s.calls[call].id).1 ==> s.calls[call].id !in s.closed
  {
  }

  ghost predicate BudgetInv(s: Sys) {
    HandedOk(s) && ComparedOk(s) && GuessesDiffer(s) && LoginsOk(s)
  }

  lemma StepKeepsBudget(s: Sys, e: Event)
    requires BudgetInv(s) && Enabled(s, e)
    ensures BudgetInv(Step(s, e)) && Step(s, e).maxAttempts == s.maxAttempts
  {
    StepKeepsHanded(s, e);
    StepKeepsCompared(s, e);
    StepKeepsGuessesDifferent(s, e);
    StepKeepsLogins(s, e);
    hide HandedOk, ComparedOk, GuessesDiffer, LoginsOk, IsLatestActive, Refuses;
  }

  lemma NothingSpent(s: Sys)
    requires Initial(s)
    ensures BudgetInv(s)
  {
  }

  lemma {:induction false} RunKeepsBudget(states: seq<Sys>, events: seq<Event>, k: nat)
    requires IsHistory(states, events) && k < |states|
    ensures BudgetInv(states[k]) && states[k].maxAttempts == states[0].maxAttempts
    decreases k
  {
    hide Step, Enabled, BudgetInv, Initial;
    if k == 0 {
      NothingSpent(states[0]);
    } else {
      RunKeepsBudget(states, events, k - 1);
      assert Enabled(states[k - 1], events[k - 1]) && states[k] == Step(states[k - 1], events[k - 1]);
      StepKeepsBudget(states[k - 1], events[k - 1]);
    }
  }

  /** How often the code of a row was compared with the provider. */
  ghost function Comparisons(states: seq<Sys>, events: seq<Event>, id: RowId): nat
    requires |states| == |events| + 1
    decreases |events|
  {
    if events == [] then 0
    else
      var n := |events| - 1;
      var e, calls := events[n], states[n].calls;
      Comparisons(states[..n + 1], events[..n], id)
        + if e.Compare? && e.call in calls && calls[e.call].Guessing? && calls[e.call].id == id then 1 else 0
  }

  ghost function NumbersOf(compared: multiset<(RowId, nat)>, id: RowId): set<nat> {
    set g | g in compared && g.0 == id :: g.1
  }

  lemma {:induction false} ComparisonsAreNumbered(states: seq<Sys>, events: seq<Event>, id: RowId)
    requires IsHistory(states, events)
    ensures Comparisons(states, events, id) == |NumbersOf(states[|events|].compared, id)|
    decreases |events|
  {
    hide Enabled, BudgetInv, NumbersOf, Step, Initial;
    if events == [] {
      NothingCompared(states[0], id);
    } else {
      var n := |events| - 1;
      var s, e := states[n], events[n];
      assert Enabled(s, e) && states[n + 1] == Step(s, e);
      ComparisonsAreNumbered(states[..n + 1], events[..n], id);
      RunKeepsBudget(states, events, n);
      NumberComparisons(s, e, id);
    }
  }

  lemma NothingCompared(s: Sys, id: RowId)
    requires Initial(s)
    ensures NumbersOf(s.compared, id) == {}
  {
  }

  lemma GuessIsNotCompared(s: Sys, call: CallId)
    requires HandedOk(s) && ComparedOk(s) && call in s.calls && s.calls[call].Guessing?
    ensures GuessOf(s.calls[call]) !in s.compared
  {
    var g := GuessOf(s.calls[call]);
    assert s.handed[(g.0, g.1)] <= 1;
  }

  lemma OneMoreNumber(compared: multiset<(RowId, nat)>, g: (RowId, nat), id: RowId)
    requires g !in compared
    ensures |NumbersOf(compared + multiset{g}, id)| == |NumbersOf(compared, id)| + if g.0 == id then 1 else 0
  {
    var before, after_ := NumbersOf(compared, id), NumbersOf(compared + multiset{g}, id);
    forall n: nat ensures n in before <==> (id, n) in compared {}
    forall n: nat ensures n in after_ <==> n in before || (g.0 == id && n == g.1) {
      assert n in after_ <==> (id, n) in compared + multiset{g};
    }
    assert after_ == before + if g.0 == id then {g.1} else {};
  }

  lemma NumberComparisons(s: Sys, e: Event, id: RowId)
    requires BudgetInv(s) && Enabled(s, e)
    ensures |NumbersOf(Step(s, e).compared, id)| == |NumbersOf(s.compared, id)|
      + if e.Compare? && e.call in s.calls && s.calls[e.call].Guessing? && s.calls[e.call].id == id then 1 else 0
  {
    hide NumbersOf, IsLatestActive, Refuses, TakeAttempt, HandedOk, ComparedOk, GuessesDiffer, LoginsOk;
    if e.Compare? {
      GuessIsNotCompared(s, e.call);
      OneMoreNumber(s.compared, GuessOf(s.calls[e.call]), id);
    }
  }

  lemma {:induction false} NumbersUpTo(ns: set<nat>, max: nat)
    requires forall n :: n in ns ==> 1 <= n <= max
    ensures |ns| <= max
  {
    if max == 0 {
      assert ns == {};
    } else {
      NumbersUpTo(ns - {max}, max - 1);
    }
  }

  /** Under every interleaving: a code is compared at most maxAttempts times, no attempt number is handed
      out twice, at most one call logs in with it, and none once it was burned or consumed. */
  lemma VerificationBudget(states: seq<Sys>, events: seq<Event>, id: RowId)
    requires IsHistory(states, events)
    ensures var s := states[|events|];
      && Comparisons(states, events, id) <= s.maxAttempts
      && (forall n: nat :: s.handed[(id, n)] <= 1 && (s.handed[(id, n)] == 1 ==> 1 <= n <= s.maxAttempts))
      && s.logins[id] <= 1
      && (forall c, d :: c in s.calls && d in s.calls && s.calls[c] == s.calls[d] == LoggedIn(id) ==> c == d)
  {
    RunKeepsBudget(states, events, |events|);
    ComparisonsAreNumbered(states, events, id);
    var s := states[|events|];
    var ns := NumbersOf(s.compared, id);
    forall n | n in ns ensures 1 <= n <= s.maxAttempts {
      assert (id, n) in s.compared && s.handed[(id, n)] == 1;
    }
    NumbersUpTo(ns, s.maxAttempts);
  }

  lemma ClosedRowsAdmitNobody(s: Sys, e: Event, id: RowId)
    requires LoginsOk(s) && Enabled(s, e) && id in s.closed
    ensures id in Step(s, e).closed && Step(s, e).logins[id] == s.logins[id]
  {
    hide Refuses, IsLatestActive;
  }

  /** Once burned or consumed, a row never logs anybody in again. */
  lemma {:induction false} ClosedStaysClosed(states: seq<Sys>, events: seq<Event>, id: RowId, j: nat, k: nat)
    requires IsHistory(states, events) && j <= k < |states| && id in states[j].closed
    ensures id in states[k].closed && states[k].logins[id] == states[j].logins[id]
    decreases k
  {
    hide Step, Enabled, HandedOk, ComparedOk, GuessesDiffer, LoginsOk, Initial;
    if j < k {
      ClosedStaysClosed(states, events, id, j, k - 1);
      RunKeepsBudget(states, events, k - 1);
      assert Enabled(states[k - 1], events[k - 1]) && states[k] == Step(states[k - 1], events[k - 1]);
      ClosedRowsAdmitNobody(states[k - 1], events[k - 1], id);
    }
  }
}
