/** Refresh and Logout as they run: sequences of repository calls between which any other call may do
    any of its steps. Service keeps a ghost history of the step system in RefreshTokens. */
module Sessions {
  import opened Wrappers
  import opened RefreshTokens

  const REFRESH_TOKEN_TTL := 30 * 24 * 3600 * 1_000_000_000

  /** refreshRepo. now() is the clock field. */
  class RefreshRepo {
    var table: Table
    var now: int

    constructor (now: int)
      ensures table == map[] && this.now == now
    {
      table := map[];
      this.now := now;
    }

    /** The UPDATE ... RETURNING and the successor's INSERT, in one transaction. */
    method Rotate(oldHash: Hash, newHash: Hash, expires: int) returns (t: Option<Token>)
      modifies this`table
      ensures (table, t) == RefreshTokens.Rotate(old(table), now, oldHash, newHash, expires)
    {
      if oldHash !in table || !Active(table[oldHash], now) {
        return None;
      }
      var got := table[oldHash];
      table := table[oldHash := got.(revoked := Some(now), rotated := Some(now))];
      table := table[newHash := Token(got.customer, got.family, expires, None, None)];
      return Some(got);
    }

    method Lookup(hash: Hash) returns (t: Option<Token>)
      ensures t == RefreshTokens.Lookup(table, hash)
    {
      t := if hash in table then Some(table[hash]) else None;
    }

    /** UPDATE ... WHERE family_id = family AND revoked_at IS NULL, row by row. */
    method RevokeFamily(family: Family)
      modifies this`table
      ensures table == RefreshTokens.RevokeFamily(old(table), now, family)
    {
      var rows := table.Keys;
      ghost var before := table;
      while rows != {}
        invariant rows <= before.Keys && table.Keys == before.Keys
        invariant forall h :: h in before ==>
          table[h] == if h in rows then before[h] else RefreshTokens.RevokeFamily(before, now, family)[h]
        decreases |rows|
      {
        var h :| h in rows;
        rows := rows - {h};
        if table[h].family == family && table[h].revoked.None? {
          table := table[h := table[h].(revoked := Some(now))];
        }
      }
    }

    method IssueInFamily(customer: Customer, family: Family, hash: Hash, expires: int) returns (ok: bool)
      modifies this`table
      ensures (table, ok) == RefreshTokens.IssueInFamily(old(table), now, customer, family, hash, expires)
    {
      ok := exists h :: h in table && table[h].family == family && Active(table[h], now);
      if ok {
        table := table[hash := Token(customer, family, expires, None, None)];
      }
    }
  }

  /** newHash continues oldHash's family, for the same customer. */
  predicate Succeeds(tab: Table, oldHash: Hash, newHash: Hash) {
    && oldHash in tab && newHash in tab
    && tab[newHash].family == tab[oldHash].family && tab[newHash].customer == tab[oldHash].customer
  }

  /** A rotated token presented again so soon that it is a retry. */
  predicate WithinGrace(tab: Table, now: int, grace: int, h: Hash) {
    h in tab && tab[h].rotated.Some? && grace > 0 && now - tab[h].rotated.value < grace
  }

  /** A rotated token presented again later, or without a grace window. */
  predicate IsReused(tab: Table, now: int, grace: int, h: Hash) {
    h in tab && tab[h].rotated.Some? && !(grace > 0 && now - tab[h].rotated.value < grace)
  }

  function CallOf(e: Event): Option<CallId> {
    if e.Login? || e.DeleteAccount? || e.Tick? then None else Some(e.id)
  }

  /** What a step does to rows and calls does not depend on the bookkeeping. */
  lemma SameButBookkeeping(s: Sys, t: Sys, e: Event)
    requires s.table == t.table && s.now == t.now && s.calls == t.calls && s.grace == t.grace
    ensures Enabled(s, e) <==> Enabled(t, e)
    ensures Enabled(s, e) ==>
      var s', t' := Step(s, e), Step(t, e);
      s'.table == t'.table && s'.now == t'.now && s'.calls == t'.calls && s'.grace == t'.grace
  {
  }

  lemma GraceIsConstant(s: Sys, e: Event)
    requires Enabled(s, e)
    ensures Step(s, e).grace == s.grace
  {
  }

  lemma OtherCallsUntouched(s: Sys, e: Event, me: CallId)
    requires Enabled(s, e) && CallOf(e) != Some(me)
    ensures var s' := Step(s, e);
      (me in s'.calls <==> me in s.calls) && (me in s.calls ==> s'.calls[me] == s.calls[me])
  {
  }

  lemma HeldIsFresh(states: seq<Sys>, events: seq<Event>, me: CallId)
    requires IsHistory(states, events)
    ensures var s := states[|events|];
      me in s.calls ==> forall h :: Holds(s.calls[me], h) ==> h !in s.table
  {
    RunKeepsInv(states, events, |events|);
  }

  class Service {
    const repo: RefreshRepo
    const grace: int
    var calls: map<CallId, Stage>

    ghost var states: seq<Sys>
    ghost var events: seq<Event>

    constructor (repo: RefreshRepo, grace: int)
      requires repo.table == map[]
      ensures this.repo == repo && this.grace == grace && Valid() && calls == map[]
    {
      this.repo, this.grace, this.calls := repo, grace, map[];
      states := [Sys(map[], repo.now, map[], grace, {}, multiset{})];
      events := [];
    }

    ghost predicate Valid()
      reads this, repo
    {
      && IsHistory(states, events)
      && var s := states[|events|];
         s.table == repo.table && s.now == repo.now && s.calls == calls && s.grace == grace
    }

    ghost function Now(): Sys
      requires IsHistory(states, events)
      reads this
    {
      states[|events|]
    }

    /** The step the history ends with. */
    ghost function Ended(): Event
      requires IsHistory(states, events) && events != []
      reads this
    {
      events[|events| - 1]
    }

    twostate predicate Continues()
      reads this
    {
      old(states) <= states && old(events) <= events
    }

    /** Records the step that has just been taken on the rows and calls. */
    ghost method Note(e: Event)
      requires IsHistory(states, events) && Enabled(Now(), e)
      requires var s := Step(Now(), e);
        s.table == repo.table && s.now == repo.now && s.calls == calls && s.grace == grace
      modifies this`states, this`events
      ensures Valid() && Continues() && Now() == Step(old(Now()), e)
      ensures |events| == old(|events|) + 1 && states[old(|events|)] == old(Now()) && events[old(|events|)] == e
    {
      states := states + [Step(Now(), e)];
      events := events + [e];
    }

    /** Any steps of any other calls, logins, account deletions, and time passing. */
    method Others(me: CallId)
      requires Valid()
      modifies this`calls, this`states, this`events, repo
      ensures Valid() && Continues()
      ensures (me in calls <==> me in old(calls)) && (me in calls ==> calls[me] == old(calls)[me])
      ensures me in calls ==> forall h :: Holds(calls[me], h) ==> h !in repo.table
    {
      hide Step, Enabled;
      var n: int := *;
      while n > 0
        invariant Valid() && Continues()
        invariant (me in calls <==> me in old(calls)) && (me in calls ==> calls[me] == old(calls)[me])
      {
        n := n - 1;
        var e: Event := *;
        var s := Sys(repo.table, repo.now, calls, grace, {}, multiset{});
        if CallOf(e) != Some(me) && Enabled(s, e) {
          var s' := Step(s, e);
          SameButBookkeeping(s, Now(), e);
          OtherCallsUntouched(s, e, me);
          GraceIsConstant(s, e);
          repo.table, repo.now, calls := s'.table, s'.now, s'.calls;
          Note(e);
        }
      }
      HeldIsFresh(states, events, me);
    }

    /** Refresh: rotate the presented token, or hand over to HandleInactive. */
    method Refresh(me: CallId, oldHash: Hash, newHash: Hash) returns (granted: bool)
      requires Valid() && me !in calls && Unused(Now(), newHash)
      modifies this`calls, this`states, this`events, repo
      ensures Valid() && Continues() && me in calls
      ensures granted <==> calls[me] == Granted(oldHash, newHash)
      ensures granted ==> Succeeds(repo.table, oldHash, newHash)
      ensures old(oldHash in repo.table && Dead(Now(), repo.table[oldHash].family)) ==> !granted
    {
      calls := calls[me := Presented(oldHash, newHash)];
      Note(BeginRefresh(me, oldHash, newHash));
      granted := Exchange(me, oldHash, newHash);
      GrantsAreSound(old(states), old(events), states, events, me, oldHash, newHash);
    }

    /** Rotates the presented token if it is active; otherwise decides between retry and reuse. */
    method Exchange(me: CallId, oldHash: Hash, newHash: Hash) returns (granted: bool)
      requires Valid() && me in calls && calls[me] == Presented(oldHash, newHash)
      modifies this`calls, this`states, this`events, repo
      ensures Valid() && Continues() && me in calls
      ensures calls[me] == if granted then Granted(oldHash, newHash) else Rejected
    {
      Others(me);
      var failed: bool := *;
      if failed {
        granted := Fail(me);
        return;
      }
      var expires := repo.now + REFRESH_TOKEN_TTL;
      var t := repo.Rotate(oldHash, newHash, expires);
      if t.Some? {
        calls := calls[me := Granted(oldHash, newHash)];
        Note(DoRotate(me, expires));
        return true;
      }
      calls := calls[me := Inactive(oldHash, newHash)];
      Note(DoRotate(me, expires));
      Others(me);
      granted := HandleInactive(me, oldHash, newHash);
    }

    /** A store error ends the call without a token. */
    method Fail(me: CallId) returns (granted: bool)
      requires Valid() && me in calls && !calls[me].Granted? && !calls[me].LoggedOut?
      modifies this`calls, this`states, this`events
      ensures Valid() && Continues() && me in calls && calls[me] == Rejected && !granted
      ensures Ended() == Abort(me)
    {
      calls := calls[me := Rejected];
      Note(Abort(me));
      granted := false;
    }

    /** handleInactiveRefresh: a retry within the grace window is answered by a re-issue, or by nothing if the
        session died meanwhile; reuse revokes the family and leaves it dead; any other token is invalid. Only
        a failing store call can keep either from happening. */
    method HandleInactive(me: CallId, oldHash: Hash, newHash: Hash) returns (granted: bool)
      requires Valid() && me in calls && calls[me] == Inactive(oldHash, newHash)
      modifies this`calls, this`states, this`events, repo
      ensures Valid() && Continues() && me in calls && |events| > |old(events)|
      ensures calls[me] == if granted then Granted(oldHash, newHash) else Rejected
      ensures granted ==> Ended().DoIssue? && old(WithinGrace(repo.table, repo.now, grace, oldHash))
      ensures old(WithinGrace(repo.table, repo.now, grace, oldHash)) ==> Ended() == Abort(me) || (Ended().DoIssue? && Ended().id == me)
      ensures old(IsReused(repo.table, repo.now, grace, oldHash)) ==>
        Ended() == Abort(me) || (Ended() == DoRevoke(me) && oldHash in repo.table && Dead(Now(), repo.table[oldHash].family))
      ensures old(oldHash !in repo.table || repo.table[oldHash].rotated.None?) ==> Ended() == Abort(me) || Ended() == DoLookup(me)
    {
      var failed: bool := *;
      if failed {
        granted := Fail(me);
        return;
      }
      var t := repo.Lookup(oldHash);
      if t.None? || t.value.rotated.None? {
        calls := calls[me := Rejected];
        Note(DoLookup(me));
        return false;
      }
      if grace > 0 && repo.now - t.value.rotated.value < grace {
        calls := calls[me := Retrying(oldHash, newHash, t.value.customer, t.value.family)];
        Note(DoLookup(me));
        granted := Reissue(me, oldHash, newHash, t.value.customer, t.value.family);
      } else {
        calls := calls[me := Reused(oldHash, t.value.family)];
        Note(DoLookup(me));
        granted := RevokeReused(me, oldHash, t.value.family);
      }
    }

    /** A retry within the grace window: a new token, if the session is still alive by now. */
    method Reissue(me: CallId, oldHash: Hash, newHash: Hash, customer: Customer, family: Family) returns (granted: bool)
      requires Valid() && me in calls && calls[me] == Retrying(oldHash, newHash, customer, family)
      modifies this`calls, this`states, this`events, repo
      ensures Valid() && Continues() && me in calls && |events| > |old(events)|
      ensures Ended() == Abort(me) || (Ended().DoIssue? && Ended().id == me)
      ensures granted ==> Ended().DoIssue?
      ensures calls[me] == if granted then Granted(oldHash, newHash) else Rejected
    {
      Others(me);
      var failed: bool := *;
      if failed {
        granted := Fail(me);
        return;
      }
      var expires := repo.now + REFRESH_TOKEN_TTL;
      granted := repo.IssueInFamily(customer, family, newHash, expires);
      calls := calls[me := if granted then Granted(oldHash, newHash) else Rejected];
      Note(DoIssue(me, expires));
    }

    method RevokeReused(me: CallId, oldHash: Hash, family: Family) returns (granted: bool)
      requires Valid() && me in calls && calls[me] == Reused(oldHash, family)
      modifies this`calls, this`states, this`events, repo
      ensures Valid() && Continues() && me in calls && calls[me] == Rejected && !granted && |events| > |old(events)|
      ensures Ended() == Abort(me) || (Ended() == DoRevoke(me) && oldHash in repo.table && Dead(Now(), repo.table[oldHash].family))
    {
      Others(me);
      var failed: bool := *;
      if failed {
        granted := Fail(me);
        return;
      }
      repo.RevokeFamily(family);
      calls := calls[me := Rejected];
      Note(DoRevoke(me));
      ReuseKills(states, events);
      granted := false;
    }

    /** Logout; once it reports success, no token of the presented token's family works again. */
    method Logout(me: CallId, oldHash: Hash) returns (ok: bool)
      requires Valid() && me !in calls
      modifies this`calls, this`states, this`events, repo
      ensures Valid() && Continues()
      ensures ok && old(oldHash in repo.table) ==> oldHash in repo.table && Dead(Now(), repo.table[oldHash].family)
    {
      calls := calls[me := LeavingWith(oldHash)];
      Note(BeginLogout(me, oldHash));
      ok := FindAndLeave(me, oldHash);
      RowStays(old(states), old(events), states, events, oldHash);
    }

    /** The first half of Logout; an unknown token is nothing to revoke. */
    method FindAndLeave(me: CallId, oldHash: Hash) returns (ok: bool)
      requires Valid() && me in calls && calls[me] == LeavingWith(oldHash)
      modifies this`calls, this`states, this`events, repo
      ensures Valid() && Continues()
      ensures ok && old(oldHash in repo.table) ==> oldHash in repo.table && Dead(Now(), repo.table[oldHash].family)
    {
      Others(me);
      RowStays(old(states), old(events), states, events, oldHash);
      var failed: bool := *;
      if failed {
        var granted := Fail(me);
        return false;
      }
      var t := repo.Lookup(oldHash);
      if t.None? {
        calls := calls[me := LoggedOut];
        Note(LogoutLookup(me));
        return true;
      }
      calls := calls[me := Leaving(oldHash, t.value.family)];
      Note(LogoutLookup(me));
      ok := Leave(me, oldHash, t.value.family);
    }

    /** The second half of Logout: revoke the family its token was found in. */
    method Leave(me: CallId, oldHash: Hash, family: Family) returns (ok: bool)
      requires Valid() && me in calls && calls[me] == Leaving(oldHash, family)
      modifies this`calls, this`states, this`events, repo
      ensures Valid() && Continues()
      ensures ok ==> oldHash in repo.table && repo.table[oldHash].family == family && Dead(Now(), family)
    {
      Others(me);
      var failed: bool := *;
      if failed {
        var granted := Fail(me);
        return false;
      }
      repo.RevokeFamily(family);
      calls := calls[me := LoggedOut];
      Note(LogoutRevoke(me));
      LeavingKills(states, events);
      ok := true;
    }
  }

  /** A history that ends with a revocation for reuse ends with that family dead. */
  lemma ReuseKills(states: seq<Sys>, events: seq<Event>)
    requires IsHistory(states, events) && events != [] && events[|events| - 1].DoRevoke?
    ensures var n := |events| - 1;
      var id := events[n].id;
      && id in states[n].calls && states[n].calls[id].Reused?
      && var c := states[n].calls[id];
         c.oldHash in states[n + 1].table && states[n + 1].table[c.oldHash].family == c.family && Dead(states[n + 1], c.family)
  {
    var n := |events| - 1;
    assert Next(states[n], events[n], states[n + 1]);
    RunKeepsInv(states, events, n);
    assert Remembers(states[n].table, states[n].calls[events[n].id]);
    RowsPersist(states[n], events[n]);
    RevokingKills(states[n], events[n], states[n].calls[events[n].id].family);
  }

  /** A history that ends with a logout's revocation ends with that family dead. */
  lemma LeavingKills(states: seq<Sys>, events: seq<Event>)
    requires IsHistory(states, events) && events != [] && events[|events| - 1].LogoutRevoke?
    ensures var n := |events| - 1;
      var id := events[n].id;
      && id in states[n].calls && states[n].calls[id].Leaving?
      && var c := states[n].calls[id];
         c.oldHash in states[n + 1].table && states[n + 1].table[c.oldHash].family == c.family && Dead(states[n + 1], c.family)
  {
    var n := |events| - 1;
    assert Next(states[n], events[n], states[n + 1]);
    RunKeepsInv(states, events, n);
    assert Remembers(states[n].table, states[n].calls[events[n].id]);
    RowsPersist(states[n], events[n]);
    RevokingKills(states[n], events[n], states[n].calls[events[n].id].family);
  }

  lemma RowStays(states0: seq<Sys>, events0: seq<Event>, states: seq<Sys>, events: seq<Event>, h: Hash)
    requires IsHistory(states0, events0) && IsHistory(states, events) && states0 <= states && events0 <= events
    ensures h in states0[|events0|].table ==> h in states[|events|].table
  {
    if h in states0[|events0|].table {
      assert states[|events0|] == states0[|events0|];
      RowsPersistOverRuns(states, events, h, |events0|, |events|);
    }
  }

  /** A call that was not there in the earlier history and is granted in the later one. */
  lemma GrantsAreSound(states0: seq<Sys>, events0: seq<Event>, states: seq<Sys>, events: seq<Event>,
                       me: CallId, oldHash: Hash, newHash: Hash)
    requires IsHistory(states0, events0) && IsHistory(states, events) && states0 <= states && events0 <= events
    requires me !in states0[|events0|].calls && me in states[|events|].calls
    ensures var s := states[|events|];
      s.calls[me] == Granted(oldHash, newHash) ==>
        && Succeeds(s.table, oldHash, newHash)
        && (oldHash in states0[|events0|].table ==> !Dead(states0[|events0|], states0[|events0|].table[oldHash].family))
  {
    var s, s0 := states[|events|], states0[|events0|];
    RunKeepsInv(states, events, |events|);
    assert Remembers(s.table, s.calls[me]);
    if s.calls[me] == Granted(oldHash, newHash) && oldHash in s0.table && Dead(s0, s0.table[oldHash].family) {
      assert states[|events0|] == s0;
      NoGrantFromDeadFamily(states, events, oldHash, me, |events0|, |events|);
      assert false;
    }
  }
}
