/**
  More about runs of the token lease protocol: how often the authorization server is asked, a run in
  which a lost answer leads to a stale token being presented, and when a disconnect lasts.
*/
module TokenRuns {
  import opened TokenLease

  // ---------------------------------------------------------------- granted refreshes

  predicate Within(t: int, from: int, to: int) { from <= t <= to }

  function CountIn(times: seq<int>, from: int, to: int): nat
    decreases |times|
  {
    if times == [] then 0
    else CountIn(times[..|times| - 1], from, to) + if Within(times[|times| - 1], from, to) then 1 else 0
  }

  /** The refreshes of a user that the server grants between two times. */
  ghost function GrantsIn(w: World, acts: seq<Action>, u: UserId, from: int, to: int): nat
    requires Legal(w, acts)
    decreases |acts|
  {
    if acts == [] then 0
    else
      var init, a := acts[..|acts| - 1], acts[|acts| - 1];
      var before := Exec(w, init);
      GrantsIn(w, init, u, from, to)
      + if a.RefreshTokens? && a.reply.Granted? && UserOf(before.calls[a.c]) == u && Within(before.now, from, to)
        then 1 else 0
  }

  /** Those among them whose save fails. */
  ghost function FailedSavesIn(w: World, acts: seq<Action>, u: UserId, from: int, to: int): nat
    requires Legal(w, acts)
    decreases |acts|
  {
    if acts == [] then 0
    else
      var init, a := acts[..|acts| - 1], acts[|acts| - 1];
      var before := Exec(w, init);
      FailedSavesIn(w, init, u, from, to)
      + if a.SaveTokens? && a.fails && UserOf(before.calls[a.c]) == u
           && Within(before.calls[a.c].phase.refreshedAt, from, to)
        then 1 else 0
  }

  /** A grant of that time is still to be saved. */
  ghost predicate SavePending(w: World, u: UserId, from: int, to: int) {
    exists c :: c in w.calls && w.calls[c].phase.Save? && UserOf(w.calls[c]) == u
                && Within(w.calls[c].phase.refreshedAt, from, to)
  }

  ghost function PendingIn(w: World, u: UserId, from: int, to: int): nat {
    if SavePending(w, u, from, to) then 1 else 0
  }

  predicate OpensOrClosesSave(a: Action) {
    a.SaveTokens? || (a.RefreshTokens? && a.reply.Granted?)
  }

  lemma {:induction false} OtherActions(w: World, a: Action, u: UserId, from: int, to: int)
    requires Enabled(w, a) && !OpensOrClosesSave(a)
    ensures Log(Step(w, a), u) == Log(w, u)
    ensures SavePending(Step(w, a), u, from, to) <==> SavePending(w, u, from, to)
  {
    var w' := Step(w, a);
    forall c ensures c in w'.calls && w'.calls[c].phase.Save? <==> c in w.calls && w.calls[c].phase.Save? {
    }
    forall c | c in w.calls && w.calls[c].phase.Save? ensures c in w'.calls && w'.calls[c] == w.calls[c] {
    }
    if SavePending(w, u, from, to) {
      var c :| c in w.calls && w.calls[c].phase.Save? && UserOf(w.calls[c]) == u
               && Within(w.calls[c].phase.refreshedAt, from, to);
      assert w'.calls[c] == w.calls[c];
    }
  }

  /** Only the call that acts saves for its user. */
  lemma {:induction false} SoleSaver(w: World, c: CallId, d: CallId)
    requires LockInv(w) && c in w.calls && InSection(w.calls[c].phase)
    requires d in w.calls && w.calls[d].phase.Save? && UserOf(w.calls[d]) == UserOf(w.calls[c])
    ensures c == d
  {
    SectionIsExclusive(w, c, d);
  }

  lemma {:induction false} GrantOpensSave(w: World, c: CallId, reply: Reply, u: UserId, from: int, to: int)
    requires LockInv(w) && Enabled(w, RefreshTokens(c, reply)) && reply.Granted?
    ensures var w' := Step(w, RefreshTokens(c, reply));
            && Log(w', u) == Log(w, u)
            && PendingIn(w', u, from, to) == PendingIn(w, u, from, to)
               + if UserOf(w.calls[c]) == u && Within(w.now, from, to) then 1 else 0
  {
    var w' := Step(w, RefreshTokens(c, reply));
    forall d | d in w.calls && w.calls[d].phase.Save? ensures d != c && w'.calls[d] == w.calls[d] {
    }
    if UserOf(w.calls[c]) == u {
      forall d | d in w.calls && w.calls[d].phase.Save? ensures UserOf(w.calls[d]) != u {
        if UserOf(w.calls[d]) == u { SoleSaver(w, c, d); }
      }
      assert !SavePending(w, u, from, to);
      assert w'.calls[c].phase.Save? && w'.calls[c].phase.refreshedAt == w.now;
    } else {
      SaversCarryOver(w, w', c, u, from, to);
    }
  }

  lemma {:induction false} SaversCarryOver(w: World, w': World, c: CallId, u: UserId, from: int, to: int)
    requires c in w.calls && UserOf(w.calls[c]) != u
    requires exists p :: w'.calls == w.calls[c := w.calls[c].(phase := p)]
    ensures SavePending(w', u, from, to) <==> SavePending(w, u, from, to)
  {
    forall d | d != c ensures d in w'.calls <==> d in w.calls {
    }
    if SavePending(w, u, from, to) {
      var d :| d in w.calls && w.calls[d].phase.Save? && UserOf(w.calls[d]) == u
               && Within(w.calls[d].phase.refreshedAt, from, to);
      assert w'.calls[d] == w.calls[d];
    }
    if SavePending(w', u, from, to) {
      var d :| d in w'.calls && w'.calls[d].phase.Save? && UserOf(w'.calls[d]) == u
               && Within(w'.calls[d].phase.refreshedAt, from, to);
      assert w'.calls[d] == w.calls[d];
    }
  }

  lemma {:induction false} SaveClosesSave(w: World, c: CallId, fails: bool, u: UserId, from: int, to: int)
    requires LockInv(w) && Enabled(w, SaveTokens(c, fails))
    ensures var w', t := Step(w, SaveTokens(c, fails)), w.calls[c].phase.refreshedAt;
            var mine := if UserOf(w.calls[c]) == u && Within(t, from, to) then 1 else 0;
            && Log(w', u) == (if UserOf(w.calls[c]) == u && !fails then Log(w, u) + [t] else Log(w, u))
            && PendingIn(w, u, from, to) == PendingIn(w', u, from, to) + mine
  {
    var w' := Step(w, SaveTokens(c, fails));
    if UserOf(w.calls[c]) == u {
      forall d | d in w.calls && w.calls[d].phase.Save? && UserOf(w.calls[d]) == u ensures d == c {
        SoleSaver(w, c, d);
      }
      assert !w'.calls[c].phase.Save?;
      assert !SavePending(w', u, from, to);
    } else {
      assert w'.calls == w.calls[c := w.calls[c].(phase := w'.calls[c].phase)];
      SaversCarryOver(w, w', c, u, from, to);
    }
  }

  lemma {:induction false} CountSnoc(times: seq<int>, t: int, from: int, to: int)
    ensures CountIn(times + [t], from, to) == CountIn(times, from, to) + if Within(t, from, to) then 1 else 0
  {
    assert (times + [t])[..|times|] == times;
  }

  /** Every granted refresh is saved, fails to be saved, or is about to be. */
  lemma {:induction false} GrantsAreAccounted(w: World, acts: seq<Action>, u: UserId, from: int, to: int)
    requires Initial(w) && Legal(w, acts)
    ensures GrantsIn(w, acts, u, from, to)
         == CountIn(Log(Exec(w, acts), u), from, to) + FailedSavesIn(w, acts, u, from, to)
            + PendingIn(Exec(w, acts), u, from, to)
    decreases |acts|
  {
    if acts == [] {
    } else {
      var init, a := acts[..|acts| - 1], acts[|acts| - 1];
      GrantsAreAccounted(w, init, u, from, to);
      TokenRun(w, init);
      var before := Exec(w, init);
      if a.SaveTokens? {
        SaveClosesSave(before, a.c, a.fails, u, from, to);
        CountSnoc(Log(before, u), before.calls[a.c].phase.refreshedAt, from, to);
      } else if a.RefreshTokens? && a.reply.Granted? {
        GrantOpensSave(before, a.c, a.reply, u, from, to);
      } else {
        OtherActions(before, a, u, from, to);
      }
    }
  }

  /** The first and the last of the times that count are at least so many places apart. */
  lemma {:induction false} Extent(times: seq<int>, from: int, to: int) returns (i: nat, j: nat)
    requires CountIn(times, from, to) > 0
    ensures i <= j < |times| && from <= times[i] && times[j] <= to && j - i + 1 >= CountIn(times, from, to)
    decreases |times|
  {
    var n := |times| - 1;
    if CountIn(times[..n], from, to) == 0 {
      i, j := n, n;
    } else {
      i, j := Extent(times[..n], from, to);
      if Within(times[n], from, to) { j := n; }
    }
  }

  lemma {:induction false} SpacedCount(times: seq<int>, gap: int, from: int, to: int)
    requires Spaced(times, gap) && gap > 0 && from <= to
    ensures CountIn(times, from, to) <= 1 + (to - from) / gap
  {
    if CountIn(times, from, to) == 0 {
      assert (to - from) / gap >= 0;
    } else {
      var i, j := Extent(times, from, to);
      assert times[j] - times[i] >= (j - i) * gap;
      QuotientBound(j - i, gap, to - from);
    }
  }

  /** However many callers there are, the server grants a user's refresh at most
      1 + (to - from) / (life - ttl) times between two moments, and once more for each of them whose
      save fails. */
  lemma {:induction false} GrantRate(w: World, acts: seq<Action>, life: int, ttl: int, u: UserId, from: int, to: int)
    requires Initial(w) && Legal(w, acts) && AllBounded(acts, life, ttl) && life > ttl && from <= to
    ensures GrantsIn(w, acts, u, from, to) <= 1 + (to - from) / (life - ttl) + FailedSavesIn(w, acts, u, from, to)
  {
    TimeRun(w, acts, life, ttl);
    GrantsAreAccounted(w, acts, u, from, to);
    var w', log, gap := Exec(w, acts), Log(Exec(w, acts), u), life - ttl;
    if SavePending(w', u, from, to) {
      var c :| c in w'.calls && w'.calls[c].phase.Save? && UserOf(w'.calls[c]) == u
               && Within(w'.calls[c].phase.refreshedAt, from, to);
      assert CallTimes(w', w'.calls[c], life, ttl);
      SpacedSnoc(log, w'.calls[c].phase.refreshedAt, gap);
      CountSnoc(log, w'.calls[c].phase.refreshedAt, from, to);
      SpacedCount(log + [w'.calls[c].phase.refreshedAt], gap, from, to);
    } else {
      SpacedCount(log, gap, from, to);
    }
  }

  // ---------------------------------------------------------------- a rotation whose answer is lost

  /** A call of a user whose stored token is stale gets as far as its refresh, if the mutex is free. */
  lemma {:induction false} UpToRefresh(w0: World, w: World, c: CallId, req: Request, mu: MutexId) returns (w': World)
    requires Reaches(w0, w) && c !in w.calls && req.telegramId != 0 && Connected(w, req.telegramId)
    requires w.users[req.telegramId].expiresAt <= w.now + EffectiveTtl(req)
    requires if req.telegramId in w.tokenLocks then w.tokenLocks[req.telegramId] == mu else mu !in AllMutexes(w)
    requires mu !in w.heldBy
    ensures Reaches(w0, w') && w'.calls == w.calls[c := Call(req, w.now, Refresh(mu, w.users[req.telegramId]))]
    ensures w' == w.(calls := w'.calls, tokenLocks := w'.tokenLocks, heldBy := w.heldBy[mu := c])
    ensures req.telegramId in w'.tokenLocks && w'.tokenLocks[req.telegramId] == mu
  {
    var w1 := ReadStale(w0, w, c, req);
    ReachesNext(w0, w1, CheckFast(c));
    var w2 := Step(w1, CheckFast(c));
    assert w2 == w.(calls := w.calls[c := Call(req, w.now, LookUpLock)]);
    w' := FromLock(w0, w2, c, mu);
  }

  lemma {:induction false} ReadStale(w0: World, w: World, c: CallId, req: Request) returns (w': World)
    requires Reaches(w0, w) && c !in w.calls && req.telegramId != 0 && Connected(w, req.telegramId)
    ensures Reaches(w0, w')
    ensures w' == w.(calls := w.calls[c := Call(req, w.now, FastCheck(w.users[req.telegramId]))])
  {
    ReachesNext(w0, w, Begin(c, req));
    var w1 := Step(w, Begin(c, req));
    ReachesNext(w0, w1, ReadUser(c, false));
    w' := Step(w1, ReadUser(c, false));
  }

  lemma {:induction false} FromLock(w0: World, w: World, c: CallId, mu: MutexId) returns (w': World)
    requires Reaches(w0, w) && c in w.calls && w.calls[c].phase == LookUpLock && Connected(w, UserOf(w.calls[c]))
    requires w.users[UserOf(w.calls[c])].expiresAt <= w.now + EffectiveTtl(w.calls[c].req)
    requires var u := UserOf(w.calls[c]); if u in w.tokenLocks then w.tokenLocks[u] == mu else mu !in AllMutexes(w)
    requires mu !in w.heldBy
    ensures Reaches(w0, w')
    ensures w'.calls == w.calls[c := w.calls[c].(phase := Refresh(mu, w.users[UserOf(w.calls[c])]))]
    ensures w' == w.(calls := w'.calls, tokenLocks := w'.tokenLocks, heldBy := w.heldBy[mu := c])
    ensures UserOf(w.calls[c]) in w'.tokenLocks && w'.tokenLocks[UserOf(w.calls[c])] == mu
  {
    var w1 := TakeMutex(w0, w, c, mu);
    ReachesNext(w0, w1, ReReadUser(c, false));
    var w2 := Step(w1, ReReadUser(c, false));
    ReachesNext(w0, w2, CheckAgain(c));
    w' := Step(w2, CheckAgain(c));
  }

  lemma {:induction false} TakeMutex(w0: World, w: World, c: CallId, mu: MutexId) returns (w': World)
    requires Reaches(w0, w) && c in w.calls && w.calls[c].phase == LookUpLock && mu !in w.heldBy
    requires var u := UserOf(w.calls[c]); if u in w.tokenLocks then w.tokenLocks[u] == mu else mu !in AllMutexes(w)
    ensures Reaches(w0, w')
    ensures w' == w.(calls := w.calls[c := w.calls[c].(phase := SecondRead(mu))], tokenLocks := w'.tokenLocks,
                     heldBy := w.heldBy[mu := c])
    ensures UserOf(w.calls[c]) in w'.tokenLocks && w'.tokenLocks[UserOf(w.calls[c])] == mu
  {
    var spare := FreshMutex(w, mu);
    ReachesNext(w0, w, FindLock(c, spare));
    var w1 := Step(w, FindLock(c, spare));
    assert w1.calls[c].phase == Acquire(mu);
    ReachesNext(w0, w1, AcquireLock(c));
    w' := Step(w1, AcquireLock(c));
  }

  /** A mutex for the lock table: `mu` itself if it is not in use, else another one. */
  lemma {:induction false} FreshMutex(w: World, mu: MutexId) returns (m: MutexId)
    ensures m !in AllMutexes(w) && (mu !in AllMutexes(w) ==> m == mu)
  {
    if mu !in AllMutexes(w) {
      m := mu;
    } else {
      m := AboveAll(AllMutexes(w));
    }
  }

  lemma {:induction false} AboveAll(s: set<MutexId>) returns (m: MutexId)
    ensures forall x :: x in s ==> x < m
    decreases |s|
  {
    if s == {} {
      m := 0;
    } else {
      var x :| x in s;
      var rest := AboveAll(s - {x});
      m := if x < rest then rest else x + 1;
      assert forall y :: y in s ==> y == x || y in s - {x};
    }
  }

  /** Whatever the world before the first lease, a connected user whose token is stale can come to
      present a rotated-out refresh token: the answer to the first refresh is lost, and the next lease
      sends the old token again. */
  lemma {:induction false} LostAnswerStrandsTheToken(w: World, u: UserId, rotatedTo: Token)
    returns (acts: seq<Action>, c: CallId)
    requires Initial(w) && u != 0 && Connected(w, u) && w.users[u].expiresAt <= w.now + REFRESH_SKEW
    requires rotatedTo != "" && rotatedTo !in w.server.issued
    ensures Legal(w, acts) && Enabled(Exec(w, acts), RefreshTokens(c, InvalidGrant))
    ensures var w' := Exec(w, acts);
            UserOf(w'.calls[c]) == u && w'.calls[c].phase.reread.refreshToken in w'.server.retired
  {
    var req := Request(u, 0);
    ReachesItself(w);
    var w1 := UpToRefresh(w, w, 0, req, 0);
    var w2 := LoseAnswer(w, w1, 0, rotatedTo);
    assert 0 !in w2.heldBy && 1 !in w2.calls;
    var w3 := UpToRefresh(w, w2, 1, req, 0);
    c := 1;
    acts :| Legal(w, acts) && Exec(w, acts) == w3;
  }

  lemma {:induction false} LoseAnswer(w0: World, w: World, c: CallId, rotatedTo: Token) returns (w': World)
    requires Reaches(w0, w) && c in w.calls && w.calls[c].phase.Refresh?
    requires IsLive(w.server, UserOf(w.calls[c]), w.calls[c].phase.reread.refreshToken)
    requires w.calls[c].phase.reread.refreshToken in w.server.issued
    requires rotatedTo != "" && rotatedTo !in w.server.issued
    ensures Reaches(w0, w')
    ensures w' == w.(calls := w'.calls, heldBy := w.heldBy - {w.calls[c].phase.mu}, server := w'.server)
    ensures w'.calls.Keys == w.calls.Keys && w.calls[c].phase.reread.refreshToken in w'.server.retired
    ensures !IsLive(w'.server, UserOf(w.calls[c]), w.calls[c].phase.reread.refreshToken)
  {
    ReachesNext(w0, w, RefreshTokens(c, AnswerLost(rotatedTo)));
    var w1 := Step(w, RefreshTokens(c, AnswerLost(rotatedTo)));
    ReachesNext(w0, w1, ReleaseLock(c));
    w' := Step(w1, ReleaseLock(c));
  }

  // ---------------------------------------------------------------- when a disconnect lasts

  /** A call that read the user before the disconnect and can still get to storing tokens: it holds
      some, or the refresh token it read is the live one. */
  predicate CanStore(w: World, c: CallId, u: UserId) {
    && c in w.calls && UserOf(w.calls[c]) == u
    && match w.calls[c].phase
       case Save(_, _, response, _, _) => response.accessToken != ""
       case SecondCheck(_, reread) => IsLive(w.server, u, reread.refreshToken)
       case Refresh(_, reread) => IsLive(w.server, u, reread.refreshToken)
       case _ => false
  }

  ghost predicate Lasts(w: World, u: UserId) {
    forall w' :: Reaches(w, w') ==> !Connected(w', u)
  }

  /** Nobody is left who could store tokens of the user, and there are none. */
  ghost predicate Gone(w: World, u: UserId) {
    !Connected(w, u) && forall c :: !CanStore(w, c, u)
  }

  lemma {:induction false} GoneStays(w: World, a: Action, u: UserId)
    requires Gone(w, u) && Enabled(w, a)
    ensures Gone(Step(w, a), u)
  {
    var w' := Step(w, a);
    if !a.Tick? && !a.Disconnect? { ActorCannotStore(w, a, u); }
    forall c ensures !CanStore(w', c, u) {
      assert !CanStore(w, c, u);
      if a.Tick? || a.Disconnect? || c != a.c { OthersKeepStanding(w, a, c, u); }
    }
  }

  lemma {:induction false} OthersKeepStanding(w: World, a: Action, c: CallId, u: UserId)
    requires Gone(w, u) && Enabled(w, a) && (a.Tick? || a.Disconnect? || c != a.c)
    ensures !CanStore(Step(w, a), c, u)
  {
    assert !CanStore(w, c, u);
    if a.RefreshTokens? { assert !CanStore(w, a.c, u); }
  }

  lemma {:induction false} ActorCannotStore(w: World, a: Action, u: UserId)
    requires Gone(w, u) && Enabled(w, a) && !a.Tick? && !a.Disconnect?
    ensures !Connected(Step(w, a), u) && !CanStore(Step(w, a), a.c, u)
  {
    assert !CanStore(w, a.c, u);
  }

  lemma {:induction false} GoneForGood(w: World, acts: seq<Action>, u: UserId)
    requires Gone(w, u) && Legal(w, acts)
    ensures Gone(Exec(w, acts), u)
    decreases |acts|
  {
    if acts == [] {
    } else {
      var init := acts[..|acts| - 1];
      GoneForGood(w, init, u);
      GoneStays(Exec(w, init), acts[|acts| - 1], u);
    }
  }

  /** The call in question goes on, and the user is connected again. */
  lemma {:induction false} StoresAfterAll(w: World, c: CallId, u: UserId) returns (w': World)
    requires CanStore(w, c, u) && u in w.users
    ensures Reaches(w, w') && Connected(w', u)
  {
    ReachesItself(w);
    var at := w;
    if at.calls[c].phase.SecondCheck? {
      at := GoesStale(w, c, u);
    }
    if at.calls[c].phase.Refresh? {
      at := IsGranted(w, at, c, u);
    }
    ReachesNext(w, at, SaveTokens(c, false));
    w' := Step(at, SaveTokens(c, false));
  }

  lemma {:induction false} GoesStale(w: World, c: CallId, u: UserId) returns (w': World)
    requires CanStore(w, c, u) && u in w.users && w.calls[c].phase.SecondCheck?
    ensures Reaches(w, w') && CanStore(w', c, u) && u in w'.users && w'.calls[c].phase.Refresh?
  {
    var expiresAt := w.calls[c].phase.reread.expiresAt;
    var wait := Tick(if expiresAt > w.now then expiresAt - w.now else 0);
    ReachesItself(w);
    ReachesNext(w, w, wait);
    ReachesNext(w, Step(w, wait), CheckAgain(c));
    w' := Step(Step(w, wait), CheckAgain(c));
  }

  lemma {:induction false} IsGranted(w0: World, w: World, c: CallId, u: UserId) returns (w': World)
    requires Reaches(w0, w) && CanStore(w, c, u) && u in w.users && w.calls[c].phase.Refresh?
    ensures Reaches(w0, w') && CanStore(w', c, u) && u in w'.users && w'.calls[c].phase.Save?
  {
    var reply := Granted("a", "", 0);
    ReachesNext(w0, w, RefreshTokens(c, reply));
    w' := Step(w, RefreshTokens(c, reply));
  }

  /** A disconnect lasts, whatever happens next, exactly when no call had read the user inside its
      critical section and can still store what the server grants it; `UpdateTokens` does not look
      whether the user is still connected. */
  lemma {:induction false} DisconnectLastsIff(w: World, u: UserId)
    requires u in w.users
    ensures Lasts(Step(w, Disconnect(u)), u) <==> forall c :: !CanStore(w, c, u)
  {
    var w1 := Step(w, Disconnect(u));
    forall c ensures CanStore(w1, c, u) == CanStore(w, c, u) {
    }
    if c :| CanStore(w, c, u) {
      var w' := StoresAfterAll(w1, c, u);
    } else {
      forall w' | Reaches(w1, w') ensures !Connected(w', u) {
        var acts :| Legal(w1, acts) && Exec(w1, acts) == w';
        GoneForGood(w1, acts, u);
      }
    }
  }

  /** In every run at most one call can undo it. */
  lemma {:induction false} OneCanStore(w: World, acts: seq<Action>, c: CallId, d: CallId, u: UserId)
    requires Initial(w) && Legal(w, acts) && CanStore(Exec(w, acts), c, u) && CanStore(Exec(w, acts), d, u)
    ensures c == d
  {
    TokenRun(w, acts);
    SectionIsExclusive(Exec(w, acts), c, d);
  }

  predicate NoSite(w: World, u: UserId) {
    u in w.users && w.users[u].cloudId == "" && w.users[u].siteUrl == "" && w.users[u].accountId == ""
  }

  lemma {:induction false} NoSiteStays(w: World, a: Action, u: UserId)
    requires NoSite(w, u) && Enabled(w, a)
    ensures NoSite(Step(w, a), u)
  {
  }

  /** Whoever is connected again that way has tokens and no site, cloud or account. */
  lemma {:induction false} RevivedWithoutSite(w: World, acts: seq<Action>, u: UserId)
    requires NoSite(w, u) && Legal(w, acts)
    ensures NoSite(Exec(w, acts), u)
    decreases |acts|
  {
    if acts == [] {
    } else {
      var init := acts[..|acts| - 1];
      RevivedWithoutSite(w, init, u);
      NoSiteStays(Exec(w, init), acts[|acts| - 1], u);
    }
  }

  /** Such a disconnect happens: a lease of a user whose token is stale has read it again as the user
      disconnects, and connects the user again, without a site. */
  lemma {:induction false} RefreshUndoesDisconnect(w: World, u: UserId) returns (before: World, after: World)
    requires Initial(w) && u != 0 && Connected(w, u) && w.users[u].expiresAt <= w.now + REFRESH_SKEW
    ensures Reaches(w, before) && Reaches(Step(before, Disconnect(u)), after)
    ensures Connected(after, u) && NoSite(after, u)
  {
    ReachesItself(w);
    before := UpToRefresh(w, w, 0, Request(u, 0), 0);
    var gone := Step(before, Disconnect(u));
    assert CanStore(gone, 0, u) && NoSite(gone, u);
    after := StoresAfterAll(gone, 0, u);
    var acts :| Legal(gone, acts) && Exec(gone, acts) == after;
    RevivedWithoutSite(gone, acts, u);
  }
}
