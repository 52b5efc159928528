/**
  What a lease of internal/identity/provider.go returns, over whole runs of the protocol: where its
  token comes from, whose record the rest is, what each error means, and when the server is asked.
*/
module LeaseResults {
  import opened TokenLease

  // ---------------------------------------------------------------- where a token comes from

  /** The server granted this access token, with this expiry, to a refresh of this user in the run. */
  ghost predicate GrantedIn(w: World, acts: seq<Action>, u: UserId, access: Token, expiresAt: int)
    requires Legal(w, acts)
    decreases |acts|
  {
    acts != [] &&
    var init, a := acts[..|acts| - 1], acts[|acts| - 1];
    var at := Exec(w, init);
    || GrantedIn(w, init, u, access, expiresAt)
    || (&& a.RefreshTokens? && a.reply.Granted? && at.calls[a.c].req.telegramId == u
        && access == a.reply.access && expiresAt == at.now + a.reply.expiresIn)
  }

  /** The pair is the one stored for this user at the start, or was granted to it since. */
  ghost predicate Genuine(w: World, acts: seq<Action>, u: UserId, access: Token, expiresAt: int)
    requires Legal(w, acts)
  {
    || (u in w.users && w.users[u].accessToken != ""
        && access == w.users[u].accessToken && expiresAt == w.users[u].expiresAt)
    || GrantedIn(w, acts, u, access, expiresAt)
  }

  /** The site is that of this user's record, or empty after a disconnect. */
  ghost predicate OwnSite(w: World, acts: seq<Action>, u: UserId, cloudId: string, siteUrl: string, accountId: string) {
    && u in w.users
    && (|| (cloudId == w.users[u].cloudId && siteUrl == w.users[u].siteUrl && accountId == w.users[u].accountId)
        || (cloudId == "" && siteUrl == "" && accountId == "" && Disconnect(u) in acts))
  }

  ghost predicate GoodRecord(w: World, acts: seq<Action>, u: UserId, user: User)
    requires Legal(w, acts)
  {
    && OwnSite(w, acts, u, user.cloudId, user.siteUrl, user.accountId)
    && (user.accessToken != "" ==> Genuine(w, acts, u, user.accessToken, user.expiresAt))
  }

  ghost predicate GoodResponse(w: World, acts: seq<Action>, u: UserId, r: Response)
    requires Legal(w, acts)
  {
    OwnSite(w, acts, u, r.cloudId, r.siteUrl, r.accountId) && Genuine(w, acts, u, r.accessToken, r.expiresAt)
  }

  ghost predicate GoodPhase(w: World, acts: seq<Action>, u: UserId, p: Phase)
    requires Legal(w, acts)
  {
    match p
    case FastCheck(user) => user.accessToken != "" && GoodRecord(w, acts, u, user)
    case SecondCheck(_, reread) => reread.accessToken != "" && GoodRecord(w, acts, u, reread)
    case Refresh(_, reread) => GoodRecord(w, acts, u, reread)
    case Save(_, _, response, _, _) => GoodResponse(w, acts, u, response)
    case Unlock(_, result) => result.Leased? ==> GoodResponse(w, acts, u, result.response)
    case Finished(result) => result.Leased? ==> GoodResponse(w, acts, u, result.response)
    case _ => true
  }

  /** What holds of the store and of every call after the actions `acts`. */
  ghost predicate Sound(w: World, acts: seq<Action>)
    requires Legal(w, acts)
  {
    && (forall u :: u in Exec(w, acts).users ==> GoodRecord(w, acts, u, Exec(w, acts).users[u]))
    && (forall c :: c in Exec(w, acts).calls ==>
          GoodPhase(w, acts, Exec(w, acts).calls[c].req.telegramId, Exec(w, acts).calls[c].phase))
  }

  lemma {:induction false} OneMore(w: World, acts: seq<Action>, a: Action)
    requires Legal(w, acts) && Enabled(Exec(w, acts), a)
    ensures Legal(w, acts + [a]) && Exec(w, acts + [a]) == Step(Exec(w, acts), a)
    ensures forall u, access, expiresAt :: GrantedIn(w, acts + [a], u, access, expiresAt) <==>
              || GrantedIn(w, acts, u, access, expiresAt)
              || (&& a.RefreshTokens? && a.reply.Granted? && Exec(w, acts).calls[a.c].req.telegramId == u
                  && access == a.reply.access && expiresAt == Exec(w, acts).now + a.reply.expiresIn)
  {
    assert (acts + [a])[..|acts|] == acts;
  }

  lemma {:induction false} RecordStays(w: World, acts: seq<Action>, a: Action, u: UserId, user: User)
    requires Legal(w, acts) && Enabled(Exec(w, acts), a) && GoodRecord(w, acts, u, user)
    ensures Legal(w, acts + [a]) && GoodRecord(w, acts + [a], u, user)
  {
    OneMore(w, acts, a);
  }

  lemma {:induction false} ResponseStays(w: World, acts: seq<Action>, a: Action, u: UserId, r: Response)
    requires Legal(w, acts) && Enabled(Exec(w, acts), a) && GoodResponse(w, acts, u, r)
    ensures Legal(w, acts + [a]) && GoodResponse(w, acts + [a], u, r)
  {
    OneMore(w, acts, a);
  }

  lemma {:induction false} PhaseStays(w: World, acts: seq<Action>, a: Action, u: UserId, p: Phase)
    requires Legal(w, acts) && Enabled(Exec(w, acts), a) && GoodPhase(w, acts, u, p)
    ensures Legal(w, acts + [a]) && GoodPhase(w, acts + [a], u, p)
  {
    OneMore(w, acts, a);
    match p
    case FastCheck(user) => RecordStays(w, acts, a, u, user);
    case SecondCheck(_, reread) => RecordStays(w, acts, a, u, reread);
    case Refresh(_, reread) => RecordStays(w, acts, a, u, reread);
    case Save(_, _, response, _, _) => ResponseStays(w, acts, a, u, response);
    case Unlock(_, result) => if result.Leased? { ResponseStays(w, acts, a, u, result.response); }
    case Finished(result) => if result.Leased? { ResponseStays(w, acts, a, u, result.response); }
    case _ =>
  }

  /** The call that acts. */
  lemma {:induction false} ActorStaysSound(w: World, acts: seq<Action>, a: Action)
    requires Legal(w, acts) && Enabled(Exec(w, acts), a) && Sound(w, acts)
    requires !a.Tick? && !a.Disconnect? && !a.Begin?
    ensures Legal(w, acts + [a])
    ensures var w' := Exec(w, acts + [a]);
            a.c in w'.calls && GoodPhase(w, acts + [a], w'.calls[a.c].req.telegramId, w'.calls[a.c].phase)
  {
    OneMore(w, acts, a);
    var at := Exec(w, acts);
    var u, p := at.calls[a.c].req.telegramId, at.calls[a.c].phase;
    RequestStays(at, a, a.c);
    PhaseStays(w, acts, a, u, p);
    if a.ReadUser? || a.ReReadUser? {
      if u in at.users { RecordStays(w, acts, a, u, at.users[u]); }
      ReadIsSound(w, acts, a);
    } else if a.RefreshTokens? {
      RefreshIsSound(w, acts, a);
    } else {
      MoveIsSound(w, acts, a);
    }
  }

  lemma {:induction false} ReadIsSound(w: World, acts: seq<Action>, a: Action)
    requires Legal(w, acts) && Enabled(Exec(w, acts), a) && (a.ReadUser? || a.ReReadUser?) && Legal(w, acts + [a])
    requires var at, u := Exec(w, acts), Exec(w, acts).calls[a.c].req.telegramId;
             u in at.users ==> GoodRecord(w, acts + [a], u, at.users[u])
    ensures var at := Exec(w, acts);
            GoodPhase(w, acts + [a], at.calls[a.c].req.telegramId, Step(at, a).calls[a.c].phase)
  {
  }

  lemma {:induction false} RefreshIsSound(w: World, acts: seq<Action>, a: Action)
    requires Legal(w, acts) && Enabled(Exec(w, acts), a) && Legal(w, acts + [a]) && a.RefreshTokens?
    requires GoodPhase(w, acts + [a], Exec(w, acts).calls[a.c].req.telegramId, Exec(w, acts).calls[a.c].phase)
    ensures var at := Exec(w, acts);
            GoodPhase(w, acts + [a], at.calls[a.c].req.telegramId, Step(at, a).calls[a.c].phase)
  {
    OneMore(w, acts, a);
  }

  lemma {:induction false} MoveIsSound(w: World, acts: seq<Action>, a: Action)
    requires Legal(w, acts) && Enabled(Exec(w, acts), a) && Legal(w, acts + [a])
    requires !a.Tick? && !a.Disconnect? && !a.Begin? && !a.ReadUser? && !a.ReReadUser? && !a.RefreshTokens?
    requires GoodPhase(w, acts + [a], Exec(w, acts).calls[a.c].req.telegramId, Exec(w, acts).calls[a.c].phase)
    ensures var at := Exec(w, acts);
            GoodPhase(w, acts + [a], at.calls[a.c].req.telegramId, Step(at, a).calls[a.c].phase)
  {
  }

  lemma {:induction false} StoreStaysSound(w: World, acts: seq<Action>, a: Action, u: UserId)
    requires Legal(w, acts) && Enabled(Exec(w, acts), a) && Sound(w, acts) && u in Step(Exec(w, acts), a).users
    ensures Legal(w, acts + [a]) && GoodRecord(w, acts + [a], u, Exec(w, acts + [a]).users[u])
  {
    OneMore(w, acts, a);
    var at := Exec(w, acts);
    assert u in at.users;
    RecordStays(w, acts, a, u, at.users[u]);
    if a == Disconnect(u) {
      assert (acts + [a])[|acts|] == a;
    }
    if a.SaveTokens? {
      PhaseStays(w, acts, a, at.calls[a.c].req.telegramId, at.calls[a.c].phase);
    }
  }

  lemma {:induction false} StepStaysSound(w: World, acts: seq<Action>, a: Action)
    requires Legal(w, acts) && Enabled(Exec(w, acts), a) && Sound(w, acts)
    ensures Legal(w, acts + [a]) && Sound(w, acts + [a])
  {
    OneMore(w, acts, a);
    var at, w' := Exec(w, acts), Exec(w, acts + [a]);
    forall u | u in w'.users ensures GoodRecord(w, acts + [a], u, w'.users[u]) {
      StoreStaysSound(w, acts, a, u);
    }
    forall c | c in w'.calls
      ensures GoodPhase(w, acts + [a], w'.calls[c].req.telegramId, w'.calls[c].phase) {
      if !a.Tick? && !a.Disconnect? && !a.Begin? && a.c == c {
        ActorStaysSound(w, acts, a);
      } else if c in at.calls {
        CallsAdvance(at, a, c);
        PhaseStays(w, acts, a, at.calls[c].req.telegramId, at.calls[c].phase);
      }
    }
  }

  lemma {:induction false} RunIsSound(w: World, acts: seq<Action>)
    requires Initial(w) && Legal(w, acts)
    ensures Sound(w, acts)
    decreases |acts|
  {
    if acts == [] {
    } else {
      var init, a := acts[..|acts| - 1], acts[|acts| - 1];
      RunIsSound(w, init);
      StepStaysSound(w, init, a);
      assert init + [a] == acts;
    }
  }

  /** In every run, a lease that succeeds returns the access token and expiry that the store held for
      this very user at the start, or that the server has granted to it since; and the cloud, site and
      account of this user's record, which are empty after a disconnect. */
  lemma {:induction false} LeaseIsGenuine(w: World, acts: seq<Action>, c: CallId, r: Response)
    requires Initial(w) && Legal(w, acts) && c in Exec(w, acts).calls
    requires Exec(w, acts).calls[c].phase == Finished(Leased(r))
    ensures var u := Exec(w, acts).calls[c].req.telegramId;
            && u in w.users
            && (|| (w.users[u].accessToken != "" && r.accessToken == w.users[u].accessToken
                    && r.expiresAt == w.users[u].expiresAt)
                || GrantedIn(w, acts, u, r.accessToken, r.expiresAt))
            && (|| (&& r.cloudId == w.users[u].cloudId && r.siteUrl == w.users[u].siteUrl
                    && r.accountId == w.users[u].accountId)
                || (r.cloudId == "" && r.siteUrl == "" && r.accountId == "" && Disconnect(u) in acts))
  {
    RunIsSound(w, acts);
    assert GoodPhase(w, acts, Exec(w, acts).calls[c].req.telegramId, Exec(w, acts).calls[c].phase);
  }

  /** The same of every connected user in the store: saving writes what was granted, to the user it was
      granted to, and leaves the site alone. */
  lemma {:induction false} StoreIsGenuine(w: World, acts: seq<Action>, u: UserId)
    requires Initial(w) && Legal(w, acts) && u in Exec(w, acts).users && Exec(w, acts).users[u].accessToken != ""
    ensures var user := Exec(w, acts).users[u];
            && u in w.users
            && (|| (user.accessToken == w.users[u].accessToken && user.expiresAt == w.users[u].expiresAt)
                || GrantedIn(w, acts, u, user.accessToken, user.expiresAt))
            && (|| (&& user.cloudId == w.users[u].cloudId && user.siteUrl == w.users[u].siteUrl
                    && user.accountId == w.users[u].accountId)
                || (user.cloudId == "" && user.siteUrl == "" && user.accountId == "" && Disconnect(u) in acts))
  {
    RunIsSound(w, acts);
    assert GoodRecord(w, acts, u, Exec(w, acts).users[u]);
  }

  // ---------------------------------------------------------------- what an error means

  /** Reading the user fails, or finds nobody connected. */
  predicate ReadFails(at: World, u: UserId, fails: bool, e: LeaseError) {
    if fails then e == StoreFailed else e == NotConnected && !(u in at.users && at.users[u].accessToken != "")
  }

  /** This action is the reason for the call to fail with this error. */
  ghost predicate Causes(at: World, a: Action, c: CallId, e: LeaseError)
    requires Enabled(at, a)
  {
    match a
    case Begin(d, req) => d == c && req.telegramId == 0 && e == InvalidRequest
    case ReadUser(d, fails) => d == c && ReadFails(at, at.calls[d].req.telegramId, fails, e)
    case ReReadUser(d, fails) => d == c && ReadFails(at, at.calls[d].req.telegramId, fails, e)
    case RefreshTokens(d, reply) =>
      && d == c
      && ((reply == InvalidGrant && e == InvalidRefreshToken)
          || ((reply == ServerError || reply.AnswerLost?) && e == RefreshFailed))
    case SaveTokens(d, fails) => d == c && fails && e == StoreFailed
    case _ => false
  }

  ghost predicate CausedIn(w: World, acts: seq<Action>, c: CallId, e: LeaseError)
    requires Legal(w, acts)
    decreases |acts|
  {
    acts != [] &&
    var init, a := acts[..|acts| - 1], acts[|acts| - 1];
    CausedIn(w, init, c, e) || Causes(Exec(w, init), a, c, e)
  }

  predicate FailsWith(p: Phase, e: LeaseError) {
    (p.Unlock? || p.Finished?) && p.result == Failed(e)
  }

  lemma {:induction false} StepCauses(at: World, a: Action, c: CallId, e: LeaseError)
    requires Enabled(at, a) && c in Step(at, a).calls
    ensures FailsWith(Step(at, a).calls[c].phase, e) <==>
              Causes(at, a, c, e) || (c in at.calls && FailsWith(at.calls[c].phase, e))
  {
    if c in at.calls { CallsAdvance(at, a, c); }
    if a.Begin? || a.Tick? || a.Disconnect? || a.c != c {
    } else if a.RefreshTokens? || a.SaveTokens? {
      ServerOrSaveCauses(at, a, c, e);
    } else {
      ReadCauses(at, a, c, e);
    }
  }

  lemma {:induction false} ServerOrSaveCauses(at: World, a: Action, c: CallId, e: LeaseError)
    requires Enabled(at, a) && c in at.calls && (a.RefreshTokens? || a.SaveTokens?) && a.c == c
    ensures FailsWith(Step(at, a).calls[c].phase, e) <==> Causes(at, a, c, e)
    ensures !FailsWith(at.calls[c].phase, e)
  {
  }

  lemma {:induction false} ReadCauses(at: World, a: Action, c: CallId, e: LeaseError)
    requires Enabled(at, a) && c in at.calls && OfCall(a, c) && !a.RefreshTokens? && !a.SaveTokens?
    ensures FailsWith(Step(at, a).calls[c].phase, e) <==> Causes(at, a, c, e) || FailsWith(at.calls[c].phase, e)
  {
  }

  lemma {:induction false} NoCauseBefore(w: World, acts: seq<Action>, c: CallId, e: LeaseError)
    requires Initial(w) && Legal(w, acts) && c !in Exec(w, acts).calls
    ensures !CausedIn(w, acts, c, e)
    decreases |acts|
  {
    if acts == [] {
    } else {
      var init := acts[..|acts| - 1];
      CallsStay(Exec(w, init), acts[|acts| - 1], c);
      NoCauseBefore(w, init, c, e);
    }
  }

  lemma {:induction false} CallsStay(at: World, a: Action, c: CallId)
    requires Enabled(at, a)
    ensures c in at.calls ==> c in Step(at, a).calls
    ensures forall e :: Causes(at, a, c, e) ==> c in Step(at, a).calls
  {
  }

  lemma {:induction false} FailureHasItsCause(w: World, acts: seq<Action>, c: CallId, e: LeaseError)
    requires Initial(w) && Legal(w, acts) && c in Exec(w, acts).calls
    ensures FailsWith(Exec(w, acts).calls[c].phase, e) <==> CausedIn(w, acts, c, e)
    decreases |acts|
  {
    if acts == [] {
    } else {
      var init, a := acts[..|acts| - 1], acts[|acts| - 1];
      var at := Exec(w, init);
      StepCauses(at, a, c, e);
      if c in at.calls {
        FailureHasItsCause(w, init, c, e);
      } else {
        NoCauseBefore(w, init, c, e);
      }
    }
  }

  /** In every run a finished lease has failed with an error exactly when that very thing happened to it:
      no user was named, a read or the save failed, a read found nobody connected, the server refused
      the refresh token, or the refresh failed or its answer was lost. */
  lemma {:induction false} ErrorIff(w: World, acts: seq<Action>, c: CallId, e: LeaseError)
    requires Initial(w) && Legal(w, acts) && c in Exec(w, acts).calls && Exec(w, acts).calls[c].phase.Finished?
    ensures Exec(w, acts).calls[c].phase.result == Failed(e) <==> CausedIn(w, acts, c, e)
  {
    FailureHasItsCause(w, acts, c, e);
  }

  // ---------------------------------------------------------------- when the server is asked

  /** The token would not outlive a minute, or the TTL asked for. */
  predicate Stale(user: User, req: Request, now: int) {
    user.expiresAt <= now + 60 || user.expiresAt <= now + req.minTtlSeconds
  }

  /** The token that the call read first was stale as it looked at it. */
  ghost predicate SawStale(w: World, acts: seq<Action>, c: CallId)
    requires Legal(w, acts)
    decreases |acts|
  {
    acts != [] &&
    var init, a := acts[..|acts| - 1], acts[|acts| - 1];
    var at := Exec(w, init);
    SawStale(w, init, c) || (a == CheckFast(c) && Stale(at.calls[c].phase.user, at.calls[c].req, at.now))
  }

  /** What the phase of a call says about what it saw. */
  ghost predicate Justified(w: World, acts: seq<Action>, c: CallId)
    requires Legal(w, acts) && c in Exec(w, acts).calls
  {
    var at := Exec(w, acts);
    var p := at.calls[c].phase;
    && (p.LookUpLock? || p.Acquire? || InSection(p) ==> SawStale(w, acts, c))
    && (p.Refresh? ==> Stale(p.reread, at.calls[c].req, at.now))
  }

  lemma {:induction false} CallsAreJustified(w: World, acts: seq<Action>, c: CallId)
    requires Initial(w) && Legal(w, acts) && c in Exec(w, acts).calls
    ensures Justified(w, acts, c)
    decreases |acts|
  {
    if acts == [] {
    } else {
      var init, a := acts[..|acts| - 1], acts[|acts| - 1];
      if c in Exec(w, init).calls {
        CallsAreJustified(w, init, c);
        StaleStays(Exec(w, init), a, c);
      }
    }
  }

  lemma {:induction false} StaleStays(at: World, a: Action, c: CallId)
    requires Enabled(at, a) && c in at.calls
    ensures var p, call := at.calls[c].phase, Step(at, a).calls[c];
            && call.req == at.calls[c].req && Step(at, a).now >= at.now
            && (call.phase.LookUpLock? || call.phase.Acquire? || InSection(call.phase) ==>
                  || p.LookUpLock? || p.Acquire? || InSection(p)
                  || (a == CheckFast(c) && Stale(p.user, call.req, at.now)))
            && (call.phase.Refresh? ==>
                  (p == call.phase || Stale(call.phase.reread, call.req, at.now)))
  {
  }

  /** In every run, a call asks for the mutex only when the token it read was stale, and asks the server
      only when the one it re-read under the mutex was too. */
  lemma {:induction false} RefreshOnlyWhenStale(w: World, acts: seq<Action>, c: CallId, m: MutexId, reply: Reply)
    requires Initial(w) && Legal(w, acts)
    ensures Enabled(Exec(w, acts), FindLock(c, m)) ==> SawStale(w, acts, c)
    ensures Enabled(Exec(w, acts), RefreshTokens(c, reply)) ==>
              var call := Exec(w, acts).calls[c];
              && SawStale(w, acts, c)
              && (call.phase.reread.expiresAt <= Exec(w, acts).now + 60
                  || call.phase.reread.expiresAt <= Exec(w, acts).now + call.req.minTtlSeconds)
  {
    if c in Exec(w, acts).calls { CallsAreJustified(w, acts, c); }
  }

  // ---------------------------------------------------------------- the token of a call's own refresh

  /** What the server grants to this call by this action, if anything. */
  function GrantBy(at: World, a: Action, c: CallId): seq<(Token, int)> {
    if a.RefreshTokens? && a.c == c && a.reply.Granted? then [(a.reply.access, at.now + a.reply.expiresIn)] else []
  }

  ghost function GrantsTo(w: World, acts: seq<Action>, c: CallId): seq<(Token, int)>
    requires Legal(w, acts)
    decreases |acts|
  {
    if acts == [] then []
    else
      var init := acts[..|acts| - 1];
      GrantsTo(w, init, c) + GrantBy(Exec(w, init), acts[|acts| - 1], c)
  }

  /** A call that was granted tokens has them in hand, and one that was not has asked for none yet. */
  predicate Holds(p: Phase, grants: seq<(Token, int)>) {
    match p
    case Save(_, _, response, _, _) => grants == [(response.accessToken, response.expiresAt)]
    case Unlock(_, result) => Returns(result, grants)
    case Finished(result) => Returns(result, grants)
    case _ => grants == []
  }

  predicate Returns(result: Result, grants: seq<(Token, int)>) {
    grants == [] ||
    (|grants| == 1 && match result
                      case Leased(r) => grants[0] == (r.accessToken, r.expiresAt)
                      case Failed(e) => e == StoreFailed)
  }

  lemma {:induction false} GrantIsHeld(at: World, a: Action, c: CallId, grants: seq<(Token, int)>)
    requires Enabled(at, a) && c in at.calls && Holds(at.calls[c].phase, grants)
    ensures c in Step(at, a).calls && Holds(Step(at, a).calls[c].phase, grants + GrantBy(at, a, c))
  {
    CallsAdvance(at, a, c);
    assert grants + [] == grants;
    if OfCall(a, c) {
      if a.RefreshTokens? {
        GrantIsReceived(at, c, a.reply, grants);
      } else {
        GrantIsKept(at, a, c, grants);
      }
    }
  }

  lemma {:induction false} GrantIsReceived(at: World, c: CallId, reply: Reply, grants: seq<(Token, int)>)
    requires Enabled(at, RefreshTokens(c, reply)) && Holds(at.calls[c].phase, grants)
    ensures Holds(Step(at, RefreshTokens(c, reply)).calls[c].phase,
                  grants + GrantBy(at, RefreshTokens(c, reply), c))
  {
  }

  lemma {:induction false} GrantIsKept(at: World, a: Action, c: CallId, grants: seq<(Token, int)>)
    requires Enabled(at, a) && c in at.calls && Holds(at.calls[c].phase, grants) && OfCall(a, c) && !a.RefreshTokens?
    ensures c in Step(at, a).calls && Holds(Step(at, a).calls[c].phase, grants)
  {
  }

  lemma {:induction false} GrantsOnlyToCalls(w: World, acts: seq<Action>, c: CallId)
    requires Initial(w) && Legal(w, acts) && c !in Exec(w, acts).calls
    ensures GrantsTo(w, acts, c) == []
    decreases |acts|
  {
    if acts == [] {
    } else {
      var init := acts[..|acts| - 1];
      CallsStay(Exec(w, init), acts[|acts| - 1], c);
      GrantsOnlyToCalls(w, init, c);
    }
  }

  lemma {:induction false} GrantsAreHeld(w: World, acts: seq<Action>, c: CallId)
    requires Initial(w) && Legal(w, acts) && c in Exec(w, acts).calls
    ensures Holds(Exec(w, acts).calls[c].phase, GrantsTo(w, acts, c))
    decreases |acts|
  {
    if acts == [] {
    } else {
      var init, a := acts[..|acts| - 1], acts[|acts| - 1];
      if c in Exec(w, init).calls {
        GrantsAreHeld(w, init, c);
        GrantIsHeld(Exec(w, init), a, c, GrantsTo(w, init, c));
      } else {
        GrantsOnlyToCalls(w, init, c);
      }
    }
  }

  /** A call is granted tokens at most once, and if it succeeds after that, it returns these; it fails
      after that only when they could not be saved. */
  lemma {:induction false} OwnGrantIsReturned(w: World, acts: seq<Action>, c: CallId)
    requires Initial(w) && Legal(w, acts) && c in Exec(w, acts).calls && Exec(w, acts).calls[c].phase.Finished?
    requires GrantsTo(w, acts, c) != []
    ensures |GrantsTo(w, acts, c)| == 1
    ensures match Exec(w, acts).calls[c].phase.result
            case Leased(r) => GrantsTo(w, acts, c)[0] == (r.accessToken, r.expiresAt)
            case Failed(e) => e == StoreFailed
  {
    GrantsAreHeld(w, acts, c);
  }
}
