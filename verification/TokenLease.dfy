/**
  The token lease protocol of internal/identity/provider.go.

  Any number of `Lease` calls run at once. A call reads the user, answers at once when the
  stored token lasts long enough, and otherwise refreshes it under that user's mutex after
  reading the user again. The authorization server keeps one live refresh token per user and
  may rotate it on every refresh (section 6 of RFC 6749).

  The protocol is a step system: `Enabled` and `Step` give one atomic action of one call, of the
  clock or of the disconnect command, and a run is a sequence of actions.
*/
module TokenLease {

  type UserId = int
  type CallId = nat
  type MutexId = nat
  type Token = string // "" means "no token"

  datatype User = User(accessToken: Token, refreshToken: Token, expiresAt: int,
                       cloudId: string, siteUrl: string, accountId: string)

  datatype Request = Request(telegramId: UserId, minTtlSeconds: int)

  datatype LeaseError = InvalidRequest | NotConnected | InvalidRefreshToken | RefreshFailed | StoreFailed

  datatype Response = Response(accessToken: Token, expiresAt: int,
                               cloudId: string, siteUrl: string, accountId: string)

  datatype Result = Leased(response: Response) | Failed(error: LeaseError)

  const REFRESH_SKEW := 60 // seconds

  function EffectiveTtl(req: Request): int {
    if req.minTtlSeconds < REFRESH_SKEW then REFRESH_SKEW else req.minTtlSeconds
  }

  function BuildResponse(user: User): Response {
    Response(user.accessToken, user.expiresAt, user.cloudId, user.siteUrl, user.accountId)
  }

  /** Where a call stands; each constructor is the point just before one atomic action. */
  datatype Phase =
    | FirstRead
    | FastCheck(user: User)
    | LookUpLock
    | Acquire(mu: MutexId)
    | SecondRead(mu: MutexId)
    | SecondCheck(mu: MutexId, reread: User)
    | Refresh(mu: MutexId, reread: User)
    | Save(mu: MutexId, reread: User, response: Response, newRefresh: Token, refreshedAt: int)
    | Unlock(mu: MutexId, result: Result)
    | Finished(result: Result)

  /** `startedAt` is a history variable: the clock when the call began. */
  datatype Call = Call(req: Request, startedAt: int, phase: Phase)

  /** The authorization server: the live refresh token of each user, every refresh token ever
      issued, and those that a rotation has put out of use. */
  datatype Server = Server(live: map<UserId, Token>, issued: set<Token>, retired: set<Token>)

  /** `refreshed` is a history variable: the times of the saved refreshes of each user. */
  datatype World = World(now: int,
                         users: map<UserId, User>,
                         tokenLocks: map<UserId, MutexId>,
                         heldBy: map<MutexId, CallId>,
                         calls: map<CallId, Call>,
                         server: Server,
                         refreshed: map<UserId, seq<int>>)

  /** What a refresh request leads to. `Granted.refresh` is "" when the server leaves the refresh
      token out of its answer; `AnswerLost` is a rotation whose answer never arrives. */
  datatype Reply =
    | Granted(access: Token, refresh: Token, expiresIn: int)
    | InvalidGrant
    | ServerError
    | AnswerLost(rotatedTo: Token)

  datatype Action =
    | Tick(delta: nat)
    | Begin(c: CallId, req: Request)
    | ReadUser(c: CallId, fails: bool)
    | CheckFast(c: CallId)
    | FindLock(c: CallId, newMutex: MutexId)
    | AcquireLock(c: CallId)
    | ReReadUser(c: CallId, fails: bool)
    | CheckAgain(c: CallId)
    | RefreshTokens(c: CallId, reply: Reply)
    | SaveTokens(c: CallId, fails: bool)
    | ReleaseLock(c: CallId)
    | Disconnect(u: UserId)

  function UserOf(call: Call): UserId { call.req.telegramId }

  predicate IsLive(s: Server, u: UserId, t: Token) {
    u in s.live && s.live[u] == t
  }

  function AllMutexes(w: World): set<MutexId> { w.tokenLocks.Values }

  predicate Rotates(presented: Token, reply: Reply) {
    reply.AnswerLost? || (reply.Granted? && reply.refresh != "" && reply.refresh != presented)
  }

  function RotatedTo(reply: Reply): Token
    requires reply.AnswerLost? || reply.Granted?
  {
    if reply.AnswerLost? then reply.rotatedTo else reply.refresh
  }

  /** The server answers a live token with anything but InvalidGrant, and rotates only to a token
      it never issued before; any other token it refuses. */
  predicate ServerMayReply(s: Server, u: UserId, presented: Token, reply: Reply) {
    if IsLive(s, u, presented) then
      && reply != InvalidGrant
      && (reply.AnswerLost? ==> reply.rotatedTo != "")
      && (Rotates(presented, reply) ==> RotatedTo(reply) !in s.issued)
    else
      reply == InvalidGrant || reply == ServerError
  }

  predicate Enabled(w: World, a: Action) {
    match a
    case Tick(_) => true
    case Begin(c, _) => c !in w.calls
    case ReadUser(c, _) => c in w.calls && w.calls[c].phase.FirstRead?
    case CheckFast(c) => c in w.calls && w.calls[c].phase.FastCheck?
    case FindLock(c, m) => c in w.calls && w.calls[c].phase.LookUpLock? && m !in AllMutexes(w)
    case AcquireLock(c) => c in w.calls && w.calls[c].phase.Acquire? && w.calls[c].phase.mu !in w.heldBy
    case ReReadUser(c, _) => c in w.calls && w.calls[c].phase.SecondRead?
    case CheckAgain(c) => c in w.calls && w.calls[c].phase.SecondCheck?
    case RefreshTokens(c, reply) =>
      && c in w.calls && w.calls[c].phase.Refresh?
      && ServerMayReply(w.server, UserOf(w.calls[c]), w.calls[c].phase.reread.refreshToken, reply)
    case SaveTokens(c, _) => c in w.calls && w.calls[c].phase.Save?
    case ReleaseLock(c) => c in w.calls && w.calls[c].phase.Unlock?
    case Disconnect(_) => true
  }

  function Moved(w: World, c: CallId, p: Phase): World
    requires c in w.calls
  {
    w.(calls := w.calls[c := w.calls[c].(phase := p)])
  }

  /** The user as the store returns it: absent, or present with a token, or present without. */
  predicate Connected(w: World, u: UserId) {
    u in w.users && w.users[u].accessToken != ""
  }

  function ServerAfter(s: Server, u: UserId, presented: Token, reply: Reply): Server {
    if Rotates(presented, reply) then
      Server(s.live[u := RotatedTo(reply)], s.issued + {RotatedTo(reply)}, s.retired + {presented})
    else s
  }

  function Step(w: World, a: Action): World
    requires Enabled(w, a)
  {
    match a
    case Tick(delta) => w.(now := w.now + delta)
    case Begin(c, req) =>
      var phase := if req.telegramId == 0 then Finished(Failed(InvalidRequest)) else FirstRead;
      w.(calls := w.calls[c := Call(req, w.now, phase)])
    case ReadUser(c, fails) =>
      var u := UserOf(w.calls[c]);
      Moved(w, c, if fails then Finished(Failed(StoreFailed))
                  else if !Connected(w, u) then Finished(Failed(NotConnected))
                  else FastCheck(w.users[u]))
    case CheckFast(c) =>
      var user := w.calls[c].phase.user;
      Moved(w, c, if w.now + EffectiveTtl(w.calls[c].req) < user.expiresAt
                  then Finished(Leased(BuildResponse(user)))
                  else LookUpLock)
    case FindLock(c, newMutex) =>
      var u := UserOf(w.calls[c]);
      if u in w.tokenLocks then Moved(w, c, Acquire(w.tokenLocks[u]))
      else Moved(w.(tokenLocks := w.tokenLocks[u := newMutex]), c, Acquire(newMutex))
    case AcquireLock(c) =>
      var mu := w.calls[c].phase.mu;
      Moved(w.(heldBy := w.heldBy[mu := c]), c, SecondRead(mu))
    case ReReadUser(c, fails) =>
      var u, mu := UserOf(w.calls[c]), w.calls[c].phase.mu;
      Moved(w, c, if fails then Unlock(mu, Failed(StoreFailed))
                  else if !Connected(w, u) then Unlock(mu, Failed(NotConnected))
                  else SecondCheck(mu, w.users[u]))
    case CheckAgain(c) =>
      var reread, mu := w.calls[c].phase.reread, w.calls[c].phase.mu;
      Moved(w, c, if w.now + EffectiveTtl(w.calls[c].req) < reread.expiresAt
                  then Unlock(mu, Leased(BuildResponse(reread)))
                  else Refresh(mu, reread))
    case RefreshTokens(c, reply) =>
      var u, mu, reread := UserOf(w.calls[c]), w.calls[c].phase.mu, w.calls[c].phase.reread;
      var w' := w.(server := ServerAfter(w.server, u, reread.refreshToken, reply));
      Moved(w', c,
        match reply
        case Granted(access, refresh, expiresIn) =>
          Save(mu, reread,
               Response(access, w.now + expiresIn, reread.cloudId, reread.siteUrl, reread.accountId),
               if refresh != "" then refresh else reread.refreshToken,
               w.now)
        case InvalidGrant => Unlock(mu, Failed(InvalidRefreshToken))
        case ServerError => Unlock(mu, Failed(RefreshFailed))
        case AnswerLost(_) => Unlock(mu, Failed(RefreshFailed)))
    case SaveTokens(c, fails) =>
      var u, p := UserOf(w.calls[c]), w.calls[c].phase;
      if fails then Moved(w, c, Unlock(p.mu, Failed(StoreFailed)))
      else
        var users' := if u in w.users
                      then w.users[u := w.users[u].(accessToken := p.response.accessToken,
                                                    refreshToken := p.newRefresh,
                                                    expiresAt := p.response.expiresAt)]
                      else w.users;
        Moved(w.(users := users', refreshed := w.refreshed[u := Log(w, u) + [p.refreshedAt]]),
              c, Unlock(p.mu, Leased(p.response)))
    case ReleaseLock(c) =>
      var p := w.calls[c].phase;
      Moved(w.(heldBy := w.heldBy - {p.mu}), c, Finished(p.result))
    case Disconnect(u) =>
      if u in w.users
      then w.(users := w.users[u := User("", "", 0, "", "", "")])
      else w
  }

  function Log(w: World, u: UserId): seq<int> {
    if u in w.refreshed then w.refreshed[u] else []
  }

  // ---------------------------------------------------------------- runs

  ghost predicate Legal(w: World, acts: seq<Action>)
    decreases |acts|, 0
  {
    acts == [] ||
    var init, last := acts[..|acts| - 1], acts[|acts| - 1];
    Legal(w, init) && Enabled(Exec(w, init), last)
  }

  ghost function Exec(w: World, acts: seq<Action>): World
    requires Legal(w, acts)
    decreases |acts|, 1
  {
    if acts == [] then w
    else Step(Exec(w, acts[..|acts| - 1]), acts[|acts| - 1])
  }

  /** A world before any lease: no call, no mutex, and each connected user's stored refresh token
      is the one the server holds live. */
  ghost predicate Initial(w: World) {
    && w.calls == map[] && w.tokenLocks == map[] && w.heldBy == map[] && w.refreshed == map[]
    && w.server.retired == {} && "" !in w.server.issued
    && (forall u :: u in w.server.live ==> w.server.live[u] in w.server.issued)
    && (forall u, v :: u in w.server.live && v in w.server.live && w.server.live[u] == w.server.live[v] ==> u == v)
    && (forall u :: Connected(w, u) ==> IsLive(w.server, u, w.users[u].refreshToken))
  }

  /** The users an action leaves without their live token in the store: a rotation whose answer
      is lost, or a failed save of a rotated token. */
  function LostBy(w: World, a: Action): set<UserId>
    requires Enabled(w, a)
  {
    match a
    case RefreshTokens(c, reply) => if reply.AnswerLost? then {UserOf(w.calls[c])} else {}
    case SaveTokens(c, fails) =>
      var p := w.calls[c].phase;
      if fails && p.newRefresh != p.reread.refreshToken then {UserOf(w.calls[c])} else {}
    case _ => {}
  }

  ghost function LostIn(w: World, acts: seq<Action>): set<UserId>
    requires Legal(w, acts)
    decreases |acts|
  {
    if acts == [] then {}
    else
      var init, last := acts[..|acts| - 1], acts[|acts| - 1];
      LostIn(w, init) + LostBy(Exec(w, init), last)
  }

  // ---------------------------------------------------------------- locking

  predicate InSection(p: Phase) {
    p.SecondRead? || p.SecondCheck? || p.Refresh? || p.Save? || p.Unlock?
  }

  /** One mutex per user, none shared; a call waits for or holds its own user's mutex; and the
      calls inside the critical section are exactly the holders. */
  ghost predicate LockInv(w: World) {
    && (forall u, v :: u in w.tokenLocks && v in w.tokenLocks && w.tokenLocks[u] == w.tokenLocks[v] ==> u == v)
    && (forall c :: c in w.calls && (w.calls[c].phase.Acquire? || InSection(w.calls[c].phase)) ==>
          UserOf(w.calls[c]) in w.tokenLocks && w.tokenLocks[UserOf(w.calls[c])] == w.calls[c].phase.mu)
    && (forall c :: c in w.calls && InSection(w.calls[c].phase) ==>
          w.calls[c].phase.mu in w.heldBy && w.heldBy[w.calls[c].phase.mu] == c)
    && (forall m :: m in w.heldBy ==>
          w.heldBy[m] in w.calls && InSection(w.calls[w.heldBy[m]].phase) && w.calls[w.heldBy[m]].phase.mu == m)
  }

  /** Moving a call without touching a lock, or the call's relation to one. */
  lemma MoveKeepsLocks(w: World, w': World, c: CallId, p: Phase)
    requires LockInv(w) && c in w.calls
    requires w'.calls == w.calls[c := w.calls[c].(phase := p)]
    requires w'.tokenLocks == w.tokenLocks && w'.heldBy == w.heldBy
    requires InSection(p) == InSection(w.calls[c].phase) && !p.Acquire?
    requires InSection(p) ==> p.mu == w.calls[c].phase.mu
    ensures LockInv(w')
  {
  }

  lemma FindKeepsLocks(w: World, c: CallId, m: MutexId)
    requires LockInv(w) && Enabled(w, FindLock(c, m))
    ensures LockInv(Step(w, FindLock(c, m)))
  {
    OwnLocksOnly(w, c, m);
    FoundLockIsOwn(w, c, m);
    HoldersStay(w, c, m);
  }

  lemma HoldersStay(w: World, c: CallId, m: MutexId)
    requires LockInv(w) && Enabled(w, FindLock(c, m))
    ensures var w' := Step(w, FindLock(c, m));
            && (forall d :: d in w'.calls && InSection(w'.calls[d].phase) ==>
                  w'.calls[d].phase.mu in w'.heldBy && w'.heldBy[w'.calls[d].phase.mu] == d)
            && (forall n :: n in w'.heldBy ==>
                  w'.heldBy[n] in w'.calls && InSection(w'.calls[w'.heldBy[n]].phase)
                  && w'.calls[w'.heldBy[n]].phase.mu == n)
  {
  }

  lemma FoundLockIsOwn(w: World, c: CallId, m: MutexId)
    requires LockInv(w) && Enabled(w, FindLock(c, m))
    ensures var w' := Step(w, FindLock(c, m));
            && w'.heldBy == w.heldBy
            && forall d :: d in w'.calls && (w'.calls[d].phase.Acquire? || InSection(w'.calls[d].phase)) ==>
                 UserOf(w'.calls[d]) in w'.tokenLocks && w'.tokenLocks[UserOf(w'.calls[d])] == w'.calls[d].phase.mu
  {
  }

  lemma OwnLocksOnly(w: World, c: CallId, m: MutexId)
    requires LockInv(w) && Enabled(w, FindLock(c, m))
    ensures var w' := Step(w, FindLock(c, m));
            forall u, v :: u in w'.tokenLocks && v in w'.tokenLocks && w'.tokenLocks[u] == w'.tokenLocks[v] ==> u == v
  {
    var w' := Step(w, FindLock(c, m));
    forall u, v | u in w'.tokenLocks && v in w'.tokenLocks && w'.tokenLocks[u] == w'.tokenLocks[v]
      ensures u == v
    {
      if u in w.tokenLocks { assert w.tokenLocks[u] in AllMutexes(w); }
      if v in w.tokenLocks { assert w.tokenLocks[v] in AllMutexes(w); }
    }
  }

  lemma AcquireKeepsLocks(w: World, c: CallId)
    requires LockInv(w) && Enabled(w, AcquireLock(c))
    ensures LockInv(Step(w, AcquireLock(c)))
  {
  }

  lemma ReleaseKeepsLocks(w: World, c: CallId)
    requires LockInv(w) && Enabled(w, ReleaseLock(c))
    ensures LockInv(Step(w, ReleaseLock(c)))
  {
  }

  lemma BeginKeepsLocks(w: World, c: CallId, req: Request)
    requires LockInv(w) && Enabled(w, Begin(c, req))
    ensures LockInv(Step(w, Begin(c, req)))
  {
  }

  /** An action of call `c` that neither finds, takes nor releases a lock. */
  predicate IsPlainMove(a: Action) {
    a.ReadUser? || a.CheckFast? || a.ReReadUser? || a.CheckAgain? || a.RefreshTokens? || a.SaveTokens?
  }

  /** The world after a plain move differs in the phase of its call, and keeps all locks. */
  lemma PlainMove(w: World, a: Action)
    requires Enabled(w, a) && IsPlainMove(a)
    ensures var w' := Step(w, a);
            var p, p' := w.calls[a.c].phase, w'.calls[a.c].phase;
            && w'.calls == w.calls[a.c := w.calls[a.c].(phase := p')]
            && w'.tokenLocks == w.tokenLocks && w'.heldBy == w.heldBy && w'.now == w.now
            && InSection(p') == InSection(p) && !p'.Acquire?
            && (InSection(p') ==> p'.mu == p.mu)
  {
  }

  lemma LockStep(w: World, a: Action)
    requires LockInv(w) && Enabled(w, a)
    ensures LockInv(Step(w, a))
  {
    match a
    case Tick(_) =>
    case Disconnect(_) =>
    case Begin(c, req) => BeginKeepsLocks(w, c, req);
    case FindLock(c, m) => FindKeepsLocks(w, c, m);
    case AcquireLock(c) => AcquireKeepsLocks(w, c);
    case ReleaseLock(c) => ReleaseKeepsLocks(w, c);
    case _ =>
      PlainMove(w, a);
      MoveKeepsLocks(w, Step(w, a), a.c, Step(w, a).calls[a.c].phase);
  }

  lemma SectionIsExclusive(w: World, c: CallId, d: CallId)
    requires LockInv(w)
    requires c in w.calls && d in w.calls && InSection(w.calls[c].phase) && InSection(w.calls[d].phase)
    requires UserOf(w.calls[c]) == UserOf(w.calls[d])
    ensures c == d
  {
  }

  // ---------------------------------------------------------------- tokens

  /** The server's own bookkeeping. */
  ghost predicate ServerInv(s: Server) {
    && "" !in s.issued && s.retired <= s.issued
    && (forall u :: u in s.live ==> s.live[u] in s.issued && s.live[u] !in s.retired)
    && (forall u, v :: u in s.live && v in s.live && s.live[u] == s.live[v] ==> u == v)
  }

  /** `t` is live unless `u` lost its live token; then `t` was rotated out. */
  ghost predicate Current(s: Server, lost: set<UserId>, u: UserId, t: Token) {
    && u in s.live && t in s.issued
    && (IsLive(s, u, t) <==> u !in lost)
    && (t in s.retired <==> u in lost)
  }

  predicate HoldsReread(p: Phase) {
    p.SecondCheck? || p.Refresh? || p.Save?
  }

  ghost predicate Saving(w: World, u: UserId) {
    exists c :: c in w.calls && w.calls[c].phase.Save? && UserOf(w.calls[c]) == u
  }

  /** The token in the store is current, except while a call is about to replace it. */
  ghost predicate StoreInv(w: World, lost: set<UserId>) {
    forall u :: Connected(w, u) && !Saving(w, u) ==> Current(w.server, lost, u, w.users[u].refreshToken)
  }

  /** What a call inside the critical section knows about its user's tokens. */
  ghost predicate CallTokens(w: World, lost: set<UserId>, call: Call) {
    var u, p := UserOf(call), call.phase;
    && (HoldsReread(p) && Connected(w, u) ==>
          w.users[u].refreshToken == p.reread.refreshToken && w.users[u].expiresAt == p.reread.expiresAt)
    && (p.SecondCheck? || p.Refresh? ==> Current(w.server, lost, u, p.reread.refreshToken))
    && (p.Save? ==>
          && u !in lost && IsLive(w.server, u, p.newRefresh) && p.reread.refreshToken in w.server.issued
          && (p.newRefresh != p.reread.refreshToken ==> p.reread.refreshToken in w.server.retired))
  }

  ghost predicate TokenInv(w: World, lost: set<UserId>) {
    && LockInv(w) && ServerInv(w.server) && StoreInv(w, lost)
    && (forall c :: c in w.calls ==> CallTokens(w, lost, w.calls[c]))
  }

  /** A move of `c` that leaves store and server alone and neither enters nor leaves `Save`. */
  lemma QuietMoveKeepsTokens(w: World, w': World, c: CallId, call: Call, lost: set<UserId>)
    requires TokenInv(w, lost) && LockInv(w')
    requires w'.calls == w.calls[c := call] && w'.users == w.users && w'.server == w.server
    requires !call.phase.Save? && (c in w.calls ==> !w.calls[c].phase.Save?)
    requires CallTokens(w', lost, call)
    ensures TokenInv(w', lost)
  {
    forall u | Connected(w', u) && !Saving(w', u)
      ensures Current(w'.server, lost, u, w'.users[u].refreshToken)
    {
      forall d | d in w.calls && w.calls[d].phase.Save? ensures UserOf(w.calls[d]) != u {
        assert w'.calls[d] == w.calls[d];
      }
    }
    forall d | d in w'.calls ensures CallTokens(w', lost, w'.calls[d]) {
      if d != c { assert CallTokens(w, lost, w.calls[d]); }
    }
  }

  lemma ReReadKeepsTokens(w: World, c: CallId, fails: bool, lost: set<UserId>)
    requires TokenInv(w, lost) && Enabled(w, ReReadUser(c, fails))
    ensures TokenInv(Step(w, ReReadUser(c, fails)), lost)
  {
    var a, u := ReReadUser(c, fails), UserOf(w.calls[c]);
    LockStep(w, a);
    forall d | d in w.calls && w.calls[d].phase.Save? ensures UserOf(w.calls[d]) != u {
      if UserOf(w.calls[d]) == u { SectionIsExclusive(w, c, d); }
    }
    QuietMoveKeepsTokens(w, Step(w, a), c, Step(w, a).calls[c], lost);
  }

  lemma RotationKeepsServer(s: Server, u: UserId, presented: Token, reply: Reply)
    requires ServerInv(s) && ServerMayReply(s, u, presented, reply)
    ensures ServerInv(ServerAfter(s, u, presented, reply))
    ensures s.issued <= ServerAfter(s, u, presented, reply).issued
  {
  }

  lemma RotationKeepsOthers(s: Server, u: UserId, presented: Token, reply: Reply, lost: set<UserId>, v: UserId,
                            t: Token)
    requires ServerInv(s) && ServerMayReply(s, u, presented, reply)
    requires v != u && Current(s, lost, v, t)
    ensures Current(ServerAfter(s, u, presented, reply), lost + if reply.AnswerLost? then {u} else {}, v, t)
  {
    if Rotates(presented, reply) {
      assert t != presented || v in lost;
    }
  }

  lemma RefreshKeepsCalls(w: World, c: CallId, reply: Reply, lost: set<UserId>, d: CallId)
    requires TokenInv(w, lost) && Enabled(w, RefreshTokens(c, reply)) && d in w.calls
    ensures var w' := Step(w, RefreshTokens(c, reply));
            CallTokens(w', lost + LostBy(w, RefreshTokens(c, reply)), w'.calls[d])
  {
    var u, presented := UserOf(w.calls[c]), w.calls[c].phase.reread.refreshToken;
    assert CallTokens(w, lost, w.calls[c]) && CallTokens(w, lost, w.calls[d]);
    if d != c {
      var v, p := UserOf(w.calls[d]), w.calls[d].phase;
      if HoldsReread(p) {
        if v == u { SectionIsExclusive(w, c, d); }
        RotationKeepsServer(w.server, u, presented, reply);
        if !p.Save? { RotationKeepsOthers(w.server, u, presented, reply, lost, v, p.reread.refreshToken); }
      }
    }
  }

  lemma RefreshKeepsTokens(w: World, c: CallId, reply: Reply, lost: set<UserId>)
    requires TokenInv(w, lost) && Enabled(w, RefreshTokens(c, reply))
    ensures TokenInv(Step(w, RefreshTokens(c, reply)), lost + LostBy(w, RefreshTokens(c, reply)))
  {
    var a, u := RefreshTokens(c, reply), UserOf(w.calls[c]);
    var w', lost' := Step(w, a), lost + LostBy(w, a);
    var presented := w.calls[c].phase.reread.refreshToken;
    LockStep(w, a);
    RotationKeepsServer(w.server, u, presented, reply);
    assert CallTokens(w, lost, w.calls[c]);
    forall d | d in w'.calls ensures CallTokens(w', lost', w'.calls[d]) {
      RefreshKeepsCalls(w, c, reply, lost, d);
    }
    forall v | Connected(w', v) && !Saving(w', v)
      ensures Current(w'.server, lost', v, w'.users[v].refreshToken)
    {
      if v == u {
        assert w'.calls[c].phase.Save? ==> Saving(w', u);
      } else {
        assert !Saving(w, v) by {
          forall d | d in w.calls && w.calls[d].phase.Save? ensures UserOf(w.calls[d]) != v {
            assert d != c && w'.calls[d] == w.calls[d];
          }
        }
        RotationKeepsOthers(w.server, u, presented, reply, lost, v, w.users[v].refreshToken);
      }
    }
  }

  lemma SaveKeepsTokens(w: World, c: CallId, fails: bool, lost: set<UserId>)
    requires TokenInv(w, lost) && Enabled(w, SaveTokens(c, fails))
    ensures TokenInv(Step(w, SaveTokens(c, fails)), lost + LostBy(w, SaveTokens(c, fails)))
  {
    var a, u := SaveTokens(c, fails), UserOf(w.calls[c]);
    var w', lost' := Step(w, a), lost + LostBy(w, a);
    LockStep(w, a);
    assert CallTokens(w, lost, w.calls[c]);
    forall d | d in w'.calls ensures CallTokens(w', lost', w'.calls[d]) {
      assert CallTokens(w, lost, w.calls[d]);
      if d != c && HoldsReread(w.calls[d].phase) && UserOf(w.calls[d]) == u { SectionIsExclusive(w, c, d); }
    }
    forall v | Connected(w', v) && !Saving(w', v)
      ensures Current(w'.server, lost', v, w'.users[v].refreshToken)
    {
      if v != u { StillNotSaving(w, c, fails, v); }
    }
  }

  lemma StillNotSaving(w: World, c: CallId, fails: bool, v: UserId)
    requires Enabled(w, SaveTokens(c, fails)) && v != UserOf(w.calls[c]) && !Saving(Step(w, SaveTokens(c, fails)), v)
    ensures !Saving(w, v)
  {
    var w' := Step(w, SaveTokens(c, fails));
    forall d | d in w.calls && w.calls[d].phase.Save? ensures UserOf(w.calls[d]) != v {
      if d != c { assert w'.calls[d] == w.calls[d]; }
    }
  }

  lemma DisconnectKeepsTokens(w: World, u: UserId, lost: set<UserId>)
    requires TokenInv(w, lost)
    ensures TokenInv(Step(w, Disconnect(u)), lost)
  {
    var w' := Step(w, Disconnect(u));
    forall d | d in w'.calls ensures CallTokens(w', lost, w'.calls[d]) {
      assert CallTokens(w, lost, w.calls[d]);
    }
    forall v | Connected(w', v) && !Saving(w', v)
      ensures Current(w'.server, lost, v, w'.users[v].refreshToken)
    {
      assert Connected(w, v) && !Saving(w, v);
    }
  }

  lemma TickKeepsTokens(w: World, delta: nat, lost: set<UserId>)
    requires TokenInv(w, lost)
    ensures TokenInv(Step(w, Tick(delta)), lost)
  {
    var w' := Step(w, Tick(delta));
    forall d | d in w'.calls ensures CallTokens(w', lost, w'.calls[d]) {
      assert CallTokens(w, lost, w.calls[d]);
    }
    forall v | Connected(w', v) && !Saving(w', v)
      ensures Current(w'.server, lost, v, w'.users[v].refreshToken)
    {
      assert Connected(w, v) && !Saving(w, v);
    }
  }

  /** An action of a call that touches neither the store nor the server, and reads neither under
      the mutex. */
  predicate IsQuiet(a: Action) {
    a.Begin? || a.ReadUser? || a.CheckFast? || a.FindLock? || a.AcquireLock? || a.CheckAgain? || a.ReleaseLock?
  }

  lemma QuietAction(w: World, a: Action)
    requires Enabled(w, a) && IsQuiet(a)
    ensures var w' := Step(w, a);
            && a.c in w'.calls && w'.calls == w.calls[a.c := w'.calls[a.c]]
            && w'.users == w.users && w'.server == w.server && w'.now == w.now && w'.refreshed == w.refreshed
            && LostBy(w, a) == {}
    ensures var p' := Step(w, a).calls[a.c].phase;
            && !p'.Save? && (a.c in w.calls ==> !w.calls[a.c].phase.Save?)
            && (HoldsReread(p') ==>
                  && a.c in w.calls && HoldsReread(w.calls[a.c].phase)
                  && p'.reread == w.calls[a.c].phase.reread
                  && UserOf(Step(w, a).calls[a.c]) == UserOf(w.calls[a.c]))
  {
  }

  lemma QuietStep(w: World, a: Action, lost: set<UserId>)
    requires TokenInv(w, lost) && Enabled(w, a) && IsQuiet(a)
    ensures TokenInv(Step(w, a), lost + LostBy(w, a))
  {
    LockStep(w, a);
    QuietAction(w, a);
    assert a.c in w.calls ==> CallTokens(w, lost, w.calls[a.c]);
    assert lost + {} == lost;
    QuietMoveKeepsTokens(w, Step(w, a), a.c, Step(w, a).calls[a.c], lost);
  }

  lemma TokenStep(w: World, a: Action, lost: set<UserId>)
    requires TokenInv(w, lost) && Enabled(w, a)
    ensures TokenInv(Step(w, a), lost + LostBy(w, a))
  {
    assert lost + {} == lost;
    match a
    case Tick(delta) => TickKeepsTokens(w, delta, lost);
    case Disconnect(u) => DisconnectKeepsTokens(w, u, lost);
    case ReReadUser(c, fails) => ReReadKeepsTokens(w, c, fails, lost);
    case RefreshTokens(c, reply) => RefreshKeepsTokens(w, c, reply, lost);
    case SaveTokens(c, fails) => SaveKeepsTokens(w, c, fails, lost);
    case _ => QuietStep(w, a, lost);
  }

  lemma {:induction false} TokenRun(w: World, acts: seq<Action>)
    requires Initial(w) && Legal(w, acts)
    ensures TokenInv(Exec(w, acts), LostIn(w, acts))
    decreases |acts|
  {
    if acts == [] {
    } else {
      var init, last := acts[..|acts| - 1], acts[|acts| - 1];
      TokenRun(w, init);
      TokenStep(Exec(w, init), last, LostIn(w, init));
    }
  }

  /** At most one call per user is between taking and releasing that user's mutex, in every
      reachable world. */
  lemma {:induction false} OneRefresherPerUser(w: World, acts: seq<Action>, c: CallId, d: CallId)
    requires Initial(w) && Legal(w, acts)
    requires c in Exec(w, acts).calls && d in Exec(w, acts).calls
    requires InSection(Exec(w, acts).calls[c].phase) && InSection(Exec(w, acts).calls[d].phase)
    requires UserOf(Exec(w, acts).calls[c]) == UserOf(Exec(w, acts).calls[d])
    ensures c == d
  {
    TokenRun(w, acts);
    SectionIsExclusive(Exec(w, acts), c, d);
  }

  /** In every run of any number of calls, a refresh presents the live refresh token, and never a
      rotated-out one, exactly when no earlier action lost that user's rotated token. */
  lemma {:induction false} RefreshPresentsLiveToken(w: World, acts: seq<Action>, c: CallId, reply: Reply)
    requires Initial(w) && Legal(w, acts + [RefreshTokens(c, reply)])
    ensures Legal(w, acts) && c in Exec(w, acts).calls && Exec(w, acts).calls[c].phase.Refresh?
    ensures var w' := Exec(w, acts);
            var u, presented := UserOf(w'.calls[c]), w'.calls[c].phase.reread.refreshToken;
            && (IsLive(w'.server, u, presented) <==> u !in LostIn(w, acts))
            && (presented in w'.server.retired <==> u in LostIn(w, acts))
  {
    assert (acts + [RefreshTokens(c, reply)])[..|acts|] == acts;
    TokenRun(w, acts);
    assert CallTokens(Exec(w, acts), LostIn(w, acts), Exec(w, acts).calls[c]);
  }

  // ---------------------------------------------------------------- refresh rate

  /** Every granted lifetime is at least `life` and every effective minimum TTL at most `ttl`. */
  predicate Bounded(a: Action, life: int, ttl: int) {
    && (a.RefreshTokens? && a.reply.Granted? ==> a.reply.expiresIn >= life)
    && (a.Begin? ==> EffectiveTtl(a.req) <= ttl)
  }

  ghost predicate AllBounded(acts: seq<Action>, life: int, ttl: int) {
    forall i :: 0 <= i < |acts| ==> Bounded(acts[i], life, ttl)
  }

  /** `t` is at least `gap` after the last saved refresh, if there was one. */
  predicate AfterLast(log: seq<int>, t: int, gap: int) {
    log == [] || t >= log[|log| - 1] + gap
  }

  ghost predicate Spaced(log: seq<int>, gap: int) {
    forall i, j :: 0 <= i <= j < |log| ==> log[j] - log[i] >= (j - i) * gap
  }

  ghost predicate CallTimes(w: World, call: Call, life: int, ttl: int) {
    var log, p := Log(w, UserOf(call)), call.phase;
    && EffectiveTtl(call.req) <= ttl && call.startedAt <= w.now
    && (HoldsReread(p) ==> AfterLast(log, p.reread.expiresAt, life))
    && (p.Refresh? ==> w.now + ttl >= p.reread.expiresAt)
    && (p.Save? ==>
          && p.refreshedAt <= w.now && p.response.expiresAt >= p.refreshedAt + life
          && AfterLast(log, p.refreshedAt, life - ttl))
  }

  ghost predicate TimeInv(w: World, life: int, ttl: int) {
    && LockInv(w)
    && (forall c :: c in w.calls ==> CallTimes(w, w.calls[c], life, ttl))
    && (forall u :: Connected(w, u) ==> AfterLast(Log(w, u), w.users[u].expiresAt, life))
    && (forall u :: u in w.refreshed ==> Spaced(w.refreshed[u], life - ttl))
  }

  lemma SpacedSnoc(log: seq<int>, t: int, gap: int)
    requires Spaced(log, gap) && AfterLast(log, t, gap) && gap >= 0
    ensures Spaced(log + [t], gap)
  {
    var all := log + [t];
    forall i, j | 0 <= i <= j < |all| ensures all[j] - all[i] >= (j - i) * gap {
      if i < j == |log| {
        assert log[|log| - 1] - log[i] >= (|log| - 1 - i) * gap;
        assert (|log| - i) * gap == (|log| - 1 - i) * gap + gap;
      }
    }
  }

  lemma UntouchedCallTimes(w: World, w': World, call: Call, life: int, ttl: int)
    requires CallTimes(w, call, life, ttl)
    requires w'.now >= w.now && Log(w', UserOf(call)) == Log(w, UserOf(call))
    ensures CallTimes(w', call, life, ttl)
  {
  }

  lemma MovedCallTimes(w: World, a: Action, life: int, ttl: int)
    requires TimeInv(w, life, ttl) && Enabled(w, a) && Bounded(a, life, ttl) && life > ttl
    requires !a.Tick? && !a.Disconnect? && !a.SaveTokens?
    ensures var w' := Step(w, a); CallTimes(w', w'.calls[a.c], life, ttl)
  {
    if a.Begin? {
      BegunCallTimes(w, a.c, a.req, life, ttl);
    } else if a.RefreshTokens? {
      RefreshedCallTimes(w, a.c, a.reply, life, ttl);
    } else {
      PlainCallTimes(w, a, life, ttl);
    }
  }

  lemma BegunCallTimes(w: World, c: CallId, req: Request, life: int, ttl: int)
    requires Enabled(w, Begin(c, req)) && EffectiveTtl(req) <= ttl
    ensures var w' := Step(w, Begin(c, req)); CallTimes(w', w'.calls[c], life, ttl)
  {
  }

  lemma RefreshedCallTimes(w: World, c: CallId, reply: Reply, life: int, ttl: int)
    requires TimeInv(w, life, ttl) && Enabled(w, RefreshTokens(c, reply)) && life > ttl
    requires reply.Granted? ==> reply.expiresIn >= life
    ensures var w' := Step(w, RefreshTokens(c, reply)); CallTimes(w', w'.calls[c], life, ttl)
  {
    assert CallTimes(w, w.calls[c], life, ttl);
  }

  lemma PlainCallTimes(w: World, a: Action, life: int, ttl: int)
    requires TimeInv(w, life, ttl) && Enabled(w, a) && life > ttl
    requires !a.Tick? && !a.Disconnect? && !a.SaveTokens? && !a.Begin? && !a.RefreshTokens?
    ensures var w' := Step(w, a); CallTimes(w', w'.calls[a.c], life, ttl)
  {
    assert CallTimes(w, w.calls[a.c], life, ttl);
  }

  lemma MovedFrame(w: World, a: Action)
    requires Enabled(w, a) && !a.Tick? && !a.Disconnect? && !a.SaveTokens?
    ensures Step(w, a).refreshed == w.refreshed && Step(w, a).now == w.now && Step(w, a).users == w.users
    ensures Step(w, a).calls == w.calls[a.c := Step(w, a).calls[a.c]]
  {
  }

  lemma SavedCallTimes(w: World, c: CallId, fails: bool, life: int, ttl: int)
    requires TimeInv(w, life, ttl) && Enabled(w, SaveTokens(c, fails)) && life > ttl
    ensures var w' := Step(w, SaveTokens(c, fails)); CallTimes(w', w'.calls[c], life, ttl)
  {
    assert CallTimes(w, w.calls[c], life, ttl);
  }

  lemma OtherCallTimes(w: World, c: CallId, fails: bool, d: CallId, life: int, ttl: int)
    requires TimeInv(w, life, ttl) && Enabled(w, SaveTokens(c, fails)) && d in w.calls && d != c
    ensures CallTimes(Step(w, SaveTokens(c, fails)), w.calls[d], life, ttl)
  {
    assert CallTimes(w, w.calls[d], life, ttl);
    if UserOf(w.calls[d]) == UserOf(w.calls[c]) {
      if HoldsReread(w.calls[d].phase) { SectionIsExclusive(w, c, d); }
    }
  }

  lemma SaveKeepsTimes(w: World, c: CallId, fails: bool, life: int, ttl: int)
    requires TimeInv(w, life, ttl) && Enabled(w, SaveTokens(c, fails)) && life > ttl
    ensures TimeInv(Step(w, SaveTokens(c, fails)), life, ttl)
  {
    var a, u := SaveTokens(c, fails), UserOf(w.calls[c]);
    var w' := Step(w, a);
    LockStep(w, a);
    assert CallTimes(w, w.calls[c], life, ttl);
    if !fails { SpacedSnoc(Log(w, u), w.calls[c].phase.refreshedAt, life - ttl); }
    forall d | d in w'.calls ensures CallTimes(w', w'.calls[d], life, ttl) {
      if d != c { OtherCallTimes(w, c, fails, d, life, ttl); } else { SavedCallTimes(w, c, fails, life, ttl); }
    }
  }

  lemma TimeStep(w: World, a: Action, life: int, ttl: int)
    requires TimeInv(w, life, ttl) && Enabled(w, a) && Bounded(a, life, ttl) && life > ttl
    ensures TimeInv(Step(w, a), life, ttl)
  {
    var w' := Step(w, a);
    if a.SaveTokens? {
      SaveKeepsTimes(w, a.c, a.fails, life, ttl);
    } else if a.Tick? || a.Disconnect? {
      forall d | d in w'.calls ensures CallTimes(w', w'.calls[d], life, ttl) {
        UntouchedCallTimes(w, w', w.calls[d], life, ttl);
      }
      LockStep(w, a);
    } else {
      MovedCallTimes(w, a, life, ttl);
      MovedFrame(w, a);
      forall d | d in w'.calls ensures CallTimes(w', w'.calls[d], life, ttl) {
        if d != a.c { UntouchedCallTimes(w, w', w.calls[d], life, ttl); }
      }
      LockStep(w, a);
    }
  }

  lemma {:induction false} TimeRun(w: World, acts: seq<Action>, life: int, ttl: int)
    requires Initial(w) && Legal(w, acts) && AllBounded(acts, life, ttl) && life > ttl
    ensures TimeInv(Exec(w, acts), life, ttl)
    decreases |acts|
  {
    if acts == [] {
    } else {
      var init, last := acts[..|acts| - 1], acts[|acts| - 1];
      TimeRun(w, init, life, ttl);
      assert Bounded(last, life, ttl);
      TimeStep(Exec(w, init), last, life, ttl);
    }
  }

  /** However many callers there are, the saved refreshes of one user inside any stretch of
      `span` seconds number at most 1 + span / (life - ttl). */
  lemma {:induction false} RefreshRate(w: World, acts: seq<Action>, life: int, ttl: int, u: UserId, i: nat, j: nat,
                                       span: int)
    requires Initial(w) && Legal(w, acts) && AllBounded(acts, life, ttl) && life > ttl
    requires i <= j < |Log(Exec(w, acts), u)|
    requires Log(Exec(w, acts), u)[j] - Log(Exec(w, acts), u)[i] <= span
    ensures j - i + 1 <= 1 + span / (life - ttl)
  {
    TimeRun(w, acts, life, ttl);
    SpacedSpan(Log(Exec(w, acts), u), life - ttl, i, j, span);
  }

  lemma SpacedSpan(log: seq<int>, gap: int, i: nat, j: nat, span: int)
    requires Spaced(log, gap) && gap > 0 && i <= j < |log| && log[j] - log[i] <= span
    ensures j - i + 1 <= 1 + span / gap
  {
    assert log[j] - log[i] >= (j - i) * gap;
    QuotientBound(j - i, gap, span);
  }

  lemma QuotientBound(n: nat, gap: int, span: int)
    requires gap > 0 && n * gap <= span
    ensures n <= span / gap
  {
    var q := span / gap;
    assert span < (q + 1) * gap;
    assert n >= q + 1 ==> n * gap >= (q + 1) * gap;
  }

  /** Some refresh made for this call was granted a lifetime of no more than `ttl`. */
  ghost predicate ShortGrant(acts: seq<Action>, c: CallId, ttl: int) {
    exists i :: 0 <= i < |acts| && acts[i].RefreshTokens? && acts[i].c == c
                && acts[i].reply.Granted? && acts[i].reply.expiresIn <= ttl
  }

  predicate OutlivesTtl(call: Call, expiresAt: int) {
    expiresAt > call.startedAt + EffectiveTtl(call.req)
  }

  /** Nothing in the hands of the call falls short, unless the server was to blame. */
  ghost predicate LongEnough(w: World, acts: seq<Action>, c: CallId)
    requires c in w.calls
  {
    var call := w.calls[c];
    && call.startedAt <= w.now
    && (ShortGrant(acts, c, EffectiveTtl(call.req))
        || ((call.phase.Save? ==> OutlivesTtl(call, call.phase.response.expiresAt))
            && ((call.phase.Unlock? || call.phase.Finished?) && call.phase.result.Leased? ==>
                  OutlivesTtl(call, call.phase.result.response.expiresAt))))
  }

  lemma {:induction false} ShortGrantNext(acts: seq<Action>, a: Action, c: CallId, ttl: int)
    ensures ShortGrant(acts + [a], c, ttl) <==>
              || ShortGrant(acts, c, ttl)
              || (a.RefreshTokens? && a.c == c && a.reply.Granted? && a.reply.expiresIn <= ttl)
  {
    var all := acts + [a];
    assert all[|acts|] == a;
    assert forall i :: 0 <= i < |acts| ==> all[i] == acts[i];
  }

  lemma {:induction false} LongEnoughStep(w: World, acts: seq<Action>, a: Action, c: CallId)
    requires Enabled(w, a) && c in Step(w, a).calls && (c in w.calls ==> LongEnough(w, acts, c))
    ensures LongEnough(Step(w, a), acts + [a], c)
  {
    if c !in w.calls {
    } else {
      ShortGrantNext(acts, a, c, EffectiveTtl(w.calls[c].req));
      RequestStays(w, a, c);
    }
  }

  lemma {:induction false} RequestStays(w: World, a: Action, c: CallId)
    requires Enabled(w, a) && c in w.calls
    ensures c in Step(w, a).calls && Step(w, a).calls[c] == w.calls[c].(phase := Step(w, a).calls[c].phase)
    ensures Step(w, a).now >= w.now
  {
  }

  /** A successful lease, cached or refreshed, carries a token that outlives the start of the call by a
      minute and by the TTL asked for, unless the server granted this call's own refresh no more than
      that. */
  lemma {:induction false} LeaseOutlivesTtl(w: World, acts: seq<Action>, c: CallId)
    requires Initial(w) && Legal(w, acts) && c in Exec(w, acts).calls
    ensures LongEnough(Exec(w, acts), acts, c)
    ensures var call := Exec(w, acts).calls[c];
            call.phase.Finished? && call.phase.result.Leased? ==>
              || (&& call.phase.result.response.expiresAt > call.startedAt + 60
                  && call.phase.result.response.expiresAt > call.startedAt + call.req.minTtlSeconds)
              || ShortGrant(acts, c, 60) || ShortGrant(acts, c, call.req.minTtlSeconds)
    decreases |acts|
  {
    if acts == [] {
    } else {
      var init, last := acts[..|acts| - 1], acts[|acts| - 1];
      if c in Exec(w, init).calls { LeaseOutlivesTtl(w, init, c); }
      LongEnoughStep(Exec(w, init), init, last, c);
      assert acts == init + [last];
    }
  }

  // ---------------------------------------------------------------- progress

  function Rank(p: Phase): nat {
    match p
    case FirstRead => 9
    case FastCheck(_) => 8
    case LookUpLock => 7
    case Acquire(_) => 6
    case SecondRead(_) => 5
    case SecondCheck(_, _) => 4
    case Refresh(_, _) => 3
    case Save(_, _, _, _, _) => 2
    case Unlock(_, _) => 1
    case Finished(_) => 0
  }

  predicate OfCall(a: Action, c: CallId) {
    !a.Tick? && !a.Disconnect? && !a.Begin? && a.c == c
  }

  /** Every action of a call brings it closer to its end, and no other action moves it: a call
      takes at most nine actions. */
  lemma CallsAdvance(w: World, a: Action, c: CallId)
    requires Enabled(w, a) && c in w.calls
    ensures c in Step(w, a).calls
    ensures OfCall(a, c) ==> Rank(Step(w, a).calls[c].phase) < Rank(w.calls[c].phase)
    ensures !OfCall(a, c) ==> Step(w, a).calls[c] == w.calls[c]
  {
  }

  /** The action a call is ready for when no mutex stands in its way. */
  lemma ReadyUnlessWaiting(w: World, c: CallId, unused: MutexId) returns (a: Action)
    requires c in w.calls && !w.calls[c].phase.Finished?
    requires w.calls[c].phase.Acquire? ==> w.calls[c].phase.mu !in w.heldBy
    requires unused !in AllMutexes(w)
    ensures OfCall(a, c) && Enabled(w, a)
  {
    match w.calls[c].phase
    case FirstRead => a := ReadUser(c, false);
    case FastCheck(_) => a := CheckFast(c);
    case LookUpLock => a := FindLock(c, unused);
    case Acquire(_) => a := AcquireLock(c);
    case SecondRead(_) => a := ReReadUser(c, false);
    case SecondCheck(_, _) => a := CheckAgain(c);
    case Refresh(_, user) =>
      a := RefreshTokens(c, ServerError);
    case Save(_, _, _, _, _) => a := SaveTokens(c, false);
    case Unlock(_, _) => a := ReleaseLock(c);
  }

  /** No deadlock: while a lease is unfinished, some call can act. */
  lemma SomeCallCanAct(w: World, acts: seq<Action>, c: CallId, unused: MutexId) returns (d: CallId, a: Action)
    requires Initial(w) && Legal(w, acts)
    requires c in Exec(w, acts).calls && !Exec(w, acts).calls[c].phase.Finished?
    requires unused !in AllMutexes(Exec(w, acts))
    ensures d in Exec(w, acts).calls && OfCall(a, d) && Enabled(Exec(w, acts), a)
  {
    TokenRun(w, acts);
    var w' := Exec(w, acts);
    d := c;
    if w'.calls[c].phase.Acquire? && w'.calls[c].phase.mu in w'.heldBy {
      d := w'.heldBy[w'.calls[c].phase.mu];
    }
    a := ReadyUnlessWaiting(w', d, unused);
  }

  // ---------------------------------------------------------------- one call, as the code runs it

  /** Some run leads from `w` to `w'`. */
  ghost predicate Reaches(w: World, w': World) {
    exists acts: seq<Action> :: Legal(w, acts) && Exec(w, acts) == w'
  }

  lemma ReachesItself(w: World)
    ensures Reaches(w, w)
  {
    assert Legal(w, []) && Exec(w, []) == w;
  }

  lemma ReachesNext(w: World, w': World, a: Action)
    requires Reaches(w, w') && Enabled(w', a)
    ensures Reaches(w, Step(w', a))
  {
    var acts :| Legal(w, acts) && Exec(w, acts) == w';
    assert (acts + [a])[..|acts|] == acts;
    assert Legal(w, acts + [a]) && Exec(w, acts + [a]) == Step(w', a);
  }

  /** What the surroundings decide during one call: failures, delays and the server's answer. */
  datatype Surroundings = Surroundings(firstReadFails: bool, firstWait: nat, newMutex: MutexId,
                                       secondReadFails: bool, secondWait: nat,
                                       reply: Reply, saveFails: bool)

  class LocalProvider {
    var tokenLocks: map<UserId, MutexId>
    var heldBy: map<MutexId, CallId>
    var users: map<UserId, User> // the user store
    var server: Server
    var now: int
    ghost var calls: map<CallId, Call>
    ghost var refreshed: map<UserId, seq<int>>

    ghost function State(): World
      reads this
    {
      World(now, users, tokenLocks, heldBy, calls, server, refreshed)
    }

    /** The mutex of a user: the one already in the table, or a new one that is then kept. */
    method Lock(id: UserId, newMutex: MutexId) returns (mu: MutexId)
      requires newMutex !in tokenLocks.Values
      modifies this`tokenLocks
      ensures id in tokenLocks && tokenLocks[id] == mu
      ensures id in old(tokenLocks) ==> tokenLocks == old(tokenLocks)
      ensures id !in old(tokenLocks) ==> mu == newMutex && tokenLocks == old(tokenLocks)[id := newMutex]
    {
      if id in tokenLocks {
        mu := tokenLocks[id];
      } else {
        mu := newMutex;
        tokenLocks := tokenLocks[id := mu];
      }
    }

    /** Notes that the code has just carried out the action `a`, which moves its call to `p`. */
    ghost method Record(w: World, at: World, a: Action, p: Phase) returns (at': World)
      requires Reaches(w, at) && Enabled(at, a) && !a.Tick? && !a.Disconnect? && a.c in calls
      requires Step(at, a) == State().(calls := calls[a.c := calls[a.c].(phase := p)])
      modifies this`calls
      ensures calls == old(calls)[a.c := old(calls)[a.c].(phase := p)]
      ensures at' == State() && Reaches(w, at')
    {
      ReachesNext(w, at, a);
      calls := calls[a.c := calls[a.c].(phase := p)];
      at' := State();
    }

    method Wait(ghost w: World, ghost at: World, delta: nat) returns (ghost at': World)
      requires at == State() && Reaches(w, at)
      modifies this`now
      ensures now == old(now) + delta
      ensures at' == State() && Reaches(w, at')
    {
      ReachesNext(w, at, Tick(delta));
      now := now + delta;
      at' := State();
    }

    /** Run without interruption, the code of one lease is a run of the protocol that ends with
        the call finished, with the returned result and with the user's mutex free. */
    method Lease(c: CallId, req: Request, env: Surroundings) returns (result: Result)
      requires c !in calls && env.newMutex !in tokenLocks.Values && env.newMutex !in heldBy
      requires req.telegramId in tokenLocks ==> tokenLocks[req.telegramId] !in heldBy
      requires req.telegramId in users ==>
                 ServerMayReply(server, req.telegramId, users[req.telegramId].refreshToken, env.reply)
      modifies this
      ensures Reaches(old(State()), State())
      ensures c in calls && calls[c] == Call(req, old(now), Finished(result))
      ensures heldBy == old(heldBy)
    {
      ghost var w := State();
      ReachesItself(w);
      ghost var at := w;
      calls := calls[c := Call(req, now, FirstRead)];
      if req.telegramId == 0 {
        result := Failed(InvalidRequest);
        at := Record(w, at, Begin(c, req), Finished(result));
        return;
      }
      at := Record(w, at, Begin(c, req), FirstRead);
      result := LeaseRead(c, req, env, w, at);
    }

    /** The rest of a lease for a valid request. */
    method LeaseRead(c: CallId, req: Request, env: Surroundings, ghost w: World, ghost before: World)
      returns (result: Result)
      requires c in calls && calls[c].req == req && calls[c].phase == FirstRead
      requires before == State() && Reaches(w, before)
      requires env.newMutex !in tokenLocks.Values && env.newMutex !in heldBy
      requires req.telegramId in tokenLocks ==> tokenLocks[req.telegramId] !in heldBy
      requires req.telegramId in users ==>
                 ServerMayReply(server, req.telegramId, users[req.telegramId].refreshToken, env.reply)
      modifies this
      ensures Reaches(w, State())
      ensures c in calls && calls[c] == old(calls)[c].(phase := Finished(result))
      ensures heldBy == old(heldBy)
    {
      ghost var at := before;
      if env.firstReadFails || req.telegramId !in users || users[req.telegramId].accessToken == "" {
        result := Failed(if env.firstReadFails then StoreFailed else NotConnected);
        at := Record(w, at, ReadUser(c, env.firstReadFails), Finished(result));
        return;
      }
      var user := users[req.telegramId];
      at := Record(w, at, ReadUser(c, false), FastCheck(user));
      result := LeaseConnected(c, req, env, user, w, at);
    }

    /** The rest of a lease, once the first read has found a token. */
    method LeaseConnected(c: CallId, req: Request, env: Surroundings, user: User, ghost w: World, ghost before: World)
      returns (result: Result)
      requires c in calls && calls[c].req == req && calls[c].phase == FastCheck(user)
      requires before == State() && Reaches(w, before)
      requires env.newMutex !in tokenLocks.Values && env.newMutex !in heldBy
      requires req.telegramId in tokenLocks ==> tokenLocks[req.telegramId] !in heldBy
      requires req.telegramId in users ==>
                 ServerMayReply(server, req.telegramId, users[req.telegramId].refreshToken, env.reply)
      modifies this
      ensures Reaches(w, State())
      ensures c in calls && calls[c] == old(calls)[c].(phase := Finished(result))
      ensures heldBy == old(heldBy)
    {
      ghost var at := Wait(w, before, env.firstWait);
      if now + EffectiveTtl(req) < user.expiresAt {
        result := Leased(BuildResponse(user));
        at := Record(w, at, CheckFast(c), Finished(result));
        return;
      }
      at := Record(w, at, CheckFast(c), LookUpLock);
      result := LeaseSlow(c, req, env, w, at);
    }

    /** The rest of a lease whose stored token is stale. */
    method LeaseSlow(c: CallId, req: Request, env: Surroundings, ghost w: World, ghost before: World)
      returns (result: Result)
      requires c in calls && calls[c].req == req && calls[c].phase == LookUpLock
      requires before == State() && Reaches(w, before)
      requires env.newMutex !in tokenLocks.Values && env.newMutex !in heldBy
      requires req.telegramId in tokenLocks ==> tokenLocks[req.telegramId] !in heldBy
      requires req.telegramId in users ==>
                 ServerMayReply(server, req.telegramId, users[req.telegramId].refreshToken, env.reply)
      modifies this
      ensures Reaches(w, State())
      ensures c in calls && calls[c] == old(calls)[c].(phase := Finished(result))
      ensures heldBy == old(heldBy)
    {
      ghost var at := before;
      var mu;
      mu, at := TakeLock(c, req, env, w, at);
      result, at := LeaseLocked(c, req, env, mu, w, at);
      heldBy := heldBy - {mu};
      at := Record(w, at, ReleaseLock(c), Finished(result));
      assert heldBy == old(heldBy);
    }

    method TakeLock(c: CallId, req: Request, env: Surroundings, ghost w: World, ghost at: World)
      returns (mu: MutexId, ghost at': World)
      requires c in calls && calls[c].req == req && calls[c].phase == LookUpLock
      requires at == State() && Reaches(w, at)
      requires env.newMutex !in tokenLocks.Values && env.newMutex !in heldBy
      requires req.telegramId in tokenLocks ==> tokenLocks[req.telegramId] !in heldBy
      modifies this`tokenLocks, this`heldBy, this`calls
      ensures at' == State() && Reaches(w, at')
      ensures c in calls && calls[c] == old(calls)[c].(phase := SecondRead(mu))
      ensures mu !in old(heldBy) && heldBy == old(heldBy)[mu := c]
    {
      mu := Lock(req.telegramId, env.newMutex);
      at' := Record(w, at, FindLock(c, env.newMutex), Acquire(mu));
      heldBy := heldBy[mu := c];
      at' := Record(w, at', AcquireLock(c), SecondRead(mu));
    }

    /** The part of a lease that runs under the mutex. */
    method LeaseLocked(c: CallId, req: Request, env: Surroundings, mu: MutexId, ghost w: World, ghost at: World)
      returns (result: Result, ghost at': World)
      requires c in calls && calls[c].req == req && calls[c].phase == SecondRead(mu)
      requires at == State() && Reaches(w, at)
      requires req.telegramId in users ==>
                 ServerMayReply(server, req.telegramId, users[req.telegramId].refreshToken, env.reply)
      modifies this`users, this`server, this`now, this`calls, this`refreshed
      ensures at' == State() && Reaches(w, at')
      ensures c in calls && calls[c] == old(calls)[c].(phase := Unlock(mu, result))
    {
      at' := at;
      if env.secondReadFails || req.telegramId !in users || users[req.telegramId].accessToken == "" {
        result := Failed(if env.secondReadFails then StoreFailed else NotConnected);
        at' := Record(w, at', ReReadUser(c, env.secondReadFails), Unlock(mu, result));
        return;
      }
      var reread := users[req.telegramId];
      at' := Record(w, at', ReReadUser(c, false), SecondCheck(mu, reread));

      at' := Wait(w, at', env.secondWait);
      if now + EffectiveTtl(req) < reread.expiresAt {
        result := Leased(BuildResponse(reread));
        at' := Record(w, at', CheckAgain(c), Unlock(mu, result));
        return;
      }
      at' := Record(w, at', CheckAgain(c), Refresh(mu, reread));
      result, at' := RefreshAndSave(c, req, env, mu, reread, w, at');
    }

    method RefreshAndSave(c: CallId, req: Request, env: Surroundings, mu: MutexId, reread: User,
                          ghost w: World, ghost at: World)
      returns (result: Result, ghost at': World)
      requires c in calls && calls[c].req == req && calls[c].phase == Refresh(mu, reread)
      requires at == State() && Reaches(w, at)
      requires req.telegramId in users && users[req.telegramId] == reread
      requires ServerMayReply(server, req.telegramId, reread.refreshToken, env.reply)
      modifies this`users, this`server, this`calls, this`refreshed
      ensures at' == State() && Reaches(w, at')
      ensures c in calls && calls[c] == old(calls)[c].(phase := Unlock(mu, result))
    {
      server := ServerAfter(server, req.telegramId, reread.refreshToken, env.reply);
      if !env.reply.Granted? {
        result := Failed(if env.reply.InvalidGrant? then InvalidRefreshToken else RefreshFailed);
        at' := Record(w, at, RefreshTokens(c, env.reply), Unlock(mu, result));
        return;
      }
      var newRefresh := reread.refreshToken;
      if env.reply.refresh != "" {
        newRefresh := env.reply.refresh;
      }
      var response := Response(env.reply.access, now + env.reply.expiresIn,
                               reread.cloudId, reread.siteUrl, reread.accountId);
      at' := Record(w, at, RefreshTokens(c, env.reply), Save(mu, reread, response, newRefresh, now));
      result, at' := SaveRefreshed(c, req, env.saveFails, mu, reread, response, newRefresh, w, at');
    }

    method SaveRefreshed(c: CallId, req: Request, fails: bool, mu: MutexId, reread: User,
                         response: Response, newRefresh: Token, ghost w: World, ghost at: World)
      returns (result: Result, ghost at': World)
      requires c in calls && calls[c].req == req && calls[c].phase == Save(mu, reread, response, newRefresh, now)
      requires at == State() && Reaches(w, at)
      requires req.telegramId in users && users[req.telegramId] == reread
      modifies this`users, this`calls, this`refreshed
      ensures at' == State() && Reaches(w, at')
      ensures c in calls && calls[c] == old(calls)[c].(phase := Unlock(mu, result))
    {
      if fails {
        result := Failed(StoreFailed);
        at' := Record(w, at, SaveTokens(c, true), Unlock(mu, result));
        return;
      }
      users := users[req.telegramId := reread.(accessToken := response.accessToken, refreshToken := newRefresh,
                                               expiresAt := response.expiresAt)];
      refreshed := refreshed[req.telegramId := Log(State(), req.telegramId) + [now]];
      result := Leased(response);
      at' := Record(w, at, SaveTokens(c, false), Unlock(mu, result));
    }
  }
}
