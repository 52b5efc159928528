/**
  Ticks of internal/poller/poller.go as the code runs them: every user with active subscriptions is
  polled against the one map of pending notifications, and then the map is flushed. Seen from one issue
  and one subscription, they are the runs that `PollCoverage` and `PollNetChange` speak of.
*/
module PollTicks {
  import opened Wrappers
  import opened ChangePoller
  import opened PollCoverage

  /** One user's part of a tick: the active subscriptions, what their calls return, the user's own
      account, and the time. */
  datatype UserPoll = UserPoll(subs: seq<Subscription>, calls: seq<Call>, exclude: string, startedAt: int)

  type Turn = t: UserPoll | |t.calls| == |t.subs| witness UserPoll([], [], "", 0)

  /** A tick polls only the users it gets to: those that were listed, could be loaded and are connected. */
  datatype Tick = Tick(turns: seq<Turn>, flushedAt: int)

  /** What lasts from one turn to the next: the pending map, and the cursors in the store. */
  datatype Desk = Desk(pending: Batch, cursors: map<int, int>)

  function SetupOf(interval: nat, t: Turn): Setup { Setup(interval, t.exclude, t.startedAt / 1000) }

  function AfterTurn(interval: nat, d: Desk, t: Turn): Desk {
    var w := PollSubs(World(d.pending, {}, d.cursors, false), Loaded(t.subs, d.cursors), t.calls,
                      SetupOf(interval, t));
    Desk(w.pending, w.cursors)
  }

  /** The desk before turn `n` of a tick that began with `d`. */
  function DeskDuring(interval: nat, d: Desk, turns: seq<Turn>, n: nat): Desk
    requires n <= |turns|
  {
    if n == 0 then d else AfterTurn(interval, DeskDuring(interval, d, turns, n - 1), turns[n - 1])
  }

  function Polled(interval: nat, d: Desk, tick: Tick): Desk {
    DeskDuring(interval, d, tick.turns, |tick.turns|)
  }

  function AfterTick(cfg: Config, d: Desk, tick: Tick): Desk {
    var polled := Polled(cfg.interval, d, tick);
    Desk(Unripe(polled.pending, tick.flushedAt, cfg.batchWindow), polled.cursors)
  }

  /** One turn of the main loop. */
  method RunTick(p: Poller, tick: Tick) returns (ready: seq<(Key, Pending)>)
    modifies p
    ensures var before := Desk(old(p.pending), old(p.cursors));
            && Desk(p.pending, p.cursors) == AfterTick(Config(p.interval, p.batchWindow, ""), before, tick)
            && Lists(ready, RipeOnes(Polled(p.interval, before, tick).pending, tick.flushedAt, p.batchWindow))
  {
    ghost var before := Desk(p.pending, p.cursors);
    for i := 0 to |tick.turns|
      invariant Desk(p.pending, p.cursors) == DeskDuring(p.interval, before, tick.turns, i)
    {
      var t := tick.turns[i];
      var stopped := p.LoadAndPoll(t.startedAt, t.exclude, t.subs, t.calls);
    }
    ready := p.FlushPending(tick.flushedAt);
  }

  function DeskAt(cfg: Config, ticks: seq<Tick>, n: nat): Desk
    requires n <= |ticks|
  {
    if n == 0 then Desk(map[], map[]) else AfterTick(cfg, DeskAt(cfg, ticks, n - 1), ticks[n - 1])
  }

  // ---------------------------------------------------------------- turns of other users

  datatype Subject = Subject(id: int, chat: int)

  /** The turn has nothing to do with this subscription or its chat. */
  ghost predicate Avoids(t: Turn, subject: Subject) {
    forall m :: 0 <= m < |t.subs| ==> t.subs[m].chat != subject.chat && t.subs[m].id != subject.id
  }

  /** The desks hold the same of this issue and subscription. */
  predicate SameFor(d: Desk, d': Desk, subject: Subject, issue: string) {
    && Lookup(d'.pending, Key(subject.chat, issue)) == Lookup(d.pending, Key(subject.chat, issue))
    && CursorOf(d'.cursors, subject.id) == CursorOf(d.cursors, subject.id)
  }

  lemma {:induction false} OtherTurnsKeep(interval: nat, d: Desk, t: Turn, subject: Subject, issue: string)
    requires Avoids(t, subject)
    ensures SameFor(d, AfterTurn(interval, d, t), subject, issue)
  {
    var w, subs, setup := World(d.pending, {}, d.cursors, false), Loaded(t.subs, d.cursors), SetupOf(interval, t);
    AllTurns(w, subs, t.calls, setup);
    UntouchedBetween(w, subs, t.calls, setup, 0, |subs|, Key(subject.chat, issue));
    CursorUntouched(w, subs, t.calls, setup, 0, |subs|, subject.id);
  }

  lemma {:induction false} TurnsBetweenKeep(interval: nat, d: Desk, turns: seq<Turn>, i: nat, n: nat, subject: Subject,
                                            issue: string)
    requires i <= n <= |turns| && forall m :: i <= m < n ==> Avoids(turns[m], subject)
    ensures SameFor(DeskDuring(interval, d, turns, i), DeskDuring(interval, d, turns, n), subject, issue)
    decreases n
  {
    if i == n {
    } else {
      TurnsBetweenKeep(interval, d, turns, i, n - 1, subject, issue);
      OtherTurnsKeep(interval, DeskDuring(interval, d, turns, n - 1), turns[n - 1], subject, issue);
    }
  }

  // ---------------------------------------------------------------- the subscription's own turn

  ghost predicate Holds(cfg: Config, t: Turn, i: nat, subject: Subject) {
    && i < |t.subs| && DistinctIds(t.subs) && AloneInChat(t.subs, i) && t.exclude == cfg.exclude
    && t.subs[i].id == subject.id && t.subs[i].chat == subject.chat
    && !t.subs[i].isMention && DistinctFound(t.calls[i])
  }

  /** The search of the subscription at `i` is made, and succeeds. */
  predicate Searched(interval: nat, d: Desk, t: Turn, i: nat)
    requires i < |t.subs|
  {
    var w, subs := World(d.pending, {}, d.cursors, false), Loaded(t.subs, d.cursors);
    Reached(Upto(w, subs, t.calls, SetupOf(interval, t), i), subs[i]) && t.calls[i].search.Hits?
  }

  /** The search returns the issue as Jira shows it then, if the query's bound lets it through. */
  ghost predicate Answers(feed: Feed, p: Poll, since: int, call: Call)
    requires call.search.Hits?
  {
    match HitFor(call.search.hits, feed.key)
    case None => !Listed(p, since)
    case Some(hit) => Listed(p, since) && hit.issue == ViewAt(feed, p) && hit.at == p.handledAt
  }

  /** Turn `t` is poll `k` for the subscription at `i`. */
  ghost predicate PlaysTurn(cfg: Config, feed: Feed, polls: seq<Poll>, k: nat, d: Desk, t: Turn, i: nat,
                            subject: Subject)
    requires k < |polls|
  {
    && Holds(cfg, t, i, subject)
    && t.startedAt == polls[k].startedAt
    && t.calls[i].readAt == polls[k].readAt && t.calls[i].saved == polls[k].saved
    && (polls[k].found <==> Searched(cfg.interval, d, t, i))
    && (polls[k].found ==> Answers(feed, polls[k], SinceAt(cfg, polls, k), t.calls[i]))
  }

  lemma {:induction false} LoadedKeeps(subs: seq<Subscription>, cursors: map<int, int>, i: nat)
    requires i < |subs| && AloneInChat(subs, i) && DistinctIds(subs)
    ensures AloneInChat(Loaded(subs, cursors), i) && DistinctIds(Loaded(subs, cursors))
    ensures Loaded(subs, cursors)[i] == subs[i].(lastPolledAt := CursorOf(cursors, subs[i].id))
  {
  }

  /** The desk holds of issue and subscription what the run says before poll `n`. */
  ghost predicate Agrees(cfg: Config, feed: Feed, polls: seq<Poll>, d: Desk, subject: Subject, n: nat)
    requires n <= |polls|
  {
    && Lookup(d.pending, Key(subject.chat, feed.key)) == PendingAt(cfg, feed, polls, n)
    && CursorOf(d.cursors, subject.id) == CursorAt(polls, n)
  }

  /** The same before the flush after poll `k`. */
  ghost predicate AgreesGathered(cfg: Config, feed: Feed, polls: seq<Poll>, d: Desk, subject: Subject, k: nat)
    requires k < |polls|
  {
    && Lookup(d.pending, Key(subject.chat, feed.key)) == GatheredAt(cfg, feed, polls, k)
    && CursorOf(d.cursors, subject.id) == CursorAt(polls, k + 1)
  }

  /** A poll of all the user's subscriptions leaves of the issue what `GatheredAt` says, and of the
      cursor what `CursorAt` says. */
  lemma {:induction false} PollIsGathered(cfg: Config, feed: Feed, polls: seq<Poll>, k: nat, d: Desk, t: Turn, i: nat,
                                          subject: Subject)
    requires k < |polls| && PlaysTurn(cfg, feed, polls, k, d, t, i, subject)
    requires Agrees(cfg, feed, polls, d, subject, k)
    ensures AgreesGathered(cfg, feed, polls, AfterTurn(cfg.interval, d, t), subject, k)
  {
    var w, subs, setup := World(d.pending, {}, d.cursors, false), Loaded(t.subs, d.cursors), SetupOf(cfg.interval, t);
    LoadedKeeps(t.subs, d.cursors, i);
    CursorAfterPoll(w, subs, t.calls, setup, i);
    AloneSubscriptionIsIndependent(w, subs, t.calls, setup, i, feed.key);
    assert SinceOf(subs[i], t.calls[i], setup) == SinceAt(cfg, polls, k);
  }

  // ---------------------------------------------------------------- ticks

  /** Where a tick polls the subscription: in this turn, at this place. */
  datatype Place = Place(turn: nat, sub: nat)

  /** The tick is poll `k` for the subscription, which is alone in its chat among all users; without a
      place the tick does not get to it, and the poll counts as one whose search was not made. */
  ghost predicate Plays(cfg: Config, feed: Feed, polls: seq<Poll>, k: nat, d: Desk, tick: Tick, place: Option<Place>,
                        subject: Subject)
    requires k < |polls|
  {
    && tick.flushedAt == polls[k].flushedAt
    && (place.Some? ==> place.value.turn < |tick.turns|)
    && (forall m :: 0 <= m < |tick.turns| && (place.Some? ==> m != place.value.turn) ==>
          Avoids(tick.turns[m], subject))
    && match place
       case None => !polls[k].found
       case Some(at) =>
         PlaysTurn(cfg, feed, polls, k, DeskDuring(cfg.interval, d, tick.turns, at.turn), tick.turns[at.turn], at.sub,
                   subject)
  }

  /** The turns of all users together leave what the subscription's own poll leaves. */
  lemma {:induction false} TickIsGathered(cfg: Config, feed: Feed, polls: seq<Poll>, k: nat, d: Desk, tick: Tick,
                                          place: Option<Place>, subject: Subject)
    requires k < |polls| && Plays(cfg, feed, polls, k, d, tick, place, subject)
    requires Agrees(cfg, feed, polls, d, subject, k)
    ensures AgreesGathered(cfg, feed, polls, Polled(cfg.interval, d, tick), subject, k)
  {
    var turns, n := tick.turns, |tick.turns|;
    match place
    case None =>
      TurnsBetweenKeep(cfg.interval, d, turns, 0, n, subject, feed.key);
    case Some(at) =>
      TurnsBetweenKeep(cfg.interval, d, turns, 0, at.turn, subject, feed.key);
      PollIsGathered(cfg, feed, polls, k, DeskDuring(cfg.interval, d, turns, at.turn), turns[at.turn], at.sub, subject);
      TurnsBetweenKeep(cfg.interval, d, turns, at.turn + 1, n, subject, feed.key);
  }

  lemma {:induction false} FlushedLookup(pending: Batch, now: int, window: nat, key: Key)
    ensures Lookup(Unripe(pending, now, window), key)
         == if key in pending && !Ripe(pending[key], now, window) then Some(pending[key]) else None
  {
  }

  lemma {:induction false} TickIsPoll(cfg: Config, feed: Feed, polls: seq<Poll>, k: nat, d: Desk, tick: Tick,
                                      place: Option<Place>, subject: Subject)
    requires k < |polls| && Plays(cfg, feed, polls, k, d, tick, place, subject)
    requires Agrees(cfg, feed, polls, d, subject, k)
    ensures Agrees(cfg, feed, polls, AfterTick(cfg, d, tick), subject, k + 1)
  {
    TickIsGathered(cfg, feed, polls, k, d, tick, place, subject);
    FlushedLookup(Polled(cfg.interval, d, tick).pending, tick.flushedAt, cfg.batchWindow,
                  Key(subject.chat, feed.key));
  }

  ghost predicate PlaysAt(cfg: Config, feed: Feed, polls: seq<Poll>, ticks: seq<Tick>, places: seq<Option<Place>>,
                          subject: Subject, k: nat)
    requires |ticks| == |polls| == |places| && k < |ticks|
  {
    Plays(cfg, feed, polls, k, DeskAt(cfg, ticks, k), ticks[k], places[k], subject)
  }

  /** Ticks, one for each poll; `places` is where the subscription is in each. */
  ghost predicate PlayAll(cfg: Config, feed: Feed, polls: seq<Poll>, ticks: seq<Tick>, places: seq<Option<Place>>,
                          subject: Subject) {
    && |ticks| == |polls| == |places|
    && forall k :: 0 <= k < |ticks| ==> PlaysAt(cfg, feed, polls, ticks, places, subject, k)
  }

  /** So every run of ticks over any users in which the subscription stays alone in its chat is, for each
      issue, one of the runs the coverage and net-change results are about: before each tick, and after
      its polls. */
  lemma {:induction false} TicksFollowPolls(cfg: Config, feed: Feed, polls: seq<Poll>, ticks: seq<Tick>,
                                            places: seq<Option<Place>>, subject: Subject, n: nat)
    requires PlayAll(cfg, feed, polls, ticks, places, subject) && n <= |ticks|
    ensures Agrees(cfg, feed, polls, DeskAt(cfg, ticks, n), subject, n)
    ensures n < |ticks| ==>
              AgreesGathered(cfg, feed, polls, Polled(cfg.interval, DeskAt(cfg, ticks, n), ticks[n]), subject, n)
  {
    if n > 0 {
      TicksFollowPolls(cfg, feed, polls, ticks, places, subject, n - 1);
      assert PlaysAt(cfg, feed, polls, ticks, places, subject, n - 1);
      TickIsPoll(cfg, feed, polls, n - 1, DeskAt(cfg, ticks, n - 1), ticks[n - 1], places[n - 1], subject);
    }
    if n < |ticks| {
      assert PlaysAt(cfg, feed, polls, ticks, places, subject, n);
      TickIsGathered(cfg, feed, polls, n, DeskAt(cfg, ticks, n), ticks[n], places[n], subject);
    }
  }
}
