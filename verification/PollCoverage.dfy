/**
  Whole runs of the change poller of internal/poller/poller.go for one issue and one subscription
  that is alone in its chat: which changelog entries are handed over, and what a merged
  notification then says.
*/
module PollCoverage {
  import opened Wrappers
  import opened ChangeMerge
  import opened ChangePoller

  // ---------------------------------------------------------------- one poll, seen from one issue

  ghost predicate DistinctHits(hits: seq<Hit>) {
    forall i, j :: 0 <= i < j < |hits| ==> hits[i].issue.key != hits[j].issue.key
  }

  function HitFor(hits: seq<Hit>, issue: string): Option<Hit>
    decreases |hits|
  {
    if hits == [] then None
    else if hits[|hits| - 1].issue.key == issue then Some(hits[|hits| - 1])
    else HitFor(hits[..|hits| - 1], issue)
  }

  /** The issue has not been updated since the start of the window. */
  predicate AlreadySeen(issue: Issue, since: int) {
    issue.updated.Some? && issue.updated.value <= since * 1000
  }

  function Effect(prev: Option<Pending>, sub: Subscription, hit: Hit, since: int, exclude: string): Option<Pending> {
    if AlreadySeen(hit.issue, since) || (sub.isMention && hit.comments == []) then prev
    else Added(prev, SightingOf(sub, hit, since, exclude))
  }

  /** What a poll holds for one key: its notification, and whether this poll already noted it. */
  datatype Slot = Slot(pending: Option<Pending>, notified: bool)

  function SlotOf(w: World, key: Key): Slot {
    Slot(Lookup(w.pending, key), key in w.notified)
  }

  /** One hit for the key: dropped when the key was noted and left nothing pending. */
  function Turn(slot: Slot, sub: Subscription, hit: Hit, since: int, exclude: string): Slot {
    if AlreadySeen(hit.issue, since) || (sub.isMention && hit.comments == []) then slot
    else if slot.pending.None? && slot.notified then slot
    else Slot(Added(slot.pending, SightingOf(sub, hit, since, exclude)), slot.notified || slot.pending.None?)
  }

  lemma {:induction false} HitTurn(w: World, sub: Subscription, hit: Hit, since: int, exclude: string, key: Key)
    ensures SlotOf(HandleHit(w, sub, hit, since, exclude), key)
         == if key == Key(sub.chat, hit.issue.key) then Turn(SlotOf(w, key), sub, hit, since, exclude)
            else SlotOf(w, key)
  {
  }

  lemma {:induction false} HitsTurn(w: World, sub: Subscription, hits: seq<Hit>, since: int, exclude: string,
                                    issue: string)
    requires DistinctHits(hits)
    ensures var key := Key(sub.chat, issue);
            SlotOf(HandleHits(w, sub, hits, since, exclude), key)
            == match HitFor(hits, issue)
               case None => SlotOf(w, key)
               case Some(hit) => Turn(SlotOf(w, key), sub, hit, since, exclude)
    decreases |hits|
  {
    if hits == [] {
    } else {
      var n := |hits| - 1;
      HitsTurn(w, sub, hits[..n], since, exclude, issue);
      HitTurn(HandleHits(w, sub, hits[..n], since, exclude), sub, hits[n], since, exclude, Key(sub.chat, issue));
      if hits[n].issue.key == issue { NoEarlierHit(hits, n, issue); }
    }
  }

  lemma {:induction false} NoEarlierHit(hits: seq<Hit>, n: nat, issue: string)
    requires n <= |hits| && forall i :: 0 <= i < n ==> hits[i].issue.key != issue
    ensures HitFor(hits[..n], issue).None?
  {
    if n == 0 {
    } else {
      NoEarlierHit(hits, n - 1, issue);
      assert hits[..n][..n - 1] == hits[..n - 1];
    }
  }

  lemma {:induction false} OtherChatUntouched(w: World, sub: Subscription, hits: seq<Hit>, since: int, exclude: string,
                                              key: Key)
    requires key.chat != sub.chat
    ensures SlotOf(HandleHits(w, sub, hits, since, exclude), key) == SlotOf(w, key)
    decreases |hits|
  {
    if hits == [] {
    } else {
      OtherChatUntouched(w, sub, hits[..|hits| - 1], since, exclude, key);
    }
  }

  function SinceOf(sub: Subscription, call: Call, setup: Setup): int {
    SinceTimestamp(sub.lastPolledAt, call.readAt, setup.interval)
  }

  /** What one subscription's call does to a key of its own chat. */
  function SubTurn(slot: Slot, reached: bool, sub: Subscription, call: Call, setup: Setup, issue: string): Slot {
    if reached && call.search.Hits? && HitFor(call.search.hits, issue).Some?
    then Turn(slot, sub, HitFor(call.search.hits, issue).value, SinceOf(sub, call, setup), setup.exclude)
    else slot
  }

  ghost predicate DistinctFound(call: Call) {
    call.search.Hits? ==> DistinctHits(call.search.hits)
  }

  predicate Reached(w: World, sub: Subscription) { !w.stopped && sub.jql != "" }

  lemma {:induction false} OwnTurn(w: World, sub: Subscription, call: Call, setup: Setup, issue: string)
    requires DistinctFound(call)
    ensures var key := Key(sub.chat, issue);
            SlotOf(PollSub(w, sub, call, setup), key)
            == SubTurn(SlotOf(w, key), Reached(w, sub), sub, call, setup, issue)
  {
    if call.search.Hits? {
      HitsTurn(w, sub, call.search.hits, SinceOf(sub, call, setup), setup.exclude, issue);
    }
  }

  lemma {:induction false} OtherTurn(w: World, sub: Subscription, call: Call, setup: Setup, key: Key)
    requires key.chat != sub.chat
    ensures SlotOf(PollSub(w, sub, call, setup), key) == SlotOf(w, key)
  {
    if call.search.Hits? {
      OtherChatUntouched(w, sub, call.search.hits, SinceOf(sub, call, setup), setup.exclude, key);
    }
  }

  /** The world once the first `n` subscriptions have had their turn. */
  function Upto(w: World, subs: seq<Subscription>, calls: seq<Call>, setup: Setup, n: nat): World
    requires |calls| == |subs| && n <= |subs|
  {
    PollSubs(w, subs[..n], calls[..n], setup)
  }

  lemma {:induction false} NextTurn(w: World, subs: seq<Subscription>, calls: seq<Call>, setup: Setup, n: nat)
    requires |calls| == |subs| && n < |subs|
    ensures Upto(w, subs, calls, setup, n + 1) == PollSub(Upto(w, subs, calls, setup, n), subs[n], calls[n], setup)
  {
    assert subs[..n + 1][..n] == subs[..n] && calls[..n + 1][..n] == calls[..n];
  }

  lemma {:induction false} AllTurns(w: World, subs: seq<Subscription>, calls: seq<Call>, setup: Setup)
    requires |calls| == |subs|
    ensures Upto(w, subs, calls, setup, |subs|) == PollSubs(w, subs, calls, setup)
    ensures Upto(w, subs, calls, setup, 0) == w
  {
    assert subs[..|subs|] == subs && calls[..|calls|] == calls;
  }

  /** Subscriptions of other chats leave a key alone. */
  lemma {:induction false} UntouchedBetween(w: World, subs: seq<Subscription>, calls: seq<Call>, setup: Setup,
                                            i: nat, n: nat, key: Key)
    requires |calls| == |subs| && i <= n <= |subs| && forall m :: i <= m < n ==> subs[m].chat != key.chat
    ensures SlotOf(Upto(w, subs, calls, setup, n), key) == SlotOf(Upto(w, subs, calls, setup, i), key)
    decreases n
  {
    if i == n {
    } else {
      UntouchedBetween(w, subs, calls, setup, i, n - 1, key);
      NextTurn(w, subs, calls, setup, n - 1);
      OtherTurn(Upto(w, subs, calls, setup, n - 1), subs[n - 1], calls[n - 1], setup, key);
    }
  }

  lemma {:induction false} StopsIff(w: World, sub: Subscription, call: Call, setup: Setup)
    ensures PollSub(w, sub, call, setup).stopped <==> w.stopped || (sub.jql != "" && call.search.TokenInvalid?)
  {
    if call.search.Hits? {
      HitsStopNothing(w, sub, call.search.hits, SinceOf(sub, call, setup), setup.exclude);
    }
  }

  lemma {:induction false} HitsStopNothing(w: World, sub: Subscription, hits: seq<Hit>, since: int, exclude: string)
    ensures HandleHits(w, sub, hits, since, exclude).stopped == w.stopped
    decreases |hits|
  {
    if hits == [] {
    } else {
      HitsStopNothing(w, sub, hits[..|hits| - 1], since, exclude);
    }
  }

  /** A poll gets to a subscription exactly when it has a query and no search before it, of a subscription
      with one, found the user's token to be invalid. */
  lemma {:induction false} ReachedIff(w: World, subs: seq<Subscription>, calls: seq<Call>, setup: Setup, n: nat)
    requires |calls| == |subs| && n < |subs| && !w.stopped
    ensures Reached(Upto(w, subs, calls, setup, n), subs[n]) <==>
              && subs[n].jql != ""
              && forall m :: 0 <= m < n ==> !(subs[m].jql != "" && calls[m].search.TokenInvalid?)
  {
    StoppedIff(w, subs, calls, setup, n);
  }

  lemma {:induction false} StoppedIff(w: World, subs: seq<Subscription>, calls: seq<Call>, setup: Setup, n: nat)
    requires |calls| == |subs| && n <= |subs| && !w.stopped
    ensures Upto(w, subs, calls, setup, n).stopped <==>
              exists m :: 0 <= m < n && subs[m].jql != "" && calls[m].search.TokenInvalid?
    decreases n
  {
    if n == 0 {
      AllTurns(w, subs, calls, setup);
    } else {
      StoppedIff(w, subs, calls, setup, n - 1);
      NextTurn(w, subs, calls, setup, n - 1);
      StopsIff(Upto(w, subs, calls, setup, n - 1), subs[n - 1], calls[n - 1], setup);
    }
  }

  ghost predicate AloneInChat(subs: seq<Subscription>, i: nat)
    requires i < |subs|
  {
    forall j :: 0 <= j < |subs| && j != i ==> subs[j].chat != subs[i].chat
  }

  /** The polls of the other subscriptions do not matter to one that is alone in its chat: its
      notification for an issue changes by its own hit for that issue and by nothing else. */
  lemma {:induction false} AloneSubscriptionIsIndependent(w: World, subs: seq<Subscription>, calls: seq<Call>,
                                                          setup: Setup, i: nat, issue: string)
    requires |calls| == |subs| && i < |subs| && AloneInChat(subs, i) && Key(subs[i].chat, issue) !in w.notified
    requires DistinctFound(calls[i])
    ensures var key, call := Key(subs[i].chat, issue), calls[i];
            var reached := Reached(Upto(w, subs, calls, setup, i), subs[i]);
            Lookup(PollSubs(w, subs, calls, setup).pending, key)
            == if reached && call.search.Hits? && HitFor(call.search.hits, issue).Some?
               then Effect(Lookup(w.pending, key), subs[i], HitFor(call.search.hits, issue).value,
                           SinceOf(subs[i], call, setup), setup.exclude)
               else Lookup(w.pending, key)
  {
    var key := Key(subs[i].chat, issue);
    AllTurns(w, subs, calls, setup);
    UntouchedBetween(w, subs, calls, setup, 0, i, key);
    NextTurn(w, subs, calls, setup, i);
    OwnTurn(Upto(w, subs, calls, setup, i), subs[i], calls[i], setup, issue);
    UntouchedBetween(w, subs, calls, setup, i + 1, |subs|, key);
  }

  ghost predicate DistinctIds(subs: seq<Subscription>) {
    forall i, j :: 0 <= i < j < |subs| ==> subs[i].id != subs[j].id
  }

  lemma {:induction false} CursorUntouched(w: World, subs: seq<Subscription>, calls: seq<Call>, setup: Setup,
                                           i: nat, n: nat, id: int)
    requires |calls| == |subs| && i <= n <= |subs| && forall m :: i <= m < n ==> subs[m].id != id
    ensures CursorOf(Upto(w, subs, calls, setup, n).cursors, id) == CursorOf(Upto(w, subs, calls, setup, i).cursors, id)
    decreases n
  {
    if i == n {
    } else {
      CursorUntouched(w, subs, calls, setup, i, n - 1, id);
      NextTurn(w, subs, calls, setup, n - 1);
      HitsKeepCursors(Upto(w, subs, calls, setup, n - 1), subs[n - 1], calls[n - 1], setup);
    }
  }

  lemma {:induction false} HitsKeepCursors(w: World, sub: Subscription, call: Call, setup: Setup)
    ensures PollSub(w, sub, call, setup).cursors
         == if Reached(w, sub) && call.search.Hits? && call.saved then w.cursors[sub.id := setup.now] else w.cursors
  {
    if call.search.Hits? {
      CursorsStay(w, sub, call.search.hits, SinceOf(sub, call, setup), setup.exclude);
    }
  }

  lemma {:induction false} CursorsStay(w: World, sub: Subscription, hits: seq<Hit>, since: int, exclude: string)
    ensures HandleHits(w, sub, hits, since, exclude).cursors == w.cursors
    decreases |hits|
  {
    if hits == [] {
    } else {
      CursorsStay(w, sub, hits[..|hits| - 1], since, exclude);
    }
  }

  /** A cursor moves to the start of the poll exactly when its search succeeds and the save does. */
  lemma {:induction false} CursorAfterPoll(w: World, subs: seq<Subscription>, calls: seq<Call>, setup: Setup, i: nat)
    requires |calls| == |subs| && i < |subs| && DistinctIds(subs)
    ensures var reached := Reached(Upto(w, subs, calls, setup, i), subs[i]);
            CursorOf(PollSubs(w, subs, calls, setup).cursors, subs[i].id)
            == if reached && calls[i].search.Hits? && calls[i].saved then setup.now else CursorOf(w.cursors, subs[i].id)
  {
    AllTurns(w, subs, calls, setup);
    CursorUntouched(w, subs, calls, setup, 0, i, subs[i].id);
    NextTurn(w, subs, calls, setup, i);
    HitsKeepCursors(Upto(w, subs, calls, setup, i), subs[i], calls[i], setup);
    CursorUntouched(w, subs, calls, setup, i + 1, |subs|, subs[i].id);
  }

  // ---------------------------------------------------------------- a run of polls

  /** The issue over the whole run: every changelog entry it will ever have. */
  datatype Feed = Feed(key: string, log: seq<Entry>)

  datatype Config = Config(interval: nat, batchWindow: nat, exclude: string)

  /** One poll of the subscription and the flush after it. `updatedAt` is the issue's own timestamp
      when the search runs, `readable` whether it parses. */
  datatype Poll = Poll(startedAt: int, readAt: int, searchedAt: int, found: bool, saved: bool,
                       updatedAt: int, readable: bool, handledAt: int, flushedAt: int)

  /** The changelog as a search at instant `s` returns it. */
  function Visible(log: seq<Entry>, s: int): seq<Entry>
    decreases |log|
  {
    if log == [] then []
    else
      var e := log[|log| - 1];
      Visible(log[..|log| - 1], s) + if e.created.Some? && e.created.value > s then [] else [e]
  }

  function NowOf(p: Poll): int { p.startedAt / 1000 }

  /** The stored cursor before poll `k`; 0 while none was ever stored. */
  function CursorAt(polls: seq<Poll>, k: nat): int
    requires k <= |polls|
  {
    if k == 0 then 0
    else if polls[k - 1].found && polls[k - 1].saved then NowOf(polls[k - 1])
    else CursorAt(polls, k - 1)
  }

  function SinceAt(cfg: Config, polls: seq<Poll>, k: nat): int
    requires k < |polls|
  {
    SinceTimestamp(CursorAt(polls, k), polls[k].readAt, cfg.interval)
  }

  function Remainder(a: int, b: int): int
    requires b > 0
  {
    if a >= 0 then a % b else -((-a) % b)
  }

  /** The query's own bound, cut to the minute; the search returns the issue from there on. */
  predicate Listed(p: Poll, since: int) {
    p.updatedAt >= (since - Remainder(since, 60)) * 1000
  }

  function ViewAt(feed: Feed, p: Poll): Issue {
    Issue(feed.key, if p.readable then Some(p.updatedAt) else None, Visible(feed.log, p.searchedAt))
  }

  function SightingAt(cfg: Config, feed: Feed, polls: seq<Poll>, k: nat): Sighting
    requires k < |polls|
  {
    Sighting(ViewAt(feed, polls[k]), SinceAt(cfg, polls, k), cfg.exclude, false, [], polls[k].handledAt)
  }

  /** Whether poll `k` gets as far as `addPending` with the issue. */
  predicate Sees(cfg: Config, feed: Feed, polls: seq<Poll>, k: nat)
    requires k < |polls|
  {
    var since := SinceAt(cfg, polls, k);
    polls[k].found && Listed(polls[k], since) && !Stale(ViewAt(feed, polls[k]), since)
  }

  /** The pending notification before poll `k`. */
  function PendingAt(cfg: Config, feed: Feed, polls: seq<Poll>, k: nat): Option<Pending>
    requires k <= |polls|
    decreases k, 0
  {
    if k == 0 then None
    else
      var p := GatheredAt(cfg, feed, polls, k - 1);
      if p.Some? && Ripe(p.value, polls[k - 1].flushedAt, cfg.batchWindow) then None else p
  }

  /** The pending notification after poll `k` and before its flush. */
  function GatheredAt(cfg: Config, feed: Feed, polls: seq<Poll>, k: nat): Option<Pending>
    requires k < |polls|
    decreases k, 1
  {
    var prev := PendingAt(cfg, feed, polls, k);
    if Sees(cfg, feed, polls, k) then Added(prev, SightingAt(cfg, feed, polls, k)) else prev
  }

  /** One monotone clock, further past 1970 than the poll interval. */
  ghost predicate Chronological(cfg: Config, polls: seq<Poll>) {
    && (forall k :: 0 <= k < |polls| ==>
          1000 + cfg.interval <= polls[k].startedAt <= polls[k].readAt <= polls[k].searchedAt)
    && (forall j, k :: 0 <= j < k < |polls| ==> polls[j].searchedAt <= polls[k].startedAt)
  }

  /** An issue's timestamp is never before one of its changelog entries. */
  ghost predicate Bumped(feed: Feed, polls: seq<Poll>) {
    forall k, e :: 0 <= k < |polls| && e in feed.log && e.created.Some? && e.created.value <= polls[k].searchedAt ==>
      e.created.value <= polls[k].updatedAt
  }

  /** Poll `k` hands the entry to `addPending` as a recent change. */
  ghost predicate HandsOver(cfg: Config, feed: Feed, polls: seq<Poll>, k: nat, e: Entry)
    requires k < |polls|
  {
    Sees(cfg, feed, polls, k) && e in Visible(feed.log, polls[k].searchedAt)
            && Counts(e, SinceAt(cfg, polls, k), cfg.exclude)
  }

  predicate BySomeoneElse(e: Entry, exclude: string) {
    !(exclude != "" && e.author.Some? && e.author.value.accountId == exclude)
  }

  lemma {:induction false} VisibleAre(log: seq<Entry>, s: int)
    ensures forall e :: e in Visible(log, s) <==> e in log && (e.created.None? || e.created.value <= s)
    decreases |log|
  {
    if log == [] {
    } else {
      VisibleAre(log[..|log| - 1], s);
      assert log == log[..|log| - 1] + [log[|log| - 1]];
    }
  }

  /** The query's truncation, its own timestamp filter and the changelog filter together come down to
      one comparison with the start of the window. */
  lemma {:induction false} HandsOverIff(cfg: Config, feed: Feed, polls: seq<Poll>, k: nat, e: Entry)
    requires Chronological(cfg, polls) && Bumped(feed, polls) && k < |polls|
    requires e in feed.log && e.created.Some? && BySomeoneElse(e, cfg.exclude)
    ensures HandsOver(cfg, feed, polls, k, e) <==>
              polls[k].found && SinceAt(cfg, polls, k) * 1000 < e.created.value <= polls[k].searchedAt
  {
    VisibleAre(feed.log, polls[k].searchedAt);
    CursorBounds(cfg, polls, k);
  }

  lemma {:induction false} CursorBounds(cfg: Config, polls: seq<Poll>, k: nat)
    requires Chronological(cfg, polls) && k <= |polls|
    ensures CursorAt(polls, k) >= 0
    ensures CursorAt(polls, k) > 0 <==> exists j :: 0 <= j < k && polls[j].found && polls[j].saved
    ensures forall j :: k <= j < |polls| ==> CursorAt(polls, k) * 1000 <= polls[j].startedAt
    ensures CursorAt(polls, k) > 0 ==>
              exists j :: 0 <= j < k && polls[j].found && polls[j].saved && CursorAt(polls, k) == NowOf(polls[j])
    ensures forall j :: 0 <= j < k && polls[j].found && polls[j].saved ==> NowOf(polls[j]) <= CursorAt(polls, k)
  {
    if k == 0 {
    } else {
      CursorBounds(cfg, polls, k - 1);
    }
  }

  // ---------------------------------------------------------------- which entries are handed over

  /** Poll `k` is the first successful search that can see an entry created at `c`. */
  ghost predicate FirstToSee(polls: seq<Poll>, k: nat, c: int)
    requires k < |polls|
  {
    polls[k].found && c <= polls[k].searchedAt
    && forall j :: 0 <= j < k ==> !(polls[j].found && c <= polls[j].searchedAt)
  }

  function Fallback(cfg: Config, p: Poll): int { (p.readAt - cfg.interval) / 1000 }

  /** The first poll reads its cursor so late that its fallback window starts after its own start,
      but stores its start as the cursor, and a later search succeeds. */
  ghost predicate CaughtNextTime(polls: seq<Poll>, k: nat, c: int)
    requires k < |polls|
  {
    polls[k].saved && c > NowOf(polls[k]) * 1000 && exists j :: k < j < |polls| && polls[j].found
  }

  ghost predicate EverHandedOver(cfg: Config, feed: Feed, polls: seq<Poll>, e: Entry) {
    exists k :: 0 <= k < |polls| && HandsOver(cfg, feed, polls, k, e)
  }

  /** An entry by someone else that some successful search can see is handed over exactly when a
      cursor had been stored before that search, or the entry is younger than one poll interval
      then, or the next search still catches it. Failed searches and failed cursor saves lose
      nothing else. */
  lemma {:induction false} EntryIsHandedOverIff(cfg: Config, feed: Feed, polls: seq<Poll>, k: nat, e: Entry)
    requires Chronological(cfg, polls) && Bumped(feed, polls) && k < |polls|
    requires e in feed.log && e.created.Some? && BySomeoneElse(e, cfg.exclude) && FirstToSee(polls, k, e.created.value)
    ensures EverHandedOver(cfg, feed, polls, e) <==>
              || (exists j :: 0 <= j < k && polls[j].found && polls[j].saved)
              || e.created.value > Fallback(cfg, polls[k]) * 1000
              || CaughtNextTime(polls, k, e.created.value)
  {
    CursorBounds(cfg, polls, k);
    HandsOverIff(cfg, feed, polls, k, e);
    if CaughtNextTime(polls, k, e.created.value) {
      CaughtByNext(cfg, feed, polls, k, e);
    }
    if CursorAt(polls, k) > 0 {
      CursorBeforeUnseen(cfg, polls, k, e.created.value);
    } else if EverHandedOver(cfg, feed, polls, e) && e.created.value <= Fallback(cfg, polls[k]) * 1000 {
      var j :| 0 <= j < |polls| && HandsOver(cfg, feed, polls, j, e);
      HandedLater(cfg, feed, polls, k, j, e);
    }
  }

  lemma {:induction false} CursorBeforeUnseen(cfg: Config, polls: seq<Poll>, k: nat, c: int)
    requires Chronological(cfg, polls) && k < |polls| && FirstToSee(polls, k, c) && CursorAt(polls, k) > 0
    ensures CursorAt(polls, k) * 1000 < c
  {
    CursorBounds(cfg, polls, k);
    var j :| 0 <= j < k && polls[j].found && polls[j].saved && CursorAt(polls, k) == NowOf(polls[j]);
    assert polls[j].startedAt <= polls[j].searchedAt < c;
  }

  lemma {:induction false} CaughtByNext(cfg: Config, feed: Feed, polls: seq<Poll>, k: nat, e: Entry)
    requires Chronological(cfg, polls) && Bumped(feed, polls) && k < |polls|
    requires e in feed.log && e.created.Some? && BySomeoneElse(e, cfg.exclude) && FirstToSee(polls, k, e.created.value)
    requires CaughtNextTime(polls, k, e.created.value)
    ensures EverHandedOver(cfg, feed, polls, e)
  {
    var j := k + 1;
    while !polls[j].found
      invariant k < j < |polls| && CursorAt(polls, j) == NowOf(polls[k])
      invariant exists i :: j <= i < |polls| && polls[i].found
      decreases |polls| - j
    {
      j := j + 1;
    }
    HandsOverIff(cfg, feed, polls, j, e);
    assert polls[k].searchedAt <= polls[j].startedAt;
    assert HandsOver(cfg, feed, polls, j, e);
  }

  lemma {:induction false} HandedLater(cfg: Config, feed: Feed, polls: seq<Poll>, k: nat, j: nat, e: Entry)
    requires Chronological(cfg, polls) && Bumped(feed, polls) && k < |polls| && j < |polls|
    requires e in feed.log && e.created.Some? && BySomeoneElse(e, cfg.exclude) && FirstToSee(polls, k, e.created.value)
    requires CursorAt(polls, k) == 0 && e.created.value <= Fallback(cfg, polls[k]) * 1000
            && HandsOver(cfg, feed, polls, j, e)
    ensures CaughtNextTime(polls, k, e.created.value)
  {
    HandsOverIff(cfg, feed, polls, j, e);
    LateCursor(cfg, polls, k, j, e.created.value);
  }

  lemma {:induction false} LateCursor(cfg: Config, polls: seq<Poll>, k: nat, j: nat, c: int)
    requires Chronological(cfg, polls) && k < |polls| && j < |polls| && FirstToSee(polls, k, c)
    requires CursorAt(polls, k) == 0 && c <= Fallback(cfg, polls[k]) * 1000
    requires polls[j].found && SinceAt(cfg, polls, j) * 1000 < c <= polls[j].searchedAt
    ensures CaughtNextTime(polls, k, c)
  {
    assert k < j;
    CursorBounds(cfg, polls, k);
    LaterFallback(cfg, polls, k, j);
    var m := CursorSetBy(cfg, polls, j);
    assert k <= m && polls[k].startedAt <= polls[m].startedAt;
    assert polls[m].startedAt < polls[k].readAt;
  }

  lemma {:induction false} LaterFallback(cfg: Config, polls: seq<Poll>, k: nat, j: nat)
    requires Chronological(cfg, polls) && k < j < |polls|
    ensures Fallback(cfg, polls[k]) <= Fallback(cfg, polls[j])
  {
    assert polls[k].readAt <= polls[j].readAt;
  }

  /** The poll that stored the cursor in force. */
  lemma {:induction false} CursorSetBy(cfg: Config, polls: seq<Poll>, j: nat) returns (m: nat)
    requires Chronological(cfg, polls) && j <= |polls| && CursorAt(polls, j) > 0
    ensures m < j && polls[m].found && polls[m].saved && CursorAt(polls, j) == NowOf(polls[m])
  {
    CursorBounds(cfg, polls, j);
    m :| 0 <= m < j && polls[m].found && polls[m].saved && CursorAt(polls, j) == NowOf(polls[m]);
  }

  /** Once a cursor is stored, nothing created afterwards is missed by the next search that succeeds,
      whatever failed in between. */
  lemma {:induction false} NothingIsLostAfterACursor(cfg: Config, feed: Feed, polls: seq<Poll>, i: nat, k: nat,
                                                     e: Entry)
    requires Chronological(cfg, polls) && Bumped(feed, polls) && i < k < |polls|
    requires e in feed.log && e.created.Some? && BySomeoneElse(e, cfg.exclude) && FirstToSee(polls, k, e.created.value)
    requires polls[i].found && polls[i].saved
    ensures HandsOver(cfg, feed, polls, k, e)
  {
    CursorBounds(cfg, polls, k);
    HandsOverIff(cfg, feed, polls, k, e);
    CursorBeforeUnseen(cfg, polls, k, e.created.value);
  }

  /** With no cursor stored, one failed search is enough to lose an entry created after the first
      poll. */
  lemma {:induction false} FailuresBeforeTheFirstCursorLose(a: string)
    requires a != ""
    ensures var cfg := Config(30000, 60000, "me");
            var e := Entry(Some(100500), Some(User("you", "You")), [ChangeItem("status", "", "", a, "", "Done")]);
            var polls := [Poll(100000, 100000, 100000, false, false, 0, true, 100000, 100000),
                          Poll(200000, 200000, 200000, true, true, 100500, true, 200000, 200000)];
            && Chronological(cfg, polls) && Bumped(Feed("P-1", [e]), polls)
            && FirstToSee(polls, 1, 100500) && !EverHandedOver(cfg, Feed("P-1", [e]), polls, e)
  {
    var cfg := Config(30000, 60000, "me");
    var e := Entry(Some(100500), Some(User("you", "You")), [ChangeItem("status", "", "", a, "", "Done")]);
    var polls := [Poll(100000, 100000, 100000, false, false, 0, true, 100000, 100000),
                  Poll(200000, 200000, 200000, true, true, 100500, true, 200000, 200000)];
    EntryIsHandedOverIff(cfg, Feed("P-1", [e]), polls, 1, e);
  }
}
