/**
  The change poller of internal/poller/poller.go: one poll of a user's subscriptions, and the map of
  notifications that wait for their batch window. Instants are integer milliseconds; cursors and the
  start of a window are whole seconds, as the code keeps them.
*/
module ChangePoller {
  import opened Wrappers
  import opened ChangeMerge

  datatype User = User(accountId: string, displayName: string)

  /** `created` is None where the timestamp cannot be parsed. */
  datatype Entry = Entry(created: Option<int>, author: Option<User>, items: seq<ChangeItem>)

  datatype Comment = Comment(id: string, author: Option<User>, body: string)

  /** `updated` is None where the timestamp is empty or cannot be parsed. */
  datatype Issue = Issue(key: string, updated: Option<int>, log: seq<Entry>)

  datatype Key = Key(chat: int, issue: string)

  datatype Pending = Pending(issue: Issue,
                             authors: map<string, string>,
                             changes: Changes,
                             comments: map<string, Comment>,
                             firstSeen: int,
                             isMention: bool)

  type Batch = map<Key, Pending>

  // ---------------------------------------------------------------- what a window holds

  predicate Counts(e: Entry, since: int, exclude: string) {
    && e.created.Some? && e.created.value > since * 1000
    && !(exclude != "" && e.author.Some? && e.author.value.accountId == exclude)
  }

  function RecentItems(log: seq<Entry>, since: int, exclude: string): seq<ChangeItem>
    decreases |log|
  {
    if log == [] then []
    else
      var e := log[|log| - 1];
      RecentItems(log[..|log| - 1], since, exclude) + if Counts(e, since, exclude) then e.items else []
  }

  function AccountIds(users: seq<User>): set<string> {
    set u | u in users :: u.accountId
  }

  function RecentAuthors(log: seq<Entry>, since: int, exclude: string): seq<User>
    decreases |log|
  {
    if log == [] then []
    else
      var e, before := log[|log| - 1], RecentAuthors(log[..|log| - 1], since, exclude);
      if Counts(e, since, exclude) && e.author.Some? && e.author.value.accountId !in AccountIds(before)
      then before + [e.author.value] else before
  }

  /** One more entry of the log. */
  lemma NextEntry(log: seq<Entry>, i: nat, since: int, exclude: string)
    requires i < |log|
    ensures var before := RecentAuthors(log[..i], since, exclude);
            && RecentItems(log[..i + 1], since, exclude)
               == RecentItems(log[..i], since, exclude) + (if Counts(log[i], since, exclude) then log[i].items else [])
            && RecentAuthors(log[..i + 1], since, exclude)
               == (if Counts(log[i], since, exclude) && log[i].author.Some?
                      && log[i].author.value.accountId !in AccountIds(before)
                   then before + [log[i].author.value] else before)
            && forall u :: AccountIds(before + [u]) == AccountIds(before) + {u.accountId}
  {
    assert log[..i + 1][..i] == log[..i];
    forall u ensures AccountIds(RecentAuthors(log[..i], since, exclude) + [u])
                  == AccountIds(RecentAuthors(log[..i], since, exclude)) + {u.accountId} {
      OneMoreAccount(RecentAuthors(log[..i], since, exclude), u);
    }
  }

  lemma OneMoreAccount(users: seq<User>, u: User)
    ensures AccountIds(users + [u]) == AccountIds(users) + {u.accountId}
  {
    assert forall v :: v in users + [u] <==> v in users || v == u;
  }

  method RecentChanges(issue: Issue, since: int, exclude: string) returns (authors: seq<User>, items: seq<ChangeItem>)
    ensures authors == RecentAuthors(issue.log, since, exclude) && items == RecentItems(issue.log, since, exclude)
  {
    authors, items := [], [];
    var seen: set<string> := {};
    for i := 0 to |issue.log|
      invariant seen == AccountIds(authors)
      invariant authors == RecentAuthors(issue.log[..i], since, exclude)
      invariant items == RecentItems(issue.log[..i], since, exclude)
    {
      var h := issue.log[i];
      NextEntry(issue.log, i, since, exclude);
      if h.created.None? {
        continue;
      }
      if h.created.value <= since * 1000 {
        continue;
      }
      if exclude != "" && h.author.Some? && h.author.value.accountId == exclude {
        continue;
      }
      if h.author.Some? && h.author.value.accountId !in seen {
        seen := seen + {h.author.value.accountId};
        authors := authors + [h.author.value];
      }
      items := items + h.items;
    }
    assert issue.log[..|issue.log|] == issue.log;
  }

  /** The authors of a window are exactly the accounts behind its entries, each once. */
  lemma {:induction false} AuthorsAreThoseOfTheWindow(log: seq<Entry>, since: int, exclude: string)
    ensures forall u :: u in RecentAuthors(log, since, exclude) ==>
              exists e :: e in log && Counts(e, since, exclude) && e.author == Some(u)
    ensures forall e :: e in log && Counts(e, since, exclude) && e.author.Some? ==>
              e.author.value.accountId in AccountIds(RecentAuthors(log, since, exclude))
    ensures forall i, j :: 0 <= i < j < |RecentAuthors(log, since, exclude)| ==>
              RecentAuthors(log, since, exclude)[i].accountId != RecentAuthors(log, since, exclude)[j].accountId
    decreases |log|
  {
    if log == [] {
    } else {
      var n := |log| - 1;
      AuthorsAreThoseOfTheWindow(log[..n], since, exclude);
      assert log == log[..n] + [log[n]];
      var before, after := RecentAuthors(log[..n], since, exclude), RecentAuthors(log, since, exclude);
      assert forall u :: u in before ==> u in after;
      assert forall i :: 0 <= i < |before| ==> before[i] in before;
    }
  }

  // ---------------------------------------------------------------- adding to the batch

  function Credited(authors: map<string, string>, users: seq<User>): map<string, string>
    decreases |users|
  {
    if users == [] then authors
    else
      var u := users[|users| - 1];
      Credited(authors, users[..|users| - 1])[u.accountId := u.displayName]
  }

  function Stashed(comments: map<string, Comment>, added: seq<Comment>): map<string, Comment>
    decreases |added|
  {
    if added == [] then comments
    else
      var c, before := added[|added| - 1], Stashed(comments, added[..|added| - 1]);
      if c.id != "" then before[c.id := c] else before
  }

  /** Comment authors are credited unless already named. */
  function CommentersCredited(authors: map<string, string>, added: seq<Comment>, exclude: string): map<string, string>
    decreases |added|
  {
    if added == [] then authors
    else
      var c, before := added[|added| - 1], CommentersCredited(authors, added[..|added| - 1], exclude);
      if c.author.Some? && c.author.value.accountId != "" && c.author.value.accountId != exclude
         && c.author.value.accountId !in before
      then before[c.author.value.accountId := c.author.value.displayName]
      else before
  }

  /** One sighting of an issue by a subscription. */
  datatype Sighting = Sighting(issue: Issue, since: int, exclude: string, isMention: bool,
                               comments: seq<Comment>, at: int)

  function ItemsOf(s: Sighting): seq<ChangeItem> {
    RecentItems(s.issue.log, s.since, s.exclude)
  }

  predicate Reports(s: Sighting) {
    ItemsOf(s) != [] || s.isMention
  }

  /** The notification after a sighting: its clock starts at the first one, the mention mark sticks,
      and everything else is merged in. */
  function Added(prev: Option<Pending>, s: Sighting): Option<Pending> {
    if !Reports(s) then prev
    else
      var p := match prev
        case None => Pending(s.issue, map[], map[], map[], s.at, s.isMention)
        case Some(q) => q.(isMention := q.isMention || s.isMention);
      var authors := Credited(p.authors, RecentAuthors(s.issue.log, s.since, s.exclude));
      Some(Pending(s.issue, CommentersCredited(authors, s.comments, s.exclude), MergeAll(p.changes, ItemsOf(s)),
                   Stashed(p.comments, s.comments), p.firstSeen, p.isMention))
  }

  function Lookup(pending: Batch, key: Key): Option<Pending> {
    if key in pending then Some(pending[key]) else None
  }

  function AddTo(pending: Batch, chat: int, s: Sighting): Batch {
    var key := Key(chat, s.issue.key);
    match Added(Lookup(pending, key), s)
    case None => pending
    case Some(p) => pending[key := p]
  }

  predicate Ripe(p: Pending, now: int, batchWindow: nat) {
    !(now - p.firstSeen < batchWindow)
  }

  function RipeOnes(pending: Batch, now: int, batchWindow: nat): Batch {
    map key | key in pending && Ripe(pending[key], now, batchWindow) :: pending[key]
  }

  function Unripe(pending: Batch, now: int, batchWindow: nat): Batch {
    map key | key in pending && !Ripe(pending[key], now, batchWindow) :: pending[key]
  }

  /** A list of the batch's notifications, each key once, in some order. */
  ghost predicate Lists(ready: seq<(Key, Pending)>, batch: Batch) {
    && (forall i :: 0 <= i < |ready| ==> ready[i].0 in batch && batch[ready[i].0] == ready[i].1)
    && (forall i, j :: 0 <= i < j < |ready| ==> ready[i].0 != ready[j].0)
    && (forall key :: key in batch ==> (key, batch[key]) in ready)
  }

  lemma ListsGrow(ready: seq<(Key, Pending)>, batch: Batch, key: Key, p: Pending)
    requires Lists(ready, batch) && key !in batch
    ensures Lists(ready + [(key, p)], batch[key := p])
  {
    var grown, batch' := ready + [(key, p)], batch[key := p];
    forall k | k in batch' ensures (k, batch'[k]) in grown {
      if k != key { assert (k, batch[k]) in ready; } else { assert grown[|ready|] == (key, p); }
    }
  }

  /** Two batches share out a third. */
  ghost predicate Split(all: Batch, taken: Batch, left: Batch) {
    && (forall key :: key in all <==> key in taken || key in left)
    && (forall key :: key in taken ==> key !in left && taken[key] == all[key])
    && (forall key :: key in left ==> left[key] == all[key])
  }

  lemma MovesOver(all: Batch, taken: Batch, left: Batch, key: Key)
    requires Split(all, taken, left) && key in left
    ensures Split(all, taken[key := left[key]], left - {key})
  {
  }

  // ---------------------------------------------------------------- one poll of a user

  /** An active subscription as loaded; `jql` is "" where none can be built. */
  datatype Subscription = Subscription(id: int, chat: int, isMention: bool, jql: string, lastPolledAt: int)

  /** One search hit: the issue, the comments that mention the user, and the clock when it is handled. */
  datatype Hit = Hit(issue: Issue, comments: seq<Comment>, at: int)

  datatype Search = TokenInvalid | Failed | Hits(hits: seq<Hit>)

  /** What happens for one subscription: when its cursor is read, what the search returns, and
      whether the new cursor is stored. */
  datatype Call = Call(readAt: int, search: Search, saved: bool)

  /** Everything one poll changes; `stopped` once the token proves invalid. */
  datatype World = World(pending: Batch, notified: set<Key>, cursors: map<int, int>, stopped: bool)

  function SinceTimestamp(lastPolledAt: int, readAt: int, interval: nat): int {
    if lastPolledAt > 0 then lastPolledAt else (readAt - interval) / 1000
  }

  predicate Stale(issue: Issue, since: int) {
    issue.updated.Some? && !(issue.updated.value > since * 1000)
  }

  function SightingOf(sub: Subscription, hit: Hit, since: int, exclude: string): Sighting {
    Sighting(hit.issue, since, exclude, sub.isMention, if sub.isMention then hit.comments else [], hit.at)
  }

  function HandleHit(w: World, sub: Subscription, hit: Hit, since: int, exclude: string): World {
    var key := Key(sub.chat, hit.issue.key);
    if Stale(hit.issue, since) || (sub.isMention && hit.comments == []) then w
    else if key !in w.pending && key in w.notified then w
    else
      w.(pending := AddTo(w.pending, sub.chat, SightingOf(sub, hit, since, exclude)),
         notified := if key in w.pending then w.notified else w.notified + {key})
  }

  function HandleHits(w: World, sub: Subscription, hits: seq<Hit>, since: int, exclude: string): World
    decreases |hits|
  {
    if hits == [] then w
    else HandleHit(HandleHits(w, sub, hits[..|hits| - 1], since, exclude), sub, hits[|hits| - 1], since, exclude)
  }

  function CursorOf(cursors: map<int, int>, id: int): int {
    if id in cursors then cursors[id] else 0
  }

  /** The subscriptions as the store returns them, each with its own cursor. */
  function Loaded(subs: seq<Subscription>, cursors: map<int, int>): seq<Subscription> {
    seq(|subs|, i requires 0 <= i < |subs| => subs[i].(lastPolledAt := CursorOf(cursors, subs[i].id)))
  }

  datatype Setup = Setup(interval: nat, exclude: string, now: int)

  function PollSub(w: World, sub: Subscription, call: Call, setup: Setup): World {
    if w.stopped || sub.jql == "" then w
    else match call.search
      case TokenInvalid => w.(stopped := true)
      case Failed => w
      case Hits(hits) =>
        var since := SinceTimestamp(sub.lastPolledAt, call.readAt, setup.interval);
        var w' := HandleHits(w, sub, hits, since, setup.exclude);
        if call.saved then w'.(cursors := w'.cursors[sub.id := setup.now]) else w'
  }

  function PollSubs(w: World, subs: seq<Subscription>, calls: seq<Call>, setup: Setup): World
    requires |calls| == |subs|
    decreases |subs|
  {
    if subs == [] then w
    else
      var n := |subs| - 1;
      PollSub(PollSubs(w, subs[..n], calls[..n], setup), subs[n], calls[n], setup)
  }

  class Poller {
    const interval: nat
    const batchWindow: nat
    var pending: Batch
    /** The last_polled_at column of the subscription store. */
    var cursors: map<int, int>

    constructor (interval: nat, batchWindow: nat, cursors: map<int, int>)
      ensures this.interval == interval && this.batchWindow == batchWindow && this.cursors == cursors
              && pending == map[]
    {
      this.interval, this.batchWindow, this.cursors, pending := interval, batchWindow, cursors, map[];
    }

    method Stash(start: Pending, s: Sighting) returns (p: Pending)
      ensures p == start.(comments := Stashed(start.comments, s.comments),
                          authors := CommentersCredited(start.authors, s.comments, s.exclude))
    {
      p := start;
      for i := 0 to |s.comments|
        invariant p == start.(comments := Stashed(start.comments, s.comments[..i]),
                              authors := CommentersCredited(start.authors, s.comments[..i], s.exclude))
      {
        var c := s.comments[i];
        assert s.comments[..i + 1][..i] == s.comments[..i];
        if c.id != "" {
          p := p.(comments := p.comments[c.id := c]);
        }
        if c.author.Some? && c.author.value.accountId != "" && c.author.value.accountId != s.exclude {
          if c.author.value.accountId !in p.authors {
            p := p.(authors := p.authors[c.author.value.accountId := c.author.value.displayName]);
          }
        }
      }
      assert s.comments[..|s.comments|] == s.comments;
    }

    method Credit(start: map<string, string>, users: seq<User>) returns (authors: map<string, string>)
      ensures authors == Credited(start, users)
    {
      authors := start;
      for i := 0 to |users|
        invariant authors == Credited(start, users[..i])
      {
        assert users[..i + 1][..i] == users[..i];
        authors := authors[users[i].accountId := users[i].displayName];
      }
      assert users[..|users|] == users;
    }

    method AddPending(chat: int, s: Sighting)
      modifies this`pending
      ensures pending == AddTo(old(pending), chat, s)
    {
      var authors, changes := RecentChanges(s.issue, s.since, s.exclude);
      if changes == [] && !s.isMention {
        return;
      }
      var key := Key(chat, s.issue.key);
      var pn: Pending;
      if key !in pending {
        pn := Pending(s.issue, map[], map[], map[], s.at, s.isMention);
      } else if s.isMention {
        pn := pending[key].(isMention := true);
      } else {
        pn := pending[key];
      }
      pn := pn.(issue := s.issue);
      var credited := Credit(pn.authors, authors);
      pn := pn.(authors := credited);
      pn := Stash(pn, s);
      var merged := MergeChanges(pn.changes, changes);
      pn := pn.(changes := merged);
      pending := pending[key := pn];
    }

    /** Takes out the notifications that have waited for the batch window, and lists them. */
    method FlushPending(now: int) returns (ready: seq<(Key, Pending)>)
      modifies this`pending
      ensures Lists(ready, RipeOnes(old(pending), now, batchWindow))
      ensures pending == Unripe(old(pending), now, batchWindow)
    {
      ready := [];
      ghost var all, taken := pending, map[];
      var rest := pending.Keys;
      while rest != {}
        invariant rest <= pending.Keys && Split(all, taken, pending) && Lists(ready, taken)
        invariant forall key :: key in all && key !in rest ==> (key in taken <==> Ripe(all[key], now, batchWindow))
        invariant forall key :: key in taken ==> key !in rest
        decreases |rest|
      {
        var key :| key in rest;
        rest := rest - {key};
        if now - pending[key].firstSeen < batchWindow {
          continue;
        }
        ListsGrow(ready, taken, key, pending[key]);
        MovesOver(all, taken, pending, key);
        ready := ready + [(key, pending[key])];
        taken := taken[key := pending[key]];
        pending := pending - {key};
      }
      assert taken == RipeOnes(all, now, batchWindow);
    }

    /** Takes out every notification; what shutdown does. */
    method FlushAllPending() returns (ready: seq<(Key, Pending)>)
      modifies this`pending
      ensures Lists(ready, old(pending)) && pending == map[]
    {
      ready := [];
      ghost var all, taken := pending, map[];
      while pending.Keys != {}
        invariant Split(all, taken, pending) && Lists(ready, taken)
        decreases |pending.Keys|
      {
        var key :| key in pending.Keys;
        ghost var before := pending.Keys;
        MovesOver(all, taken, pending, key);
        ListsGrow(ready, taken, key, pending[key]);
        ready := ready + [(key, pending[key])];
        taken := taken[key := pending[key]];
        pending := pending - {key};
        assert pending.Keys == before - {key};
      }
      assert taken == all;
    }

    method HandleOne(sub: Subscription, hit: Hit, since: int, exclude: string, notified: set<Key>)
      returns (notified': set<Key>)
      modifies this`pending
      ensures World(pending, notified', cursors, false)
           == HandleHit(World(old(pending), notified, cursors, false), sub, hit, since, exclude)
    {
      notified' := notified;
      if hit.issue.updated.Some? && hit.issue.updated.value <= since * 1000 {
        return;
      }
      if sub.isMention && hit.comments == [] {
        return;
      }
      var key := Key(sub.chat, hit.issue.key);
      if key !in pending {
        if key in notified {
          return;
        }
        notified' := notified + {key};
      }
      AddPending(sub.chat, SightingOf(sub, hit, since, exclude));
    }

    method HandleList(sub: Subscription, hits: seq<Hit>, since: int, exclude: string, notified: set<Key>)
      returns (notified': set<Key>)
      modifies this`pending
      ensures World(pending, notified', cursors, false)
           == HandleHits(World(old(pending), notified, cursors, false), sub, hits, since, exclude)
    {
      notified' := notified;
      for i := 0 to |hits|
        invariant World(pending, notified', cursors, false)
               == HandleHits(World(old(pending), notified, cursors, false), sub, hits[..i], since, exclude)
      {
        assert hits[..i + 1][..i] == hits[..i];
        notified' := HandleOne(sub, hits[i], since, exclude, notified');
      }
      assert hits[..|hits|] == hits;
    }

    /** One poll of a user's subscriptions, in the given order. */
    method PollUser(startedAt: int, exclude: string, subs: seq<Subscription>, calls: seq<Call>) returns (stopped: bool)
      requires |calls| == |subs|
      modifies this
      ensures exists notified ::
        World(pending, notified, cursors, stopped)
        == PollSubs(World(old(pending), {}, old(cursors), false), subs, calls,
                    Setup(interval, exclude, startedAt / 1000))
    {
      var now := startedAt / 1000;
      var notified: set<Key> := {};
      ghost var setup := Setup(interval, exclude, now);
      ghost var w0 := World(pending, {}, cursors, false);
      for i := 0 to |subs|
        invariant World(pending, notified, cursors, false) == PollSubs(w0, subs[..i], calls[..i], setup)
      {
        assert subs[..i + 1][..i] == subs[..i] && calls[..i + 1][..i] == calls[..i];
        if subs[i].jql == "" {
          continue;
        }
        var since := SinceTimestamp(subs[i].lastPolledAt, calls[i].readAt, interval);
        match calls[i].search
        case TokenInvalid =>
          StoppedStays(w0, subs, calls, setup, i + 1);
          assert World(pending, notified, cursors, true) == PollSubs(w0, subs, calls, setup);
          return true;
        case Failed =>
        case Hits(hits) =>
          notified := HandleList(subs[i], hits, since, exclude, notified);
          if calls[i].saved {
            cursors := cursors[subs[i].id := now];
          }
      }
      assert subs[..|subs|] == subs && calls[..|calls|] == calls;
      stopped := false;
    }

    /** What the outer loop does for one user: loads the active subscriptions with the cursors of the
        store, and polls them. */
    method LoadAndPoll(startedAt: int, exclude: string, active: seq<Subscription>, calls: seq<Call>)
      returns (stopped: bool)
      requires |calls| == |active|
      modifies this
      ensures exists notified ::
        World(pending, notified, cursors, stopped)
        == PollSubs(World(old(pending), {}, old(cursors), false), Loaded(active, old(cursors)), calls,
                    Setup(interval, exclude, startedAt / 1000))
    {
      stopped := PollUser(startedAt, exclude, Loaded(active, cursors), calls);
    }
  }

  lemma {:induction false} StoppedStays(w: World, subs: seq<Subscription>, calls: seq<Call>, setup: Setup, i: nat)
    requires |calls| == |subs| && i <= |subs| && PollSubs(w, subs[..i], calls[..i], setup).stopped
    ensures PollSubs(w, subs, calls, setup) == PollSubs(w, subs[..i], calls[..i], setup)
    decreases |subs|
  {
    var n := |subs|;
    if i < n {
      assert subs[..n - 1][..i] == subs[..i] && calls[..n - 1][..i] == calls[..i];
      StoppedStays(w, subs[..n - 1], calls[..n - 1], setup, i);
    } else {
      assert subs[..i] == subs && calls[..i] == calls;
    }
  }
}
