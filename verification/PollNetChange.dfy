/**
  What a merged notification of internal/poller/poller.go says: however many polls fed it, with
  overlapping windows, failed searches and failed cursor saves, its changes are those of one window
  of the changelog, from the first poll's cursor to the last successful search.
*/
module PollNetChange {
  import opened Wrappers
  import opened ChangeMerge
  import opened ChangePoller
  import opened PollCoverage

  /** The changelog is delivered oldest first. */
  ghost predicate Ascending(log: seq<Entry>) {
    forall i, j :: 0 <= i < j < |log| && log[i].created.Some? && log[j].created.Some? ==>
      log[i].created.value <= log[j].created.value
  }

  predicate InWindow(e: Entry, after: int, upto: int, exclude: string) {
    e.created.Some? && after < e.created.value <= upto && BySomeoneElse(e, exclude)
  }

  /** The items of the entries created after `after` and up to `upto`, by someone else. */
  function WindowItems(log: seq<Entry>, after: int, upto: int, exclude: string): seq<ChangeItem>
    decreases |log|
  {
    if log == [] then []
    else
      var e := log[|log| - 1];
      WindowItems(log[..|log| - 1], after, upto, exclude) + if InWindow(e, after, upto, exclude) then e.items else []
  }

  lemma {:induction false} RecentSnoc(log: seq<Entry>, e: Entry, since: int, exclude: string)
    ensures RecentItems(log + [e], since, exclude)
         == RecentItems(log, since, exclude) + if Counts(e, since, exclude) then e.items else []
  {
    assert (log + [e])[..|log|] == log;
  }

  /** What a search at instant `s` yields is the window from the cursor to `s`. */
  lemma {:induction false} VisibleWindow(log: seq<Entry>, s: int, since: int, exclude: string)
    ensures RecentItems(Visible(log, s), since, exclude) == WindowItems(log, since * 1000, s, exclude)
    decreases |log|
  {
    if log == [] {
    } else {
      var n := |log| - 1;
      VisibleWindow(log[..n], s, since, exclude);
      RecentSnoc(Visible(log[..n], s), log[n], since, exclude);
      assert Visible(log[..n], s) + [] == Visible(log[..n], s);
    }
  }

  lemma {:induction false} NoneInWindow(log: seq<Entry>, after: int, upto: int, exclude: string)
    requires forall i :: 0 <= i < |log| ==> !InWindow(log[i], after, upto, exclude)
    ensures WindowItems(log, after, upto, exclude) == []
    decreases |log|
  {
    if log == [] {
    } else {
      NoneInWindow(log[..|log| - 1], after, upto, exclude);
    }
  }

  /** In an ascending log, nothing before an entry lies after it. */
  lemma {:induction false} NoneAfter(log: seq<Entry>, mid: int, upto: int, exclude: string)
    requires Ascending(log) && log != [] && log[|log| - 1].created.Some? && log[|log| - 1].created.value <= mid
    ensures WindowItems(log[..|log| - 1], mid, upto, exclude) == []
  {
    var n := |log| - 1;
    forall i | 0 <= i < n ensures !InWindow(log[..n][i], mid, upto, exclude) {
      assert log[i].created.Some? ==> log[i].created.value <= log[n].created.value;
    }
    NoneInWindow(log[..n], mid, upto, exclude);
  }

  lemma {:induction false} AppendInside(items: seq<ChangeItem>, a: seq<ChangeItem>, b: seq<ChangeItem>,
                                        x: seq<ChangeItem>, y: seq<ChangeItem>)
    requires items == a + b && (x == [] || b == [])
    ensures items + (x + y) == (a + x) + (b + y)
  {
    if x == [] {
      assert x + y == y && a + x == a;
    } else {
      assert items == a && b + y == y;
    }
  }

  /** A window falls into the part up to any instant in it and the part after. */
  lemma {:induction false} WindowSplits(log: seq<Entry>, after: int, mid: int, upto: int, exclude: string)
    requires Ascending(log) && after <= mid <= upto
    ensures WindowItems(log, after, upto, exclude)
         == WindowItems(log, after, mid, exclude) + WindowItems(log, mid, upto, exclude)
    decreases |log|
  {
    if log == [] {
    } else {
      var n := |log| - 1;
      var init, e := log[..n], log[n];
      WindowSplits(init, after, mid, upto, exclude);
      var x := if InWindow(e, after, mid, exclude) then e.items else [];
      var y := if InWindow(e, mid, upto, exclude) then e.items else [];
      if InWindow(e, after, mid, exclude) {
        NoneAfter(log, mid, upto, exclude);
      }
      AppendInside(WindowItems(init, after, upto, exclude), WindowItems(init, after, mid, exclude),
                   WindowItems(init, mid, upto, exclude), x, y);
      assert (if InWindow(e, after, upto, exclude) then e.items else []) == x + y;
    }
  }

  /** A window merged on top of an earlier, overlapping one gives the union of the two. */
  lemma {:induction false} WindowsMerge(log: seq<Entry>, after: int, again: int, mid: int, upto: int, exclude: string)
    requires Ascending(log) && after <= again <= mid <= upto
    ensures MergeAll(MergeAll(map[], WindowItems(log, after, mid, exclude)), WindowItems(log, again, upto, exclude))
         == MergeAll(map[], WindowItems(log, after, upto, exclude))
  {
    var a, k := WindowItems(log, after, mid, exclude), |WindowItems(log, after, again, exclude)|;
    WindowSplits(log, after, again, mid, exclude);
    WindowSplits(log, again, mid, upto, exclude);
    WindowSplits(log, after, mid, upto, exclude);
    assert a[k..] == WindowItems(log, again, mid, exclude);
    OverlapMergesOnce(map[], a, k, WindowItems(log, mid, upto, exclude));
  }

  // ---------------------------------------------------------------- the run

  /** The instant of the last successful search among polls `0..k`; `before` if there is none. */
  function SeenUpTo(polls: seq<Poll>, k: nat, before: int): int
    requires k <= |polls|
  {
    if k == 0 then before else if polls[k - 1].found then polls[k - 1].searchedAt else SeenUpTo(polls, k - 1, before)
  }

  /** A successful search that does not reach `addPending` has nothing in its window. */
  lemma {:induction false} UnseenIsEmpty(cfg: Config, feed: Feed, polls: seq<Poll>, k: nat)
    requires Chronological(cfg, polls) && Bumped(feed, polls) && k < |polls|
    requires polls[k].found && !Sees(cfg, feed, polls, k)
    ensures WindowItems(feed.log, SinceAt(cfg, polls, k) * 1000, polls[k].searchedAt, cfg.exclude) == []
  {
    forall i | 0 <= i < |feed.log|
      ensures !InWindow(feed.log[i], SinceAt(cfg, polls, k) * 1000, polls[k].searchedAt, cfg.exclude) {
      SeenIfInWindow(cfg, feed, polls, k, feed.log[i]);
    }
    NoneInWindow(feed.log, SinceAt(cfg, polls, k) * 1000, polls[k].searchedAt, cfg.exclude);
  }

  lemma {:induction false} SeenIfInWindow(cfg: Config, feed: Feed, polls: seq<Poll>, k: nat, e: Entry)
    requires Chronological(cfg, polls) && Bumped(feed, polls) && k < |polls| && polls[k].found && e in feed.log
    ensures InWindow(e, SinceAt(cfg, polls, k) * 1000, polls[k].searchedAt, cfg.exclude) ==> Sees(cfg, feed, polls, k)
  {
    if e.created.Some? && BySomeoneElse(e, cfg.exclude) { HandsOverIff(cfg, feed, polls, k, e); }
  }

  /** One poll merges exactly its own window. */
  lemma {:induction false} PollMergesItsWindow(cfg: Config, feed: Feed, polls: seq<Poll>, k: nat)
    requires Chronological(cfg, polls) && Bumped(feed, polls) && k < |polls| && polls[k].found
    ensures var items := WindowItems(feed.log, SinceAt(cfg, polls, k) * 1000, polls[k].searchedAt, cfg.exclude);
            var prev, next := PendingAt(cfg, feed, polls, k), GatheredAt(cfg, feed, polls, k);
            && (items == [] ==> next == prev)
            && (items != [] ==>
                  && next.Some?
                  && next.value.changes == MergeAll(if prev.Some? then prev.value.changes else map[], items))
  {
    VisibleWindow(feed.log, polls[k].searchedAt, SinceAt(cfg, polls, k), cfg.exclude);
    if !Sees(cfg, feed, polls, k) { UnseenIsEmpty(cfg, feed, polls, k); }
  }

  /** The notification made by poll `a` is still gathering at poll `k`. */
  ghost predicate GathersFrom(cfg: Config, feed: Feed, polls: seq<Poll>, a: nat, k: nat)
    requires a <= k < |polls|
  {
    && PendingAt(cfg, feed, polls, a).None? && GatheredAt(cfg, feed, polls, a).Some?
    && forall j :: a <= j < k ==> PendingAt(cfg, feed, polls, j + 1) == GatheredAt(cfg, feed, polls, j)
  }

  /** Every successful search between `a` and `k` starts its window inside what was already seen, and
      not before the first window. */
  ghost predicate Overlapping(cfg: Config, polls: seq<Poll>, a: nat, k: nat)
    requires a <= k < |polls|
  {
    forall j :: a < j <= k && polls[j].found ==>
      SinceAt(cfg, polls, a) <= SinceAt(cfg, polls, j) && SinceAt(cfg, polls, j) * 1000 <= SeenUpTo(polls, j, 0)
  }

  lemma {:induction false} SinceStaysInside(cfg: Config, polls: seq<Poll>, a: nat, k: nat)
    requires Chronological(cfg, polls) && a < k < |polls| && polls[a].found
    requires CursorAt(polls, a + 1) > 0 && SinceAt(cfg, polls, a) <= CursorAt(polls, a + 1)
    ensures SinceAt(cfg, polls, a) <= SinceAt(cfg, polls, k)
    ensures SinceAt(cfg, polls, k) * 1000 <= SeenUpTo(polls, k, 0)
  {
    CursorBounds(cfg, polls, a);
    var n := a + 1;
    while n < k
      invariant a < n <= k
      invariant 0 < CursorAt(polls, a + 1) <= CursorAt(polls, n)
      invariant CursorAt(polls, n) * 1000 <= SeenUpTo(polls, n, 0) <= polls[n].startedAt
    {
      n := n + 1;
    }
  }

  /** Windows overlap whenever a cursor is stored by the end of poll `a` that is not before its window:
      always so when one was stored before, or when that first poll saves its own in time. */
  lemma {:induction false} StoredCursorOverlaps(cfg: Config, polls: seq<Poll>, a: nat, k: nat)
    requires Chronological(cfg, polls) && a <= k < |polls| && polls[a].found
    requires CursorAt(polls, a) > 0 || (polls[a].saved && Fallback(cfg, polls[a]) <= NowOf(polls[a]))
    ensures Overlapping(cfg, polls, a, k)
  {
    CursorBounds(cfg, polls, a);
    forall j | a < j <= k && polls[j].found
      ensures SinceAt(cfg, polls, a) <= SinceAt(cfg, polls, j)
              && SinceAt(cfg, polls, j) * 1000 <= SeenUpTo(polls, j, 0) {
      SinceStaysInside(cfg, polls, a, j);
    }
  }

  /** However its window was split over polls, a notification's changes are the merge of what others
      did from the cursor of the poll that made it to the last successful search, as long as the
      windows in between overlap. */
  lemma {:induction false} BatchIsOneWindow(cfg: Config, feed: Feed, polls: seq<Poll>, a: nat, k: nat)
    requires Chronological(cfg, polls) && Bumped(feed, polls) && Ascending(feed.log)
    requires a <= k < |polls| && GathersFrom(cfg, feed, polls, a, k) && Overlapping(cfg, polls, a, k)
    ensures polls[a].found && GatheredAt(cfg, feed, polls, k).Some?
    ensures GatheredAt(cfg, feed, polls, k).value.changes
         == MergeAll(map[], WindowItems(feed.log, SinceAt(cfg, polls, a) * 1000, SeenUpTo(polls, k + 1, 0),
                                        cfg.exclude))
    decreases k
  {
    if k == a {
      PollMergesItsWindow(cfg, feed, polls, a);
    } else {
      BatchIsOneWindow(cfg, feed, polls, a, k - 1);
      assert PendingAt(cfg, feed, polls, k) == GatheredAt(cfg, feed, polls, k - 1);
      if polls[k].found {
        PollMergesItsWindow(cfg, feed, polls, k);
        SeenBefore(cfg, polls, k);
        WindowsMerge(feed.log, SinceAt(cfg, polls, a) * 1000, SinceAt(cfg, polls, k) * 1000,
                     SeenUpTo(polls, k, 0), polls[k].searchedAt, cfg.exclude);
      }
    }
  }

  lemma {:induction false} SeenBefore(cfg: Config, polls: seq<Poll>, k: nat)
    requires Chronological(cfg, polls) && k < |polls|
    ensures SeenUpTo(polls, k, 0) <= polls[k].searchedAt
  {
    if k == 0 {
    } else {
      SeenBefore(cfg, polls, k - 1);
      assert polls[k - 1].searchedAt <= polls[k].startedAt;
    }
  }

  /** Where they do not overlap, an entry in the gap has been handed over by no poll so far. */
  lemma {:induction false} GapIsMissed(cfg: Config, feed: Feed, polls: seq<Poll>, j: nat, e: Entry)
    requires Chronological(cfg, polls) && Bumped(feed, polls) && j < |polls|
    requires e in feed.log && e.created.Some? && BySomeoneElse(e, cfg.exclude)
    requires SeenUpTo(polls, j, 0) < e.created.value <= SinceAt(cfg, polls, j) * 1000
    ensures forall m :: 0 <= m <= j ==> !HandsOver(cfg, feed, polls, m, e)
  {
    forall m | 0 <= m <= j ensures !HandsOver(cfg, feed, polls, m, e) {
      HandsOverIff(cfg, feed, polls, m, e);
      SeenCovers(cfg, polls, m, j);
    }
  }

  lemma {:induction false} SeenCovers(cfg: Config, polls: seq<Poll>, m: nat, j: nat)
    requires Chronological(cfg, polls) && m <= j < |polls|
    ensures m < j && polls[m].found ==> polls[m].searchedAt <= SeenUpTo(polls, j, 0)
  {
    if m >= j - 1 {
    } else {
      SeenCovers(cfg, polls, m, j - 1);
      assert polls[m].searchedAt <= polls[j - 1].startedAt;
    }
  }

  /** The message built from a gathered notification: a field has a line exactly when the old value of
      its first change by someone else in the window is displayed differently from the new value of the
      last such change. */
  lemma {:induction false} MessageShowsNetChange(cfg: Config, feed: Feed, polls: seq<Poll>, a: nat, k: nat,
                                                 key: string, i: nat, j: nat, lines: seq<Line>)
    requires Chronological(cfg, polls) && Bumped(feed, polls) && Ascending(feed.log)
    requires a <= k < |polls| && GathersFrom(cfg, feed, polls, a, k) && Overlapping(cfg, polls, a, k)
    requires GatheredAt(cfg, feed, polls, k).Some? ==> SectionOf(GatheredAt(cfg, feed, polls, k).value.changes, lines)
    requires var items := WindowItems(feed.log, SinceAt(cfg, polls, a) * 1000, SeenUpTo(polls, k + 1, 0), cfg.exclude);
             key != "" && FirstOf(items, key, i) && LastOf(items, key, j)
    ensures var items := WindowItems(feed.log, SinceAt(cfg, polls, a) * 1000, SeenUpTo(polls, k + 1, 0), cfg.exclude);
            (exists l :: l in lines && l.field == key) <==> Before(items[i]) != After(items[j])
  {
    BatchIsOneWindow(cfg, feed, polls, a, k);
    RenderedIffNetChange(WindowItems(feed.log, SinceAt(cfg, polls, a) * 1000, SeenUpTo(polls, k + 1, 0), cfg.exclude),
                         key, i, j, lines);
  }

  // ---------------------------------------------------------------- the user's own entries

  /** None of the user's own entries in the window names the field. */
  ghost predicate NoOwnNames(log: seq<Entry>, after: int, upto: int, exclude: string, key: string) {
    forall e :: e in log && InWindow(e, after, upto, "") && Mentions(e.items, key) ==> BySomeoneElse(e, exclude)
  }

  lemma {:induction false} OwnUnnamed(log: seq<Entry>, after: int, upto: int, exclude: string, key: string)
    requires NoOwnNames(log, after, upto, exclude, key)
    ensures var own, all := WindowItems(log, after, upto, exclude), WindowItems(log, after, upto, "");
            FirstItem(own, key) == FirstItem(all, key) && LastItem(own, key) == LastItem(all, key)
    decreases |log|
  {
    if log == [] {
    } else {
      var n := |log| - 1;
      var init, e := log[..n], log[n];
      OwnUnnamed(init, after, upto, exclude, key);
      OneMoreEntry(WindowItems(init, after, upto, exclude), e, after, upto, exclude, key);
      OneMoreEntry(WindowItems(init, after, upto, ""), e, after, upto, "", key);
    }
  }

  /** How one more entry extends a window, seen from one field. */
  lemma {:induction false} OneMoreEntry(items: seq<ChangeItem>, e: Entry, after: int, upto: int, exclude: string,
                                        key: string)
    ensures var more := items + if InWindow(e, after, upto, exclude) then e.items else [];
            var counts := InWindow(e, after, upto, exclude) && Mentions(e.items, key);
            && FirstItem(more, key)
               == (if FirstItem(items, key).Some? || !counts then FirstItem(items, key) else FirstItem(e.items, key))
            && LastItem(more, key) == if counts then LastItem(e.items, key) else LastItem(items, key)
  {
    FirstItemOfSum(items, if InWindow(e, after, upto, exclude) then e.items else [], key);
    if Mentions(e.items, key) {
      var i := LastIndex(e.items, key);
      LastItemAt(e.items, key, i);
    } else {
      NoItem(e.items, key);
    }
  }

  /** The message has the line that the whole changelog of the window would have, the user's own entries
      included, exactly when neither has one or the field starts and ends alike with and without them. */
  lemma {:induction false} OwnEntriesAreHarmlessIff(cfg: Config, feed: Feed, polls: seq<Poll>, a: nat, k: nat,
                                                    key: string, lines: seq<Line>)
    requires Chronological(cfg, polls) && Bumped(feed, polls) && Ascending(feed.log) && key != ""
    requires a <= k < |polls| && GathersFrom(cfg, feed, polls, a, k) && Overlapping(cfg, polls, a, k)
    requires GatheredAt(cfg, feed, polls, k).Some? ==> SectionOf(GatheredAt(cfg, feed, polls, k).value.changes, lines)
    ensures var after, upto := SinceAt(cfg, polls, a) * 1000, SeenUpTo(polls, k + 1, 0);
            var counted := WindowItems(feed.log, after, upto, cfg.exclude);
            var all := WindowItems(feed.log, after, upto, "");
            && (Shows(lines, key, LineOf(all, key)) <==> Agree(SpanOf(counted, key), SpanOf(all, key)))
            && (NoOwnNames(feed.log, after, upto, cfg.exclude, key) ==> Shows(lines, key, LineOf(all, key)))
  {
    var after, upto := SinceAt(cfg, polls, a) * 1000, SeenUpTo(polls, k + 1, 0);
    var counted, all := WindowItems(feed.log, after, upto, cfg.exclude), WindowItems(feed.log, after, upto, "");
    BatchIsOneWindow(cfg, feed, polls, a, k);
    SectionShows(counted, key, lines);
    ShowsOneLine(lines, counted, all, key);
    LinesAgreeIff(counted, all, key);
    if NoOwnNames(feed.log, after, upto, cfg.exclude, key) {
      OwnUnnamed(feed.log, after, upto, cfg.exclude, key);
    }
  }

  lemma {:induction false} ShowsOneLine(lines: seq<Line>, a: seq<ChangeItem>, b: seq<ChangeItem>, key: string)
    requires key != "" && Shows(lines, key, LineOf(a, key))
    ensures Shows(lines, key, LineOf(b, key)) <==> LineOf(a, key) == LineOf(b, key)
  {
    RecordIsSpan(a, key);
    RecordIsSpan(b, key);
    if LineOf(a, key).Some? { assert LineOf(a, key).value in lines; }
    if LineOf(b, key).Some? && Shows(lines, key, LineOf(b, key)) { assert LineOf(b, key).value in lines; }
  }

  /** The user moves the field from `a` to `b`, and five seconds later someone else moves it back. */
  function Undone(key: string, a: string, b: string): seq<Entry> {
    [Entry(Some(190000), Some(User("me", "Me")), [ChangeItem(key, "", "", a, "", b)]),
     Entry(Some(195000), Some(User("you", "You")), [ChangeItem(key, "", "", b, "", a)])]
  }

  function OnePoll(): seq<Poll> {
    [Poll(200000, 200000, 200000, true, true, 195000, true, 200000, 200000)]
  }

  /** The field reads A at both ends of the window, and the message says it moved from B to A. */
  lemma {:induction false} UndoneChangeIsReported(key: string, a: string, b: string, lines: seq<Line>)
    requires key != "" && a != "" && b != "" && a != b
    requires var cfg, feed := Config(30000, 60000, "me"), Feed("P-1", Undone(key, a, b));
             GatheredAt(cfg, feed, OnePoll(), 0).Some? ==>
               SectionOf(GatheredAt(cfg, feed, OnePoll(), 0).value.changes, lines)
    ensures var cfg, feed, polls := Config(30000, 60000, "me"), Feed("P-1", Undone(key, a, b)), OnePoll();
            && Chronological(cfg, polls) && Bumped(feed, polls) && Ascending(feed.log)
            && GathersFrom(cfg, feed, polls, 0, 0) && Overlapping(cfg, polls, 0, 0)
    ensures LineOf(WindowItems(Undone(key, a, b), 170000, 200000, ""), key) == None
    ensures Shows(lines, key, Some(Moved(key, b, a)))
  {
    var cfg, feed, polls := Config(30000, 60000, "me"), Feed("P-1", Undone(key, a, b)), OnePoll();
    UndoneWindows(key, a, b);
    UndoneLines(key, a, b);
    PollMergesItsWindow(cfg, feed, polls, 0);
    SectionShows([ChangeItem(key, "", "", b, "", a)], key, lines);
  }

  lemma {:induction false} UndoneWindows(key: string, a: string, b: string)
    ensures var cfg, feed, polls := Config(30000, 60000, "me"), Feed("P-1", Undone(key, a, b)), OnePoll();
            && Chronological(cfg, polls) && Bumped(feed, polls) && Ascending(feed.log)
            && SinceAt(cfg, polls, 0) == 170 && SeenUpTo(polls, 1, 0) == 200000
    ensures WindowItems(Undone(key, a, b), 170000, 200000, "me") == [ChangeItem(key, "", "", b, "", a)]
    ensures WindowItems(Undone(key, a, b), 170000, 200000, "")
         == [ChangeItem(key, "", "", a, "", b)] + [ChangeItem(key, "", "", b, "", a)]
  {
    var mine, theirs := Undone(key, a, b)[0], Undone(key, a, b)[1];
    TwoEntries(mine, theirs, 170000, 200000, "me");
    TwoEntries(mine, theirs, 170000, 200000, "");
  }

  lemma {:induction false} UndoneLines(key: string, a: string, b: string)
    requires key != "" && a != "" && b != "" && a != b
    ensures var mine, theirs := ChangeItem(key, "", "", a, "", b), ChangeItem(key, "", "", b, "", a);
            LineOf([theirs], key) == Some(Moved(key, b, a)) && LineOf([mine] + [theirs], key) == None
  {
    var mine, theirs := ChangeItem(key, "", "", a, "", b), ChangeItem(key, "", "", b, "", a);
    TwoItems(mine, theirs, key);
    RecordIsSpan([theirs], key);
    RecordIsSpan([mine] + [theirs], key);
  }

  lemma {:induction false} TwoEntries(a: Entry, b: Entry, after: int, upto: int, exclude: string)
    ensures WindowItems([a, b], after, upto, exclude)
         == (if InWindow(a, after, upto, exclude) then a.items else [])
            + if InWindow(b, after, upto, exclude) then b.items else []
  {
    assert [a, b][..1] == [a] && [a][..0] == [];
    assert WindowItems([a], after, upto, exclude) == if InWindow(a, after, upto, exclude) then a.items else [];
  }

  lemma {:induction false} TwoItems(a: ChangeItem, b: ChangeItem, key: string)
    requires NameOf(a) == key && NameOf(b) == key
    ensures FirstItem([b], key) == Some(b) && LastItem([b], key) == Some(b)
    ensures FirstItem([a] + [b], key) == Some(a) && LastItem([a] + [b], key) == Some(b)
  {
    FirstItemAt([b], key, 0);
    LastItemAt([b], key, 0);
    FirstItemAt([a] + [b], key, 0);
    LastItemAt([a] + [b], key, 1);
  }
}
