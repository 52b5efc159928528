/**
  What the order of a changelog does to the messages of internal/poller/poller.go. Nothing there sorts
  the histories, so a poll merges its window as Jira delivers it; the polls still follow one another
  in time. Compared are the message from a changelog and the one from the same changelog reversed.
*/
module DeliveryOrder {
  import opened Wrappers
  import opened ChangeMerge
  import opened ChangePoller
  import opened PollCoverage
  import opened PollNetChange

  function Backwards(feed: Feed): Feed {
    Feed(feed.key, Reversed(feed.log))
  }

  function WindowAt(cfg: Config, feed: Feed, polls: seq<Poll>, k: nat): seq<ChangeItem>
    requires k < |polls|
  {
    if polls[k].found
    then WindowItems(feed.log, SinceAt(cfg, polls, k) * 1000, polls[k].searchedAt, cfg.exclude) else []
  }

  function Flat<T>(parts: seq<seq<T>>): seq<T>
    decreases |parts|
  {
    if parts == [] then [] else Flat(parts[..|parts| - 1]) + parts[|parts| - 1]
  }

  function WindowList(cfg: Config, feed: Feed, polls: seq<Poll>, a: nat, k: nat): seq<seq<ChangeItem>>
    requires a <= k <= |polls|
  {
    seq(k - a, i requires 0 <= i < k - a => WindowAt(cfg, feed, polls, a + i))
  }

  /** The windows of polls `a..k`, one after the other. */
  function Windows(cfg: Config, feed: Feed, polls: seq<Poll>, a: nat, k: nat): seq<ChangeItem>
    requires a <= k <= |polls|
  {
    Flat(WindowList(cfg, feed, polls, a, k))
  }

  lemma {:induction false} OneMoreWindow(cfg: Config, feed: Feed, polls: seq<Poll>, a: nat, k: nat)
    requires a <= k < |polls|
    ensures Windows(cfg, feed, polls, a, k + 1) == Windows(cfg, feed, polls, a, k) + WindowAt(cfg, feed, polls, k)
    ensures Windows(cfg, feed, polls, a, a) == []
  {
    var parts := WindowList(cfg, feed, polls, a, k + 1);
    assert parts[..|parts| - 1] == WindowList(cfg, feed, polls, a, k);
  }

  /** In whatever order the changelog is delivered and however the windows overlap, a notification's
      changes are the merge of all windows in the order of the polls. */
  lemma {:induction false} BatchIsItsWindows(cfg: Config, feed: Feed, polls: seq<Poll>, a: nat, k: nat)
    requires Chronological(cfg, polls) && Bumped(feed, polls) && a <= k < |polls|
    requires GathersFrom(cfg, feed, polls, a, k)
    ensures GatheredAt(cfg, feed, polls, k).Some?
    ensures GatheredAt(cfg, feed, polls, k).value.changes == MergeAll(map[], Windows(cfg, feed, polls, a, k + 1))
    decreases k
  {
    OneMoreWindow(cfg, feed, polls, a, k);
    MergeSplits(map[], Windows(cfg, feed, polls, a, k), WindowAt(cfg, feed, polls, k));
    if polls[k].found { PollMergesItsWindow(cfg, feed, polls, k); }
    if k == a {
    } else {
      BatchIsItsWindows(cfg, feed, polls, a, k - 1);
      assert PendingAt(cfg, feed, polls, k) == GatheredAt(cfg, feed, polls, k - 1);
    }
  }

  // ---------------------------------------------------------------- the entries that name a field

  predicate Names(e: Entry, after: int, upto: int, exclude: string, key: string) {
    InWindow(e, after, upto, exclude) && FirstItem(e.items, key).Some?
  }

  /** The entries of a window that name the field, as delivered. */
  function Naming(log: seq<Entry>, after: int, upto: int, exclude: string, key: string): seq<Entry>
    decreases |log|
  {
    if log == [] then []
    else
      var e := log[|log| - 1];
      Naming(log[..|log| - 1], after, upto, exclude, key)
      + if Names(e, after, upto, exclude, key) then [e] else []
  }

  /** The displayed value before the first item of the field in this entry, and after the last. */
  function OldSide(e: Entry, key: string): string { SpanOf(e.items, key).before }

  function NewSide(e: Entry, key: string): string { SpanOf(e.items, key).after }

  lemma {:induction false} BothOrNone(items: seq<ChangeItem>, key: string)
    ensures FirstItem(items, key).Some? <==> LastItem(items, key).Some?
    decreases |items|
  {
    if items == [] {
    } else {
      BothOrNone(items[..|items| - 1], key);
    }
  }

  /** A window's items of a field run from its first entry naming it to its last. */
  ghost predicate Spanned(items: seq<ChangeItem>, es: seq<Entry>, key: string) {
    && FirstItem(items, key) == (if es == [] then None else FirstItem(es[0].items, key))
    && LastItem(items, key) == (if es == [] then None else LastItem(es[|es| - 1].items, key))
    && forall e :: e in es ==> FirstItem(e.items, key).Some? && LastItem(e.items, key).Some?
  }

  lemma {:induction false} SpannedSum(items: seq<ChangeItem>, es: seq<Entry>, more: seq<ChangeItem>, fs: seq<Entry>,
                                      key: string)
    requires Spanned(items, es, key) && Spanned(more, fs, key)
    ensures Spanned(items + more, es + fs, key)
  {
    FirstItemOfSum(items, more, key);
    assert es != [] ==> (es + fs)[0] == es[0] && es[0] in es && es[|es| - 1] in es;
    assert fs != [] ==> (es + fs)[|es + fs| - 1] == fs[|fs| - 1] && fs[0] in fs && fs[|fs| - 1] in fs;
    assert es == [] ==> es + fs == fs;
    assert fs == [] ==> es + fs == es;
  }

  lemma {:induction false} WindowIsSpanned(log: seq<Entry>, after: int, upto: int, exclude: string, key: string)
    ensures Spanned(WindowItems(log, after, upto, exclude), Naming(log, after, upto, exclude, key), key)
    decreases |log|
  {
    if log == [] {
    } else {
      var e := log[|log| - 1];
      WindowIsSpanned(log[..|log| - 1], after, upto, exclude, key);
      BothOrNone(e.items, key);
      SpannedSum(WindowItems(log[..|log| - 1], after, upto, exclude),
                 Naming(log[..|log| - 1], after, upto, exclude, key),
                 if InWindow(e, after, upto, exclude) then e.items else [],
                 if Names(e, after, upto, exclude, key) then [e] else [], key);
    }
  }

  lemma {:induction false} ReversedSum<T>(a: seq<T>, b: seq<T>)
    ensures Reversed(a + b) == Reversed(b) + Reversed(a)
    decreases |b|
  {
    if b == [] {
      assert a + b == a;
    } else {
      var n := |b| - 1;
      assert (a + b)[..|a + b| - 1] == a + b[..n];
      ReversedSum(a, b[..n]);
    }
  }

  lemma {:induction false} ReversedEnds<T>(s: seq<T>)
    ensures |Reversed(s)| == |s|
    ensures s != [] ==> Reversed(s)[0] == s[|s| - 1] && Reversed(s)[|s| - 1] == s[0]
    ensures forall x :: x in Reversed(s) <==> x in s
    decreases |s|
  {
    if s == [] {
    } else {
      var n := |s| - 1;
      ReversedEnds(s[..n]);
      assert s == s[..n] + [s[n]];
    }
  }

  lemma {:induction false} NamingSum(a: seq<Entry>, b: seq<Entry>, after: int, upto: int, exclude: string, key: string)
    ensures Naming(a + b, after, upto, exclude, key)
         == Naming(a, after, upto, exclude, key) + Naming(b, after, upto, exclude, key)
    decreases |b|
  {
    if b == [] {
      assert a + b == a;
    } else {
      var n := |b| - 1;
      assert (a + b)[..|a + b| - 1] == a + b[..n];
      NamingSum(a, b[..n], after, upto, exclude, key);
    }
  }

  lemma {:induction false} NamingReversed(log: seq<Entry>, after: int, upto: int, exclude: string, key: string)
    ensures Naming(Reversed(log), after, upto, exclude, key) == Reversed(Naming(log, after, upto, exclude, key))
    decreases |log|
  {
    if log == [] {
    } else {
      var n := |log| - 1;
      var init, last := log[..n], [log[n]];
      NamingReversed(init, after, upto, exclude, key);
      NamingSum(last, Reversed(init), after, upto, exclude, key);
      var one := if Names(log[n], after, upto, exclude, key) then last else [];
      assert last[..0] == [];
      assert Naming(last, after, upto, exclude, key) == one;
      ReversedSum(Naming(init, after, upto, exclude, key), one);
      assert Reversed(one) == one;
    }
  }

  // ---------------------------------------------------------------- over a run of polls

  function NamingAt(cfg: Config, feed: Feed, polls: seq<Poll>, k: nat, key: string): seq<Entry>
    requires k < |polls|
  {
    if polls[k].found
    then Naming(feed.log, SinceAt(cfg, polls, k) * 1000, polls[k].searchedAt, cfg.exclude, key) else []
  }

  /** The first of the parts that is not empty; empty when all are. */
  function FirstPart<T>(parts: seq<seq<T>>): seq<T>
    decreases |parts|
  {
    if parts == [] then []
    else
      var earlier := FirstPart(parts[..|parts| - 1]);
      if earlier != [] then earlier else parts[|parts| - 1]
  }

  function LastPart<T>(parts: seq<seq<T>>): seq<T>
    decreases |parts|
  {
    if parts == [] then []
    else
      var last := parts[|parts| - 1];
      if last != [] then last else LastPart(parts[..|parts| - 1])
  }

  function NamingList(cfg: Config, feed: Feed, polls: seq<Poll>, a: nat, k: nat, key: string): seq<seq<Entry>>
    requires a <= k <= |polls|
  {
    seq(k - a, i requires 0 <= i < k - a => NamingAt(cfg, feed, polls, a + i, key))
  }

  /** What names the field in the first of the windows `a..k` in which something does. */
  function FirstNaming(cfg: Config, feed: Feed, polls: seq<Poll>, a: nat, k: nat, key: string): seq<Entry>
    requires a <= k <= |polls|
  {
    FirstPart(NamingList(cfg, feed, polls, a, k, key))
  }

  /** What names the field in the last of them. */
  function LastNaming(cfg: Config, feed: Feed, polls: seq<Poll>, a: nat, k: nat, key: string): seq<Entry>
    requires a <= k <= |polls|
  {
    LastPart(NamingList(cfg, feed, polls, a, k, key))
  }

  /** The items of a run of windows run from the first entry naming the field to the last. */
  ghost predicate Framed(items: seq<ChangeItem>, first: seq<Entry>, last: seq<Entry>, key: string) {
    && (first == [] <==> last == [])
    && FirstItem(items, key) == (if first == [] then None else FirstItem(first[0].items, key))
    && LastItem(items, key) == (if last == [] then None else LastItem(last[|last| - 1].items, key))
    && (first != [] ==> FirstItem(items, key).Some? && LastItem(items, key).Some?)
  }

  lemma {:induction false} PartsAreFramed(windows: seq<seq<ChangeItem>>, parts: seq<seq<Entry>>, key: string)
    requires |windows| == |parts| && forall i :: 0 <= i < |parts| ==> Spanned(windows[i], parts[i], key)
    ensures Framed(Flat(windows), FirstPart(parts), LastPart(parts), key)
    decreases |parts|
  {
    if parts == [] {
    } else {
      var n := |parts| - 1;
      PartsAreFramed(windows[..n], parts[..n], key);
      FirstItemOfSum(Flat(windows[..n]), windows[n], key);
      FramedSum(Flat(windows[..n]), FirstPart(parts[..n]), LastPart(parts[..n]), windows[n], parts[n],
                Flat(windows[..n]) + windows[n], key);
    }
  }

  lemma {:induction false} WindowsAreFramed(cfg: Config, feed: Feed, polls: seq<Poll>, a: nat, k: nat, key: string)
    requires a <= k <= |polls|
    ensures Framed(Windows(cfg, feed, polls, a, k), FirstNaming(cfg, feed, polls, a, k, key),
                   LastNaming(cfg, feed, polls, a, k, key), key)
  {
    var windows, parts := WindowList(cfg, feed, polls, a, k), NamingList(cfg, feed, polls, a, k, key);
    forall i | 0 <= i < k - a ensures Spanned(windows[i], parts[i], key) {
      WindowAtIsSpanned(cfg, feed, polls, a + i, key);
    }
    PartsAreFramed(windows, parts, key);
  }

  lemma {:induction false} WindowAtIsSpanned(cfg: Config, feed: Feed, polls: seq<Poll>, k: nat, key: string)
    requires k < |polls|
    ensures Spanned(WindowAt(cfg, feed, polls, k), NamingAt(cfg, feed, polls, k, key), key)
  {
    WindowIsSpanned(feed.log, SinceAt(cfg, polls, k) * 1000, polls[k].searchedAt, cfg.exclude, key);
  }

  lemma {:induction false} FramedSum(items: seq<ChangeItem>, first: seq<Entry>, last: seq<Entry>,
                                     more: seq<ChangeItem>, es: seq<Entry>, sum: seq<ChangeItem>, key: string)
    requires Framed(items, first, last, key) && Spanned(more, es, key)
    requires FirstItem(sum, key) == if FirstItem(items, key).Some? then FirstItem(items, key) else FirstItem(more, key)
    requires LastItem(sum, key) == if LastItem(more, key).Some? then LastItem(more, key) else LastItem(items, key)
    ensures Framed(sum, if first != [] then first else es, if es != [] then es else last, key)
  {
  }

  lemma {:induction false} NamingAtBackwards(cfg: Config, feed: Feed, polls: seq<Poll>, k: nat, key: string)
    requires k < |polls|
    ensures NamingAt(cfg, Backwards(feed), polls, k, key) == Reversed(NamingAt(cfg, feed, polls, k, key))
  {
    NamingReversed(feed.log, SinceAt(cfg, polls, k) * 1000, polls[k].searchedAt, cfg.exclude, key);
  }

  lemma {:induction false} ReversedChoice<T>(s: seq<T>, t: seq<T>)
    ensures Reversed(if s != [] then s else t) == if Reversed(s) != [] then Reversed(s) else Reversed(t)
  {
  }

  lemma {:induction false} PartsReversed<T>(parts: seq<seq<T>>, others: seq<seq<T>>)
    requires |parts| == |others| && forall i :: 0 <= i < |parts| ==> others[i] == Reversed(parts[i])
    ensures FirstPart(others) == Reversed(FirstPart(parts)) && LastPart(others) == Reversed(LastPart(parts))
    decreases |parts|
  {
    if parts == [] {
    } else {
      var n := |parts| - 1;
      PartsReversed(parts[..n], others[..n]);
      ReversedChoice(FirstPart(parts[..n]), parts[n]);
      ReversedChoice(parts[n], LastPart(parts[..n]));
    }
  }

  lemma {:induction false} NamingBackwards(cfg: Config, feed: Feed, polls: seq<Poll>, a: nat, k: nat, key: string)
    requires a <= k <= |polls|
    ensures FirstNaming(cfg, Backwards(feed), polls, a, k, key) == Reversed(FirstNaming(cfg, feed, polls, a, k, key))
    ensures LastNaming(cfg, Backwards(feed), polls, a, k, key) == Reversed(LastNaming(cfg, feed, polls, a, k, key))
  {
    var parts := NamingList(cfg, feed, polls, a, k, key);
    var others := NamingList(cfg, Backwards(feed), polls, a, k, key);
    forall i | 0 <= i < k - a ensures others[i] == Reversed(parts[i]) {
      NamingAtBackwards(cfg, feed, polls, a + i, key);
    }
    PartsReversed(parts, others);
  }

  // ---------------------------------------------------------------- the same notifications, whatever the order

  lemma {:induction false} EmptyWindowIff(log: seq<Entry>, after: int, upto: int, exclude: string)
    ensures WindowItems(log, after, upto, exclude) == [] <==>
            forall e :: e in log && InWindow(e, after, upto, exclude) ==> e.items == []
    decreases |log|
  {
    if log == [] {
    } else {
      var n := |log| - 1;
      EmptyWindowIff(log[..n], after, upto, exclude);
      assert log == log[..n] + [log[n]];
    }
  }

  /** The search reports something in both orders, or in neither. */
  lemma {:induction false} ReportsAlike(cfg: Config, feed: Feed, polls: seq<Poll>, k: nat)
    requires k < |polls|
    ensures Reports(SightingAt(cfg, Backwards(feed), polls, k)) <==> Reports(SightingAt(cfg, feed, polls, k))
  {
    var since, s := SinceAt(cfg, polls, k), polls[k].searchedAt;
    VisibleWindow(feed.log, s, since, cfg.exclude);
    VisibleWindow(Reversed(feed.log), s, since, cfg.exclude);
    EmptyWindowIff(feed.log, since * 1000, s, cfg.exclude);
    EmptyWindowIff(Reversed(feed.log), since * 1000, s, cfg.exclude);
    ReversedEnds(feed.log);
  }

  predicate SameClock(p: Option<Pending>, q: Option<Pending>) {
    (p.Some? <==> q.Some?) && (p.Some? ==> p.value.firstSeen == q.value.firstSeen)
  }

  lemma {:induction false} SameLives(cfg: Config, feed: Feed, polls: seq<Poll>, k: nat)
    requires k < |polls|
    ensures SameClock(PendingAt(cfg, Backwards(feed), polls, k), PendingAt(cfg, feed, polls, k))
    ensures SameClock(GatheredAt(cfg, Backwards(feed), polls, k), GatheredAt(cfg, feed, polls, k))
  {
    if k > 0 { SameLives(cfg, feed, polls, k - 1); }
    ReportsAlike(cfg, feed, polls, k);
  }

  lemma {:induction false} GathersBackwards(cfg: Config, feed: Feed, polls: seq<Poll>, a: nat, k: nat)
    requires a <= k < |polls| && GathersFrom(cfg, feed, polls, a, k)
    ensures GathersFrom(cfg, Backwards(feed), polls, a, k)
  {
    SameLives(cfg, feed, polls, a);
    forall j | a <= j < k ensures PendingAt(cfg, Backwards(feed), polls, j + 1)
                               == GatheredAt(cfg, Backwards(feed), polls, j) {
      SameLives(cfg, feed, polls, j);
      SameLives(cfg, feed, polls, j + 1);
    }
  }

  lemma {:induction false} BumpedBackwards(feed: Feed, polls: seq<Poll>)
    requires Bumped(feed, polls)
    ensures Bumped(Backwards(feed), polls)
  {
    ReversedEnds(feed.log);
  }

  // ---------------------------------------------------------------- when the order is harmless

  ghost predicate SameLines(lines: seq<Line>, others: seq<Line>, key: string) {
    forall l: Line :: l.field == key ==> (l in lines <==> l in others)
  }

  /** The span a message shows for a field: from the old side of the first delivered entry in the first
      window naming it to the new side of the last delivered entry in the last one. */
  function SpanBetween(first: seq<Entry>, last: seq<Entry>, key: string): Span {
    Span(if first == [] then "" else OldSide(first[0], key), if last == [] then "" else NewSide(last[|last| - 1], key))
  }

  lemma {:induction false} FramedSpan(items: seq<ChangeItem>, first: seq<Entry>, last: seq<Entry>, key: string)
    requires Framed(items, first, last, key)
    ensures SpanOf(items, key) == SpanBetween(first, last, key)
  {
  }

  lemma {:induction false} MessageLine(cfg: Config, feed: Feed, polls: seq<Poll>, a: nat, k: nat, key: string,
                                       lines: seq<Line>)
    requires Chronological(cfg, polls) && Bumped(feed, polls) && a <= k < |polls| && key != ""
    requires GathersFrom(cfg, feed, polls, a, k)
    requires GatheredAt(cfg, feed, polls, k).Some? ==> SectionOf(GatheredAt(cfg, feed, polls, k).value.changes, lines)
    ensures Shows(lines, key, LineOf(Windows(cfg, feed, polls, a, k + 1), key))
    ensures SpanOf(Windows(cfg, feed, polls, a, k + 1), key)
         == SpanBetween(FirstNaming(cfg, feed, polls, a, k + 1, key), LastNaming(cfg, feed, polls, a, k + 1, key), key)
  {
    var items := Windows(cfg, feed, polls, a, k + 1);
    BatchIsItsWindows(cfg, feed, polls, a, k);
    SectionShows(items, key, lines);
    WindowsAreFramed(cfg, feed, polls, a, k + 1, key);
    FramedSpan(items, FirstNaming(cfg, feed, polls, a, k + 1, key), LastNaming(cfg, feed, polls, a, k + 1, key), key);
  }

  lemma {:induction false} LinesMeet(lines: seq<Line>, others: seq<Line>, a: seq<ChangeItem>, b: seq<ChangeItem>,
                                     key: string)
    requires key != "" && Shows(lines, key, LineOf(a, key)) && Shows(others, key, LineOf(b, key))
    ensures SameLines(lines, others, key) <==> Agree(SpanOf(a, key), SpanOf(b, key))
  {
    LinesAgreeIff(a, b, key);
    ShowsOneLine(lines, a, b, key);
    if SameLines(lines, others, key) { assert Shows(lines, key, LineOf(b, key)); }
  }

  /** The message from a changelog and the one from the same changelog reversed have the same line for a
      field exactly when neither shows one or both run between the same displayed values. The first
      runs from the old side of the first entry of the first window naming the field to the new side of
      the last entry of the last such window, the second from the last entry of that first window to
      the first entry of that last one. */
  lemma {:induction false} OrderIsHarmlessIff(cfg: Config, feed: Feed, polls: seq<Poll>, a: nat, k: nat, key: string,
                                              lines: seq<Line>, others: seq<Line>)
    requires Chronological(cfg, polls) && Bumped(feed, polls) && a <= k < |polls| && key != ""
    requires GathersFrom(cfg, feed, polls, a, k)
    requires GatheredAt(cfg, feed, polls, k).Some? ==> SectionOf(GatheredAt(cfg, feed, polls, k).value.changes, lines)
    requires var other := GatheredAt(cfg, Backwards(feed), polls, k);
             other.Some? ==> SectionOf(other.value.changes, others)
    ensures var first := FirstNaming(cfg, feed, polls, a, k + 1, key);
            var last := LastNaming(cfg, feed, polls, a, k + 1, key);
            && (first == [] <==> last == [])
            && (first == [] ==> SameLines(lines, others, key))
            && (first != [] ==>
                  (SameLines(lines, others, key) <==>
                     Agree(Span(OldSide(first[0], key), NewSide(last[|last| - 1], key)),
                           Span(OldSide(first[|first| - 1], key), NewSide(last[0], key)))))
  {
    var back := Backwards(feed);
    var first, last := FirstNaming(cfg, feed, polls, a, k + 1, key), LastNaming(cfg, feed, polls, a, k + 1, key);
    BumpedBackwards(feed, polls);
    GathersBackwards(cfg, feed, polls, a, k);
    MessageLine(cfg, feed, polls, a, k, key, lines);
    MessageLine(cfg, back, polls, a, k, key, others);
    NamingBackwards(cfg, feed, polls, a, k + 1, key);
    LinesMeet(lines, others, Windows(cfg, feed, polls, a, k + 1), Windows(cfg, back, polls, a, k + 1), key);
    WindowsAreFramed(cfg, feed, polls, a, k + 1, key);
    ReversedEnds(first);
    ReversedEnds(last);
  }

  /** So it is whenever the first and the last of these windows name the field in one entry each. */
  lemma {:induction false} OneEntryEachIsHarmless(cfg: Config, feed: Feed, polls: seq<Poll>, a: nat, k: nat,
                                                  key: string, lines: seq<Line>, others: seq<Line>)
    requires Chronological(cfg, polls) && Bumped(feed, polls) && a <= k < |polls| && key != ""
    requires GathersFrom(cfg, feed, polls, a, k)
    requires GatheredAt(cfg, feed, polls, k).Some? ==> SectionOf(GatheredAt(cfg, feed, polls, k).value.changes, lines)
    requires var other := GatheredAt(cfg, Backwards(feed), polls, k);
             other.Some? ==> SectionOf(other.value.changes, others)
    requires |FirstNaming(cfg, feed, polls, a, k + 1, key)| <= 1 && |LastNaming(cfg, feed, polls, a, k + 1, key)| <= 1
    ensures SameLines(lines, others, key)
  {
    OrderIsHarmlessIff(cfg, feed, polls, a, k, key, lines, others);
  }
}
