/**
  Whole runs of the pending map of internal/poller/poller.go: notifications come in through
  `addPending`, and leave through `flushPending` and, at shutdown, `flushAllPending`.
*/
module BatchWindow {
  import opened ChangeMerge
  import opened ChangePoller

  datatype Op =
    | Add(chat: int, sighting: Sighting)
    | Flush(now: int)
    | FlushAll(now: int)

  function TimeOf(op: Op): int {
    match op
    case Add(_, s) => s.at
    case Flush(now) => now
    case FlushAll(now) => now
  }

  ghost predicate Chronological(ops: seq<Op>) {
    forall i, j :: 0 <= i < j < |ops| ==> TimeOf(ops[i]) <= TimeOf(ops[j])
  }

  function After(window: nat, pending: Batch, op: Op): Batch {
    match op
    case Add(chat, s) => AddTo(pending, chat, s)
    case Flush(now) => Unripe(pending, now, window)
    case FlushAll(_) => map[]
  }

  /** The map before operation `n`, from an empty start. */
  function PendingAt(window: nat, ops: seq<Op>, n: nat): Batch
    requires n <= |ops|
  {
    if n == 0 then map[] else After(window, PendingAt(window, ops, n - 1), ops[n - 1])
  }

  predicate Born(window: nat, ops: seq<Op>, n: nat, key: Key)
    requires n < |ops|
  {
    key !in PendingAt(window, ops, n) && key in PendingAt(window, ops, n + 1)
  }

  /** Operation `n` hands this key's notification to sending. */
  predicate Leaves(window: nat, ops: seq<Op>, n: nat, key: Key)
    requires n < |ops|
  {
    var pending := PendingAt(window, ops, n);
    match ops[n]
    case Add(_, _) => false
    case Flush(now) => key in RipeOnes(pending, now, window)
    case FlushAll(_) => key in pending
  }

  function Births(window: nat, ops: seq<Op>, n: nat, key: Key): nat
    requires n <= |ops|
  {
    if n == 0 then 0 else Births(window, ops, n - 1, key) + if Born(window, ops, n - 1, key) then 1 else 0
  }

  function Departures(window: nat, ops: seq<Op>, n: nat, key: Key): nat
    requires n <= |ops|
  {
    if n == 0 then 0 else Departures(window, ops, n - 1, key) + if Leaves(window, ops, n - 1, key) then 1 else 0
  }

  /** What one operation does to one key: it is born, leaves, stays with its clock, or is absent. */
  lemma OneStep(window: nat, ops: seq<Op>, n: nat, key: Key)
    requires n < |ops|
    ensures var before, after := PendingAt(window, ops, n), PendingAt(window, ops, n + 1);
            && (Leaves(window, ops, n, key) <==> key in before && key !in after)
            && (key in before && key in after ==> after[key].firstSeen == before[key].firstSeen)
            && (Born(window, ops, n, key) ==> ops[n].Add? && after[key].firstSeen == TimeOf(ops[n]))
  {
  }

  /** Every notification that came in is still waiting or was handed over, exactly once. */
  lemma {:induction false} EachLeavesOnce(window: nat, ops: seq<Op>, n: nat, key: Key)
    requires n <= |ops|
    ensures Births(window, ops, n, key)
         == Departures(window, ops, n, key) + if key in PendingAt(window, ops, n) then 1 else 0
  {
    if n == 0 {
    } else {
      EachLeavesOnce(window, ops, n - 1, key);
      OneStep(window, ops, n - 1, key);
    }
  }

  /** Shutdown leaves nothing behind: everything that ever came in has been handed over. */
  lemma ShutdownEmptiesTheMap(window: nat, ops: seq<Op>, n: nat, key: Key)
    requires 0 < n <= |ops| && ops[n - 1].FlushAll?
    ensures PendingAt(window, ops, n) == map[]
    ensures Births(window, ops, n, key) == Departures(window, ops, n, key)
  {
    EachLeavesOnce(window, ops, n, key);
  }

  // ---------------------------------------------------------------- the clock of a notification

  /** The notification born at `i` is still waiting before operation `n`. */
  ghost predicate WaitsFrom(window: nat, ops: seq<Op>, i: nat, n: nat, key: Key)
    requires i < n <= |ops|
  {
    Born(window, ops, i, key) && forall m :: i < m < n ==> !Leaves(window, ops, m, key)
  }

  /** Merges never restart the clock. */
  lemma {:induction false} ClockIsBirth(window: nat, ops: seq<Op>, i: nat, n: nat, key: Key)
    requires i < n <= |ops| && WaitsFrom(window, ops, i, n, key)
    ensures key in PendingAt(window, ops, n) && PendingAt(window, ops, n)[key].firstSeen == TimeOf(ops[i])
  {
    if i == n - 1 {
      OneStep(window, ops, i, key);
    } else {
      ClockIsBirth(window, ops, i, n - 1, key);
      OneStep(window, ops, n - 1, key);
      assert !Leaves(window, ops, n - 1, key);
    }
  }

  /** Operation `j` is a sighting of this key. */
  predicate Sights(op: Op, key: Key) {
    op.Add? && Key(op.chat, op.sighting.issue.key) == key
  }

  /** The changelog items that the sightings of this key bring in, in order. */
  function StreamOf(ops: seq<Op>, i: nat, n: nat, key: Key): seq<ChangeItem>
    requires i <= n <= |ops|
    decreases n - i
  {
    if i == n then []
    else StreamOf(ops, i, n - 1, key) + if Sights(ops[n - 1], key) then ItemsOf(ops[n - 1].sighting) else []
  }

  predicate AnyMention(ops: seq<Op>, i: nat, n: nat, key: Key)
    requires i <= n <= |ops|
  {
    exists j :: i <= j < n && Sights(ops[j], key) && ops[j].sighting.isMention
  }

  lemma {:induction false} MergeNothing(changes: Changes, items: seq<ChangeItem>)
    requires items == []
    ensures MergeAll(changes, items) == changes
  {
  }

  /** What one operation other than its departure does to a waiting notification. */
  lemma {:induction false} SightingMerges(window: nat, ops: seq<Op>, n: nat, key: Key)
    requires n < |ops| && key in PendingAt(window, ops, n) && !Leaves(window, ops, n, key)
    ensures key in PendingAt(window, ops, n + 1)
    ensures var before, after := PendingAt(window, ops, n)[key], PendingAt(window, ops, n + 1)[key];
            if Sights(ops[n], key)
            then after.changes == MergeAll(before.changes, ItemsOf(ops[n].sighting))
                 && (after.isMention <==> before.isMention || ops[n].sighting.isMention)
            else after == before
  {
    if Sights(ops[n], key) {
      MergeNothing(PendingAt(window, ops, n)[key].changes, []);
    }
  }

  lemma {:induction false} BirthMerges(window: nat, ops: seq<Op>, i: nat, key: Key)
    requires i < |ops| && Born(window, ops, i, key)
    ensures Sights(ops[i], key)
    ensures var after := PendingAt(window, ops, i + 1)[key];
            after.changes == MergeAll(map[], ItemsOf(ops[i].sighting)) && after.isMention == ops[i].sighting.isMention
  {
  }

  /** A waiting notification holds the merge of everything sighted since its birth, as one stream, and
      counts as a mention exactly when some of those sightings was one. */
  lemma {:induction false} BatchIsOneStream(window: nat, ops: seq<Op>, i: nat, n: nat, key: Key)
    requires i < n <= |ops| && WaitsFrom(window, ops, i, n, key)
    ensures key in PendingAt(window, ops, n)
    ensures PendingAt(window, ops, n)[key].changes == MergeAll(map[], StreamOf(ops, i, n, key))
    ensures PendingAt(window, ops, n)[key].isMention <==> AnyMention(ops, i, n, key)
    decreases n
  {
    StreamNext(ops, i, n, key);
    if i == n - 1 {
      BirthMerges(window, ops, i, key);
    } else {
      BatchIsOneStream(window, ops, i, n - 1, key);
      assert !Leaves(window, ops, n - 1, key);
      SightingMerges(window, ops, n - 1, key);
    }
  }

  /** How one more operation extends the stream, the merge and the mention mark. */
  lemma {:induction false} StreamNext(ops: seq<Op>, i: nat, n: nat, key: Key)
    requires i < n <= |ops|
    ensures var before, last := StreamOf(ops, i, n - 1, key), ops[n - 1];
            && MergeAll(map[], StreamOf(ops, i, n, key))
               == (if Sights(last, key) then MergeAll(MergeAll(map[], before), ItemsOf(last.sighting))
                  else MergeAll(map[], before))
            && (AnyMention(ops, i, n, key) <==>
                  AnyMention(ops, i, n - 1, key) || (Sights(last, key) && last.sighting.isMention))
    ensures MergeAll(map[], StreamOf(ops, i, i, key)) == map[] && !AnyMention(ops, i, i, key)
  {
    var before, last := StreamOf(ops, i, n - 1, key), ops[n - 1];
    if Sights(last, key) {
      MergeSplits(map[], before, ItemsOf(last.sighting));
    } else {
      assert before + [] == before;
    }
  }

  /** While the run lasts, every stretch of `gap` holds a flush. */
  ghost predicate FlushesEvery(ops: seq<Op>, gap: nat) {
    forall t :: |ops| > 0 && TimeOf(ops[0]) <= t && t + gap <= TimeOf(ops[|ops| - 1]) ==> FlushAfter(ops, t, gap)
  }

  ghost predicate FlushAfter(ops: seq<Op>, t: int, gap: nat) {
    exists j :: 0 <= j < |ops| && ops[j].Flush? && t < TimeOf(ops[j]) <= t + gap
  }

  /** The first operation up to the flush `j` at which the notification leaves. */
  lemma {:induction false} FirstDeparture(window: nat, ops: seq<Op>, i: nat, j: nat, key: Key) returns (m: nat)
    requires i < j < |ops| && Born(window, ops, i, key) && ops[j].Flush? && TimeOf(ops[j]) >= TimeOf(ops[i]) + window
    ensures i < m <= j && Leaves(window, ops, m, key) && WaitsFrom(window, ops, i, m, key)
  {
    m := i + 1;
    while m < j && !Leaves(window, ops, m, key)
      invariant i < m <= j && WaitsFrom(window, ops, i, m, key)
    {
      m := m + 1;
    }
    if m == j { ClockIsBirth(window, ops, i, j, key); }
  }

  lemma NextFlush(ops: seq<Op>, gap: nat, i: nat, t: int) returns (j: nat)
    requires Chronological(ops) && FlushesEvery(ops, gap) && i < |ops| && TimeOf(ops[i]) <= t
    requires t + gap <= TimeOf(ops[|ops| - 1])
    ensures i < j < |ops| && ops[j].Flush? && t < TimeOf(ops[j]) <= t + gap
  {
    assert TimeOf(ops[0]) <= TimeOf(ops[i]);
    assert FlushAfter(ops, t, gap);
    j :| 0 <= j < |ops| && ops[j].Flush? && t < TimeOf(ops[j]) <= t + gap;
  }

  ghost predicate LeavesBy(window: nat, ops: seq<Op>, i: nat, deadline: int, key: Key)
    requires i < |ops|
  {
    exists m :: i < m < |ops| && Leaves(window, ops, m, key) && TimeOf(ops[m]) <= deadline
            && WaitsFrom(window, ops, i, m, key)
  }

  /** A notification leaves within its batch window and one flush gap of its first sighting. */
  lemma HandedOverInTime(window: nat, ops: seq<Op>, gap: nat, i: nat, key: Key)
    requires Chronological(ops) && FlushesEvery(ops, gap) && i < |ops| && Born(window, ops, i, key)
    requires TimeOf(ops[i]) + window + gap <= TimeOf(ops[|ops| - 1])
    ensures LeavesBy(window, ops, i, TimeOf(ops[i]) + window + gap, key)
  {
    var j := NextFlush(ops, gap, i, TimeOf(ops[i]) + window);
    var m := FirstDeparture(window, ops, i, j, key);
    assert m < j ==> TimeOf(ops[m]) <= TimeOf(ops[j]);
  }

  /** Only shutdown hands a notification over before its window has passed. */
  lemma NoneLeavesEarly(window: nat, ops: seq<Op>, i: nat, m: nat, key: Key)
    requires i < m < |ops| && WaitsFrom(window, ops, i, m, key) && Leaves(window, ops, m, key)
    ensures ops[m].FlushAll? || TimeOf(ops[m]) >= TimeOf(ops[i]) + window
  {
    ClockIsBirth(window, ops, i, m, key);
  }

  // ---------------------------------------------------------------- polls as part of a run

  /** `more` goes on from `ops` with sightings only. */
  ghost predicate OnlyAdds(ops: seq<Op>, more: seq<Op>) {
    ops <= more && forall i :: |ops| <= i < |more| ==> more[i].Add?
  }

  lemma {:induction false} PrefixSame(window: nat, ops: seq<Op>, op: Op, n: nat)
    requires n <= |ops|
    ensures PendingAt(window, ops + [op], n) == PendingAt(window, ops, n)
  {
    if n == 0 {
    } else {
      PrefixSame(window, ops, op, n - 1);
    }
  }

  lemma {:induction false} HitIsAnAdd(window: nat, ops: seq<Op>, w: World, sub: Subscription, hit: Hit, since: int,
                                      exclude: string)
    returns (more: seq<Op>)
    requires w.pending == PendingAt(window, ops, |ops|)
    ensures OnlyAdds(ops, more) && HandleHit(w, sub, hit, since, exclude).pending == PendingAt(window, more, |more|)
  {
    var op := Add(sub.chat, SightingOf(sub, hit, since, exclude));
    PrefixSame(window, ops, op, |ops|);
    more := if HandleHit(w, sub, hit, since, exclude).pending == w.pending then ops else ops + [op];
  }

  lemma {:induction false} HitsAreAdds(window: nat, ops: seq<Op>, w: World, sub: Subscription, hits: seq<Hit>,
                                       since: int, exclude: string)
    returns (more: seq<Op>)
    requires w.pending == PendingAt(window, ops, |ops|)
    ensures OnlyAdds(ops, more) && HandleHits(w, sub, hits, since, exclude).pending == PendingAt(window, more, |more|)
    decreases |hits|
  {
    if hits == [] {
      more := ops;
    } else {
      var n := |hits| - 1;
      var mid := HitsAreAdds(window, ops, w, sub, hits[..n], since, exclude);
      more := HitIsAnAdd(window, mid, HandleHits(w, sub, hits[..n], since, exclude), sub, hits[n], since, exclude);
    }
  }

  lemma {:induction false} SubIsAdds(window: nat, ops: seq<Op>, w: World, sub: Subscription, call: Call, setup: Setup)
    returns (more: seq<Op>)
    requires w.pending == PendingAt(window, ops, |ops|)
    ensures OnlyAdds(ops, more) && PollSub(w, sub, call, setup).pending == PendingAt(window, more, |more|)
  {
    if !w.stopped && sub.jql != "" && call.search.Hits? {
      more := HitsAreAdds(window, ops, w, sub, call.search.hits,
                          SinceTimestamp(sub.lastPolledAt, call.readAt, setup.interval), setup.exclude);
    } else {
      more := ops;
    }
  }

  /** A poll of any subscriptions, whatever its searches return, continues the run by sightings alone:
      it never takes a waiting notification out. */
  lemma {:induction false} PollIsAdds(window: nat, ops: seq<Op>, w: World, subs: seq<Subscription>, calls: seq<Call>,
                                      setup: Setup)
    returns (more: seq<Op>)
    requires |calls| == |subs| && w.pending == PendingAt(window, ops, |ops|)
    ensures OnlyAdds(ops, more) && PollSubs(w, subs, calls, setup).pending == PendingAt(window, more, |more|)
    decreases |subs|
  {
    if subs == [] {
      more := ops;
    } else {
      var n := |subs| - 1;
      var mid := PollIsAdds(window, ops, w, subs[..n], calls[..n], setup);
      more := SubIsAdds(window, mid, PollSubs(w, subs[..n], calls[..n], setup), subs[n], calls[n], setup);
    }
  }
}
