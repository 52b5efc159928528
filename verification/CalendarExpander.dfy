/**
  Occurrence expansion and override application of internal/calendar/expander.go.

  Times are integer seconds; a zero `time.Time` is `None`. The recurrence rule itself is library
  code: the occurrences it yields inside the window are an input.
*/
module CalendarExpander {
  import opened Wrappers

  datatype Recurrence = Recurrence(rule: string, exDates: seq<int>)

  datatype Event = Event(uid: string, summary: string, description: string, location: string,
                         start: int, end: Option<int>, allDay: bool, lastModified: Option<int>,
                         sequence: int, recurrenceId: Option<int>, recurrence: Option<Recurrence>)

  datatype Instance = Instance(uid: string, summary: string, description: string, location: string,
                               start: int, end: Option<int>, allDay: bool, lastModified: Option<int>,
                               sequence: int, isRecurring: bool)

  function InstanceFromMaster(ev: Event, start: int, recurring: bool): Instance {
    var end := if ev.end.Some? then Some(start + (ev.end.value - ev.start)) else None;
    Instance(ev.uid, ev.summary, ev.description, ev.location, start, end, ev.allDay,
             ev.lastModified, ev.sequence, recurring)
  }

  /** The occurrences that no EXDATE removes, in order. */
  function Kept(occurrences: seq<int>, exDates: seq<int>): (kept: seq<int>)
    ensures forall t :: t in kept <==> t in occurrences && t !in exDates
  {
    if occurrences == [] then []
    else (if occurrences[0] in exDates then [] else [occurrences[0]]) + Kept(occurrences[1..], exDates)
  }

  /** One recurring instance at each of these times. */
  function Occurring(ev: Event, times: seq<int>): seq<Instance> {
    seq(|times|, i requires 0 <= i < |times| => InstanceFromMaster(ev, times[i], true))
  }

  /** What an event contributes between `from` and `to`; `occurrences` is what its rule yields there,
      None when the rule does not parse. */
  function Expanded(ev: Event, from: int, to: int, occurrences: Option<seq<int>>): Option<seq<Instance>> {
    if ev.recurrenceId.Some? then Some([])
    else if ev.recurrence.None? || ev.recurrence.value.rule == "" then
      Some(if from <= ev.start <= to then [InstanceFromMaster(ev, ev.start, false)] else [])
    else if occurrences.None? then None
    else Some(Occurring(ev, Kept(occurrences.value, ev.recurrence.value.exDates)))
  }

  method Expand(ev: Event, from: int, to: int, occurrences: Option<seq<int>>) returns (r: Option<seq<Instance>>)
    ensures r == Expanded(ev, from, to, occurrences)
  {
    if ev.recurrenceId.Some? {
      return Some([]);
    }
    if ev.recurrence.None? || ev.recurrence.value.rule == "" {
      if ev.start < from || ev.start > to {
        return Some([]);
      }
      return Some([InstanceFromMaster(ev, ev.start, false)]);
    }
    if occurrences.None? {
      return None;
    }
    var out := ExpandRule(ev, occurrences.value, ev.recurrence.value.exDates);
    return Some(out);
  }

  /** The loop over the occurrences of a rule. */
  method ExpandRule(ev: Event, occs: seq<int>, exDates: seq<int>) returns (out: seq<Instance>)
    ensures out == Occurring(ev, Kept(occs, exDates))
  {
    var excluded := set ex | ex in exDates;
    out := [];
    for k := 0 to |occs|
      invariant out == Occurring(ev, Kept(occs[..k], exDates))
    {
      NextOccurrence(ev, occs, exDates, k);
      if occs[k] !in excluded {
        out := out + [InstanceFromMaster(ev, occs[k], true)];
      }
    }
    assert occs[..|occs|] == occs;
  }

  lemma NextOccurrence(ev: Event, occs: seq<int>, exDates: seq<int>, k: nat)
    requires k < |occs|
    ensures Occurring(ev, Kept(occs[..k + 1], exDates))
         == Occurring(ev, Kept(occs[..k], exDates))
            + if occs[k] in exDates then [] else [InstanceFromMaster(ev, occs[k], true)]
  {
    assert occs[..k + 1] == occs[..k] + [occs[k]];
    KeptSnoc(occs[..k], occs[k], exDates);
  }

  lemma Regroup(a: seq<int>, b: seq<int>, c: seq<int>)
    ensures (a + b) + c == a + (b + c)
  {
  }

  lemma {:induction false} KeptSnoc(occs: seq<int>, t: int, exDates: seq<int>)
    ensures Kept(occs + [t], exDates) == Kept(occs, exDates) + if t in exDates then [] else [t]
  {
    if occs == [] {
      assert [t][1..] == [];
    } else {
      assert (occs + [t])[1..] == occs[1..] + [t] && (occs + [t])[0] == occs[0];
      KeptSnoc(occs[1..], t, exDates);
      Regroup(if occs[0] in exDates then [] else [occs[0]], Kept(occs[1..], exDates), if t in exDates then [] else [t]);
    }
  }

  // ---------------------------------------------------------------- overrides

  predicate Overrides(ov: Event, uid: string, ts: int) {
    ov.uid != "" && ov.uid == uid && ov.recurrenceId == Some(ts)
  }

  /** The last override in the feed for this UID and recurrence second. */
  function LastOverride(overrides: seq<Event>, uid: string, ts: int): (r: Option<Event>)
    ensures r.None? ==> forall i :: 0 <= i < |overrides| ==> !Overrides(overrides[i], uid, ts)
    ensures r.Some? ==> exists i :: 0 <= i < |overrides| && overrides[i] == r.value && Overrides(overrides[i], uid, ts)
                                 && forall j :: i < j < |overrides| ==> !Overrides(overrides[j], uid, ts)
  {
    if overrides == [] then None
    else
      var last := overrides[|overrides| - 1];
      if Overrides(last, uid, ts) then Some(last) else LastOverride(overrides[..|overrides| - 1], uid, ts)
  }

  function FromOverride(ov: Event): Instance {
    Instance(ov.uid, ov.summary, ov.description, ov.location, ov.start, ov.end, ov.allDay,
             ov.lastModified, ov.sequence, true)
  }

  function Replacement(inst: Instance, overrides: seq<Event>): Instance {
    match LastOverride(overrides, inst.uid, inst.start)
    case Some(ov) => FromOverride(ov)
    case None => inst
  }

  /** Every instance replaced by its own last override, order kept. */
  function Replaced(instances: seq<Instance>, overrides: seq<Event>): (r: seq<Instance>)
    ensures |r| == |instances|
  {
    seq(|instances|, i requires 0 <= i < |instances| => Replacement(instances[i], overrides))
  }

  ghost predicate SortedByStart(s: seq<Instance>) {
    forall i, j :: 0 <= i < j < |s| ==> s[i].start <= s[j].start
  }

  function Inserted(sorted: seq<Instance>, inst: Instance): seq<Instance>
    decreases |sorted|
  {
    if sorted == [] || sorted[|sorted| - 1].start <= inst.start then sorted + [inst]
    else Inserted(sorted[..|sorted| - 1], inst) + [sorted[|sorted| - 1]]
  }

  lemma SortedSnoc(s: seq<Instance>, last: Instance)
    requires SortedByStart(s) && (s != [] ==> s[|s| - 1].start <= last.start)
    ensures SortedByStart(s + [last])
  {
  }

  lemma {:induction false} InsertedIsSorted(sorted: seq<Instance>, inst: Instance)
    requires SortedByStart(sorted)
    ensures var r := Inserted(sorted, inst);
            && SortedByStart(r)
            && r != [] && (r[|r| - 1] == inst || (sorted != [] && r[|r| - 1] == sorted[|sorted| - 1]))
    decreases |sorted|
  {
    if sorted == [] || sorted[|sorted| - 1].start <= inst.start {
      SortedSnoc(sorted, inst);
    } else {
      InitIsSorted(sorted);
      InsertedIsSorted(sorted[..|sorted| - 1], inst);
      SortedSnoc(Inserted(sorted[..|sorted| - 1], inst), sorted[|sorted| - 1]);
    }
  }

  lemma InitIsSorted(sorted: seq<Instance>)
    requires SortedByStart(sorted) && sorted != []
    ensures SortedByStart(sorted[..|sorted| - 1])
    ensures |sorted| > 1 ==> sorted[|sorted| - 2].start <= sorted[|sorted| - 1].start
  {
  }

  lemma {:induction false} InsertedKeepsAll(sorted: seq<Instance>, inst: Instance)
    ensures multiset(Inserted(sorted, inst)) == multiset(sorted) + multiset{inst}
    decreases |sorted|
  {
    if sorted == [] || sorted[|sorted| - 1].start <= inst.start {
    } else {
      var init, last := sorted[..|sorted| - 1], sorted[|sorted| - 1];
      InsertedKeepsAll(init, inst);
      assert sorted == init + [last];
    }
  }

  /** Stands for the library's sort, which is not stable: callers may rely on no more than this. */
  method SortByStart(s: seq<Instance>) returns (r: seq<Instance>)
    ensures SortedByStart(r) && multiset(r) == multiset(s)
  {
    r := [];
    for n := 0 to |s|
      invariant SortedByStart(r) && multiset(r) == multiset(s[..n])
    {
      InsertedIsSorted(r, s[n]);
      InsertedKeepsAll(r, s[n]);
      r := Inserted(r, s[n]);
      assert s[..n + 1] == s[..n] + [s[n]];
    }
    assert s[..|s|] == s;
  }

  method ApplyOverrides(instances: seq<Instance>, overrides: seq<Event>) returns (out: seq<Instance>)
    ensures overrides == [] ==> out == instances
    ensures overrides != [] ==> SortedByStart(out) && multiset(out) == multiset(Replaced(instances, overrides))
    ensures |out| == |instances|
  {
    if overrides == [] {
      return instances;
    }
    var idx: map<(string, int), Event> := map[];
    for k := 0 to |overrides|
      invariant forall uid, ts :: (uid, ts) in idx <==> LastOverride(overrides[..k], uid, ts).Some?
      invariant forall uid, ts :: (uid, ts) in idx ==> LastOverride(overrides[..k], uid, ts) == Some(idx[(uid, ts)])
    {
      var ov := overrides[k];
      assert overrides[..k + 1][..k] == overrides[..k];
      if ov.recurrenceId.Some? && ov.uid != "" {
        idx := idx[(ov.uid, ov.recurrenceId.value) := ov];
      }
    }
    assert overrides[..|overrides|] == overrides;
    out := [];
    for k := 0 to |instances|
      invariant |out| == k
      invariant forall i :: 0 <= i < k ==> out[i] == Replacement(instances[i], overrides)
    {
      var inst := instances[k];
      if (inst.uid, inst.start) in idx {
        out := out + [FromOverride(idx[(inst.uid, inst.start)])];
      } else {
        out := out + [inst];
      }
    }
    assert out == Replaced(instances, overrides);
    ghost var unsorted := out;
    out := SortByStart(out);
    assert |multiset(out)| == |multiset(unsorted)|;
  }

  // ---------------------------------------------------------------- a whole feed

  /** A parsed event, and what its rule yields in the window. */
  datatype Parsed = Parsed(ev: Event, occurrences: Option<seq<int>>)

  function OverridesOf(feed: seq<Parsed>): seq<Event>
    decreases |feed|
  {
    if feed == [] then []
    else
      var last := feed[|feed| - 1].ev;
      OverridesOf(feed[..|feed| - 1]) + if last.recurrenceId.Some? then [last] else []
  }

  /** The expansions of all masters, in feed order; one that does not expand is skipped. */
  function Naive(feed: seq<Parsed>, from: int, to: int): seq<Instance>
    decreases |feed|
  {
    if feed == [] then []
    else
      var last := feed[|feed| - 1];
      var own := Expanded(last.ev, from, to, last.occurrences);
      Naive(feed[..|feed| - 1], from, to) + if last.ev.recurrenceId.None? && own.Some? then own.value else []
  }

  /** The instances of a feed: the naive ones, each replaced by its own last override, by start. */
  ghost predicate Collected(feed: seq<Parsed>, from: int, to: int, instances: seq<Instance>) {
    && |instances| == |Naive(feed, from, to)|
    && (OverridesOf(feed) == [] ==> instances == Naive(feed, from, to))
    && (OverridesOf(feed) != [] ==>
          SortedByStart(instances)
          && multiset(instances) == multiset(Replaced(Naive(feed, from, to), OverridesOf(feed))))
  }

  /** Partitions the events into masters and overrides, expands the masters and applies the
      overrides. */
  method CollectInstances(feed: seq<Parsed>, from: int, to: int) returns (instances: seq<Instance>)
    ensures Collected(feed, from, to, instances)
  {
    var overrides: seq<Event> := [];
    instances := [];
    for i := 0 to |feed|
      invariant overrides == OverridesOf(feed[..i]) && instances == Naive(feed[..i], from, to)
    {
      assert feed[..i + 1][..i] == feed[..i];
      if feed[i].ev.recurrenceId.Some? {
        overrides := overrides + [feed[i].ev];
      } else {
        var expanded := Expand(feed[i].ev, from, to, feed[i].occurrences);
        if expanded.Some? {
          instances := instances + expanded.value;
        }
      }
    }
    assert feed[..|feed|] == feed;
    instances := ApplyOverrides(instances, overrides);
  }
}
