/**
  Which instances a feed leads to in internal/calendar/expander.go and internal/calendarpoller/poller.go,
  told from the events of the feed.
*/
module CalendarFeed {
  import opened Wrappers
  import opened CalendarExpander

  /** The event, which is no override, takes place at `t`: a single one at its own start when that is in
      the window, a recurring one where its rule says, unless excluded. */
  ghost predicate TakesPlace(p: Parsed, from: int, to: int, t: int) {
    && p.ev.recurrenceId.None?
    && if p.ev.recurrence.None? || p.ev.recurrence.value.rule == ""
       then t == p.ev.start && from <= t <= to
       else p.occurrences.Some? && t in p.occurrences.value && t !in p.ev.recurrence.value.exDates
  }

  /** The occurrence of an event at `t`: it lasts as long as the event itself. */
  ghost predicate IsOccurrence(inst: Instance, ev: Event, t: int) {
    && inst.uid == ev.uid && inst.summary == ev.summary && inst.description == ev.description
    && inst.location == ev.location && inst.allDay == ev.allDay && inst.lastModified == ev.lastModified
    && inst.sequence == ev.sequence
    && inst.start == t
    && (inst.end.Some? <==> ev.end.Some?)
    && (ev.end.Some? ==> inst.end.value - inst.start == ev.end.value - ev.start)
    && (inst.isRecurring <==> ev.recurrence.Some? && ev.recurrence.value.rule != "")
  }

  /** What an override puts in its place: its own data. */
  ghost predicate IsReplacement(inst: Instance, ov: Event) {
    && inst.uid == ov.uid && inst.summary == ov.summary && inst.description == ov.description
    && inst.location == ov.location && inst.allDay == ov.allDay && inst.lastModified == ov.lastModified
    && inst.sequence == ov.sequence && inst.start == ov.start && inst.end == ov.end && inst.isRecurring
  }

  /** The event at place `i` of the feed overrides what would take place at `t`, and no later one does. */
  ghost predicate LastToOverride(feed: seq<Parsed>, uid: string, t: int, i: int) {
    && 0 <= i < |feed| && uid != "" && feed[i].ev.uid == uid && feed[i].ev.recurrenceId == Some(t)
    && forall j :: i < j < |feed| ==> !(feed[j].ev.uid == uid && feed[j].ev.recurrenceId == Some(t))
  }

  /** The instance is what the feed has for one event and one time. */
  ghost predicate Stands(feed: seq<Parsed>, inst: Instance, ev: Event, t: int) {
    || (exists i :: LastToOverride(feed, ev.uid, t, i) && IsReplacement(inst, feed[i].ev))
    || ((forall i :: !LastToOverride(feed, ev.uid, t, i)) && IsOccurrence(inst, ev, t))
  }

  ghost predicate FromFeed(feed: seq<Parsed>, from: int, to: int, inst: Instance) {
    exists p, t :: p in feed && TakesPlace(p, from, to, t) && Stands(feed, inst, p.ev, t)
  }

  // ---------------------------------------------------------------- expansion

  lemma {:induction false} ExpandedAre(p: Parsed, from: int, to: int, inst: Instance)
    ensures p.ev.recurrenceId.None? ==>
              var own := Expanded(p.ev, from, to, p.occurrences);
              own.Some? && inst in own.value <==>
                TakesPlace(p, from, to, inst.start) && IsOccurrence(inst, p.ev, inst.start)
  {
    var ev := p.ev;
    OccurrenceIs(inst, ev, inst.start);
    if ev.recurrenceId.None? && ev.recurrence.Some? && ev.recurrence.value.rule != "" && p.occurrences.Some? {
      var kept := Kept(p.occurrences.value, ev.recurrence.value.exDates);
      OccurringAre(ev, kept, inst);
    }
  }

  lemma {:induction false} OccurrenceIs(inst: Instance, ev: Event, t: int)
    ensures IsOccurrence(inst, ev, t) <==>
            inst == InstanceFromMaster(ev, t, ev.recurrence.Some? && ev.recurrence.value.rule != "")
  {
  }

  lemma {:induction false} OccurringAre(ev: Event, times: seq<int>, inst: Instance)
    ensures inst in Occurring(ev, times) <==> inst.start in times && inst == InstanceFromMaster(ev, inst.start, true)
  {
    if inst.start in times && inst == InstanceFromMaster(ev, inst.start, true) {
      var i :| 0 <= i < |times| && times[i] == inst.start;
      assert Occurring(ev, times)[i] == inst;
    }
  }

  /** Some event of the feed, which is no override, has this occurrence. */
  ghost predicate Naively(feed: seq<Parsed>, from: int, to: int, inst: Instance) {
    exists p :: p in feed && TakesPlace(p, from, to, inst.start) && IsOccurrence(inst, p.ev, inst.start)
  }

  lemma {:induction false} NaivelyNext(feed: seq<Parsed>, from: int, to: int, inst: Instance)
    requires feed != []
    ensures var last := feed[|feed| - 1];
            Naively(feed, from, to, inst) <==>
              || Naively(feed[..|feed| - 1], from, to, inst)
              || (TakesPlace(last, from, to, inst.start) && IsOccurrence(inst, last.ev, inst.start))
  {
    assert feed == feed[..|feed| - 1] + [feed[|feed| - 1]];
  }

  lemma {:induction false} NaiveAre(feed: seq<Parsed>, from: int, to: int, inst: Instance)
    ensures inst in Naive(feed, from, to) <==> Naively(feed, from, to, inst)
    decreases |feed|
  {
    if feed == [] {
    } else {
      NaiveAre(feed[..|feed| - 1], from, to, inst);
      ExpandedAre(feed[|feed| - 1], from, to, inst);
      NaivelyNext(feed, from, to, inst);
    }
  }

  // ---------------------------------------------------------------- overrides

  lemma {:induction false} LastOverrideNext(feed: seq<Parsed>, uid: string, t: int)
    requires feed != []
    ensures var n := |feed| - 1;
            LastOverride(OverridesOf(feed), uid, t)
            == if Overrides(feed[n].ev, uid, t) then Some(feed[n].ev) else LastOverride(OverridesOf(feed[..n]), uid, t)
  {
    var n := |feed| - 1;
    var before := OverridesOf(feed[..n]);
    if feed[n].ev.recurrenceId.Some? {
      assert (before + [feed[n].ev])[..|before|] == before;
    } else {
      assert before + [] == before;
    }
  }

  lemma {:induction false} LastOverrideIs(feed: seq<Parsed>, uid: string, t: int)
    ensures LastOverride(OverridesOf(feed), uid, t).None? <==> forall i :: !LastToOverride(feed, uid, t, i)
    ensures forall i :: LastToOverride(feed, uid, t, i) ==>
              LastOverride(OverridesOf(feed), uid, t) == Some(feed[i].ev)
    decreases |feed|
  {
    if feed == [] {
    } else {
      LastOverrideIs(feed[..|feed| - 1], uid, t);
      LastOverrideNext(feed, uid, t);
      LastToOverrideNext(feed, uid, t);
    }
  }

  lemma {:induction false} LastToOverrideNext(feed: seq<Parsed>, uid: string, t: int)
    requires feed != []
    ensures var n := |feed| - 1;
            var here := Overrides(feed[n].ev, uid, t);
            && (LastToOverride(feed, uid, t, n) <==> here)
            && forall i :: i != n ==>
                 (LastToOverride(feed, uid, t, i) <==> !here && LastToOverride(feed[..n], uid, t, i))
  {
  }

  lemma {:induction false} ReplacementStands(feed: seq<Parsed>, ev: Event, t: int, naive: Instance, inst: Instance)
    requires IsOccurrence(naive, ev, t)
    ensures Replacement(naive, OverridesOf(feed)) == inst <==> Stands(feed, inst, ev, t)
  {
    LastOverrideIs(feed, ev.uid, t);
    OccurrenceIs(inst, ev, t);
    OccurrenceIs(naive, ev, t);
  }

  lemma {:induction false} ReplacedAre(feed: seq<Parsed>, from: int, to: int, inst: Instance)
    ensures inst in Replaced(Naive(feed, from, to), OverridesOf(feed)) <==> FromFeed(feed, from, to, inst)
  {
    var naive, overrides := Naive(feed, from, to), OverridesOf(feed);
    if inst in Replaced(naive, overrides) {
      var i :| 0 <= i < |naive| && Replaced(naive, overrides)[i] == inst;
      NaiveAre(feed, from, to, naive[i]);
      var p :| p in feed && TakesPlace(p, from, to, naive[i].start) && IsOccurrence(naive[i], p.ev, naive[i].start);
      ReplacementStands(feed, p.ev, naive[i].start, naive[i], inst);
    }
    if FromFeed(feed, from, to, inst) {
      var p, t :| p in feed && TakesPlace(p, from, to, t) && Stands(feed, inst, p.ev, t);
      var own := InstanceFromMaster(p.ev, t, p.ev.recurrence.Some? && p.ev.recurrence.value.rule != "");
      OccurrenceIs(own, p.ev, t);
      NaiveAre(feed, from, to, own);
      ReplacementStands(feed, p.ev, t, own, inst);
      var i :| 0 <= i < |naive| && naive[i] == own;
      assert Replaced(naive, overrides)[i] == inst;
    }
  }

  lemma {:induction false} NoOverrides(naive: seq<Instance>)
    ensures Replaced(naive, []) == naive
  {
  }

  lemma {:induction false} SameMembers(a: seq<Instance>, b: seq<Instance>, inst: Instance)
    requires multiset(a) == multiset(b)
    ensures inst in a <==> inst in b
  {
    assert inst in a <==> inst in multiset(a);
    assert inst in b <==> inst in multiset(b);
  }

  /** A feed leads to an instance exactly when one of its events takes place then and the last override for
      that event and time, if there is one, says so, or else the event itself, lasting as long. */
  lemma {:induction false} CollectedIff(feed: seq<Parsed>, from: int, to: int, instances: seq<Instance>, inst: Instance)
    requires Collected(feed, from, to, instances)
    ensures inst in instances <==> FromFeed(feed, from, to, inst)
  {
    var naive := Naive(feed, from, to);
    ReplacedAre(feed, from, to, inst);
    if OverridesOf(feed) == [] {
      NoOverrides(naive);
    } else {
      SameMembers(instances, Replaced(naive, OverridesOf(feed)), inst);
    }
  }
}
