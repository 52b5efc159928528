/**
  When the calendar poller of internal/calendarpoller/poller.go announces an event as new: over whole
  runs, what its last-fetch mark means, what a cycle stays silent about, and how far ahead it may
  look.
*/
module CalendarFetches {
  import opened Wrappers
  import opened CalendarEventRepo
  import opened CalendarExpander
  import opened CalendarPoller

  // ---------------------------------------------------------------- runs, step by step

  lemma {:induction false} PrefixLegal(cfg: Config, s: State, run: seq<Step>, n: nat)
    requires Legal(cfg, s, run) && n <= |run|
    ensures Legal(cfg, s, run[..n])
    decreases |run|
  {
    if n == |run| {
      assert run[..n] == run;
    } else {
      PrefixLegal(cfg, s, run[..|run| - 1], n);
      assert run[..|run| - 1][..n] == run[..n];
    }
  }

  /** The state before step `n`. */
  ghost function At(cfg: Config, s: State, run: seq<Step>, n: nat): State
    requires Legal(cfg, s, run) && n <= |run|
  {
    PrefixLegal(cfg, s, run, n);
    Exec(cfg, s, run[..n])
  }

  lemma {:induction false} AtNext(cfg: Config, s: State, run: seq<Step>, n: nat)
    requires Legal(cfg, s, run) && n < |run|
    ensures Enabled(cfg, At(cfg, s, run, n), run[n])
    ensures At(cfg, s, run, n + 1) == Next(cfg, At(cfg, s, run, n), run[n])
  {
    PrefixLegal(cfg, s, run, n + 1);
    assert run[..n + 1][..n] == run[..n];
  }

  // ---------------------------------------------------------------- cycles and recorded attempts

  predicate OpensOrCloses(e: Step) { e.Begin? || e.End? || e.Restart? }

  /** How many minutes ahead a user is reminded: as set by the user, or by default. */
  function Minutes(cfg: Config, mins: int): int {
    if mins > 0 then mins else cfg.defaultReminderMins
  }

  /** Step `b` began a cycle that is still open before step `n`. */
  ghost predicate OpenCycle(run: seq<Step>, b: int, n: nat) {
    && 0 <= b < n <= |run| && run[b].Begin? && run[b].feed
    && forall j :: b < j < n ==> !OpensOrCloses(run[j])
  }

  /** Step `i` records an attempt of this user: a failed fetch, or the end of a cycle of its own. */
  ghost predicate Records(run: seq<Step>, i: int, user: int) {
    && 0 <= i < |run|
    && match run[i]
       case Begin(u, _, _, feed, marked) => u == user && !feed && marked
       case End(_, _, marked) => marked && exists b :: OpenCycle(run, b, i) && run[b].user == user
       case _ => false
  }

  predicate Resets(e: Step, user: int) {
    (e.SetUrl? && e.user == user) || (e.RemoveCalendar? && e.user == user)
  }

  /** Before step `n`, some attempt of the user has been recorded since its feed was last set or
      removed. */
  ghost predicate Recorded(run: seq<Step>, n: nat, user: int)
    requires n <= |run|
  {
    exists i :: 0 <= i < n && Records(run, i, user) && forall j :: i < j < n ==> !Resets(run[j], user)
  }

  lemma {:induction false} RecordedNext(run: seq<Step>, n: nat, user: int)
    requires n < |run|
    ensures Recorded(run, n + 1, user) <==> Records(run, n, user) || (Recorded(run, n, user) && !Resets(run[n], user))
  {
    if Recorded(run, n + 1, user) && !Records(run, n, user) {
      var i :| 0 <= i < n + 1 && Records(run, i, user) && forall j :: i < j < n + 1 ==> !Resets(run[j], user);
      assert i < n;
    }
    if Recorded(run, n, user) && !Resets(run[n], user) {
      var i :| 0 <= i < n && Records(run, i, user) && forall j :: i < j < n ==> !Resets(run[j], user);
      assert forall j :: i < j < n + 1 ==> !Resets(run[j], user);
    }
  }

  lemma {:induction false} OpenCycleStep(run: seq<Step>, b: int, n: nat)
    requires n < |run|
    ensures OpenCycle(run, n, n + 1) <==> run[n].Begin? && run[n].feed
    ensures b != n ==> (OpenCycle(run, b, n + 1) <==> OpenCycle(run, b, n) && !OpensOrCloses(run[n]))
  {
    if OpenCycle(run, b, n + 1) && b != n {
      assert b < n && !OpensOrCloses(run[n]);
    }
  }

  /** Step `l` listed the user, and the user is still to be polled before step `n`. */
  ghost predicate ListedAt(run: seq<Step>, l: int, n: nat, user: int) {
    && 0 <= l < n <= |run| && run[l].List? && user in run[l].users
    && forall j :: l < j < n ==> !Unlists(run[j], user)
  }

  predicate Unlists(e: Step, user: int) {
    e.List? || e.Restart? || (e.Begin? && e.user == user)
  }

  lemma {:induction false} StepLists(cfg: Config, s: State, e: Step, user: int)
    requires Enabled(cfg, s, e)
    ensures var listed := Next(cfg, s, e).listed;
            && (e.List? ==> (user in listed <==> user in e.users))
            && (e.List? && user in listed ==> (listed[user] <==> user in s.fetched))
            && (!e.List? ==> (user in listed <==> user in s.listed && !Unlists(e, user)))
            && (!e.List? && user in listed ==> listed[user] == s.listed[user])
  {
    if e.See? && e.fate.upsert {
      var c := s.cycle.value;
      var change := ChangeOf(s.rows, KeyOf(c.user, e.inst), SnapshotOf(e.inst));
      SeeIsItsStages(cfg, s, e.inst, e.at, e.fate);
      StagesKeepMarks(cfg, Looked(s, c, e.inst, e.at), c, e.inst, e.at, e.fate, change);
    }
  }

  /** A user still to be polled was listed by exactly one tick, and carries the mark of that moment. */
  lemma {:induction false} ListedBy(cfg: Config, s: State, run: seq<Step>, n: nat, user: int) returns (l: int)
    requires Initial(s) && Legal(cfg, s, run) && n <= |run| && user in At(cfg, s, run, n).listed
    ensures ListedAt(run, l, n, user)
    ensures At(cfg, s, run, n).listed[user] <==> user in At(cfg, s, run, l).fetched
    decreases n
  {
    if n == 0 {
      assert false;
    } else {
      AtNext(cfg, s, run, n - 1);
      StepLists(cfg, At(cfg, s, run, n - 1), run[n - 1], user);
      if run[n - 1].List? {
        l := n - 1;
      } else {
        l := ListedBy(cfg, s, run, n - 1, user);
      }
    }
  }

  lemma {:induction false} OneListing(run: seq<Step>, l: int, n: nat, user: int)
    requires ListedAt(run, l, n, user)
    ensures forall m :: ListedAt(run, m, n, user) ==> m == l
  {
  }

  lemma {:induction false} StepKeepsCycle(cfg: Config, s: State, e: Step)
    requires Enabled(cfg, s, e)
    ensures !OpensOrCloses(e) ==> Next(cfg, s, e).cycle == s.cycle
    ensures e.End? || e.Restart? ==> Next(cfg, s, e).cycle.None?
    ensures e.Begin? && !e.feed ==> Next(cfg, s, e).cycle.None?
    ensures e.Begin? && e.feed ==>
              var cycle := Next(cfg, s, e).cycle;
              cycle.Some? && cycle.value.user == e.user && cycle.value.now == e.now
              && (cycle.value.firstFetch <==> !s.listed[e.user])
              && cycle.value.lead == 60 * Minutes(cfg, e.reminderMins)
  {
    if e.See? { SeeIsEnabled(cfg, s, s.cycle.value, Seen(e.inst, e.at, e.fate)); }
  }

  /** A cycle still open is the one in hand, and it is a first fetch exactly when the user had no
      last-fetch mark as the tick listed it. */
  lemma {:induction false} OpenCycleIsInHand(cfg: Config, s: State, run: seq<Step>, b: nat, n: nat)
    requires Legal(cfg, s, run) && OpenCycle(run, b, n)
    ensures run[b].user in At(cfg, s, run, b).listed
    ensures var cycle := At(cfg, s, run, n).cycle;
            && cycle.Some? && cycle.value.user == run[b].user && cycle.value.now == run[b].now
            && (cycle.value.firstFetch <==> !At(cfg, s, run, b).listed[run[b].user])
            && cycle.value.lead == 60 * Minutes(cfg, run[b].reminderMins)
    decreases n
  {
    AtNext(cfg, s, run, n - 1);
    StepKeepsCycle(cfg, At(cfg, s, run, n - 1), run[n - 1]);
    if n == b + 1 {
    } else {
      OpenCycleStep(run, b, n - 1);
      OpenCycleIsInHand(cfg, s, run, b, n - 1);
    }
  }

  /** And the one in hand is still open. */
  lemma {:induction false} CycleInHandIsOpen(cfg: Config, s: State, run: seq<Step>, n: nat) returns (b: nat)
    requires Initial(s) && Legal(cfg, s, run) && n <= |run| && At(cfg, s, run, n).cycle.Some?
    ensures OpenCycle(run, b, n)
    decreases n
  {
    if n == 0 {
      assert false;
    } else {
      AtNext(cfg, s, run, n - 1);
      StepKeepsCycle(cfg, At(cfg, s, run, n - 1), run[n - 1]);
      if run[n - 1].Begin? {
        b := n - 1;
      } else {
        b := CycleInHandIsOpen(cfg, s, run, n - 1);
        OpenCycleStep(run, b, n - 1);
      }
    }
  }

  lemma {:induction false} StepMarks(cfg: Config, s: State, e: Step, user: int)
    requires Enabled(cfg, s, e)
    ensures user in Next(cfg, s, e).fetched <==>
              || (e.Begin? && !e.feed && e.marked && e.user == user)
              || (e.End? && e.marked && s.cycle.value.user == user)
              || (user in s.fetched && !Resets(e, user))
  {
    if e.See? && e.fate.upsert {
      var c := s.cycle.value;
      var change := ChangeOf(s.rows, KeyOf(c.user, e.inst), SnapshotOf(e.inst));
      SeeIsItsStages(cfg, s, e.inst, e.at, e.fate);
      StagesKeepMarks(cfg, Looked(s, c, e.inst, e.at), c, e.inst, e.at, e.fate, change);
    }
  }

  lemma {:induction false} StagesKeepMarks(cfg: Config, s: State, c: Cycle, inst: Instance, at: int, fate: Fate,
                                           change: Change)
    ensures var s1 := SeeNew(cfg, s, c, inst, at, fate, change.created);
            var s2 := SeeChanged(cfg, s1, c, inst, at, fate, change);
            SameMarks(s, SeeReminder(cfg, s2, c, inst, at, fate, change))
  {
    var s1 := SeeNew(cfg, s, c, inst, at, fate, change.created);
    StageKeepsMarks(cfg, s, c, inst, at, fate, change);
    StageKeepsMarks(cfg, s1, c, inst, at, fate, change);
    StageKeepsMarks(cfg, SeeChanged(cfg, s1, c, inst, at, fate, change), c, inst, at, fate, change);
  }

  predicate SameMarks(s: State, s': State) { s'.fetched == s.fetched && s'.listed == s.listed }

  lemma {:induction false} StageKeepsMarks(cfg: Config, s: State, c: Cycle, inst: Instance, at: int, fate: Fate,
                                           change: Change)
    ensures SameMarks(s, SeeNew(cfg, s, c, inst, at, fate, change.created))
    ensures SameMarks(s, SeeChanged(cfg, s, c, inst, at, fate, change))
    ensures SameMarks(s, SeeReminder(cfg, s, c, inst, at, fate, change))
  {
  }

  /** In every run a user has a last-fetch mark exactly when an attempt was recorded since the feed was
      last set or removed, whether that attempt succeeded or not. */
  lemma {:induction false} FetchedMeansRecorded(cfg: Config, s: State, run: seq<Step>, n: nat, user: int)
    requires Initial(s) && Legal(cfg, s, run) && n <= |run|
    ensures user in At(cfg, s, run, n).fetched <==> Recorded(run, n, user)
  {
    if n == 0 {
    } else {
      FetchedMeansRecorded(cfg, s, run, n - 1, user);
      AtNext(cfg, s, run, n - 1);
      RecordedNext(run, n - 1, user);
      StepMarks(cfg, At(cfg, s, run, n - 1), run[n - 1], user);
      EndRecords(cfg, s, run, n - 1, user);
    }
  }

  lemma {:induction false} EndRecords(cfg: Config, s: State, run: seq<Step>, i: nat, user: int)
    requires Initial(s) && Legal(cfg, s, run) && i < |run|
    ensures run[i].End? ==>
              At(cfg, s, run, i).cycle.Some?
              && (Records(run, i, user) <==> run[i].marked && At(cfg, s, run, i).cycle.value.user == user)
  {
    AtNext(cfg, s, run, i);
    if run[i].End? {
      var b := CycleInHandIsOpen(cfg, s, run, i);
      OpenCycleIsInHand(cfg, s, run, b, i);
      OneOpenCycle(run, b, i);
    }
  }

  // ---------------------------------------------------------------- what is announced

  /** Step `n` announces this instance: it is seen for the first time, inside the horizon, in a cycle of
      a tick that found an attempt recorded as it listed the user, nothing bars it, and the message
      goes out. */
  ghost predicate Announces(cfg: Config, s: State, run: seq<Step>, n: nat, key: Key)
    requires Legal(cfg, s, run) && n < |run|
  {
    var e, now := run[n], At(cfg, s, run, n);
    && e.See? && e.fate.upsert && e.fate.sendNew
    && key !in now.rows && Allowed(cfg, now, New, key, e.at)
    && exists b, l ::
         && OpenCycle(run, b, n) && ListedAt(run, l, b, run[b].user) && Recorded(run, l, run[b].user)
         && KeyOf(run[b].user, e.inst) == key
         && run[b].now < e.inst.start <= run[b].now + cfg.newHorizon
  }

  lemma {:induction false} StepNotes(cfg: Config, s: State, e: Step, key: Key)
    requires Enabled(cfg, s, e)
    ensures SentOf(Next(cfg, s, e), New, key) ==
            if e.RemoveCalendar? && e.user == key.user then []
            else SentOf(s, New, key)
                 + if e.See? && e.fate.upsert && e.fate.sendNew && KeyOf(s.cycle.value.user, e.inst) == key
                      && key !in s.rows && !s.cycle.value.firstFetch && InNewWindow(cfg, s.cycle.value, e.inst)
                      && Allowed(cfg, s, New, key, e.at)
                   then [Note(e.at, e.fate.markNew)] else []
  {
    if e.See? && e.fate.upsert {
      var c := s.cycle.value;
      var change := ChangeOf(s.rows, KeyOf(c.user, e.inst), SnapshotOf(e.inst));
      SeeIsItsStages(cfg, s, e.inst, e.at, e.fate);
      StagesNote(cfg, Looked(s, c, e.inst, e.at), c, e.inst, e.at, e.fate, change, key);
    }
  }

  lemma {:induction false} StagesNote(cfg: Config, s: State, c: Cycle, inst: Instance, at: int, fate: Fate,
                                      change: Change, key: Key)
    ensures var s1 := SeeNew(cfg, s, c, inst, at, fate, change.created);
            var s2 := SeeChanged(cfg, s1, c, inst, at, fate, change);
            SentOf(SeeReminder(cfg, s2, c, inst, at, fate, change), New, key) == SentOf(s, New, key)
              + if change.created && fate.sendNew && KeyOf(c.user, inst) == key && !c.firstFetch
                   && InNewWindow(cfg, c, inst) && Allowed(cfg, s, New, key, at)
                then [Note(at, fate.markNew)] else []
  {
    var s1 := SeeNew(cfg, s, c, inst, at, fate, change.created);
    var s2 := SeeChanged(cfg, s1, c, inst, at, fate, change);
    FirstStageNotes(cfg, s, c, inst, at, fate, change.created, key);
    LaterStagesNoteNothing(cfg, s1, c, inst, at, fate, change, key);
    LaterStagesNoteNothing(cfg, s2, c, inst, at, fate, change, key);
  }

  lemma {:induction false} FirstStageNotes(cfg: Config, s: State, c: Cycle, inst: Instance, at: int, fate: Fate,
                                           created: bool, key: Key)
    ensures SentOf(SeeNew(cfg, s, c, inst, at, fate, created), New, key) == SentOf(s, New, key)
              + if created && fate.sendNew && KeyOf(c.user, inst) == key && !c.firstFetch
                   && InNewWindow(cfg, c, inst) && Allowed(cfg, s, New, key, at)
                then [Note(at, fate.markNew)] else []
  {
    assert SentOf(s, New, key) + [] == SentOf(s, New, key);
  }

  lemma {:induction false} LaterStagesNoteNothing(cfg: Config, s: State, c: Cycle, inst: Instance, at: int, fate: Fate,
                                                  change: Change, key: Key)
    ensures SentOf(SeeChanged(cfg, s, c, inst, at, fate, change), New, key) == SentOf(s, New, key)
    ensures SentOf(SeeReminder(cfg, s, c, inst, at, fate, change), New, key) == SentOf(s, New, key)
  {
  }

  /** In every run, with any failures, restarts, removals and changed feeds, a "new event" goes out
      exactly where `Announces` says. So the first successful fetch is silent about the backlog exactly
      when the tick that polls it found no attempt recorded since the feed was set, be it because there
      was none, or because its mark was not written or a restart cut it short; a recorded failure ends
      the silence. */
  lemma {:induction false} NewNoteIff(cfg: Config, s: State, run: seq<Step>, n: nat, key: Key)
    requires Initial(s) && Legal(cfg, s, run) && n < |run|
    ensures SentOf(At(cfg, s, run, n + 1), New, key) ==
            if run[n].RemoveCalendar? && run[n].user == key.user then []
            else SentOf(At(cfg, s, run, n), New, key)
                 + if Announces(cfg, s, run, n, key) then [Note(run[n].at, run[n].fate.markNew)] else []
  {
    AtNext(cfg, s, run, n);
    StepNotes(cfg, At(cfg, s, run, n), run[n], key);
    if run[n].See? { SeenAnnounces(cfg, s, run, n, key); }
  }

  lemma {:induction false} SeenAnnounces(cfg: Config, s: State, run: seq<Step>, n: nat, key: Key)
    requires Initial(s) && Legal(cfg, s, run) && n < |run| && run[n].See?
    ensures At(cfg, s, run, n).cycle.Some?
    ensures var e, now := run[n], At(cfg, s, run, n);
            Announces(cfg, s, run, n, key) <==>
              && e.fate.upsert && e.fate.sendNew && KeyOf(now.cycle.value.user, e.inst) == key
              && key !in now.rows && !now.cycle.value.firstFetch && InNewWindow(cfg, now.cycle.value, e.inst)
              && Allowed(cfg, now, New, key, e.at)
  {
    AtNext(cfg, s, run, n);
    var b := CycleInHandIsOpen(cfg, s, run, n);
    OpenCycleIsInHand(cfg, s, run, b, n);
    var l := ListedBy(cfg, s, run, b, run[b].user);
    FetchedMeansRecorded(cfg, s, run, l, run[b].user);
    OneOpenCycle(run, b, n);
    OneListing(run, l, b, run[b].user);
  }

  lemma {:induction false} OneOpenCycle(run: seq<Step>, b: int, n: nat)
    requires OpenCycle(run, b, n)
    ensures forall d :: OpenCycle(run, d, n) ==> d == b
  {
  }

  // ---------------------------------------------------------------- how far ahead

  /** No event is announced as new twice without its calendar being removed in between. */
  ghost predicate AnnouncesOnce(cfg: Config) {
    forall s, run, key :: Initial(s) && Legal(cfg, s, run) ==> |SentOf(Exec(cfg, s, run), New, key)| <= 1
  }

  /** That is so exactly when the horizon fits in the time for which an unseen row is kept. */
  lemma {:induction false} AnnouncesOnceIff(cfg: Config)
    ensures AnnouncesOnce(cfg) <==> HorizonFits(cfg)
  {
    if HorizonFits(cfg) {
      forall s, run, key | Initial(s) && Legal(cfg, s, run)
        ensures |SentOf(Exec(cfg, s, run), New, key)| <= 1
      {
        NewAtMostOnce(cfg, s, run, key);
      }
    } else {
      var run := AnnouncedTwice(cfg);
    }
  }

  const ALL_WELL := Fate(true, true, true, true, true, true)
  const FAR_INSTANCE := Instance("a", "", "", "", MAX_HORIZON + 1, None, false, None, 0, false)
  const START := State(map[], map[], {}, map[], None, 0, map[], {})

  /** The first announcement: after a recorded failure, an event one second beyond the horizon that
      fits is seen at once. */
  lemma {:induction false} FirstAnnouncement(cfg: Config) returns (run: seq<Step>)
    requires !HorizonFits(cfg)
    ensures Legal(cfg, START, run)
    ensures var s, key := Exec(cfg, START, run), Key(0, "a", MAX_HORIZON + 1);
            && s.cycle.None? && s.clock == 0 && s.guard == map[] && 0 in s.fetched
            && key in s.rows && s.rows[key].seenAt == 0 && |SentOf(s, New, key)| == 1
  {
    var key := Key(0, "a", MAX_HORIZON + 1);
    OneMore(cfg, START, [], List({0}));
    run := [] + [List({0})];
    OneMore(cfg, START, run, Begin(0, 0, 1, false, true));
    run := run + [Begin(0, 0, 1, false, true)];
    OneMore(cfg, START, run, List({0}));
    run := run + [List({0})];
    OneMore(cfg, START, run, Begin(0, 0, 1, true, false));
    run := run + [Begin(0, 0, 1, true, false)];
    var s := Exec(cfg, START, run);
    assert s.cycle == Some(Cycle(0, 0, false, 60)) && s.rows == map[] && s.sent == map[] && s.guard == map[];
    OneMore(cfg, START, run, See(FAR_INSTANCE, 0, ALL_WELL));
    StepNotes(cfg, s, See(FAR_INSTANCE, 0, ALL_WELL), key);
    StepKeepsCycle(cfg, s, See(FAR_INSTANCE, 0, ALL_WELL));
    SeenRow(cfg, s, FAR_INSTANCE, 0);
    run := run + [See(FAR_INSTANCE, 0, ALL_WELL)];
    OneMore(cfg, START, run, End(0, false, true));
    run := run + [End(0, false, true)];
    OneMore(cfg, START, run, Restart(0));
    run := run + [Restart(0)];
  }

  lemma {:induction false} SeenRow(cfg: Config, s: State, inst: Instance, at: int)
    requires s.cycle.Some? && at >= s.clock
    ensures var s', key := Next(cfg, s, See(inst, at, ALL_WELL)), KeyOf(s.cycle.value.user, inst);
            key in s'.rows && s'.rows[key].seenAt == at && s'.clock == at
  {
    SeeIsItsStages(cfg, s, inst, at, ALL_WELL);
    SeeIsEnabled(cfg, s, s.cycle.value, Seen(inst, at, ALL_WELL));
  }

  /** The second: the row expires unseen during the next cycle, and the event counts as new again. */
  lemma {:induction false} AnnouncedTwice(cfg: Config) returns (run: seq<Step>)
    requires !HorizonFits(cfg)
    ensures Initial(START) && Legal(cfg, START, run)
    ensures |SentOf(Exec(cfg, START, run), New, Key(0, "a", MAX_HORIZON + 1))| == 2
  {
    var key, at := Key(0, "a", MAX_HORIZON + 1), MAX_HORIZON + MAX_CYCLE;
    run := FirstAnnouncement(cfg);
    OneMore(cfg, START, run, List({0}));
    run := run + [List({0})];
    OneMore(cfg, START, run, Begin(0, MAX_HORIZON, 1, true, false));
    run := run + [Begin(0, MAX_HORIZON, 1, true, false)];
    OneMore(cfg, START, run, ExpireRows(at));
    run := run + [ExpireRows(at)];
    var s := Exec(cfg, START, run);
    assert key !in s.rows && s.cycle == Some(Cycle(0, MAX_HORIZON, false, 60)) && s.guard == map[];
    OneMore(cfg, START, run, See(FAR_INSTANCE, at, ALL_WELL));
    StepNotes(cfg, s, See(FAR_INSTANCE, at, ALL_WELL), key);
    run := run + [See(FAR_INSTANCE, at, ALL_WELL)];
  }
}
