/**
  When the calendar poller of internal/calendarpoller/poller.go reminds of an event, reports it as
  changed, and what it knows of it: told from the steps of a run, whatever fails in it.
*/
module CalendarNotes {
  import opened Wrappers
  import opened CalendarEventRepo
  import opened CalendarExpander
  import opened CalendarPoller
  import opened CalendarFetches

  // ---------------------------------------------------------------- what a step looks at

  /** Step `n` looks at this instance in the cycle that step `b` began. */
  ghost predicate LooksAt(run: seq<Step>, b: int, n: nat, key: Key) {
    && n < |run| && run[n].See? && OpenCycle(run, b, n)
    && run[b].user == key.user && run[n].inst.uid == key.uid && run[n].inst.start == key.instanceTs
  }

  /** The cycle that step `b` began finds an event with this start to be due: the time the user asked to
      be reminded at has passed, and the start has not. */
  ghost predicate DueFor(cfg: Config, run: seq<Step>, b: int, start: int) {
    && 0 <= b < |run| && run[b].Begin?
    && run[b].now < start
    && start < run[b].now + 60 * (if run[b].reminderMins > 0 then run[b].reminderMins else cfg.defaultReminderMins)
  }

  /** Some cycle before step `n` saw the instance when it was due. */
  ghost predicate SeenDue(cfg: Config, run: seq<Step>, n: nat, key: Key) {
    exists b, m :: 0 <= m < n && LooksAt(run, b, m, key) && DueFor(cfg, run, b, key.instanceTs)
  }

  /** A step that looks at an instance does so in the cycle in hand. */
  lemma {:induction false} LookIsInHand(cfg: Config, s: State, run: seq<Step>, n: nat, key: Key) returns (b: int)
    requires Initial(s) && Legal(cfg, s, run) && n < |run| && run[n].See?
    ensures OpenCycle(run, b, n) && At(cfg, s, run, n).cycle.Some?
    ensures forall d :: OpenCycle(run, d, n) ==> d == b
    ensures var c := At(cfg, s, run, n).cycle.value;
            && c.user == run[b].user && c.now == run[b].now
            && (LooksAt(run, b, n, key) <==> KeyOf(c.user, run[n].inst) == key)
            && (LooksAt(run, b, n, key) ==> (InReminderWindow(c, run[n].inst) <==> DueFor(cfg, run, b, key.instanceTs)))
  {
    AtNext(cfg, s, run, n);
    b := CycleInHandIsOpen(cfg, s, run, n);
    OpenCycleIsInHand(cfg, s, run, b, n);
    OneOpenCycle(run, b, n);
  }

  // ---------------------------------------------------------------- reminders when nothing fails

  lemma {:induction false} StepDue(cfg: Config, s: State, e: Step, key: Key)
    requires Enabled(cfg, s, e)
    ensures key in Next(cfg, s, e).due <==>
              || (key in s.due && !(e.RemoveCalendar? && e.user == key.user))
              || (e.See? && KeyOf(s.cycle.value.user, e.inst) == key && InReminderWindow(s.cycle.value, e.inst))
  {
    if e.See? && e.fate.upsert {
      var c := s.cycle.value;
      var change := ChangeOf(s.rows, KeyOf(c.user, e.inst), SnapshotOf(e.inst));
      SeeIsItsStages(cfg, s, e.inst, e.at, e.fate);
      StagesKeepDue(cfg, Looked(s, c, e.inst, e.at), c, e.inst, e.at, e.fate, change);
    }
  }

  lemma {:induction false} StagesKeepDue(cfg: Config, s: State, c: Cycle, inst: Instance, at: int, fate: Fate,
                                         change: Change)
    ensures var s1 := SeeNew(cfg, s, c, inst, at, fate, change.created);
            var s2 := SeeChanged(cfg, s1, c, inst, at, fate, change);
            SeeReminder(cfg, s2, c, inst, at, fate, change).due == s.due
  {
    var s1 := SeeNew(cfg, s, c, inst, at, fate, change.created);
    StageKeepsDue(cfg, s, c, inst, at, fate, change);
    StageKeepsDue(cfg, s1, c, inst, at, fate, change);
    StageKeepsDue(cfg, SeeChanged(cfg, s1, c, inst, at, fate, change), c, inst, at, fate, change);
  }

  lemma {:induction false} StageKeepsDue(cfg: Config, s: State, c: Cycle, inst: Instance, at: int, fate: Fate,
                                         change: Change)
    ensures SeeNew(cfg, s, c, inst, at, fate, change.created).due == s.due
    ensures SeeChanged(cfg, s, c, inst, at, fate, change).due == s.due
    ensures SeeReminder(cfg, s, c, inst, at, fate, change).due == s.due
  {
  }

  lemma {:induction false} SeenDueNext(cfg: Config, run: seq<Step>, n: nat, key: Key)
    requires n < |run|
    ensures SeenDue(cfg, run, n + 1, key) <==>
              || SeenDue(cfg, run, n, key)
              || exists b :: LooksAt(run, b, n, key) && DueFor(cfg, run, b, key.instanceTs)
  {
  }

  lemma {:induction false} DueMeansSeenDue(cfg: Config, s: State, run: seq<Step>, n: nat, key: Key)
    requires Initial(s) && Legal(cfg, s, run) && n <= |run|
    requires forall i :: 0 <= i < |run| ==> Smooth(run[i], key.user)
    ensures key in At(cfg, s, run, n).due <==> SeenDue(cfg, run, n, key)
  {
    if n == 0 {
    } else {
      DueMeansSeenDue(cfg, s, run, n - 1, key);
      AtNext(cfg, s, run, n - 1);
      assert Smooth(run[n - 1], key.user);
      StepDue(cfg, At(cfg, s, run, n - 1), run[n - 1], key);
      SeenDueNext(cfg, run, n - 1, key);
      if run[n - 1].See? {
        var b := LookIsInHand(cfg, s, run, n - 1, key);
      }
    }
  }

  /** When nothing fails and the calendar stays, exactly one reminder goes out for an instance if some
      cycle looks at it after the time the user asked to be reminded at and before its start, and none
      otherwise; whatever the feed does and however often the process restarts. */
  lemma {:induction false} RemindedOnceIff(cfg: Config, s: State, run: seq<Step>, key: Key)
    requires Initial(s) && Legal(cfg, s, run)
    requires forall i :: 0 <= i < |run| ==> Smooth(run[i], key.user)
    ensures |SentOf(Exec(cfg, s, run), Reminder, key)| ==
            if exists b, n ::
                 && LooksAt(run, b, n, key)
                 && run[b].now < key.instanceTs
                 && key.instanceTs < run[b].now
                      + 60 * (if run[b].reminderMins > 0 then run[b].reminderMins else cfg.defaultReminderMins)
            then 1 else 0
  {
    ReminderExactlyOnce(cfg, s, run, key);
    DueMeansSeenDue(cfg, s, run, |run|, key);
    assert run[..|run|] == run;
    forall b, n | LooksAt(run, b, n, key) && DueFor(cfg, run, b, key.instanceTs) ensures SeenDue(cfg, run, |run|, key) {
    }
  }

  // ---------------------------------------------------------------- what the store remembers

  /** Step `n` stores the instance. */
  ghost predicate Stores(run: seq<Step>, n: int, key: Key) {
    0 <= n < |run| && run[n].See? && run[n].fate.upsert && exists b :: LooksAt(run, b, n, key)
  }

  /** Step `j` removes a row that was last stored by step `m`: its event started over a week before a
      cycle that has cleaned up, the calendar was wiped, or the row was not seen for 90 days. */
  ghost predicate Drops(run: seq<Step>, j: int, m: int, key: Key) {
    && 0 <= m < j < |run| && run[m].See?
    && match run[j]
       case End(_, deleted, _) =>
         deleted && exists d :: OpenCycle(run, d, j) && run[d].user == key.user
                                && key.instanceTs < run[d].now - 7 * 86400
       case RemoveCalendar(user, _, wiped) => wiped && user == key.user
       case ExpireRows(at) => run[m].at + 90 * 86400 < at
       case _ => false
  }

  /** What step `m` stored of the instance is what the store holds before step `n`. */
  ghost predicate KeptFrom(run: seq<Step>, m: int, n: nat, key: Key) {
    && m < n <= |run| && Stores(run, m, key)
    && forall j :: m < j < n ==> !Stores(run, j, key) && !Drops(run, j, m, key)
  }

  lemma {:induction false} KeptNext(run: seq<Step>, m: int, n: nat, key: Key)
    requires n < |run|
    ensures m != n ==>
              (KeptFrom(run, m, n + 1, key) <==>
                 KeptFrom(run, m, n, key) && !Stores(run, n, key) && !Drops(run, n, m, key))
    ensures KeptFrom(run, n, n + 1, key) <==> Stores(run, n, key)
  {
    if KeptFrom(run, m, n + 1, key) && m != n {
      assert m < n;
    }
  }

  lemma {:induction false} KeptFromOne(run: seq<Step>, m: int, m': int, n: nat, key: Key)
    requires KeptFrom(run, m, n, key) && KeptFrom(run, m', n, key)
    ensures m == m'
  {
  }

  /** What one step other than a look at this instance does to its row. */
  lemma {:induction false} OtherRow(cfg: Config, s: State, e: Step, key: Key)
    requires Enabled(cfg, s, e) && !(e.See? && e.fate.upsert && KeyOf(s.cycle.value.user, e.inst) == key)
    ensures var rows := Next(cfg, s, e).rows;
            && (key in rows ==> key in s.rows && rows[key] == s.rows[key])
            && (key in s.rows && key !in rows <==>
                  key in s.rows && match e
                                   case End(_, deleted, _) =>
                                     deleted && s.cycle.value.user == key.user
                                     && s.rows[key].snap.start < s.cycle.value.now - 7 * 86400
                                   case RemoveCalendar(user, _, wiped) => wiped && user == key.user
                                   case ExpireRows(at) => s.rows[key].seenAt + 90 * 86400 < at
                                   case _ => false)
  {
    if e.See? && e.fate.upsert {
      var c := s.cycle.value;
      var change := ChangeOf(s.rows, KeyOf(c.user, e.inst), SnapshotOf(e.inst));
      SeeIsItsStages(cfg, s, e.inst, e.at, e.fate);
      StagesRow(cfg, Looked(s, c, e.inst, e.at), c, e.inst, e.at, e.fate, change, key);
    }
  }

  /** A row after a stage: the same, but perhaps with a flag raised. */
  predicate SameBut(rows: Rows, rows': Rows, own: Key, at: int, key: Key) {
    && (key in rows' <==> key in rows)
    && (key in rows && key != own ==> rows'[key] == rows[key])
    && (key in rows && key == own ==>
          rows'[key].snap == rows[key].snap && (rows[key].seenAt == at ==> rows'[key].seenAt == at))
  }

  lemma {:induction false} StagesRow(cfg: Config, s: State, c: Cycle, inst: Instance, at: int, fate: Fate,
                                     change: Change, key: Key)
    ensures var s1 := SeeNew(cfg, s, c, inst, at, fate, change.created);
            var s2 := SeeChanged(cfg, s1, c, inst, at, fate, change);
            SameBut(s.rows, SeeReminder(cfg, s2, c, inst, at, fate, change).rows, KeyOf(c.user, inst), at, key)
  {
    var s1 := SeeNew(cfg, s, c, inst, at, fate, change.created);
    NewRow(cfg, s, c, inst, at, fate, change.created, key);
    ChangedRow(cfg, s1, c, inst, at, fate, change);
    ReminderRow(cfg, SeeChanged(cfg, s1, c, inst, at, fate, change), c, inst, at, fate, change, key);
  }

  lemma {:induction false} NewRow(cfg: Config, s: State, c: Cycle, inst: Instance, at: int, fate: Fate, created: bool,
                                  key: Key)
    ensures SameBut(s.rows, SeeNew(cfg, s, c, inst, at, fate, created).rows, KeyOf(c.user, inst), at, key)
  {
    SeeNewShape(cfg, s, c, inst, at, fate, created);
  }

  lemma {:induction false} ChangedRow(cfg: Config, s: State, c: Cycle, inst: Instance, at: int, fate: Fate,
                                      change: Change)
    ensures SeeChanged(cfg, s, c, inst, at, fate, change).rows == s.rows
  {
  }

  lemma {:induction false} ReminderRow(cfg: Config, s: State, c: Cycle, inst: Instance, at: int, fate: Fate,
                                       change: Change, key: Key)
    ensures SameBut(s.rows, SeeReminder(cfg, s, c, inst, at, fate, change).rows, KeyOf(c.user, inst), at, key)
  {
    SeeReminderShape(cfg, s, c, inst, at, fate, change);
  }

  lemma {:induction false} OwnRow(cfg: Config, s: State, e: Step)
    requires Enabled(cfg, s, e) && e.See? && e.fate.upsert
    ensures var rows, key := Next(cfg, s, e).rows, KeyOf(s.cycle.value.user, e.inst);
            key in rows && rows[key].snap == SnapshotOf(e.inst) && rows[key].seenAt == e.at
  {
    var c := s.cycle.value;
    var change := ChangeOf(s.rows, KeyOf(c.user, e.inst), SnapshotOf(e.inst));
    SeeIsItsStages(cfg, s, e.inst, e.at, e.fate);
    StagesRow(cfg, Looked(s, c, e.inst, e.at), c, e.inst, e.at, e.fate, change, KeyOf(c.user, e.inst));
  }

  /** The end of an event, or the moment it was last modified; 0 where there is none. */
  function Stamp(t: Option<int>): int { if t.Some? then t.value else 0 }

  ghost predicate Remembers(row: Row, e: Step)
    requires e.See?
  {
    && row.snap == Snapshot(e.inst.summary, e.inst.start, Stamp(e.inst.end), e.inst.location, e.inst.sequence,
                            Stamp(e.inst.lastModified))
    && row.seenAt == e.at
  }

  /** The store has what the last step to store the instance saw, unless something removed it since. */
  ghost predicate RowOk(cfg: Config, s: State, run: seq<Step>, n: nat, key: Key)
    requires Legal(cfg, s, run) && n <= |run|
  {
    && (key in At(cfg, s, run, n).rows <==> exists m :: KeptFrom(run, m, n, key))
    && forall m :: KeptFrom(run, m, n, key) ==> Remembers(At(cfg, s, run, n).rows[key], run[m])
  }

  /** In every run, with any failures, restarts, removals and expiry, the store has a row for an instance
      exactly when some step stored it and nothing has removed that since; and the row holds what the
      last such step saw. */
  lemma {:induction false} RowIsLastSeen(cfg: Config, s: State, run: seq<Step>, n: nat, key: Key)
    requires Initial(s) && Legal(cfg, s, run) && n <= |run|
    ensures key in At(cfg, s, run, n).rows <==> exists m :: KeptFrom(run, m, n, key)
    ensures forall m :: KeptFrom(run, m, n, key) ==> Remembers(At(cfg, s, run, n).rows[key], run[m])
  {
    if n == 0 {
    } else {
      RowIsLastSeen(cfg, s, run, n - 1, key);
      RowNext(cfg, s, run, n - 1, n, key);
    }
  }

  lemma {:induction false} RowNext(cfg: Config, s: State, run: seq<Step>, n: nat, next: nat, key: Key)
    requires Initial(s) && Legal(cfg, s, run) && n < |run| && next == n + 1 && RowOk(cfg, s, run, n, key)
    ensures RowOk(cfg, s, run, next, key)
  {
    var at, e := At(cfg, s, run, n), run[n];
    AtNext(cfg, s, run, n);
    if e.See? { var b := LookIsInHand(cfg, s, run, n, key); }
    if Stores(run, n, key) {
      OwnRow(cfg, at, e);
      KeptNext(run, n, n, key);
      forall m | KeptFrom(run, m, next, key) ensures m == n { KeptFromOne(run, m, n, next, key); }
    } else {
      OtherRow(cfg, at, e, key);
      forall m ensures KeptFrom(run, m, next, key) <==> KeptFrom(run, m, n, key) && key in At(cfg, s, run, next).rows {
        KeptNext(run, m, n, key);
        if KeptFrom(run, m, n, key) { DropsIff(cfg, s, run, n, m, key); }
      }
    }
  }

  /** Step `n` takes the row out exactly when it drops what step `m` stored. */
  lemma {:induction false} DropsIff(cfg: Config, s: State, run: seq<Step>, n: nat, m: int, key: Key)
    requires Initial(s) && Legal(cfg, s, run) && n < |run| && KeptFrom(run, m, n, key) && !Stores(run, n, key)
    requires key in At(cfg, s, run, n).rows && Remembers(At(cfg, s, run, n).rows[key], run[m])
    ensures key in At(cfg, s, run, n + 1).rows <==> !Drops(run, n, m, key)
  {
    var at, e := At(cfg, s, run, n), run[n];
    AtNext(cfg, s, run, n);
    if e.See? { var b := LookIsInHand(cfg, s, run, n, key); }
    OtherRow(cfg, at, e, key);
    if e.End? { EndIsInHand(cfg, s, run, n); }
    var b :| LooksAt(run, b, m, key);
    assert at.rows[key].snap.start == key.instanceTs;
  }

  lemma {:induction false} EndIsInHand(cfg: Config, s: State, run: seq<Step>, n: nat)
    requires Initial(s) && Legal(cfg, s, run) && n < |run| && run[n].End?
    ensures At(cfg, s, run, n).cycle.Some?
    ensures var c := At(cfg, s, run, n).cycle.value;
            && (exists d :: OpenCycle(run, d, n))
            && forall d :: OpenCycle(run, d, n) ==> run[d].user == c.user && run[d].now == c.now
  {
    AtNext(cfg, s, run, n);
    var d := CycleInHandIsOpen(cfg, s, run, n);
    OpenCycleIsInHand(cfg, s, run, d, n);
    OneOpenCycle(run, d, n);
  }

  // ---------------------------------------------------------------- every notification, from the run alone

  /** Somebody looking at the two would call it a change. */
  predicate LooksChanged(before: Instance, after: Instance) {
    || before.summary != after.summary || Stamp(before.end) != Stamp(after.end) || before.location != after.location
    || before.sequence < after.sequence
    || (Stamp(after.lastModified) > 0 && Stamp(before.lastModified) < Stamp(after.lastModified))
  }

  ghost predicate HasRow(run: seq<Step>, n: nat, key: Key) {
    exists m :: KeptFrom(run, m, n, key)
  }

  /** The store has had a row for the instance ever since step `k`. */
  ghost predicate KeptSince(run: seq<Step>, k: int, n: nat, key: Key) {
    forall j: nat :: k < j <= n ==> HasRow(run, j, key)
  }

  ghost predicate RestartBetween(run: seq<Step>, k: int, n: nat)
    requires n <= |run|
  {
    exists j :: 0 <= k < j < n && run[j].Restart?
  }

  /** The user had an attempt recorded when the tick of this cycle listed it. */
  ghost predicate NotFirstFetch(run: seq<Step>, b: int, user: int) {
    exists l :: 0 <= l < b < |run| && ListedAt(run, l, b, user) && Recorded(run, l, user)
  }

  /** Step `n` gets as far as sending a notification of this kind: there is a reason for it, and the
      duplicate guard has let none of this kind for this instance through within its window since the last
      restart.
      - New: the instance is not in the store, starts within the horizon, and it is no first fetch.
      - Changed: what the store has of it looks different.
      - Reminder: it is due, and no reminder has been sent and noted since it has been in the store. */
  ghost predicate Passes(cfg: Config, run: seq<Step>, n: nat, kind: Kind, key: Key)
    decreases n
  {
    && n < |run| && run[n].See? && run[n].fate.upsert
    && (exists b ::
          && LooksAt(run, b, n, key)
          && match kind
             case New =>
               && !HasRow(run, n, key) && NotFirstFetch(run, b, key.user)
               && run[b].now < key.instanceTs <= run[b].now + cfg.newHorizon
             case Changed => exists m :: KeptFrom(run, m, n, key) && LooksChanged(run[m].inst, run[n].inst)
             case Reminder =>
               && DueFor(cfg, run, b, key.instanceTs)
               && !(exists k: nat :: k < n && Passes(cfg, run, k, Reminder, key) && run[k].fate.sendReminder
                                     && run[k].fate.markReminder && KeptSince(run, k, n, key)))
    && (cfg.guardTtl.Some? ==>
          forall k: nat :: k < n && Passes(cfg, run, k, kind, key) && !RestartBetween(run, k, n) ==>
            run[n].at >= run[k].at + cfg.guardTtl.value)
  }

  /** The same, of the state before the step. */
  predicate WantsNow(cfg: Config, s: State, e: Step, kind: Kind, key: Key)
    requires Enabled(cfg, s, e)
  {
    && e.See? && e.fate.upsert && KeyOf(s.cycle.value.user, e.inst) == key
    && match kind
       case New => key !in s.rows && !s.cycle.value.firstFetch && InNewWindow(cfg, s.cycle.value, e.inst)
       case Changed => key in s.rows && Differs(s.rows[key].snap, SnapshotOf(e.inst))
       case Reminder => InReminderWindow(s.cycle.value, e.inst) && !(key in s.rows && s.rows[key].reminderSent)
  }

  predicate PassesNow(cfg: Config, s: State, e: Step, kind: Kind, key: Key)
    requires Enabled(cfg, s, e)
  {
    WantsNow(cfg, s, e, kind, key) && Allowed(cfg, s, kind, key, e.at)
  }

  predicate Sends(fate: Fate, kind: Kind) {
    match kind
    case New => fate.sendNew
    case Changed => fate.sendChanged
    case Reminder => fate.sendReminder
  }

  /** Whether the durable flag of the notification is written; a change has none. */
  predicate Marks(fate: Fate, kind: Kind) {
    match kind
    case New => fate.markNew
    case Changed => false
    case Reminder => fate.markReminder
  }

  /** What a stage does to the guard's entry for one kind and instance. */
  predicate GuardDoes(cfg: Config, s: State, s': State, kind: Kind, key: Key, at: int, passes: bool) {
    GuardEntry(s', kind, key)
    == if passes && cfg.guardTtl.Some? then Some(at + cfg.guardTtl.value) else GuardEntry(s, kind, key)
  }

  /** And to the notes sent. */
  predicate NotesDo(s: State, s': State, kind: Kind, key: Key, at: int, fate: Fate, passes: bool) {
    SentOf(s', kind, key)
    == SentOf(s, kind, key) + if passes && Sends(fate, kind) then [Note(at, Marks(fate, kind))] else []
  }

  function GuardEntry(s: State, kind: Kind, key: Key): Option<int> {
    if (kind, key) in s.guard then Some(s.guard[(kind, key)]) else None
  }

  lemma {:induction false} NewGuard(cfg: Config, s: State, c: Cycle, inst: Instance, at: int, fate: Fate,
                                    created: bool, kind: Kind, key: Key)
    ensures var s' := SeeNew(cfg, s, c, inst, at, fate, created);
            var passes := kind == New && KeyOf(c.user, inst) == key && created && !c.firstFetch
                          && InNewWindow(cfg, c, inst) && Allowed(cfg, s, kind, key, at);
            GuardDoes(cfg, s, s', kind, key, at, passes)
  {
  }

  lemma {:induction false} NewNotes(cfg: Config, s: State, c: Cycle, inst: Instance, at: int, fate: Fate,
                                    created: bool, kind: Kind, key: Key)
    ensures var s' := SeeNew(cfg, s, c, inst, at, fate, created);
            var passes := kind == New && KeyOf(c.user, inst) == key && created && !c.firstFetch
                          && InNewWindow(cfg, c, inst) && Allowed(cfg, s, kind, key, at);
            NotesDo(s, s', kind, key, at, fate, passes)
  {
    assert SentOf(s, kind, key) + [] == SentOf(s, kind, key);
  }

  lemma {:induction false} ChangedGuard(cfg: Config, s: State, c: Cycle, inst: Instance, at: int, fate: Fate,
                                        change: Change, kind: Kind, key: Key)
    ensures var s' := SeeChanged(cfg, s, c, inst, at, fate, change);
            var passes := kind == Changed && KeyOf(c.user, inst) == key && change.changed && change.prev.Some?
                          && Allowed(cfg, s, kind, key, at);
            GuardDoes(cfg, s, s', kind, key, at, passes)
  {
  }

  lemma {:induction false} ChangedNotes(cfg: Config, s: State, c: Cycle, inst: Instance, at: int, fate: Fate,
                                        change: Change, kind: Kind, key: Key)
    ensures var s' := SeeChanged(cfg, s, c, inst, at, fate, change);
            var passes := kind == Changed && KeyOf(c.user, inst) == key && change.changed && change.prev.Some?
                          && Allowed(cfg, s, kind, key, at);
            NotesDo(s, s', kind, key, at, fate, passes)
  {
    assert SentOf(s, kind, key) + [] == SentOf(s, kind, key);
  }

  lemma {:induction false} ReminderGuard(cfg: Config, s: State, c: Cycle, inst: Instance, at: int, fate: Fate,
                                         change: Change, kind: Kind, key: Key)
    ensures var s' := SeeReminder(cfg, s, c, inst, at, fate, change);
            var passes := kind == Reminder && KeyOf(c.user, inst) == key && InReminderWindow(c, inst)
                          && !(change.prev.Some? && change.prev.value.reminderSent)
                          && Allowed(cfg, s, kind, key, at);
            GuardDoes(cfg, s, s', kind, key, at, passes)
  {
  }

  lemma {:induction false} ReminderNotes(cfg: Config, s: State, c: Cycle, inst: Instance, at: int, fate: Fate,
                                         change: Change, kind: Kind, key: Key)
    ensures var s' := SeeReminder(cfg, s, c, inst, at, fate, change);
            var passes := kind == Reminder && KeyOf(c.user, inst) == key && InReminderWindow(c, inst)
                          && !(change.prev.Some? && change.prev.value.reminderSent)
                          && Allowed(cfg, s, kind, key, at);
            NotesDo(s, s', kind, key, at, fate, passes)
  {
    assert SentOf(s, kind, key) + [] == SentOf(s, kind, key);
  }

  lemma {:induction false} StageAllows(cfg: Config, s: State, s': State, kind: Kind, key: Key, at: int)
    requires GuardEntry(s', kind, key) == GuardEntry(s, kind, key)
    ensures Allowed(cfg, s', kind, key, at) == Allowed(cfg, s, kind, key, at)
  {
  }

  /** The reason for a notification of each kind, as the three stages find it. */
  predicate Reason(cfg: Config, c: Cycle, inst: Instance, change: Change, kind: Kind) {
    match kind
    case New => change.created && !c.firstFetch && InNewWindow(cfg, c, inst)
    case Changed => change.changed && change.prev.Some?
    case Reminder => InReminderWindow(c, inst) && !(change.prev.Some? && change.prev.value.reminderSent)
  }

  lemma {:induction false} StagesDo(cfg: Config, s: State, c: Cycle, inst: Instance, at: int, fate: Fate,
                                    change: Change, kind: Kind, key: Key)
    ensures var s1 := SeeNew(cfg, s, c, inst, at, fate, change.created);
            var s2 := SeeChanged(cfg, s1, c, inst, at, fate, change);
            var s3 := SeeReminder(cfg, s2, c, inst, at, fate, change);
            var passes := KeyOf(c.user, inst) == key && Reason(cfg, c, inst, change, kind)
                          && Allowed(cfg, s, kind, key, at);
            GuardDoes(cfg, s, s3, kind, key, at, passes) && NotesDo(s, s3, kind, key, at, fate, passes)
  {
    var s1 := SeeNew(cfg, s, c, inst, at, fate, change.created);
    var s2 := SeeChanged(cfg, s1, c, inst, at, fate, change);
    NewGuard(cfg, s, c, inst, at, fate, change.created, kind, key);
    NewNotes(cfg, s, c, inst, at, fate, change.created, kind, key);
    ChangedGuard(cfg, s1, c, inst, at, fate, change, kind, key);
    ChangedNotes(cfg, s1, c, inst, at, fate, change, kind, key);
    ReminderGuard(cfg, s2, c, inst, at, fate, change, kind, key);
    ReminderNotes(cfg, s2, c, inst, at, fate, change, kind, key);
    if kind != New { StageAllows(cfg, s, s1, kind, key, at); }
    if kind == Reminder { StageAllows(cfg, s1, s2, kind, key, at); }
  }

  /** What a look at an instance does to the guard's entries and to the notes. */
  lemma {:induction false} LookDoes(cfg: Config, s: State, e: Step, kind: Kind, key: Key)
    requires Enabled(cfg, s, e) && e.See? && e.fate.upsert
    ensures GuardDoes(cfg, s, Next(cfg, s, e), kind, key, e.at, PassesNow(cfg, s, e, kind, key))
    ensures NotesDo(s, Next(cfg, s, e), kind, key, e.at, e.fate, PassesNow(cfg, s, e, kind, key))
  {
    var c := s.cycle.value;
    var change := ChangeOf(s.rows, KeyOf(c.user, e.inst), SnapshotOf(e.inst));
    var s0 := Looked(s, c, e.inst, e.at);
    SeeIsItsStages(cfg, s, e.inst, e.at, e.fate);
    StagesDo(cfg, s0, c, e.inst, e.at, e.fate, change, kind, key);
    StageAllows(cfg, s, s0, kind, key, e.at);
  }

  /** Every other step leaves both alone, except for a restart and the removal of the calendar. */
  lemma {:induction false} OtherStepDoes(cfg: Config, s: State, e: Step, kind: Kind, key: Key)
    requires Enabled(cfg, s, e) && !(e.See? && e.fate.upsert)
    ensures GuardEntry(Next(cfg, s, e), kind, key) == if e.Restart? then None else GuardEntry(s, kind, key)
    ensures SentOf(Next(cfg, s, e), kind, key)
         == if e.RemoveCalendar? && e.user == key.user then [] else SentOf(s, kind, key)
  {
  }

  lemma {:induction false} FlagRaised(cfg: Config, s: State, c: Cycle, inst: Instance, at: int, fate: Fate,
                                      change: Change)
    requires KeyOf(c.user, inst) in s.rows
    ensures var key := KeyOf(c.user, inst);
            var rows := SeeReminder(cfg, s, c, inst, at, fate, change).rows;
            && key in rows
            && (rows[key].reminderSent <==>
                  || s.rows[key].reminderSent
                  || (&& InReminderWindow(c, inst) && !(change.prev.Some? && change.prev.value.reminderSent)
                      && Allowed(cfg, s, Reminder, key, at) && fate.sendReminder && fate.markReminder))
  {
  }

  lemma {:induction false} FlagStays(cfg: Config, s: State, c: Cycle, inst: Instance, at: int, fate: Fate,
                                     change: Change)
    requires KeyOf(c.user, inst) in s.rows
    ensures var key, s1 := KeyOf(c.user, inst), SeeNew(cfg, s, c, inst, at, fate, change.created);
            var rows := SeeChanged(cfg, s1, c, inst, at, fate, change).rows;
            key in rows && rows[key].reminderSent == s.rows[key].reminderSent
  {
    var s1 := SeeNew(cfg, s, c, inst, at, fate, change.created);
    SeeNewShape(cfg, s, c, inst, at, fate, change.created);
    ChangedRow(cfg, s1, c, inst, at, fate, change);
  }

  lemma {:induction false} LookFlags(cfg: Config, s: State, e: Step)
    requires Enabled(cfg, s, e) && e.See? && e.fate.upsert
    ensures var key, rows := KeyOf(s.cycle.value.user, e.inst), Next(cfg, s, e).rows;
            && key in rows
            && (rows[key].reminderSent <==>
                  || (key in s.rows && s.rows[key].reminderSent)
                  || (PassesNow(cfg, s, e, Reminder, key) && e.fate.sendReminder && e.fate.markReminder))
  {
    var c := s.cycle.value;
    var key := KeyOf(c.user, e.inst);
    var change := ChangeOf(s.rows, key, SnapshotOf(e.inst));
    var s0 := Looked(s, c, e.inst, e.at);
    var s1 := SeeNew(cfg, s0, c, e.inst, e.at, e.fate, change.created);
    var s2 := SeeChanged(cfg, s1, c, e.inst, e.at, e.fate, change);
    SeeIsItsStages(cfg, s, e.inst, e.at, e.fate);
    FlagStays(cfg, s0, c, e.inst, e.at, e.fate, change);
    FlagRaised(cfg, s2, c, e.inst, e.at, e.fate, change);
    NewGuard(cfg, s0, c, e.inst, e.at, e.fate, change.created, Reminder, key);
    ChangedGuard(cfg, s1, c, e.inst, e.at, e.fate, change, Reminder, key);
    StageAllows(cfg, s, s0, Reminder, key, e.at);
    StageAllows(cfg, s0, s1, Reminder, key, e.at);
    StageAllows(cfg, s1, s2, Reminder, key, e.at);
  }

  // ---------------------------------------------------------------- the guard and the flag over a run

  lemma {:induction false} TimePasses(cfg: Config, s: State, run: seq<Step>, k: nat, n: nat)
    requires Initial(s) && Legal(cfg, s, run) && k < n <= |run| && run[k].See?
    ensures run[k].at <= At(cfg, s, run, n).clock
    decreases n
  {
    AtNext(cfg, s, run, n - 1);
    ClockMoves(cfg, At(cfg, s, run, n - 1), run[n - 1]);
    if k < n - 1 { TimePasses(cfg, s, run, k, n - 1); }
  }

  lemma {:induction false} ClockMoves(cfg: Config, s: State, e: Step)
    requires Enabled(cfg, s, e)
    ensures Next(cfg, s, e).clock >= s.clock && (e.See? ==> Next(cfg, s, e).clock == e.at)
  {
    if e.See? { SeeIsEnabled(cfg, s, s.cycle.value, Seen(e.inst, e.at, e.fate)); }
  }

  /** The steps before `n` that got as far as sending. */
  ghost function Passed(cfg: Config, run: seq<Step>, n: nat, kind: Kind, key: Key): set<int> {
    set k: int | 0 <= k < n && Passes(cfg, run, k, kind, key)
  }

  lemma {:induction false} PassedNext(cfg: Config, run: seq<Step>, n: nat, next: nat, kind: Kind, key: Key)
    requires next == n + 1
    ensures Passed(cfg, run, next, kind, key)
         == Passed(cfg, run, n, kind, key) + if Passes(cfg, run, n, kind, key) then {n} else {}
  {
  }

  /** This is the guard's entry: the newest of the steps in `passed` since the last restart. */
  ghost predicate EntryOk(ttl: int, run: seq<Step>, n: nat, passed: set<int>, entry: Option<int>)
    requires n <= |run| && forall k :: k in passed ==> 0 <= k < n && run[k].See?
  {
    && (forall k :: k in passed && !RestartBetween(run, k, n) ==> entry.Some? && entry.value >= run[k].at + ttl)
    && (entry.Some? ==> exists k :: k in passed && !RestartBetween(run, k, n) && entry.value == run[k].at + ttl)
  }

  ghost predicate GuardOk(cfg: Config, s: State, run: seq<Step>, n: nat, kind: Kind, key: Key)
    requires Legal(cfg, s, run) && n <= |run|
  {
    cfg.guardTtl.Some? ==>
      EntryOk(cfg.guardTtl.value, run, n, Passed(cfg, run, n, kind, key), GuardEntry(At(cfg, s, run, n), kind, key))
  }

  /** Step `k` reminded of the instance, and noted so. */
  ghost predicate RemindedAndNoted(cfg: Config, run: seq<Step>, k: nat, key: Key) {
    Passes(cfg, run, k, Reminder, key) && run[k].fate.sendReminder && run[k].fate.markReminder
  }

  ghost predicate Noted(cfg: Config, run: seq<Step>, n: nat, key: Key) {
    exists k: nat :: k < n && RemindedAndNoted(cfg, run, k, key) && KeptSince(run, k, n, key)
  }

  ghost predicate FlagOk(cfg: Config, s: State, run: seq<Step>, n: nat, key: Key)
    requires Legal(cfg, s, run) && n <= |run|
  {
    var rows := At(cfg, s, run, n).rows;
    key in rows ==> (rows[key].reminderSent <==> Noted(cfg, run, n, key))
  }

  lemma {:induction false} SeenReason(cfg: Config, s: State, run: seq<Step>, n: nat, kind: Kind, key: Key)
    requires Initial(s) && Legal(cfg, s, run) && n < |run| && run[n].See? && run[n].fate.upsert
    requires RowOk(cfg, s, run, n, key) && FlagOk(cfg, s, run, n, key)
    ensures Enabled(cfg, At(cfg, s, run, n), run[n])
    ensures WantsNow(cfg, At(cfg, s, run, n), run[n], kind, key) <==>
            exists b ::
              && LooksAt(run, b, n, key)
              && match kind
                 case New =>
                   && !HasRow(run, n, key) && NotFirstFetch(run, b, key.user)
                   && run[b].now < key.instanceTs <= run[b].now + cfg.newHorizon
                 case Changed => exists m :: KeptFrom(run, m, n, key) && LooksChanged(run[m].inst, run[n].inst)
                 case Reminder => DueFor(cfg, run, b, key.instanceTs) && !Noted(cfg, run, n, key)
  {
    AtNext(cfg, s, run, n);
    var b := LookIsInHand(cfg, s, run, n, key);
    if LooksAt(run, b, n, key) {
      match kind
      case New => FirstFetchIff(cfg, s, run, b, n);
      case Changed => ChangeIsSeen(cfg, s, run, n, key);
      case Reminder => assert Noted(cfg, run, n, key) ==> HasRow(run, n, key);
    }
  }

  lemma {:induction false} FirstFetchIff(cfg: Config, s: State, run: seq<Step>, b: int, n: nat)
    requires Initial(s) && Legal(cfg, s, run) && OpenCycle(run, b, n)
    ensures At(cfg, s, run, n).cycle.Some?
    ensures At(cfg, s, run, n).cycle.value.firstFetch <==> !NotFirstFetch(run, b, run[b].user)
  {
    OpenCycleIsInHand(cfg, s, run, b, n);
    var l := ListedBy(cfg, s, run, b, run[b].user);
    FetchedMeansRecorded(cfg, s, run, l, run[b].user);
    OneListing(run, l, b, run[b].user);
  }

  lemma {:induction false} ChangeIsSeen(cfg: Config, s: State, run: seq<Step>, n: nat, key: Key)
    requires Initial(s) && Legal(cfg, s, run) && n < |run| && run[n].See? && RowOk(cfg, s, run, n, key)
    requires run[n].inst.start == key.instanceTs
    ensures var rows := At(cfg, s, run, n).rows;
            key in rows && Differs(rows[key].snap, SnapshotOf(run[n].inst)) <==>
            exists m :: KeptFrom(run, m, n, key) && LooksChanged(run[m].inst, run[n].inst)
  {
    var rows := At(cfg, s, run, n).rows;
    forall m | KeptFrom(run, m, n, key)
      ensures Differs(rows[key].snap, SnapshotOf(run[n].inst)) <==> LooksChanged(run[m].inst, run[n].inst) {
      assert Remembers(rows[key], run[m]);
      var b :| LooksAt(run, b, m, key);
    }
  }

  lemma {:induction false} GuardAllows(cfg: Config, s: State, run: seq<Step>, n: nat, kind: Kind, key: Key)
    requires Legal(cfg, s, run) && n < |run| && run[n].See? && GuardOk(cfg, s, run, n, kind, key)
    ensures Allowed(cfg, At(cfg, s, run, n), kind, key, run[n].at) <==>
            (cfg.guardTtl.Some? ==>
               forall k: nat :: k < n && Passes(cfg, run, k, kind, key) && !RestartBetween(run, k, n) ==>
                 run[n].at >= run[k].at + cfg.guardTtl.value)
  {
    var passed := Passed(cfg, run, n, kind, key);
    assert forall k: nat :: k in passed <==> k < n && Passes(cfg, run, k, kind, key);
  }

  /** What the run says of a step is what the code finds. */
  lemma {:induction false} PassesIff(cfg: Config, s: State, run: seq<Step>, n: nat, kind: Kind, key: Key)
    requires Initial(s) && Legal(cfg, s, run) && n < |run|
    requires RowOk(cfg, s, run, n, key) && FlagOk(cfg, s, run, n, key) && GuardOk(cfg, s, run, n, kind, key)
    ensures Enabled(cfg, At(cfg, s, run, n), run[n])
    ensures Passes(cfg, run, n, kind, key) <==> PassesNow(cfg, At(cfg, s, run, n), run[n], kind, key)
  {
    AtNext(cfg, s, run, n);
    if run[n].See? && run[n].fate.upsert {
      SeenReason(cfg, s, run, n, kind, key);
      GuardAllows(cfg, s, run, n, kind, key);
      NotedIs(cfg, run, n, key);
    }
  }

  lemma {:induction false} NotedIs(cfg: Config, run: seq<Step>, n: nat, key: Key)
    ensures Noted(cfg, run, n, key) <==>
            exists k: nat :: k < n && Passes(cfg, run, k, Reminder, key) && run[k].fate.sendReminder
                             && run[k].fate.markReminder && KeptSince(run, k, n, key)
  {
    if k: nat :| k < n && Passes(cfg, run, k, Reminder, key) && run[k].fate.sendReminder
                 && run[k].fate.markReminder && KeptSince(run, k, n, key)
    {
      assert RemindedAndNoted(cfg, run, k, key);
    }
  }

  lemma {:induction false} RestartNext(run: seq<Step>, k: nat, n: nat)
    requires n < |run|
    ensures RestartBetween(run, k, n + 1) <==> RestartBetween(run, k, n) || (k < n && run[n].Restart?)
  {
  }

  lemma {:induction false} EntryNext(ttl: int, run: seq<Step>, n: nat, next: nat, passed: set<int>,
                                     entry: Option<int>, passes: bool)
    requires n < |run| && next == n + 1 && forall k :: k in passed ==> 0 <= k < n && run[k].See?
    requires EntryOk(ttl, run, n, passed, entry)
    requires passes ==> run[n].See? && forall k :: k in passed ==> run[k].at <= run[n].at
    ensures EntryOk(ttl, run, next, passed + if passes then {n} else {},
                    if passes then Some(run[n].at + ttl) else if run[n].Restart? then None else entry)
  {
    forall k: nat ensures RestartBetween(run, k, next) <==> RestartBetween(run, k, n) || (k < n && run[n].Restart?) {
      RestartNext(run, k, n);
    }
    RestartNext(run, n, n);
  }

  lemma {:induction false} EntryAfterStep(cfg: Config, s: State, e: Step, kind: Kind, key: Key)
    requires Enabled(cfg, s, e) && cfg.guardTtl.Some?
    ensures GuardEntry(Next(cfg, s, e), kind, key)
         == if PassesNow(cfg, s, e, kind, key) then Some(e.at + cfg.guardTtl.value)
            else if e.Restart? then None else GuardEntry(s, kind, key)
  {
    if e.See? && e.fate.upsert {
      LookDoes(cfg, s, e, kind, key);
    } else {
      OtherStepDoes(cfg, s, e, kind, key);
    }
  }

  lemma {:induction false} EntryAfter(cfg: Config, s: State, run: seq<Step>, n: nat, kind: Kind, key: Key,
                                      passes: bool)
    requires Initial(s) && Legal(cfg, s, run) && n < |run| && cfg.guardTtl.Some?
    requires Enabled(cfg, At(cfg, s, run, n), run[n])
    requires passes == PassesNow(cfg, At(cfg, s, run, n), run[n], kind, key)
    ensures passes ==> run[n].See?
    ensures GuardEntry(At(cfg, s, run, n + 1), kind, key)
         == if passes then Some(run[n].at + cfg.guardTtl.value)
            else if run[n].Restart? then None else GuardEntry(At(cfg, s, run, n), kind, key)
  {
    EntryAfterStep(cfg, At(cfg, s, run, n), run[n], kind, key);
    EntryAtNext(cfg, s, run, n, kind, key);
  }

  lemma {:induction false} EntryAtNext(cfg: Config, s: State, run: seq<Step>, n: nat, kind: Kind, key: Key)
    requires Legal(cfg, s, run) && n < |run|
    ensures Enabled(cfg, At(cfg, s, run, n), run[n])
    ensures GuardEntry(At(cfg, s, run, n + 1), kind, key)
         == GuardEntry(Next(cfg, At(cfg, s, run, n), run[n]), kind, key)
  {
    AtNext(cfg, s, run, n);
  }

  lemma {:induction false} EntryToldAfter(cfg: Config, s: State, run: seq<Step>, n: nat, kind: Kind, key: Key)
    returns (passes: bool)
    requires Initial(s) && Legal(cfg, s, run) && n < |run| && cfg.guardTtl.Some?
    requires RowOk(cfg, s, run, n, key) && FlagOk(cfg, s, run, n, key) && GuardOk(cfg, s, run, n, kind, key)
    ensures (passes <==> Passes(cfg, run, n, kind, key)) && (passes ==> run[n].See?)
    ensures GuardEntry(At(cfg, s, run, n + 1), kind, key)
         == if passes then Some(run[n].at + cfg.guardTtl.value)
            else if run[n].Restart? then None else GuardEntry(At(cfg, s, run, n), kind, key)
  {
    PassesIff(cfg, s, run, n, kind, key);
    passes := PassesNow(cfg, At(cfg, s, run, n), run[n], kind, key);
    EntryAfter(cfg, s, run, n, kind, key, passes);
  }

  lemma {:induction false} GuardNext(cfg: Config, s: State, run: seq<Step>, n: nat, next: nat, kind: Kind, key: Key)
    requires Initial(s) && Legal(cfg, s, run) && n < |run| && next == n + 1
    requires RowOk(cfg, s, run, n, key) && FlagOk(cfg, s, run, n, key) && GuardOk(cfg, s, run, n, kind, key)
    ensures GuardOk(cfg, s, run, next, kind, key) == true
  {
    if cfg.guardTtl.Some? {
      var entry, passed := GuardEntry(At(cfg, s, run, n), kind, key), Passed(cfg, run, n, kind, key);
      var passes := EntryToldAfter(cfg, s, run, n, kind, key);
      PassedNext(cfg, run, n, next, kind, key);
      if passes { PassedBefore(cfg, s, run, n, passed); }
      EntryNext(cfg.guardTtl.value, run, n, next, passed, entry, passes);
    }
  }

  lemma {:induction false} PassedBefore(cfg: Config, s: State, run: seq<Step>, n: nat, passed: set<int>)
    requires Initial(s) && Legal(cfg, s, run) && n < |run| && run[n].See?
    requires forall k :: k in passed ==> 0 <= k < n && run[k].See?
    ensures forall k :: k in passed ==> run[k].at <= run[n].at
  {
    AtNext(cfg, s, run, n);
    forall k | k in passed ensures run[k].at <= run[n].at {
      TimePasses(cfg, s, run, k, n);
    }
  }

  lemma {:induction false} KeptSinceNext(run: seq<Step>, k: int, n: nat, key: Key)
    requires k <= n
    ensures KeptSince(run, k, n + 1, key) <==> KeptSince(run, k, n, key) && HasRow(run, n + 1, key)
    ensures KeptSince(run, n, n, key)
    ensures k < n && KeptSince(run, k, n, key) ==> HasRow(run, n, key)
  {
  }

  lemma {:induction false} NotedNext(cfg: Config, run: seq<Step>, n: nat, next: nat, key: Key)
    requires next == n + 1 && HasRow(run, next, key)
    ensures Noted(cfg, run, next, key) <==> Noted(cfg, run, n, key) || RemindedAndNoted(cfg, run, n, key)
    ensures Noted(cfg, run, n, key) ==> HasRow(run, n, key)
  {
    forall k: nat | k <= n ensures KeptSince(run, k, next, key) <==> KeptSince(run, k, n, key) {
      KeptSinceNext(run, k, n, key);
    }
    KeptSinceNext(run, n, n, key);
  }

  lemma {:induction false} FlagNext(cfg: Config, s: State, run: seq<Step>, n: nat, next: nat, key: Key)
    requires Initial(s) && Legal(cfg, s, run) && n < |run| && next == n + 1 && RowOk(cfg, s, run, next, key)
    requires RowOk(cfg, s, run, n, key) && FlagOk(cfg, s, run, n, key) && GuardOk(cfg, s, run, n, Reminder, key)
    ensures FlagOk(cfg, s, run, next, key)
  {
    var at, e := At(cfg, s, run, n), run[n];
    AtNext(cfg, s, run, n);
    PassesIff(cfg, s, run, n, Reminder, key);
    if key in At(cfg, s, run, next).rows {
      NotedNext(cfg, run, n, next, key);
      if e.See? && e.fate.upsert && KeyOf(at.cycle.value.user, e.inst) == key {
        LookFlags(cfg, at, e);
      } else {
        OtherRow(cfg, at, e, key);
      }
    }
  }

  /** Rows, flags and the guard's entries before step `n` are as the run tells. */
  ghost predicate Told(cfg: Config, s: State, run: seq<Step>, n: nat, kind: Kind, key: Key)
    requires Legal(cfg, s, run) && n <= |run|
  {
    RowOk(cfg, s, run, n, key) && FlagOk(cfg, s, run, n, key) && GuardOk(cfg, s, run, n, kind, key)
  }

  lemma {:induction false} ToldAtFirst(cfg: Config, s: State, run: seq<Step>, kind: Kind, key: Key)
    requires Initial(s) && Legal(cfg, s, run)
    ensures Told(cfg, s, run, 0, kind, key) == true
  {
    RowIsLastSeen(cfg, s, run, 0, key);
  }

  lemma {:induction false} ToldNext(cfg: Config, s: State, run: seq<Step>, n: nat, next: nat, kind: Kind, key: Key)
    requires Initial(s) && Legal(cfg, s, run) && n < |run| && next == n + 1
    requires Told(cfg, s, run, n, kind, key) && Told(cfg, s, run, n, Reminder, key)
    ensures Told(cfg, s, run, next, kind, key) == true
  {
    RowIsLastSeen(cfg, s, run, next, key);
    GuardNext(cfg, s, run, n, next, kind, key);
    FlagNext(cfg, s, run, n, next, key);
  }

  lemma {:induction false} StateIsTold(cfg: Config, s: State, run: seq<Step>, n: nat, kind: Kind, key: Key)
    requires Initial(s) && Legal(cfg, s, run) && n <= |run|
    ensures Told(cfg, s, run, n, kind, key) == true
    decreases n
  {
    if n == 0 {
      ToldAtFirst(cfg, s, run, kind, key);
    } else {
      StateIsTold(cfg, s, run, n - 1, kind, key);
      StateIsTold(cfg, s, run, n - 1, Reminder, key);
      ToldNext(cfg, s, run, n - 1, n, kind, key);
    }
  }

  /** In every run, with any failures, restarts, removals, changed feeds and expiry, a notification of any
      kind goes out exactly at the steps that `Passes` describes and whose message is sent; its flag is
      written when that write succeeds. The log starts afresh when the calendar is removed. */
  lemma {:induction false} NoteIff(cfg: Config, s: State, run: seq<Step>, n: nat, kind: Kind, key: Key)
    requires Initial(s) && Legal(cfg, s, run) && n < |run|
    ensures SentOf(At(cfg, s, run, n + 1), kind, key) ==
            if run[n].RemoveCalendar? && run[n].user == key.user then []
            else SentOf(At(cfg, s, run, n), kind, key)
                 + if Passes(cfg, run, n, kind, key) && Sends(run[n].fate, kind)
                   then [Note(run[n].at, Marks(run[n].fate, kind))] else []
  {
    var at, e := At(cfg, s, run, n), run[n];
    AtNext(cfg, s, run, n);
    StateIsTold(cfg, s, run, n, kind, key);
    PassesIff(cfg, s, run, n, kind, key);
    if e.See? && e.fate.upsert {
      LookDoes(cfg, at, e, kind, key);
    } else {
      OtherStepDoes(cfg, at, e, kind, key);
      assert SentOf(at, kind, key) + [] == SentOf(at, kind, key);
    }
  }
}
