/**
  The calendar reminder state machine of internal/calendarpoller/poller.go over the row store of
  internal/storage/calendar_event_repo.go.

  A run is a sequence of events: a tick listing the users, the start of a poll cycle for one of them,
  one instance looked at, the end of the cycle, a process restart, the removal of a calendar, a
  changed feed URL, and the store's own expiry of unseen rows. Times are integer seconds of one monotone clock.
*/
module CalendarPoller {
  import opened Wrappers
  import opened CalendarEventRepo
  import opened CalendarExpander

  datatype Kind = New | Changed | Reminder

  /** A notification handed over; `recorded` tells whether its durable flag was written after it. */
  datatype Note = Note(at: int, recorded: bool)

  /** `guardTtl` is None when the poller runs without the in-process duplicate guard. */
  datatype Config = Config(newHorizon: int, defaultReminderMins: int, guardTtl: Option<int>)

  datatype Cycle = Cycle(user: int, now: int, firstFetch: bool, lead: int)

  /** `fetched` holds the users with a nonzero last-fetch time; `listed` those the tick has still to
      poll, each with whether it had one as the tick read it. `sent` and `due` are history variables,
      restarted when a calendar is removed: what was sent for each instance, and the instances some
      cycle has seen inside their reminder window. */
  datatype State = State(rows: Rows,
                         guard: map<(Kind, Key), int>,
                         fetched: set<int>,
                         listed: map<int, bool>,
                         cycle: Option<Cycle>,
                         clock: int,
                         sent: map<(Kind, Key), seq<Note>>,
                         due: set<Key>)

  /** Which of the store and messenger calls made for one instance succeed. */
  datatype Fate = Fate(upsert: bool, sendNew: bool, markNew: bool, sendChanged: bool,
                       sendReminder: bool, markReminder: bool)

  datatype Step =
    | List(users: set<int>)
    | Begin(user: int, now: int, reminderMins: int, feed: bool, marked: bool)
    | See(inst: Instance, at: int, fate: Fate)
    | End(at: int, deleted: bool, marked: bool)
    | Restart(at: int)
    | RemoveCalendar(user: int, at: int, wiped: bool)
    | SetUrl(user: int)
    | ExpireRows(at: int)

  const STALE_LOOKBACK := 7 * SECONDS_PER_DAY
  const MAX_REMINDER_MINS := 1440
  const MAX_LEAD := MAX_REMINDER_MINS * 60
  const MAX_CYCLE := SECONDS_PER_DAY // no poll cycle lasts longer
  const MAX_HORIZON := SEEN_AT_TTL - MAX_CYCLE + 1

  function SentOf(s: State, kind: Kind, key: Key): seq<Note> {
    if (kind, key) in s.sent then s.sent[(kind, key)] else []
  }

  function EffectiveMins(cfg: Config, mins: int): int {
    if mins <= 0 then cfg.defaultReminderMins else mins
  }

  function KeyOf(user: int, inst: Instance): Key {
    Key(user, inst.uid, inst.start)
  }

  function SnapshotOf(inst: Instance): Snapshot {
    Snapshot(inst.summary, inst.start, if inst.end.Some? then inst.end.value else 0, inst.location,
             inst.sequence, if inst.lastModified.Some? then inst.lastModified.value else 0)
  }

  // ---------------------------------------------------------------- one instance

  predicate Allowed(cfg: Config, s: State, kind: Kind, key: Key, at: int) {
    cfg.guardTtl.None? || !((kind, key) in s.guard && at < s.guard[(kind, key)])
  }

  function Guarded(cfg: Config, s: State, kind: Kind, key: Key, at: int): State {
    if cfg.guardTtl.Some? && Allowed(cfg, s, kind, key, at)
    then s.(guard := s.guard[(kind, key) := at + cfg.guardTtl.value])
    else s
  }

  function Noted(s: State, kind: Kind, key: Key, note: Note): State {
    s.(sent := s.sent[(kind, key) := SentOf(s, kind, key) + [note]])
  }

  predicate InNewWindow(cfg: Config, c: Cycle, inst: Instance) {
    inst.start > c.now && inst.start - c.now <= cfg.newHorizon
  }

  predicate InReminderWindow(c: Cycle, inst: Instance) {
    c.now > inst.start - c.lead && inst.start > c.now
  }

  function SeeNew(cfg: Config, s: State, c: Cycle, inst: Instance, at: int, fate: Fate, created: bool): State {
    var key := KeyOf(c.user, inst);
    if c.firstFetch || !created then s
    else if InNewWindow(cfg, c, inst) then
      if !Allowed(cfg, s, New, key, at) then s
      else
        var s1 := Guarded(cfg, s, New, key, at);
        if !fate.sendNew then s1
        else
          var s2 := Noted(s1, New, key, Note(at, fate.markNew));
          if fate.markNew then s2.(rows := NewMarked(s2.rows, key, at)) else s2
    else if fate.markNew then s.(rows := NewMarked(s.rows, key, at)) else s
  }

  function SeeChanged(cfg: Config, s: State, c: Cycle, inst: Instance, at: int, fate: Fate, change: Change): State {
    var key := KeyOf(c.user, inst);
    if !(change.changed && change.prev.Some?) || !Allowed(cfg, s, Changed, key, at) then s
    else
      var s1 := Guarded(cfg, s, Changed, key, at);
      if fate.sendChanged then Noted(s1, Changed, key, Note(at, false)) else s1
  }

  function SeeReminder(cfg: Config, s: State, c: Cycle, inst: Instance, at: int, fate: Fate, change: Change): State {
    var key := KeyOf(c.user, inst);
    var prevSent := change.prev.Some? && change.prev.value.reminderSent;
    if !InReminderWindow(c, inst) || prevSent || !Allowed(cfg, s, Reminder, key, at) then s
    else
      var s1 := Guarded(cfg, s, Reminder, key, at);
      if !fate.sendReminder then s1
      else
        var s2 := Noted(s1, Reminder, key, Note(at, fate.markReminder));
        if fate.markReminder then s2.(rows := ReminderMarked(s2.rows, key, at)) else s2
  }

  /** The row of the instance brought up to date. */
  function Refreshed(s: State, c: Cycle, inst: Instance, at: int): State {
    var key := KeyOf(c.user, inst);
    s.(rows := Upserted(s.rows, key, SnapshotOf(inst), c.firstFetch, at))
  }

  function AfterSee(cfg: Config, s: State, c: Cycle, inst: Instance, at: int, fate: Fate): State {
    var key := KeyOf(c.user, inst);
    var s0 := s.(clock := at, due := if InReminderWindow(c, inst) then s.due + {key} else s.due);
    if !fate.upsert then s0
    else
      var change := ChangeOf(s0.rows, key, SnapshotOf(inst));
      var s1 := Refreshed(s0, c, inst, at);
      var s2 := SeeNew(cfg, s1, c, inst, at, fate, change.created);
      var s3 := SeeChanged(cfg, s2, c, inst, at, fate, change);
      SeeReminder(cfg, s3, c, inst, at, fate, change)
  }

  // ---------------------------------------------------------------- one step

  predicate Enabled(cfg: Config, s: State, e: Step) {
    match e
    case List(_) => s.cycle.None?
    case Begin(user, now, mins, _, _) =>
      s.cycle.None? && user in s.listed && now >= s.clock && 1 <= EffectiveMins(cfg, mins) <= MAX_REMINDER_MINS
    case See(_, at, _) => s.cycle.Some? && at >= s.clock
    case End(at, _, _) => s.cycle.Some? && at >= s.clock
    case Restart(at) => at >= s.clock
    case RemoveCalendar(_, at, _) => at >= s.clock
    case SetUrl(_) => true
    case ExpireRows(at) => at >= s.clock && (s.cycle.Some? ==> at - s.cycle.value.now <= MAX_CYCLE)
  }

  /** The users as the store has them at this moment. */
  function Listing(s: State, users: set<int>): map<int, bool> {
    map user | user in users :: user in s.fetched
  }

  function Next(cfg: Config, s: State, e: Step): State
    requires Enabled(cfg, s, e)
  {
    match e
    case List(users) => s.(listed := Listing(s, users))
    case Begin(user, now, mins, feed, marked) =>
      var lead := EffectiveMins(cfg, mins) * 60;
      if feed
      then s.(clock := now, listed := s.listed - {user}, cycle := Some(Cycle(user, now, !s.listed[user], lead)))
      else s.(clock := now, listed := s.listed - {user}, fetched := if marked then s.fetched + {user} else s.fetched)
    case See(inst, at, fate) => AfterSee(cfg, s, s.cycle.value, inst, at, fate)
    case End(at, deleted, marked) =>
      var c := s.cycle.value;
      s.(clock := at, cycle := None,
         rows := if deleted then WithoutStale(s.rows, c.user, c.now - STALE_LOOKBACK) else s.rows,
         fetched := if marked then s.fetched + {c.user} else s.fetched)
    case Restart(at) => s.(clock := at, cycle := None, guard := map[], listed := map[])
    case RemoveCalendar(user, at, wiped) =>
      s.(clock := at,
         fetched := s.fetched - {user},
         rows := if wiped then WithoutUser(s.rows, user) else s.rows,
         sent := map k | k in s.sent && k.1.user != user :: s.sent[k],
         due := set k | k in s.due && k.user != user)
    case SetUrl(user) => s.(fetched := s.fetched - {user})
    case ExpireRows(at) => s.(clock := at, rows := WithoutUnseen(s.rows, at))
  }

  ghost predicate Legal(cfg: Config, s: State, run: seq<Step>)
    decreases |run|, 0
  {
    run == [] ||
    var init, last := run[..|run| - 1], run[|run| - 1];
    Legal(cfg, s, init) && Enabled(cfg, Exec(cfg, s, init), last)
  }

  ghost function Exec(cfg: Config, s: State, run: seq<Step>): State
    requires Legal(cfg, s, run)
    decreases |run|, 1
  {
    if run == [] then s
    else Next(cfg, Exec(cfg, s, run[..|run| - 1]), run[|run| - 1])
  }

  /** The run is legal from `s` and ends in `s'`. */
  ghost predicate RunsTo(cfg: Config, s: State, run: seq<Step>, s': State) {
    Legal(cfg, s, run) && Exec(cfg, s, run) == s'
  }

  lemma OneMore(cfg: Config, s: State, run: seq<Step>, e: Step)
    requires Legal(cfg, s, run) && Enabled(cfg, Exec(cfg, s, run), e)
    ensures Legal(cfg, s, run + [e]) && Exec(cfg, s, run + [e]) == Next(cfg, Exec(cfg, s, run), e)
  {
    assert (run + [e])[..|run|] == run;
  }

  lemma {:induction false} Concat(cfg: Config, s: State, a: seq<Step>, b: seq<Step>)
    requires Legal(cfg, s, a) && Legal(cfg, Exec(cfg, s, a), b)
    ensures Legal(cfg, s, a + b) && Exec(cfg, s, a + b) == Exec(cfg, Exec(cfg, s, a), b)
    decreases |b|
  {
    if b == [] {
      assert a + b == a;
    } else {
      var init := b[..|b| - 1];
      Concat(cfg, s, a, init);
      OneMore(cfg, s, a + init, b[|b| - 1]);
      assert a + init + [b[|b| - 1]] == a + b;
    }
  }

  /** A fresh deployment: nothing stored, nothing sent. */
  predicate Initial(s: State) {
    && s.rows == map[] && s.guard == map[] && s.fetched == {} && s.listed == map[] && s.cycle == None
    && s.sent == map[] && s.due == {}
  }

  // ---------------------------------------------------------------- at most once

  function Base(s: State): int {
    if s.cycle.Some? then s.cycle.value.now else s.clock
  }

  predicate HasRow(s: State, key: Key, since: int, flagged: bool) {
    key in s.rows && s.rows[key].seenAt >= since && (flagged ==> s.rows[key].reminderSent)
  }

  /** An instance that was announced has either started or still has its row. */
  predicate Remembered(s: State, key: Key, note: Note, flagged: bool) {
    && note.at <= s.clock && note.at >= key.instanceTs - MAX_HORIZON
    && (key.instanceTs <= Base(s) || HasRow(s, key, note.at, flagged))
  }

  /** Only the last reminder of an instance can have been recorded. */
  predicate RemindersOk(s: State, key: Key) {
    var log := SentOf(s, Reminder, key);
    && (forall i :: 0 <= i < |log| && log[i].recorded ==> i == |log| - 1)
    && (log != [] && log[|log| - 1].recorded ==> Remembered(s, key, log[|log| - 1], true))
  }

  predicate NewsOk(s: State, key: Key) {
    var log := SentOf(s, New, key);
    |log| <= 1 && (log != [] ==> Remembered(s, key, log[0], false))
  }

  /** The invariant; with `news`, it also covers the announcements of new events. */
  ghost predicate Inv(s: State, news: bool) {
    && (s.cycle.Some? ==> s.cycle.value.now <= s.clock && 0 < s.cycle.value.lead <= MAX_LEAD)
    && (forall key :: key in s.rows ==> s.rows[key].snap.start == key.instanceTs && s.rows[key].seenAt <= s.clock)
    && (forall key :: RemindersOk(s, key))
    && (news ==> forall key :: NewsOk(s, key))
  }

  /** The announcement of new events looks no further ahead than rows are kept. */
  predicate HorizonFits(cfg: Config) {
    cfg.newHorizon <= MAX_HORIZON
  }

  predicate CycleOk(s: State) {
    s.cycle.Some? ==> s.cycle.value.now <= s.clock && 0 < s.cycle.value.lead <= MAX_LEAD
  }

  /** Time went on, and no row of an announced event still to come disappeared or lost its flag. */
  ghost predicate Forgets(s: State, s': State) {
    && s'.clock >= s.clock && Base(s') >= Base(s) && CycleOk(s')
    && (forall key :: key in s.rows && key !in s'.rows ==>
          || key.instanceTs <= Base(s') || s.rows[key].seenAt + (SEEN_AT_TTL - MAX_CYCLE) < Base(s')
          || (SentOf(s', Reminder, key) == [] && SentOf(s', New, key) == []))
    && (forall key :: key in s.rows && key in s'.rows ==>
          s'.rows[key].seenAt >= s.rows[key].seenAt && (s.rows[key].reminderSent ==> s'.rows[key].reminderSent))
    && (forall key :: key in s'.rows ==> s'.rows[key].snap.start == key.instanceTs && s'.rows[key].seenAt <= s'.clock)
  }

  lemma ForgettingIsSafe(s: State, s': State, news: bool)
    requires Inv(s, news) && Forgets(s, s')
    requires forall key :: SentOf(s', Reminder, key) == SentOf(s, Reminder, key) || SentOf(s', Reminder, key) == []
    requires forall key :: SentOf(s', New, key) == SentOf(s, New, key) || SentOf(s', New, key) == []
    ensures Inv(s', news)
  {
    forall key ensures RemindersOk(s', key) && (news ==> NewsOk(s', key)) {
      assert RemindersOk(s, key) && (news ==> NewsOk(s, key));
    }
  }

  /** The same when something was sent for one instance. */
  lemma SendingIsSafe(s: State, s': State, sentFor: Key, news: bool)
    requires Inv(s, news) && Forgets(s, s')
    requires forall key :: key != sentFor ==>
               SentOf(s', Reminder, key) == SentOf(s, Reminder, key) && SentOf(s', New, key) == SentOf(s, New, key)
    requires RemindersOk(s', sentFor) && (news ==> NewsOk(s', sentFor))
    ensures Inv(s', news)
  {
    forall key ensures RemindersOk(s', key) && (news ==> NewsOk(s', key)) {
      assert RemindersOk(s, key) && (news ==> NewsOk(s, key));
    }
  }

  lemma OtherStepsKeepInv(cfg: Config, s: State, e: Step, news: bool)
    requires Inv(s, news) && Enabled(cfg, s, e) && !e.See?
    ensures Inv(Next(cfg, s, e), news)
  {
    ForgettingIsSafe(s, Next(cfg, s, e), news);
  }

  /** The first change an instance makes: the clock, the due set and its row. */
  function Looked(s: State, c: Cycle, inst: Instance, at: int): State {
    var due := if InReminderWindow(c, inst) then s.due + {KeyOf(c.user, inst)} else s.due;
    Refreshed(s.(clock := at, due := due), c, inst, at)
  }

  predicate UnrecordedLast(log: seq<Note>) {
    log == [] || !log[|log| - 1].recorded
  }

  lemma LookedKeepsInv(s: State, inst: Instance, at: int, news: bool)
    requires Inv(s, news) && s.cycle.Some? && at >= s.clock
    ensures Inv(Looked(s, s.cycle.value, inst, at), news)
    ensures var key := KeyOf(s.cycle.value.user, inst);
            inst.start > s.cycle.value.now ==>
              && (news && key !in s.rows ==> SentOf(s, New, key) == [])
              && (!(key in s.rows && s.rows[key].reminderSent) ==>
                    UnrecordedLast(SentOf(s, Reminder, key)))
  {
    var key := KeyOf(s.cycle.value.user, inst);
    assert RemindersOk(s, key) && (news ==> NewsOk(s, key));
    ForgettingIsSafe(s, Looked(s, s.cycle.value, inst, at), news);
  }

  lemma MarkingForgets(s: State, s': State, key: Key, news: bool)
    requires Inv(s, news) && s'.cycle == s.cycle && s'.clock == s.clock
    requires || s'.rows == s.rows
             || s'.rows == NewMarked(s.rows, key, s.clock)
             || s'.rows == ReminderMarked(s.rows, key, s.clock)
    ensures Forgets(s, s')
  {
  }

  lemma SeeNewShape(cfg: Config, s: State, c: Cycle, inst: Instance, at: int, fate: Fate, created: bool)
    ensures var s', key := SeeNew(cfg, s, c, inst, at, fate, created), KeyOf(c.user, inst);
            && s'.cycle == s.cycle && s'.clock == s.clock
            && (s'.rows == s.rows || s'.rows == NewMarked(s.rows, key, at))
            && (s'.sent == s.sent ||
                (created && !c.firstFetch && InNewWindow(cfg, c, inst)
                 && s'.sent == s.sent[(New, key) := SentOf(s, New, key) + [Note(at, fate.markNew)]]))
  {
  }

  lemma SeeNewKeepsInv(cfg: Config, s: State, inst: Instance, fate: Fate, created: bool, news: bool)
    requires Inv(s, news) && s.cycle.Some? && (news ==> HorizonFits(cfg))
    requires var key := KeyOf(s.cycle.value.user, inst);
             && key in s.rows && s.rows[key].seenAt == s.clock
             && (news && created && inst.start > s.cycle.value.now ==> SentOf(s, New, key) == [])
    ensures var s' := SeeNew(cfg, s, s.cycle.value, inst, s.clock, fate, created);
            var key := KeyOf(s.cycle.value.user, inst);
            && Inv(s', news) && s'.cycle == s.cycle && s'.clock == s.clock
            && key in s'.rows && s'.rows[key].seenAt == s.clock
            && SentOf(s', Reminder, key) == SentOf(s, Reminder, key)
  {
    var s', key := SeeNew(cfg, s, s.cycle.value, inst, s.clock, fate, created), KeyOf(s.cycle.value.user, inst);
    SeeNewShape(cfg, s, s.cycle.value, inst, s.clock, fate, created);
    MarkingForgets(s, s', key, news);
    AnnouncedOk(cfg, s, s', inst, fate, created, news);
    SendingIsSafe(s, s', key, news);
  }

  lemma AnnouncedOk(cfg: Config, s: State, s': State, inst: Instance, fate: Fate, created: bool, news: bool)
    requires Inv(s, news) && s.cycle.Some? && (news ==> HorizonFits(cfg))
    requires var key := KeyOf(s.cycle.value.user, inst);
             && key in s.rows && s.rows[key].seenAt == s.clock
             && (news && created && inst.start > s.cycle.value.now ==> SentOf(s, New, key) == [])
    requires s' == SeeNew(cfg, s, s.cycle.value, inst, s.clock, fate, created)
    ensures RemindersOk(s', KeyOf(s.cycle.value.user, inst))
    ensures news ==> NewsOk(s', KeyOf(s.cycle.value.user, inst))
  {
    var key := KeyOf(s.cycle.value.user, inst);
    SeeNewShape(cfg, s, s.cycle.value, inst, s.clock, fate, created);
    assert RemindersOk(s, key) && (news ==> NewsOk(s, key));
  }

  lemma SeeChangedKeepsInv(cfg: Config, s: State, inst: Instance, fate: Fate, change: Change, news: bool)
    requires Inv(s, news) && s.cycle.Some?
    ensures var s' := SeeChanged(cfg, s, s.cycle.value, inst, s.clock, fate, change);
            && Inv(s', news) && s'.cycle == s.cycle && s'.clock == s.clock && s'.rows == s.rows
            && (forall key :: SentOf(s', Reminder, key) == SentOf(s, Reminder, key))
  {
    ForgettingIsSafe(s, SeeChanged(cfg, s, s.cycle.value, inst, s.clock, fate, change), news);
  }

  lemma SeeReminderShape(cfg: Config, s: State, c: Cycle, inst: Instance, at: int, fate: Fate, change: Change)
    ensures var s', key := SeeReminder(cfg, s, c, inst, at, fate, change), KeyOf(c.user, inst);
            && s'.cycle == s.cycle && s'.clock == s.clock
            && (s'.rows == s.rows || s'.rows == ReminderMarked(s.rows, key, at))
            && (s'.sent == s.sent ||
                (&& InReminderWindow(c, inst) && !(change.prev.Some? && change.prev.value.reminderSent)
                 && (fate.markReminder ==> s'.rows == ReminderMarked(s.rows, key, at))
                 && s'.sent == s.sent[(Reminder, key) := SentOf(s, Reminder, key) + [Note(at, fate.markReminder)]]))
  {
  }

  lemma SeeReminderKeepsInv(cfg: Config, s: State, inst: Instance, fate: Fate, change: Change, news: bool)
    requires Inv(s, news) && s.cycle.Some?
    requires var key, log := KeyOf(s.cycle.value.user, inst), SentOf(s, Reminder, KeyOf(s.cycle.value.user, inst));
             && key in s.rows && s.rows[key].seenAt == s.clock
             && (inst.start > s.cycle.value.now && !(change.prev.Some? && change.prev.value.reminderSent) ==>
                   UnrecordedLast(log))
    ensures Inv(SeeReminder(cfg, s, s.cycle.value, inst, s.clock, fate, change), news)
  {
    var s', key := SeeReminder(cfg, s, s.cycle.value, inst, s.clock, fate, change), KeyOf(s.cycle.value.user, inst);
    SeeReminderShape(cfg, s, s.cycle.value, inst, s.clock, fate, change);
    MarkingForgets(s, s', key, news);
    assert RemindersOk(s, key) && (news ==> NewsOk(s, key));
    RemindedKeyOk(cfg, s, inst, fate, change);
    RemindedNewsOk(cfg, s, inst, fate, change);
    SendingIsSafe(s, s', key, news);
  }

  lemma RemindedKeyOk(cfg: Config, s: State, inst: Instance, fate: Fate, change: Change)
    requires CycleOk(s) && s.cycle.Some?
    requires var key := KeyOf(s.cycle.value.user, inst);
             && RemindersOk(s, key) && key in s.rows && s.rows[key].seenAt == s.clock
             && (inst.start > s.cycle.value.now && !(change.prev.Some? && change.prev.value.reminderSent) ==>
                   UnrecordedLast(SentOf(s, Reminder, key)))
    ensures var s' := SeeReminder(cfg, s, s.cycle.value, inst, s.clock, fate, change);
            RemindersOk(s', KeyOf(s.cycle.value.user, inst))
  {
    SeeReminderShape(cfg, s, s.cycle.value, inst, s.clock, fate, change);
  }

  lemma RemindedNewsOk(cfg: Config, s: State, inst: Instance, fate: Fate, change: Change)
    requires s.cycle.Some?
    requires var key := KeyOf(s.cycle.value.user, inst); key in s.rows && s.rows[key].seenAt == s.clock
    ensures var s' := SeeReminder(cfg, s, s.cycle.value, inst, s.clock, fate, change);
            var key := KeyOf(s.cycle.value.user, inst);
            NewsOk(s, key) ==> NewsOk(s', key)
  {
    SeeReminderShape(cfg, s, s.cycle.value, inst, s.clock, fate, change);
  }

  lemma SeeIsItsStages(cfg: Config, s: State, inst: Instance, at: int, fate: Fate)
    requires Enabled(cfg, s, See(inst, at, fate)) && fate.upsert
    ensures var c := s.cycle.value;
            var change := ChangeOf(s.rows, KeyOf(c.user, inst), SnapshotOf(inst));
            var s2 := SeeNew(cfg, Looked(s, c, inst, at), c, inst, at, fate, change.created);
            var s3 := SeeChanged(cfg, s2, c, inst, at, fate, change);
            Next(cfg, s, See(inst, at, fate)) == SeeReminder(cfg, s3, c, inst, at, fate, change)
  {
  }

  lemma StagesKeepInv(cfg: Config, s: State, inst: Instance, fate: Fate, change: Change, news: bool)
    requires Inv(s, news) && s.cycle.Some? && (news ==> HorizonFits(cfg))
    requires var key := KeyOf(s.cycle.value.user, inst);
             && key in s.rows && s.rows[key].seenAt == s.clock
             && (inst.start > s.cycle.value.now ==>
                   && (news && change.created ==> SentOf(s, New, key) == [])
                   && (!(change.prev.Some? && change.prev.value.reminderSent) ==>
                         UnrecordedLast(SentOf(s, Reminder, key))))
    ensures var c := s.cycle.value;
            var s2 := SeeNew(cfg, s, c, inst, s.clock, fate, change.created);
            var s3 := SeeChanged(cfg, s2, c, inst, s.clock, fate, change);
            Inv(SeeReminder(cfg, s3, c, inst, s.clock, fate, change), news)
  {
    SeeNewKeepsInv(cfg, s, inst, fate, change.created, news);
    var s2 := SeeNew(cfg, s, s.cycle.value, inst, s.clock, fate, change.created);
    SeeChangedKeepsInv(cfg, s2, inst, fate, change, news);
    SeeReminderKeepsInv(cfg, SeeChanged(cfg, s2, s.cycle.value, inst, s.clock, fate, change), inst, fate, change, news);
  }

  lemma FailedUpsertKeepsInv(cfg: Config, s: State, inst: Instance, at: int, fate: Fate, news: bool)
    requires Inv(s, news) && Enabled(cfg, s, See(inst, at, fate)) && !fate.upsert
    ensures Inv(Next(cfg, s, See(inst, at, fate)), news)
  {
    ForgettingIsSafe(s, Next(cfg, s, See(inst, at, fate)), news);
  }

  lemma SeeKeepsInv(cfg: Config, s: State, inst: Instance, at: int, fate: Fate, news: bool)
    requires Inv(s, news) && Enabled(cfg, s, See(inst, at, fate)) && (news ==> HorizonFits(cfg))
    ensures Inv(Next(cfg, s, See(inst, at, fate)), news)
  {
    if fate.upsert {
      var c := s.cycle.value;
      SeeIsItsStages(cfg, s, inst, at, fate);
      LookedKeepsInv(s, inst, at, news);
      var change := ChangeOf(s.rows, KeyOf(c.user, inst), SnapshotOf(inst));
      StagesKeepInv(cfg, Looked(s, c, inst, at), inst, fate, change, news);
    } else {
      FailedUpsertKeepsInv(cfg, s, inst, at, fate, news);
    }
  }

  /** The part about reminders holds for every configuration. */
  lemma {:induction false} InvHolds(cfg: Config, s: State, run: seq<Step>, news: bool)
    requires Initial(s) && Legal(cfg, s, run) && (news ==> HorizonFits(cfg))
    ensures Inv(Exec(cfg, s, run), news)
    decreases |run|
  {
    if run == [] {
    } else {
      var init, last := run[..|run| - 1], run[|run| - 1];
      InvHolds(cfg, s, init, news);
      if last.See? {
        SeeKeepsInv(cfg, Exec(cfg, s, init), last.inst, last.at, last.fate, news);
      } else {
        OtherStepsKeepInv(cfg, Exec(cfg, s, init), last, news);
      }
    }
  }

  /** Over any run, with any failures: of the reminders sent for one instance since the calendar
      was last removed, only the last can have had its flag written. So a second reminder is sent
      only after a failed flag write, and never when flag writes succeed. */
  lemma {:induction false} ReminderAtMostOnce(cfg: Config, s: State, run: seq<Step>, key: Key)
    requires Initial(s) && Legal(cfg, s, run)
    ensures var log := SentOf(Exec(cfg, s, run), Reminder, key);
            && (forall i :: 0 <= i < |log| - 1 ==> !log[i].recorded)
            && ((forall i :: 0 <= i < |log| ==> log[i].recorded) ==> |log| <= 1)
  {
    InvHolds(cfg, s, run, false);
    RecordedIsLast(Exec(cfg, s, run), key);
  }

  lemma RecordedIsLast(s: State, key: Key)
    requires RemindersOk(s, key)
    ensures var log := SentOf(s, Reminder, key);
            && (forall i :: 0 <= i < |log| - 1 ==> !log[i].recorded)
            && ((forall i :: 0 <= i < |log| ==> log[i].recorded) ==> |log| <= 1)
  {
    var log := SentOf(s, Reminder, key);
    if |log| > 1 { assert !log[0].recorded; }
  }

  /** Since its calendar was last removed, an event is announced as new at most once, whatever fails, if
      rows outlive the horizon. */
  lemma {:induction false} NewAtMostOnce(cfg: Config, s: State, run: seq<Step>, key: Key)
    requires Initial(s) && Legal(cfg, s, run) && HorizonFits(cfg)
    ensures |SentOf(Exec(cfg, s, run), New, key)| <= 1
  {
    InvHolds(cfg, s, run, true);
    assert NewsOk(Exec(cfg, s, run), key);
  }

  /** Rows never carry a start other than their own instance second: an event that moves arrives
      as a new row, and no "changed" notification ever reports a new start. */
  lemma {:induction false} MovedEventIsNewRow(cfg: Config, s: State, run: seq<Step>, inst: Instance)
    requires Initial(s) && Legal(cfg, s, run) && Exec(cfg, s, run).cycle.Some?
    ensures var s' := Exec(cfg, s, run);
            var change := ChangeOf(s'.rows, KeyOf(s'.cycle.value.user, inst), SnapshotOf(inst));
            change.prev.Some? ==> change.prev.value.snap.start == inst.start
  {
    InvHolds(cfg, s, run, false);
  }

  // ---------------------------------------------------------------- exactly once

  /** Nothing fails, and the calendar of `user` is not removed. */
  predicate Smooth(e: Step, user: int) {
    && (e.See? ==> e.fate == Fate(true, true, true, true, true, true))
    && (e.RemoveCalendar? ==> e.user != user)
  }

  predicate Flagged(s: State, key: Key) {
    key in s.rows && s.rows[key].reminderSent
  }

  /** An instance seen inside its window has been reminded of, and only a reminder raises its flag
      or takes its place in the duplicate guard. */
  predicate ReminderTraces(s: State, key: Key) {
    var log := SentOf(s, Reminder, key);
    && (key in s.due <==> log != [])
    && (forall i :: 0 <= i < |log| ==> log[i].recorded)
    && ((Reminder, key) in s.guard ==> log != [])
    && (Flagged(s, key) ==> log != [])
  }

  predicate SameReminder(s: State, s': State, key: Key) {
    && SentOf(s', Reminder, key) == SentOf(s, Reminder, key)
    && ((Reminder, key) in s'.guard <==> (Reminder, key) in s.guard)
    && (Flagged(s', key) <==> Flagged(s, key))
    && s'.due == s.due
  }

  lemma EarlierStagesKeepTraces(cfg: Config, s: State, c: Cycle, inst: Instance, at: int, fate: Fate, change: Change,
                                key: Key)
    ensures var s1 := SeeNew(cfg, s, c, inst, at, fate, change.created);
            SameReminder(s, s1, key) && SameReminder(s1, SeeChanged(cfg, s1, c, inst, at, fate, change), key)
  {
    NewKeepsTraces(cfg, s, c, inst, at, fate, change.created, key);
    ChangedKeepsTraces(cfg, SeeNew(cfg, s, c, inst, at, fate, change.created), c, inst, at, fate, change, key);
  }

  lemma NewKeepsTraces(cfg: Config, s: State, c: Cycle, inst: Instance, at: int, fate: Fate, created: bool, key: Key)
    ensures SameReminder(s, SeeNew(cfg, s, c, inst, at, fate, created), key)
  {
  }

  lemma ChangedKeepsTraces(cfg: Config, s: State, c: Cycle, inst: Instance, at: int, fate: Fate, change: Change,
                           key: Key)
    ensures SameReminder(s, SeeChanged(cfg, s, c, inst, at, fate, change), key)
  {
  }

  lemma LookedKeepsFlag(s: State, c: Cycle, inst: Instance, at: int, key: Key)
    ensures Flagged(Looked(s, c, inst, at), key) == Flagged(s, key)
    ensures Looked(s, c, inst, at).sent == s.sent && Looked(s, c, inst, at).guard == s.guard
    ensures Looked(s, c, inst, at).due == if InReminderWindow(c, inst) then s.due + {KeyOf(c.user, inst)} else s.due
  {
  }

  /** The reminder stage, for an instance whose row has just been refreshed. */
  lemma ReminderStageTraces(cfg: Config, s: State, s0: State, c: Cycle, inst: Instance, at: int, change: Change,
                            key: Key)
    requires ReminderTraces(s0, key) && SameReminder(s0.(due := s.due), s, key)
    requires s.due == if InReminderWindow(c, inst) then s0.due + {KeyOf(c.user, inst)} else s0.due
    requires KeyOf(c.user, inst) in s.rows
    requires KeyOf(c.user, inst) == key ==> (change.prev.Some? && change.prev.value.reminderSent <==> Flagged(s0, key))
    ensures ReminderTraces(SeeReminder(cfg, s, c, inst, at, Fate(true, true, true, true, true, true), change), key)
  {
    if key == KeyOf(c.user, inst) && InReminderWindow(c, inst) && SentOf(s, Reminder, key) == [] {
      assert Allowed(cfg, s, Reminder, key, at);
    }
  }

  lemma StagesKeepRow(cfg: Config, s: State, c: Cycle, inst: Instance, at: int, fate: Fate, change: Change)
    requires KeyOf(c.user, inst) in s.rows
    ensures var s1 := SeeNew(cfg, s, c, inst, at, fate, change.created);
            KeyOf(c.user, inst) in SeeChanged(cfg, s1, c, inst, at, fate, change).rows
  {
  }

  lemma SeeKeepsTraces(cfg: Config, s: State, inst: Instance, at: int, fate: Fate, key: Key)
    requires ReminderTraces(s, key) && Enabled(cfg, s, See(inst, at, fate))
    requires fate == Fate(true, true, true, true, true, true)
    ensures ReminderTraces(Next(cfg, s, See(inst, at, fate)), key)
  {
    var c := s.cycle.value;
    var change := ChangeOf(s.rows, KeyOf(c.user, inst), SnapshotOf(inst));
    var s1 := Looked(s, c, inst, at);
    LookedKeepsFlag(s, c, inst, at, key);
    EarlierStagesKeepTraces(cfg, s1, c, inst, at, fate, change, key);
    StagesKeepRow(cfg, s1, c, inst, at, fate, change);
    var s2 := SeeNew(cfg, s1, c, inst, at, fate, change.created);
    ReminderStageTraces(cfg, SeeChanged(cfg, s2, c, inst, at, fate, change), s, c, inst, at, change, key);
    SeeIsItsStages(cfg, s, inst, at, fate);
  }

  lemma {:induction false} TracesHold(cfg: Config, s: State, run: seq<Step>, key: Key)
    requires Initial(s) && Legal(cfg, s, run)
    requires forall i :: 0 <= i < |run| ==> Smooth(run[i], key.user)
    ensures ReminderTraces(Exec(cfg, s, run), key)
    decreases |run|
  {
    if run == [] {
    } else {
      var init, last := run[..|run| - 1], run[|run| - 1];
      TracesHold(cfg, s, init, key);
      assert Smooth(last, key.user);
      if last.See? {
        SeeKeepsTraces(cfg, Exec(cfg, s, init), last.inst, last.at, last.fate, key);
      } else {
        OtherStepsKeepTraces(cfg, Exec(cfg, s, init), last, key);
      }
    }
  }

  lemma OtherStepsKeepTraces(cfg: Config, s: State, e: Step, key: Key)
    requires ReminderTraces(s, key) && Enabled(cfg, s, e) && Smooth(e, key.user) && !e.See?
    ensures ReminderTraces(Next(cfg, s, e), key)
  {
  }

  /** When nothing fails and the calendar stays, an instance is reminded of exactly once if some
      cycle saw it inside its reminder window, and not at all otherwise: whatever the feed does and
      however often the process restarts. */
  lemma ReminderExactlyOnce(cfg: Config, s: State, run: seq<Step>, key: Key)
    requires Initial(s) && Legal(cfg, s, run)
    requires forall i :: 0 <= i < |run| ==> Smooth(run[i], key.user)
    ensures |SentOf(Exec(cfg, s, run), Reminder, key)| == if key in Exec(cfg, s, run).due then 1 else 0
  {
    TracesHold(cfg, s, run, key);
    ReminderAtMostOnce(cfg, s, run, key);
  }

  // ---------------------------------------------------------------- the poller, as the code runs it

  datatype Seen = Seen(inst: Instance, at: int, fate: Fate)

  function SeeSteps(seen: seq<Seen>): seq<Step> {
    seq(|seen|, i requires 0 <= i < |seen| => See(seen[i].inst, seen[i].at, seen[i].fate))
  }

  lemma SeeNext(cfg: Config, s0: State, seen: seq<Seen>, k: nat, c: Cycle)
    requires k < |seen| && Legal(cfg, s0, SeeSteps(seen)[..k])
    requires var s := Exec(cfg, s0, SeeSteps(seen)[..k]); s.cycle == Some(c) && seen[k].at >= s.clock
    ensures var steps, now := SeeSteps(seen), Exec(cfg, s0, SeeSteps(seen)[..k]);
            var s' := AfterSee(cfg, now, c, seen[k].inst, seen[k].at, seen[k].fate);
            && Legal(cfg, s0, steps[..k + 1]) && Exec(cfg, s0, steps[..k + 1]) == s'
            && s'.cycle == Some(c) && s'.clock == seen[k].at
  {
    var steps := SeeSteps(seen);
    SeeIsEnabled(cfg, Exec(cfg, s0, steps[..k]), c, seen[k]);
    OneMore(cfg, s0, steps[..k], steps[k]);
    assert steps[..k + 1] == steps[..k] + [steps[k]];
  }

  lemma SeeIsEnabled(cfg: Config, s: State, c: Cycle, seen: Seen)
    requires s.cycle == Some(c) && seen.at >= s.clock
    ensures var e := See(seen.inst, seen.at, seen.fate);
            var s' := AfterSee(cfg, s, c, seen.inst, seen.at, seen.fate);
            Enabled(cfg, s, e) && Next(cfg, s, e) == s' && s'.cycle == Some(c) && s'.clock == seen.at
  {
    var inst, at, fate := seen.inst, seen.at, seen.fate;
    if fate.upsert {
      var change := ChangeOf(s.rows, KeyOf(c.user, inst), SnapshotOf(inst));
      SeeIsItsStages(cfg, s, inst, at, fate);
      StagesKeepCycle(cfg, Looked(s, c, inst, at), c, inst, at, fate, change);
    }
  }

  lemma StagesKeepCycle(cfg: Config, s: State, c: Cycle, inst: Instance, at: int, fate: Fate, change: Change)
    ensures var s1 := SeeNew(cfg, s, c, inst, at, fate, change.created);
            var s2 := SeeChanged(cfg, s1, c, inst, at, fate, change);
            var s3 := SeeReminder(cfg, s2, c, inst, at, fate, change);
            s3.cycle == s.cycle && s3.clock == s.clock
  {
    var s1 := SeeNew(cfg, s, c, inst, at, fate, change.created);
    NewKeepsCycle(cfg, s, c, inst, at, fate, change.created);
    LaterStagesKeepCycle(cfg, s1, c, inst, at, fate, change);
    LaterStagesKeepCycle(cfg, SeeChanged(cfg, s1, c, inst, at, fate, change), c, inst, at, fate, change);
  }

  predicate SameCycle(s: State, s': State) { s'.cycle == s.cycle && s'.clock == s.clock }

  lemma NewKeepsCycle(cfg: Config, s: State, c: Cycle, inst: Instance, at: int, fate: Fate, created: bool)
    ensures SameCycle(s, SeeNew(cfg, s, c, inst, at, fate, created))
  {
  }

  lemma LaterStagesKeepCycle(cfg: Config, s: State, c: Cycle, inst: Instance, at: int, fate: Fate, change: Change)
    ensures SameCycle(s, SeeChanged(cfg, s, c, inst, at, fate, change))
    ensures SameCycle(s, SeeReminder(cfg, s, c, inst, at, fate, change))
  {
  }

  /** The steps of one call of `PollUser`; the feed is None when fetching or parsing failed. */
  function PollSteps(user: int, now: int, mins: int, feed: Option<seq<Seen>>, endAt: int, deleted: bool,
                     marked: bool): seq<Step> {
    match feed
    case None => [Begin(user, now, mins, false, marked)]
    case Some(seen) => [Begin(user, now, mins, true, false)] + SeeSteps(seen) + [End(endAt, deleted, marked)]
  }

  ghost predicate TimesAscend(now: int, seen: seq<Seen>, endAt: int) {
    && (forall i :: 0 <= i < |seen| ==> now <= seen[i].at <= endAt)
    && (forall i, j :: 0 <= i <= j < |seen| ==> seen[i].at <= seen[j].at)
    && now <= endAt
  }

  /** The clock when an instance is handled, and which of its calls succeed. */
  datatype Visit = Visit(at: int, fate: Fate)

  function InstancesOf(seen: seq<Seen>): seq<Instance> {
    seq(|seen|, i requires 0 <= i < |seen| => seen[i].inst)
  }

  function VisitsOf(seen: seq<Seen>): seq<Visit> {
    seq(|seen|, i requires 0 <= i < |seen| => Visit(seen[i].at, seen[i].fate))
  }

  function Zip(instances: seq<Instance>, visits: seq<Visit>): seq<Seen>
    requires |visits| == |instances|
  {
    seq(|instances|, i requires 0 <= i < |instances| => Seen(instances[i], visits[i].at, visits[i].fate))
  }

  lemma Zipped(instances: seq<Instance>, visits: seq<Visit>)
    requires |visits| == |instances|
    ensures InstancesOf(Zip(instances, visits)) == instances && VisitsOf(Zip(instances, visits)) == visits
    ensures forall now, endAt :: VisitsAscend(now, visits, endAt) ==> TimesAscend(now, Zip(instances, visits), endAt)
  {
  }

  ghost predicate VisitsAscend(now: int, visits: seq<Visit>, endAt: int) {
    && (forall i :: 0 <= i < |visits| ==> now <= visits[i].at <= endAt)
    && (forall i, j :: 0 <= i <= j < |visits| ==> visits[i].at <= visits[j].at)
    && now <= endAt
  }

  /** A parsed feed, if there is one, the window it is expanded over, and its instances, each with the
      visit it will get. */
  datatype Draft = Draft(feed: Option<seq<Parsed>>, from: int, to: int, seen: Option<seq<Seen>>)

  ghost predicate IsPlan(d: Draft) {
    && (d.seen.Some? <==> d.feed.Some?)
    && (d.seen.Some? ==> Collected(d.feed.value, d.from, d.to, InstancesOf(d.seen.value)))
  }

  /** A draft whose instances are those of its feed. */
  type Plan = d: Draft | IsPlan(d) witness Draft(None, 0, 0, None)

  method Prepare(feed: Option<seq<Parsed>>, from: int, to: int, visits: seq<Visit>, endAt: int) returns (plan: Plan)
    requires feed.Some? ==> |visits| == |Naive(feed.value, from, to)| && VisitsAscend(from, visits, endAt)
    ensures plan.feed == feed && plan.from == from && plan.to == to
    ensures plan.seen.Some? ==> VisitsOf(plan.seen.value) == visits && TimesAscend(from, plan.seen.value, endAt)
  {
    if feed.None? {
      return Draft(feed, from, to, None);
    }
    var instances := CollectInstances(feed.value, from, to);
    Zipped(instances, visits);
    return Draft(feed, from, to, Some(Zip(instances, visits)));
  }

  class Poller {
    const cfg: Config
    const repo: EventRepo
    var guard: map<(Kind, Key), int>
    var fetched: set<int>
    var listed: map<int, bool>
    var clock: int
    ghost var cycle: Option<Cycle>
    ghost var sent: map<(Kind, Key), seq<Note>>
    ghost var due: set<Key>

    constructor (cfg: Config, repo: EventRepo, now: int)
      requires repo.rows == map[]
      ensures this.cfg == cfg && this.repo == repo && Initial(Now()) && clock == now
    {
      this.cfg, this.repo, clock := cfg, repo, now;
      guard, fetched, listed, cycle, sent, due := map[], {}, map[], None, map[], {};
    }

    ghost function Now(): State
      reads this, repo
    {
      State(repo.rows, guard, fetched, listed, cycle, clock, sent, due)
    }

    method Allow(kind: Kind, key: Key, at: int) returns (granted: bool)
      modifies this`guard
      ensures granted == Allowed(cfg, old(Now()), kind, key, at)
      ensures Now() == Guarded(cfg, old(Now()), kind, key, at)
    {
      if cfg.guardTtl.None? {
        return true;
      }
      if (kind, key) in guard && at < guard[(kind, key)] {
        return false;
      }
      guard := guard[(kind, key) := at + cfg.guardTtl.value];
      return true;
    }

    ghost method NoteSent(kind: Kind, key: Key, note: Note)
      modifies this`sent
      ensures Now() == Noted(old(Now()), kind, key, note)
    {
      sent := sent[(kind, key) := SentOf(Now(), kind, key) + [note]];
    }

    method PollInstance(c: Cycle, inst: Instance, at: int, fate: Fate)
      modifies this, repo
      ensures Now() == AfterSee(cfg, old(Now()), c, inst, at, fate)
    {
      var key := KeyOf(c.user, inst);
      clock := at;
      due := if InReminderWindow(c, inst) then due + {key} else due;
      var change := repo.UpsertState(key, SnapshotOf(inst), c.firstFetch, at, fate.upsert);
      if change.None? {
        return;
      }
      ghost var s1 := Now();
      AnnounceNew(c, inst, at, fate, change.value.created);
      ghost var s2 := Now();
      assert s2 == SeeNew(cfg, s1, c, inst, at, fate, change.value.created);
      if change.value.changed && change.value.prev.Some? {
        var granted := Allow(Changed, key, at);
        if granted && fate.sendChanged {
          NoteSent(Changed, key, Note(at, false));
        }
      }
      assert Now() == SeeChanged(cfg, s2, c, inst, at, fate, change.value);
      Remind(c, inst, at, fate, change.value);
    }

    method AnnounceNew(c: Cycle, inst: Instance, at: int, fate: Fate, created: bool)
      modifies this, repo
      ensures Now() == SeeNew(cfg, old(Now()), c, inst, at, fate, created)
    {
      var key := KeyOf(c.user, inst);
      var inWindow := inst.start > c.now && inst.start - c.now <= cfg.newHorizon;
      if !c.firstFetch && created && inWindow {
        var granted := Allow(New, key, at);
        if granted && fate.sendNew {
          NoteSent(New, key, Note(at, fate.markNew));
          repo.MarkNotifiedNew(key, at, fate.markNew);
        }
      } else if !c.firstFetch && created {
        repo.MarkNotifiedNew(key, at, fate.markNew);
      }
    }

    method Remind(c: Cycle, inst: Instance, at: int, fate: Fate, change: Change)
      modifies this, repo
      ensures Now() == SeeReminder(cfg, old(Now()), c, inst, at, fate, change)
    {
      var key := KeyOf(c.user, inst);
      var remindAt := inst.start - c.lead;
      if c.now > remindAt && inst.start > c.now {
        var prevSent := change.prev.Some? && change.prev.value.reminderSent;
        if !prevSent {
          var granted := Allow(Reminder, key, at);
          if granted && fate.sendReminder {
            NoteSent(Reminder, key, Note(at, fate.markReminder));
            repo.MarkReminderSent(key, at, fate.markReminder);
          }
        }
      }
    }

    /** A tick reads the users from the store. */
    method ListUsers(users: set<int>)
      requires cycle == None
      modifies this`listed
      ensures Now() == Next(cfg, old(Now()), List(users))
    {
      listed := map user | user in users :: user in fetched;
    }

    /** The loop over the instances of one cycle. */
    method PollInstances(c: Cycle, seen: seq<Seen>)
      requires cycle == Some(c)
      requires forall i :: 0 <= i < |seen| ==> seen[i].at >= clock
      requires forall i, j :: 0 <= i <= j < |seen| ==> seen[i].at <= seen[j].at
      modifies this, repo
      ensures Legal(cfg, old(Now()), SeeSteps(seen)) && Now() == Exec(cfg, old(Now()), SeeSteps(seen))
      ensures cycle == Some(c) && clock == if seen == [] then old(clock) else seen[|seen| - 1].at
    {
      ghost var s0, steps := Now(), SeeSteps(seen);
      for k := 0 to |seen|
        invariant cycle == Some(c) && clock == if k == 0 then old(clock) else seen[k - 1].at
        invariant Legal(cfg, s0, steps[..k]) && Now() == Exec(cfg, s0, steps[..k])
      {
        SeeNext(cfg, s0, seen, k, c);
        PollInstance(c, seen[k].inst, seen[k].at, seen[k].fate);
      }
      assert steps[..|seen|] == steps;
    }

    /** Takes the user off the list; with a feed, opens the cycle under the user as listed. */
    method OpenCycle(user: int, now: int, mins: int, feed: bool, marked: bool) returns (begun: Option<Cycle>)
      requires cycle == None && user in listed && now >= clock && 1 <= EffectiveMins(cfg, mins) <= MAX_REMINDER_MINS
      modifies this
      ensures Now() == Next(cfg, old(Now()), Begin(user, now, mins, feed, marked)) && begun == cycle
    {
      clock := now;
      var firstFetch := !listed[user];
      listed := listed - {user};
      if !feed {
        if marked {
          fetched := fetched + {user};
        }
        return None;
      }
      var reminderMins := mins;
      if reminderMins <= 0 {
        reminderMins := cfg.defaultReminderMins;
      }
      begun := Some(Cycle(user, now, firstFetch, reminderMins * 60));
      cycle := begun;
    }

    /** One poll of one user is a run of the state machine. */
    method PollUser(user: int, now: int, mins: int, feed: Option<seq<Seen>>, endAt: int, deleted: bool, marked: bool)
      requires cycle == None && user in listed && now >= clock && 1 <= EffectiveMins(cfg, mins) <= MAX_REMINDER_MINS
      requires feed.Some? ==> TimesAscend(now, feed.value, endAt)
      modifies this, repo
      ensures RunsTo(cfg, old(Now()), PollSteps(user, now, mins, feed, endAt, deleted, marked), Now())
    {
      ghost var s0, begin := Now(), Begin(user, now, mins, feed.Some?, feed.None? && marked);
      OneMore(cfg, s0, [], begin);
      assert [] + [begin] == [begin];
      var begun := OpenCycle(user, now, mins, feed.Some?, feed.None? && marked);
      if begun.None? {
        return;
      }
      PollOpened(begun.value, feed.value, endAt, deleted, marked);
      Concat(cfg, s0, [begin], SeeSteps(feed.value) + [End(endAt, deleted, marked)]);
      assert [begin] + (SeeSteps(feed.value) + [End(endAt, deleted, marked)])
          == PollSteps(user, now, mins, feed, endAt, deleted, marked);
    }

    /** The cycle in hand, up to its end. */
    method PollOpened(c: Cycle, seen: seq<Seen>, endAt: int, deleted: bool, marked: bool)
      requires cycle == Some(c) && TimesAscend(clock, seen, endAt)
      modifies this, repo
      ensures RunsTo(cfg, old(Now()), SeeSteps(seen) + [End(endAt, deleted, marked)], Now())
    {
      ghost var s0 := Now();
      PollInstances(c, seen);
      OneMore(cfg, s0, SeeSteps(seen), End(endAt, deleted, marked));
      CloseCycle(c, endAt, deleted, marked);
    }

    /** The whole of `pollUser`: collects the instances of the feed, if there is one, and polls them.
        `visits` are the clock and the outcomes of the calls made for each. */
    method PollFeed(user: int, now: int, mins: int, lookahead: int, feed: Option<seq<Parsed>>, visits: seq<Visit>,
                    endAt: int, deleted: bool, marked: bool)
      returns (plan: Plan)
      requires cycle == None && user in listed && now >= clock && 1 <= EffectiveMins(cfg, mins) <= MAX_REMINDER_MINS
      requires feed.Some? ==> |visits| == |Naive(feed.value, now, now + lookahead)| && VisitsAscend(now, visits, endAt)
      modifies this, repo
      ensures plan.feed == feed && plan.from == now && plan.to == now + lookahead
      ensures plan.seen.Some? ==> VisitsOf(plan.seen.value) == visits
      ensures RunsTo(cfg, old(Now()), PollSteps(user, now, mins, plan.seen, endAt, deleted, marked), Now())
    {
      plan := Prepare(feed, now, now + lookahead, visits, endAt);
      PollUser(user, now, mins, plan.seen, endAt, deleted, marked);
    }

    method CloseCycle(c: Cycle, endAt: int, deleted: bool, marked: bool)
      requires cycle == Some(c) && endAt >= clock
      modifies this, repo
      ensures Now() == Next(cfg, old(Now()), End(endAt, deleted, marked))
    {
      repo.DeleteStaleByUser(c.user, c.now - STALE_LOOKBACK, deleted);
      if marked {
        fetched := fetched + {c.user};
      }
      clock := endAt;
      cycle := None;
    }
  }
}
