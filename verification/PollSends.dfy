/**
  From the pending map to the chat, in internal/poller/poller.go: what a flush takes out is sent one by
  one, and each message that says something asks the duplicate guard of internal/notifydedup/dedup.go
  first. The notification is out of the map by then, so one that the guard refuses is lost.
*/
module PollSends {
  import opened Wrappers
  import opened ChangeMerge
  import opened ChangePoller
  import BatchWindow
  import DedupGuard

  datatype Config = Config(window: nat, ttl: int)

  /** A message that the guard let through. */
  datatype Grant = Grant(key: Key, at: int)

  /** `outbox` is what the last flush took out and has not been dealt with; `grants` is a history
      variable. */
  datatype State = State(pending: Batch, outbox: seq<(Key, Pending)>, sent: DedupGuard.Entries, clock: int,
                         grants: seq<Grant>)

  datatype Step =
    | Map(op: BatchWindow.Op, ready: seq<(Key, Pending)>)
    | Send(checkedAt: int, recordedAt: int)
    | Sweep(now: int)

  /** Chats are 64-bit numbers. */
  predicate Fits(key: Key) {
    DedupGuard.MIN_INT64 <= key.chat <= DedupGuard.MAX_INT64
  }

  function Name(key: Key): string
    requires Fits(key)
  {
    DedupGuard.FormatKey(key.chat, key.issue)
  }

  /** The notification has a line to show, or is a mention. */
  ghost predicate SaysSomething(p: Pending) {
    p.isMention || exists field :: field in p.changes && RenderChange(p.changes[field]).Some?
  }

  function Taken(window: nat, pending: Batch, op: BatchWindow.Op): Batch {
    match op
    case Add(_, _) => map[]
    case Flush(now) => RipeOnes(pending, now, window)
    case FlushAll(_) => pending
  }

  /** The poller is one loop: it polls and flushes again only when everything taken out is dealt with. */
  ghost predicate Enabled(cfg: Config, s: State, e: Step) {
    match e
    case Map(op, ready) =>
      && s.outbox == [] && BatchWindow.TimeOf(op) >= s.clock && Lists(ready, Taken(cfg.window, s.pending, op))
      && (op.Add? ==> Fits(Key(op.chat, op.sighting.issue.key)))
    case Send(checkedAt, recordedAt) =>
      s.outbox != [] && Fits(s.outbox[0].0) && s.clock <= checkedAt <= recordedAt
    case Sweep(now) => now >= s.clock
  }

  /** The message at the head of the outbox goes out. */
  ghost predicate Goes(s: State, checkedAt: int)
    requires s.outbox != [] && Fits(s.outbox[0].0)
  {
    SaysSomething(s.outbox[0].1) && DedupGuard.Allows(s.sent, Name(s.outbox[0].0), checkedAt)
  }

  ghost function Next(cfg: Config, s: State, e: Step): State
    requires Enabled(cfg, s, e)
  {
    match e
    case Map(op, ready) =>
      s.(pending := BatchWindow.After(cfg.window, s.pending, op), outbox := ready, clock := BatchWindow.TimeOf(op))
    case Send(checkedAt, recordedAt) =>
      var key := s.outbox[0].0;
      var ask := DedupGuard.Ask(key.chat, key.issue, checkedAt, recordedAt);
      s.(outbox := s.outbox[1..], clock := recordedAt,
         sent := if SaysSomething(s.outbox[0].1) then DedupGuard.AfterOp(cfg.ttl, s.sent, ask) else s.sent,
         grants := if Goes(s, checkedAt) then s.grants + [Grant(key, recordedAt)] else s.grants)
    case Sweep(now) => s.(sent := DedupGuard.Swept(s.sent, now), clock := now)
  }

  ghost predicate Initial(s: State) {
    s.pending == map[] && s.outbox == [] && s.sent == map[] && s.grants == []
  }

  ghost predicate Legal(cfg: Config, s: State, run: seq<Step>)
    decreases |run|, 0
  {
    run == [] ||
    var init, last := run[..|run| - 1], run[|run| - 1];
    Legal(cfg, s, init) && Enabled(cfg, Exec(cfg, s, init), last)
  }

  ghost function Exec(cfg: Config, s: State, run: seq<Step>): State
    requires Legal(cfg, s, run)
    decreases |run|, 1
  {
    if run == [] then s else Next(cfg, Exec(cfg, s, run[..|run| - 1]), run[|run| - 1])
  }

  lemma {:induction false} OneMore(cfg: Config, s: State, run: seq<Step>, e: Step)
    requires Legal(cfg, s, run) && Enabled(cfg, Exec(cfg, s, run), e)
    ensures Legal(cfg, s, run + [e]) && Exec(cfg, s, run + [e]) == Next(cfg, Exec(cfg, s, run), e)
  {
    assert (run + [e])[..|run|] == run;
  }

  // ---------------------------------------------------------------- the map's own run

  /** The operations on the pending map, in order. */
  function MapOps(run: seq<Step>): seq<BatchWindow.Op>
    decreases |run|
  {
    if run == [] then []
    else
      var e := run[|run| - 1];
      MapOps(run[..|run| - 1]) + if e.Map? then [e.op] else []
  }

  ghost predicate TimesUpTo(ops: seq<BatchWindow.Op>, clock: int) {
    BatchWindow.Chronological(ops) && forall i :: 0 <= i < |ops| ==> BatchWindow.TimeOf(ops[i]) <= clock
  }

  lemma {:induction false} OneMoreOp(window: nat, ops: seq<BatchWindow.Op>, op: BatchWindow.Op, clock: int)
    requires TimesUpTo(ops, clock) && clock <= BatchWindow.TimeOf(op)
    ensures var more := ops + [op];
            && BatchWindow.PendingAt(window, more, |more|)
               == BatchWindow.After(window, BatchWindow.PendingAt(window, ops, |ops|), op)
            && TimesUpTo(more, BatchWindow.TimeOf(op))
  {
    BatchWindow.PrefixSame(window, ops, op, |ops|);
  }

  /** The map goes through a run of `BatchWindow`, so what is proved there about births, clocks and
      departures holds here. */
  lemma {:induction false} MapRuns(cfg: Config, s: State, run: seq<Step>)
    requires Initial(s) && Legal(cfg, s, run)
    ensures Exec(cfg, s, run).pending == BatchWindow.PendingAt(cfg.window, MapOps(run), |MapOps(run)|)
    ensures TimesUpTo(MapOps(run), Exec(cfg, s, run).clock)
    decreases |run|
  {
    if run == [] {
    } else {
      var init, e := run[..|run| - 1], run[|run| - 1];
      MapRuns(cfg, s, init);
      if e.Map? {
        OneMoreOp(cfg.window, MapOps(init), e.op, Exec(cfg, s, init).clock);
      } else {
        assert MapOps(run) == MapOps(init);
      }
    }
  }

  /** What a step takes out is what leaves there. */
  lemma {:induction false} TakenIsWhatLeaves(cfg: Config, s: State, run: seq<Step>, op: BatchWindow.Op,
                                             ready: seq<(Key, Pending)>, key: Key)
    requires Initial(s) && Legal(cfg, s, run) && Enabled(cfg, Exec(cfg, s, run), Map(op, ready))
    ensures (exists p :: (key, p) in ready) <==>
              BatchWindow.Leaves(cfg.window, MapOps(run) + [op], |MapOps(run)|, key)
  {
    MapRuns(cfg, s, run);
    BatchWindow.PrefixSame(cfg.window, MapOps(run), op, |MapOps(run)|);
    var taken := Taken(cfg.window, Exec(cfg, s, run).pending, op);
    assert key in taken ==> (key, taken[key]) in ready;
    assert (exists p :: (key, p) in ready) ==> key in taken;
  }

  // ---------------------------------------------------------------- what the guard remembers

  /** A message for this key went out less than the guard's window before `at`. */
  ghost predicate Recently(cfg: Config, grants: seq<Grant>, key: Key, at: int) {
    exists i :: 0 <= i < |grants| && grants[i].key == key && at < grants[i].at + cfg.ttl
  }

  ghost predicate Answers(cfg: Config, s: State, key: Key, at: int)
    requires Fits(key)
  {
    DedupGuard.Allows(s.sent, Name(key), at) <==> !Recently(cfg, s.grants, key, at)
  }

  ghost predicate GuardInv(cfg: Config, s: State) {
    && (forall i :: 0 <= i < |s.grants| ==> s.grants[i].at <= s.clock)
    && (forall key, at :: Fits(key) && at >= s.clock ==> Answers(cfg, s, key, at))
  }

  lemma {:induction false} SweepKeepsGuard(cfg: Config, s: State, now: int)
    requires GuardInv(cfg, s) && Enabled(cfg, s, Sweep(now))
    ensures GuardInv(cfg, Next(cfg, s, Sweep(now)))
  {
    var s' := Next(cfg, s, Sweep(now));
    forall key, at | Fits(key) && at >= now ensures Answers(cfg, s', key, at) {
      assert Answers(cfg, s, key, at);
    }
  }

  lemma {:induction false} RecentlyNext(cfg: Config, grants: seq<Grant>, g: Grant, key: Key, at: int)
    ensures Recently(cfg, grants + [g], key, at) <==>
              Recently(cfg, grants, key, at) || (g.key == key && at < g.at + cfg.ttl)
  {
    if Recently(cfg, grants, key, at) {
      var i :| 0 <= i < |grants| && grants[i].key == key && at < grants[i].at + cfg.ttl;
      assert (grants + [g])[i] == grants[i];
    }
    if g.key == key && at < g.at + cfg.ttl {
      assert (grants + [g])[|grants|] == g;
    }
  }

  lemma {:induction false} GrantAnswers(cfg: Config, s: State, checkedAt: int, recordedAt: int, key: Key, at: int)
    requires GuardInv(cfg, s) && Enabled(cfg, s, Send(checkedAt, recordedAt)) && Goes(s, checkedAt)
    requires Fits(key) && at >= recordedAt
    ensures Answers(cfg, Next(cfg, s, Send(checkedAt, recordedAt)), key, at)
  {
    var head := s.outbox[0].0;
    RecentlyNext(cfg, s.grants, Grant(head, recordedAt), key, at);
    assert Answers(cfg, s, key, at);
    if Name(key) == Name(head) {
      DedupGuard.FormatKeyIsInjective(key.chat, key.issue, head.chat, head.issue);
      assert at >= recordedAt + cfg.ttl ==> !Recently(cfg, s.grants, key, at);
    }
  }

  lemma {:induction false} SendKeepsGuard(cfg: Config, s: State, checkedAt: int, recordedAt: int)
    requires GuardInv(cfg, s) && Enabled(cfg, s, Send(checkedAt, recordedAt))
    ensures GuardInv(cfg, Next(cfg, s, Send(checkedAt, recordedAt)))
  {
    var s' := Next(cfg, s, Send(checkedAt, recordedAt));
    forall key, at | Fits(key) && at >= recordedAt ensures Answers(cfg, s', key, at) {
      if Goes(s, checkedAt) {
        GrantAnswers(cfg, s, checkedAt, recordedAt, key, at);
      } else {
        assert Answers(cfg, s, key, at) && s'.sent == s.sent;
      }
    }
  }

  lemma {:induction false} GuardRun(cfg: Config, s: State, run: seq<Step>)
    requires Initial(s) && Legal(cfg, s, run)
    ensures GuardInv(cfg, Exec(cfg, s, run))
    decreases |run|
  {
    if run == [] {
    } else {
      var init, e := run[..|run| - 1], run[|run| - 1];
      GuardRun(cfg, s, init);
      var before := Exec(cfg, s, init);
      match e
      case Map(op, ready) =>
        var s' := Next(cfg, before, e);
        forall key, at | Fits(key) && at >= s'.clock ensures Answers(cfg, s', key, at) {
          assert Answers(cfg, before, key, at);
        }
      case Send(checkedAt, recordedAt) => SendKeepsGuard(cfg, before, checkedAt, recordedAt);
      case Sweep(now) => SweepKeepsGuard(cfg, before, now);
    }
  }

  // ---------------------------------------------------------------- what waits, and since when

  /** Nothing taken out is still in the map, or taken out twice. */
  ghost predicate OutInv(s: State) {
    && (forall i :: 0 <= i < |s.outbox| ==> s.outbox[i].0 !in s.pending)
    && (forall i, j :: 0 <= i < j < |s.outbox| ==> s.outbox[i].0 != s.outbox[j].0)
  }

  /** The time for which everything that leaves has waited. */
  function Waited(cfg: Config, shutdown: bool): int { if shutdown then 0 else cfg.window }

  /** Whatever waits was first seen after the last message for its key. */
  ghost predicate SinceGrant(s: State, key: Key, firstSeen: int) {
    forall i :: 0 <= i < |s.grants| && s.grants[i].key == key ==> s.grants[i].at <= firstSeen
  }

  ghost predicate WaitInv(cfg: Config, s: State, shutdown: bool) {
    && (forall key :: key in s.pending ==>
          s.pending[key].firstSeen <= s.clock && SinceGrant(s, key, s.pending[key].firstSeen))
    && (forall i :: 0 <= i < |s.outbox| ==>
          && s.outbox[i].1.firstSeen + Waited(cfg, shutdown) <= s.clock
          && SinceGrant(s, s.outbox[i].0, s.outbox[i].1.firstSeen))
  }

  ghost predicate NoShutdown(run: seq<Step>) {
    forall i :: 0 <= i < |run| ==> !(run[i].Map? && run[i].op.FlushAll?)
  }

  lemma {:induction false} MapKeepsOut(cfg: Config, s: State, op: BatchWindow.Op, ready: seq<(Key, Pending)>)
    requires Enabled(cfg, s, Map(op, ready))
    ensures OutInv(Next(cfg, s, Map(op, ready)))
    ensures op.Add? ==> ready == []
    ensures forall i :: 0 <= i < |ready| ==>
              && ready[i].0 in s.pending && s.pending[ready[i].0] == ready[i].1
              && (op.Flush? ==> Ripe(ready[i].1, op.now, cfg.window))
  {
    assert ready != [] ==> ready[0].0 in Taken(cfg.window, s.pending, op);
    forall i | 0 <= i < |ready|
      ensures ready[i].0 in s.pending && s.pending[ready[i].0] == ready[i].1
              && ready[i].0 !in BatchWindow.After(cfg.window, s.pending, op)
              && (op.Flush? ==> Ripe(ready[i].1, op.now, cfg.window)) {
      assert ready[i].0 in Taken(cfg.window, s.pending, op);
    }
  }

  /** What is in the map after an operation was in it, with its clock, or has just been sighted. */
  lemma {:induction false} MapClocks(cfg: Config, s: State, op: BatchWindow.Op, key: Key)
    ensures var after := BatchWindow.After(cfg.window, s.pending, op);
            key in after ==>
              if key in s.pending then after[key].firstSeen == s.pending[key].firstSeen
              else op.Add? && after[key].firstSeen == BatchWindow.TimeOf(op)
  {
  }

  lemma {:induction false} MapKeepsWaits(cfg: Config, s: State, op: BatchWindow.Op, ready: seq<(Key, Pending)>,
                                         shutdown: bool)
    requires Enabled(cfg, s, Map(op, ready)) && WaitInv(cfg, s, shutdown) && GuardInv(cfg, s)
    requires op.FlushAll? ==> shutdown
    ensures WaitInv(cfg, Next(cfg, s, Map(op, ready)), shutdown)
  {
    var s' := Next(cfg, s, Map(op, ready));
    MapKeepsOut(cfg, s, op, ready);
    forall key | key in s'.pending
      ensures s'.pending[key].firstSeen <= s'.clock && SinceGrant(s', key, s'.pending[key].firstSeen) {
      MapClocks(cfg, s, op, key);
    }
    forall i | 0 <= i < |s'.outbox|
      ensures s'.outbox[i].1.firstSeen + Waited(cfg, shutdown) <= s'.clock
              && SinceGrant(s', s'.outbox[i].0, s'.outbox[i].1.firstSeen) {
      assert SinceGrant(s, ready[i].0, s.pending[ready[i].0].firstSeen);
    }
  }

  lemma {:induction false} SendKeepsWaits(cfg: Config, s: State, checkedAt: int, recordedAt: int, shutdown: bool)
    requires Enabled(cfg, s, Send(checkedAt, recordedAt)) && WaitInv(cfg, s, shutdown) && OutInv(s)
    ensures WaitInv(cfg, Next(cfg, s, Send(checkedAt, recordedAt)), shutdown)
    ensures OutInv(Next(cfg, s, Send(checkedAt, recordedAt)))
  {
    var s', head := Next(cfg, s, Send(checkedAt, recordedAt)), s.outbox[0].0;
    forall key, t | key != head && SinceGrant(s, key, t) ensures SinceGrant(s', key, t) {
    }
    forall key | key in s'.pending ensures SinceGrant(s', key, s'.pending[key].firstSeen) {
      assert key != head;
    }
    forall i | 0 <= i < |s'.outbox| ensures SinceGrant(s', s'.outbox[i].0, s'.outbox[i].1.firstSeen) {
      assert s'.outbox[i] == s.outbox[i + 1] && s.outbox[0].0 != s.outbox[i + 1].0;
    }
  }

  lemma {:induction false} OutRun(cfg: Config, s: State, run: seq<Step>, shutdown: bool)
    requires Initial(s) && Legal(cfg, s, run) && (shutdown || NoShutdown(run))
    ensures OutInv(Exec(cfg, s, run)) && WaitInv(cfg, Exec(cfg, s, run), shutdown)
    decreases |run|
  {
    if run == [] {
    } else {
      var init, e := run[..|run| - 1], run[|run| - 1];
      OutRun(cfg, s, init, shutdown);
      GuardRun(cfg, s, init);
      var before := Exec(cfg, s, init);
      match e
      case Map(op, ready) =>
        MapKeepsOut(cfg, before, op, ready);
        MapKeepsWaits(cfg, before, op, ready, shutdown);
      case Send(checkedAt, recordedAt) => SendKeepsWaits(cfg, before, checkedAt, recordedAt, shutdown);
      case Sweep(now) =>
    }
  }

  // ---------------------------------------------------------------- what is sent, and what is lost

  /** In every run, a notification that left the map is sent exactly when it is a mention or some field of it
      is displayed differently before and after, and no message for its chat and issue went out within
      the guard's window; otherwise it is lost, for it is in the map no more. */
  lemma {:induction false} SentIff(cfg: Config, s: State, run: seq<Step>, checkedAt: int, recordedAt: int)
    requires Initial(s) && Legal(cfg, s, run) && Enabled(cfg, Exec(cfg, s, run), Send(checkedAt, recordedAt))
    ensures var at := Exec(cfg, s, run);
            var key, p := at.outbox[0].0, at.outbox[0].1;
            && (Goes(at, checkedAt) <==>
                  && (|| p.isMention
                      || exists field :: field in p.changes
                           && ChangeDisplayValue(p.changes[field].fromString, p.changes[field].from)
                              != ChangeDisplayValue(p.changes[field].toString, p.changes[field].to))
                  && !Recently(cfg, at.grants, key, checkedAt))
            && key !in at.pending
  {
    GuardRun(cfg, s, run);
    var at := Exec(cfg, s, run);
    assert Answers(cfg, at, at.outbox[0].0, checkedAt);
    OutRun(cfg, s, run, true);
  }

  /** The notification that is next in line says something and is not sent. */
  ghost predicate Loses(cfg: Config, s: State, checkedAt: int, recordedAt: int) {
    && Enabled(cfg, s, Send(checkedAt, recordedAt))
    && SaysSomething(s.outbox[0].1) && !Goes(s, checkedAt)
  }

  /** Some run leads to this state; without `shutdown`, one in which the poller is not stopped. */
  ghost predicate Reached(cfg: Config, shutdown: bool, s: State) {
    exists s0, run :: Initial(s0) && (shutdown || NoShutdown(run)) && Legal(cfg, s0, run) && Exec(cfg, s0, run) == s
  }

  lemma {:induction false} ReachedNext(cfg: Config, shutdown: bool, s: State, e: Step)
    requires Reached(cfg, shutdown, s) && Enabled(cfg, s, e) && (shutdown || NoShutdown([e]))
    ensures Reached(cfg, shutdown, Next(cfg, s, e))
  {
    var s0, run :| Initial(s0) && (shutdown || NoShutdown(run)) && Legal(cfg, s0, run) && Exec(cfg, s0, run) == s;
    OneMore(cfg, s0, run, e);
    assert !shutdown ==> !([e][0].Map? && [e][0].op.FlushAll?);
    assert shutdown || NoShutdown(run + [e]);
  }

  /** No run loses a notification; with `shutdown`, whether or not the poller is stopped. */
  ghost predicate NeverLoses(cfg: Config, shutdown: bool) {
    forall s, checkedAt, recordedAt :: Reached(cfg, shutdown, s) ==> !Loses(cfg, s, checkedAt, recordedAt)
  }

  lemma {:induction false} NothingLost(cfg: Config, shutdown: bool, s: State, checkedAt: int, recordedAt: int)
    requires Reached(cfg, shutdown, s) && cfg.ttl <= Waited(cfg, shutdown)
    ensures !Loses(cfg, s, checkedAt, recordedAt)
  {
    var s0, run :| Initial(s0) && (shutdown || NoShutdown(run)) && Legal(cfg, s0, run) && Exec(cfg, s0, run) == s;
    if Enabled(cfg, s, Send(checkedAt, recordedAt)) && SaysSomething(s.outbox[0].1) {
      SentIff(cfg, s0, run, checkedAt, recordedAt);
      OutRun(cfg, s0, run, shutdown);
      assert SinceGrant(s, s.outbox[0].0, s.outbox[0].1.firstSeen);
    }
  }

  const CASE := Key(7, "P-1")

  /** Somebody moves the status of the case at this time, and the poller sees it at once. */
  function Moves(at: int, from: string, to: string): BatchWindow.Op {
    var entry := Entry(Some(at), Some(User("you", "You")), [ChangeItem("status", "", "", from, "", to)]);
    BatchWindow.Add(7, Sighting(Issue("P-1", Some(at), [entry]), -1, "", false, [], at))
  }

  lemma {:induction false} OneItem(item: ChangeItem)
    ensures MergeAll(map[], [item]) == MergeItem(map[], item)
  {
    assert [item][..0] == [];
    assert MergeAll(map[], []) == map[];
  }

  lemma {:induction false} MoveItems(at: int, from: string, to: string)
    requires at >= 0
    ensures ItemsOf(Moves(at, from, to).sighting) == [ChangeItem("status", "", "", from, "", to)]
  {
    var log := Moves(at, from, to).sighting.issue.log;
    assert log[..0] == [];
    assert RecentItems(log, -1, "") == [] + log[0].items;
  }

  lemma {:induction false} MoveIsPending(cfg: Config, s: State, at: int, from: string, to: string)
    returns (p: Pending)
    requires s.outbox == [] && s.pending == map[] && s.clock <= at && at >= 0 && from != to
    ensures Enabled(cfg, s, Map(Moves(at, from, to), []))
    ensures Next(cfg, s, Map(Moves(at, from, to), [])) == s.(pending := map[CASE := p], clock := at)
    ensures SaysSomething(p) && p.firstSeen == at
  {
    var item := ChangeItem("status", "", "", from, "", to);
    var op := Moves(at, from, to);
    MoveItems(at, from, to);
    p := Added(None, op.sighting).value;
    OneItem(item);
    assert p.changes == MergeAll(map[], [item]);
    assert RenderChange(p.changes["status"]).Some?;
  }

  lemma {:induction false} TakeOut(cfg: Config, s: State, p: Pending, now: int, all: bool) returns (e: Step)
    requires s.outbox == [] && s.pending == map[CASE := p] && s.clock <= now
    requires all || now - p.firstSeen >= cfg.window
    ensures e.Map? && (e.op.FlushAll? <==> all) && Enabled(cfg, s, e)
    ensures Next(cfg, s, e) == s.(pending := map[], outbox := [(CASE, p)], clock := now)
  {
    e := Map(if all then BatchWindow.FlushAll(now) else BatchWindow.Flush(now), [(CASE, p)]);
    assert Taken(cfg.window, s.pending, e.op) == map[CASE := p];
    assert BatchWindow.After(cfg.window, s.pending, e.op) == map[];
  }

  /** A move is seen, taken out after `wait`, or at shutdown, and next in line. */
  lemma {:induction false} MoveIsNext(cfg: Config, shutdown: bool, s: State, at: int, from: string, to: string,
                                      wait: nat, all: bool)
    returns (s': State, p: Pending)
    requires Reached(cfg, shutdown, s) && s.outbox == [] && s.pending == map[] && s.clock <= at && at >= 0
    requires from != to && (all ==> shutdown) && (all || wait >= cfg.window)
    ensures Reached(cfg, shutdown, s') && SaysSomething(p)
    ensures s' == s.(outbox := [(CASE, p)], clock := at + wait)
  {
    var see := Map(Moves(at, from, to), []);
    p := MoveIsPending(cfg, s, at, from, to);
    ReachedNext(cfg, shutdown, s, see);
    var e := TakeOut(cfg, Next(cfg, s, see), p, at + wait, all);
    ReachedNext(cfg, shutdown, Next(cfg, s, see), e);
    s' := Next(cfg, Next(cfg, s, see), e);
  }

  lemma {:induction false} FirstGoes(cfg: Config, shutdown: bool) returns (s: State)
    ensures Reached(cfg, shutdown, s)
    ensures s == State(map[], [], map[Name(CASE) := cfg.window + cfg.ttl], cfg.window, [Grant(CASE, cfg.window)])
  {
    var start := State(map[], [], map[], 0, []);
    assert Legal(cfg, start, []) && Exec(cfg, start, []) == start && NoShutdown([]);
    var s1, p := MoveIsNext(cfg, shutdown, start, 0, "Open", "Done", cfg.window, false);
    ReachedNext(cfg, shutdown, s1, Send(cfg.window, cfg.window));
    s := Next(cfg, s1, Send(cfg.window, cfg.window));
  }

  /** A message goes out, the field moves on, and the second message comes too soon after the first. */
  lemma {:induction false} SecondIsLost(cfg: Config, shutdown: bool) returns (s: State, at: int)
    requires cfg.ttl > Waited(cfg, shutdown)
    ensures Reached(cfg, shutdown, s) && Loses(cfg, s, at, at)
  {
    var s1 := FirstGoes(cfg, shutdown);
    var s2, p := MoveIsNext(cfg, shutdown, s1, cfg.window, "Done", "Open", Waited(cfg, shutdown), shutdown);
    s, at := s2, cfg.window + Waited(cfg, shutdown);
  }

  /** No notification is lost exactly when the guard's window is no longer than the batch window, or,
      with a shutdown, when there is no guard window at all. The programs set it to three batch
      windows. */
  lemma {:induction false} NeverLosesIff(cfg: Config, shutdown: bool)
    ensures NeverLoses(cfg, shutdown) <==> cfg.ttl <= Waited(cfg, shutdown)
  {
    if cfg.ttl <= Waited(cfg, shutdown) {
      forall s, checkedAt, recordedAt | Reached(cfg, shutdown, s) ensures !Loses(cfg, s, checkedAt, recordedAt) {
        NothingLost(cfg, shutdown, s, checkedAt, recordedAt);
      }
    } else {
      var s, at := SecondIsLost(cfg, shutdown);
      assert Loses(cfg, s, at, at);
    }
  }

  // ---------------------------------------------------------------- the sender, as the code runs it

  /** Whether any record has a line to show. */
  method HasChanges(changes: Changes) returns (some: bool)
    ensures some <==> exists field :: field in changes && RenderChange(changes[field]).Some?
  {
    var rest := changes.Keys;
    while rest != {}
      invariant rest <= changes.Keys
      invariant forall field :: field in changes && field !in rest ==> RenderChange(changes[field]).None?
      decreases |rest|
    {
      var field :| field in rest;
      if RenderChange(changes[field]).Some? {
        return true;
      }
      rest := rest - {field};
    }
    return false;
  }

  /** One notification: nothing to say, refused by the guard, or sent. */
  method SendOne(guard: DedupGuard.Guard, key: Key, p: Pending, checkedAt: int, recordedAt: int) returns (goes: bool)
    requires Fits(key)
    modifies guard
    ensures goes <==> SaysSomething(p) && DedupGuard.Allows(old(guard.sent), Name(key), checkedAt)
    ensures guard.sent == if SaysSomething(p)
                          then DedupGuard.AfterOp(guard.ttl, old(guard.sent),
                                                  DedupGuard.Ask(key.chat, key.issue, checkedAt, recordedAt))
                          else old(guard.sent)
  {
    var hasChanges := HasChanges(p.changes);
    if !hasChanges && !p.isMention {
      return false;
    }
    goes := guard.Allow(key.chat, key.issue, checkedAt, recordedAt);
  }

  function SendSteps(times: seq<(int, int)>): seq<Step> {
    seq(|times|, i requires 0 <= i < |times| => Send(times[i].0, times[i].1))
  }

  ghost predicate TimesAscend(clock: int, times: seq<(int, int)>) {
    && (forall i :: 0 <= i < |times| ==> clock <= times[i].0 <= times[i].1)
    && (forall i, j :: 0 <= i < j < |times| ==> times[i].1 <= times[j].0)
  }

  lemma {:induction false} NextSend(cfg: Config, s: State, times: seq<(int, int)>, i: nat, at: State)
    requires i < |times| && Legal(cfg, s, SendSteps(times)[..i]) && Exec(cfg, s, SendSteps(times)[..i]) == at
    requires Enabled(cfg, at, SendSteps(times)[i])
    ensures Legal(cfg, s, SendSteps(times)[..i + 1])
    ensures Exec(cfg, s, SendSteps(times)[..i + 1]) == Next(cfg, at, Send(times[i].0, times[i].1))
  {
    var steps := SendSteps(times);
    OneMore(cfg, s, steps[..i], steps[i]);
    assert steps[..i + 1] == steps[..i] + [steps[i]];
  }

  /** The loop after a flush: from the state with these notifications in the outbox, a run of sends. */
  method SendReady(guard: DedupGuard.Guard, ready: seq<(Key, Pending)>, times: seq<(int, int)>, ghost cfg: Config,
                   ghost s: State)
    returns (gone: seq<Grant>)
    requires s.outbox == ready && s.sent == guard.sent && cfg.ttl == guard.ttl
    requires |times| == |ready| && TimesAscend(s.clock, times)
    requires forall i :: 0 <= i < |ready| ==> Fits(ready[i].0)
    modifies guard
    ensures Legal(cfg, s, SendSteps(times))
    ensures var s' := Exec(cfg, s, SendSteps(times));
            s'.outbox == [] && s'.sent == guard.sent && s'.grants == s.grants + gone
  {
    gone := [];
    ghost var steps, at := SendSteps(times), s;
    for i := 0 to |ready|
      invariant Legal(cfg, s, steps[..i]) && Exec(cfg, s, steps[..i]) == at
      invariant at.outbox == ready[i..] && at.sent == guard.sent && at.grants == s.grants + gone
      invariant at.clock == if i == 0 then s.clock else times[i - 1].1
    {
      NextSend(cfg, s, times, i, at);
      var goes := SendOne(guard, ready[i].0, ready[i].1, times[i].0, times[i].1);
      assert goes == Goes(at, times[i].0);
      if goes {
        gone := gone + [Grant(ready[i].0, times[i].1)];
      }
      at := Next(cfg, at, Send(times[i].0, times[i].1));
    }
    assert steps[..|ready|] == steps;
  }
}
