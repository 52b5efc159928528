/**
  The ingress queue of internal/webhook/handler.go: request handlers enqueue without blocking, one
  dispatcher hands events to at most ten pool workers, and on cancellation the dispatcher drains the
  queue itself and waits for the workers.

  The program is an interleaved step system. Events are numbered in the order they are accepted.
*/
module WebhookQueue {

  const MAX_CONCURRENT_JOBS := 10
  const EVENT_QUEUE_SIZE := 100

  /** Where the goroutine running `Start` is. */
  datatype Dispatcher =
    | Select                // in the outer select
    | Have(event: nat)      // has taken an event, waits for a worker slot
    | Spawning(event: nat)  // holds a slot for it
    | Inline(event: nat)    // cancelled while waiting: processes the event itself
    | Draining              // in the drain loop
    | DrainHave(event: nat) // processes a drained event
    | Waiting               // in the final wait
    | Returned

  /** `working` events are being processed by pool workers; `finished` workers still hold their slot,
      `leaving` ones have only the wait group left to signal. `sealedAt` is how many events had been
      accepted when the drain found the queue empty. */
  datatype State = State(queue: seq<nat>,
                         accepted: nat,
                         uncounted: nat,
                         received: nat,
                         cancelled: bool,
                         pc: Dispatcher,
                         sem: nat,
                         wg: nat,
                         working: set<nat>,
                         finished: set<nat>,
                         leaving: set<nat>,
                         done: seq<nat>,
                         sealedAt: nat)

  datatype Step =
    // request handlers and the owner of the context
    | Enqueue
    | Reject
    | Count
    | Cancel
    // the dispatcher
    | SeeCancel
    | Take
    | Acquire
    | GiveUp
    | Spawn
    | FinishInline
    | DrainTake
    | FinishDrain
    | DrainEmpty
    | Return
    // the workers
    | Process(event: nat)
    | Release(event: nat)
    | SignOff(event: nat)

  function Initial(): State {
    State([], 0, 0, 0, false, Select, 0, 0, {}, {}, {}, [], 0)
  }

  predicate Enabled(s: State, step: Step) {
    match step
    case Enqueue => |s.queue| < EVENT_QUEUE_SIZE
    case Reject => !(|s.queue| < EVENT_QUEUE_SIZE)
    case Count => s.uncounted > 0
    case Cancel => !s.cancelled
    case SeeCancel => s.pc.Select? && s.cancelled
    case Take => s.pc.Select? && s.queue != []
    case Acquire => s.pc.Have? && s.sem < MAX_CONCURRENT_JOBS
    case GiveUp => s.pc.Have? && s.cancelled
    case Spawn => s.pc.Spawning?
    case FinishInline => s.pc.Inline?
    case DrainTake => s.pc.Draining? && s.queue != []
    case FinishDrain => s.pc.DrainHave?
    case DrainEmpty => s.pc.Draining? && s.queue == []
    case Return => s.pc.Waiting? && s.wg == 0
    case Process(e) => e in s.working
    case Release(e) => e in s.finished && s.sem > 0
    case SignOff(e) => e in s.leaving && s.wg > 0
  }

  function Next(s: State, step: Step): State
    requires Enabled(s, step)
  {
    match step
    case Enqueue => s.(queue := s.queue + [s.accepted], accepted := s.accepted + 1, uncounted := s.uncounted + 1)
    case Reject => s
    case Count => s.(uncounted := s.uncounted - 1, received := s.received + 1)
    case Cancel => s.(cancelled := true)
    case SeeCancel => s.(pc := Draining)
    case Take => s.(pc := Have(s.queue[0]), queue := s.queue[1..])
    case Acquire => s.(pc := Spawning(s.pc.event), sem := s.sem + 1)
    case GiveUp => s.(pc := Inline(s.pc.event))
    case Spawn => s.(pc := Select, wg := s.wg + 1, working := s.working + {s.pc.event})
    case FinishInline => s.(pc := Draining, done := s.done + [s.pc.event])
    case DrainTake => s.(pc := DrainHave(s.queue[0]), queue := s.queue[1..])
    case FinishDrain => s.(pc := Draining, done := s.done + [s.pc.event])
    case DrainEmpty => s.(pc := Waiting, sealedAt := s.accepted)
    case Return => s.(pc := Returned)
    case Process(e) => s.(working := s.working - {e}, finished := s.finished + {e}, done := s.done + [e])
    case Release(e) => s.(finished := s.finished - {e}, leaving := s.leaving + {e}, sem := s.sem - 1)
    case SignOff(e) => s.(leaving := s.leaving - {e}, wg := s.wg - 1)
  }

  ghost predicate Legal(s: State, steps: seq<Step>)
    decreases |steps|, 0
  {
    steps == [] || (Legal(s, steps[..|steps| - 1]) && Enabled(Exec(s, steps[..|steps| - 1]), steps[|steps| - 1]))
  }

  ghost function Exec(s: State, steps: seq<Step>): State
    requires Legal(s, steps)
    decreases |steps|, 1
  {
    if steps == [] then s else Next(Exec(s, steps[..|steps| - 1]), steps[|steps| - 1])
  }

  // ---------------------------------------------------------------- the invariant

  /** The event in the dispatcher's hands. */
  function Held(pc: Dispatcher): set<nat> {
    match pc
    case Have(e) => {e}
    case Spawning(e) => {e}
    case Inline(e) => {e}
    case DrainHave(e) => {e}
    case _ => {}
  }

  function Taken(s: State): int { s.accepted - |s.queue| }

  /** The queue holds the latest accepted events, oldest first. */
  ghost predicate QueueInOrder(s: State) {
    && |s.queue| <= s.accepted
    && forall i :: 0 <= i < |s.queue| ==> s.queue[i] == s.accepted - |s.queue| + i
  }

  ghost predicate DoneOnce(done: seq<nat>) {
    forall i, j :: 0 <= i < j < |done| ==> done[i] != done[j]
  }

  /** Every event taken from the queue is with the dispatcher, with a worker, or done. */
  ghost predicate TakenAccounted(s: State) {
    && (forall e: nat :: e < Taken(s) <==> e in Held(s.pc) || e in s.working || e in s.done)
    && Held(s.pc) !! s.working
    && (forall e :: e in s.done ==> e !in Held(s.pc) && e !in s.working)
    && DoneOnce(s.done)
  }

  predicate Slots(s: State) {
    && s.working !! s.finished && s.working !! s.leaving && s.finished !! s.leaving
    && s.sem == |s.working| + |s.finished| + (if s.pc.Spawning? then 1 else 0)
    && s.wg == |s.working| + |s.finished| + |s.leaving|
    && s.sem <= MAX_CONCURRENT_JOBS
    && |s.queue| <= EVENT_QUEUE_SIZE
    && s.received + s.uncounted == s.accepted
  }

  /** Workers that have processed their event are accounted for in `done`. */
  ghost predicate PastWorkers(s: State) {
    forall e :: e in s.finished || e in s.leaving ==> e in s.done
  }

  ghost predicate Ending(s: State) {
    && (s.pc.Inline? || s.pc.Draining? || s.pc.DrainHave? || s.pc.Waiting? || s.pc.Returned? ==> s.cancelled)
    && (s.pc.Waiting? || s.pc.Returned? ==> Taken(s) == s.sealedAt)
    && (s.pc.Returned? ==> s.wg == 0)
  }

  ghost predicate Inv(s: State) {
    QueueInOrder(s) && TakenAccounted(s) && Slots(s) && PastWorkers(s) && Ending(s)
  }

  lemma QueueStep(s: State, step: Step)
    requires Inv(s) && Enabled(s, step)
    ensures QueueInOrder(Next(s, step))
    ensures Taken(Next(s, step)) == Taken(s) + if step.Take? || step.DrainTake? then 1 else 0
    ensures step.Take? || step.DrainTake? ==> s.queue[0] == Taken(s)
  {
  }

  predicate Internal(step: Step) {
    !(step.Enqueue? || step.Reject? || step.Count? || step.Cancel?)
  }

  function Weight(pc: Dispatcher): nat {
    match pc
    case Have(_) => 8
    case Spawning(_) => 7
    case Inline(_) => 3
    case DrainHave(_) => 3
    case Select => 3
    case Draining => 2
    case Waiting => 1
    case Returned => 0
  }

  /** How many steps the dispatcher and the workers can still make at most. */
  function Work(s: State): nat {
    6 * |s.queue| + Weight(s.pc) + 3 * |s.working| + 2 * |s.finished| + |s.leaving|
  }

  predicate TakesEvent(step: Step) { step.Take? || step.DrainTake? }

  predicate FinishesOwn(step: Step) { step.FinishInline? || step.FinishDrain? }

  predicate OfWorker(step: Step) { step.Process? || step.Release? || step.SignOff? }

  lemma DoneSnoc(done: seq<nat>, e: nat)
    requires DoneOnce(done) && e !in done
    ensures DoneOnce(done + [e]) && forall x :: x in done + [e] <==> x in done || x == e
  {
    assert (done + [e])[|done|] == e;
    assert forall i :: 0 <= i < |done| ==> (done + [e])[i] == done[i] && done[i] in done;
  }

  lemma TakingAccounted(s: State, step: Step)
    requires Inv(s) && Enabled(s, step) && TakesEvent(step)
    ensures TakenAccounted(Next(s, step))
  {
    QueueStep(s, step);
    var s' := Next(s, step);
    assert s'.working == s.working && s'.done == s.done && Held(s.pc) == {} && Held(s'.pc) == {s.queue[0]};
  }

  lemma FinishingAccounted(s: State, step: Step)
    requires Inv(s) && Enabled(s, step) && FinishesOwn(step)
    ensures TakenAccounted(Next(s, step))
  {
    QueueStep(s, step);
    var s' := Next(s, step);
    assert s.pc.event in Held(s.pc);
    DoneSnoc(s.done, s.pc.event);
    assert s'.working == s.working && Held(s.pc) == {s.pc.event} && Held(s'.pc) == {};
  }

  lemma ProcessingAccounted(s: State, step: Step)
    requires Inv(s) && Enabled(s, step) && step.Process?
    ensures TakenAccounted(Next(s, step))
  {
    QueueStep(s, step);
    var s' := Next(s, step);
    assert step.event !in s.done;
    DoneSnoc(s.done, step.event);
    assert s'.pc == s.pc && s'.working == s.working - {step.event};
  }

  lemma TakenStep(s: State, step: Step)
    requires Inv(s) && Enabled(s, step)
    ensures TakenAccounted(Next(s, step))
  {
    if TakesEvent(step) {
      TakingAccounted(s, step);
    } else if FinishesOwn(step) {
      FinishingAccounted(s, step);
    } else if step.Process? {
      ProcessingAccounted(s, step);
    } else {
      QueueStep(s, step);
      assert Next(s, step).done == s.done;
    }
  }

  lemma SetSizes(s: set<nat>, e: nat)
    ensures e in s ==> |s - {e}| == |s| - 1
    ensures e !in s ==> |s + {e}| == |s| + 1
  {
  }

  lemma WorkerSlots(s: State, step: Step)
    requires Inv(s) && Enabled(s, step) && OfWorker(step)
    ensures Slots(Next(s, step)) && Work(Next(s, step)) < Work(s)
  {
    SetSizes(s.working, step.event);
    SetSizes(s.finished, step.event);
    SetSizes(s.leaving, step.event);
  }

  lemma SpawnSlots(s: State)
    requires Inv(s) && Enabled(s, Spawn)
    ensures Slots(Next(s, Spawn)) && Work(Next(s, Spawn)) < Work(s)
  {
    assert s.pc.event in Held(s.pc) && s.pc.event !in s.done;
    SetSizes(s.working, s.pc.event);
  }

  lemma OtherSlots(s: State, step: Step)
    requires Inv(s) && Enabled(s, step) && !OfWorker(step) && !step.Spawn?
    ensures Slots(Next(s, step))
    ensures Internal(step) ==> Work(Next(s, step)) < Work(s)
    ensures step.Enqueue? ==> Work(Next(s, step)) == Work(s) + 6
    ensures !Internal(step) && !step.Enqueue? ==> Work(Next(s, step)) == Work(s)
  {
    var s' := Next(s, step);
    assert s'.working == s.working && s'.finished == s.finished && s'.leaving == s.leaving;
  }

  lemma SlotsStep(s: State, step: Step)
    requires Inv(s) && Enabled(s, step)
    ensures Slots(Next(s, step))
  {
    if OfWorker(step) {
      WorkerSlots(s, step);
    } else if step.Spawn? {
      SpawnSlots(s);
    } else {
      OtherSlots(s, step);
    }
  }

  lemma EndingStep(s: State, step: Step)
    requires Inv(s) && Enabled(s, step)
    ensures PastWorkers(Next(s, step)) && Ending(Next(s, step))
  {
    QueueStep(s, step);
  }

  lemma {:induction false} InvRun(steps: seq<Step>)
    requires Legal(Initial(), steps)
    ensures Inv(Exec(Initial(), steps))
    decreases |steps|
  {
    if steps == [] {
    } else {
      var before := steps[..|steps| - 1];
      InvRun(before);
      var s, step := Exec(Initial(), before), steps[|steps| - 1];
      QueueStep(s, step);
      TakenStep(s, step);
      SlotsStep(s, step);
      EndingStep(s, step);
    }
  }

  /** Some run leads from `s` to `s'`. */
  ghost predicate Reaches(s: State, s': State) {
    exists steps :: Legal(s, steps) && Exec(s, steps) == s'
  }

  lemma {:induction false} ReachableInv(s: State)
    requires Reaches(Initial(), s)
    ensures Inv(s)
  {
    var steps :| Legal(Initial(), steps) && Exec(Initial(), steps) == s;
    InvRun(steps);
  }

  // ---------------------------------------------------------------- safety

  /** In how many of the places an event can be it is: the queue, the dispatcher, the pool, and each
      time it was processed. */
  function Places(s: State, e: nat): nat {
    multiset(s.queue)[e] + (if e in Held(s.pc) then 1 else 0) + (if e in s.working then 1 else 0) + multiset(s.done)[e]
  }

  lemma {:induction false} CountDistinct(xs: seq<nat>, e: nat)
    requires DoneOnce(xs)
    ensures multiset(xs)[e] == if e in xs then 1 else 0
    decreases |xs|
  {
    if xs == [] {
    } else {
      var n := |xs| - 1;
      CountDistinct(xs[..n], e);
      assert xs == xs[..n] + [xs[n]];
      assert forall i :: 0 <= i < n ==> xs[i] != xs[n];
    }
  }

  lemma {:induction false} CountQueued(s: State, e: nat)
    requires QueueInOrder(s)
    ensures multiset(s.queue)[e] == if Taken(s) <= e < s.accepted then 1 else 0
  {
    CountDistinct(s.queue, e);
    assert Taken(s) <= e < s.accepted ==> s.queue[e - Taken(s)] == e;
  }

  lemma {:induction false} CountTaken(s: State, e: nat)
    requires TakenAccounted(s)
    ensures (if e in Held(s.pc) then 1 else 0) + (if e in s.working then 1 else 0) + multiset(s.done)[e]
         == if e < Taken(s) then 1 else 0
  {
    CountDistinct(s.done, e);
  }

  lemma {:induction false} PlacesAddUp(s: State, e: nat)
    requires Inv(s)
    ensures Places(s, e) == if e < s.accepted then 1 else 0
  {
    CountQueued(s, e);
    CountTaken(s, e);
  }

  lemma {:induction false} BoundsHold(s: State)
    requires Inv(s)
    ensures |s.queue| <= 100 && |s.working| <= 10 && s.received <= s.accepted
  {
  }

  /** At every moment of every run, shutdown included, each accepted event is in exactly one place and
      was processed at most once; nothing else is anywhere. The bounds of the queue and the pool hold. */
  lemma {:induction false} EachEventInOnePlace(s: State, e: nat)
    requires Reaches(Initial(), s)
    ensures Places(s, e) == if e < s.accepted then 1 else 0
    ensures |s.queue| <= 100 && |s.working| <= 10 && s.received <= s.accepted
  {
    ReachableInv(s);
    PlacesAddUp(s, e);
    BoundsHold(s);
  }

  /** When `Start` returns, exactly the events accepted before the drain found the queue empty have
      been processed, each once; those accepted later are still queued, and no worker is left. */
  lemma {:induction false} ReturnMeansProcessed(s: State, e: nat)
    requires Reaches(Initial(), s) && s.pc.Returned?
    ensures multiset(s.done)[e] == if e < s.sealedAt then 1 else 0
    ensures multiset(s.queue)[e] == if s.sealedAt <= e < s.accepted then 1 else 0
    ensures s.working == {} && s.finished == {} && s.leaving == {}
  {
    ReachableInv(s);
    CountQueued(s, e);
    CountTaken(s, e);
    NobodyLeft(s);
  }

  lemma {:induction false} NobodyLeft(s: State)
    requires Inv(s) && s.pc.Returned?
    ensures s.working == {} && s.finished == {} && s.leaving == {}
  {
    assert |s.working| + |s.finished| + |s.leaving| == 0;
  }

  /** Such events exist: one that comes in while `Start` waits is accepted, counted and never
      processed. */
  lemma {:induction false} LateEventStays() returns (steps: seq<Step>)
    ensures Legal(Initial(), steps) && Exec(Initial(), steps).pc.Returned?
    ensures var s := Exec(Initial(), steps); s.sealedAt < s.accepted == s.received && s.queue == [0] && s.done == []
  {
    steps := [];
    steps := Then(steps, Cancel);
    steps := Then(steps, SeeCancel);
    steps := Then(steps, DrainEmpty);
    steps := Then(steps, Enqueue);
    steps := Then(steps, Count);
    steps := Then(steps, Return);
  }

  lemma {:induction false} Then(steps: seq<Step>, step: Step) returns (more: seq<Step>)
    requires Legal(Initial(), steps) && Enabled(Exec(Initial(), steps), step)
    ensures Legal(Initial(), more) && Exec(Initial(), more) == Next(Exec(Initial(), steps), step)
  {
    more := steps + [step];
    assert more[..|steps|] == steps;
  }

  /** The seal is set once, by the drain that finds the queue empty, to all that is accepted by then. */
  lemma SealIsWhatWasAccepted(s: State, step: Step)
    requires Inv(s) && Enabled(s, step)
    ensures step.DrainEmpty? ==> Next(s, step).sealedAt == s.accepted == Taken(s)
    ensures !step.DrainEmpty? ==> Next(s, step).sealedAt == s.sealedAt
    ensures s.pc.Waiting? || s.pc.Returned? ==> !step.DrainEmpty?
  {
  }

  // ---------------------------------------------------------------- progress

  lemma InternalStepsShrink(s: State, step: Step)
    requires Inv(s) && Enabled(s, step)
    ensures Internal(step) ==> Work(Next(s, step)) < Work(s)
    ensures step.Enqueue? ==> Work(Next(s, step)) == Work(s) + 6
    ensures !Internal(step) && !step.Enqueue? ==> Work(Next(s, step)) == Work(s)
  {
    if OfWorker(step) {
      WorkerSlots(s, step);
    } else if step.Spawn? {
      SpawnSlots(s);
    } else {
      OtherSlots(s, step);
    }
  }

  function InternalCount(steps: seq<Step>): nat
    decreases |steps|
  {
    if steps == [] then 0 else InternalCount(steps[..|steps| - 1]) + if Internal(steps[|steps| - 1]) then 1 else 0
  }

  /** In every run the dispatcher and the workers together make at most three steps and six more for
      each accepted event. */
  lemma {:induction false} WorkIsBounded(steps: seq<Step>)
    requires Legal(Initial(), steps)
    ensures InternalCount(steps) + Work(Exec(Initial(), steps)) <= 3 + 6 * Exec(Initial(), steps).accepted
    decreases |steps|
  {
    if steps == [] {
    } else {
      var before := steps[..|steps| - 1];
      WorkIsBounded(before);
      InvRun(before);
      InternalStepsShrink(Exec(Initial(), before), steps[|steps| - 1]);
    }
  }

  /** Nothing is stuck: unless `Start` has returned, or idles with no cancellation and nothing queued,
      the dispatcher or a worker can move. */
  lemma SomeoneCanMove(steps: seq<Step>) returns (step: Step)
    requires Legal(Initial(), steps)
    requires var s := Exec(Initial(), steps); !s.pc.Returned? && (s.cancelled || !s.pc.Select? || s.queue != [])
    ensures Internal(step) && Enabled(Exec(Initial(), steps), step)
  {
    InvRun(steps);
    var s := Exec(Initial(), steps);
    if s.working != {} {
      var e :| e in s.working;
      step := Process(e);
    } else if s.finished != {} {
      var e :| e in s.finished;
      assert |s.finished| > 0;
      step := Release(e);
    } else if s.leaving != {} {
      var e :| e in s.leaving;
      assert |s.leaving| > 0;
      step := SignOff(e);
    } else {
      step := match s.pc
        case Select => if s.queue != [] then Take else SeeCancel
        case Have(_) => Acquire
        case Spawning(_) => Spawn
        case Inline(_) => FinishInline
        case DrainHave(_) => FinishDrain
        case Draining => if s.queue != [] then DrainTake else DrainEmpty
        case Waiting => Return
        case Returned => Return;
    }
  }

  /** From any state of a run that was cancelled, letting the dispatcher and the workers go on without
      new events leads to `Returned`, within the bound. */
  lemma {:induction false} ShutdownCompletes(steps: seq<Step>) returns (more: seq<Step>)
    requires Legal(Initial(), steps) && Exec(Initial(), steps).cancelled
    ensures Legal(Initial(), more) && Exec(Initial(), more).pc.Returned?
    ensures steps <= more && |more| - |steps| <= Work(Exec(Initial(), steps))
    ensures Exec(Initial(), more).accepted == Exec(Initial(), steps).accepted
    decreases Work(Exec(Initial(), steps))
  {
    var s := Exec(Initial(), steps);
    if s.pc.Returned? {
      more := steps;
    } else {
      var step := SomeoneCanMove(steps);
      InvRun(steps);
      InternalStepsShrink(s, step);
      var next := steps + [step];
      assert next[..|next| - 1] == steps;
      more := ShutdownCompletes(next);
      assert steps <= next;
    }
  }

  // ---------------------------------------------------------------- the code

  lemma ReachesItself(s: State)
    ensures Reaches(s, s)
  {
    assert Legal(s, []) && Exec(s, []) == s;
  }

  lemma ReachesNext(s: State, s': State, step: Step)
    requires Reaches(s, s') && Enabled(s', step)
    ensures Reaches(s, Next(s', step))
  {
    var steps :| Legal(s, steps) && Exec(s, steps) == s';
    var more := steps + [step];
    assert more[..|more| - 1] == steps;
    assert Legal(s, more) && Exec(s, more) == Next(s', step);
  }

  lemma DrainOne(s0: State, s: State)
    requires Reaches(s0, s) && s.pc.Draining? && s.queue != []
    ensures Reaches(s0, s.(queue := s.queue[1..], done := s.done + [s.queue[0]]))
  {
    ReachesNext(s0, s, DrainTake);
    ReachesNext(s0, Next(s, DrainTake), FinishDrain);
    assert s.pc == Draining;
  }

  lemma OneMoved(done: seq<nat>, queue: seq<nat>)
    requires queue != []
    ensures (done + [queue[0]]) + queue[1..] == done + queue
  {
  }

  class Handler {
    var eventQueue: seq<nat>
    var eventsReceived: nat
    var accepted: nat
    var processed: seq<nat>
    ghost var rest: State // the parts of the state these methods leave alone

    ghost function State(): State
      reads this
    {
      rest.(queue := eventQueue, accepted := accepted, received := eventsReceived, done := processed)
    }

    constructor ()
      ensures State() == Initial()
    {
      eventQueue, eventsReceived, accepted, processed := [], 0, 0, [];
      rest := Initial();
    }

    /** The last step of a request: accepted at the end of the queue and counted, or turned away. */
    method ServeEvent() returns (ok: bool)
      modifies this
      ensures Reaches(old(State()), State())
      ensures ok == (|old(eventQueue)| < 100)
      ensures if ok then eventQueue == old(eventQueue) + [old(accepted)] && eventsReceived == old(eventsReceived) + 1
                         && accepted == old(accepted) + 1
              else State() == old(State())
      ensures processed == old(processed) && rest == old(rest)
    {
      ghost var s0 := State();
      ReachesItself(s0);
      ok := |eventQueue| < EVENT_QUEUE_SIZE;
      if ok {
        ReachesNext(s0, s0, Enqueue);
        ReachesNext(s0, Next(s0, Enqueue), Count);
        eventQueue := eventQueue + [accepted];
        accepted := accepted + 1;
        eventsReceived := eventsReceived + 1;
        assert State() == Next(Next(s0, Enqueue), Count);
      }
    }

    /** The drain loop with no new events arriving: everything queued is processed, in order. */
    method DrainQueue()
      requires rest.pc == Draining
      modifies this
      ensures Reaches(old(State()), State())
      ensures State() == old(State()).(queue := [], done := old(processed) + old(eventQueue),
                                       pc := Waiting, sealedAt := accepted)
    {
      ghost var s0 := State();
      ReachesItself(s0);
      while eventQueue != []
        invariant rest == old(rest) && accepted == old(accepted) && eventsReceived == old(eventsReceived)
        invariant processed + eventQueue == old(processed) + old(eventQueue)
        invariant Reaches(s0, State())
        decreases |eventQueue|
      {
        DrainOne(s0, State());
        OneMoved(processed, eventQueue);
        processed := processed + [eventQueue[0]];
        eventQueue := eventQueue[1..];
      }
      assert processed == processed + eventQueue;
      ReachesNext(s0, State(), DrainEmpty);
      rest := rest.(pc := Waiting, sealedAt := accepted);
    }
  }
}
