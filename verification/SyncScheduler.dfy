// The two self-requeueing reward workers: slot flags, rerun requests, the watchdog and the
// generation fence.
//
// Requests, watchdog restarts, load resets and queued tasks run one at a time on the main
// thread, in any order; a queue attempt may fail. What a pass or an attempt does to the
// actor is left open: any outcome is allowed, so nothing below depends on it.
module SyncScheduler {
  import opened ActorValues
  import opened Actors
  import opened SeqSums

  const PASS_COUNT: nat := 180
  const REWARD_STUCK_MS: nat := 15000
  const CARRY_MAX_ATTEMPTS: nat := 3
  const CARRY_STUCK_MS: nat := 3000
  const REWARD_READINESS_MS: nat := 20000
  const CARRY_READINESS_MS: nat := 10000

  datatype Worker = RewardSync | CarryQuick

  datatype Slot = Slot(scheduled: bool, rerun: bool, sinceMs: nat)
  const IDLE := Slot(false, false, 0)

  /** What a run remembers between passes: streaks, non-converging values, first-pass flag. */
  datatype PassState = PassState(streaks: map<ActorValue, nat>, nonConverging: set<ActorValue>, normalizeFirst: bool)
  const FRESH_PASSES := PassState(map[], {}, true)

  datatype Task =
    | RewardTask(generation: nat, deadlineMs: nat, state: PassState, remaining: nat)
    | CarryTask(generation: nat, deadlineMs: nat, attempt: nat)
  {
    function Owner(): Worker { if RewardTask? then RewardSync else CarryQuick }
  }

  function FreshTask(worker: Worker, generation: nat): Task {
    match worker
    case RewardSync => RewardTask(generation, 0, FRESH_PASSES, PASS_COUNT)
    case CarryQuick => CarryTask(generation, 0, 0)
  }

  datatype World = World(generation: nat, reward: Slot, carry: Slot, queue: seq<Task>, sheet: Sheet) {
    function SlotOf(worker: Worker): Slot { if worker.RewardSync? then reward else carry }

    function WithSlot(worker: Worker, slot: Slot): World {
      if worker.RewardSync? then this.(reward := slot) else this.(carry := slot)
    }
  }

  /** The outcome of a ready pass or attempt: any change of the actor, and whether work is left. */
  datatype Effect = Effect(sheet: Sheet, state: PassState, finished: bool)

  /** `queues` and `requeues` are the results of the first and a second attempt to queue a task. */
  datatype Env = Env(ready: bool, nowMs: nat, queues: bool, requeues: bool, effect: Effect)

  datatype Event =
    | Request(worker: Worker, nowMs: nat, queues: bool)
    | LoadReset
    | RunTask(index: nat, env: Env)

  datatype RequestAction = StartNewRun | MarkRerun | ForceRestartAndStart

  function DecideRequest(slot: Slot, nowMs: nat, stuckMs: nat): RequestAction {
    if !slot.scheduled then StartNewRun
    else if nowMs >= slot.sinceMs && nowMs - slot.sinceMs > stuckMs then ForceRestartAndStart
    else MarkRerun
  }

  function StuckMs(worker: Worker): nat { if worker.RewardSync? then REWARD_STUCK_MS else CARRY_STUCK_MS }

  function Bump(w: World): World {
    w.(generation := w.generation + 1, reward := IDLE, carry := IDLE)
  }

  function Release(w: World, worker: Worker): World { w.WithSlot(worker, IDLE) }

  /** A run that could not be queued: the slot is released and the request is remembered. */
  function Defer(w: World, worker: Worker): World { w.WithSlot(worker, IDLE.(rerun := true)) }

  function Requested(w: World, worker: Worker, nowMs: nat, queues: bool): World {
    var action := DecideRequest(w.SlotOf(worker), nowMs, StuckMs(worker));
    if action.MarkRerun? then w.WithSlot(worker, w.SlotOf(worker).(rerun := true))
    else
      var w1 := if action.ForceRestartAndStart? then Bump(w) else w;
      var started := w1.WithSlot(worker, w1.SlotOf(worker).(scheduled := true, sinceMs := nowMs));
      if queues then started.(queue := started.queue + [FreshTask(worker, started.generation)])
      else Defer(started, worker)
  }

  /** The end of a run: start over if a rerun was requested meanwhile, else release the slot. */
  function RerunOrRelease(w: World, worker: Worker, nowMs: nat, queues: bool): World {
    if !w.SlotOf(worker).rerun then Release(w, worker)
    else if queues then
      w.WithSlot(worker, w.SlotOf(worker).(rerun := false, sinceMs := nowMs))
       .(queue := w.queue + [FreshTask(worker, w.generation)])
    else Defer(w, worker)
  }

  function Deadline(deadlineMs: nat, nowMs: nat, waitMs: nat): nat {
    if deadlineMs == 0 then nowMs + waitMs else deadlineMs
  }

  /** RunRewardSyncPasses, for a task already taken off the queue. */
  function RewardStep(w: World, t: Task, env: Env): World
    requires t.RewardTask?
  {
    if t.generation != w.generation then w
    else if !env.ready then
      var deadline := Deadline(t.deadlineMs, env.nowMs, REWARD_READINESS_MS);
      if env.nowMs >= deadline || !env.queues then Release(w, RewardSync)
      else w.(queue := w.queue + [RewardTask(t.generation, deadline, t.state, t.remaining)])
    else
      var passed := w.(sheet := env.effect.sheet);
      if env.effect.finished || t.remaining <= 1 then RerunOrRelease(passed, RewardSync, env.nowMs, env.queues)
      else if env.queues then
        passed.(queue := passed.queue + [t.(state := env.effect.state, remaining := t.remaining - 1)])
      else Defer(passed, RewardSync)
  }

  /** RunCarryWeightQuickResync, for a task already taken off the queue. */
  function CarryStep(w: World, t: Task, env: Env): World
    requires t.CarryTask?
  {
    if t.generation != w.generation then w
    else if !env.ready then
      var deadline := Deadline(t.deadlineMs, env.nowMs, CARRY_READINESS_MS);
      if env.nowMs >= deadline then RerunOrRelease(w, CarryQuick, env.nowMs, env.queues)
      else if env.queues then w.(queue := w.queue + [CarryTask(t.generation, deadline, t.attempt)])
      else RerunOrRelease(w, CarryQuick, env.nowMs, env.requeues)
    else
      var tried := w.(sheet := env.effect.sheet);
      if env.effect.finished || t.attempt + 1 >= CARRY_MAX_ATTEMPTS then
        RerunOrRelease(tried, CarryQuick, env.nowMs, env.queues)
      else if env.queues then tried.(queue := tried.queue + [t.(attempt := t.attempt + 1)])
      else Defer(tried, CarryQuick)
  }

  function AfterStep(w: World, t: Task, env: Env): World {
    if t.RewardTask? then RewardStep(w, t, env) else CarryStep(w, t, env)
  }

  function TaskStep(w: World, i: nat, env: Env): World
    requires i < |w.queue|
  {
    var t := w.queue[i];
    var taken := w.(queue := Without(w.queue, i));
    AfterStep(taken, t, env)
  }

  function Next(w: World, e: Event): World {
    match e
    case Request(worker, nowMs, queues) => Requested(w, worker, nowMs, queues)
    case LoadReset => Bump(w)
    case RunTask(i, env) => if i < |w.queue| then TaskStep(w, i, env) else w
  }

  function Run(w: World, es: seq<Event>): World
    decreases |es|
  {
    if es == [] then w else Run(Next(w, es[0]), es[1..])
  }

  // ---- Tasks of the current generation -----------------------------------------------------

  function IsCurrent(worker: Worker, generation: nat): Task -> nat {
    (t: Task) => if t.Owner() == worker && t.generation == generation then 1 else 0
  }

  /** How many queued tasks of a worker carry the current generation. */
  function CurrentTasks(w: World, worker: Worker): nat {
    Sum(w.queue, IsCurrent(worker, w.generation))
  }

  // ---- Single flight -----------------------------------------------------------------------

  ghost predicate NothingNewer(w: World) { forall t | t in w.queue :: t.generation <= w.generation }

  ghost predicate InFlight(w: World, worker: Worker) {
    CurrentTasks(w, worker) == if w.SlotOf(worker).scheduled then 1 else 0
  }

  /** A slot is taken exactly when one task of the current generation is queued for it; the rest are older. */
  ghost predicate SingleFlight(w: World) {
    InFlight(w, RewardSync) && InFlight(w, CarryQuick) && NothingNewer(w)
  }

  const START := World(1, IDLE, IDLE, [], map[])

  function Other(worker: Worker): Worker { if worker.RewardSync? then CarryQuick else RewardSync }

  /** A step of one worker from `w`: it either queues one task and holds its slot, or queues none and frees it. */
  ghost predicate Handed(w: World, w': World, worker: Worker) {
    && w'.generation == w.generation
    && w'.SlotOf(Other(worker)) == w.SlotOf(Other(worker))
    && if w'.SlotOf(worker).scheduled then
         && |w'.queue| == |w.queue| + 1
         && w'.queue == w.queue + [w'.queue[|w.queue|]]
         && w'.queue[|w.queue|].Owner() == worker
         && w'.queue[|w.queue|].generation == w.generation
       else w'.queue == w.queue
  }

  lemma HandedKeepsFlight(w: World, w': World, worker: Worker)
    requires Handed(w, w', worker) && NothingNewer(w)
    requires CurrentTasks(w, worker) == 0 && InFlight(w, Other(worker))
    ensures SingleFlight(w')
  {
    if w'.SlotOf(worker).scheduled {
      var t := w'.queue[|w.queue|];
      SumOfAppend(w.queue, t, IsCurrent(RewardSync, w.generation));
      SumOfAppend(w.queue, t, IsCurrent(CarryQuick, w.generation));
    }
  }

  lemma BumpRetiresEverything(w: World)
    requires NothingNewer(w)
    ensures SingleFlight(Bump(w))
    ensures CurrentTasks(Bump(w), RewardSync) == CurrentTasks(Bump(w), CarryQuick) == 0
  {
    NoneCounted(w.queue, IsCurrent(RewardSync, w.generation + 1));
    NoneCounted(w.queue, IsCurrent(CarryQuick, w.generation + 1));
  }

  lemma RequestKeepsSingleFlight(w: World, worker: Worker, nowMs: nat, queues: bool)
    requires SingleFlight(w)
    ensures SingleFlight(Requested(w, worker, nowMs, queues))
  {
    var action := DecideRequest(w.SlotOf(worker), nowMs, StuckMs(worker));
    if !action.MarkRerun? {
      BumpRetiresEverything(w);
      var w1 := if action.ForceRestartAndStart? then Bump(w) else w;
      HandedKeepsFlight(w1, Requested(w, worker, nowMs, queues), worker);
    }
  }

  /** A task runs for its worker's slot: it is of the current generation and the slot is taken. */
  ghost predicate RunsFor(w: World, t: Task) {
    t.generation == w.generation && w.SlotOf(t.Owner()).scheduled
  }

  lemma StepHandsOver(w: World, t: Task, env: Env)
    requires RunsFor(w, t)
    ensures Handed(w, AfterStep(w, t, env), t.Owner())
  {
  }

  /** Taking a task of the current generation off the queue leaves its worker with none. */
  lemma TakeTask(w: World, i: nat)
    requires SingleFlight(w) && i < |w.queue|
    ensures var t := w.queue[i];
      var taken := w.(queue := Without(w.queue, i));
      && NothingNewer(taken)
      && (t.generation == w.generation ==>
            RunsFor(w, t) && CurrentTasks(taken, t.Owner()) == 0 && InFlight(taken, Other(t.Owner())))
      && (t.generation != w.generation ==> SingleFlight(taken))
  {
    SumWithout(w.queue, i, IsCurrent(RewardSync, w.generation));
    SumWithout(w.queue, i, IsCurrent(CarryQuick, w.generation));
  }

  lemma TaskKeepsSingleFlight(w: World, i: nat, env: Env)
    requires SingleFlight(w) && i < |w.queue|
    ensures SingleFlight(TaskStep(w, i, env))
  {
    hide CurrentTasks;
    var t := w.queue[i];
    var taken := w.(queue := Without(w.queue, i));
    TakeTask(w, i);
    if t.generation == w.generation {
      StepHandsOver(taken, t, env);
      HandedKeepsFlight(taken, TaskStep(w, i, env), t.Owner());
    }
  }

  lemma StepKeepsSingleFlight(w: World, e: Event)
    requires SingleFlight(w)
    ensures SingleFlight(Next(w, e))
  {
    match e
    case Request(worker, nowMs, queues) => RequestKeepsSingleFlight(w, worker, nowMs, queues);
    case LoadReset => BumpRetiresEverything(w);
    case RunTask(i, env) =>
      if i < |w.queue| {
        TaskKeepsSingleFlight(w, i, env);
      }
  }

  /** Single flight in every reachable state, under any mix of requests, resets, tasks and queue failures. */
  lemma {:induction false} AlwaysSingleFlight(w: World, es: seq<Event>)
    requires SingleFlight(w)
    ensures SingleFlight(Run(w, es))
    decreases |es|
  {
    if es != [] {
      StepKeepsSingleFlight(w, es[0]);
      AlwaysSingleFlight(Next(w, es[0]), es[1..]);
    }
  }

  lemma StartIsInFlight()
    ensures SingleFlight(START)
  {
  }

  /**
   * The generation fence: running a queued task that does not carry the current generation only
   * takes it off the queue; after a load reset or a watchdog restart that is every task queued before.
   */
  lemma OlderTasksAreInert(w: World, i: nat, env: Env)
    requires SingleFlight(w) && i < |w.queue|
    ensures w.queue[i].generation != w.generation
        <==> w.queue[i].generation < w.generation
    ensures w.queue[i].generation != w.generation
        ==> TaskStep(w, i, env) == w.(queue := Without(w.queue, i))
    ensures TaskStep(Bump(w), i, env) == Bump(w).(queue := Without(w.queue, i))
  {
  }

  // ---- Rerun requests ----------------------------------------------------------------------

  /** A wish for another run is on record: the flag is up, or a run from scratch is queued and current. */
  ghost predicate Wanted(w: World, worker: Worker) {
    w.SlotOf(worker).rerun || FreshTask(worker, w.generation) in w.queue
  }

  predicate Restarts(w: World, e: Event) {
    e.Request? && DecideRequest(w.SlotOf(e.worker), e.nowMs, StuckMs(e.worker)).ForceRestartAndStart?
  }

  /** The reward worker gives up waiting for the game to become ready. */
  predicate GivesUpWaiting(w: World, e: Event) {
    && e.RunTask? && e.index < |w.queue|
    && var t := w.queue[e.index];
       && t.RewardTask? && t.generation == w.generation && !e.env.ready
       && (e.env.nowMs >= Deadline(t.deadlineMs, e.env.nowMs, REWARD_READINESS_MS) || !e.env.queues)
  }

  lemma EveryRequestIsOnRecord(w: World, worker: Worker, nowMs: nat, queues: bool)
    ensures Wanted(Requested(w, worker, nowMs, queues), worker)
  {
  }

  /** A request restarts a run exactly when it has held its slot too long, and then retires every task queued before. */
  lemma WatchdogRestartsExactlyWhen(w: World, worker: Worker, nowMs: nat, queues: bool)
    requires SingleFlight(w)
    ensures var w' := Requested(w, worker, nowMs, queues);
      && (w'.generation != w.generation
         <==> w.SlotOf(worker).scheduled
              && nowMs > w.SlotOf(worker).sinceMs + if worker.RewardSync? then 15000 else 3000)
      && (w'.generation != w.generation ==> forall t | t in w.queue :: t.generation != w'.generation)
      && (w'.queue != w.queue <==> queues && (w'.generation != w.generation || !w.SlotOf(worker).scheduled))
  {
  }

  /** A load reset drops the flag, and so does a watchdog restart of the other worker: they share one generation. */
  predicate DropsRerun(w: World, worker: Worker, e: Event) {
    || e.LoadReset?
    || (Restarts(w, e) && e.worker != worker)
    || (worker.RewardSync? && GivesUpWaiting(w, e))
  }

  lemma {:induction false} OldTasksAreNotFresh(queue: seq<Task>, worker: Worker, generation: nat)
    requires Sum(queue, IsCurrent(worker, generation)) == 0
    ensures FreshTask(worker, generation) !in queue
  {
    if queue != [] {
      OldTasksAreNotFresh(queue[1..], worker, generation);
    }
  }

  lemma DroppedByBump(w: World, worker: Worker)
    requires NothingNewer(w)
    ensures !Wanted(Bump(w), worker)
  {
  }

  /** What one step of a worker makes of its own raised flag. */
  lemma StepOnRaisedFlag(w: World, t: Task, env: Env)
    requires RunsFor(w, t) && w.SlotOf(t.Owner()).rerun
    requires CurrentTasks(w, t.Owner()) == 0
    ensures var w' := AfterStep(w, t, env);
      Wanted(w', t.Owner())
      <==> !(t.RewardTask? && !env.ready
             && (env.nowMs >= Deadline(t.deadlineMs, env.nowMs, REWARD_READINESS_MS) || !env.queues))
  {
    OldTasksAreNotFresh(w.queue, t.Owner(), w.generation);
  }

  /**
   * A raised rerun flag survives a step, as the flag or as a queued run from scratch, unless the step
   * is a load reset, a watchdog restart of the other worker, or the reward worker giving up on readiness.
   */
  lemma RerunIsLostExactlyWhen(w: World, worker: Worker, e: Event)
    requires SingleFlight(w) && w.SlotOf(worker).rerun
    ensures !Wanted(Next(w, e), worker) <==> DropsRerun(w, worker, e)
  {
    hide CurrentTasks;
    match e
    case LoadReset => DroppedByBump(w, worker);
    case Request(other, nowMs, queues) =>
      DroppedByBump(w, worker);
      EveryRequestIsOnRecord(w, other, nowMs, queues);
    case RunTask(i, env) =>
      if i < |w.queue| {
        TakeTask(w, i);
        var t := w.queue[i];
        var taken := w.(queue := Without(w.queue, i));
        if t.generation == w.generation {
          StepHandsOver(taken, t, env);
          if t.Owner() == worker {
            StepOnRaisedFlag(taken, t, env);
          }
        }
      }
  }

  /** Two reward requests and a carry-weight request, one after the other, as a fresh runtime takes them. */
  const BUSY: seq<Event> := [Request(RewardSync, 0, true), Request(RewardSync, 1, true), Request(CarryQuick, 2, true)]

  /** The loss is reachable: a carry-weight request three seconds later restarts both workers and drops the flag. */
  lemma RewardRerunIsLost()
    ensures var w := Run(START, BUSY);
      var e := Request(CarryQuick, 3003, true);
      && SingleFlight(w) && w.reward.rerun && DropsRerun(w, RewardSync, e)
      && !Wanted(Next(w, e), RewardSync)
  {
    var w1 := Next(START, BUSY[0]);
    var w2 := Next(w1, BUSY[1]);
    var w3 := Next(w2, BUSY[2]);
    assert Run(w3, []) == w3 && BUSY[1..] == [BUSY[1], BUSY[2]] && BUSY[1..][1..] == [BUSY[2]] && [BUSY[2]][1..] == [];
    assert Run(w2, [BUSY[2]]) == w3;
    assert Run(w1, [BUSY[1], BUSY[2]]) == w3;
    assert Run(START, BUSY) == w3;
    StartIsInFlight();
    AlwaysSingleFlight(START, BUSY);
    RerunIsLostExactlyWhen(w3, RewardSync, Request(CarryQuick, 3003, true));
  }

  // ---- Bounded runs ------------------------------------------------------------------------

  function Full(worker: Worker): nat { if worker.RewardSync? then PASS_COUNT else CARRY_MAX_ATTEMPTS }

  /** Ready passes, or counted attempts, a task may still make. */
  function Cost(t: Task): nat {
    match t
    case RewardTask(_, _, _, remaining) => remaining
    case CarryTask(_, _, attempt) => if attempt < CARRY_MAX_ATTEMPTS then CARRY_MAX_ATTEMPTS - attempt else 0
  }

  function CurrentCost(worker: Worker, generation: nat): Task -> nat {
    (t: Task) => if t.Owner() == worker && t.generation == generation then Cost(t) else 0
  }

  /** Passes the run in flight may still make, plus a whole run if a rerun is requested. */
  function Budget(w: World, worker: Worker): nat {
    Sum(w.queue, CurrentCost(worker, w.generation))
    + if w.SlotOf(worker).scheduled && w.SlotOf(worker).rerun then Full(worker) else 0
  }

  predicate Startable(t: Task) { 1 <= Cost(t) <= Full(t.Owner()) }

  ghost predicate AllStartable(w: World) { forall t | t in w.queue :: Startable(t) }

  /** The event is a pass (or a counted attempt) of the run in flight for `worker`. */
  predicate IsPass(w: World, worker: Worker, e: Event) {
    && e.RunTask? && e.index < |w.queue| && e.env.ready
    && w.queue[e.index].Owner() == worker && w.queue[e.index].generation == w.generation
  }

  function Passes(w: World, es: seq<Event>, worker: Worker): nat
    decreases |es|
  {
    if es == [] then 0
    else (if IsPass(w, worker, es[0]) then 1 else 0) + Passes(Next(w, es[0]), es[1..], worker)
  }

  ghost predicate NoRequests(es: seq<Event>) { forall e | e in es :: !e.Request? }

  /** What a step leaves queued costs less than what it ran, or is the rerun that was asked for. */
  lemma StepPaysForItsTask(w: World, t: Task, env: Env)
    requires RunsFor(w, t) && Startable(t)
    ensures var w' := AfterStep(w, t, env);
      var slot := w.SlotOf(t.Owner());
      var slot' := w'.SlotOf(t.Owner());
      && Handed(w, w', t.Owner())
      && (slot'.scheduled ==>
            var added := w'.queue[|w.queue|];
            && Startable(added)
            && Cost(added) + (if slot'.rerun then Full(t.Owner()) else 0) + (if env.ready then 1 else 0)
               <= Cost(t) + (if slot.rerun then Full(t.Owner()) else 0))
  {
    StepHandsOver(w, t, env);
  }

  lemma StepSpendsBudget(w: World, t: Task, env: Env)
    requires RunsFor(w, t) && AllStartable(w) && Startable(t)
    ensures var w' := AfterStep(w, t, env);
      && AllStartable(w')
      && Budget(w', t.Owner()) + (if env.ready then 1 else 0) <= Cost(t) + Budget(w, t.Owner())
      && Budget(w', Other(t.Owner())) <= Budget(w, Other(t.Owner()))
  {
    var w' := AfterStep(w, t, env);
    StepPaysForItsTask(w, t, env);
    hide RewardStep, CarryStep, AfterStep;
    if w'.SlotOf(t.Owner()).scheduled {
      var added := w'.queue[|w.queue|];
      SumOfAppend(w.queue, added, CurrentCost(t.Owner(), w.generation));
      SumOfAppend(w.queue, added, CurrentCost(Other(t.Owner()), w.generation));
    }
  }

  lemma EventSpendsBudget(w: World, e: Event, worker: Worker)
    requires SingleFlight(w) && AllStartable(w) && !e.Request?
    ensures AllStartable(Next(w, e))
    ensures Budget(Next(w, e), worker) + (if IsPass(w, worker, e) then 1 else 0) <= Budget(w, worker)
  {
    hide CurrentTasks;
    match e
    case LoadReset => NoneCounted(w.queue, CurrentCost(worker, w.generation + 1));
    case RunTask(i, env) =>
      if i < |w.queue| {
        TakeTask(w, i);
        var t := w.queue[i];
        SumWithout(w.queue, i, CurrentCost(worker, w.generation));
        if t.generation == w.generation {
          StepSpendsBudget(w.(queue := Without(w.queue, i)), t, env);
        }
      }
  }

  /** Without new requests, whatever else happens, no more passes are made than were budgeted at the start. */
  lemma {:induction false} RunsAreBounded(w: World, es: seq<Event>, worker: Worker)
    requires SingleFlight(w) && AllStartable(w) && NoRequests(es)
    ensures Passes(w, es, worker) + Budget(Run(w, es), worker) <= Budget(w, worker)
    decreases |es|
  {
    if es != [] {
      StepKeepsSingleFlight(w, es[0]);
      EventSpendsBudget(w, es[0], worker);
      RunsAreBounded(Next(w, es[0]), es[1..], worker);
    }
  }

  lemma {:induction false} CurrentLoadIsOneRun(queue: seq<Task>, worker: Worker, generation: nat)
    requires forall t | t in queue :: Startable(t)
    ensures Sum(queue, IsCurrent(worker, generation)) == 0 ==> Sum(queue, CurrentCost(worker, generation)) == 0
    ensures Sum(queue, IsCurrent(worker, generation)) == 1 ==>
      Sum(queue, CurrentCost(worker, generation)) <= Full(worker)
  {
    if queue != [] {
      assert Startable(queue[0]);
      CurrentLoadIsOneRun(queue[1..], worker, generation);
    }
  }

  lemma RequestKeepsStartable(w: World, e: Event)
    requires AllStartable(w) && e.Request?
    ensures AllStartable(Next(w, e))
  {
  }

  lemma {:induction false} AlwaysStartable(w: World, es: seq<Event>)
    requires SingleFlight(w) && AllStartable(w)
    ensures AllStartable(Run(w, es))
    decreases |es|
  {
    if es != [] {
      StepKeepsSingleFlight(w, es[0]);
      if es[0].Request? {
        RequestKeepsStartable(w, es[0]);
      } else {
        EventSpendsBudget(w, es[0], RewardSync);
      }
      AlwaysStartable(Next(w, es[0]), es[1..]);
    }
  }

  /**
   * From any reachable state, a stretch without requests makes at most 180 ready passes (3 counted
   * attempts for carry weight), or twice that when a rerun was already asked for.
   */
  lemma ReachableRunsAreBounded(before: seq<Event>, es: seq<Event>, worker: Worker)
    requires NoRequests(es)
    ensures var w := Run(START, before);
      Passes(w, es, worker) <= (if !w.SlotOf(worker).scheduled then 0
                                else if w.SlotOf(worker).rerun then 2 * Full(worker) else Full(worker))
  {
    StartIsInFlight();
    AlwaysSingleFlight(START, before);
    AlwaysStartable(START, before);
    var w := Run(START, before);
    RunsAreBounded(w, es, worker);
    CurrentLoadIsOneRun(w.queue, worker, w.generation);
    assert InFlight(w, worker);
  }

  // ---- Requests and ends of runs, exactly ----------------------------------------------------

  /** A run from the start, in numbers. */
  function FirstTask(worker: Worker, generation: nat): Task {
    if worker.RewardSync? then RewardTask(generation, 0, PassState(map[], {}, true), 180)
    else CarryTask(generation, 0, 0)
  }

  /**
   * What a request does: a run under way only gets its flag raised; else one is started and stamped with the
   * time, after a restart of both workers if the one under way is stuck; if the queue refuses, the wish is kept.
   */
  lemma RequestExactly(w: World, worker: Worker, nowMs: nat, queues: bool)
    ensures var slot := w.SlotOf(worker);
      var stuck := slot.scheduled && nowMs > slot.sinceMs + if worker.RewardSync? then 15000 else 3000;
      var from := if stuck then World(w.generation + 1, IDLE, IDLE, w.queue, w.sheet) else w;
      Requested(w, worker, nowMs, queues)
        == if slot.scheduled && !stuck then w.WithSlot(worker, Slot(true, true, slot.sinceMs))
           else if queues then
             from.WithSlot(worker, Slot(true, from.SlotOf(worker).rerun, nowMs))
                 .(queue := w.queue + [FirstTask(worker, from.generation)])
           else from.WithSlot(worker, Slot(false, true, 0))
  {
  }

  /** How a run ends: its slot is free, or a rerun asked for meanwhile is started, or kept as a wish. */
  lemma RunEndsExactly(w: World, i: nat, env: Env)
    requires SingleFlight(w) && i < |w.queue| && w.queue[i].generation == w.generation
    requires env.ready && (env.effect.finished || Cost(w.queue[i]) <= 1)
    ensures var worker := w.queue[i].Owner();
      var rest := w.(sheet := env.effect.sheet, queue := Without(w.queue, i));
      TaskStep(w, i, env)
        == if !w.SlotOf(worker).rerun then rest.WithSlot(worker, Slot(false, false, 0))
           else if env.queues then
             rest.WithSlot(worker, Slot(true, false, env.nowMs))
                 .(queue := rest.queue + [FirstTask(worker, w.generation)])
           else rest.WithSlot(worker, Slot(false, true, 0))
  {
    TakeTask(w, i);
  }

  // ---- Progress ----------------------------------------------------------------------------

  lemma {:induction false} NoneCurrent(queue: seq<Task>, worker: Worker, generation: nat)
    requires Sum(queue, IsCurrent(worker, generation)) == 0
    ensures forall t | t in queue :: !(t.Owner() == worker && t.generation == generation)
  {
    if queue != [] {
      NoneCurrent(queue[1..], worker, generation);
    }
  }

  /** A taken slot has its task in the queue, so a run under way can always be worked on. */
  lemma {:induction false} TaskIsQueued(queue: seq<Task>, worker: Worker, generation: nat)
    requires Sum(queue, IsCurrent(worker, generation)) > 0
    ensures exists t :: t in queue && t.Owner() == worker && t.generation == generation
  {
    if queue[0].Owner() == worker && queue[0].generation == generation {
      assert queue[0] in queue;
    } else {
      TaskIsQueued(queue[1..], worker, generation);
      var t :| t in queue[1..] && t.Owner() == worker && t.generation == generation;
      assert t in queue;
    }
  }

  /** What a pass or an attempt that left work passes on: what was learned, and one turn less. */
  function Continued(t: Task, effect: Effect): Task
    requires Cost(t) > 1
  {
    match t
    case RewardTask(generation, deadlineMs, _, remaining) =>
      RewardTask(generation, deadlineMs, effect.state, remaining - 1)
    case CarryTask(generation, deadlineMs, attempt) => CarryTask(generation, deadlineMs, attempt + 1)
  }

  /** An unfinished pass with turns left and a queue that accepts goes on: the slot stays taken, one task is queued. */
  lemma UnfinishedPassGoesOn(w: World, i: nat, env: Env)
    requires SingleFlight(w) && i < |w.queue| && w.queue[i].generation == w.generation
    requires env.ready && !env.effect.finished && env.queues && Cost(w.queue[i]) > 1
    ensures var t := w.queue[i];
      var w' := TaskStep(w, i, env);
      && w.SlotOf(t.Owner()).scheduled
      && w' == w.(sheet := env.effect.sheet, queue := Without(w.queue, i) + [Continued(t, env.effect)])
      && CurrentTasks(w', t.Owner()) == 1
  {
    TakeTask(w, i);
    SumOfAppend(Without(w.queue, i), Continued(w.queue[i], env.effect), IsCurrent(w.queue[i].Owner(), w.generation));
  }

  /** After a ready pass the slot is still taken exactly when the queue accepted and there is a next pass or a rerun. */
  lemma ReadyPassKeepsSlotExactlyWhen(w: World, i: nat, env: Env)
    requires SingleFlight(w) && i < |w.queue| && w.queue[i].generation == w.generation && env.ready
    ensures var t := w.queue[i];
      var w' := TaskStep(w, i, env);
      && w'.sheet == env.effect.sheet
      && (w'.SlotOf(t.Owner()).scheduled <==>
            env.queues && ((!env.effect.finished && Cost(t) > 1) || w.SlotOf(t.Owner()).rerun))
  {
    TakeTask(w, i);
  }

  /**
   * Waiting for the game: a task that is not ready goes back into the queue unchanged until 20 seconds (10 for
   * carry weight) after it was first found not ready, unless the queue refuses it; nothing is done to the player.
   */
  lemma WaitsForReadinessExactly(w: World, i: nat, env: Env)
    requires SingleFlight(w) && i < |w.queue| && w.queue[i].generation == w.generation && !env.ready
    ensures var t := w.queue[i];
      var w' := TaskStep(w, i, env);
      var until := if t.deadlineMs == 0 then env.nowMs + (if t.RewardTask? then 20000 else 10000) else t.deadlineMs;
      && w'.sheet == w.sheet
      && (env.nowMs < until && env.queues ==>
            w' == w.(queue := Without(w.queue, i) + [t.(deadlineMs := until)]))
      && (!(env.nowMs < until && env.queues) ==>
            (t.RewardTask? || !w.carry.rerun ==>
              w' == Release(w.(queue := Without(w.queue, i)), t.Owner())))
  {
    TakeTask(w, i);
  }

  /** A pass that leaves work behind, of the run in flight, with a queue that accepts the next one. */
  predicate IsUnfinishedPass(w: World, worker: Worker, e: Event) {
    IsPass(w, worker, e) && e.env.queues && !e.env.effect.finished
  }

  predicate NeverFinishes(w: World, worker: Worker, es: seq<Event>)
    decreases |es|
  {
    es == [] || (IsUnfinishedPass(w, worker, es[0]) && NeverFinishes(Next(w, es[0]), worker, es[1..]))
  }

  lemma BudgetIsTheTask(w: World, i: nat)
    requires SingleFlight(w) && i < |w.queue| && w.queue[i].generation == w.generation
    requires !w.SlotOf(w.queue[i].Owner()).rerun
    ensures Budget(w, w.queue[i].Owner()) == Cost(w.queue[i])
  {
    var worker := w.queue[i].Owner();
    TakeTask(w, i);
    NoneCurrent(Without(w.queue, i), worker, w.generation);
    SumWithout(w.queue, i, CurrentCost(worker, w.generation));
    NoneCounted(Without(w.queue, i), CurrentCost(worker, w.generation));
  }

  lemma UnfinishedPassSpendsOne(w: World, worker: Worker, e: Event)
    requires SingleFlight(w) && AllStartable(w) && !w.SlotOf(worker).rerun && IsUnfinishedPass(w, worker, e)
    ensures var w' := Next(w, e);
      && SingleFlight(w') && AllStartable(w') && !w'.SlotOf(worker).rerun
      && Budget(w, worker) >= 1
      && (w'.SlotOf(worker).scheduled <==> Budget(w, worker) > 1)
      && (w'.SlotOf(worker).scheduled ==> Budget(w', worker) == Budget(w, worker) - 1)
  {
    var t := w.queue[e.index];
    StepKeepsSingleFlight(w, e);
    EventSpendsBudget(w, e, worker);
    BudgetIsTheTask(w, e.index);
    assert Startable(t);
    ReadyPassKeepsSlotExactlyWhen(w, e.index, e.env);
    hide CurrentTasks, Budget, SingleFlight, AllStartable;
    if Cost(t) > 1 {
      UnfinishedPassGoesOn(w, e.index, e.env);
      var w' := Next(w, e);
      var last := |w'.queue| - 1;
      assert w'.queue[last] == Continued(t, e.env.effect);
      BudgetIsTheTask(w', last);
    } else {
      TakeTask(w, e.index);
    }
  }

  /** Passes that always leave work are made to the last one budgeted, and then the slot is free. */
  lemma {:induction false} UnfinishedRunMakesAll(w: World, worker: Worker, es: seq<Event>)
    requires SingleFlight(w) && AllStartable(w) && w.SlotOf(worker).scheduled && !w.SlotOf(worker).rerun
    requires NeverFinishes(w, worker, es)
    ensures |es| <= Budget(w, worker) && (Run(w, es).SlotOf(worker).scheduled <==> |es| < Budget(w, worker))
    decreases |es|
  {
    hide SingleFlight, AllStartable, Budget, IsUnfinishedPass, Next;
    TakenSlotHasBudget(w, worker);
    if es != [] {
      UnfinishedPassSpendsOne(w, worker, es[0]);
      var w' := Next(w, es[0]);
      if w'.SlotOf(worker).scheduled {
        UnfinishedRunMakesAll(w', worker, es[1..]);
      } else {
        assert Run(w', []) == w';
        if es[1..] != [] {
          FreeSlotMakesNoPass(w', worker, es[1..][0]);
        }
      }
    }
  }

  lemma TakenSlotHasBudget(w: World, worker: Worker)
    requires SingleFlight(w) && AllStartable(w) && w.SlotOf(worker).scheduled && !w.SlotOf(worker).rerun
    ensures Budget(w, worker) >= 1
  {
    assert InFlight(w, worker);
    TaskIsQueued(w.queue, worker, w.generation);
    var t :| t in w.queue && t.Owner() == worker && t.generation == w.generation;
    var i :| 0 <= i < |w.queue| && w.queue[i] == t;
    BudgetIsTheTask(w, i);
    assert Startable(t);
  }

  lemma FreeSlotMakesNoPass(w: World, worker: Worker, e: Event)
    requires SingleFlight(w) && !w.SlotOf(worker).scheduled
    ensures !IsUnfinishedPass(w, worker, e)
  {
    assert InFlight(w, worker);
    NoneCurrent(w.queue, worker, w.generation);
  }

  /** From a request on a free slot, in any reachable state: exactly 180 passes, exactly 3 carry-weight attempts. */
  lemma UnfinishedRunMakesExactly(before: seq<Event>, worker: Worker, nowMs: nat, es: seq<Event>)
    requires var w := Run(START, before); !w.SlotOf(worker).scheduled && !w.SlotOf(worker).rerun
    requires NeverFinishes(Requested(Run(START, before), worker, nowMs, true), worker, es)
    ensures var all := if worker.RewardSync? then 180 else 3;
      |es| <= all
      && (Run(Requested(Run(START, before), worker, nowMs, true), es).SlotOf(worker).scheduled <==> |es| < all)
  {
    StartIsInFlight();
    AlwaysSingleFlight(START, before);
    AlwaysStartable(START, before);
    var w := Run(START, before);
    var e := Request(worker, nowMs, true);
    StepKeepsSingleFlight(w, e);
    RequestKeepsStartable(w, e);
    var from := Requested(w, worker, nowMs, true);
    assert from.queue[|w.queue|] == FreshTask(worker, w.generation);
    BudgetIsTheTask(from, |w.queue|);
    assert Cost(FreshTask(worker, w.generation)) == if worker.RewardSync? then 180 else 3;
    hide Requested, Run, SingleFlight, AllStartable, Budget, NeverFinishes;
    UnfinishedRunMakesAll(from, worker, es);
  }

  // ---- The same steps, in place ------------------------------------------------------------

  class SyncSlot {
    var scheduled: bool
    var rerunRequested: bool
    var scheduledSinceMs: nat

    function Value(): Slot reads this { Slot(scheduled, rerunRequested, scheduledSinceMs) }

    constructor ()
      ensures Value() == IDLE
    {
      scheduled, rerunRequested, scheduledSinceMs := false, false, 0;
    }

    method Clear()
      modifies this
      ensures Value() == IDLE
    {
      scheduled, rerunRequested, scheduledSinceMs := false, false, 0;
    }

    method TryStart(nowMs: nat) returns (started: bool)
      modifies this
      ensures started == !old(scheduled)
      ensures Value() ==
        if started then old(Value()).(scheduled := true, sinceMs := nowMs) else old(Value()).(rerun := true)
    {
      if scheduled {
        rerunRequested := true;
        return false;
      }
      scheduled := true;
      scheduledSinceMs := nowMs;
      return true;
    }
  }

  class SyncRuntime {
    const reward: SyncSlot
    const carry: SyncSlot
    var generation: nat
    var queue: seq<Task>
    var sheet: Sheet

    ghost predicate Valid() { reward != carry }

    function Value(): World
      reads this, reward, carry
    {
      World(generation, reward.Value(), carry.Value(), queue, sheet)
    }

    constructor ()
      ensures Valid() && fresh(reward) && fresh(carry) && Value() == START
    {
      reward := new SyncSlot();
      carry := new SyncSlot();
      generation, queue, sheet := 1, [], map[];
    }

    function SlotOf(worker: Worker): SyncSlot { if worker.RewardSync? then reward else carry }

    method QueueMainTask(task: Task, succeeds: bool) returns (queued: bool)
      requires Valid()
      modifies this`queue
      ensures queued == succeeds
      ensures Value() == if succeeds then old(Value()).(queue := old(queue) + [task]) else old(Value())
    {
      if succeeds {
        queue := queue + [task];
      }
      return succeeds;
    }

    method BumpGenerationAndClearSchedulers()
      requires Valid()
      modifies this`generation, reward, carry
      ensures Value() == Bump(old(Value()))
    {
      generation := generation + 1;
      reward.Clear();
      carry.Clear();
    }

    /** A completed run clears its slot, unless a newer generation owns it. */
    method CompleteRun(worker: Worker, ofGeneration: nat)
      requires Valid()
      modifies reward, carry
      ensures Value() == if ofGeneration == generation then Release(old(Value()), worker) else old(Value())
    {
      if ofGeneration == generation {
        var slot := SlotOf(worker);
        slot.Clear();
      }
    }

    method CompleteAndDefer(worker: Worker)
      requires Valid()
      modifies reward, carry
      ensures Value() == Defer(old(Value()), worker)
    {
      CompleteRun(worker, generation);
      var slot := SlotOf(worker);
      slot.rerunRequested := true;
    }

    /** Ask for a run of either worker: start it, mark a rerun, or restart a run that looks stuck. */
    method RequestRun(worker: Worker, nowMs: nat, queues: bool)
      requires Valid()
      modifies this, reward, carry
      ensures Value() == Requested(old(Value()), worker, nowMs, queues)
    {
      var slot := SlotOf(worker);
      if DecideRequest(slot.Value(), nowMs, StuckMs(worker)).ForceRestartAndStart? {
        BumpGenerationAndClearSchedulers();
      }
      var started := slot.TryStart(nowMs);
      if !started {
        return;
      }
      var queued := QueueMainTask(FreshTask(worker, generation), queues);
      if !queued {
        CompleteAndDefer(worker);
      }
    }

    /** The end of a run: a requested rerun is consumed and queued, else the slot is released. */
    method FinishRun(worker: Worker, nowMs: nat, queues: bool)
      requires Valid()
      modifies this, reward, carry
      ensures Value() == RerunOrRelease(old(Value()), worker, nowMs, queues)
    {
      var slot := SlotOf(worker);
      if !slot.rerunRequested {
        CompleteRun(worker, generation);
        return;
      }
      slot.rerunRequested := false;
      slot.scheduledSinceMs := nowMs;
      var queued := QueueMainTask(FreshTask(worker, generation), queues);
      if !queued {
        CompleteAndDefer(worker);
      }
    }

    method RunRewardSyncPasses(t: Task, env: Env)
      requires Valid() && t.RewardTask?
      modifies this, reward, carry
      ensures Value() == RewardStep(old(Value()), t, env)
    {
      if t.generation != generation {
        return;
      }
      if !env.ready {
        var deadline := Deadline(t.deadlineMs, env.nowMs, REWARD_READINESS_MS);
        var queued := false;
        if env.nowMs < deadline {
          queued := QueueMainTask(RewardTask(t.generation, deadline, t.state, t.remaining), env.queues);
        }
        if !queued {
          CompleteRun(RewardSync, t.generation);
        }
        return;
      }
      sheet := env.effect.sheet;
      if env.effect.finished || t.remaining <= 1 {
        FinishRun(RewardSync, env.nowMs, env.queues);
        return;
      }
      var continued := QueueMainTask(t.(state := env.effect.state, remaining := t.remaining - 1), env.queues);
      if !continued {
        CompleteAndDefer(RewardSync);
      }
    }

    method RunCarryWeightQuickResync(t: Task, env: Env)
      requires Valid() && t.CarryTask?
      modifies this, reward, carry
      ensures Value() == CarryStep(old(Value()), t, env)
    {
      if t.generation != generation {
        return;
      }
      if !env.ready {
        var deadline := Deadline(t.deadlineMs, env.nowMs, CARRY_READINESS_MS);
        if env.nowMs >= deadline {
          FinishRun(CarryQuick, env.nowMs, env.queues);
          return;
        }
        var waiting := QueueMainTask(CarryTask(t.generation, deadline, t.attempt), env.queues);
        if !waiting {
          FinishRun(CarryQuick, env.nowMs, env.requeues);
        }
        return;
      }
      sheet := env.effect.sheet;
      if env.effect.finished || t.attempt + 1 >= CARRY_MAX_ATTEMPTS {
        FinishRun(CarryQuick, env.nowMs, env.queues);
        return;
      }
      var retried := QueueMainTask(t.(attempt := t.attempt + 1), env.queues);
      if !retried {
        CompleteAndDefer(CarryQuick);
      }
    }

    /** The main thread takes one queued task and runs it. */
    method RunTask(i: nat, env: Env)
      requires Valid() && i < |queue|
      modifies this, reward, carry
      ensures Value() == TaskStep(old(Value()), i, env)
    {
      var t := queue[i];
      queue := Without(queue, i);
      if t.RewardTask? {
        RunRewardSyncPasses(t, env);
      } else {
        RunCarryWeightQuickResync(t, env);
      }
    }
  }
}
