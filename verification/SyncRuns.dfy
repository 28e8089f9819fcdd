// The two reward workers with the arithmetic they run: every pass and every attempt does to the
// player what the pass engine and the carry-weight resync compute.
//
// From a request with the slot free the scheduled run then makes at most four passes, six where
// shout recovery is tracked, and the carry-weight resync makes one attempt.
module SyncRuns {
  import opened ActorValues
  import opened Actors
  import opened RewardsResync
  import opened SeqSums
  import opened SyncEngine
  import opened SyncScheduler

  // ---- One attempt of the carry-weight resync ------------------------------------------------

  datatype Attempt = Attempt(views: Views, done: bool)

  /** Nothing to give, nothing missing, or one correction, moved out of the temporary channel where that holds it. */
  function CarryAttempt(total: real, v: Views): Attempt {
    if Abs(total) <= EPSILON then Attempt(v, true)
    else
      var delta := CarryWeightDelta(v, total);
      if Abs(delta) <= EPSILON then Attempt(v, true)
      else
        var w := Applied(v, delta);
        Attempt(w, Abs(CarryWeightDelta(w, total)) <= EPSILON)
  }

  /** The stored total of one actor value as the passes see it; none counts as zero. */
  function TotalFor(store: Totals, av: ActorValue): real {
    if av in EffectiveTotals(store) then EffectiveTotals(store)[av] else 0.0
  }

  /** A ready attempt always finishes, and leaves nothing for the next pass or attempt to correct. */
  lemma OneAttemptIsEnough(total: real, v: Views)
    ensures var a := CarryAttempt(total, v);
      && a.done && a.views == End(CARRY_WEIGHT, total, v) && Reached(CARRY_WEIGHT, total, a.views)
      && CarryAttempt(total, a.views) == a
      && (Reached(CARRY_WEIGHT, total, v) ==> a.views == v)
  {
    CarryWeightDeltaExactly(v, total);
    hide SelectObserved;
  }

  method TryCarryWeightQuickResyncAttempt(actor: Actor, store: Totals) returns (done: bool)
    modifies actor
    ensures var a := CarryAttempt(TotalFor(store, CARRY_WEIGHT), ViewOf(old(actor.sheet), CARRY_WEIGHT));
      done == a.done && ViewOf(actor.sheet, CARRY_WEIGHT) == a.views
    ensures forall av: ActorValue | av != CARRY_WEIGHT :: ViewOf(actor.sheet, av) == ViewOf(old(actor.sheet), av)
  {
    var total := TotalFor(store, CARRY_WEIGHT);
    if Abs(total) <= EPSILON {
      return true;
    }
    var v := ViewOf(actor.sheet, CARRY_WEIGHT);
    var delta := CarryWeightDelta(v, total);
    if Abs(delta) <= EPSILON {
      return true;
    }
    actor.RestoreActorValue(CARRY_WEIGHT, delta);
    if v.permanentModifier <= EPSILON && delta > EPSILON {
      if v.temporary >= delta - EPSILON {
        actor.ModActorValue(CARRY_WEIGHT, -delta);
      }
    }
    return Abs(CarryWeightDelta(ViewOf(actor.sheet, CARRY_WEIGHT), total)) <= EPSILON;
  }

  // ---- What a pass does to the player, the store and the run's memory ------------------------

  function StateAt(sheet: Sheet, state: PassState, av: ActorValue): AvState {
    AvState(ViewOf(sheet, av), CountOf(state.streaks, av), av in state.nonConverging)
  }

  function PreparedAt(store: Totals, sheet: Sheet, av: ActorValue): Prepared
    requires av in store
  {
    PrepareOne(av, store[av], ViewOf(sheet, av))
  }

  function PreparedStore(store: Totals, sheet: Sheet): Totals {
    map av | av in store && PreparedAt(store, sheet, av).total.Some? :: PreparedAt(store, sheet, av).total.value
  }

  function PreparedSheet(store: Totals, sheet: Sheet): Sheet {
    sheet + map av | av in store :: PreparedAt(store, sheet, av).views
  }

  /** The first pass of a run prepares the store and the player; the others find them prepared. */
  function PassStore(store: Totals, sheet: Sheet, state: PassState): Totals {
    if state.normalizeFirst then PreparedStore(store, sheet) else store
  }

  function PassSheet(store: Totals, sheet: Sheet, state: PassState): Sheet {
    if state.normalizeFirst then PreparedSheet(store, sheet) else sheet
  }

  /** The effect of a reward task's pass is that of the pass engine. */
  ghost predicate FaithfulPass(sheet: Sheet, store: Totals, state: PassState, effect: Effect) {
    var totals := EffectiveTotals(PassStore(store, sheet, state));
    var at := PassSheet(store, sheet, state);
    && !effect.state.normalizeFirst
    && (forall av | av in totals ::
          StateAt(effect.sheet, effect.state, av) == PassOne(av, totals[av], StateAt(at, state, av)).next)
    && (forall av: ActorValue | av !in totals :: StateAt(effect.sheet, effect.state, av) == StateAt(at, state, av))
    && (effect.finished <==> forall av | av in totals :: LeavesAlone(av, totals[av], StateAt(at, state, av)))
  }

  predicate LeavesAlone(av: ActorValue, total: real, s: AvState) {
    var o := PassOne(av, total, s);
    !o.corrected && !o.pending
  }

  /** The effect of a carry-weight task is that of one attempt. */
  ghost predicate FaithfulAttempt(sheet: Sheet, store: Totals, effect: Effect) {
    var a := CarryAttempt(TotalFor(store, CARRY_WEIGHT), ViewOf(sheet, CARRY_WEIGHT));
    && effect.finished == a.done && ViewOf(effect.sheet, CARRY_WEIGHT) == a.views
    && forall av: ActorValue | av != CARRY_WEIGHT :: ViewOf(effect.sheet, av) == ViewOf(sheet, av)
  }

  function EffectOf(values: StateMap, finished: bool): Effect {
    Effect(map av | av in values :: values[av].views,
           PassState(map av | av in values :: values[av].streak, set av | av in values && values[av].skipped, false),
           finished)
  }

  lemma EffectHolds(values: StateMap, finished: bool, av: ActorValue)
    ensures StateAt(EffectOf(values, finished).sheet, EffectOf(values, finished).state, av) == ValueOf(values, av)
  {
  }

  method ResumeRun(sheet: Sheet, store: Totals, state: PassState) returns (run: SyncRun, store': Totals)
    ensures fresh(run) && store' == PassStore(store, sheet, state)
    ensures forall av: ActorValue :: ValueOf(run.values, av) == StateAt(PassSheet(store, sheet, state), state, av)
  {
    hide PrepareOne;
    run := new SyncRun.Resume(sheet, state.streaks, state.nonConverging);
    store' := store;
    if state.normalizeFirst {
      store' := run.Prepare(store);
      PreparedByLoop(store, sheet, store');
    }
  }

  /** The pass engine carries out every pass: whatever a task remembers, there is a faithful effect, and this is it. */
  method RunPass(sheet: Sheet, store: Totals, state: PassState) returns (effect: Effect, store': Totals)
    ensures FaithfulPass(sheet, store, state, effect) && store' == PassStore(store, sheet, state)
  {
    hide PassOne, PassSheet, PassStore, StateAt, ShouldStop, EffectOf, EffectiveTotals, SyncEngine.IsPass;
    var run;
    run, store' := ResumeRun(sheet, store, state);
    ghost var before, counts := run.values, run.corrections;
    var corrected, pending := run.ApplyPass(EffectiveTotals(store'));
    effect := EffectOf(run.values, ShouldStop(corrected, pending));
    PassIsFaithful(sheet, store, state, before, counts, run.values, run.corrections, ShouldStop(corrected, pending));
  }

  lemma PassIsFaithful(sheet: Sheet, store: Totals, state: PassState, before: StateMap, counts: CountMap,
      after: StateMap, counts': CountMap, finished: bool)
    requires var totals := EffectiveTotals(PassStore(store, sheet, state));
      && SyncEngine.IsPass(totals, before, counts, after, counts') && (finished <==> IsCleanPass(totals, before))
      && forall av: ActorValue | av !in totals :: ValueOf(after, av) == ValueOf(before, av)
    requires forall av: ActorValue :: ValueOf(before, av) == StateAt(PassSheet(store, sheet, state), state, av)
    ensures FaithfulPass(sheet, store, state, EffectOf(after, finished))
  {
    hide PassOne, PassSheet, PassStore, StateAt, EffectiveTotals, EffectOf;
    var effect := EffectOf(after, finished);
    forall av: ActorValue ensures StateAt(effect.sheet, effect.state, av) == ValueOf(after, av) {
      EffectHolds(after, finished, av);
    }
    assert !effect.state.normalizeFirst && effect.finished == finished by { EffectKeeps(after, finished); }
  }

  lemma EffectKeeps(values: StateMap, finished: bool)
    ensures !EffectOf(values, finished).state.normalizeFirst && EffectOf(values, finished).finished == finished
  {
  }

  lemma PreparedByLoop(store: Totals, sheet: Sheet, prepared: Totals)
    requires forall av | av in store :: TotalAt(prepared, av) == PreparedAt(store, sheet, av).total
    requires forall av | av !in store :: av !in prepared
    ensures prepared == PreparedStore(store, sheet)
  {
    hide PreparedAt;
    assert prepared.Keys == PreparedStore(store, sheet).Keys;
    forall av | av in prepared ensures prepared[av] == PreparedStore(store, sheet)[av] {
      assert TotalAt(prepared, av) == PreparedAt(store, sheet, av).total;
    }
  }

  // ---- Whole runs --------------------------------------------------------------------------

  predicate RunsCurrent(w: World, e: Event) {
    e.RunTask? && e.index < |w.queue| && w.queue[e.index].generation == w.generation && e.env.ready
  }

  ghost predicate FaithfulEvent(w: World, store: Totals, e: Event) {
    RunsCurrent(w, e) ==>
      match w.queue[e.index]
      case RewardTask(_, _, state, _) => FaithfulPass(w.sheet, store, state, e.env.effect)
      case CarryTask(_, _, _) => FaithfulAttempt(w.sheet, store, e.env.effect)
  }

  function StoreAfter(w: World, store: Totals, e: Event): Totals {
    if RunsCurrent(w, e) && w.queue[e.index].RewardTask? then PassStore(store, w.sheet, w.queue[e.index].state)
    else store
  }

  /** The main thread takes one queued task and runs it: a ready one does what the engine or the resync computes. */
  method RunQueuedTask(runtime: SyncRuntime, store: Totals, i: nat, ready: bool, nowMs: nat, queues: bool,
      requeues: bool)
    returns (store': Totals, env: Env)
    requires runtime.Valid() && i < |runtime.queue|
    modifies runtime, runtime.reward, runtime.carry
    ensures env.ready == ready && env.nowMs == nowMs && env.queues == queues && env.requeues == requeues
    ensures FaithfulEvent(old(runtime.Value()), store, RunTask(i, env))
    ensures store' == StoreAfter(old(runtime.Value()), store, RunTask(i, env))
    ensures runtime.Value() == TaskStep(old(runtime.Value()), i, env)
  {
    hide FaithfulPass, PassStore, CarryAttempt, TaskStep;
    var t := runtime.queue[i];
    store' := store;
    var effect := Effect(runtime.sheet, FRESH_PASSES, false);
    if ready && t.generation == runtime.generation {
      if t.RewardTask? {
        effect, store' := RunPass(runtime.sheet, store, t.state);
      } else {
        var actor := new Actor(runtime.sheet);
        var done := TryCarryWeightQuickResyncAttempt(actor, store);
        effect := Effect(actor.sheet, FRESH_PASSES, done);
      }
    }
    env := Env(ready, nowMs, queues, requeues, effect);
    runtime.RunTask(i, env);
  }

  /** Every ready task of the run does what the engine computes; nothing else changes the player or the store. */
  ghost predicate Faithful(w: World, store: Totals, es: seq<Event>)
    decreases |es|
  {
    es == [] || (FaithfulEvent(w, store, es[0]) && Faithful(Next(w, es[0]), StoreAfter(w, store, es[0]), es[1..]))
  }

  ghost predicate NoRequestsFor(es: seq<Event>, worker: Worker) {
    forall e | e in es :: !(e.Request? && e.worker == worker)
  }

  /** Some pass of the reward run neither corrected anything nor left anything waiting. */
  predicate Converged(w: World, es: seq<Event>)
    decreases |es|
  {
    es != [] && ((SyncScheduler.IsPass(w, RewardSync, es[0]) && es[0].env.effect.finished)
                 || Converged(Next(w, es[0]), es[1..]))
  }

  /** The store and the player when the run was asked for. */
  datatype Start = Start(store: Totals, sheet: Sheet)

  function Tracked(c: Start): Totals { EffectiveTotals(PreparedStore(c.store, c.sheet)) }

  function FirstViews(c: Start, av: ActorValue): Views {
    if av in c.store then PreparedAt(c.store, c.sheet, av).views else ViewOf(c.sheet, av)
  }

  function PassLimit(c: Start): nat { if SHOUT_RECOVERY_MULT in Tracked(c) then 6 else 4 }

  /** No capped reward among the tracked ones is one that a correction leaves short. */
  ghost predicate NoneStaysShort(c: Start) {
    forall av | av in Tracked(c) :: !StaysShort(av, Tracked(c)[av], FirstViews(c, av))
  }

  /** Every tracked reward has been brought in: given once what it lacked when the run was asked for, or left alone. */
  ghost predicate Settled(c: Start, sheet: Sheet) {
    forall av | av in Tracked(c) :: BroughtIn(av, Tracked(c)[av], FirstViews(c, av), ViewOf(sheet, av))
  }

  predicate ShapedWith(k: nat, av: ActorValue, total: real, start: Views, s: AvState, corrections: nat) {
    Shape(k, av, total, start, s, corrections) && Traced(av, total, start, s, corrections)
  }

  predicate Shaped(k: nat, av: ActorValue, total: real, start: Views, s: AvState) {
    ShapedWith(k, av, total, start, s, 0) || ShapedWith(k, av, total, start, s, 1)
  }

  predicate ShapedAt(c: Start, k: nat, av: ActorValue, s: AvState)
    requires av in Tracked(c)
  {
    Shaped(k, av, Tracked(c)[av], FirstViews(c, av), s)
  }

  ghost predicate AllShaped(c: Start, k: nat, sheet: Sheet, state: PassState) {
    forall av | av in Tracked(c) :: ShapedAt(c, k, av, StateAt(sheet, state, av))
  }

  /**
   * Before its first pass the run finds the player as at the request, but for what the resync did to the
   * carry weight.
   */
  ghost predicate Untouched(c: Start, sheet: Sheet) {
    && (forall av: ActorValue | av != CARRY_WEIGHT :: ViewOf(sheet, av) == ViewOf(c.sheet, av))
    && (CARRY_WEIGHT in Tracked(c) ==> ShapedAt(c, 0, CARRY_WEIGHT, AvState(ViewOf(sheet, CARRY_WEIGHT), 0, false)))
  }

  /** Where the run stands after `k` passes. */
  ghost predicate Stands(c: Start, sheet: Sheet, store: Totals, state: PassState, k: nat) {
    if k == 0 then state == FRESH_PASSES && store == c.store && Untouched(c, sheet)
    else !state.normalizeFirst && store == PreparedStore(c.store, c.sheet) && AllShaped(c, k, sheet, state)
  }

  // ---- One pass ----------------------------------------------------------------------------

  lemma PreparedTotalsIgnoreViews(store: Totals, a: Sheet, b: Sheet)
    ensures PreparedStore(store, a) == PreparedStore(store, b)
  {
    hide SelectObserved, ClampRewardTotal, CapNormalizationDelta;
  }

  lemma CarryWeightIsNotPrepared(store: Totals, sheet: Sheet)
    ensures CARRY_WEIGHT in store ==>
      PreparedAt(store, sheet, CARRY_WEIGHT) == Prepared(Some(store[CARRY_WEIGHT]), ViewOf(sheet, CARRY_WEIGHT))
  {
  }

  /** The carry weight's total is the same for the resync and for the passes, before the preparation and after it. */
  lemma CarryTotal(c: Start, store: Totals)
    requires store == c.store || store == PreparedStore(c.store, c.sheet)
    ensures TotalFor(store, CARRY_WEIGHT) == if CARRY_WEIGHT in Tracked(c) then Tracked(c)[CARRY_WEIGHT] else 0.0
  {
    CarryWeightIsNotPrepared(c.store, c.sheet);
    hide PrepareOne, ActorAppliedRewardTotal, ClampRewardTotal;
  }

  lemma PreparedTotal(store: Totals, sheet: Sheet, av: ActorValue)
    requires av in store
    ensures var p := PreparedAt(store, sheet, av);
      if av == ATTACK_DAMAGE_MULT then p.total.None?
      else p.total.Some? && ClampRewardTotal(av, p.total.value) == ClampRewardTotal(av, store[av])
  {
    PreparationExactly(av, store[av], ViewOf(sheet, av));
    hide PrepareOne, Observed;
  }

  /** What a run tracks, said on the store as it was: every effective total but the retired attack-damage one. */
  lemma TrackedIsTheStore(c: Start)
    ensures Tracked(c) == EffectiveTotals(c.store) - {ATTACK_DAMAGE_MULT}
  {
    hide PreparedAt, ClampRewardTotal, ActorAppliedRewardTotal;
    var a, b := Tracked(c), EffectiveTotals(c.store) - {ATTACK_DAMAGE_MULT};
    forall av ensures av in a <==> av in b ensures av in a ==> a[av] == b[av] {
      if av in c.store {
        PreparedTotal(c.store, c.sheet, av);
      }
    }
  }

  lemma FirstPassFinds(c: Start, sheet: Sheet, av: ActorValue)
    requires Untouched(c, sheet) && av in Tracked(c)
    ensures Shaped(0, av, Tracked(c)[av], FirstViews(c, av),
                   AvState(ViewOf(PreparedSheet(c.store, sheet), av), 0, false))
  {
    CarryWeightIsNotPrepared(c.store, sheet);
    CarryWeightIsNotPrepared(c.store, c.sheet);
    hide PrepareOne, EffectiveTotals;
    if av != CARRY_WEIGHT {
      assert ViewOf(PreparedSheet(c.store, sheet), av) == FirstViews(c, av);
    } else {
      assert ViewOf(PreparedSheet(c.store, sheet), av) == ViewOf(sheet, av);
    }
  }

  /** What a pass starts from. */
  lemma PassFinds(c: Start, sheet: Sheet, store: Totals, state: PassState, k: nat)
    requires Stands(c, sheet, store, state, k)
    ensures PassStore(store, sheet, state) == PreparedStore(c.store, c.sheet)
    ensures AllShaped(c, k, PassSheet(store, sheet, state), state)
  {
    hide PreparedStore, PreparedSheet, Shaped, Tracked;
    if k == 0 {
      PreparedTotalsIgnoreViews(c.store, sheet, c.sheet);
      forall av | av in Tracked(c)
        ensures Shaped(0, av, Tracked(c)[av], FirstViews(c, av), StateAt(PassSheet(store, sheet, state), state, av))
      {
        FirstPassFinds(c, sheet, av);
      }
    }
  }

  lemma PassOnShaped(k: nat, av: ActorValue, total: real, start: Views, s: AvState)
    requires Shaped(k, av, total, start, s) && !StaysShort(av, total, start)
    ensures var o := PassOne(av, total, s);
      && Shaped(k + 1, av, total, start, o.next)
      && ((if av == SHOUT_RECOVERY_MULT then 5 else 3) <= k < 6 ==> LeavesAlone(av, total, s))
      && (LeavesAlone(av, total, s) ==> BroughtIn(av, total, start, o.next.views))
  {
    var corrections := if ShapedWith(k, av, total, start, s, 0) then 0 else 1;
    PassKeepsShape(k, av, total, start, s, corrections);
    PassKeepsTrace(av, total, start, s, corrections);
    CleanMeansDone(k, av, total, start, s, corrections);
    if LeavesAlone(av, total, s) {
      RestIsBroughtIn(av, total, start, PassOne(av, total, s).next, corrections);
    }
    ShapeCorrectsOnce(k + 1, av, total, start, PassOne(av, total, s).next,
                      corrections + if PassOne(av, total, s).corrected then 1 else 0);
    hide PassOne, StaysShort, Shape, Traced, BroughtIn, Quiet, AtFloor;
  }

  lemma ShapeCorrectsOnce(k: nat, av: ActorValue, total: real, start: Views, s: AvState, corrections: nat)
    requires Shape(k, av, total, start, s, corrections)
    ensures corrections <= 1
  {
  }

  lemma PassAdvances(c: Start, sheet: Sheet, store: Totals, state: PassState, k: nat, effect: Effect)
    requires Stands(c, sheet, store, state, k) && FaithfulPass(sheet, store, state, effect)
    requires NoneStaysShort(c) && k < PassLimit(c)
    ensures Stands(c, effect.sheet, PassStore(store, sheet, state), effect.state, k + 1)
    ensures effect.finished ==> Settled(c, effect.sheet)
    ensures k + 1 == PassLimit(c) ==> effect.finished
  {
    PassFinds(c, sheet, store, state, k);
    hide PreparedStore, PassSheet, PassStore, Shaped, PassOne, StaysShort, BroughtIn, LeavesAlone, EffectiveTotals,
         ViewOf;
    var at := PassSheet(store, sheet, state);
    forall av | av in Tracked(c)
      ensures Shaped(k + 1, av, Tracked(c)[av], FirstViews(c, av), StateAt(effect.sheet, effect.state, av))
      ensures effect.finished ==> BroughtIn(av, Tracked(c)[av], FirstViews(c, av), ViewOf(effect.sheet, av))
      ensures k + 1 == PassLimit(c) ==> LeavesAlone(av, Tracked(c)[av], StateAt(at, state, av))
    {
      PassOnShaped(k, av, Tracked(c)[av], FirstViews(c, av), StateAt(at, state, av));
      assert StateAt(effect.sheet, effect.state, av).views == ViewOf(effect.sheet, av);
    }
  }

  lemma AttemptOnShaped(k: nat, total: real, start: Views, s: AvState)
    requires Shaped(k, CARRY_WEIGHT, total, start, s)
    ensures Shaped(k, CARRY_WEIGHT, total, start, s.(views := CarryAttempt(total, s.views).views))
  {
    var after := s.(views := CarryAttempt(total, s.views).views);
    OneAttemptIsEnough(total, s.views);
    OneAttemptIsEnough(total, start);
    WantedIsTheLack(CARRY_WEIGHT, total, after.views);
    hide Satisfied, CarryAttempt, Reached, Given, Lack;
    if ShapedWith(k, CARRY_WEIGHT, total, start, s, 1) {
      assert ShapedWith(k, CARRY_WEIGHT, total, start, after, 1);
    } else if Takes(CARRY_WEIGHT, total, start) {
      assert ShapedWith(k, CARRY_WEIGHT, total, start, after, 1);
    } else {
      assert ShapedWith(k, CARRY_WEIGHT, total, start, after, 0);
    }
  }

  lemma AttemptOnTracked(c: Start, store: Totals, k: nat, s: AvState)
    requires (store == c.store || store == PreparedStore(c.store, c.sheet)) && CARRY_WEIGHT in Tracked(c)
    requires ShapedAt(c, k, CARRY_WEIGHT, s)
    ensures ShapedAt(c, k, CARRY_WEIGHT, s.(views := CarryAttempt(TotalFor(store, CARRY_WEIGHT), s.views).views))
  {
    CarryTotal(c, store);
    hide PreparedStore, Shaped, CarryAttempt, TotalFor, Tracked, FirstViews;
    AttemptOnShaped(k, TotalFor(store, CARRY_WEIGHT), FirstViews(c, CARRY_WEIGHT), s);
  }

  /** An attempt of the carry-weight resync in between only does a pass's work for it. */
  lemma AttemptKeepsStanding(c: Start, sheet: Sheet, store: Totals, state: PassState, k: nat, effect: Effect)
    requires Stands(c, sheet, store, state, k) && FaithfulAttempt(sheet, store, effect)
    ensures Stands(c, effect.sheet, store, state, k)
  {
    hide PreparedStore, ShapedAt, CarryAttempt, TotalFor, Tracked, FirstViews, ViewOf;
    if CARRY_WEIGHT in Tracked(c) {
      AttemptOnTracked(c, store, k, if k > 0 then StateAt(sheet, state, CARRY_WEIGHT)
                                    else AvState(ViewOf(sheet, CARRY_WEIGHT), 0, false));
    }
    if k > 0 {
      forall av | av in Tracked(c) ensures ShapedAt(c, k, av, StateAt(effect.sheet, state, av)) {
        assert ShapedAt(c, k, av, StateAt(sheet, state, av));
      }
    }
  }

  lemma AttemptKeepsSettled(c: Start, sheet: Sheet, store: Totals, effect: Effect)
    requires Settled(c, sheet) && store == PreparedStore(c.store, c.sheet) && FaithfulAttempt(sheet, store, effect)
    ensures Settled(c, effect.sheet)
  {
    CarryTotal(c, store);
    OneAttemptIsEnough(TotalFor(store, CARRY_WEIGHT), ViewOf(sheet, CARRY_WEIGHT));
    hide PreparedStore, CarryAttempt, TotalFor, Tracked, Reached, End, ViewOf, FirstViews;
    forall av | av in Tracked(c) ensures BroughtIn(av, Tracked(c)[av], FirstViews(c, av), ViewOf(effect.sheet, av)) {
      assert BroughtIn(av, Tracked(c)[av], FirstViews(c, av), ViewOf(sheet, av));
    }
  }

  // ---- One event ---------------------------------------------------------------------------

  predicate IsCurrentReward(w: World, t: Task) { t.RewardTask? && t.generation == w.generation }

  /** The reward run is under way with `k` passes behind it and no rerun asked for. */
  ghost predicate Going(c: Start, w: World, store: Totals, k: nat) {
    && SingleFlight(w) && w.reward.scheduled && !w.reward.rerun && k < PassLimit(c)
    && forall t | t in w.queue && IsCurrentReward(w, t) ::
      t.remaining == PASS_COUNT - k && Stands(c, w.sheet, store, t.state, k)
  }

  /** The reward run is over: its slot is free. */
  ghost predicate Over(w: World) { SingleFlight(w) && !w.reward.scheduled }

  /** Over after a pass that found nothing to do: the rewards are with the player. */
  ghost predicate OverAndSettled(c: Start, w: World, store: Totals) {
    Over(w) && Settled(c, w.sheet) && store == PreparedStore(c.store, c.sheet)
  }

  /** The ready pass of a run under way either ends it or takes it one pass further. */
  lemma RewardTaskStep(c: Start, w: World, store: Totals, k: nat, t: Task, env: Env)
    requires SingleFlight(AfterStep(w, t, env)) && RunsFor(w, t) && t.RewardTask? && CurrentTasks(w, RewardSync) == 0
    requires !w.reward.rerun && k < PassLimit(c) && NoneStaysShort(c)
    requires t.remaining == PASS_COUNT - k && Stands(c, w.sheet, store, t.state, k)
    requires env.ready ==> FaithfulPass(w.sheet, store, t.state, env.effect)
    ensures var w' := AfterStep(w, t, env);
      var store' := if env.ready then PassStore(store, w.sheet, t.state) else store;
      && (w'.reward.scheduled ==> Going(c, w', store', if env.ready then k + 1 else k))
      && (env.ready && env.effect.finished ==> OverAndSettled(c, w', store'))
      && (env.ready && k + 1 == PassLimit(c) ==> env.effect.finished)
  {
    hide Stands, FaithfulPass, Settled, PreparedStore, NoneStaysShort, SingleFlight;
    NoneCurrent(w.queue, RewardSync, w.generation);
    if env.ready {
      PassAdvances(c, w.sheet, store, t.state, k, env.effect);
      PassFindsPrepared(c, w.sheet, store, t.state, k);
    }
  }

  lemma PassFindsPrepared(c: Start, sheet: Sheet, store: Totals, state: PassState, k: nat)
    requires Stands(c, sheet, store, state, k)
    ensures PassStore(store, sheet, state) == PreparedStore(c.store, c.sheet)
  {
    PassFinds(c, sheet, store, state, k);
  }

  /** A carry-weight task in between leaves the reward run where it is. */
  lemma CarryTaskStep(c: Start, w: World, store: Totals, k: nat, t: Task, env: Env)
    requires SingleFlight(AfterStep(w, t, env)) && RunsFor(w, t) && t.CarryTask?
    requires env.ready ==> FaithfulAttempt(w.sheet, store, env.effect)
    requires w.reward.scheduled && !w.reward.rerun && k < PassLimit(c)
    requires forall u | u in w.queue && IsCurrentReward(w, u) ::
      u.remaining == PASS_COUNT - k && Stands(c, w.sheet, store, u.state, k)
    ensures Going(c, AfterStep(w, t, env), store, k)
  {
    hide Stands, FaithfulAttempt, SingleFlight;
    var w' := AfterStep(w, t, env);
    StepHandsOver(w, t, env);
    assert w'.sheet == if env.ready then env.effect.sheet else w.sheet;
    hide AfterStep;
    forall u | u in w'.queue && IsCurrentReward(w', u)
      ensures u.remaining == PASS_COUNT - k && Stands(c, w'.sheet, store, u.state, k)
    {
      assert u in w.queue;
      if env.ready {
        AttemptKeepsStanding(c, w.sheet, store, u.state, k, env.effect);
      }
    }
  }

  /** Any event but a reward request: a pass takes the run further or ends it, all else leaves it or ends it. */
  lemma EventOnRun(c: Start, w: World, store: Totals, k: nat, e: Event)
    requires Going(c, w, store, k) && FaithfulEvent(w, store, e) && NoneStaysShort(c)
    requires !(e.Request? && e.worker == RewardSync)
    ensures var w' := Next(w, e);
      var store' := StoreAfter(w, store, e);
      var pass := SyncScheduler.IsPass(w, RewardSync, e);
      && (if w'.reward.scheduled then Going(c, w', store', if pass then k + 1 else k) else Over(w'))
      && (pass && e.env.effect.finished ==> OverAndSettled(c, w', store'))
      && (pass && k + 1 == PassLimit(c) ==> e.env.effect.finished)
  {
    StepKeepsSingleFlight(w, e);
    hide Stands, SingleFlight, FaithfulPass, FaithfulAttempt, PassLimit, NoneStaysShort, OverAndSettled, PassStore;
    match e
    case LoadReset =>
    case Request(worker, nowMs, queues) =>
    case RunTask(i, env) =>
      if i < |w.queue| {
        TaskOnRun(c, w, store, k, i, env);
      }
  }

  lemma TaskOnRun(c: Start, w: World, store: Totals, k: nat, i: nat, env: Env)
    requires Going(c, w, store, k) && i < |w.queue| && FaithfulEvent(w, store, RunTask(i, env)) && NoneStaysShort(c)
    requires SingleFlight(TaskStep(w, i, env))
    ensures var e := RunTask(i, env);
      var w' := TaskStep(w, i, env);
      var store' := StoreAfter(w, store, e);
      var pass := SyncScheduler.IsPass(w, RewardSync, e);
      && (if w'.reward.scheduled then Going(c, w', store', if pass then k + 1 else k) else Over(w'))
      && (pass && env.effect.finished ==> OverAndSettled(c, w', store'))
      && (pass && k + 1 == PassLimit(c) ==> env.effect.finished)
  {
    TakeTask(w, i);
    hide Stands, SingleFlight, FaithfulPass, FaithfulAttempt, PassLimit, NoneStaysShort, OverAndSettled, PassStore,
         CurrentTasks, InFlight, NothingNewer;
    var t := w.queue[i];
    var taken := w.(queue := Without(w.queue, i));
    assert forall u | u in taken.queue :: u in w.queue;
    if t.generation == w.generation {
      hide AfterStep;
      if t.RewardTask? {
        RewardTaskStep(c, taken, store, k, t, env);
      } else {
        CarryTaskStep(c, taken, store, k, t, env);
      }
    }
  }

  // ---- From the request to the end ---------------------------------------------------------

  lemma TaskAfterRun(c: Start, w: World, store: Totals, i: nat, env: Env)
    requires Over(w) && i < |w.queue| && FaithfulEvent(w, store, RunTask(i, env))
    ensures w.queue[i].generation == w.generation ==> w.queue[i].CarryTask?
    ensures TaskStep(w, i, env).reward == w.reward
    ensures OverAndSettled(c, w, store) ==> Settled(c, TaskStep(w, i, env).sheet)
  {
    TakeTask(w, i);
    hide FaithfulPass, FaithfulAttempt, Settled, PreparedStore, SingleFlight, CurrentTasks, InFlight, NothingNewer;
    var t := w.queue[i];
    var taken := w.(queue := Without(w.queue, i));
    if t.generation == w.generation {
      StepHandsOver(taken, t, env);
      if env.ready && Settled(c, w.sheet) && store == PreparedStore(c.store, c.sheet) {
        AttemptKeepsSettled(c, w.sheet, store, env.effect);
      }
    }
  }

  /** With the slot free and no new request, no pass is made any more, and what was settled stays settled. */
  lemma EventAfterRun(c: Start, w: World, store: Totals, e: Event)
    requires Over(w) && FaithfulEvent(w, store, e) && !(e.Request? && e.worker == RewardSync)
    ensures Over(Next(w, e)) && !SyncScheduler.IsPass(w, RewardSync, e) && StoreAfter(w, store, e) == store
    ensures OverAndSettled(c, w, store) ==> OverAndSettled(c, Next(w, e), store)
  {
    StepKeepsSingleFlight(w, e);
    hide FaithfulPass, FaithfulAttempt, Settled, PreparedStore, CurrentTasks, SingleFlight, TaskStep;
    match e
    case LoadReset =>
    case Request(worker, nowMs, queues) =>
    case RunTask(i, env) =>
      if i < |w.queue| {
        TaskAfterRun(c, w, store, i, env);
      }
  }

  lemma {:induction false} AfterTheRun(c: Start, w: World, store: Totals, es: seq<Event>)
    requires Over(w) && Faithful(w, store, es) && NoRequestsFor(es, RewardSync)
    ensures Passes(w, es, RewardSync) == 0 && !Converged(w, es) && !Run(w, es).reward.scheduled
    ensures OverAndSettled(c, w, store) ==> Settled(c, Run(w, es).sheet)
    decreases |es|
  {
    hide FaithfulEvent, StoreAfter, Next, SingleFlight, Settled, PreparedStore, SyncScheduler.IsPass;
    if es != [] {
      EventAfterRun(c, w, store, es[0]);
      AfterTheRun(c, Next(w, es[0]), StoreAfter(w, store, es[0]), es[1..]);
    }
  }

  lemma {:induction false} RunSettles(c: Start, w: World, store: Totals, k: nat, es: seq<Event>)
    requires Going(c, w, store, k) && NoneStaysShort(c)
    requires Faithful(w, store, es) && NoRequestsFor(es, RewardSync)
    ensures k + Passes(w, es, RewardSync) <= PassLimit(c)
    ensures Run(w, es).reward.scheduled ==> k + Passes(w, es, RewardSync) < PassLimit(c)
    ensures k + Passes(w, es, RewardSync) == PassLimit(c) ==> Converged(w, es)
    ensures Converged(w, es) ==> Settled(c, Run(w, es).sheet)
    decreases |es|
  {
    assert k < PassLimit(c) && w.reward.scheduled;
    if es != [] {
      EventOnRun(c, w, store, k, es[0]);
      hide FaithfulEvent, StoreAfter, Next, Going, Settled, PassLimit, NoneStaysShort, SyncScheduler.IsPass;
      var w', store' := Next(w, es[0]), StoreAfter(w, store, es[0]);
      if w'.reward.scheduled {
        RunSettles(c, w', store', if SyncScheduler.IsPass(w, RewardSync, es[0]) then k + 1 else k, es[1..]);
      } else {
        AfterTheRun(c, w', store', es[1..]);
      }
    }
  }

  lemma RequestStartsRun(w: World, store: Totals, nowMs: nat)
    requires SingleFlight(w) && !w.reward.scheduled && !w.reward.rerun
    ensures Going(Start(store, w.sheet), Requested(w, RewardSync, nowMs, true), store, 0)
  {
    RequestKeepsSingleFlight(w, RewardSync, nowMs, true);
    NoneCurrent(w.queue, RewardSync, w.generation);
    var c := Start(store, w.sheet);
    if CARRY_WEIGHT in Tracked(c) {
      CarryWeightIsNotPrepared(store, w.sheet);
    }
    hide PreparedStore, SingleFlight, EffectiveTotals;
  }

  /**
   * A request that finds the slot free, and whatever comes after it but another reward request: at most four
   * passes are made, six where shout recovery is tracked; having made that many, the run has converged and given
   * its slot back; and once it has converged, every tracked reward is with the player.
   */
  lemma RequestSettles(w: World, store: Totals, nowMs: nat, es: seq<Event>)
    requires SingleFlight(w) && !w.reward.scheduled && !w.reward.rerun
    requires NoneStaysShort(Start(store, w.sheet)) && NoRequestsFor(es, RewardSync)
    requires Faithful(Requested(w, RewardSync, nowMs, true), store, es)
    ensures var c := Start(store, w.sheet);
      var from := Requested(w, RewardSync, nowMs, true);
      && Passes(from, es, RewardSync) <= PassLimit(c)
      && (Run(from, es).reward.scheduled ==> Passes(from, es, RewardSync) < PassLimit(c))
      && (Passes(from, es, RewardSync) == PassLimit(c) ==> Converged(from, es))
      && (Converged(from, es) ==> Settled(c, Run(from, es).sheet))
  {
    RequestStartsRun(w, store, nowMs);
    RunSettles(Start(store, w.sheet), Requested(w, RewardSync, nowMs, true), store, 0, es);
  }

  /** As long as the slot is taken the next event is the run's own task, ready, with a queue that takes the next one. */
  predicate Diligent(w: World, es: seq<Event>)
    decreases |es|
  {
    es == [] || ((w.reward.scheduled ==> SyncScheduler.IsPass(w, RewardSync, es[0]) && es[0].env.queues)
                 && Diligent(Next(w, es[0]), es[1..]))
  }

  lemma {:induction false} DiligentRunConverges(c: Start, w: World, store: Totals, k: nat, es: seq<Event>)
    requires Going(c, w, store, k) && NoneStaysShort(c) && NoRequestsFor(es, RewardSync)
    requires Faithful(w, store, es) && Diligent(w, es) && k + |es| >= PassLimit(c)
    ensures Converged(w, es) && !Run(w, es).reward.scheduled && Settled(c, Run(w, es).sheet)
    decreases |es|
  {
    assert k < PassLimit(c) && PassLimit(c) <= 6 && SingleFlight(w) && w.reward.scheduled;
    var e := es[0];
    EventOnRun(c, w, store, k, e);
    var w', store' := Next(w, e), StoreAfter(w, store, e);
    if e.env.effect.finished {
      assert Over(w') by { FinishedPassEnds(c, w, store, k, e); }
      hide FaithfulEvent, StoreAfter, Next, Going, Settled, PassLimit, NoneStaysShort, SyncScheduler.IsPass;
      AfterTheRun(c, w', store', es[1..]);
    } else {
      UnfinishedPassKeepsSlot(c, w, store, k, e);
      hide FaithfulEvent, StoreAfter, Next, Going, Settled, PassLimit, NoneStaysShort, SyncScheduler.IsPass;
      DiligentRunConverges(c, w', store', k + 1, es[1..]);
    }
  }

  lemma FinishedPassEnds(c: Start, w: World, store: Totals, k: nat, e: Event)
    requires Going(c, w, store, k) && SyncScheduler.IsPass(w, RewardSync, e) && e.env.effect.finished
    ensures Over(Next(w, e))
  {
    StepKeepsSingleFlight(w, e);
    hide Stands, SingleFlight, PassLimit;
  }

  lemma UnfinishedPassKeepsSlot(c: Start, w: World, store: Totals, k: nat, e: Event)
    requires Going(c, w, store, k) && SyncScheduler.IsPass(w, RewardSync, e) && e.env.queues && !e.env.effect.finished
    ensures Next(w, e).reward.scheduled
  {
    assert k < 6 && w.queue[e.index].remaining > 1;
    hide Stands;
    UnfinishedPassGoesOn(w, e.index, e.env);
  }

  /**
   * A request that finds the slot free and is then worked on converges within four passes, six where shout
   * recovery is tracked, gives its slot back and leaves every tracked reward with the player.
   */
  lemma RequestConverges(w: World, store: Totals, nowMs: nat, es: seq<Event>)
    requires SingleFlight(w) && !w.reward.scheduled && !w.reward.rerun
    requires NoneStaysShort(Start(store, w.sheet)) && NoRequestsFor(es, RewardSync)
    requires var from := Requested(w, RewardSync, nowMs, true); Faithful(from, store, es) && Diligent(from, es)
    requires |es| >= if SHOUT_RECOVERY_MULT in Tracked(Start(store, w.sheet)) then 6 else 4
    ensures var from := Requested(w, RewardSync, nowMs, true);
      Converged(from, es) && !Run(from, es).reward.scheduled && Settled(Start(store, w.sheet), Run(from, es).sheet)
  {
    RequestStartsRun(w, store, nowMs);
    DiligentRunConverges(Start(store, w.sheet), Requested(w, RewardSync, nowMs, true), store, 0, es);
  }

  /**
   * What a settled run means for an ordinary reward, from the store and the player as they were when it was asked
   * for: a permanent modifier that reached the total is left alone, any other has been made the total.
   */
  lemma RewardsReachThePlayer(c: Start, sheet: Sheet, av: ActorValue)
    requires Settled(c, sheet) && av in c.store && Abs(c.store[av]) > EPSILON
    requires RewardCap(av).None? && !IsSkill(av) && av !in {HEALTH, MAGICKA, STAMINA, SHOUT_RECOVERY_MULT}
    ensures var total, before, after := c.store[av], ViewOf(c.sheet, av), ViewOf(sheet, av);
      && (Reaches(before.permanentModifier, total) ==> after == before)
      && (!Reaches(before.permanentModifier, total) ==>
            after.permanentModifier == total && after.base == before.base
            && after.permanent - before.permanent == total - before.permanentModifier)
  {
    TrackedIsTheStore(c);
    EffectiveTotalsExactly(c.store, av);
    PreparationExactly(av, c.store[av], ViewOf(c.sheet, av));
    assert av in Tracked(c) && Tracked(c)[av] == c.store[av] && FirstViews(c, av) == ViewOf(c.sheet, av) by {
      hide EffectiveTotals, PreparedStore, PrepareOne, Observed;
    }
    assert BroughtIn(av, Tracked(c)[av], FirstViews(c, av), ViewOf(sheet, av));
    hide Settled, Tracked, FirstViews, EffectiveTotals, PrepareOne, Observed, ViewOf;
  }

  // ---- The carry-weight resync -------------------------------------------------------------

  lemma EventOnResync(w: World, store: Totals, e: Event)
    requires SingleFlight(w) && !(w.carry.scheduled && w.carry.rerun) && FaithfulEvent(w, store, e)
    requires !(e.Request? && e.worker == CarryQuick)
    ensures var w' := Next(w, e);
      var attempt := SyncScheduler.IsPass(w, CarryQuick, e);
      && SingleFlight(w') && !(w'.carry.scheduled && w'.carry.rerun)
      && (w'.carry.scheduled ==> w.carry.scheduled && !attempt) && (attempt ==> w.carry.scheduled)
  {
    StepKeepsSingleFlight(w, e);
    hide FaithfulPass, SingleFlight, CarryAttempt, TotalFor, InFlight, NothingNewer;
    match e
    case LoadReset =>
    case Request(worker, nowMs, queues) =>
    case RunTask(i, env) =>
      if i < |w.queue| {
        TakeTask(w, i);
        var t := w.queue[i];
        var taken := w.(queue := Without(w.queue, i));
        if t.generation == w.generation {
          StepHandsOver(taken, t, env);
          if t.CarryTask? && env.ready {
            OneAttemptIsEnough(TotalFor(store, CARRY_WEIGHT), ViewOf(w.sheet, CARRY_WEIGHT));
          }
        }
      }
  }

  /** A resync makes at most one attempt and then gives its slot back, unless another one is asked for meanwhile. */
  lemma {:induction false} ResyncTriesOnce(w: World, store: Totals, es: seq<Event>)
    requires SingleFlight(w) && !(w.carry.scheduled && w.carry.rerun)
    requires Faithful(w, store, es) && NoRequestsFor(es, CarryQuick)
    ensures Passes(w, es, CarryQuick) + (if Run(w, es).carry.scheduled then 1 else 0)
      <= if w.carry.scheduled then 1 else 0
    decreases |es|
  {
    hide FaithfulEvent, StoreAfter, Next, SingleFlight, SyncScheduler.IsPass;
    if es != [] {
      EventOnResync(w, store, es[0]);
      ResyncTriesOnce(Next(w, es[0]), StoreAfter(w, store, es[0]), es[1..]);
    }
  }
}
