// Registering and undoing: the registered map, the bounded undo history, and the scores that
// are kept up to date along the way.
module Registration {
  import opened ActorValues
  import opened Actors
  import opened Catalog
  import opened Progression
  import opened SetSums
  import opened State

  const UNDO_LIMIT: nat := 10
  const MAX_GROUP: u32 := 5

  /** What the game's data files say: the type of every form, and the forms that may not be registered. */
  datatype Game = Game(forms: map<FormId, FormType>, excluded: set<FormId>)

  /** The plugin's state together with how many of each item the player carries. */
  datatype Session = Session(state: Snapshot<real>, items: map<FormId, nat>)

  function Held(items: map<FormId, nat>, id: FormId): nat { if id in items then items[id] else 0 }

  /** The longest suffix of at most `n` elements. */
  function Last<T>(s: seq<T>, n: nat): seq<T> { if |s| <= n then s else s[|s| - n..] }

  // ---- The store ---------------------------------------------------------------------------

  function NextId(id: u64): u64 { (id + 1) % U64_MODULUS }

  function Inserted(s: Snapshot<real>, key: FormId, group: u32): Snapshot<real> {
    if key in s.registered then s else s.(registered := s.registered[key := group])
  }

  function Removed(s: Snapshot<real>, key: FormId): Snapshot<real> {
    s.(registered := s.registered - {key})
  }

  function BlockedPair(s: Snapshot<real>, key: FormId, item: FormId): Snapshot<real> {
    s.(blocked := s.blocked + (if key != 0 then {key} else {}) + (if item != 0 && item != key then {item} else {}))
  }

  /** PushUndoRecord: the record gets the next action id, and the history keeps the latest ten. */
  function Pushed(s: Snapshot<real>, r: UndoRecord<real>): Snapshot<real> {
    s.(undoHistory := Last(s.undoHistory + [r.(actionId := s.nextActionId)], UNDO_LIMIT),
       nextActionId := NextId(s.nextActionId))
  }

  function Popped(s: Snapshot<real>): Snapshot<real>
    requires s.undoHistory != []
  {
    s.(undoHistory := s.undoHistory[..|s.undoHistory| - 1])
  }

  function PutBack(s: Snapshot<real>, r: UndoRecord<real>): Snapshot<real> {
    s.(undoHistory := Last(s.undoHistory + [r], UNDO_LIMIT),
       nextActionId := MaxInt(s.nextActionId, NextId(r.actionId)))
  }

  method TrimHistory(state: RuntimeState<real>)
    modifies state`undoHistory
    ensures state.undoHistory == Last(old(state.undoHistory), UNDO_LIMIT)
  {
    ghost var dropped := 0;
    while |state.undoHistory| > UNDO_LIMIT
      invariant 0 <= dropped <= |old(state.undoHistory)| && state.undoHistory == old(state.undoHistory)[dropped..]
      invariant dropped == 0 || dropped <= |old(state.undoHistory)| - UNDO_LIMIT
      decreases |state.undoHistory|
    {
      state.undoHistory := state.undoHistory[1..];
      dropped := dropped + 1;
    }
  }

  method PushUndoRecord(state: RuntimeState<real>, r: UndoRecord<real>)
    modifies state
    ensures state.Value() == Pushed(old(state.Value()), r)
  {
    state.undoHistory := state.undoHistory + [r.(actionId := state.nextActionId)];
    state.nextActionId := NextId(state.nextActionId);
    TrimHistory(state);
  }

  method PopLatestUndoRecord(state: RuntimeState<real>, actionId: u64) returns (r: Option<UndoRecord<real>>)
    modifies state
    ensures r.Some?
      <==> old(state.undoHistory) != [] && old(state.undoHistory)[|old(state.undoHistory)| - 1].actionId == actionId
    ensures r.Some? ==>
      && r.value == old(state.undoHistory)[|old(state.undoHistory)| - 1]
      && state.Value() == Popped(old(state.Value()))
    ensures r.None? ==> state.Value() == old(state.Value())
  {
    if state.undoHistory == [] || state.undoHistory[|state.undoHistory| - 1].actionId != actionId {
      return None;
    }
    r := Some(state.undoHistory[|state.undoHistory| - 1]);
    state.undoHistory := state.undoHistory[..|state.undoHistory| - 1];
  }

  method RestoreUndoRecord(state: RuntimeState<real>, r: UndoRecord<real>)
    modifies state
    ensures state.Value() == PutBack(old(state.Value()), r)
  {
    state.nextActionId := MaxInt(state.nextActionId, NextId(r.actionId));
    state.undoHistory := state.undoHistory + [r];
    TrimHistory(state);
  }

  // ---- Legacy rewards ----------------------------------------------------------------------

  function TotalOf(totals: map<ActorValue, real>, av: ActorValue): real { if av in totals then totals[av] else 0.0 }

  /** Take one recorded reward back out of the totals; a total within the tolerance is dropped. */
  function AdjustClamped(totals: map<ActorValue, real>, av: ActorValue, delta: real): map<ActorValue, real> {
    var next := ClampRewardTotal(av, TotalOf(totals, av) + delta);
    if Abs(next) <= EPSILON then totals - {av} else totals[av := next]
  }

  function RewardTakenBack(totals: map<ActorValue, real>, d: RewardDelta<real>): map<ActorValue, real> {
    if Abs(d.delta) <= EPSILON then totals else AdjustClamped(totals, d.av, -d.delta)
  }

  function RewardsTakenBack(totals: map<ActorValue, real>, deltas: seq<RewardDelta<real>>): map<ActorValue, real> {
    if deltas == [] then totals
    else RewardTakenBack(RewardsTakenBack(totals, deltas[..|deltas| - 1]), deltas[|deltas| - 1])
  }

  /** What taking one recorded reward back takes from the player: nothing where there was no total to take it from. */
  function Adjustment(totals: map<ActorValue, real>, d: RewardDelta<real>): seq<RewardDelta<real>> {
    if Abs(d.delta) <= EPSILON || d.av !in totals then []
    else
      var applied := ActorAppliedRewardTotal(d.av, ClampRewardTotal(d.av, totals[d.av] - d.delta))
                     - ActorAppliedRewardTotal(d.av, totals[d.av]);
      if Abs(applied) > EPSILON then [RewardDelta(d.av, applied)] else []
  }

  function Adjustments(totals: map<ActorValue, real>, deltas: seq<RewardDelta<real>>): seq<RewardDelta<real>> {
    if deltas == [] then []
    else
      var before := deltas[..|deltas| - 1];
      Adjustments(totals, before) + Adjustment(RewardsTakenBack(totals, before), deltas[|deltas| - 1])
  }

  /** What a list of adjustments comes to for one actor value. */
  function SumFor(adjustments: seq<RewardDelta<real>>, av: ActorValue): real {
    if adjustments == [] then 0.0
    else
      var last := adjustments[|adjustments| - 1];
      SumFor(adjustments[..|adjustments| - 1], av) + if last.av == av then last.delta else 0.0
  }

  lemma RestoredTwice(v: Views, a: real, b: real)
    ensures v.Restored(a).Restored(b) == v.Restored(a + b) && v.Restored(0.0) == v
  {
  }

  method CollectAdjustments(state: RuntimeState<real>, deltas: seq<RewardDelta<real>>)
    returns (adjustments: seq<RewardDelta<real>>)
    modifies state`rewardTotals
    ensures state.rewardTotals == RewardsTakenBack(old(state.rewardTotals), deltas)
    ensures adjustments == Adjustments(old(state.rewardTotals), deltas)
  {
    hide ActorAppliedRewardTotal, ClampRewardTotal;
    adjustments := [];
    for i := 0 to |deltas|
      invariant state.rewardTotals == RewardsTakenBack(old(state.rewardTotals), deltas[..i])
      invariant adjustments == Adjustments(old(state.rewardTotals), deltas[..i])
    {
      assert deltas[..i + 1][..i] == deltas[..i];
      var d := deltas[i];
      if Abs(d.delta) > EPSILON {
        var existed, previous := d.av in state.rewardTotals, TotalOf(state.rewardTotals, d.av);
        var next := ClampRewardTotal(d.av, previous - d.delta);
        state.rewardTotals := AdjustClamped(state.rewardTotals, d.av, -d.delta);
        if existed {
          var applied := ActorAppliedRewardTotal(d.av, next) - ActorAppliedRewardTotal(d.av, previous);
          if Abs(applied) > EPSILON {
            adjustments := adjustments + [RewardDelta(d.av, applied)];
          }
        }
      }
    }
    assert deltas[..|deltas|] == deltas;
  }

  method RestoreAll(actor: Actor, adjustments: seq<RewardDelta<real>>)
    modifies actor
    ensures forall av: ActorValue ::
      ViewOf(actor.sheet, av) == ViewOf(old(actor.sheet), av).Restored(SumFor(adjustments, av))
  {
    forall av: ActorValue ensures ViewOf(actor.sheet, av).Restored(0.0) == ViewOf(actor.sheet, av) {
      RestoredTwice(ViewOf(actor.sheet, av), 0.0, 0.0);
    }
    for i := 0 to |adjustments|
      invariant forall av: ActorValue ::
        ViewOf(actor.sheet, av) == ViewOf(old(actor.sheet), av).Restored(SumFor(adjustments[..i], av))
    {
      assert adjustments[..i + 1][..i] == adjustments[..i];
      var a := adjustments[i];
      RestoredTwice(ViewOf(old(actor.sheet), a.av), SumFor(adjustments[..i], a.av), a.delta);
      actor.RestoreActorValue(a.av, a.delta);
    }
    assert adjustments[..|adjustments|] == adjustments;
  }

  /** The totals first, then the player; without a player neither. */
  method RollbackRewardDeltas(state: RuntimeState<real>, actor: Actor, playerAvailable: bool,
      deltas: seq<RewardDelta<real>>)
    returns (applied: nat)
    modifies state`rewardTotals, actor
    ensures playerAvailable ==>
      var adjustments := Adjustments(old(state.rewardTotals), deltas);
      && state.rewardTotals == RewardsTakenBack(old(state.rewardTotals), deltas) && applied == |adjustments|
      && forall av: ActorValue ::
           ViewOf(actor.sheet, av) == ViewOf(old(actor.sheet), av).Restored(SumFor(adjustments, av))
    ensures !playerAvailable ==>
      state.rewardTotals == old(state.rewardTotals) && actor.sheet == old(actor.sheet) && applied == 0
  {
    hide Adjustment, RewardTakenBack;
    if deltas == [] || !playerAvailable {
      forall av: ActorValue ensures ViewOf(actor.sheet, av).Restored(0.0) == ViewOf(actor.sheet, av) {
        RestoredTwice(ViewOf(actor.sheet, av), 0.0, 0.0);
      }
      return 0;
    }
    var adjustments := CollectAdjustments(state, deltas);
    RestoreAll(actor, adjustments);
    return |adjustments|;
  }

  /** How much of an actor value's total the player is meant to have. */
  function Standing(totals: map<ActorValue, real>, av: ActorValue): real {
    ActorAppliedRewardTotal(av, TotalOf(totals, av))
  }

  /** By how much taking one reward back moves the player and the player's standing apart. */
  function Drift(totals: map<ActorValue, real>, d: RewardDelta<real>, av: ActorValue): real {
    SumFor(Adjustment(totals, d), av) - (Standing(RewardTakenBack(totals, d), av) - Standing(totals, av))
  }

  lemma SmallTotalsStandForLittle(av: ActorValue, total: real)
    requires Abs(total) <= EPSILON
    ensures Abs(ActorAppliedRewardTotal(av, total)) <= EPSILON
    ensures total == 0.0 ==> ActorAppliedRewardTotal(av, total) == 0.0
  {
    assert ClampRewardTotal(av, total) == total;
    hide ClampRewardTotal;
    SmallRoundsToNothing(total);
    hide Round, Trunc, IsSkill;
  }

  lemma SmallRoundsToNothing(x: real)
    requires Abs(x) <= EPSILON
    ensures Round(x) == 0.0 && Trunc(x) == 0.0 && Trunc(0.0) == 0.0
  {
  }

  /** The total that a reward taken back from nothing leaves behind. */
  function OwedTotal(d: RewardDelta<real>): real { ClampRewardTotal(d.av, -d.delta) }

  lemma PaceWithTotal(totals: map<ActorValue, real>, d: RewardDelta<real>)
    requires Abs(d.delta) > EPSILON && d.av in totals
    ensures Abs(Drift(totals, d, d.av)) <= 2.0 * EPSILON
  {
    var next := ClampRewardTotal(d.av, totals[d.av] - d.delta);
    SmallTotalsStandForLittle(d.av, 0.0);
    if Abs(next) <= EPSILON {
      SmallTotalsStandForLittle(d.av, next);
    }
    SumOfOne(Adjustment(totals, d), d.av);
    hide ActorAppliedRewardTotal, ClampRewardTotal, SumFor;
  }

  lemma PaceWithoutTotal(totals: map<ActorValue, real>, d: RewardDelta<real>)
    requires Abs(d.delta) > EPSILON && d.av !in totals
    ensures Drift(totals, d, d.av)
      == if Abs(OwedTotal(d)) <= EPSILON then 0.0 else -ActorAppliedRewardTotal(d.av, OwedTotal(d))
  {
    SmallTotalsStandForLittle(d.av, 0.0);
    assert 0.0 - d.delta == -d.delta;
    hide ActorAppliedRewardTotal, ClampRewardTotal;
  }

  lemma PaceElsewhere(totals: map<ActorValue, real>, d: RewardDelta<real>, av: ActorValue)
    requires av != d.av || Abs(d.delta) <= EPSILON
    ensures Drift(totals, d, av) == 0.0
  {
    SumOfOne(Adjustment(totals, d), av);
    hide ActorAppliedRewardTotal, ClampRewardTotal;
  }

  /**
   * Taking one reward back moves the player along with the totals, up to the tolerance that each side drops,
   * exactly unless there was no total to take it from and the total left owing instead stands for something.
   */
  lemma KeepsPaceExactlyWhen(totals: map<ActorValue, real>, d: RewardDelta<real>, av: ActorValue)
    ensures Abs(Drift(totals, d, av)) <= 2.0 * EPSILON <==>
      || av != d.av || Abs(d.delta) <= EPSILON || av in totals || Abs(OwedTotal(d)) <= EPSILON
      || Abs(ActorAppliedRewardTotal(av, OwedTotal(d))) <= 2.0 * EPSILON
  {
    if av != d.av || Abs(d.delta) <= EPSILON {
      PaceElsewhere(totals, d, av);
    } else if av in totals {
      PaceWithTotal(totals, d);
    } else {
      PaceWithoutTotal(totals, d);
    }
    hide Drift, ActorAppliedRewardTotal, OwedTotal;
  }

  lemma SumOfOne(adjustments: seq<RewardDelta<real>>, av: ActorValue)
    requires |adjustments| <= 1
    ensures SumFor(adjustments, av)
      == if adjustments != [] && adjustments[0].av == av then adjustments[0].delta else 0.0
  {
    if |adjustments| == 1 {
      assert adjustments[..0] == [];
    }
  }

  /** A reward whose total is gone: the player keeps it, and the totals go negative by it. */
  lemma TakenFromNothingIsOwed(totals: map<ActorValue, real>, d: RewardDelta<real>)
    requires d.av !in totals && d.delta > EPSILON
    ensures RewardTakenBack(totals, d) == totals[d.av := -d.delta] && Adjustment(totals, d) == []
    ensures !IsSkill(d.av) && d.delta > 2.0 * EPSILON ==> Abs(Drift(totals, d, d.av)) > 2.0 * EPSILON
  {
    assert 0.0 - d.delta == -d.delta;
    if !IsSkill(d.av) {
      PaceWithoutTotal(totals, d);
      hide Drift;
    }
  }

  /** Every reward of this actor value finds its total when its turn comes. */
  predicate AllFound(totals: map<ActorValue, real>, deltas: seq<RewardDelta<real>>, av: ActorValue) {
    deltas == [] ||
    (var before := deltas[..|deltas| - 1];
     && AllFound(totals, before, av)
     && (deltas[|deltas| - 1].av == av ==> av in RewardsTakenBack(totals, before)))
  }

  lemma {:induction false} SumOfConcat(a: seq<RewardDelta<real>>, b: seq<RewardDelta<real>>, av: ActorValue)
    requires |b| <= 1
    ensures SumFor(a + b, av) == SumFor(a, av) + SumFor(b, av)
  {
    if |b| == 1 {
      assert (a + b)[..|a|] == a && b[..0] == [];
    } else {
      assert a + b == a;
    }
  }

  /** By how much a whole rollback moves the player and the player's standing apart. */
  function Gap(totals: map<ActorValue, real>, deltas: seq<RewardDelta<real>>, av: ActorValue): real {
    SumFor(Adjustments(totals, deltas), av) - (Standing(RewardsTakenBack(totals, deltas), av) - Standing(totals, av))
  }

  lemma GapOfOneMore(totals: map<ActorValue, real>, deltas: seq<RewardDelta<real>>, av: ActorValue)
    requires deltas != []
    ensures var before := deltas[..|deltas| - 1];
      Gap(totals, deltas, av)
        == Gap(totals, before, av) + Drift(RewardsTakenBack(totals, before), deltas[|deltas| - 1], av)
  {
    var before, d := deltas[..|deltas| - 1], deltas[|deltas| - 1];
    SumOfConcat(Adjustments(totals, before), Adjustment(RewardsTakenBack(totals, before), d), av);
    hide Adjustment, RewardTakenBack, Standing, SumFor;
  }

  /**
   * Over a whole rollback that finds its totals, the player loses what the totals lose, up to the
   * tolerance per reward.
   */
  lemma {:induction false} RollbackKeepsPace(totals: map<ActorValue, real>, deltas: seq<RewardDelta<real>>,
      av: ActorValue)
    requires AllFound(totals, deltas, av)
    ensures Abs(Gap(totals, deltas, av)) <= 2.0 * EPSILON * (|deltas| as real)
    decreases |deltas|
  {
    if deltas != [] {
      var before, d := deltas[..|deltas| - 1], deltas[|deltas| - 1];
      RollbackKeepsPace(totals, before, av);
      KeepsPaceExactlyWhen(RewardsTakenBack(totals, before), d, av);
      GapOfOneMore(totals, deltas, av);
      hide Gap, Drift, RewardsTakenBack, OwedTotal, ActorAppliedRewardTotal;
      OneMoreDrift(Gap(totals, before, av), Drift(RewardsTakenBack(totals, before), d, av), |before| as real);
    }
  }

  lemma OneMoreDrift(gap: real, drift: real, n: real)
    requires Abs(gap) <= 2.0 * EPSILON * n && Abs(drift) <= 2.0 * EPSILON
    ensures Abs(gap + drift) <= 2.0 * EPSILON * (n + 1.0)
  {
  }

  /** Taking a reward back from its total: the total falls by the reward, and so does an ordinary player value. */
  lemma TakesBackExactly(totals: map<ActorValue, real>, d: RewardDelta<real>)
    requires d.av in totals
    ensures var left := totals[d.av] - d.delta;
      var next := if RewardCap(d.av).Some? && left > RewardCap(d.av).value + EPSILON then RewardCap(d.av).value
        else left;
      && RewardTakenBack(totals, d) == (if Abs(d.delta) <= EPSILON then totals
                                        else if Abs(next) <= EPSILON then totals - {d.av} else totals[d.av := next])
      && (RewardCap(d.av).None? && !IsSkill(d.av) ==>
            Adjustment(totals, d) == if Abs(d.delta) <= EPSILON then [] else [RewardDelta(d.av, -d.delta)])
  {
    assert totals[d.av] + -d.delta == totals[d.av] - d.delta;
  }

  /** What a record says an actor value was given. */
  function GivenBy(deltas: seq<RewardDelta<real>>, av: ActorValue): real {
    if deltas == [] then 0.0
    else
      var last := deltas[|deltas| - 1];
      GivenBy(deltas[..|deltas| - 1], av) + if last.av == av then last.delta else 0.0
  }

  /** No total of this actor value comes out above its cap on the way. */
  predicate NoCapMet(totals: map<ActorValue, real>, deltas: seq<RewardDelta<real>>, av: ActorValue) {
    deltas == [] ||
    (var before, last := deltas[..|deltas| - 1], deltas[|deltas| - 1];
     && NoCapMet(totals, before, av)
     && (last.av == av && RewardCap(av).Some? ==>
           TotalOf(RewardsTakenBack(totals, before), av) - last.delta <= RewardCap(av).value + EPSILON))
  }

  lemma OneTotalFalls(totals: map<ActorValue, real>, d: RewardDelta<real>, av: ActorValue)
    requires d.av == av && RewardCap(av).Some? ==> TotalOf(totals, av) - d.delta <= RewardCap(av).value + EPSILON
    ensures Abs(TotalOf(RewardTakenBack(totals, d), av) - (TotalOf(totals, av) - if d.av == av then d.delta else 0.0))
      <= EPSILON
  {
    assert TotalOf(totals, d.av) + -d.delta == TotalOf(totals, d.av) - d.delta;
  }

  lemma OnePlayerValueFalls(totals: map<ActorValue, real>, d: RewardDelta<real>, av: ActorValue)
    requires RewardCap(av).None? && !IsSkill(av) && (d.av == av ==> av in totals)
    ensures Abs(OneUnpaid(totals, d, av)) <= EPSILON
  {
    SumOfOne(Adjustment(totals, d), av);
    if d.av == av {
      TakesBackExactly(totals, d);
    }
  }

  lemma OneMoreWithin(gap: real, step: real, n: real)
    requires Abs(gap) <= EPSILON * n && Abs(step) <= EPSILON
    ensures Abs(gap + step) <= EPSILON * (n + 1.0)
  {
  }

  /** Over a whole rollback a total falls by what the record says was given, up to the tolerance per reward. */
  lemma {:induction false} TotalsFallByTheRecord(totals: map<ActorValue, real>, deltas: seq<RewardDelta<real>>,
      av: ActorValue)
    requires NoCapMet(totals, deltas, av)
    ensures Abs(TotalOf(RewardsTakenBack(totals, deltas), av) - (TotalOf(totals, av) - GivenBy(deltas, av)))
      <= EPSILON * (|deltas| as real)
    decreases |deltas|
  {
    if deltas != [] {
      var before, d := deltas[..|deltas| - 1], deltas[|deltas| - 1];
      var between := RewardsTakenBack(totals, before);
      TotalsFallByTheRecord(totals, before, av);
      OneTotalFalls(between, d, av);
      hide TotalOf, RewardTakenBack, RewardCap;
      var own := if d.av == av then d.delta else 0.0;
      OneMoreWithin(TotalOf(between, av) - (TotalOf(totals, av) - GivenBy(before, av)),
                    TotalOf(RewardTakenBack(between, d), av) - (TotalOf(between, av) - own), |before| as real);
    }
  }

  /** By how much the player and one reward of the record part. */
  function OneUnpaid(totals: map<ActorValue, real>, d: RewardDelta<real>, av: ActorValue): real {
    SumFor(Adjustment(totals, d), av) + if d.av == av then d.delta else 0.0
  }

  /** By how much the player and the whole record part. */
  function Unpaid(totals: map<ActorValue, real>, deltas: seq<RewardDelta<real>>, av: ActorValue): real {
    SumFor(Adjustments(totals, deltas), av) + GivenBy(deltas, av)
  }

  lemma UnpaidOfOneMore(totals: map<ActorValue, real>, deltas: seq<RewardDelta<real>>, av: ActorValue)
    requires deltas != []
    ensures var before, d := deltas[..|deltas| - 1], deltas[|deltas| - 1];
      Unpaid(totals, deltas, av) == Unpaid(totals, before, av) + OneUnpaid(RewardsTakenBack(totals, before), d, av)
  {
    var before, d := deltas[..|deltas| - 1], deltas[|deltas| - 1];
    SumOfConcat(Adjustments(totals, before), Adjustment(RewardsTakenBack(totals, before), d), av);
    hide Adjustment, RewardsTakenBack, SumFor;
  }

  /** An ordinary value of the player falls by what the record says too, when every total is found. */
  lemma {:induction false} PlayerFallsByTheRecord(totals: map<ActorValue, real>, deltas: seq<RewardDelta<real>>,
      av: ActorValue)
    requires AllFound(totals, deltas, av) && RewardCap(av).None? && !IsSkill(av)
    ensures Abs(Unpaid(totals, deltas, av)) <= EPSILON * (|deltas| as real)
    decreases |deltas|
  {
    if deltas != [] {
      hide Unpaid, OneUnpaid, RewardsTakenBack, RewardCap, IsSkill;
      var before, d := deltas[..|deltas| - 1], deltas[|deltas| - 1];
      PlayerFallsByTheRecord(totals, before, av);
      OnePlayerValueFalls(RewardsTakenBack(totals, before), d, av);
      UnpaidOfOneMore(totals, deltas, av);
      OneMoreWithin(Unpaid(totals, before, av), OneUnpaid(RewardsTakenBack(totals, before), d, av), |before| as real);
    }
  }

  // ---- Registering -------------------------------------------------------------------------

  /** Everything a registration asks of the game and the settings, beyond the plugin's own state. */
  datatype RegisterInput = RegisterInput(
    playerAvailable: bool, item: FormId, key: Option<FormId>, questProtected: bool, gateBlocks: bool,
    inInventory: bool, questObject: bool, named: bool, safeToRemove: bool, removable: bool)

  datatype Outcome = Refused | Banned | Registered

  predicate IsExcluded(g: Game, s: Snapshot<real>, id: FormId) { id in g.excluded || id in s.blocked }

  predicate IsRegisteredEither(s: Snapshot<real>, key: FormId, item: FormId) {
    key in s.registered || (item != key && item in s.registered)
  }

  function DiscoveryGroup(g: Game, s: Snapshot<real>, key: FormId): u32 {
    if key !in g.forms || IsExcluded(g, s, key) then UNKNOWN_GROUP else GroupFromFormType(g.forms[key])
  }

  /** The checks before the item is touched. */
  predicate PassesChecks(g: Game, s: Snapshot<real>, input: RegisterInput) {
    && input.playerAvailable && input.item in g.forms
    && input.key.Some? && input.key.value in g.forms
    && !IsExcluded(g, s, input.item) && !IsExcluded(g, s, input.key.value)
    && !input.questProtected
    && !IsRegisteredEither(s, input.key.value, input.item)
    && DiscoveryGroup(g, s, input.key.value) <= MAX_GROUP
    && !input.gateBlocks && input.inInventory && !input.questObject
  }

  function NewRecord(g: Game, s: Snapshot<real>, item: FormId, key: FormId): UndoRecord<real>
    requires key in g.forms
  {
    var group := DiscoveryGroup(g, s, key);
    UndoRecord(0, item, key, group, MakeContribution(group, g.forms[key]), [])
  }

  function Credited(s: Snapshot<real>, c: Option<Contribution>): Snapshot<real> {
    if c.Some? then Applied(s, c.value) else s
  }

  function Registering(g: Game, s: Session, input: RegisterInput): (Session, Outcome) {
    if !PassesChecks(g, s.state, input) then (s, Refused)
    else
      var key := input.key.value;
      if !input.named then (s.(state := BlockedPair(s.state, key, input.item)), Banned)
      else if !input.safeToRemove then (s, Refused)
      else if !input.removable || Held(s.items, input.item) == 0 then
        (s.(state := BlockedPair(s.state, key, input.item)), Banned)
      else
        var r := NewRecord(g, s.state, input.item, key);
        (Session(Pushed(Credited(Inserted(s.state, key, r.group), r.contribution), r),
                 s.items[input.item := Held(s.items, input.item) - 1]), Registered)
  }

  class Inventory {
    var items: map<FormId, nat>

    function Count(id: FormId): nat reads this { Held(items, id) }

    /** The engine may refuse; otherwise one item leaves. */
    method RemoveOne(id: FormId, allowed: bool)
      modifies this
      ensures items
        == if allowed && Held(old(items), id) > 0 then old(items)[id := Held(old(items), id) - 1] else old(items)
    {
      if allowed && Held(items, id) > 0 {
        items := items[id := Held(items, id) - 1];
      }
    }

    method AddOne(id: FormId, allowed: bool)
      modifies this
      ensures items == if allowed then old(items)[id := Held(old(items), id) + 1] else old(items)
    {
      if allowed {
        items := items[id := Held(items, id) + 1];
      }
    }
  }

  function SessionOf(state: RuntimeState<real>, pack: Inventory): Session
    reads state, pack
  {
    Session(state.Value(), pack.items)
  }

  method BlockPair(state: RuntimeState<real>, key: FormId, item: FormId)
    modifies state
    ensures state.Value() == BlockedPair(old(state.Value()), key, item)
  {
    if key != 0 {
      state.blocked := state.blocked + {key};
    }
    if item != 0 && item != key {
      state.blocked := state.blocked + {item};
    }
  }

  method RecordRegistration(g: Game, state: RuntimeState<real>, item: FormId, key: FormId)
    requires key in g.forms
    modifies state
    ensures var r := NewRecord(g, old(state.Value()), item, key);
      state.Value() == Pushed(Credited(Inserted(old(state.Value()), key, r.group), r.contribution), r)
  {
    var r := NewRecord(g, state.Value(), item, key);
    if key !in state.registered {
      state.registered := state.registered[key := r.group];
    }
    if r.contribution.Some? {
      ApplyContribution(state, r.contribution.value);
    }
    PushUndoRecord(state, r);
  }

  method TryRegisterItem(g: Game, state: RuntimeState<real>, pack: Inventory,
      input: RegisterInput)
    returns (outcome: Outcome)
    modifies state, pack
    ensures (SessionOf(state, pack), outcome) == Registering(g, old(SessionOf(state, pack)), input)
  {
    hide Pushed, Credited, Inserted;
    if !PassesChecks(g, state.Value(), input) {
      return Refused;
    }
    var key := input.key.value;
    if !input.named {
      BlockPair(state, key, input.item);
      return Banned;
    }
    if !input.safeToRemove {
      return Refused;
    }
    var had := pack.Count(input.item);
    pack.RemoveOne(input.item, input.removable);
    if pack.Count(input.item) >= had {
      BlockPair(state, key, input.item);
      return Banned;
    }
    RecordRegistration(g, state, input.item, key);
    return Registered;
  }

  // ---- Undoing -----------------------------------------------------------------------------

  datatype UndoInput = UndoInput(playerAvailable: bool, accepts: bool)

  function RestoreItem(g: Game, r: UndoRecord<real>): Option<FormId> {
    if r.formId in g.forms then Some(r.formId) else if r.regKey in g.forms then Some(r.regKey) else None
  }

  function TakenBack(s: Snapshot<real>, r: UndoRecord<real>): Snapshot<real> {
    match r.contribution
    case Some(c) => RolledBack(s, c)
    case None => s.(rewardTotals := RewardsTakenBack(s.rewardTotals, r.rewardDeltas))
  }

  predicate IsLatest(s: Snapshot<real>, actionId: u64) {
    s.undoHistory != [] && s.undoHistory[|s.undoHistory| - 1].actionId == actionId
  }

  function Undoing(g: Game, s: Session, actionId: u64, input: UndoInput): (Session, bool) {
    if !IsLatest(s.state, actionId) then (s, false)
    else
      var r := s.state.undoHistory[|s.state.undoHistory| - 1];
      var popped := Popped(s.state);
      var item := RestoreItem(g, r);
      if r.regKey !in popped.registered then (s.(state := PutBack(popped, r)), false)
      else
        var removed := Removed(popped, r.regKey);
        if !input.playerAvailable || item.None? || !input.accepts then
          (s.(state := PutBack(Inserted(removed, r.regKey, r.group), r)), false)
        else
          (Session(TakenBack(removed, r), s.items[item.value := Held(s.items, item.value) + 1]), true)
  }

  method RollbackFailedUndo(state: RuntimeState<real>, r: UndoRecord<real>)
    modifies state
    ensures state.Value() == PutBack(Inserted(old(state.Value()), r.regKey, r.group), r)
  {
    if r.regKey !in state.registered {
      state.registered := state.registered[r.regKey := r.group];
    }
    RestoreUndoRecord(state, r);
  }

  /**
   * What taking a record back takes from the player: legacy rewards only, a contribution is the build
   * sync's affair.
   */
  function TakenFromPlayer(s: Snapshot<real>, r: UndoRecord<real>, av: ActorValue): real {
    if r.contribution.Some? then 0.0 else SumFor(Adjustments(s.rewardTotals, r.rewardDeltas), av)
  }

  method TakeBack(state: RuntimeState<real>, actor: Actor, r: UndoRecord<real>)
    modifies state, actor
    ensures state.Value() == TakenBack(old(state.Value()), r)
    ensures forall av: ActorValue ::
      ViewOf(actor.sheet, av) == ViewOf(old(actor.sheet), av).Restored(TakenFromPlayer(old(state.Value()), r, av))
  {
    hide Adjustments, RewardsTakenBack;
    match r.contribution
    case Some(c) =>
      forall av: ActorValue ensures ViewOf(actor.sheet, av).Restored(0.0) == ViewOf(actor.sheet, av) {
        RestoredTwice(ViewOf(actor.sheet, av), 0.0, 0.0);
      }
      var _ := RollbackContribution(state, c);
    case None =>
      var _ := RollbackRewardDeltas(state, actor, true, r.rewardDeltas);
  }

  lemma SameTakenFromPlayer(s: Snapshot<real>, t: Snapshot<real>, r: UndoRecord<real>)
    requires s.rewardTotals == t.rewardTotals
    ensures forall av: ActorValue :: TakenFromPlayer(s, r, av) == TakenFromPlayer(t, r, av)
  {
  }

  /** What an undo takes from the player; nothing if it fails. */
  function UndoneForPlayer(g: Game, s: Session, actionId: u64, input: UndoInput, av: ActorValue): real {
    if Undoing(g, s, actionId, input).1 then
      TakenFromPlayer(s.state, s.state.undoHistory[|s.state.undoHistory| - 1], av)
    else 0.0
  }

  method TryUndoRegistration(g: Game, state: RuntimeState<real>, pack: Inventory, actor: Actor, actionId: u64,
      input: UndoInput)
    returns (success: bool)
    modifies state, pack, actor
    ensures (SessionOf(state, pack), success) == Undoing(g, old(SessionOf(state, pack)), actionId, input)
    ensures forall av: ActorValue ::
      ViewOf(actor.sheet, av) == ViewOf(old(actor.sheet), av).Restored(
        UndoneForPlayer(g, old(SessionOf(state, pack)), actionId, input, av))
  {
    hide PutBack, Inserted, TakenBack, TakenFromPlayer;
    forall av: ActorValue ensures ViewOf(actor.sheet, av).Restored(0.0) == ViewOf(actor.sheet, av) {
      RestoredTwice(ViewOf(actor.sheet, av), 0.0, 0.0);
    }
    var popped := PopLatestUndoRecord(state, actionId);
    if popped.None? {
      return false;
    }
    var r := popped.value;
    if r.regKey !in state.registered {
      RestoreUndoRecord(state, r);
      return false;
    }
    state.registered := state.registered - {r.regKey};
    var item := RestoreItem(g, r);
    if !input.playerAvailable || item.None? {
      RollbackFailedUndo(state, r);
      return false;
    }
    var had := pack.Count(item.value);
    pack.AddOne(item.value, input.accepts);
    if pack.Count(item.value) <= had {
      RollbackFailedUndo(state, r);
      return false;
    }
    SameTakenFromPlayer(old(state.Value()), state.Value(), r);
    TakeBack(state, actor, r);
    return true;
  }

  // ---- A failed undo -----------------------------------------------------------------------

  /** A failed undo restores the whole state exactly when the record agrees with the registered map and the ids. */
  lemma FailedUndoRestoresExactlyWhen(g: Game, s: Session, actionId: u64, input: UndoInput)
    requires !Undoing(g, s, actionId, input).1
    ensures Undoing(g, s, actionId, input).0 == s <==>
      (IsLatest(s.state, actionId) ==>
        var r := s.state.undoHistory[|s.state.undoHistory| - 1];
        && |s.state.undoHistory| <= UNDO_LIMIT
        && NextId(r.actionId) <= s.state.nextActionId
        && (r.regKey in s.state.registered ==> s.state.registered[r.regKey] == r.group))
  {
    if IsLatest(s.state, actionId) {
      var h := s.state.undoHistory;
      var r := h[|h| - 1];
      assert h[..|h| - 1] + [r] == h;
      var s' := Undoing(g, s, actionId, input).0;
      if r.regKey in s.state.registered {
        assert s'.state.registered == s.state.registered[r.regKey := r.group];
        assert s'.state.registered[r.regKey] == r.group;
        if s.state.registered[r.regKey] == r.group {
          assert s.state.registered == s.state.registered[r.regKey := r.group];
        }
      }
    }
  }

  // ---- Registering k items and undoing them ------------------------------------------------

  const WILLING := UndoInput(true, true)

  function RegisterAll(g: Game, s: Session, inputs: seq<RegisterInput>): Session
    decreases |inputs|
  {
    if inputs == [] then s else RegisterAll(g, Registering(g, s, inputs[0]).0, inputs[1..])
  }

  predicate AllRegister(g: Game, s: Session, inputs: seq<RegisterInput>)
    decreases |inputs|
  {
    inputs == []
      || (Registering(g, s, inputs[0]).1.Registered? && AllRegister(g, Registering(g, s, inputs[0]).0, inputs[1..]))
  }

  /** Undo the latest action `k` times; with nothing left to undo, nothing happens. */
  function UndoTimes(g: Game, s: Session, k: nat): Session {
    if k == 0 then s
    else
      var before := UndoTimes(g, s, k - 1);
      var h := before.state.undoHistory;
      if h == [] then before else Undoing(g, before, h[|h| - 1].actionId, WILLING).0
  }

  predicate HasRoom(p: PerDiscipline, d: nat) {
    p.attack + d <= U32_MAX && p.defense + d <= U32_MAX && p.utility + d <= U32_MAX
  }

  lemma LastOfLast<T>(h: seq<T>, x: T, m: nat)
    requires 1 <= m <= UNDO_LIMIT
    ensures var kept := Last(Last(h + [x], UNDO_LIMIT), m);
      kept != [] && kept[|kept| - 1] == x && kept[..|kept| - 1] == Last(h, m - 1)
  {
  }

  /** A registration and the undo of its record cancel out, up to the history and the next id. */
  lemma UndoInvertsOne(g: Game, s: Session, input: RegisterInput, history: seq<UndoRecord<real>>, nextId: u64)
    requires Registering(g, s, input).1.Registered?
    requires SlotsFit(s.state.slots, s.state.points)
    requires HasRoom(s.state.scores, 1) && HasRoom(s.state.points, MAX_POINTS_PER_FORM)
    requires history != []
    requires history[|history| - 1]
      == NewRecord(g, s.state, input.item, input.key.value).(actionId := s.state.nextActionId)
    ensures var after := Registering(g, s, input).0;
      var later := Session(after.state.(undoHistory := history, nextActionId := nextId), after.items);
      Undoing(g, later, history[|history| - 1].actionId, WILLING)
        == (Session(s.state.(undoHistory := history[..|history| - 1], nextActionId := nextId), s.items), true)
  {
    hide SlotsFit, Swept, Applied, RolledBack;
    var key := input.key.value;
    var r := NewRecord(g, s.state, input.item, key);
    TablesAgree(g.forms[key]);
    var s0 := s.state.(undoHistory := history[..|history| - 1], nextActionId := nextId);
    var after := Registering(g, s, input).0;
    assert r.contribution.Some?;
    var c := r.contribution.value;
    ApplyTouchesOnlyProgress(Inserted(s.state, key, r.group), c);
    ApplyTouchesOnlyProgress(s0, c);
    assert s.state.registered[key := r.group] - {key} == s.state.registered;
    RollbackUndoesApply(s0, c);
    assert s.items[input.item := Held(s.items, input.item) - 1][input.item := Held(s.items, input.item)] == s.items;
  }

  lemma ApplyTouchesOnlyProgress(s: Snapshot<real>, c: Contribution)
    ensures Applied(s, c) == s.(scores := Applied(s, c).scores, points := Applied(s, c).points)
    ensures forall t: Snapshot<real> | t.scores == s.scores && t.points == s.points ::
      Applied(t, c).scores == Applied(s, c).scores && Applied(t, c).points == Applied(s, c).points
  {
  }

  lemma RegisteringNeedsRoom(g: Game, s: Session, input: RegisterInput, k: nat)
    requires Registering(g, s, input).1.Registered? && k >= 1
    requires HasRoom(s.state.scores, k) && HasRoom(s.state.points, MAX_POINTS_PER_FORM * k)
    ensures var after := Registering(g, s, input).0.state;
      && HasRoom(after.scores, k - 1) && HasRoom(after.points, MAX_POINTS_PER_FORM * (k - 1))
      && AtMost(s.state.points, after.points) && after.slots == s.state.slots
  {
    TablesAgree(g.forms[input.key.value]);
  }

  /**
   * Up to ten registrations followed by as many undos restore everything but the history, which
   * keeps the longest suffix that still fits, and the next action id, which has moved on.
   */
  lemma {:induction false} UndoInvertsRegistrations(g: Game, s: Session, inputs: seq<RegisterInput>)
    requires |inputs| <= UNDO_LIMIT && AllRegister(g, s, inputs)
    requires SlotsFit(s.state.slots, s.state.points) && |s.state.undoHistory| <= UNDO_LIMIT
    requires HasRoom(s.state.scores, |inputs|) && HasRoom(s.state.points, MAX_POINTS_PER_FORM * |inputs|)
    requires s.state.nextActionId + |inputs| < U64_MODULUS
    ensures UndoTimes(g, RegisterAll(g, s, inputs), |inputs|) ==
      Session(s.state.(undoHistory := Last(s.state.undoHistory, UNDO_LIMIT - |inputs|),
                       nextActionId := s.state.nextActionId + |inputs|), s.items)
    decreases |inputs|
  {
    hide Registering, Undoing, SlotsFit, HasRoom, Last;
    var k := |inputs|;
    if k == 0 {
      LastIsAll(s.state.undoHistory, UNDO_LIMIT);
    } else {
      var after := Registering(g, s, inputs[0]).0;
      RegisteringNeedsRoom(g, s, inputs[0], k);
      FitWithMore(s.state.slots, s.state.points, after.state.points);
      RegisteredHistory(g, s, inputs[0]);
      UndoInvertsRegistrations(g, after, inputs[1..]);
      LastUndo(g, s, inputs[0], k);
    }
  }

  lemma LastIsAll<T>(s: seq<T>, n: nat)
    requires |s| <= n
    ensures Last(s, n) == s
  {
  }

  /** The last of `k` undos takes back the first of `k` registrations. */
  lemma LastUndo(g: Game, s: Session, input: RegisterInput, k: nat)
    requires 1 <= k <= UNDO_LIMIT && Registering(g, s, input).1.Registered?
    requires SlotsFit(s.state.slots, s.state.points) && s.state.nextActionId + k < U64_MODULUS
    requires HasRoom(s.state.scores, k) && HasRoom(s.state.points, MAX_POINTS_PER_FORM * k)
    ensures var after := Registering(g, s, input).0;
      var history := Last(after.state.undoHistory, UNDO_LIMIT - (k - 1));
      var later := Session(after.state.(undoHistory := history, nextActionId := s.state.nextActionId + k), after.items);
      && history != []
      && Undoing(g, later, history[|history| - 1].actionId, WILLING).0
         == Session(s.state.(undoHistory := Last(s.state.undoHistory, UNDO_LIMIT - k),
                             nextActionId := s.state.nextActionId + k), s.items)
  {
    hide Registering, Undoing, SlotsFit, Last;
    RegisteredHistory(g, s, input);
    var after := Registering(g, s, input).0;
    var r := NewRecord(g, s.state, input.item, input.key.value).(actionId := s.state.nextActionId);
    LastOfLast(s.state.undoHistory, r, UNDO_LIMIT - (k - 1));
    UndoInvertsOne(g, s, input, Last(after.state.undoHistory, UNDO_LIMIT - (k - 1)), s.state.nextActionId + k);
  }

  lemma RegisteredHistory(g: Game, s: Session, input: RegisterInput)
    requires Registering(g, s, input).1.Registered? && s.state.nextActionId + 1 < U64_MODULUS
    ensures input.key.Some? && input.key.value in g.forms
    ensures var r := NewRecord(g, s.state, input.item, input.key.value).(actionId := s.state.nextActionId);
      var after := Registering(g, s, input).0.state;
      && after.undoHistory == Last(s.state.undoHistory + [r], UNDO_LIMIT) && |after.undoHistory| <= UNDO_LIMIT
      && after.nextActionId == s.state.nextActionId + 1
  {
  }

  // ---- When registering and undoing go through -----------------------------------------------

  /** Neither the item nor its key is known to the plugin or kept from it, and the key is of a form that has a group. */
  ghost predicate IsNews(g: Game, s: Snapshot<real>, item: FormId, key: FormId) {
    && item in g.forms && key in g.forms && !g.forms[key].OtherForm?
    && item !in g.excluded && key !in g.excluded
    && item !in s.blocked && key !in s.blocked
    && item !in s.registered && key !in s.registered
  }

  ghost predicate IsOffered(input: RegisterInput) {
    && input.playerAvailable && input.inInventory
    && !input.questProtected && !input.questObject && !input.gateBlocks
  }

  lemma PassesExactlyWhen(g: Game, s: Snapshot<real>, input: RegisterInput)
    ensures PassesChecks(g, s, input)
      <==> IsOffered(input) && input.key.Some? && IsNews(g, s, input.item, input.key.value)
  {
  }

  /** The three outcomes of a registration, each exactly when. */
  lemma RegistersExactlyWhen(g: Game, s: Session, input: RegisterInput)
    ensures var outcome := Registering(g, s, input).1;
      var news := IsOffered(input) && input.key.Some? && IsNews(g, s.state, input.item, input.key.value);
      var leaves := input.removable && input.item in s.items && s.items[input.item] > 0;
      && (outcome.Registered? <==> news && input.named && input.safeToRemove && leaves)
      && (outcome.Banned? <==> news && (!input.named || (input.safeToRemove && !leaves)))
  {
    PassesExactlyWhen(g, s.state, input);
    hide PassesChecks, IsNews, IsOffered;
  }

  /** A registration takes one item, registers its key under its form's group, and may be undone; a ban only bans. */
  lemma RegistrationExactly(g: Game, s: Session, input: RegisterInput)
    requires !Registering(g, s, input).1.Refused?
    ensures input.key.Some? && input.key.value in g.forms
    ensures var (s', outcome) := Registering(g, s, input);
      var key, form := input.key.value, g.forms[input.key.value];
      if outcome.Banned? then
        s' == s.(state := s.state.(blocked := s.state.blocked + ({input.item, key} - {0})))
      else
        && input.item in s.items
        && s'.items == s.items[input.item := s.items[input.item] - 1]
        && s'.state == s.state.(registered := s.state.registered[key := GroupFromFormType(form)],
                                scores := s'.state.scores, points := s'.state.points,
                                undoHistory := s'.state.undoHistory, nextActionId := s'.state.nextActionId)
        && s'.state.undoHistory != []
        && var r := s'.state.undoHistory[|s'.state.undoHistory| - 1];
        && r.actionId == s.state.nextActionId && r.formId == input.item && r.regKey == key && r.rewardDeltas == []
        && r.contribution.Some? && r.contribution.value.recordDelta == 1
        && DisciplineOfFormType(form) == Some(r.contribution.value.discipline)
        && r.contribution.value.pointsDelta == PointsForFormType(form)
  {
    PassesExactlyWhen(g, s.state, input);
    if Registering(g, s, input).1.Registered? {
      TablesAgree(g.forms[input.key.value]);
      var r := NewRecord(g, s.state, input.item, input.key.value);
      ApplyTouchesOnlyProgress(Inserted(s.state, r.regKey, r.group), r.contribution.value);
      hide Applied, PassesChecks;
    } else {
      hide PassesChecks;
    }
  }

  /** An undo goes through exactly for the latest action, while its key is registered and a form of it can be given. */
  lemma UndoesExactlyWhen(g: Game, s: Session, actionId: u64, input: UndoInput)
    ensures Undoing(g, s, actionId, input).1 <==>
      && s.state.undoHistory != []
      && var r := s.state.undoHistory[|s.state.undoHistory| - 1];
      && r.actionId == actionId && r.regKey in s.state.registered
      && (r.formId in g.forms || r.regKey in g.forms) && input.playerAvailable && input.accepts
  {
    hide TakenBack;
  }

  /** It gives the item back, or its key's form where the item's is gone, and forgets the key and the record. */
  lemma UndoExactly(g: Game, s: Session, actionId: u64, input: UndoInput)
    requires Undoing(g, s, actionId, input).1
    ensures s.state.undoHistory != []
    ensures var s' := Undoing(g, s, actionId, input).0;
      var n := |s.state.undoHistory| - 1;
      var r := s.state.undoHistory[n];
      var item := if r.formId in g.forms then r.formId else r.regKey;
      && s'.items == s.items[item := (if item in s.items then s.items[item] else 0) + 1]
      && s'.state == s.state.(registered := s.state.registered - {r.regKey}, undoHistory := s.state.undoHistory[..n],
                              scores := s'.state.scores, points := s'.state.points, slots := s'.state.slots,
                              rewardTotals := s'.state.rewardTotals)
      && (r.contribution.Some? ==> s'.state.rewardTotals == s.state.rewardTotals)
      && (r.contribution.None? ==> s'.state.scores == s.state.scores && s'.state.points == s.state.points
                                   && s'.state.slots == s.state.slots)
  {
    hide Swept, RewardsTakenBack;
  }
}
