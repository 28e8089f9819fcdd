// The reward sync pass engine: compare every tracked reward with the actor, wait for a
// missing streak, correct, and guard against values that do not converge.
//
// Each actor value goes through a pass on its own, so a pass is a function of one value's
// state. The run theorem follows that function until every value is quiet.
module SyncEngine {
  import opened ActorValues
  import opened Actors
  import opened RewardsResync

  const MIN_MISSING_STREAK: nat := 3
  const SHOUT_FLOOR: real := 0.30

  datatype AvState = AvState(views: Views, streak: nat, skipped: bool)
  datatype Outcome = Outcome(next: AvState, corrected: bool, pending: bool)

  predicate IsBaseSticky(av: ActorValue) { av in {HEALTH, MAGICKA, STAMINA} }

  /** The reward sits in the temporary channel, where an older version put it. */
  predicate IsMigrationCandidate(v: Views, total: real) {
    v.permanentModifier <= EPSILON && total > EPSILON && v.temporary >= total - EPSILON
  }

  predicate UsesBaseSticky(av: ActorValue) {
    av != CARRY_WEIGHT && RewardCap(av).None? && IsBaseSticky(av)
  }

  function DeltaFor(av: ActorValue, total: real, v: Views, migrating: bool): real {
    if av == CARRY_WEIGHT then CarryWeightDelta(v, total)
    else if RewardCap(av).Some? then CappedDelta(v, total, RewardCap(av).value)
    else if IsBaseSticky(av) && !migrating then BaseStickyDelta(v, total)
    else SyncDelta(v.permanentModifier, total)
  }

  function WantedDelta(av: ActorValue, total: real, v: Views): real {
    DeltaFor(av, total, v, IsMigrationCandidate(v, total))
  }

  predicate SuppressionSkips(av: ActorValue, total: real, v: Views) {
    && UsesBaseSticky(av) && !IsMigrationCandidate(v, total)
    && Abs(total) > EPSILON && Abs(WantedDelta(av, total, v)) <= EPSILON && SuppressesBaseSticky(v, total)
  }

  function NextMissingStreak(delta: real, streak: nat): nat {
    if Abs(delta) <= EPSILON then 0 else streak + 1
  }

  predicate ShouldApplyAfterStreak(delta: real, streak: nat) {
    Abs(delta) > EPSILON && streak >= MIN_MISSING_STREAK
  }

  /** The temporary channel holds as much as the correction, so the correction is taken out of it again. */
  predicate MovesOut(v: Views, delta: real) {
    v.permanentModifier <= EPSILON && delta > EPSILON && v.temporary >= delta - EPSILON
  }

  /** The restore itself, and the move out of the temporary channel when that holds the reward. */
  function Applied(v: Views, delta: real): Views {
    var w := v.Restored(delta);
    if MovesOut(v, delta) then w.Modded(-delta) else w
  }

  /** One actor value in one pass. */
  function PassOne(av: ActorValue, total: real, s: AvState): Outcome {
    if s.skipped then Outcome(s, false, false)
    else
      var v := s.views;
      var delta := WantedDelta(av, total, v);
      var skip := SuppressionSkips(av, total, v);
      var streak := NextMissingStreak(delta, s.streak);
      var immediate := av == CARRY_WEIGHT && Abs(delta) > EPSILON;
      if !immediate && !ShouldApplyAfterStreak(delta, streak) then
        Outcome(AvState(v, streak, skip), false, Abs(delta) > EPSILON)
      else if av == SHOUT_RECOVERY_MULT && v.current <= SHOUT_FLOOR then
        Outcome(AvState(v, 0, skip), false, false)
      else
        var applied :=
          if av == SHOUT_RECOVERY_MULT && v.current + delta < SHOUT_FLOOR then SHOUT_FLOOR - v.current else delta;
        if Abs(applied) <= EPSILON then Outcome(AvState(v, 0, skip), false, false)
        else
          var w := Applied(v, applied);
          var postDelta := DeltaFor(av, total, w, IsMigrationCandidate(v, total));
          var stuck := Abs(postDelta) > EPSILON && Abs(postDelta - applied) <= EPSILON;
          Outcome(AvState(w, 0, skip || stuck), true, false)
  }

  type Totals = map<ActorValue, real>

  /** The totals a pass works on: clamped, snapped for skills, and above the tolerance. */
  function EffectiveTotals(store: Totals): Totals {
    map av | av in store && Abs(ActorAppliedRewardTotal(av, ClampRewardTotal(av, store[av]))) > EPSILON
      :: ActorAppliedRewardTotal(av, ClampRewardTotal(av, store[av]))
  }

  /** The view selected after a correction of which the current view shows nothing. */
  function ObservedAfter(v: Views, target: real, d: real): real {
    SelectObserved(target, v.current - v.base, v.permanent - v.base + d, v.permanentModifier + d)
  }

  /**
   * A capped correction that is moved out of the temporary channel leaves the current view where it
   * was; the reward is still short unless the view selected after the move has come close enough.
   */
  predicate StaysShort(av: ActorValue, total: real, v: Views) {
    match RewardCap(av)
    case None => false
    case Some(cap) =>
      var target := Min(total, cap);
      var d := CappedDelta(v, total, cap);
      MovesOut(v, d)
      && ObservedAfter(v, target, d) < target - EPSILON
  }

  datatype Prepared = Prepared(total: Option<real>, views: Views)

  /** std::clamp(observed, 0, stored), branch for branch. */
  function RemovableLegacy(observed: real, stored: real): real {
    if observed < 0.0 then 0.0 else if stored < observed then stored else observed
  }

  /** Cap normalisation of one stored total, in the store and on the player. */
  function CapOne(av: ActorValue, total: real, v: Views): Prepared {
    var capped := ClampRewardTotal(av, total);
    if Abs(capped - total) <= EPSILON then Prepared(Some(total), v)
    else
      var delta := CapNormalizationDelta(v, capped);
      Prepared(if Abs(capped) <= EPSILON then None else Some(capped),
               if delta >= -EPSILON then v else v.Restored(delta))
  }

  /** The first pass's preparation: the retired attack-damage reward is taken out, the others are capped. */
  function PrepareOne(av: ActorValue, total: real, v: Views): Prepared {
    if av == ATTACK_DAMAGE_MULT then
      var removable :=
        RemovableLegacy(SelectObserved(total, v.current - v.base, v.permanent - v.base, v.permanentModifier), total);
      Prepared(None, if Abs(total) > EPSILON && removable > EPSILON then v.Modded(-removable) else v)
    else CapOne(av, total, v)
  }

  predicate ShouldStop(corrected: nat, pending: nat) { corrected == 0 && pending == 0 }

  // ---- What the player should have in the end ----------------------------------------------

  /** The rewards the passes follow by the permanent modifier alone. */
  predicate FollowsModifier(av: ActorValue, total: real, v: Views) {
    || av == CARRY_WEIGHT
    || (RewardCap(av).None? && av !in {HEALTH, MAGICKA, STAMINA})
    || (RewardCap(av).None? && v.permanentModifier <= EPSILON && total > EPSILON && v.temporary >= total - EPSILON)
  }

  /** The view selected for health, magicka and stamina: a positive total is not sought in the current view. */
  function StickyView(v: Views, total: real): real {
    if total > 0.0 then SelectObserved(total, v.permanent - v.base, v.permanentModifier, v.permanentModifier)
    else Observed(v, total)
  }

  /** The reward is with the player, as far as the views can tell. */
  predicate Reached(av: ActorValue, total: real, v: Views) {
    if FollowsModifier(av, total, v) then Reaches(v.permanentModifier, total)
    else
      match RewardCap(av)
      case Some(cap) =>
        var target := Min(total, cap);
        var shown, selected := Reaches(v.current - v.base, target), Reaches(Observed(v, target), target);
        if target > 0.0 then shown || selected else shown && selected
      case None =>
        || (total > EPSILON && Abs(v.permanent - v.base) <= EPSILON && Abs(v.permanentModifier) <= EPSILON)
        || Reaches(StickyView(v, total), total)
  }

  /** What a reward that has not reached the player lacks. */
  function Lack(av: ActorValue, total: real, v: Views): real {
    if FollowsModifier(av, total, v) then total - v.permanentModifier
    else
      match RewardCap(av)
      case Some(cap) => Min(Min(total, cap) - (v.current - v.base), Min(total, cap) - Observed(v, Min(total, cap)))
      case None => total - StickyView(v, total)
  }

  /** The views once that has been given for good, out of the temporary channel where that holds as much. */
  function Given(v: Views, lack: real): Views {
    if v.permanentModifier <= EPSILON && lack > EPSILON && v.temporary >= lack - EPSILON then
      Views(v.base, v.current, v.permanent + lack, v.permanentModifier + lack, v.temporary - lack)
    else Views(v.base, v.current + lack, v.permanent + lack, v.permanentModifier + lack, v.temporary)
  }

  /** What one correction gives: all that is lacking, but shout recovery goes no lower than 0.30. */
  function Amount(av: ActorValue, total: real, v: Views): real {
    if av == SHOUT_RECOVERY_MULT && v.current + Lack(av, total, v) < 0.30 then 0.30 - v.current else Lack(av, total, v)
  }

  /** The reward is lacking and can be given. */
  predicate Takes(av: ActorValue, total: real, v: Views) {
    && !Reached(av, total, v)
    && (av == SHOUT_RECOVERY_MULT ==> v.current > 0.30 && Abs(Amount(av, total, v)) > EPSILON)
  }

  /** Where a run should leave an actor value: alone, or given what it lacked, once. */
  function End(av: ActorValue, total: real, start: Views): Views {
    if Takes(av, total, start) then Given(start, Amount(av, total, start)) else start
  }

  /** A run has brought the reward in: its one correction, if any, was enough; shout recovery may stop at its floor. */
  predicate BroughtIn(av: ActorValue, total: real, start: Views, v: Views) {
    && v == End(av, total, start)
    && (Reached(av, total, v) || (av == SHOUT_RECOVERY_MULT && v.current <= 0.30 + EPSILON))
  }

  /** The branches of the pass add up to this: nothing for a reward that has reached the player, else what it lacks. */
  lemma WantedIsTheLack(av: ActorValue, total: real, v: Views)
    ensures WantedDelta(av, total, v) == if Reached(av, total, v) then 0.0 else Lack(av, total, v)
    ensures Satisfied(av, total, v) <==> Reached(av, total, v)
  {
    SyncDeltaExactly(v.permanentModifier, total);
    if RewardCap(av).Some? {
      CappedDeltaExactly(v, total, RewardCap(av).value);
    }
    BaseStickyDeltaExactly(v, total);
    hide SelectObserved, SyncDelta, CappedDelta, BaseStickyDelta;
  }

  lemma AppliedIsGiven(v: Views, d: real)
    ensures Applied(v, d) == Given(v, d)
  {
  }

  /**
   * One pass over one actor value, said from the outside: carry weight is given what it lacks at once, every
   * other value when it has been found lacking for the third time in a row; until then it waits.
   */
  lemma PassExactly(av: ActorValue, total: real, s: AvState)
    ensures var o := PassOne(av, total, s);
      var v := s.views;
      var lacking := !s.skipped && !Reached(av, total, v);
      var due := av == CARRY_WEIGHT || s.streak >= 2;
      && (o.corrected <==> lacking && due && Takes(av, total, v))
      && (o.pending <==> lacking && !due)
      && o.next.views == (if o.corrected then End(av, total, v) else v)
      && o.next.streak == (if s.skipped then s.streak else if o.pending then s.streak + 1 else 0)
  {
    WantedIsTheLack(av, total, s.views);
    AppliedIsGiven(s.views, Amount(av, total, s.views));
    hide WantedDelta, DeltaFor, Reached, Lack, Applied, Given, SuppressionSkips;
  }

  /** Health, magicka and stamina without any trace of their reward are given up for the rest of the run, untouched. */
  lemma UntracedIsGivenUp(av: ActorValue, total: real, s: AvState)
    requires av in {HEALTH, MAGICKA, STAMINA} && !s.skipped && !FollowsModifier(av, total, s.views)
    requires total > EPSILON && Abs(s.views.permanent - s.views.base) <= EPSILON
    requires Abs(s.views.permanentModifier) <= EPSILON
    ensures PassOne(av, total, s) == Outcome(AvState(s.views, 0, true), false, false)
    ensures forall later: Views ::
      PassOne(av, total, AvState(later, 0, true)) == Outcome(AvState(later, 0, true), false, false)
  {
    hide SelectObserved;
  }

  /** Nothing else is given up but what a correction has left lacking as much as before. */
  lemma GivenUpOnlyWhen(av: ActorValue, total: real, s: AvState)
    requires !s.skipped && PassOne(av, total, s).next.skipped
    ensures var v := s.views;
      || (av in {HEALTH, MAGICKA, STAMINA} && !FollowsModifier(av, total, v) && !PassOne(av, total, s).corrected
          && total > EPSILON && Abs(v.permanent - v.base) <= EPSILON && Abs(v.permanentModifier) <= EPSILON)
      || (PassOne(av, total, s).corrected && !Reached(av, total, End(av, total, v)))
  {
    PassExactly(av, total, s);
    hide SelectObserved;
  }

  // ---- One actor value over the passes of a run -------------------------------------------

  predicate Satisfied(av: ActorValue, total: real, v: Views) {
    Abs(WantedDelta(av, total, v)) <= EPSILON
  }

  /** Nothing is wanted any more, or shout recovery has been given up at its floor. */
  predicate Quiet(av: ActorValue, total: real, s: AvState) {
    Satisfied(av, total, s.views) || (av == SHOUT_RECOVERY_MULT && s.skipped && s.views.current <= SHOUT_FLOOR)
  }

  /** Shout recovery at its floor: wanted, never given. */
  predicate AtFloor(av: ActorValue, total: real, s: AvState) {
    && av == SHOUT_RECOVERY_MULT && !s.skipped
    && Abs(WantedDelta(av, total, s.views)) > EPSILON
    && (s.views.current <= SHOUT_FLOOR
        || (s.views.current + WantedDelta(av, total, s.views) < SHOUT_FLOOR
           && Abs(SHOUT_FLOOR - s.views.current) <= EPSILON))
  }

  /** Where an actor value can be after `passes` passes that found it `start` at first. */
  predicate Shape(passes: nat, av: ActorValue, total: real, start: Views, s: AvState, corrections: nat) {
    || (Quiet(av, total, s) && corrections <= 1)
    || (passes < MIN_MISSING_STREAK && s == AvState(start, passes, false) && corrections == 0)
    || (passes >= MIN_MISSING_STREAK && AtFloor(av, total, s) && s.streak == passes % MIN_MISSING_STREAK
       && corrections <= 1)
  }

  lemma QuietStaysQuiet(av: ActorValue, total: real, s: AvState)
    requires Quiet(av, total, s)
    ensures var o := PassOne(av, total, s);
      !o.corrected && !o.pending && o.next.views == s.views && Quiet(av, total, o.next)
  {
  }

  /** One full correction is the last one a value needs, exactly unless it leaves a capped reward short. */
  lemma CorrectionIsFinalExactlyWhen(av: ActorValue, total: real, v: Views, d: real)
    requires d == WantedDelta(av, total, v) && Abs(d) > EPSILON
    ensures Satisfied(av, total, Applied(v, d)) <==> !StaysShort(av, total, v)
  {
    var w := Applied(v, d);
    if av == CARRY_WEIGHT {
      assert w.permanentModifier == total;
    } else if RewardCap(av).Some? {
      CappedCorrection(total, RewardCap(av).value, v, d);
    } else if IsBaseSticky(av) {
      StickyCorrectionIsFinal(total, v, d);
    } else {
      assert w.permanentModifier == total;
    }
  }

  lemma CappedCorrection(total: real, cap: real, v: Views, d: real)
    requires d == CappedDelta(v, total, cap) && Abs(d) > EPSILON
    ensures var target := Min(total, cap);
      Abs(CappedDelta(Applied(v, d), total, cap)) > EPSILON
      <==> MovesOut(v, d)
           && ObservedAfter(v, target, d) < target - EPSILON
  {
    if !MovesOut(v, d) {
      CappedDeltaIsOneShot(v, total, cap);
    }
    hide SelectObserved;
  }

  /**
   * For an actor whose permanent value is its base and its permanent modifier: a capped reward stays
   * short exactly when its correction is moved out and the current view is ahead of the modifier by
   * more than the tolerance, or by so little less that the correction ties with that lead.
   */
  lemma StaysShortExactlyWhen(av: ActorValue, total: real, v: Views)
    requires RewardCap(av).Some? && v.permanent - v.base == v.permanentModifier
    ensures var d := WantedDelta(av, total, v);
      var shown := v.current - v.base;
      var lead := shown - v.permanentModifier;
      StaysShort(av, total, v)
      <==> MovesOut(v, d) && (lead > EPSILON || (d - lead <= TIE && Abs(shown) <= Abs(v.permanentModifier + d)))
  {
    hide *;
    var cap := RewardCap(av).value;
    var d := CappedDelta(v, total, cap);
    StaysShortSelected(av, total, cap, v, d);
    if MovesOut(v, d) {
      MovesOutBounds(v, d);
      CappedFillsTheGap(total, cap, v, d);
      SelectTwo(Min(total, cap), v.current - v.base, v.permanentModifier);
      MovedOutIsShort(Min(total, cap), v.current - v.base, v.permanentModifier, d);
    }
  }

  lemma MovesOutBounds(v: Views, d: real)
    requires MovesOut(v, d)
    ensures v.permanentModifier <= EPSILON && d > EPSILON
  {
  }

  lemma StaysShortSelected(av: ActorValue, total: real, cap: real, v: Views, d: real)
    requires RewardCap(av) == Some(cap) && v.permanent - v.base == v.permanentModifier
    requires d == CappedDelta(v, total, cap)
    ensures WantedDelta(av, total, v) == d
    ensures StaysShort(av, total, v) <==>
      MovesOut(v, d)
        && Selected(Min(total, cap), v.current - v.base, v.permanentModifier + d) < Min(total, cap) - EPSILON
  {
    SelectTwo(Min(total, cap), v.current - v.base, v.permanentModifier + d);
    hide SelectObserved, Selected, CappedDelta;
  }

  lemma CappedFillsTheGap(total: real, cap: real, v: Views, d: real)
    requires d == CappedDelta(v, total, cap) && d > EPSILON
    ensures var target := Min(total, cap);
      target > EPSILON && d == Min(target - (v.current - v.base),
        target - SelectObserved(target, v.current - v.base, v.permanent - v.base, v.permanentModifier))
  {
    hide SelectObserved;
  }

  /** The view selected from the shown amount and the amount held, which stands for both permanent views. */
  function Selected(target: real, shown: real, held: real): real {
    Consider(Consider(Choice(shown, Abs(target - shown)), target, held), target, held).best
  }

  lemma MovedOutIsShort(target: real, shown: real, held: real, d: real)
    requires target > EPSILON && held <= EPSILON && d > EPSILON
    requires d == Min(target - shown, target - Selected(target, shown, held))
    ensures Selected(target, shown, held + d) < target - EPSILON
      <==> shown - held > EPSILON || (d - (shown - held) <= TIE && Abs(shown) <= Abs(held + d))
  {
  }

  lemma SelectTwo(expected: real, a: real, b: real)
    ensures SelectObserved(expected, a, b, b) == Selected(expected, a, b)
  {
    assert [b, b][1..] == [b] && [b][1..] == [];
    var c := Choice(a, Abs(expected - a));
    assert ConsiderAll(c, expected, [b, b]) == ConsiderAll(Consider(c, expected, b), expected, [b]);
  }

  lemma StickyCorrectionIsFinal(total: real, v: Views, d: real)
    requires d == if IsMigrationCandidate(v, total) then SyncDelta(v.permanentModifier, total)
      else BaseStickyDelta(v, total)
    requires Abs(d) > EPSILON
    ensures var w := Applied(v, d);
      !IsMigrationCandidate(w, total) && BaseStickyDelta(w, total) == 0.0
  {
    var w := Applied(v, d);
    if IsMigrationCandidate(v, total) {
      assert w.permanentModifier == total;
      ReachedMeansDone(total, w.permanent - w.base, w.permanentModifier, w.permanentModifier);
    } else {
      BaseStickyDeltaIsOneShot(v, total);
      StickySign(v, total);
      assert total > 0.0 ==> BaseStickyDelta(w, total) == BaseStickyDelta(v.Restored(d), total);
    }
  }

  lemma DeltaSign(observed: real, total: real)
    ensures var d := SyncDelta(observed, total);
      d != 0.0 ==> Abs(total) > EPSILON && (d > 0.0 <==> total > 0.0)
  {
  }

  lemma StickySign(v: Views, total: real)
    ensures var d := BaseStickyDelta(v, total);
      d != 0.0 ==> Abs(total) > EPSILON && (d > 0.0 <==> total > 0.0)
  {
    if total > 0.0 {
      DeltaSign(SelectObserved(total, v.permanent - v.base, v.permanentModifier, v.permanentModifier), total);
    } else {
      DeltaSign(SelectObserved(total, v.current - v.base, v.permanent - v.base, v.permanentModifier), total);
    }
  }

  lemma ShoutCorrectionIsFinal(total: real, v: Views, delta: real)
    requires delta == WantedDelta(SHOUT_RECOVERY_MULT, total, v) && Abs(delta) > EPSILON && v.current > SHOUT_FLOOR
    ensures var applied := if v.current + delta < SHOUT_FLOOR then SHOUT_FLOOR - v.current else delta;
      Abs(applied) > EPSILON ==>
        var s := AvState(Applied(v, applied), 0, false);
        Quiet(SHOUT_RECOVERY_MULT, total, s) || AtFloor(SHOUT_RECOVERY_MULT, total, s)
  {
    assert delta == SyncDelta(v.permanentModifier, total);
  }

  lemma PassKeepsShape(passes: nat, av: ActorValue, total: real, start: Views, s: AvState, corrections: nat)
    requires Shape(passes, av, total, start, s, corrections) && !StaysShort(av, total, start)
    ensures var o := PassOne(av, total, s);
      && Shape(passes + 1, av, total, start, o.next, corrections + if o.corrected then 1 else 0)
      && ((if av == SHOUT_RECOVERY_MULT then 5 else 3) <= passes < 6 ==> !o.corrected && !o.pending)
  {
    hide StaysShort;
    if Quiet(av, total, s) {
      QuietStaysQuiet(av, total, s);
    } else if passes < MIN_MISSING_STREAK {
      FirstCorrection(passes, av, total, s);
    }
  }

  lemma FirstCorrection(passes: nat, av: ActorValue, total: real, s: AvState)
    requires !StaysShort(av, total, s.views) && !Quiet(av, total, s) && !s.skipped
    requires s.streak == passes < MIN_MISSING_STREAK
    ensures var o := PassOne(av, total, s);
      || Quiet(av, total, o.next)
      || (passes + 1 < MIN_MISSING_STREAK && o.next == AvState(s.views, passes + 1, false) && !o.corrected)
      || (passes + 1 == MIN_MISSING_STREAK && AtFloor(av, total, o.next) && o.next.streak == 0)
  {
    hide StaysShort;
    var delta := WantedDelta(av, total, s.views);
    if av == SHOUT_RECOVERY_MULT {
      if s.views.current > SHOUT_FLOOR {
        ShoutCorrectionIsFinal(total, s.views, delta);
      }
    } else {
      CorrectionIsFinalExactlyWhen(av, total, s.views, delta);
    }
  }

  /** With no correction the views are those at the start, with one they are where the run should leave them. */
  predicate Traced(av: ActorValue, total: real, start: Views, s: AvState, corrections: nat) {
    && (corrections == 0 ==> s.views == start)
    && (corrections == 1 ==> Takes(av, total, start) && s.views == End(av, total, start))
  }

  lemma PassKeepsTrace(av: ActorValue, total: real, start: Views, s: AvState, corrections: nat)
    requires Traced(av, total, start, s, corrections)
    ensures var o := PassOne(av, total, s);
      Traced(av, total, start, o.next, corrections + if o.corrected then 1 else 0)
  {
    PassExactly(av, total, s);
    hide PassOne, Takes, End, Reached;
  }

  lemma EndIsShortExactlyWhen(av: ActorValue, total: real, start: Views)
    requires av != SHOUT_RECOVERY_MULT && Takes(av, total, start)
    ensures Reached(av, total, End(av, total, start)) <==> !StaysShort(av, total, start)
  {
    var d := Lack(av, total, start);
    WantedIsTheLack(av, total, start);
    WantedIsTheLack(av, total, Given(start, d));
    AppliedIsGiven(start, d);
    CorrectionIsFinalExactlyWhen(av, total, start, d);
    hide WantedDelta, Reached, Lack, Applied, Given, StaysShort;
  }

  /** A reward that stays short is not brought in with one correction, however the run goes. */
  lemma ShortIsNotSettled(av: ActorValue, total: real, start: Views, s: AvState, corrections: nat)
    requires Traced(av, total, start, s, corrections) && StaysShort(av, total, start)
    ensures !(corrections <= 1 && Reached(av, total, s.views))
  {
    ShortIsLacking(av, total, start);
    if corrections == 1 {
      EndIsShortExactlyWhen(av, total, start);
    }
  }

  lemma ShortIsLacking(av: ActorValue, total: real, start: Views)
    requires StaysShort(av, total, start)
    ensures !Reached(av, total, start) && av != SHOUT_RECOVERY_MULT
  {
    WantedIsTheLack(av, total, start);
    hide SelectObserved;
  }

  /** A value at rest after at most one correction is where the run should leave it. */
  lemma RestIsBroughtIn(av: ActorValue, total: real, start: Views, s: AvState, corrections: nat)
    requires Traced(av, total, start, s, corrections) && corrections <= 1
    requires Quiet(av, total, s) || AtFloor(av, total, s)
    ensures BroughtIn(av, total, start, s.views)
  {
    WantedIsTheLack(av, total, s.views);
    hide WantedDelta, Reached, Lack, Given;
  }

  /** Preparation only lowers, leaves nothing above a cap, and does not touch the temporary channel of what it keeps. */
  lemma PreparationKeepsFresh(av: ActorValue, total: real, s: AvState)
    ensures var p := PrepareOne(av, total, s.views);
      && p.views.permanentModifier <= s.views.permanentModifier
      && (p.total.Some? ==> p.views.temporary == s.views.temporary && av != ATTACK_DAMAGE_MULT)
      && (p.total.Some? ==> ClampRewardTotal(av, p.total.value) == p.total.value)
      && (p.total.Some? ==> PrepareOne(av, p.total.value, p.views) == p)
  {
    hide SelectObserved;
  }

  /**
   * The preparation, said from the outside: one retired reward is taken out, and what is above its cap
   * is cut to it.
   */
  lemma PreparationExactly(av: ActorValue, total: real, v: Views)
    ensures var p := PrepareOne(av, total, v);
      var shown := Observed(v, total);
      var taken := if total > EPSILON && shown > EPSILON then Min(shown, total) else 0.0;
      && (av == ATTACK_DAMAGE_MULT ==>
            p == Prepared(None,
              Views(v.base, v.current - taken, v.permanent, v.permanentModifier, v.temporary - taken)))
      && (av != ATTACK_DAMAGE_MULT && (RewardCap(av).Some? ==> total <= RewardCap(av).value + EPSILON) ==>
            p == Prepared(Some(total), v))
      && (av != ATTACK_DAMAGE_MULT && RewardCap(av).Some? && total > RewardCap(av).value + EPSILON ==>
            var cap := RewardCap(av).value;
            var surplus := Max(0.0, Observed(v, cap) - cap);
            p == Prepared(Some(cap), if surplus <= EPSILON then v else v.Restored(-surplus)))
  {
    if RewardCap(av).Some? {
      CapNormalizationDeltaExactly(v, RewardCap(av).value);
    }
    hide SelectObserved, CapNormalizationDelta;
  }

  lemma FloorOfWhole(n: int)
    ensures (n as real).Floor == n
  {
  }

  lemma WholePoints(x: real)
    ensures var t := Trunc(x);
      t == t.Floor as real && Abs(t) <= Abs(x) < Abs(t) + 1.0 && (x >= 0.0 ==> t >= 0.0) && (x <= 0.0 ==> t <= 0.0)
  {
    if x >= 0.0 {
      FloorOfWhole(x.Floor);
    } else {
      var m := (-x).Floor;
      assert Trunc(x) == (-m) as real;
      FloorOfWhole(-m);
    }
  }

  /**
   * What of a stored total the passes work on: all of it up to the cap, skills in whole points, and
   * nothing negligible.
   */
  lemma EffectiveTotalsExactly(store: Totals, av: ActorValue)
    ensures var totals := EffectiveTotals(store);
      var wanted := if RewardCap(av).Some? && av in store && store[av] > RewardCap(av).value + EPSILON
                    then RewardCap(av).value else if av in store then store[av] else 0.0;
      && (!IsSkill(av) ==> (av in totals <==> Abs(wanted) > EPSILON) && (av in totals ==> totals[av] == wanted))
      && (IsSkill(av) ==>
            && (av in totals ==> totals[av] == totals[av].Floor as real && totals[av] != 0.0
                                 && Abs(totals[av] - wanted) < 1.0
                                    && Abs(totals[av]) <= Abs(wanted) + SKILL_SNAP_EPSILON)
            && (Abs(wanted) >= 1.0 ==> av in totals))
  {
    hide Round, Trunc;
    if IsSkill(av) && av in store {
      SkillTotal(av, store[av]);
    }
    hide ActorAppliedRewardTotal;
    if !IsSkill(av) && av in store {
      PlainTotal(av, store[av]);
    }
  }

  lemma PlainTotal(av: ActorValue, total: real)
    requires !IsSkill(av)
    ensures ActorAppliedRewardTotal(av, ClampRewardTotal(av, total)) == ClampRewardTotal(av, total)
  {
  }

  lemma SkillTotal(av: ActorValue, total: real)
    requires IsSkill(av)
    ensures var applied := ActorAppliedRewardTotal(av, ClampRewardTotal(av, total));
      && applied == applied.Floor as real && Abs(applied - total) < 1.0
      && Abs(applied) <= Abs(total) + SKILL_SNAP_EPSILON && (Abs(total) >= 1.0 ==> Abs(applied) >= 1.0)
  {
    assert ClampRewardTotal(av, total) == total;
    WholePoints(total);
    WholePoints(Round(total));
    RoundIsWhole(total);
    hide ClampRewardTotal, Trunc, Round;
  }

  lemma RoundExactly(x: real, n: int)
    requires n as real <= x < n as real + 1.0
    ensures Round(x) == if (if x >= 0.0 then x - n as real < 0.5 else n as real + 1.0 - x >= 0.5) then n as real
                        else n as real + 1.0
  {
    if x >= 0.0 {
      assert (x + 0.5).Floor == if x - n as real < 0.5 then n else n + 1;
    } else {
      assert (-x + 0.5).Floor == if n as real + 1.0 - x < 0.5 then -n - 1 else -n;
    }
  }

  lemma TruncExactly(x: real, n: int)
    requires n as real <= x < n as real + 1.0
    ensures Trunc(x) == if x >= 0.0 || x == n as real then n as real else n as real + 1.0
  {
    if x >= 0.0 {
      FloorIs(x, n);
    } else if x == n as real {
      FloorIs(-x, -n);
    } else {
      FloorIs(-x, -n - 1);
    }
  }

  lemma FloorIs(x: real, n: int)
    requires n as real <= x < n as real + 1.0
    ensures x.Floor == n
  {
  }

  /** A skill gets the whole points of its total, towards zero, but a total within 0.0001 of a whole number is that. */
  lemma SkillPointsExactly(av: ActorValue, total: real, n: int)
    requires IsSkill(av) && n as real <= total < n as real + 1.0
    ensures var low := n as real;
      ActorAppliedRewardTotal(av, total)
        == if total - low <= 0.0001 then low
           else if low + 1.0 - total <= 0.0001 then low + 1.0
           else if total >= 0.0 then low else low + 1.0
  {
    assert ClampRewardTotal(av, total) == total;
    RoundExactly(total, n);
    TruncExactly(total, n);
    TruncExactly(n as real, n);
    TruncExactly((n + 1) as real, n + 1);
    hide Round, Trunc, ClampRewardTotal, IsSkill;
  }

  lemma RoundIsWhole(x: real)
    ensures Trunc(Round(x)) == Round(x)
  {
  }

  /** A capped reward partly in the temporary channel that is corrected, found as short as before, and given up. */
  lemma TemporaryRewardIsLeftShort()
    ensures var v := Views(0.0, 6.0, 0.0, 0.0, 6.0);
      var o := PassOne(CRITICAL_CHANCE, 10.0, AvState(v, 2, false));
      && StaysShort(CRITICAL_CHANCE, 10.0, v)
      && o.corrected && o.next.skipped && WantedDelta(CRITICAL_CHANCE, 10.0, o.next.views) == 4.0
  {
    hide DeltaFor, RewardCap, IsMigrationCandidate, Applied, StaysShort, SuppressionSkips;
    StillFourShort(0.0, 6.0);
    StillFourShort(4.0, 2.0);
    MovedOut();
    CorrectionIsFinalExactlyWhen(CRITICAL_CHANCE, 10.0, Views(0.0, 6.0, 0.0, 0.0, 6.0), 4.0);
  }

  lemma MovedOut()
    ensures Applied(Views(0.0, 6.0, 0.0, 0.0, 6.0), 4.0) == Views(0.0, 6.0, 4.0, 4.0, 2.0)
  {
  }

  lemma StillFourShort(shown: real, temporary: real)
    requires 0.0 <= shown <= 4.0 && 0.0 < temporary < 9.0
    ensures var v := Views(0.0, 6.0, shown, shown, temporary);
      !IsMigrationCandidate(v, 10.0) && DeltaFor(CRITICAL_CHANCE, 10.0, v, false) == 4.0
  {
    SelectSix(shown);
    hide SelectObserved;
  }

  lemma SelectSix(x: real)
    requires 0.0 <= x <= 4.0
    ensures SelectObserved(10.0, 6.0, x, x) == 6.0
  {
    assert [x, x][1..] == [x] && [x][1..] == [];
    var c := Choice(6.0, 4.0);
    assert Consider(c, 10.0, x) == c;
    assert ConsiderAll(c, 10.0, [x]) == ConsiderAll(c, 10.0, []);
    assert ConsiderAll(c, 10.0, [x, x]) == ConsiderAll(c, 10.0, [x]);
  }

  // ---- The run -----------------------------------------------------------------------------

  /** The player's views, the missing streaks and the non-converging set, all keyed by actor value. */
  type StateMap = map<ActorValue, AvState>
  type CountMap = map<ActorValue, nat>

  function ValueOf(values: StateMap, av: ActorValue): AvState {
    if av in values then values[av] else AvState(NO_VIEWS, 0, false)
  }

  function CountOf(counts: CountMap, av: ActorValue): nat {
    if av in counts then counts[av] else 0
  }

  function TotalAt(totals: Totals, av: ActorValue): Option<real> {
    if av in totals then Some(totals[av]) else None
  }

  ghost predicate IsPass(totals: Totals, before: StateMap, counts: CountMap, after: StateMap, counts': CountMap) {
    forall av | av in totals ::
      var o := PassOne(av, totals[av], ValueOf(before, av));
      ValueOf(after, av) == o.next && CountOf(counts', av) == CountOf(counts, av) + if o.corrected then 1 else 0
  }

  ghost predicate IsCleanPass(totals: Totals, before: StateMap) {
    forall av | av in totals ::
      var o := PassOne(av, totals[av], ValueOf(before, av));
      !o.corrected && !o.pending
  }

  class SyncRun {
    var values: StateMap
    ghost var corrections: CountMap

    constructor (sheet: Sheet)
      ensures values == map av | av in sheet :: AvState(sheet[av], 0, false)
      ensures corrections == map[]
    {
      values := map av | av in sheet :: AvState(sheet[av], 0, false);
      corrections := map[];
    }

    /** A run taken up again from what it remembers between its passes. */
    constructor Resume(sheet: Sheet, streaks: map<ActorValue, nat>, nonConverging: set<ActorValue>)
      ensures corrections == map[]
      ensures values.Keys == sheet.Keys + streaks.Keys + nonConverging
      ensures forall av: ActorValue ::
        ValueOf(values, av) == AvState(ViewOf(sheet, av), CountOf(streaks, av), av in nonConverging)
    {
      values := map av | av in sheet.Keys + streaks.Keys + nonConverging
        :: AvState(ViewOf(sheet, av), CountOf(streaks, av), av in nonConverging);
      corrections := map[];
    }

    /** PrepareRewardSyncPass, over the stored totals in any order. */
    method Prepare(store: Totals) returns (prepared: Totals)
      modifies this`values
      ensures forall av | av in store :: var p := PrepareOne(av, store[av], ValueOf(old(values), av).views);
        TotalAt(prepared, av) == p.total && ValueOf(values, av) == ValueOf(old(values), av).(views := p.views)
      ensures forall av: ActorValue | av !in store ::
        av !in prepared && ValueOf(values, av) == ValueOf(old(values), av)
    {
      hide PrepareOne;
      prepared := map[];
      var rest := store.Keys;
      while rest != {}
        invariant rest <= store.Keys && prepared.Keys !! rest
        invariant forall av: ActorValue | av in rest || av !in store ::
          av !in prepared && ValueOf(values, av) == ValueOf(old(values), av)
        invariant forall av | av in store && av !in rest ::
          var p := PrepareOne(av, store[av], ValueOf(old(values), av).views);
          TotalAt(prepared, av) == p.total && ValueOf(values, av) == ValueOf(old(values), av).(views := p.views)
      {
        var av :| av in rest;
        var p := PrepareOne(av, store[av], ValueOf(values, av).views);
        values := values[av := ValueOf(values, av).(views := p.views)];
        if p.total.Some? {
          prepared := prepared[av := p.total.value];
        }
        rest := rest - {av};
      }
    }

    /** One turn of the pass loop. */
    method CorrectOne(av: ActorValue, total: real) returns (corrected: bool, pending: bool)
      modifies this
      ensures var o := PassOne(av, total, ValueOf(old(values), av));
        && corrected == o.corrected && pending == o.pending && values == old(values)[av := o.next]
        && corrections == old(corrections)[av := CountOf(old(corrections), av) + if corrected then 1 else 0]
    {
      hide DeltaFor;
      corrected, pending := false, false;
      var s := ValueOf(values, av);
      if !s.skipped {
        var v := s.views;
        var migrating := IsMigrationCandidate(v, total);
        var delta := DeltaFor(av, total, v, migrating);
        var skip := SuppressionSkips(av, total, v);
        var streak := NextMissingStreak(delta, s.streak);
        if !(av == CARRY_WEIGHT && Abs(delta) > EPSILON) && !ShouldApplyAfterStreak(delta, streak) {
          pending := Abs(delta) > EPSILON;
        } else {
          streak := 0;
          if !(av == SHOUT_RECOVERY_MULT && v.current <= SHOUT_FLOOR) {
            if av == SHOUT_RECOVERY_MULT && v.current + delta < SHOUT_FLOOR {
              delta := SHOUT_FLOOR - v.current;
            }
            if Abs(delta) > EPSILON {
              v := Applied(v, delta);
              corrected := true;
              var postDelta := DeltaFor(av, total, v, migrating);
              skip := skip || (Abs(postDelta) > EPSILON && Abs(postDelta - delta) <= EPSILON);
            }
          }
        }
        s := AvState(v, streak, skip);
      }
      values := values[av := s];
      corrections := corrections[av := CountOf(corrections, av) + if corrected then 1 else 0];
    }

    /** ApplyRewardSyncPass: every tracked value once, in any order. */
    method ApplyPass(totals: Totals) returns (corrected: nat, pending: nat)
      modifies this
      ensures IsPass(totals, old(values), old(corrections), values, corrections)
      ensures ShouldStop(corrected, pending) <==> IsCleanPass(totals, old(values))
      ensures forall av: ActorValue | av !in totals :: ValueOf(values, av) == ValueOf(old(values), av)
    {
      hide PassOne;
      corrected, pending := 0, 0;
      var rest := totals.Keys;
      while rest != {}
        invariant rest <= totals.Keys
        invariant forall av: ActorValue | av !in totals :: ValueOf(values, av) == ValueOf(old(values), av)
        invariant forall av | av in rest ::
          ValueOf(values, av) == ValueOf(old(values), av) && CountOf(corrections, av) == CountOf(old(corrections), av)
        invariant forall av | av in totals && av !in rest :: var o := PassOne(av, totals[av], ValueOf(old(values), av));
          ValueOf(values, av) == o.next
            && CountOf(corrections, av) == CountOf(old(corrections), av) + if o.corrected then 1 else 0
        invariant corrected == 0 && pending == 0 <==> forall av | av in totals && av !in rest ::
          var o := PassOne(av, totals[av], ValueOf(old(values), av)); !o.corrected && !o.pending
      {
        var av :| av in rest;
        var c, p := CorrectOne(av, totals[av]);
        rest := rest - {av};
        corrected := corrected + if c then 1 else 0;
        pending := pending + if p then 1 else 0;
      }
    }

    /** A whole run as the source starts it: preparation on the first pass, then the pass loop. */
    method RunFromStore(store: Totals, passCount: nat)
      returns (prepared: Totals, ghost start: StateMap, passes: nat, converged: bool)
      requires corrections == map[] && IsFreshRun(values)
      requires passCount >= 6
      modifies this
      ensures forall av | av in store :: (var p := PrepareOne(av, store[av], ValueOf(old(values), av).views);
        TotalAt(prepared, av) == p.total && ValueOf(start, av) == ValueOf(old(values), av).(views := p.views))
      ensures forall av | av in prepared :: av in store && ClampRewardTotal(av, prepared[av]) == prepared[av]
      ensures AllSettle(EffectiveTotals(prepared), start) ==>
        && converged && passes <= (if SHOUT_RECOVERY_MULT in prepared then 6 else 4)
        && IsDone(EffectiveTotals(prepared), start, values, corrections)
      ensures converged ==> SettledExactlyWhen(EffectiveTotals(prepared), start, values, corrections)
    {
      ghost var before := values;
      prepared := Prepare(store);
      start := values;
      forall av | av in prepared ensures av in store && ClampRewardTotal(av, prepared[av]) == prepared[av] {
        PreparationKeepsFresh(av, store[av], ValueOf(before, av));
      }
      assert IsFreshRun(values) by { PreparedIsFresh(store, before, values); }
      hide IsDone, AllSettle, SettledExactlyWhen, PrepareOne;
      passes, converged := RunRewardSyncPasses(EffectiveTotals(prepared), passCount);
    }

    /**
     * The tasks of one run back to back: pass after pass until one neither corrects nor waits,
     * or the budget is used up.
     */
    method RunRewardSyncPasses(totals: Totals, passCount: nat) returns (passes: nat, converged: bool)
      requires corrections == map[] && IsFreshRun(values)
      requires passCount >= 6
      modifies this
      ensures passes <= passCount
      ensures AllSettle(totals, old(values)) ==>
        && converged && passes <= (if SHOUT_RECOVERY_MULT in totals then 6 else 4)
        && IsDone(totals, old(values), values, corrections)
      ensures converged ==> SettledExactlyWhen(totals, old(values), values, corrections)
    {
      ghost var start := values;
      hide *;
      StartIsShaped(totals, start);
      passes, converged := 0, false;
      var remaining := passCount;
      while true
        invariant passes + remaining == passCount && remaining >= 1
        invariant AllSettle(totals, start) ==> passes < 6 && (passes >= 4 ==> SHOUT_RECOVERY_MULT in totals)
        invariant IsShaped(passes, totals, start, values, corrections)
        invariant IsTraced(totals, start, values, corrections)
        decreases remaining
      {
        ghost var before, counts := values, corrections;
        var corrected, pending := ApplyPass(totals);
        PassKeepsAllShapes(passes, totals, start, before, counts, values, corrections);
        PassKeepsAllTraces(totals, start, before, counts, values, corrections);
        passes := passes + 1;
        if ShouldStop(corrected, pending) {
          CleanPassSettles(passes - 1, totals, start, before, counts, values, corrections);
          return passes, true;
        }
        if remaining <= 1 {
          return passes, false;
        }
        remaining := remaining - 1;
      }
    }
  }

  /** No streaks and nothing given up, as every run begins. */
  ghost predicate IsFreshRun(values: StateMap) {
    forall av | av in values :: values[av].streak == 0 && !values[av].skipped
  }

  ghost predicate AllSettle(totals: Totals, start: StateMap) {
    forall av | av in totals :: !StaysShort(av, totals[av], ValueOf(start, av).views)
  }

  /** Every value was corrected at most once, and is where the run should leave it. */
  ghost predicate IsDone(totals: Totals, start: StateMap, values: StateMap, counts: CountMap) {
    forall av | av in totals ::
      CountOf(counts, av) <= 1 && BroughtIn(av, totals[av], ValueOf(start, av).views, ValueOf(values, av).views)
  }

  /** One correction at most has brought a value in, exactly if it was not one that stays short. */
  ghost predicate SettledExactlyWhen(totals: Totals, start: StateMap, values: StateMap, counts: CountMap) {
    forall av | av in totals && av != SHOUT_RECOVERY_MULT ::
      CountOf(counts, av) <= 1 && BroughtIn(av, totals[av], ValueOf(start, av).views, ValueOf(values, av).views)
      <==> !StaysShort(av, totals[av], ValueOf(start, av).views)
  }

  ghost predicate IsShaped(passes: nat, totals: Totals, start: StateMap, values: StateMap, counts: CountMap) {
    forall av | av in totals && !StaysShort(av, totals[av], ValueOf(start, av).views) ::
      Shape(passes, av, totals[av], ValueOf(start, av).views, ValueOf(values, av), CountOf(counts, av))
  }

  ghost predicate IsTraced(totals: Totals, start: StateMap, values: StateMap, counts: CountMap) {
    forall av | av in totals ::
      Traced(av, totals[av], ValueOf(start, av).views, ValueOf(values, av), CountOf(counts, av))
  }

  lemma PreparedIsFresh(store: Totals, before: StateMap, after: StateMap)
    requires IsFreshRun(before)
    requires forall av | av in store :: ValueOf(after, av) == ValueOf(before, av).(views := ValueOf(after, av).views)
    requires forall av: ActorValue | av !in store :: ValueOf(after, av) == ValueOf(before, av)
    ensures IsFreshRun(after)
  {
    forall av | av in after ensures after[av].streak == 0 && !after[av].skipped {
      assert ValueOf(after, av) == after[av];
    }
  }

  lemma StartIsShaped(totals: Totals, start: StateMap)
    requires IsFreshRun(start)
    ensures IsShaped(0, totals, start, start, map[]) && IsTraced(totals, start, start, map[])
  {
    forall av | av in totals
      ensures Shape(0, av, totals[av], ValueOf(start, av).views, ValueOf(start, av), 0)
      ensures Traced(av, totals[av], ValueOf(start, av).views, ValueOf(start, av), 0)
    {
      assert ValueOf(start, av) == AvState(ValueOf(start, av).views, 0, false);
    }
  }

  lemma PassKeepsAllShapes(passes: nat, totals: Totals, start: StateMap, before: StateMap, counts: CountMap,
                           after: StateMap, counts': CountMap)
    requires IsShaped(passes, totals, start, before, counts) && IsPass(totals, before, counts, after, counts')
    ensures IsShaped(passes + 1, totals, start, after, counts')
    ensures AllSettle(totals, start) && (if SHOUT_RECOVERY_MULT in totals then 5 else 3) <= passes < 6
      ==> IsCleanPass(totals, before)
  {
    hide Shape, PassOne, StaysShort;
    forall av | av in totals && !StaysShort(av, totals[av], ValueOf(start, av).views)
      ensures Shape(passes + 1, av, totals[av], ValueOf(start, av).views, ValueOf(after, av), CountOf(counts', av))
      ensures (if av == SHOUT_RECOVERY_MULT then 5 else 3) <= passes < 6 ==>
        (var o := PassOne(av, totals[av], ValueOf(before, av)); !o.corrected && !o.pending)
    {
      PassKeepsShape(passes, av, totals[av], ValueOf(start, av).views, ValueOf(before, av), CountOf(counts, av));
    }
  }

  lemma PassKeepsAllTraces(totals: Totals, start: StateMap, before: StateMap, counts: CountMap, after: StateMap,
      counts': CountMap)
    requires IsTraced(totals, start, before, counts) && IsPass(totals, before, counts, after, counts')
    ensures IsTraced(totals, start, after, counts')
  {
    hide Traced, PassOne;
    forall av | av in totals
      ensures Traced(av, totals[av], ValueOf(start, av).views, ValueOf(after, av), CountOf(counts', av))
    {
      PassKeepsTrace(av, totals[av], ValueOf(start, av).views, ValueOf(before, av), CountOf(counts, av));
    }
  }

  /** A shaped value that a pass leaves alone is satisfied, given up, or held at the shout floor. */
  lemma CleanMeansDone(passes: nat, av: ActorValue, total: real, start: Views, s: AvState, corrections: nat)
    requires Shape(passes, av, total, start, s, corrections)
    ensures var o := PassOne(av, total, s);
      !o.corrected && !o.pending ==> corrections <= 1 && (Quiet(av, total, o.next) || AtFloor(av, total, o.next))
  {
    if Quiet(av, total, s) {
      QuietStaysQuiet(av, total, s);
    }
  }

  lemma CleanPassSettles(passes: nat, totals: Totals, start: StateMap, before: StateMap, counts: CountMap,
                         after: StateMap, counts': CountMap)
    requires IsShaped(passes, totals, start, before, counts) && IsPass(totals, before, counts, after, counts')
    requires IsCleanPass(totals, before) && IsTraced(totals, start, after, counts')
    ensures AllSettle(totals, start) ==> IsDone(totals, start, after, counts')
    ensures SettledExactlyWhen(totals, start, after, counts')
  {
    hide PassOne, StaysShort, Shape, Traced, Quiet, AtFloor, Reached, End;
    forall av | av in totals
      ensures !StaysShort(av, totals[av], ValueOf(start, av).views) ==>
        CountOf(counts', av) <= 1 && BroughtIn(av, totals[av], ValueOf(start, av).views, ValueOf(after, av).views)
      ensures StaysShort(av, totals[av], ValueOf(start, av).views) && av != SHOUT_RECOVERY_MULT ==>
        !(CountOf(counts', av) <= 1 && Reached(av, totals[av], ValueOf(after, av).views))
    {
      if StaysShort(av, totals[av], ValueOf(start, av).views) {
        ShortIsNotSettled(av, totals[av], ValueOf(start, av).views, ValueOf(after, av), CountOf(counts', av));
      } else {
        CleanMeansDone(passes, av, totals[av], ValueOf(start, av).views, ValueOf(before, av), CountOf(counts, av));
        RestIsBroughtIn(av, totals[av], ValueOf(start, av).views, ValueOf(after, av), CountOf(counts', av));
      }
    }
  }
}
