// The correction arithmetic of reward sync: which observed view to believe and how much to add.
module RewardsResync {
  import opened ActorValues
  import opened Actors

  const TIE: real := 0.000001

  datatype Choice = Choice(best: real, bestDiff: real)

  /** One turn of the candidate loop. A tie changes the choice but not the recorded difference. */
  function Consider(c: Choice, expected: real, candidate: real): Choice {
    var diff := Abs(expected - candidate);
    if diff + TIE < c.bestDiff then Choice(candidate, diff)
    else if Abs(diff - c.bestDiff) <= TIE && Abs(candidate) < Abs(c.best) then c.(best := candidate)
    else c
  }

  function ConsiderAll(c: Choice, expected: real, candidates: seq<real>): Choice
    decreases |candidates|
  {
    if candidates == [] then c
    else ConsiderAll(Consider(c, expected, candidates[0]), expected, candidates[1..])
  }

  function SelectObserved(expected: real, fromCurrent: real, fromPermanent: real, modifier: real): real {
    ConsiderAll(Choice(fromCurrent, Abs(expected - fromCurrent)), expected, [fromPermanent, modifier]).best
  }

  method SelectObservedRewardTotal(expected: real, fromCurrent: real, fromPermanent: real,
      modifier: real)
    returns (best: real)
    ensures best == SelectObserved(expected, fromCurrent, fromPermanent, modifier)
  {
    var candidates := [fromCurrent, fromPermanent, modifier];
    best := candidates[0];
    var bestDiff := Abs(expected - best);
    var i := 1;
    assert candidates[1..] == [fromPermanent, modifier];
    while i < |candidates|
      invariant 1 <= i <= |candidates|
      invariant ConsiderAll(Choice(best, bestDiff), expected, candidates[i..]).best
             == SelectObserved(expected, fromCurrent, fromPermanent, modifier)
    {
      var candidate := candidates[i];
      var diff := Abs(expected - candidate);
      assert candidates[i..][1..] == candidates[i + 1..];
      if diff + TIE < bestDiff {
        best := candidate;
        bestDiff := diff;
      } else if Abs(diff - bestDiff) <= TIE && Abs(candidate) < Abs(best) {
        best := candidate;
      }
      i := i + 1;
    }
  }

  function SyncDelta(observed: real, expected: real): real {
    var missing := expected - observed;
    if Abs(expected) <= EPSILON then 0.0
    else if expected > 0.0 then (if missing > EPSILON then missing else 0.0)
    else if missing < -EPSILON then missing else 0.0
  }

  function SyncDeltaFromSnapshot(v: Views, expected: real): real {
    SyncDelta(SelectObserved(expected, v.current - v.base, v.permanent - v.base, v.permanentModifier), expected)
  }

  predicate SuppressesBaseSticky(v: Views, expected: real) {
    expected > EPSILON && Abs(v.permanent - v.base) <= EPSILON && Abs(v.permanentModifier) <= EPSILON
  }

  function BaseStickyDelta(v: Views, expected: real): real {
    if SuppressesBaseSticky(v, expected) then 0.0
    else if expected > 0.0 then
      SyncDelta(SelectObserved(expected, v.permanent - v.base, v.permanentModifier, v.permanentModifier), expected)
    else SyncDeltaFromSnapshot(v, expected)
  }

  function SyncDeltaFromCurrent(v: Views, expected: real): real {
    SyncDelta(v.current - v.base, expected)
  }

  function MergeCandidates(expected: real, a: real, b: real): real {
    if Abs(expected) <= EPSILON then 0.0
    else if expected > 0.0 then Max(0.0, Max(a, b))
    else Min(0.0, Min(a, b))
  }

  /** Only the permanent modifier counts for carry weight. */
  function CarryWeightDelta(v: Views, expected: real): real {
    SyncDelta(v.permanentModifier, expected)
  }

  /** Capped values move up only when both the current view and the selected view miss the reward. */
  function CappedDelta(v: Views, expected: real, cap: real): real {
    var target := Min(expected, cap);
    var fromCurrent := SyncDeltaFromCurrent(v, target);
    var fromSnapshot := SyncDeltaFromSnapshot(v, target);
    if target > 0.0 then
      if fromCurrent <= EPSILON || fromSnapshot <= EPSILON then 0.0 else Min(fromCurrent, fromSnapshot)
    else MergeCandidates(target, fromCurrent, fromSnapshot)
  }

  function CapNormalizationDelta(v: Views, cappedTotal: real): real {
    var observed := SelectObserved(cappedTotal, v.current - v.base, v.permanent - v.base, v.permanentModifier);
    var delta := cappedTotal - observed;
    if delta < -EPSILON then delta else 0.0
  }

  // ---- What the selection guarantees -----------------------------------------------------

  /** What the loop maintains about the candidates considered so far. */
  ghost predicate Fair(c: Choice, expected: real, seen: set<real>) {
    && c.best in seen
    && Abs(expected - c.best) <= c.bestDiff + TIE
    && forall x | x in seen :: c.bestDiff <= Abs(expected - x) + TIE
  }

  /** For any number of candidates: the stale difference never drifts past one tie width. */
  lemma {:induction false} ConsiderAllStaysFair(c: Choice, expected: real, candidates: seq<real>, seen: set<real>)
    requires Fair(c, expected, seen)
    ensures Fair(ConsiderAll(c, expected, candidates), expected, seen + set x | x in candidates)
    decreases |candidates|
  {
    if candidates == [] {
      assert seen + (set x | x in candidates) == seen;
    } else {
      var head := candidates[0];
      assert Fair(Consider(c, expected, head), expected, seen + {head});
      ConsiderAllStaysFair(Consider(c, expected, head), expected, candidates[1..], seen + {head});
      assert seen + (set x | x in candidates) == seen + {head} + set x | x in candidates[1..];
    }
  }

  /** The chosen view is a candidate and no candidate is more than two tie widths closer. */
  lemma SelectionIsNearlyClosest(expected: real, a: real, b: real, c: real)
    ensures var r := SelectObserved(expected, a, b, c);
      && (r == a || r == b || r == c)
      && Abs(expected - r) <= Abs(expected - a) + 2.0 * TIE
      && Abs(expected - r) <= Abs(expected - b) + 2.0 * TIE
      && Abs(expected - r) <= Abs(expected - c) + 2.0 * TIE
  {
    ConsiderAllStaysFair(Choice(a, Abs(expected - a)), expected, [b, c], {a});
    var seen := {a} + set x | x in [b, c];
    assert b in [b, c] && c in [b, c];
    assert a in seen && b in seen && c in seen;
  }

  /** Two widths, not one: the tie-break keeps comparing against the difference of the choice it replaced. */
  lemma TieBreakIsStale()
    ensures SelectObserved(1.0, 0.9, 0.899999, 0.900001) == 0.899999
    ensures Abs(1.0 - 0.899999) == Abs(1.0 - 0.900001) + 2.0 * TIE
  {
    assert [0.899999, 0.900001][1..] == [0.900001];
  }

  /** If some view already shows the expected total, no correction is asked for. */
  lemma ReachedMeansDone(expected: real, a: real, b: real, c: real)
    requires expected == a || expected == b || expected == c
    ensures SyncDelta(SelectObserved(expected, a, b, c), expected) == 0.0
  {
    SelectionIsNearlyClosest(expected, a, b, c);
  }

  // ---- One shot: a correction, once applied, is never asked for again ---------------------

  /** Moving every view by what the chosen one lacks leaves nothing to correct. */
  lemma ShiftReaches(expected: real, a: real, b: real, c: real, d: real)
    requires d == SyncDelta(SelectObserved(expected, a, b, c), expected)
    ensures SyncDelta(SelectObserved(expected, a + d, b + d, c + d), expected) == 0.0
  {
    if d != 0.0 {
      SelectionIsNearlyClosest(expected, a, b, c);
      ReachedMeansDone(expected, a + d, b + d, c + d);
    } else {
      assert a + d == a && b + d == b && c + d == c;
    }
  }

  lemma RestoredShiftsEveryView(v: Views, d: real)
    ensures var w := v.Restored(d);
      && w.current - w.base == v.current - v.base + d
      && w.permanent - w.base == v.permanent - v.base + d
      && w.permanentModifier == v.permanentModifier + d
  {
  }

  lemma SnapshotDeltaIsOneShot(v: Views, expected: real)
    ensures SyncDeltaFromSnapshot(v.Restored(SyncDeltaFromSnapshot(v, expected)), expected) == 0.0
  {
    var d := SyncDeltaFromSnapshot(v, expected);
    RestoredShiftsEveryView(v, d);
    ShiftReaches(expected, v.current - v.base, v.permanent - v.base, v.permanentModifier, d);
  }

  lemma BaseStickyDeltaIsOneShot(v: Views, expected: real)
    ensures BaseStickyDelta(v.Restored(BaseStickyDelta(v, expected)), expected) == 0.0
  {
    var d := BaseStickyDelta(v, expected);
    RestoredShiftsEveryView(v, d);
    if SuppressesBaseSticky(v, expected) {
      assert v.Restored(0.0) == v;
    } else if expected > 0.0 {
      ShiftReaches(expected, v.permanent - v.base, v.permanentModifier, v.permanentModifier, d);
    } else {
      SnapshotDeltaIsOneShot(v, expected);
    }
  }

  /** The view that the capped form follows is at the target once its delta has been applied. */
  lemma CappedDeltaReaches(target: real, a: real, b: real, c: real, d: real)
    requires d == SyncDelta(a, target) || d == SyncDelta(SelectObserved(target, a, b, c), target)
    requires d != 0.0
    ensures SyncDelta(SelectObserved(target, a + d, b + d, c + d), target) == 0.0
  {
    if d == SyncDelta(a, target) {
      ReachedMeansDone(target, a + d, b + d, c + d);
    } else {
      ShiftReaches(target, a, b, c, d);
    }
  }

  lemma CappedDeltaIsOneShot(v: Views, expected: real, cap: real)
    ensures CappedDelta(v.Restored(CappedDelta(v, expected, cap)), expected, cap) == 0.0
  {
    var target := Min(expected, cap);
    var d := CappedDelta(v, expected, cap);
    RestoredShiftsEveryView(v, d);
    if d == 0.0 {
      assert v.Restored(0.0) == v;
    } else {
      CappedDeltaReaches(target, v.current - v.base, v.permanent - v.base, v.permanentModifier, d);
      if target < 0.0 {
        CurrentViewIsDone(v.current - v.base, target, d);
      }
    }
  }

  lemma CurrentViewIsDone(a: real, target: real, d: real)
    requires target < 0.0 && d < 0.0 && d <= SyncDelta(a, target)
    ensures SyncDelta(a + d, target) == 0.0
  {
  }

  lemma CarryWeightDeltaIsOneShot(v: Views, expected: real)
    ensures CarryWeightDelta(v.Restored(CarryWeightDelta(v, expected)), expected) == 0.0
  {
    var d := CarryWeightDelta(v, expected);
    assert d != 0.0 ==> v.Restored(d).permanentModifier == expected;
  }

  lemma CapNormalizationIsOneShot(v: Views, cappedTotal: real)
    ensures CapNormalizationDelta(v.Restored(CapNormalizationDelta(v, cappedTotal)), cappedTotal) == 0.0
  {
    var d := CapNormalizationDelta(v, cappedTotal);
    var a, b, c := v.current - v.base, v.permanent - v.base, v.permanentModifier;
    RestoredShiftsEveryView(v, d);
    if d == 0.0 {
      assert v.Restored(0.0) == v;
    } else {
      SelectionIsNearlyClosest(cappedTotal, a, b, c);
      SelectionIsNearlyClosest(cappedTotal, a + d, b + d, c + d);
    }
  }

  // ---- No overshoot ------------------------------------------------------------------------

  /** A capped reward never lifts the current or the selected view past the smaller of total and cap. */
  lemma CappedDeltaNeverOvershoots(v: Views, expected: real, cap: real)
    requires Min(expected, cap) > 0.0
    ensures var target := Min(expected, cap);
      var d := CappedDelta(v, expected, cap);
      var selected := SelectObserved(target, v.current - v.base, v.permanent - v.base, v.permanentModifier);
      && d >= 0.0
      && (d > 0.0 ==> v.current - v.base + d <= target && selected + d <= target)
      && (d > 0.0 ==> v.current - v.base + d == target || selected + d == target)
  {
  }

  /** Corrections go towards the expected total and never past what the believed view lacks. */
  lemma SnapshotDeltaFillsTheGap(v: Views, expected: real)
    ensures var d := SyncDeltaFromSnapshot(v, expected);
      var selected := SelectObserved(expected, v.current - v.base, v.permanent - v.base, v.permanentModifier);
      && (d != 0.0 ==> selected + d == expected && (d > 0.0 <==> expected > 0.0))
      && (d == 0.0 <==> Abs(expected) <= EPSILON || (expected > 0.0 && selected >= expected - EPSILON)
                        || (expected < 0.0 && selected <= expected + EPSILON))
  {
  }

  // ---- When a correction is asked for, and how large it is ----------------------------------

  /** An observed amount that shows the expected total in its direction, up to the tolerance. */
  predicate Reaches(observed: real, expected: real) {
    && (expected > EPSILON ==> observed >= expected - EPSILON)
    && (expected < -EPSILON ==> observed <= expected + EPSILON)
  }

  /** The basic rule: nothing if the observed amount reaches the total, else all that lacks. */
  lemma SyncDeltaExactly(observed: real, expected: real)
    ensures SyncDelta(observed, expected) == if Reaches(observed, expected) then 0.0 else expected - observed
  {
  }

  lemma CarryWeightDeltaExactly(v: Views, expected: real)
    ensures CarryWeightDelta(v, expected)
      == if Reaches(v.permanentModifier, expected) then 0.0 else expected - v.permanentModifier
  {
  }

  /** The view selected from all three, as the amount above the base. */
  function Observed(v: Views, expected: real): real {
    SelectObserved(expected, v.current - v.base, v.permanent - v.base, v.permanentModifier)
  }

  /**
   * For a positive total one view that reaches it is enough and the smaller lack is filled; for a negative
   * one both views must reach it and the larger lack is filled.
   */
  lemma CappedDeltaExactly(v: Views, expected: real, cap: real)
    ensures var target := Min(expected, cap);
      var shown, selected := v.current - v.base, Observed(v, target);
      var reached := if target > 0.0 then Reaches(shown, target) || Reaches(selected, target)
                     else Reaches(shown, target) && Reaches(selected, target);
      CappedDelta(v, expected, cap) == if reached then 0.0 else Min(target - shown, target - selected)
  {
    hide SelectObserved;
  }

  /** A positive total waits for some trace of it in the permanent channel; the current view is not asked. */
  lemma BaseStickyDeltaExactly(v: Views, expected: real)
    ensures var grown, held := v.permanent - v.base, v.permanentModifier;
      var selected := if expected > 0.0 then SelectObserved(expected, grown, held, held) else Observed(v, expected);
      var untraced := expected > EPSILON && Abs(grown) <= EPSILON && Abs(held) <= EPSILON;
      BaseStickyDelta(v, expected) == if untraced || Reaches(selected, expected) then 0.0 else expected - selected
  {
    hide SelectObserved;
  }

  /** Above its cap a value is lowered, to the cap exactly; below it is left alone. */
  lemma CapNormalizationDeltaExactly(v: Views, capped: real)
    ensures var selected := Observed(v, capped);
      CapNormalizationDelta(v, capped) == if selected <= capped + EPSILON then 0.0 else capped - selected
  {
    hide SelectObserved;
  }
}
