// Scores, build points and the six active slots: what a registration adds, what an undo takes
// back, and which options may stay active.
module Progression {
  import opened ActorValues
  import opened Catalog
  import opened State

  datatype FormType = Weapon | Ammo | Armor | AlchemyItem | Ingredient | Book | Scroll | SoulGem | Misc | OtherForm

  const UNKNOWN_GROUP: u32 := 255

  function GroupFromFormType(form: FormType): u32 {
    match form
    case Weapon => 0
    case Ammo => 0
    case Armor => 1
    case AlchemyItem => 2
    case Ingredient => 3
    case Book => 4
    case Scroll => 5
    case SoulGem => 5
    case Misc => 5
    case OtherForm => UNKNOWN_GROUP
  }

  function DisciplineOfGroup(group: u32): Discipline {
    if group == 0 then Attack else if group == 1 then Defense else Utility
  }

  function PointsForFormType(form: FormType): u32 {
    match form
    case Weapon => 70
    case Ammo => 20
    case Armor => 30
    case AlchemyItem => 25
    case Ingredient => 10
    case Book => 8
    case Scroll => 18
    case SoulGem => 30
    case Misc => 5
    case OtherForm => 0
  }

  function DisciplineOfFormType(form: FormType): Option<Discipline> {
    match form
    case Weapon => Some(Attack)
    case Ammo => Some(Attack)
    case Armor => Some(Defense)
    case OtherForm => None
    case _ => Some(Utility)
  }

  const MAX_POINTS_PER_FORM: u32 := 70

  /** The group, discipline and point tables speak of the same form types in the same way. */
  lemma TablesAgree(form: FormType)
    ensures GroupFromFormType(form) <= 5 <==> DisciplineOfFormType(form).Some?
    ensures GroupFromFormType(form) <= 5 <==> PointsForFormType(form) > 0
    ensures GroupFromFormType(form) <= 5 ==>
      DisciplineOfFormType(form) == Some(DisciplineOfGroup(GroupFromFormType(form)))
    ensures PointsForFormType(form) <= MAX_POINTS_PER_FORM
  {
  }

  function MakeContribution(group: u32, form: FormType): Option<Contribution> {
    var points := PointsForFormType(form);
    if group > 5 || points == 0 then None else Some(Contribution(DisciplineOfGroup(group), 1, points))
  }

  // ---- Applying and rolling back a contribution --------------------------------------------

  function AddCapped(x: u32, d: u32): u32 { if x > U32_MAX - d then U32_MAX else x + d }

  function SubFloored(x: u32, d: u32): u32 { if x > d then x - d else 0 }

  predicate IsEffective(c: Contribution) { c.recordDelta > 0 && c.pointsDelta > 0 }

  function Applied<F>(s: Snapshot<F>, c: Contribution): Snapshot<F> {
    if !IsEffective(c) then s
    else s.(scores := s.scores.With(c.discipline, AddCapped(s.scores.Get(c.discipline), c.recordDelta)),
            points := s.points.With(c.discipline, AddCapped(s.points.Get(c.discipline), c.pointsDelta)))
  }

  predicate MayStay(slots: Slots, points: PerDiscipline, i: SlotId) {
    slots[i] == "" || IsEligible(slots[i], i, points)
  }

  /** The first `n` slots swept: an option that no longer fits or is no longer unlocked is deactivated. */
  function SweptBefore(slots: Slots, points: PerDiscipline, n: nat): (r: Slots)
    requires n <= SLOT_COUNT
    ensures forall i: SlotId :: r[i] == if i < n && !MayStay(slots, points, i) then "" else slots[i]
  {
    if n == 0 then slots
    else
      var r := SweptBefore(slots, points, n - 1);
      if MayStay(slots, points, n - 1) then r else r[n - 1 := ""]
  }

  function Swept(slots: Slots, points: PerDiscipline): Slots { SweptBefore(slots, points, SLOT_COUNT) }

  function RolledBack<F>(s: Snapshot<F>, c: Contribution): Snapshot<F> {
    if !IsEffective(c) then s
    else
      var points := s.points.With(c.discipline, SubFloored(s.points.Get(c.discipline), c.pointsDelta));
      s.(scores := s.scores.With(c.discipline, SubFloored(s.scores.Get(c.discipline), c.recordDelta)),
         points := points,
         slots := Swept(s.slots, points))
  }

  method ApplyContribution<F>(state: RuntimeState<F>, c: Contribution)
    modifies state
    ensures state.Value() == Applied(old(state.Value()), c)
  {
    if c.recordDelta <= 0 || c.pointsDelta <= 0 {
      return;
    }
    var score := state.scores.Get(c.discipline);
    state.scores := state.scores.With(c.discipline, AddCapped(score, c.recordDelta));
    var points := state.points.Get(c.discipline);
    state.points := state.points.With(c.discipline, AddCapped(points, c.pointsDelta));
  }

  /** How many of the first `n` slots a sweep empties. */
  function EmptiedBefore(slots: Slots, points: PerDiscipline, n: nat): nat
    requires n <= SLOT_COUNT
  {
    if n == 0 then 0
    else EmptiedBefore(slots, points, n - 1) + if MayStay(slots, points, n - 1) then 0 else 1
  }

  method RollbackContribution<F>(state: RuntimeState<F>, c: Contribution) returns (deactivated: nat)
    modifies state
    ensures state.Value() == RolledBack(old(state.Value()), c)
    ensures deactivated == if !IsEffective(c) then 0 else EmptiedBefore(old(state.slots), state.points, SLOT_COUNT)
  {
    hide IsEligible;
    deactivated := 0;
    if c.recordDelta <= 0 || c.pointsDelta <= 0 {
      return;
    }
    state.scores := state.scores.With(c.discipline, SubFloored(state.scores.Get(c.discipline), c.recordDelta));
    state.points := state.points.With(c.discipline, SubFloored(state.points.Get(c.discipline), c.pointsDelta));
    ghost var slots := state.slots;
    ghost var points := state.points;
    for i := 0 to SLOT_COUNT
      invariant state.Value() == old(state.Value()).(scores := state.scores, points := points, slots := state.slots)
      invariant state.scores
        == old(state.scores).With(c.discipline, SubFloored(old(state.scores).Get(c.discipline), c.recordDelta))
      invariant state.slots == SweptBefore(slots, points, i)
      invariant deactivated == EmptiedBefore(slots, points, i)
    {
      if state.slots[i] != "" && !IsEligible(state.slots[i], i, state.points) {
        state.slots := state.slots[i := ""];
        deactivated := deactivated + 1;
      }
    }
  }

  ghost function ChangedBefore(before: Slots, after: Slots, n: nat): set<nat>
    requires n <= SLOT_COUNT
  {
    set i: nat | i < n && before[i] != after[i]
  }

  /** That is as many as the sweep changes. */
  lemma {:induction false} EmptiedAreChanged(slots: Slots, points: PerDiscipline, n: nat)
    requires n <= SLOT_COUNT
    ensures EmptiedBefore(slots, points, n) == |ChangedBefore(slots, Swept(slots, points), n)|
  {
    hide IsEligible;
    if n == 0 {
      assert ChangedBefore(slots, Swept(slots, points), n) == {};
    } else {
      EmptiedAreChanged(slots, points, n - 1);
      var before := ChangedBefore(slots, Swept(slots, points), n - 1);
      assert ChangedBefore(slots, Swept(slots, points), n)
        == if MayStay(slots, points, n - 1) then before else before + {n - 1};
    }
  }

  // ---- Choosing active options -------------------------------------------------------------

  function Activated<F>(s: Snapshot<F>, slot: SlotId, id: string): (Snapshot<F>, bool) {
    if s.migrationState.PendingCleanup? || !IsEligible(id, slot, s.points) then (s, false)
    else (s.(slots := s.slots[slot := id]), true)
  }

  function Deactivated<F>(s: Snapshot<F>, slot: SlotId): Snapshot<F> {
    s.(slots := s.slots[slot := ""])
  }

  /** The swap task: clear the source, set the target, and put the source back if that was refused. */
  function Swapped<F>(s: Snapshot<F>, from: SlotId, to: SlotId, id: string): (Snapshot<F>, bool) {
    if s.slots[from] == "" || s.slots[from] != id then (s, false)
    else
      var cleared := Deactivated(s, from);
      var (moved, ok) := Activated(cleared, to, id);
      if ok then (moved, true) else (Activated(cleared, from, id).0, false)
  }

  method SetActiveSlot<F>(state: RuntimeState<F>, slot: SlotId, id: string) returns (applied: bool)
    modifies state
    ensures (state.Value(), applied) == Activated(old(state.Value()), slot, id)
  {
    if state.migrationState.PendingCleanup? {
      return false;
    }
    var option := FindOption(id);
    if option.None? || !IsSlotCompatible(Row(option.value), slot) {
      return false;
    }
    if state.points.Get(Row(option.value).discipline) < Row(option.value).UnlockCenti() {
      return false;
    }
    state.slots := state.slots[slot := id];
    return true;
  }

  method ClearActiveSlot<F>(state: RuntimeState<F>, slot: SlotId)
    modifies state
    ensures state.Value() == Deactivated(old(state.Value()), slot)
  {
    state.slots := state.slots[slot := ""];
  }

  method SwapBuildOption<F>(state: RuntimeState<F>, from: SlotId, to: SlotId, id: string) returns (applied: bool)
    modifies state
    ensures (state.Value(), applied) == Swapped(old(state.Value()), from, to, id)
  {
    hide IsEligible;
    applied := false;
    if state.slots[from] != "" && state.slots[from] == id {
      ClearActiveSlot(state, from);
      applied := SetActiveSlot(state, to, id);
      if !applied {
        var _ := SetActiveSlot(state, from, id);
      }
    }
  }

  // ---- The slot invariant ------------------------------------------------------------------

  ghost predicate SlotsFit(slots: Slots, points: PerDiscipline) {
    forall i: SlotId :: MayStay(slots, points, i)
  }

  /** Every occupied slot holds an unlocked option that fits, and a pending cleanup leaves none occupied. */
  ghost predicate SlotsValid<F>(s: Snapshot<F>) {
    && SlotsFit(s.slots, s.points)
    && (s.migrationState.PendingCleanup? ==> s.slots == NO_SLOTS)
  }

  predicate AtMost(p: PerDiscipline, q: PerDiscipline) {
    p.attack <= q.attack && p.defense <= q.defense && p.utility <= q.utility
  }

  lemma EligibleWithMore(id: string, slot: SlotId, p: PerDiscipline, q: PerDiscipline)
    requires AtMost(p, q) && IsEligible(id, slot, p)
    ensures IsEligible(id, slot, q)
  {
    hide FindOption, Row, IsSlotCompatible;
  }

  lemma FitWithMore(slots: Slots, p: PerDiscipline, q: PerDiscipline)
    requires AtMost(p, q) && SlotsFit(slots, p)
    ensures SlotsFit(slots, q)
  {
    hide IsEligible;
    forall i: SlotId ensures MayStay(slots, q, i) {
      assert MayStay(slots, p, i);
      if slots[i] != "" {
        EligibleWithMore(slots[i], i, p, q);
      }
    }
  }

  lemma ApplyOnlyAdds<F>(s: Snapshot<F>, c: Contribution)
    ensures AtMost(s.points, Applied(s, c).points)
  {
  }

  lemma ApplyKeepsSlotsValid<F>(s: Snapshot<F>, c: Contribution)
    requires SlotsValid(s)
    ensures SlotsValid(Applied(s, c))
  {
    hide IsEligible;
    ApplyOnlyAdds(s, c);
    FitWithMore(s.slots, s.points, Applied(s, c).points);
  }

  /** A sweep leaves a fitting set, whatever was there before, and takes nothing out of a fitting one. */
  lemma SweepFits(slots: Slots, points: PerDiscipline)
    ensures SlotsFit(Swept(slots, points), points)
    ensures SlotsFit(slots, points) ==> Swept(slots, points) == slots
    ensures slots == NO_SLOTS ==> Swept(slots, points) == NO_SLOTS
  {
    hide IsEligible;
    forall i: SlotId ensures MayStay(Swept(slots, points), points, i) {
      assert MayStay(slots, points, i) || Swept(slots, points)[i] == "";
    }
    if SlotsFit(slots, points) {
      assert forall i: SlotId :: MayStay(slots, points, i);
    }
  }

  lemma RollbackKeepsSlotsValid<F>(s: Snapshot<F>, c: Contribution)
    requires SlotsValid(s)
    ensures SlotsValid(RolledBack(s, c))
  {
    hide IsEligible;
    SweepFits(s.slots, RolledBack(s, c).points);
  }

  lemma ActivateKeepsSlotsValid<F>(s: Snapshot<F>, slot: SlotId, id: string)
    requires SlotsValid(s)
    ensures SlotsValid(Activated(s, slot, id).0)
  {
    hide IsEligible;
    var s' := Activated(s, slot, id).0;
    forall i: SlotId ensures MayStay(s'.slots, s'.points, i) {
      assert MayStay(s.slots, s.points, i);
    }
  }

  lemma DeactivateKeepsSlotsValid<F>(s: Snapshot<F>, slot: SlotId)
    requires SlotsValid(s)
    ensures SlotsValid(Deactivated(s, slot))
  {
    hide IsEligible;
    var s' := Deactivated(s, slot);
    forall i: SlotId ensures MayStay(s'.slots, s'.points, i) {
      assert MayStay(s.slots, s.points, i);
    }
  }

  lemma SwapKeepsSlotsValid<F>(s: Snapshot<F>, from: SlotId, to: SlotId, id: string)
    requires SlotsValid(s)
    ensures SlotsValid(Swapped(s, from, to, id).0)
  {
    hide IsEligible;
    DeactivateKeepsSlotsValid(s, from);
    ActivateKeepsSlotsValid(Deactivated(s, from), to, id);
    ActivateKeepsSlotsValid(Deactivated(s, from), from, id);
  }

  /** A swap that is refused changes nothing exactly when its restore step could not be refused as well. */
  lemma FailedSwapRestoresExactlyWhen<F>(s: Snapshot<F>, from: SlotId, to: SlotId, id: string)
    requires !Swapped(s, from, to, id).1
    ensures Swapped(s, from, to, id).0 == s
        <==> s.slots[from] != id || id == "" || (!s.migrationState.PendingCleanup? && IsEligible(id, from, s.points))
  {
    hide IsEligible;
    if s.slots[from] == id && id != "" {
      assert Deactivated(s, from).slots[from] != id;
      assert s.slots == s.slots[from := id];
      assert s.slots[from := ""][from := id] == s.slots;
    }
  }

  /** Under the slot invariant a failed swap changes nothing. */
  lemma FailedSwapChangesNothing<F>(s: Snapshot<F>, from: SlotId, to: SlotId, id: string)
    requires SlotsValid(s) && !Swapped(s, from, to, id).1
    ensures Swapped(s, from, to, id).0 == s
  {
    hide IsEligible;
    assert MayStay(s.slots, s.points, from);
    FailedSwapRestoresExactlyWhen(s, from, to, id);
  }

  /** A swap that succeeds moves the one option and empties its old slot. */
  lemma SuccessfulSwapMoves<F>(s: Snapshot<F>, from: SlotId, to: SlotId, id: string)
    requires Swapped(s, from, to, id).1
    ensures Swapped(s, from, to, id).0.slots == s.slots[from := ""][to := id]
  {
  }

  // ---- Undoing a contribution --------------------------------------------------------------

  predicate FitsIn(x: u32, d: i32) { d <= U32_MAX - x }

  predicate Fits<F>(s: Snapshot<F>, c: Contribution) {
    FitsIn(s.scores.Get(c.discipline), c.recordDelta) && FitsIn(s.points.Get(c.discipline), c.pointsDelta)
  }

  lemma WithGet(p: PerDiscipline, d: Discipline, v: u32)
    requires !d.UndefinedDiscipline?
    ensures p.With(d, v).Get(d) == v
    ensures p.With(d, v).With(d, p.Get(d)) == p
  {
  }

  /** Rolling back what was just added restores scores, points and slots, provided nothing saturated. */
  lemma RollbackUndoesApply<F>(s: Snapshot<F>, c: Contribution)
    requires IsEffective(c) && !c.discipline.UndefinedDiscipline?
    requires Fits(s, c) && SlotsFit(s.slots, s.points)
    ensures RolledBack(Applied(s, c), c) == s
  {
    hide IsEligible;
    WithGet(s.scores, c.discipline, Applied(s, c).scores.Get(c.discipline));
    WithGet(s.points, c.discipline, Applied(s, c).points.Get(c.discipline));
    SweepFits(s.slots, s.points);
  }

  // ---- Unlocked at the current points --------------------------------------------------------

  /** Which option a slot may hold, said on the table's rows: one that the slot takes and the points cover. */
  ghost predicate HoldsUnlocked(slots: Slots, points: PerDiscipline, i: SlotId) {
    exists o :: Text(o) == slots[i] && SlotTakes(o, i) && IsUnlocked(o, points)
  }

  lemma StaysExactlyWhen(slots: Slots, points: PerDiscipline, i: SlotId)
    ensures MayStay(slots, points, i) <==> slots[i] == "" || HoldsUnlocked(slots, points, i)
  {
    hide Text, SlotTakes, IsUnlocked, IsEligible;
    if IsEligible(slots[i], i, points) {
      OnlyOptionsAreEligible(slots[i], i, points);
      var o :| Text(o) == slots[i];
      EligibleExactlyWhen(o, i, points);
    }
    if HoldsUnlocked(slots, points, i) {
      var o :| Text(o) == slots[i] && SlotTakes(o, i) && IsUnlocked(o, points);
      EligibleExactlyWhen(o, i, points);
    }
  }

  /**
   * An activation is accepted exactly when no cleanup is pending, the slot takes the option and its cost
   * is covered.
   */
  lemma ActivatesExactlyWhen<F>(s: Snapshot<F>, slot: SlotId, o: OptionId)
    ensures var (s', applied) := Activated(s, slot, Text(o));
      && (applied <==> !s.migrationState.PendingCleanup? && SlotTakes(o, slot) && IsUnlocked(o, s.points))
      && s' == if applied then s.(slots := s.slots[slot := Text(o)]) else s
  {
    EligibleExactlyWhen(o, slot, s.points);
    hide Text, SlotTakes, IsUnlocked, IsEligible;
  }

  lemma UnknownOptionsAreRefused<F>(s: Snapshot<F>, slot: SlotId, id: string)
    requires forall o :: Text(o) != id
    ensures Activated(s, slot, id) == (s, false)
  {
    hide Text, IsEligible;
    if IsEligible(id, slot, s.points) {
      OnlyOptionsAreEligible(id, slot, s.points);
    }
  }

  /** So is a swap, for an option that really is in the slot it is moved from. */
  lemma SwapsExactlyWhen<F>(s: Snapshot<F>, from: SlotId, to: SlotId, o: OptionId)
    ensures Swapped(s, from, to, Text(o)).1 <==>
      s.slots[from] == Text(o) && !s.migrationState.PendingCleanup? && SlotTakes(o, to) && IsUnlocked(o, s.points)
  {
    LegacyIdsAreNotOptions(o);
    ActivatesExactlyWhen(Deactivated(s, from), to, o);
    hide Text, SlotTakes, IsUnlocked, IsEligible;
  }

  /** The slot invariant, said on the rows: every occupied slot holds an option that fits and is paid for. */
  lemma SlotsFitExactlyWhen(slots: Slots, points: PerDiscipline)
    ensures SlotsFit(slots, points) <==> forall i: SlotId :: slots[i] == "" || HoldsUnlocked(slots, points, i)
  {
    hide MayStay, HoldsUnlocked;
    forall i: SlotId ensures MayStay(slots, points, i) <==> slots[i] == "" || HoldsUnlocked(slots, points, i) {
      StaysExactlyWhen(slots, points, i);
    }
  }

  /** A sweep keeps what is paid for and fits, and empties every other slot. */
  lemma SweepsExactly(slots: Slots, points: PerDiscipline, i: SlotId)
    ensures Swept(slots, points)[i] == if HoldsUnlocked(slots, points, i) then slots[i] else ""
  {
    StaysExactlyWhen(slots, points, i);
    hide MayStay, HoldsUnlocked;
  }

  // ---- What a contribution counts for --------------------------------------------------------

  /** Scores and points of its own discipline move by its deltas and stop at the ends of 32 bits; the others stay. */
  lemma ContributionCountsExactly<F>(s: Snapshot<F>, c: Contribution, d: Discipline)
    requires !d.UndefinedDiscipline?
    ensures var own := d == c.discipline && c.recordDelta > 0 && c.pointsDelta > 0;
      var records, points := if own then c.recordDelta else 0, if own then c.pointsDelta else 0;
      && Applied(s, c).scores.Get(d) == MinInt(s.scores.Get(d) + records, 0xFFFF_FFFF)
      && Applied(s, c).points.Get(d) == MinInt(s.points.Get(d) + points, 0xFFFF_FFFF)
      && RolledBack(s, c).scores.Get(d) == MaxInt(0, s.scores.Get(d) - records)
      && RolledBack(s, c).points.Get(d) == MaxInt(0, s.points.Get(d) - points)
  {
    hide Swept;
  }
}
