// SyncCurrentBuildEffectsToPlayer: reconciling what the build should add to the player with
// the ledger of what has already been added.
//
// The claim is about whole runs: whatever slots, points, the game and other mods do between
// syncs, the player's permanent modifier always equals the outside world's share plus the
// ledger plus what the loader dropped from the ledger, so nothing a build ever added can be left
// behind in any other way.
module BuildLedger {
  import opened ActorValues
  import opened Actors
  import opened Catalog
  import opened BuildTotals
  import opened SetSums

  const SHOUT_FLOOR: real := 0.30

  type Ledger = map<ActorValue, real>

  /** Shout recovery is not pushed below its floor; every other correction goes through. */
  function ClampDelta(av: ActorValue, current: real, desired: real): real {
    if av != SHOUT_RECOVERY_MULT || desired >= 0.0 then desired
    else if current <= SHOUT_FLOOR + EPSILON then 0.0
    else if current + desired < SHOUT_FLOOR then SHOUT_FLOOR - current
    else desired
  }

  datatype Correction = Correction(delta: real, entry: Option<real>)

  /** What a sync does to one actor value: the amount restored and the ledger entry left. */
  function Correct(av: ActorValue, recorded: real, desired: real, current: real): Correction {
    var delta := ClampDelta(av, current, desired - recorded);
    if Abs(delta) <= EPSILON then Correction(0.0, EntryOf(recorded))
    else Correction(delta, EntryOf(recorded + delta))
  }

  function EntryOf(total: real): Option<real> {
    if Abs(total) <= EPSILON then None else Some(total)
  }

  function EntryAt(ledger: Ledger, av: ActorValue): Option<real> {
    if av in ledger then Some(ledger[av]) else None
  }

  function Put(ledger: Ledger, av: ActorValue, entry: Option<real>): Ledger {
    match entry
    case None => ledger - {av}
    case Some(total) => ledger[av := total]
  }

  /** The sync's effect on one actor value, both in the ledger and on the actor. */
  ghost predicate Synced(before: Ledger, after: Ledger, sheet: Sheet, sheet': Sheet, desired: real, av: ActorValue) {
    var c := Correct(av, Lookup(before, av), desired, ViewOf(sheet, av).current);
    && EntryAt(after, av) == c.entry
    && ViewOf(sheet', av) == ViewOf(sheet, av).Restored(c.delta)
  }

  class BuildEffects {
    const actor: Actor
    var applied: Ledger

    constructor (actor: Actor)
      ensures this.actor == actor && applied == map[]
    {
      this.actor := actor;
      applied := map[];
    }

    /** One actor value of the sync loop. */
    method CorrectOne(next: Ledger, av: ActorValue, desired: real) returns (after: Ledger)
      modifies actor
      ensures Synced(applied, after, old(actor.sheet), actor.sheet, desired, av)
      ensures forall other: ActorValue | other != av ::
        EntryAt(after, other) == EntryAt(next, other) && ViewOf(actor.sheet, other) == ViewOf(old(actor.sheet), other)
    {
      var c := Correct(av, Lookup(applied, av), desired, ViewOf(actor.sheet, av).current);
      if c.delta != 0.0 {
        actor.RestoreActorValue(av, c.delta);
      } else {
        assert ViewOf(actor.sheet, av).Restored(0.0) == ViewOf(actor.sheet, av);
      }
      after := Put(next, av, c.entry);
    }

    method Reconcile(desired: map<ActorValue, real>)
      modifies this`applied, actor
      ensures forall av: ActorValue ::
        Synced(old(applied), applied, old(actor.sheet), actor.sheet, Lookup(desired, av), av)
    {
      ghost var sheet := actor.sheet;
      var next := applied;
      var rest := applied.Keys + desired.Keys;
      while rest != {}
        invariant applied == old(applied)
        invariant forall av: ActorValue | av in rest ::
          EntryAt(next, av) == EntryAt(applied, av) && ViewOf(actor.sheet, av) == ViewOf(sheet, av)
        invariant forall av: ActorValue | av !in rest ::
          Synced(applied, next, sheet, actor.sheet, Lookup(desired, av), av)
      {
        var av :| av in rest;
        next := CorrectOne(next, av, Lookup(desired, av));
        rest := rest - {av};
      }
      applied := next;
    }

    method SyncCurrentBuildEffectsToPlayer(slots: Slots, points: PerDiscipline)
      modifies this`applied, actor
      ensures forall av: ActorValue ::
        Synced(old(applied), applied, old(actor.sheet), actor.sheet, DerivedTotal(slots, points, av), av)
    {
      var desired := ComputeDerivedTotals(slots, points);
      DesiredMap(desired, slots, points);
      Reconcile(ToMap(desired));
    }
  }

  function ToMap(list: seq<Delta>): (m: map<ActorValue, real>)
    requires Ascending(list)
  {
    map d | d in list :: d.av := d.amount
  }

  lemma DesiredMap(list: seq<Delta>, slots: Slots, points: PerDiscipline)
    requires ListsDerivedTotals(list, slots, points)
    ensures forall av: ActorValue :: Lookup(ToMap(list), av) == DerivedTotal(slots, points, av)
  {
    forall av: ActorValue ensures Lookup(ToMap(list), av) == DerivedTotal(slots, points, av) {
      if av in ToMap(list) {
        assert Delta(av, ToMap(list)[av]) in list;
      } else {
        assert av !in Values(list);
      }
    }
  }

  // ---- What one sync keeps ---------------------------------------------------------------

  /** Every entry is above the tolerance, and shout recovery is only ever recorded as lowered. */
  predicate SoundEntry(av: ActorValue, total: real) {
    total == 0.0 || (Abs(total) > EPSILON && (av == SHOUT_RECOVERY_MULT ==> total < 0.0))
  }

  ghost predicate SoundLedger(ledger: Ledger) {
    forall av | av in ledger :: ledger[av] != 0.0 && SoundEntry(av, ledger[av])
  }

  function Recorded(c: Correction): real { if c.entry.Some? then c.entry.value else 0.0 }

  /** From a sound entry towards a sound total, the actor moves by exactly what the ledger does. */
  lemma CorrectKeepsBalance(av: ActorValue, recorded: real, desired: real, current: real)
    requires SoundEntry(av, recorded) && SoundEntry(av, desired)
    ensures var c := Correct(av, recorded, desired, current);
      Recorded(c) == recorded + c.delta && SoundEntry(av, Recorded(c)) && (c.entry.Some? ==> c.entry.value != 0.0)
  {
  }

  /** The floor correction: a lowering of shout recovery that would go below the floor and is cut short. */
  predicate FloorCuts(av: ActorValue, current: real, delta: real) {
    av == SHOUT_RECOVERY_MULT && delta < 0.0 && current > SHOUT_FLOOR + EPSILON && current + delta < SHOUT_FLOOR
  }

  /** For any ledger at all, sound or not: when a sync moves the actor and the ledger apart. */
  lemma LeaksExactlyWhen(av: ActorValue, recorded: real, desired: real, current: real)
    requires desired == 0.0 || Abs(desired) > EPSILON
    ensures var c := Correct(av, recorded, desired, current);
      Recorded(c) != recorded + c.delta <==>
        || (0.0 < Abs(recorded) <= EPSILON && Abs(ClampDelta(av, current, desired - recorded)) <= EPSILON)
        || (FloorCuts(av, current, desired - recorded) && 0.0 < Abs(recorded + SHOUT_FLOOR - current) <= EPSILON)
  {
  }

  lemma ShoutPartsOnly(part: EffectPart)
    requires part.effectKey != ShoutRecoveryMult
    ensures AmountFor(ResolveActorValueDeltas(part), SHOUT_RECOVERY_MULT) == 0.0
  {
    var deltas := ResolveActorValueDeltas(part);
    assert forall d | d in deltas :: d.av != SHOUT_RECOVERY_MULT;
    NoAmount(deltas, SHOUT_RECOVERY_MULT);
  }

  lemma {:induction false} NoAmount(deltas: seq<Delta>, av: ActorValue)
    requires forall d | d in deltas :: d.av != av
    ensures AmountFor(deltas, av) == 0.0
  {
    if deltas != [] {
      NoAmount(deltas[1..], av);
    }
  }

  lemma {:induction false} AmountOfConcat(a: seq<Delta>, b: seq<Delta>, av: ActorValue)
    ensures AmountFor(a + b, av) == AmountFor(a, av) + AmountFor(b, av)
  {
    if a == [] {
      assert a + b == b;
    } else {
      assert (a + b)[1..] == a[1..] + b;
      AmountOfConcat(a[1..], b, av);
    }
  }

  lemma BundleWithoutShout(option: OptionDef, points: nat)
    requires option.effectKey != ShoutRecoveryMult
    ensures forall p | p in ResolvedBundle(option, points) :: p.effectKey != ShoutRecoveryMult
  {
    hide ScaledMagnitude, ScaleFloat;
  }

  /** No option of the catalog ever raises shout recovery. */
  lemma OptionsLowerShout(o: OptionId, points: PerDiscipline)
    ensures Contribution(o, points, SHOUT_RECOVERY_MULT) <= 0.0
  {
    hide Row, AmountFor, Flatten, ResolvedBundle, PerDiscipline.Get;
    var have := points.Get(Row(o).discipline);
    if Row(o).effectKey == ShoutRecoveryMult {
      EchoLowersShout(o, have);
    } else {
      BundleWithoutShout(Row(o), have);
      PartsWithoutShout(ResolvedBundle(Row(o), have));
    }
  }

  lemma EchoLowersShout(o: OptionId, have: nat)
    requires Row(o).effectKey == ShoutRecoveryMult
    ensures AmountFor(Flatten(ResolvedBundle(Row(o), have)), SHOUT_RECOVERY_MULT) < 0.0
  {
    assert o == Echo;
    var lowered := -0.007 + -0.002 * (Tier(have) as real);
    assert lowered < 0.0;
    assert ResolvedBundle(Row(o), have) == [EffectPart(ActorValueEffect, ShoutRecoveryMult, Flt(lowered))];
    var deltas := [Delta(SHOUT_RECOVERY_MULT, lowered)];
    assert Flatten(ResolvedBundle(Row(o), have)) == deltas;
    assert deltas[1..] == [];
  }

  lemma {:induction false} PartsWithoutShout(parts: seq<EffectPart>)
    requires forall p | p in parts :: p.effectKey != ShoutRecoveryMult
    ensures AmountFor(Flatten(parts), SHOUT_RECOVERY_MULT) == 0.0
  {
    if parts != [] {
      ShoutPartsOnly(parts[0]);
      PartsWithoutShout(parts[1..]);
      AmountOfConcat(ResolveActorValueDeltas(parts[0]), Flatten(parts[1..]), SHOUT_RECOVERY_MULT);
    }
  }

  lemma {:induction false} SumNotPositive(options: set<OptionId>, points: PerDiscipline)
    ensures Sum(options, Weight(points, SHOUT_RECOVERY_MULT)) <= 0.0
    decreases options
  {
    if options != {} {
      var o :| o in options;
      SumRemove(options, o, Weight(points, SHOUT_RECOVERY_MULT));
      OptionsLowerShout(o, points);
      SumNotPositive(options - {o}, points);
    }
  }

  lemma DerivedTotalIsSound(slots: Slots, points: PerDiscipline, av: ActorValue)
    ensures SoundEntry(av, DerivedTotal(slots, points, av))
  {
    if av == SHOUT_RECOVERY_MULT {
      SumNotPositive(ActiveOptions(slots, points), points);
    }
  }

  // ---- Across a save and a load ----------------------------------------------------------

  /** What the loader makes of a saved ledger: nine values are kept, and each is cut to its cap. */
  function ReloadedLedger(ledger: Ledger): Ledger {
    map av | av in ledger && IsSupportedBuildEffect(av) :: ClampRewardTotal(av, ledger[av])
  }

  predicate WithinCap(av: ActorValue, total: real) {
    RewardCap(av).Some? ==> total <= RewardCap(av).value + EPSILON
  }

  predicate EntrySurvives(ledger: Ledger, av: ActorValue) {
    av !in ledger || (IsSupportedBuildEffect(av) && WithinCap(av, ledger[av]))
  }

  /** The part of an entry that a save and a load lose. */
  function Dropped(ledger: Ledger, av: ActorValue): real { Lookup(ledger, av) - Lookup(ReloadedLedger(ledger), av) }

  /** The ledger survives a save and a load exactly when it holds nothing but in-cap supported values. */
  lemma ReloadKeepsLedgerExactlyWhen(ledger: Ledger)
    ensures ReloadedLedger(ledger) == ledger <==> forall av | av in ledger :: EntrySurvives(ledger, av)
  {
    if forall av | av in ledger :: EntrySurvives(ledger, av) {
      assert ReloadedLedger(ledger).Keys == ledger.Keys;
    } else {
      var av :| av in ledger && !EntrySurvives(ledger, av);
      assert av in ReloadedLedger(ledger) ==> ReloadedLedger(ledger)[av] != ledger[av];
    }
  }

  lemma ReloadKeepsSoundness(ledger: Ledger)
    requires SoundLedger(ledger)
    ensures SoundLedger(ReloadedLedger(ledger))
    ensures forall av :: Dropped(ledger, av) == 0.0 <==> EntrySurvives(ledger, av)
  {
  }

  // ---- Whole runs ------------------------------------------------------------------------

  datatype World = World(ledger: Ledger, sheet: Sheet, slots: Slots, points: PerDiscipline)

  datatype Event =
    | Configure(slots: Slots, points: PerDiscipline)
    | External(av: ActorValue, permanentDelta: real, views: Views)
    | SyncBuild
    | Reload

  function Modifier(sheet: Sheet, av: ActorValue): real { ViewOf(sheet, av).permanentModifier }

  /** Anything outside the build system may change: all it must do is own up to its permanent part. */
  ghost predicate Step(w: World, e: Event, w': World) {
    match e
    case Configure(slots, points) => w' == w.(slots := slots, points := points)
    case External(av, d, views) =>
      views.permanentModifier == Modifier(w.sheet, av) + d && w' == w.(sheet := w.sheet[av := views])
    case SyncBuild =>
      && w'.slots == w.slots && w'.points == w.points
      && forall av: ActorValue ::
        Synced(w.ledger, w'.ledger, w.sheet, w'.sheet, DerivedTotal(w.slots, w.points, av), av)
    case Reload => w' == w.(ledger := ReloadedLedger(w.ledger))
  }

  ghost predicate IsRun(ws: seq<World>, es: seq<Event>) {
    |ws| == |es| + 1 && forall i | 0 <= i < |es| :: Step(ws[i], es[i], ws[i + 1])
  }

  /** What everything but the build system has added to the permanent modifier. */
  function ExternalTotal(es: seq<Event>, av: ActorValue): real {
    if es == [] then 0.0
    else
      var last := es[|es| - 1];
      ExternalTotal(es[..|es| - 1], av) + (if last.External? && last.av == av then last.permanentDelta else 0.0)
  }

  lemma SyncKeepsBalance(w: World, w': World, av: ActorValue)
    requires SoundLedger(w.ledger) && Step(w, SyncBuild, w')
    ensures Modifier(w'.sheet, av) - Lookup(w'.ledger, av) == Modifier(w.sheet, av) - Lookup(w.ledger, av)
    ensures av in w'.ledger ==> w'.ledger[av] != 0.0 && SoundEntry(av, w'.ledger[av])
  {
    var desired := DerivedTotal(w.slots, w.points, av);
    assert Synced(w.ledger, w'.ledger, w.sheet, w'.sheet, desired, av);
    DerivedTotalIsSound(w.slots, w.points, av);
    CorrectKeepsBalance(av, Lookup(w.ledger, av), desired, ViewOf(w.sheet, av).current);
  }

  /** What the loads of a run dropped from an actor value's entry. */
  function DroppedTotal(ws: seq<World>, es: seq<Event>, av: ActorValue): real
    requires |ws| == |es| + 1
    decreases |es|
  {
    if es == [] then 0.0
    else
      var n := |es| - 1;
      DroppedTotal(ws[..|es|], es[..n], av) + (if es[n].Reload? then Dropped(ws[n].ledger, av) else 0.0)
  }

  lemma StepKeepsBalance(w: World, e: Event, w': World, av: ActorValue)
    requires SoundLedger(w.ledger) && Step(w, e, w')
    ensures av in w'.ledger ==> w'.ledger[av] != 0.0 && SoundEntry(av, w'.ledger[av])
    ensures Modifier(w'.sheet, av) - Lookup(w'.ledger, av) == Modifier(w.sheet, av) - Lookup(w.ledger, av)
      + (if e.External? && e.av == av then e.permanentDelta else 0.0)
      + (if e.Reload? then Dropped(w.ledger, av) else 0.0)
  {
    hide DerivedTotal, Synced;
    if e.SyncBuild? {
      SyncKeepsBalance(w, w', av);
    } else if e.Reload? {
      ReloadKeepsSoundness(w.ledger);
    }
  }

  /**
   * No stat leaks over any run but through the loader: the player's permanent modifier is the
   * outside share, plus the ledger, plus exactly what the loads dropped from the ledger.
   */
  lemma {:induction false} NoStatLeaks(ws: seq<World>, es: seq<Event>)
    requires IsRun(ws, es) && ws[0].ledger == map[]
    ensures SoundLedger(ws[|es|].ledger)
    ensures forall av: ActorValue ::
      Modifier(ws[|es|].sheet, av)
        == (Modifier(ws[0].sheet, av) + ExternalTotal(es, av) + Lookup(ws[|es|].ledger, av) + DroppedTotal(ws, es, av))
    decreases |es|
  {
    hide Step, Modifier, Lookup, Dropped, SoundEntry;
    if es != [] {
      var n := |es| - 1;
      NoStatLeaks(ws[..|es|], es[..n]);
      var w, w' := ws[n], ws[n + 1];
      assert Step(w, es[n], w');
      forall av: ActorValue
        ensures Modifier(w'.sheet, av) == Modifier(ws[0].sheet, av)
          + ExternalTotal(es, av) + Lookup(w'.ledger, av) + DroppedTotal(ws, es, av)
        ensures av in w'.ledger ==> w'.ledger[av] != 0.0 && SoundEntry(av, w'.ledger[av])
      {
        StepKeepsBalance(w, es[n], w', av);
      }
    } else {
      EmptyLedger(ws[0].ledger);
    }
  }

  lemma EmptyLedger(ledger: Ledger)
    requires ledger == map[]
    ensures SoundLedger(ledger) && forall av :: Lookup(ledger, av) == 0.0
  {
  }

  /** A run whose loads find nothing to drop, a run without loads among them, drops nothing. */
  lemma {:induction false} NothingIsDroppedWhen(ws: seq<World>, es: seq<Event>, av: ActorValue)
    requires |ws| == |es| + 1
    requires forall i | 0 <= i < |es| && es[i].Reload? :: EntrySurvives(ws[i].ledger, av)
    ensures DroppedTotal(ws, es, av) == 0.0
    decreases |es|
  {
    if es != [] {
      NothingIsDroppedWhen(ws[..|es|], es[..|es| - 1], av);
    }
  }

  lemma EmptySlotPlacesNothing(slots: Slots, points: PerDiscipline, s: SlotId)
    requires slots[s] == ""
    ensures Placed(slots, points, s).None?
  {
    var found := FindOption("");
    if found.Some? {
      LegacyIdsAreNotOptions(found.value);
    }
  }

  lemma NothingIsActiveInEmptySlots(slots: Slots, points: PerDiscipline)
    requires forall s: SlotId :: slots[s] == ""
    ensures ActiveOptions(slots, points) == {}
  {
    forall o ensures !IsActive(slots, points, SLOT_COUNT, o) {
      if IsActive(slots, points, SLOT_COUNT, o) {
        var s: SlotId :| Placed(slots, points, s) == Some(o);
        EmptySlotPlacesNothing(slots, points, s);
      }
    }
  }

  lemma NoOptionsDeriveNothing(slots: Slots, points: PerDiscipline, av: ActorValue)
    requires ActiveOptions(slots, points) == {}
    ensures DerivedTotal(slots, points, av) == 0.0
  {
    hide ActiveOptions, Weight;
  }

  lemma EmptySlotsDropEntries(w: World, w': World, av: ActorValue)
    requires SoundLedger(w.ledger) && w.slots == NO_SLOTS && Step(w, SyncBuild, w')
    ensures av !in w'.ledger
  {
    NothingIsActiveInEmptySlots(w.slots, w.points);
    NoOptionsDeriveNothing(w.slots, w.points, av);
    hide DerivedTotal, ActiveOptions;
    assert Synced(w.ledger, w'.ledger, w.sheet, w'.sheet, 0.0, av);
  }

  /** Emptying the slots and syncing gives the player back what the outside world left, and what loads dropped. */
  lemma ClearingGivesEverythingBack(ws: seq<World>, es: seq<Event>, cleared: World, synced: World,
      points: PerDiscipline)
    requires IsRun(ws, es) && ws[0].ledger == map[]
    requires Step(ws[|es|], Configure(NO_SLOTS, points), cleared) && Step(cleared, SyncBuild, synced)
    ensures synced.ledger == map[]
    ensures forall av: ActorValue ::
      Modifier(synced.sheet, av) == Modifier(ws[0].sheet, av) + ExternalTotal(es, av) + DroppedTotal(ws, es, av)
  {
    NoStatLeaks(ws, es);
    assert cleared.slots == NO_SLOTS && cleared.ledger == ws[|es|].ledger && cleared.sheet == ws[|es|].sheet;
    hide Step, IsRun, SoundLedger, DroppedTotal, ExternalTotal;
    forall av: ActorValue
      ensures av !in synced.ledger
      ensures
        Modifier(synced.sheet, av) == Modifier(ws[0].sheet, av) + ExternalTotal(es, av) + DroppedTotal(ws, es, av)
    {
      SyncKeepsBalance(cleared, synced, av);
      EmptySlotsDropEntries(cleared, synced, av);
    }
    assert synced.ledger.Keys == {};
  }

  // ---- Idempotence and the floor ---------------------------------------------------------

  lemma CorrectReachesItsTarget(av: ActorValue, recorded: real, desired: real, current: real)
    requires SoundEntry(av, recorded) && SoundEntry(av, desired)
    ensures var c := Correct(av, recorded, desired, current);
      && (av != SHOUT_RECOVERY_MULT ==> Abs(Recorded(c) - desired) <= EPSILON)
      && (av == SHOUT_RECOVERY_MULT ==> current + c.delta >= Min(current, 0.30))
      && (Abs(Recorded(c) - desired) <= EPSILON || current + c.delta <= 0.30 + EPSILON)
      && Correct(av, Recorded(c), desired, current + c.delta) == Correction(0.0, c.entry)
  {
  }

  /** After a sync every entry is at its target, but for shout recovery at its floor, which it is not driven under. */
  lemma SyncReachesItsTarget(w: World, w': World, av: ActorValue)
    requires SoundLedger(w.ledger) && Step(w, SyncBuild, w')
    ensures av != SHOUT_RECOVERY_MULT ==> Abs(Lookup(w'.ledger, av) - DerivedTotal(w.slots, w.points, av)) <= EPSILON
    ensures av == SHOUT_RECOVERY_MULT ==>
      var current := ViewOf(w'.sheet, av).current;
      && current >= Min(ViewOf(w.sheet, av).current, 0.30)
      && (Abs(Lookup(w'.ledger, av) - DerivedTotal(w.slots, w.points, av)) <= EPSILON || current <= 0.30 + EPSILON)
  {
    var desired := DerivedTotal(w.slots, w.points, av);
    assert Synced(w.ledger, w'.ledger, w.sheet, w'.sheet, desired, av);
    DerivedTotalIsSound(w.slots, w.points, av);
    CorrectReachesItsTarget(av, Lookup(w.ledger, av), desired, ViewOf(w.sheet, av).current);
  }

  lemma SecondCorrectionIsNothing(before: Ledger, after: Ledger, last: Ledger, sheet: Sheet, sheet': Sheet,
      sheet'': Sheet, desired: real, av: ActorValue)
    requires SoundEntry(av, Lookup(before, av)) && SoundEntry(av, desired)
    requires Synced(before, after, sheet, sheet', desired, av) && Synced(after, last, sheet', sheet'', desired, av)
    ensures EntryAt(last, av) == EntryAt(after, av) && ViewOf(sheet'', av) == ViewOf(sheet', av)
  {
    CorrectReachesItsTarget(av, Lookup(before, av), desired, ViewOf(sheet, av).current);
    assert ViewOf(sheet', av).Restored(0.0) == ViewOf(sheet', av);
  }

  /** An immediate second sync restores nothing and records nothing new. */
  lemma SecondSyncDoesNothing(w: World, w': World, w'': World, av: ActorValue)
    requires SoundLedger(w.ledger) && Step(w, SyncBuild, w') && Step(w', SyncBuild, w'')
    ensures EntryAt(w''.ledger, av) == EntryAt(w'.ledger, av)
    ensures ViewOf(w''.sheet, av) == ViewOf(w'.sheet, av)
  {
    DerivedTotalIsSound(w.slots, w.points, av);
    SecondCorrectionIsNothing(w.ledger, w'.ledger, w''.ledger, w.sheet, w'.sheet, w''.sheet,
                              DerivedTotal(w.slots, w.points, av), av);
  }

  // ---- The sync after a load ---------------------------------------------------------------

  /** The two ways an entry at its target comes through a load and the sync after it without being given again. */
  predicate NotGivenAgain(w: World, av: ActorValue) {
    || EntrySurvives(w.ledger, av)
    || (av == SHOUT_RECOVERY_MULT && ViewOf(w.sheet, av).current <= SHOUT_FLOOR + EPSILON)
  }

  lemma DroppedIsNotNegligible(ledger: Ledger, av: ActorValue)
    requires SoundLedger(ledger)
    ensures if EntrySurvives(ledger, av) then Dropped(ledger, av) == 0.0 else Abs(Dropped(ledger, av)) > EPSILON
    ensures av == SHOUT_RECOVERY_MULT && !EntrySurvives(ledger, av) ==> Dropped(ledger, av) < 0.0
    ensures SoundEntry(av, Lookup(ReloadedLedger(ledger), av))
  {
  }

  lemma CorrectAfterDrop(av: ActorValue, kept: real, total: real, current: real)
    requires total == kept || Abs(total - kept) > EPSILON
    requires av == SHOUT_RECOVERY_MULT ==> total <= kept
    ensures var delta := Correct(av, kept, total, current).delta;
      && (delta == 0.0 <==> total == kept || (av == SHOUT_RECOVERY_MULT && current <= SHOUT_FLOOR + EPSILON))
      && (av != SHOUT_RECOVERY_MULT ==> delta == total - kept)
  {
  }

  /** When the sync after a load gives the player something again that a build had already given. */
  lemma ReloadGivesNothingAgainExactlyWhen(w: World, loaded: World, synced: World, av: ActorValue)
    requires SoundLedger(w.ledger) && Lookup(w.ledger, av) == DerivedTotal(w.slots, w.points, av)
    requires Step(w, Reload, loaded) && Step(loaded, SyncBuild, synced)
    ensures Modifier(synced.sheet, av) == Modifier(w.sheet, av) <==> NotGivenAgain(w, av)
    ensures av != SHOUT_RECOVERY_MULT ==>
      Modifier(synced.sheet, av) == Modifier(w.sheet, av) + Dropped(w.ledger, av)
  {
    hide DerivedTotal, ReloadedLedger, Correct, Lookup, EntrySurvives;
    var total := DerivedTotal(w.slots, w.points, av);
    assert Synced(loaded.ledger, synced.ledger, loaded.sheet, synced.sheet, total, av);
    DroppedIsNotNegligible(w.ledger, av);
    CorrectAfterDrop(av, Lookup(loaded.ledger, av), total, ViewOf(w.sheet, av).current);
  }

  /** The first attack slot holds "build.attack.brawler", unlocked three tiers deep; the others are empty. */
  predicate BrawlerAlone(slots: Slots, points: PerDiscipline) {
    slots[0] == Text(Brawler) && (forall s: SlotId | s > 0 :: slots[s] == "") && points.attack == 2500
  }

  lemma BrawlerRow()
    ensures Row(Brawler) == OptionDef(Attack, 25, SameOrWildcard, ActorValueEffect, UnarmedDamage, Flt(0.2), Flt(0.1))
  {
  }

  lemma BrawlerIsPlaced(slots: Slots, points: PerDiscipline, s: SlotId)
    requires BrawlerAlone(slots, points)
    ensures Placed(slots, points, s) == if s == 0 then Some(Brawler) else None
  {
    hide Text, Row, FindOption;
    if s == 0 {
      FindsItsRow(Brawler);
      BrawlerRow();
    } else {
      EmptySlotPlacesNothing(slots, points, s);
    }
  }

  lemma BrawlerIsActive(slots: Slots, points: PerDiscipline)
    requires BrawlerAlone(slots, points)
    ensures ActiveOptions(slots, points) == {Brawler}
  {
    hide Placed, BrawlerAlone;
    forall o ensures IsActive(slots, points, SLOT_COUNT, o) <==> o == Brawler {
      forall s: SlotId { BrawlerIsPlaced(slots, points, s); }
      var first: SlotId := 0;
      assert Placed(slots, points, first) == Some(Brawler);
    }
  }

  lemma BrawlerContribution(points: PerDiscipline, av: ActorValue)
    requires points.attack == 2500
    ensures Contribution(Brawler, points, av) == if av == UNARMED_DAMAGE then 0.5 else 0.0
  {
    BrawlerRow();
    hide Row;
    var parts := ResolvedBundle(Row(Brawler), points.attack);
    assert Tier(points.attack) == 3;
    assert parts == [EffectPart(ActorValueEffect, UnarmedDamage, Flt(0.5))];
    assert parts[1..] == [];
    var deltas := [Delta(UNARMED_DAMAGE, 0.5)];
    assert ResolveActorValueDeltas(parts[0]) == deltas;
    assert Flatten(parts) == deltas + [] == deltas;
    assert OptionDeltas(Brawler, points) == deltas;
    assert deltas[1..] == [];
    assert AmountFor(deltas, av) == (if deltas[0].av == av then deltas[0].amount else 0.0) + AmountFor(deltas[1..], av);
  }

  lemma BrawlerTotal(slots: Slots, points: PerDiscipline, av: ActorValue)
    requires BrawlerAlone(slots, points)
    ensures DerivedTotal(slots, points, av) == if av == UNARMED_DAMAGE then 0.5 else 0.0
  {
    BrawlerIsActive(slots, points);
    BrawlerContribution(points, av);
    hide ActiveOptions, Contribution, BrawlerAlone;
    SumInsert({}, Brawler, Weight(points, av));
    assert {} + {Brawler} == {Brawler};
  }

  function GivenHalf(sheet: Sheet): Sheet { sheet[UNARMED_DAMAGE := ViewOf(sheet, UNARMED_DAMAGE).Restored(0.5)] }

  lemma BrawlerSyncAt(slots: Slots, points: PerDiscipline, sheet: Sheet, after: Ledger, av: ActorValue)
    requires BrawlerAlone(slots, points) && after == map[UNARMED_DAMAGE := 0.5]
    ensures Synced(map[], after, sheet, GivenHalf(sheet), DerivedTotal(slots, points, av), av)
  {
    BrawlerTotal(slots, points, av);
    hide DerivedTotal, BrawlerAlone;
    if av != UNARMED_DAMAGE {
      assert ViewOf(sheet, av).Restored(0.0) == ViewOf(sheet, av);
    }
  }

  lemma BrawlerSync(slots: Slots, points: PerDiscipline, sheet: Sheet, after: Ledger)
    requires BrawlerAlone(slots, points) && after == map[UNARMED_DAMAGE := 0.5]
    ensures Step(World(map[], sheet, slots, points), SyncBuild, World(after, GivenHalf(sheet), slots, points))
  {
    hide BrawlerAlone, DerivedTotal, Synced, GivenHalf;
    forall av: ActorValue
      ensures Synced(map[], after, sheet, GivenHalf(sheet), DerivedTotal(slots, points, av), av)
    {
      BrawlerSyncAt(slots, points, sheet, after, av);
    }
  }

  lemma HalfIsDropped(ledger: Ledger)
    requires ledger == map[UNARMED_DAMAGE := 0.5]
    ensures ReloadedLedger(ledger) == map[]
  {
  }

  /** From an empty ledger the brawler's half point is given by a sync, dropped by a load, and given again. */
  lemma BrawlerIsGivenTwice(slots: Slots, points: PerDiscipline, sheet: Sheet)
    requires BrawlerAlone(slots, points)
    ensures
      var w0 := World(map[], sheet, slots, points);
      var w1 := World(map[UNARMED_DAMAGE := 0.5], GivenHalf(sheet), slots, points);
      var w2 := w1.(ledger := map[]);
      var w3 := w1.(sheet := GivenHalf(w1.sheet));
      && Step(w0, SyncBuild, w1) && Step(w1, Reload, w2) && Step(w2, SyncBuild, w3)
      && Modifier(w3.sheet, UNARMED_DAMAGE) == Modifier(w0.sheet, UNARMED_DAMAGE) + 1.0
  {
    hide *;
    var after: Ledger := map[UNARMED_DAMAGE := 0.5];
    BrawlerSync(slots, points, sheet, after);
    BrawlerSync(slots, points, GivenHalf(sheet), after);
    HalfIsDropped(after);
    HalvesAddUp(sheet);
    ReloadStep(World(after, GivenHalf(sheet), slots, points));
  }

  lemma HalvesAddUp(sheet: Sheet)
    ensures Modifier(GivenHalf(GivenHalf(sheet)), UNARMED_DAMAGE) == Modifier(sheet, UNARMED_DAMAGE) + 1.0
  {
  }

  lemma ReloadStep(w: World)
    ensures Step(w, Reload, w.(ledger := ReloadedLedger(w.ledger)))
  {
  }
}
