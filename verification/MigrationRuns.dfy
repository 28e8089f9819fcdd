// Finishing a migration over any number of process attempts: the state only advances, scores are
// derived once, legacy rewards leave the player once, and the notice is given at most once.
module MigrationRuns {
  import opened ActorValues
  import opened Actors
  import opened Catalog
  import opened Migration
  import opened Progression
  import opened RewardsResync
  import opened State
  import opened SyncEngine

  // ---- Taking legacy rewards back ----------------------------------------------------------

  /** The part of a stored total that reached the player. */
  function EffectiveTotal(av: ActorValue, total: real): real {
    var applied := ActorAppliedRewardTotal(av, ClampRewardTotal(av, total));
    if Abs(applied) > EPSILON then applied else 0.0
  }

  /** One actor value after the cleanup: capped first, then what the total still stands for is taken off. */
  function CleanedView(totals: Totals, av: ActorValue, v: Views): Views {
    if av !in totals then v
    else
      var p := CapOne(av, totals[av], v);
      if p.total.None? || EffectiveTotal(av, p.total.value) == 0.0 then p.views
      else p.views.Restored(-EffectiveTotal(av, p.total.value))
  }

  /** What a legacy total stands for, and what the player shows beyond its cap. */
  function StandsFor(av: ActorValue, total: real): real {
    if RewardCap(av).Some? && total > RewardCap(av).value + EPSILON then RewardCap(av).value else total
  }

  function Surplus(av: ActorValue, total: real, v: Views): real {
    if StandsFor(av, total) == total then 0.0
    else
      var surplus := Observed(v, RewardCap(av).value) - RewardCap(av).value;
      if surplus > EPSILON then surplus else 0.0
  }

  function Less(v: Views, amount: real): Views {
    Views(v.base, v.current - amount, v.permanent - amount, v.permanentModifier - amount, v.temporary)
  }

  lemma CapOneExactly(av: ActorValue, total: real, v: Views)
    ensures CapOne(av, total, v) == Prepared(Some(StandsFor(av, total)), Less(v, Surplus(av, total, v)))
    ensures ClampRewardTotal(av, StandsFor(av, total)) == StandsFor(av, total) || IsSkill(av)
  {
    if RewardCap(av).Some? {
      CapNormalizationDeltaExactly(v, RewardCap(av).value);
    }
    hide SelectObserved, CapNormalizationDelta;
  }

  /** After the capping, the effective total is what is taken off. */
  lemma EffectiveIsTaken(totals: Totals, av: ActorValue, v: Views)
    requires av in totals
    ensures var effective := EffectiveTotal(av, StandsFor(av, totals[av]));
      CleanedView(totals, av, v) == Less(v, Surplus(av, totals[av], v) + effective)
  {
    CapOneExactly(av, totals[av], v);
    hide CapOne, StandsFor, EffectiveTotal, Surplus;
  }

  /**
   * The cleanup takes off the surplus over the cap and then the whole reward, nothing else: for a skill the
   * whole points of it, for any other value the reward itself.
   */
  lemma CleanupTakesExactly(totals: Totals, av: ActorValue, v: Views)
    ensures av !in totals ==> CleanedView(totals, av, v) == v
    ensures av in totals && !IsSkill(av) ==>
      var reward := StandsFor(av, totals[av]);
      CleanedView(totals, av, v)
        == Less(v, Surplus(av, totals[av], v) + if Abs(reward) > EPSILON then reward else 0.0)
    ensures av in totals && IsSkill(av) ==>
      var after := CleanedView(totals, av, v);
      var points := v.permanentModifier - after.permanentModifier;
      && after == Less(v, points) && points == points.Floor as real
      && Abs(points - totals[av]) < 1.0 && Abs(points) <= Abs(totals[av]) + SKILL_SNAP_EPSILON
  {
    if av in totals {
      var total := totals[av];
      EffectiveIsTaken(totals, av, v);
      CapOneExactly(av, total, v);
      if IsSkill(av) {
        SkillTotal(av, total);
      } else {
        PlainTotal(av, StandsFor(av, total));
      }
      hide CapOne, CleanedView, ClampRewardTotal, ActorAppliedRewardTotal;
    }
  }

  method CapTotals(totals: Totals, actor: Actor) returns (capped: Totals)
    modifies actor
    ensures forall av: ActorValue :: (ViewOf(actor.sheet, av)
      == if av in totals then CapOne(av, totals[av], ViewOf(old(actor.sheet), av)).views
         else ViewOf(old(actor.sheet), av))
    ensures forall av: ActorValue :: (TotalAt(capped, av)
      == if av in totals then CapOne(av, totals[av], ViewOf(old(actor.sheet), av)).total else None)
  {
    hide CapOne;
    ghost var sheet := actor.sheet;
    capped := totals;
    var rest := totals.Keys;
    while rest != {}
      invariant rest <= totals.Keys
      invariant forall av: ActorValue :: (ViewOf(actor.sheet, av)
        == if av in totals && av !in rest then CapOne(av, totals[av], ViewOf(sheet, av)).views else ViewOf(sheet, av))
      invariant forall av: ActorValue :: (TotalAt(capped, av)
        == if av in rest then Some(totals[av])
           else if av in totals then CapOne(av, totals[av], ViewOf(sheet, av)).total else None)
    {
      var av :| av in rest;
      capped := CapInPlace(capped, av, totals[av], actor);
      rest := rest - {av};
    }
  }

  method CapInPlace(totals: Totals, av: ActorValue, total: real, actor: Actor) returns (capped: Totals)
    modifies actor
    ensures var p := CapOne(av, total, ViewOf(old(actor.sheet), av));
      ViewOf(actor.sheet, av) == p.views && TotalAt(capped, av) == p.total
    ensures forall other: ActorValue | other != av ::
      ViewOf(actor.sheet, other) == ViewOf(old(actor.sheet), other) && TotalAt(capped, other) == TotalAt(totals, other)
  {
    hide ClampRewardTotal, CapNormalizationDelta;
    var clamped := ClampRewardTotal(av, total);
    if Abs(clamped - total) <= EPSILON {
      return totals[av := total];
    }
    capped := if Abs(clamped) <= EPSILON then totals - {av} else totals[av := clamped];
    var delta := CapNormalizationDelta(ViewOf(actor.sheet, av), clamped);
    if delta < -EPSILON {
      actor.RestoreActorValue(av, delta);
    }
  }

  method SubtractTotals(totals: Totals, actor: Actor)
    modifies actor
    ensures forall av: ActorValue :: (ViewOf(actor.sheet, av)
      == if av in totals then ViewOf(old(actor.sheet), av).Restored(-totals[av]) else ViewOf(old(actor.sheet), av))
  {
    ghost var sheet := actor.sheet;
    var rest := totals.Keys;
    while rest != {}
      invariant rest <= totals.Keys
      invariant forall av: ActorValue :: (ViewOf(actor.sheet, av)
        == if av in totals && av !in rest then ViewOf(sheet, av).Restored(-totals[av]) else ViewOf(sheet, av))
    {
      var av :| av in rest;
      actor.RestoreActorValue(av, -totals[av]);
      rest := rest - {av};
    }
  }

  /** CleanupLegacyRewardTotals fails only when there is something to take back and no player to take it from. */
  predicate CanClean(totals: Totals, playerAvailable: bool) { EffectiveTotals(totals) == map[] || playerAvailable }

  predicate Subtracts(totals: Totals, playerAvailable: bool) { EffectiveTotals(totals) != map[] && playerAvailable }

  lemma CleanedFromParts(totals: Totals, capped: Totals, av: ActorValue, v: Views)
    requires TotalAt(capped, av) == if av in totals then CapOne(av, totals[av], v).total else None
    ensures var w := if av in totals then CapOne(av, totals[av], v).views else v;
      CleanedView(totals, av, v)
      == if av in EffectiveTotals(capped) then w.Restored(-EffectiveTotals(capped)[av]) else w
  {
    hide CapOne, ActorAppliedRewardTotal, ClampRewardTotal;
  }

  method CleanupLegacyRewardTotals(state: RuntimeState<real>, actor: Actor,
      playerAvailable: bool)
    returns (cleaned: bool)
    modifies state`rewardTotals, actor
    ensures cleaned == CanClean(old(state.rewardTotals), playerAvailable)
    ensures state.rewardTotals == if cleaned then map[] else old(state.rewardTotals)
    ensures forall av: ActorValue :: (ViewOf(actor.sheet, av)
      == if Subtracts(old(state.rewardTotals), playerAvailable)
         then CleanedView(old(state.rewardTotals), av, ViewOf(old(actor.sheet), av)) else ViewOf(old(actor.sheet), av))
  {
    hide CapOne, CleanedView, EffectiveTotals;
    if EffectiveTotals(state.rewardTotals) == map[] {
      state.rewardTotals := map[];
      return true;
    }
    if !playerAvailable {
      return false;
    }
    ghost var sheet := actor.sheet;
    ghost var stored := state.rewardTotals;
    var capped := CapTotals(state.rewardTotals, actor);
    state.rewardTotals := map[];
    SubtractTotals(EffectiveTotals(capped), actor);
    forall av: ActorValue {
      CleanedFromParts(stored, capped, av, ViewOf(sheet, av));
    }
    return true;
  }

  // ---- Finishing ---------------------------------------------------------------------------

  /** `cleaned` is the cleanup's answer, which is asked for only when legacy totals are left. */
  function Finalized(s: Snapshot<real>, cleaned: bool): Snapshot<real> {
    if s.migrationVersion < BUILD_MIGRATION_VERSION then s
    else
      match s.migrationState
      case Complete => s.(undoHistory := Stripped(s.undoHistory))
      case PendingCleanup =>
        if s.rewardTotals != map[] && !cleaned then s.(slots := NO_SLOTS)
        else s.(slots := NO_SLOTS, rewardTotals := map[], migrationVersion := BUILD_MIGRATION_VERSION,
                migrationState := Complete, undoHistory := Stripped(s.undoHistory))
      case _ => s
  }

  predicate AsksForCleanup(s: Snapshot<real>) {
    s.migrationVersion >= BUILD_MIGRATION_VERSION && s.migrationState.PendingCleanup? && s.rewardTotals != map[]
  }

  /** The snapshot is finished; a needed cleanup works on the live totals and the player. */
  method TryFinalizePendingMigration(snapshot: RuntimeState<real>, live: RuntimeState<real>, actor: Actor,
      playerAvailable: bool)
    requires snapshot != live && snapshot.rewardTotals == live.rewardTotals
    modifies snapshot, live`rewardTotals, actor
    ensures snapshot.Value() == Finalized(old(snapshot.Value()), CanClean(old(snapshot.rewardTotals), playerAvailable))
    ensures forall av: ActorValue :: (ViewOf(actor.sheet, av)
      == if AsksForCleanup(old(snapshot.Value())) && Subtracts(old(snapshot.rewardTotals), playerAvailable)
         then CleanedView(old(snapshot.rewardTotals), av, ViewOf(old(actor.sheet), av))
         else ViewOf(old(actor.sheet), av))
  {
    hide CleanedView, EffectiveTotals, Stripped;
    if snapshot.migrationVersion < BUILD_MIGRATION_VERSION {
      return;
    }
    if !snapshot.migrationState.PendingCleanup? {
      if snapshot.migrationState.Complete? {
        StripHistory(snapshot);
      }
      return;
    }
    snapshot.slots := NO_SLOTS;
    var cleaned := true;
    if snapshot.rewardTotals != map[] {
      cleaned := CleanupLegacyRewardTotals(live, actor, playerAvailable);
    }
    if !cleaned {
      return;
    }
    FinishCleaned(snapshot);
  }

  method FinishCleaned(snapshot: RuntimeState<real>)
    modifies snapshot
    ensures snapshot.Value()
      == old(snapshot.Value()).(rewardTotals := map[], migrationVersion := BUILD_MIGRATION_VERSION,
              migrationState := Complete, undoHistory := Stripped(old(snapshot.undoHistory)))
  {
    hide Stripped;
    snapshot.rewardTotals := map[];
    snapshot.migrationVersion := BUILD_MIGRATION_VERSION;
    snapshot.migrationState := Complete;
    StripHistory(snapshot);
  }

  function NoticeTaken(s: Snapshot<real>): Snapshot<real> {
    s.(notice := s.notice.(needsNotice := false))
  }

  method ConsumeMigrationNotice(snapshot: RuntimeState<real>) returns (notice: Option<Notice>)
    modifies snapshot
    ensures notice == if old(snapshot.notice).needsNotice then Some(old(snapshot.notice)) else None
    ensures snapshot.Value() == NoticeTaken(old(snapshot.Value()))
  {
    if !snapshot.notice.needsNotice {
      return None;
    }
    notice := Some(snapshot.notice);
    snapshot.notice := snapshot.notice.(needsNotice := false);
  }

  ghost function Finished(s: Snapshot<real>, playerAvailable: bool, forms: Forms): Snapshot<real> {
    Finalized(Normalized(s, forms, None), CanClean(s.rewardTotals, playerAvailable))
  }

  /** The process attempt that takes the legacy rewards off the player. */
  ghost predicate CleansNow(s: Snapshot<real>, playerAvailable: bool, forms: Forms) {
    AsksForCleanup(Normalized(s, forms, None)) && Subtracts(s.rewardTotals, playerAvailable)
  }

  ghost predicate SheetAfterProcess(s: Snapshot<real>, playerAvailable: bool, forms: Forms, sheet: Sheet,
      sheet': Sheet) {
    forall av: ActorValue :: ViewOf(sheet', av)
      == if CleansNow(s, playerAvailable, forms) then CleanedView(s.rewardTotals, av, ViewOf(sheet, av))
         else ViewOf(sheet, av)
  }

  lemma NormalizingKeepsTotals(s: Snapshot<real>, forms: Forms)
    ensures Normalized(s, forms, None).rewardTotals == s.rewardTotals
  {
  }

  method ProcessBuildMigrationState(state: RuntimeState<real>, actor: Actor, playerAvailable: bool, forms: Forms)
    returns (notice: Option<Notice>)
    modifies state, actor
    ensures state.Value() == NoticeTaken(Finished(old(state.Value()), playerAvailable, forms))
    ensures var after := Finished(old(state.Value()), playerAvailable, forms).notice;
      notice == if after.needsNotice then Some(after) else None
    ensures SheetAfterProcess(old(state.Value()), playerAvailable, forms, old(actor.sheet), actor.sheet)
  {
    hide Normalized, Finalized, CanClean, Subtracts, CleanedView, NoticeTaken;
    NormalizingKeepsTotals(state.Value(), forms);
    var snapshot := new RuntimeState<real>();
    snapshot.Replace(state.Value());
    NormalizeLoadedSnapshot(snapshot, forms, None);
    TryFinalizePendingMigration(snapshot, state, actor, playerAvailable);
    notice := ConsumeMigrationNotice(snapshot);
    state.Replace(snapshot.Value());
  }

  /** What an attempt leaves: finished, a migration has no slots, totals or undoable rewards; nothing else changes. */
  lemma FinishedExactly(s: Snapshot<real>, playerAvailable: bool, forms: Forms)
    ensures var n, f := Normalized(s, forms, None), Finished(s, playerAvailable, forms);
      var waits := n.migrationVersion >= 2 && n.migrationState.PendingCleanup?;
      var finishes := waits && CanClean(s.rewardTotals, playerAvailable);
      && f == n.(slots := if waits then NO_SLOTS else n.slots, rewardTotals := f.rewardTotals,
                 migrationVersion := f.migrationVersion, migrationState := f.migrationState,
                 undoHistory := f.undoHistory)
      && (finishes ==> f.rewardTotals == map[] && f.migrationState == Complete && f.migrationVersion == 2)
      && (!finishes ==> f.rewardTotals == s.rewardTotals && f.migrationState == n.migrationState
                        && f.migrationVersion == n.migrationVersion)
      && |f.undoHistory| == |n.undoHistory|
      && (forall i | 0 <= i < |n.undoHistory| ::
            f.undoHistory[i] == n.undoHistory[i].(rewardDeltas := if finishes then []
                                                                  else n.undoHistory[i].rewardDeltas))
  {
    hide Normalized, EffectiveTotals;
    NormalizingKeepsTotals(s, forms);
    EffectiveOfNothing();
    FinishedHistory(s, forms);
  }

  lemma FinishedHistory(s: Snapshot<real>, forms: Forms)
    ensures var n := Normalized(s, forms, None);
      n.migrationState.Complete? && n.migrationVersion >= 2 ==> Stripped(n.undoHistory) == n.undoHistory
  {
    NormalizeIsIdempotent(s, forms, None);
    hide Normalized, Stripped;
  }

  /** A cleanup cannot be carried out exactly when some total stands for something and there is no player. */
  lemma CleansExactlyWhen(totals: Totals, playerAvailable: bool)
    ensures CanClean(totals, playerAvailable)
      <==> playerAvailable || forall av | av in totals :: EffectiveTotal(av, totals[av]) == 0.0
  {
    hide ActorAppliedRewardTotal, ClampRewardTotal;
    var effective := EffectiveTotals(totals);
    assert forall av | av in totals :: av in effective <==> EffectiveTotal(av, totals[av]) != 0.0;
    if effective != map[] {
      var av :| av in effective;
      assert EffectiveTotal(av, totals[av]) != 0.0;
    }
  }

  // ---- Over any number of attempts ---------------------------------------------------------

  datatype World = World(state: Snapshot<real>, sheet: Sheet)

  datatype Event = Process(playerAvailable: bool) | Reload | Play

  /** Between attempts the game may change anything but the migration's own fields. */
  ghost predicate Step(forms: Forms, w: World, e: Event, w': World) {
    match e
    case Process(playerAvailable) =>
      && w'.state == NoticeTaken(Finished(w.state, playerAvailable, forms))
      && SheetAfterProcess(w.state, playerAvailable, forms, w.sheet, w'.sheet)
    case Reload => w' == w.(state := Normalized(w.state, forms, None))
    case Play =>
      && w'.state.migrationVersion == w.state.migrationVersion
      && w'.state.migrationState == w.state.migrationState
      && w'.state.notice == w.state.notice
  }

  ghost predicate IsRun(forms: Forms, ws: seq<World>, es: seq<Event>) {
    |ws| == |es| + 1 && forall i | 0 <= i < |es| :: Step(forms, ws[i], es[i], ws[i + 1])
  }

  /** 0: not yet derived; 1: waiting for the cleanup; 2: done; 3: a state the format allows but nothing leaves. */
  function Stage(s: Snapshot<real>): nat {
    if s.migrationVersion < BUILD_MIGRATION_VERSION then 0
    else
      match s.migrationState
      case PendingCleanup => 1
      case Complete => 2
      case _ => 3
  }

  predicate Derives(w: World, e: Event) { !e.Play? && Stage(w.state) == 0 }

  ghost predicate Cleans(forms: Forms, w: World, e: Event) {
    e.Process? && CleansNow(w.state, e.playerAvailable, forms)
  }

  ghost predicate Notifies(forms: Forms, w: World, e: Event) {
    e.Process? && Finished(w.state, e.playerAvailable, forms).notice.needsNotice
  }

  datatype Tally = Tally(derivations: nat, cleanups: nat, notices: nat)

  ghost function Counted(forms: Forms, ws: seq<World>, es: seq<Event>): Tally
    requires |ws| == |es| + 1
  {
    if es == [] then Tally(0, 0, 0)
    else
      var n := |es| - 1;
      var t := Counted(forms, ws[..|es|], es[..n]);
      Tally(t.derivations + (if Derives(ws[n], es[n]) then 1 else 0),
            t.cleanups + (if Cleans(forms, ws[n], es[n]) then 1 else 0),
            t.notices + (if Notifies(forms, ws[n], es[n]) then 1 else 0))
  }

  /** What may still happen: each at most once, and nothing of it once the state has passed that point. */
  function Allowance(s: Snapshot<real>): Tally {
    Tally(if Stage(s) == 0 then 1 else 0,
          if Stage(s) <= 1 then 1 else 0,
          if Stage(s) == 0 || s.notice.needsNotice then 1 else 0)
  }

  lemma NormalizeAdvances(s: Snapshot<real>, forms: Forms)
    ensures var n := Normalized(s, forms, None);
      && Stage(n) == (if Stage(s) == 0 then (if s.rewardTotals != map[] then 1 else 2) else Stage(s))
      && (Stage(s) != 0 ==> n.notice == s.notice)
  {
    hide DerivedScores, DerivedPoints, DerivedUnresolved, HasLegacyUndo, Stripped, Remapped;
  }

  lemma FinalizeAdvances(s: Snapshot<real>, cleaned: bool)
    ensures var f := Finalized(s, cleaned);
      && f.notice == s.notice
      && Stage(f) == (if Stage(s) == 1 && (s.rewardTotals == map[] || cleaned) then 2 else Stage(s))
  {
    hide Stripped;
  }

  lemma StepSpendsAllowance(forms: Forms, w: World, e: Event, w': World)
    requires Step(forms, w, e, w')
    ensures var a, a' := Allowance(w.state), Allowance(w'.state);
      && a'.derivations + (if Derives(w, e) then 1 else 0) <= a.derivations
      && a'.cleanups + (if Cleans(forms, w, e) then 1 else 0) <= a.cleanups
      && a'.notices + (if Notifies(forms, w, e) then 1 else 0) <= a.notices
    ensures Stage(w'.state) >= Stage(w.state)
  {
    hide Normalized, Finalized, CanClean, Subtracts, SheetAfterProcess;
    NormalizeAdvances(w.state, forms);
    NormalizingKeepsTotals(w.state, forms);
    if e.Process? {
      FinalizeAdvances(Normalized(w.state, forms, None), CanClean(w.state.rewardTotals, e.playerAvailable));
      if Subtracts(w.state.rewardTotals, e.playerAvailable) {
        SubtractingCleans(w.state.rewardTotals, e.playerAvailable);
      }
    }
  }

  lemma SubtractingCleans(totals: Totals, playerAvailable: bool)
    requires Subtracts(totals, playerAvailable)
    ensures CanClean(totals, playerAvailable)
  {
  }

  /** Whatever happens in between: the state only advances, and nothing is derived, taken back or announced twice. */
  lemma {:induction false} EverythingAtMostOnce(forms: Forms, ws: seq<World>, es: seq<Event>)
    requires IsRun(forms, ws, es)
    ensures var t := Counted(forms, ws, es);
      t.derivations <= 1 && t.cleanups <= 1 && t.notices <= 1
    ensures Stage(ws[|es|].state) >= Stage(ws[0].state)
    ensures var t, a, a' := Counted(forms, ws, es), Allowance(ws[0].state), Allowance(ws[|es|].state);
      t.derivations + a'.derivations <= a.derivations && t.cleanups + a'.cleanups <= a.cleanups
        && t.notices + a'.notices <= a.notices
    decreases |es|
  {
    if es != [] {
      var n := |es| - 1;
      EverythingAtMostOnce(forms, ws[..|es|], es[..n]);
      StepSpendsAllowance(forms, ws[n], es[n], ws[n + 1]);
    }
  }

  /** An attempt completes the migration exactly when the cleanup it needs can be done and the state is not stuck. */
  lemma ProcessCompletesExactlyWhen(forms: Forms, w: World, playerAvailable: bool, w': World)
    requires Step(forms, w, Process(playerAvailable), w')
    ensures Stage(w'.state) == 2 <==>
      Stage(w.state) == 2 || (Stage(w.state) <= 1 && CanClean(w.state.rewardTotals, playerAvailable))
    ensures Stage(w'.state) == 2 && Stage(w.state) <= 1 ==> w'.state.rewardTotals == map[]
  {
    hide Normalized, CanClean, SheetAfterProcess, Stripped;
    NormalizeAdvances(w.state, forms);
    NormalizingKeepsTotals(w.state, forms);
    EmptyIsClean(w.state.rewardTotals, playerAvailable);
  }

  lemma EmptyIsClean(totals: Totals, playerAvailable: bool)
    ensures totals == map[] ==> CanClean(totals, playerAvailable)
  {
  }

  // ---- Exactly once ------------------------------------------------------------------------

  ghost predicate SameViews(a: Sheet, b: Sheet) { forall av: ActorValue :: ViewOf(a, av) == ViewOf(b, av) }

  ghost predicate TakenBackOnce(totals: Totals, a: Sheet, b: Sheet) {
    forall av: ActorValue :: ViewOf(b, av) == CleanedView(totals, av, ViewOf(a, av))
  }

  predicate Attempts(es: seq<Event>) { forall e | e in es :: !e.Play? }

  lemma QuietStep(forms: Forms, w: World, e: Event, w': World)
    requires Step(forms, w, e, w') && !e.Play? && Stage(w.state) <= 1 && EffectiveTotals(w.state.rewardTotals) != map[]
    ensures if e.Process? && e.playerAvailable then
        Stage(w'.state) == 2 && w'.state.rewardTotals == map[] && TakenBackOnce(w.state.rewardTotals, w.sheet, w'.sheet)
      else
        Stage(w'.state) == 1 && w'.state.rewardTotals == w.state.rewardTotals && SameViews(w.sheet, w'.sheet)
  {
    hide Normalized, EffectiveTotals, CleanedView, Stripped;
    NormalizeAdvances(w.state, forms);
    NormalizingKeepsTotals(w.state, forms);
    EffectiveOfNothing();
  }

  lemma EffectiveOfNothing()
    ensures EffectiveTotals(map[]) == map[]
  {
  }

  lemma DoneStep(forms: Forms, w: World, e: Event, w': World)
    requires Step(forms, w, e, w') && !e.Play? && Stage(w.state) == 2 && w.state.rewardTotals == map[]
    ensures Stage(w'.state) == 2 && w'.state.rewardTotals == map[] && SameViews(w.sheet, w'.sheet)
  {
    hide Normalized, CleanedView, Stripped;
    NormalizeAdvances(w.state, forms);
    NormalizingKeepsTotals(w.state, forms);
  }

  predicate SomePlayer(es: seq<Event>) { exists e :: e in es && e.Process? && e.playerAvailable }

  /**
   * However often attempts and reloads repeat, the legacy totals leave the player once, or not at all
   * without a player.
   */
  lemma {:induction false} TakenBackExactlyOnce(forms: Forms, ws: seq<World>, es: seq<Event>)
    requires IsRun(forms, ws, es) && Attempts(es)
    requires Stage(ws[0].state) <= 1 && EffectiveTotals(ws[0].state.rewardTotals) != map[]
    ensures var last := ws[|es|];
      if SomePlayer(es) then
        Stage(last.state) == 2 && last.state.rewardTotals == map[]
          && TakenBackOnce(ws[0].state.rewardTotals, ws[0].sheet, last.sheet)
      else
        Stage(last.state) <= 1 && last.state.rewardTotals == ws[0].state.rewardTotals
          && SameViews(ws[0].sheet, last.sheet)
    decreases |es|
  {
    hide EffectiveTotals, Stage, Step, CleanedView;
    if es != [] {
      var n := |es| - 1;
      TakenBackExactlyOnce(forms, ws[..|es|], es[..n]);
      assert Step(forms, ws[n], es[n], ws[n + 1]);
      assert es == es[..n] + [es[n]];
      if SomePlayer(es[..n]) {
        DoneStep(forms, ws[n], es[n], ws[n + 1]);
      } else {
        QuietStep(forms, ws[n], es[n], ws[n + 1]);
      }
    }
  }

  // ---- Slots -------------------------------------------------------------------------------

  lemma ValidSlotsAreNotLegacy(slots: Slots, points: PerDiscipline)
    requires SlotsFit(slots, points)
    ensures Remapped(slots) == slots
  {
    hide RemapLegacyOptionId, FindOption;
    RemapIsFinal("");
    forall i: SlotId ensures RemapLegacyOptionId(slots[i]) == slots[i] {
      assert MayStay(slots, points, i);
      RemapIsFinal(slots[i]);
    }
  }

  lemma EmptySlotsFit(points: PerDiscipline)
    ensures SlotsFit(NO_SLOTS, points)
  {
    hide IsEligible;
  }

  /** A whole attempt keeps every occupied slot valid, and leaves none occupied while the cleanup is pending. */
  lemma ProcessKeepsSlotsValid(forms: Forms, w: World, playerAvailable: bool, w': World)
    requires Step(forms, w, Process(playerAvailable), w') && SlotsValid(w.state)
    ensures SlotsValid(w'.state)
  {
    hide SlotsFit, Remapped, Stripped, DerivedScores, DerivedPoints, DerivedUnresolved, HasLegacyUndo, CanClean,
         SheetAfterProcess;
    ValidSlotsAreNotLegacy(w.state.slots, w.state.points);
    EmptySlotsFit(w'.state.points);
  }
}
