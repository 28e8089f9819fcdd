// Migrating saves from before build scores: deriving scores from the registered map, dropping
// retired option ids, and taking legacy rewards back from the player exactly once.
module Migration {
  import opened ActorValues
  import opened Actors
  import opened Catalog
  import opened Progression
  import Registration
  import RegistrationRuns
  import RewardsResync
  import opened SetSums
  import opened State
  import SyncEngine

  const BUILD_MIGRATION_VERSION: u32 := 2

  type Forms = map<FormId, FormType>
  type Resolver = Option<map<FormId, Discipline>>

  function Mod32(x: int): u32 { x % U32_MODULUS }

  // ---- Option ids --------------------------------------------------------------------------

  function RemapLegacyOptionId(id: string): string {
    if id == "build.defense.fireward" || id == "build.defense.frostward" || id == "build.defense.stormward" then
      "build.defense.elementalWard"
    else if id == "build.defense.antidote" || id == "build.defense.purity" then
      "build.defense.purification"
    else id
  }

  function Remapped(slots: Slots): (r: Slots) {
    seq(SLOT_COUNT, i requires 0 <= i < SLOT_COUNT => RemapLegacyOptionId(slots[i]))
  }

  /** Remapping an id never empties it, keeps it when it names an option, and is done after one go. */
  lemma RemapIsFinal(id: string)
    ensures RemapLegacyOptionId(RemapLegacyOptionId(id)) == RemapLegacyOptionId(id)
    ensures RemapLegacyOptionId(id) == "" <==> id == ""
    ensures FindOption(id).Some? ==> RemapLegacyOptionId(id) == id
    ensures id in {"build.defense.fireward", "build.defense.frostward", "build.defense.stormward"} ==>
      RemapLegacyOptionId(id) == Text(ElementalWard)
    ensures id in {"build.defense.antidote", "build.defense.purity"} ==> RemapLegacyOptionId(id) == Text(Purification)
    ensures id !in LEGACY_OPTION_IDS ==> RemapLegacyOptionId(id) == id
  {
    hide FindOption;
    LegacyIdsAreNotOptions(ElementalWard);
    LegacyIdsAreNotOptions(Purification);
    FoundIsNotLegacy(id);
  }

  lemma FoundIsNotLegacy(id: string)
    ensures FindOption(id).Some? ==> id !in LEGACY_OPTION_IDS && id != ""
  {
    var found := FindOption(id);
    if found.Some? {
      LegacyIdsAreNotOptions(found.value);
    }
  }

  // ---- Deriving scores ---------------------------------------------------------------------

  datatype Derived = Derived(discipline: Discipline, points: u32)

  function FallbackPoints(d: Discipline): u32 {
    match d
    case Attack => 50
    case Defense => 30
    case Utility => 10
    case UndefinedDiscipline(_) => 0
  }

  function LegacyDiscipline(forms: Forms, resolver: Resolver, key: FormId, group: u32): Option<Discipline> {
    if group <= 5 then Some(DisciplineOfGroup(group))
    else
      match resolver
      case Some(table) => if key in table then Some(table[key]) else None
      case None => if key in forms then DisciplineOfFormType(forms[key]) else None
  }

  /** What one registered key is worth: by its form where that is known, else by its recorded group. */
  function Derivation(forms: Forms, resolver: Resolver, key: FormId, group: u32): Option<Derived> {
    if
      && resolver.None? && key in forms
      && DisciplineOfFormType(forms[key]).Some? && PointsForFormType(forms[key]) > 0
    then
      Some(Derived(DisciplineOfFormType(forms[key]).value, PointsForFormType(forms[key])))
    else
      match LegacyDiscipline(forms, resolver, key, group)
      case None => None
      case Some(d) => Some(Derived(d, FallbackPoints(d)))
  }

  /** A form that has no points of its own counts by its recorded group: 50, 30 or 10 points, or none at all. */
  lemma FallbackExactly(forms: Forms, key: FormId, group: u32)
    requires key in forms ==> forms[key].OtherForm?
    ensures Derivation(forms, None, key, group)
      == if group == 0 then Some(Derived(Attack, 50))
         else if group == 1 then Some(Derived(Defense, 30))
         else if group in {2, 3, 4, 5} then Some(Derived(Utility, 10))
         else None
  {
  }

  /** A caller's table of disciplines stands in for the forms, but only for groups it does not know. */
  lemma TableExactly(forms: Forms, table: map<FormId, Discipline>, key: FormId, group: u32)
    ensures Derivation(forms, Some(table), key, group)
      == if group <= 5 then Derivation(map[], None, key, group)
         else if key !in table then None
         else Some(Derived(table[key], if table[key] == Attack then 50 else if table[key] == Defense then 30
                                       else if table[key] == Utility then 10 else 0))
  {
  }

  /** A form that has points of its own counts with them, whatever its recorded group. */
  lemma FormExactly(forms: Forms, key: FormId, group: u32)
    requires key in forms && !forms[key].OtherForm?
    ensures var (discipline, points) := match forms[key] {
        case Weapon => (Attack, 70)
        case Ammo => (Attack, 20)
        case Armor => (Defense, 30)
        case AlchemyItem => (Utility, 25)
        case Ingredient => (Utility, 10)
        case Book => (Utility, 8)
        case Scroll => (Utility, 18)
        case SoulGem => (Utility, 30)
        case _ => (Utility, 5)
      };
      Derivation(forms, None, key, group) == Some(Derived(discipline, points))
  {
  }

  datatype Source = Source(forms: Forms, resolver: Resolver, registered: map<FormId, u32>) {
    function At(key: FormId): Option<Derived> {
      if key in registered then Derivation(forms, resolver, key, registered[key]) else None
    }
  }

  function RecordWeight(src: Source, d: Discipline): FormId -> int {
    (key: FormId) => if src.At(key).Some? && src.At(key).value.discipline == d then 1 else 0
  }

  function PointWeight(src: Source, d: Discipline): FormId -> int {
    (key: FormId) => if src.At(key).Some? && src.At(key).value.discipline == d then src.At(key).value.points else 0
  }

  function UnresolvedWeight(src: Source): FormId -> int {
    (key: FormId) => if src.At(key).None? then 1 else 0
  }

  /** The loop's result in whatever order it goes: sums over the registered keys, wrapped to 32 bits. */
  ghost function ScoreFor(src: Source, keys: set<FormId>, d: Discipline): u32 {
    Mod32(Total(keys, RecordWeight(src, d)))
  }

  ghost function PointsFor(src: Source, keys: set<FormId>, d: Discipline): u32 {
    Mod32(Total(keys, PointWeight(src, d)))
  }

  ghost function DerivedScores(src: Source, keys: set<FormId>): PerDiscipline {
    PerDiscipline(ScoreFor(src, keys, Attack), ScoreFor(src, keys, Defense), ScoreFor(src, keys, Utility))
  }

  ghost function DerivedPoints(src: Source, keys: set<FormId>): PerDiscipline {
    PerDiscipline(PointsFor(src, keys, Attack), PointsFor(src, keys, Defense), PointsFor(src, keys, Utility))
  }

  ghost function DerivedUnresolved(src: Source, keys: set<FormId>): u32 { Mod32(Total(keys, UnresolvedWeight(src))) }

  function Bumped(p: PerDiscipline, d: Discipline, x: u32): PerDiscipline {
    p.With(d, Mod32(p.Get(d) + x))
  }

  lemma ModAdds(x: int, y: int)
    ensures Mod32(Mod32(x) + y) == Mod32(x + y)
  {
  }

  lemma OneMoreFor(src: Source, keys: set<FormId>, key: FormId, d: Discipline)
    requires key !in keys
    ensures var own := src.At(key).Some? && src.At(key).value.discipline == d;
      && ScoreFor(src, keys + {key}, d) == (if own then Mod32(ScoreFor(src, keys, d) + 1) else ScoreFor(src, keys, d))
      && PointsFor(src, keys + {key}, d)
         == (if own then Mod32(PointsFor(src, keys, d) + src.At(key).value.points) else PointsFor(src, keys, d))
  {
    hide Source.At;
    TotalInsert(keys, key, RecordWeight(src, d));
    TotalInsert(keys, key, PointWeight(src, d));
    ModAdds(Total(keys, RecordWeight(src, d)), 1);
    if src.At(key).Some? {
      ModAdds(Total(keys, PointWeight(src, d)), src.At(key).value.points);
    }
  }

  /** One key more bumps one discipline, or counts as unresolved. */
  lemma DeriveOneMore(src: Source, keys: set<FormId>, key: FormId)
    requires key !in keys
    ensures var at := src.At(key);
      && DerivedScores(src, keys + {key})
         == (if at.Some? then Bumped(DerivedScores(src, keys), at.value.discipline, 1) else DerivedScores(src, keys))
      && DerivedPoints(src, keys + {key})
         == (if at.Some? then Bumped(DerivedPoints(src, keys), at.value.discipline, at.value.points)
             else DerivedPoints(src, keys))
      && DerivedUnresolved(src, keys + {key})
         == (if at.None? then Mod32(DerivedUnresolved(src, keys) + 1) else DerivedUnresolved(src, keys))
  {
    hide Mod32, Source.At, ScoreFor, PointsFor, DerivedUnresolved;
    OneMoreFor(src, keys, key, Attack);
    OneMoreFor(src, keys, key, Defense);
    OneMoreFor(src, keys, key, Utility);
    UnresolvedOneMore(src, keys, key);
  }

  lemma UnresolvedOneMore(src: Source, keys: set<FormId>, key: FormId)
    requires key !in keys
    ensures DerivedUnresolved(src, keys + {key})
         == (if src.At(key).None? then Mod32(DerivedUnresolved(src, keys) + 1) else DerivedUnresolved(src, keys))
  {
    hide Source.At;
    TotalInsert(keys, key, UnresolvedWeight(src));
    ModAdds(Total(keys, UnresolvedWeight(src)), 1);
  }

  lemma NothingDerived(src: Source)
    ensures DerivedScores(src, {}) == DerivedPoints(src, {}) == NO_POINTS && DerivedUnresolved(src, {}) == 0
  {
  }

  method DeriveScores(src: Source) returns (scores: PerDiscipline, points: PerDiscipline, unresolved: u32)
    ensures scores == DerivedScores(src, src.registered.Keys)
    ensures points == DerivedPoints(src, src.registered.Keys)
    ensures unresolved == DerivedUnresolved(src, src.registered.Keys)
  {
    hide Derivation, Mod32;
    NothingDerived(src);
    hide DerivedScores, DerivedPoints, DerivedUnresolved, Bumped;
    scores, points, unresolved := NO_POINTS, NO_POINTS, 0;
    var rest := src.registered.Keys;
    ghost var done: set<FormId> := {};
    while rest != {}
      invariant done + rest == src.registered.Keys && done !! rest
      invariant scores == DerivedScores(src, done) && points == DerivedPoints(src, done)
      invariant unresolved == DerivedUnresolved(src, done)
    {
      var key :| key in rest;
      DeriveOneMore(src, done, key);
      var at := src.At(key);
      if at.None? {
        unresolved := Mod32(unresolved + 1);
      } else {
        scores := Bumped(scores, at.value.discipline, 1);
        points := Bumped(points, at.value.discipline, at.value.points);
      }
      rest, done := rest - {key}, done + {key};
    }
    assert done == src.registered.Keys;
  }

  /** The unresolved keys are counted one by one. */
  lemma {:induction false} CountsUnresolved(src: Source, keys: set<FormId>)
    ensures Total(keys, UnresolvedWeight(src)) == |set k | k in keys && src.At(k).None?|
    decreases keys
  {
    hide Source.At;
    var unresolved := set k | k in keys && src.At(k).None?;
    if keys == {} {
      NothingDerivedAt(src);
      assert unresolved == {};
    } else {
      var key :| key in keys;
      var rest := keys - {key};
      var before := set k | k in rest && src.At(k).None?;
      CountsUnresolved(src, rest);
      TotalRemove(keys, key, UnresolvedWeight(src));
      assert unresolved == if src.At(key).None? then before + {key} else before;
    }
  }

  lemma NothingDerivedAt(src: Source)
    ensures var none: set<FormId> := {}; Total(none, UnresolvedWeight(src)) == 0
  {
  }

  // ---- Normalising a loaded snapshot -------------------------------------------------------

  function StripRecord<F>(r: UndoRecord<F>): UndoRecord<F> { r.(rewardDeltas := []) }

  function Stripped<F>(h: seq<UndoRecord<F>>): (r: seq<UndoRecord<F>>)
    ensures |r| == |h| && forall i | 0 <= i < |h| :: r[i] == StripRecord(h[i])
  {
    if h == [] then [] else Stripped(h[..|h| - 1]) + [StripRecord(h[|h| - 1])]
  }

  ghost predicate HasLegacyUndo<F>(h: seq<UndoRecord<F>>) { exists i :: 0 <= i < |h| && h[i].rewardDeltas != [] }

  ghost function Rederived<F>(s: Snapshot<F>, forms: Forms, resolver: Resolver): Snapshot<F> {
    var src := Source(forms, resolver, s.registered);
    var legacyRewards := s.rewardTotals != map[];
    var migrates := s.registered != map[] || legacyRewards || HasLegacyUndo(s.undoHistory);
    s.(scores := DerivedScores(src, s.registered.Keys),
       points := DerivedPoints(src, s.registered.Keys),
       slots := NO_SLOTS,
       migrationVersion := BUILD_MIGRATION_VERSION,
       migrationState := if legacyRewards then PendingCleanup else Complete,
       notice := if migrates then Notice(true, legacyRewards, DerivedUnresolved(src, s.registered.Keys)) else NO_NOTICE,
       undoHistory := if migrates && !legacyRewards then Stripped(s.undoHistory) else s.undoHistory)
  }

  ghost function Normalized<F>(s: Snapshot<F>, forms: Forms, resolver: Resolver): Snapshot<F> {
    if s.migrationVersion < BUILD_MIGRATION_VERSION then Rederived(s, forms, resolver)
    else
      match s.migrationState
      case PendingCleanup => s.(slots := NO_SLOTS)
      case Complete => s.(slots := Remapped(s.slots), undoHistory := Stripped(s.undoHistory))
      case _ => s.(slots := Remapped(s.slots))
  }

  method NormalizeSlotIds<F>(snapshot: RuntimeState<F>)
    modifies snapshot`slots
    ensures snapshot.slots == Remapped(old(snapshot.slots))
  {
    hide RemapLegacyOptionId;
    ghost var before := snapshot.slots;
    RemapIsFinal("");
    for i := 0 to SLOT_COUNT
      invariant forall j: SlotId :: snapshot.slots[j] == if j < i then RemapLegacyOptionId(before[j]) else before[j]
    {
      if snapshot.slots[i] != "" {
        snapshot.slots := snapshot.slots[i := RemapLegacyOptionId(snapshot.slots[i])];
      }
    }
    assert forall j: SlotId :: snapshot.slots[j] == Remapped(before)[j];
  }

  method StripHistory<F>(snapshot: RuntimeState<F>)
    modifies snapshot`undoHistory
    ensures snapshot.undoHistory == Stripped(old(snapshot.undoHistory))
  {
    ghost var before := snapshot.undoHistory;
    for i := 0 to |snapshot.undoHistory|
      invariant |snapshot.undoHistory| == |before|
      invariant forall j | 0 <= j < |before| ::
        snapshot.undoHistory[j] == if j < i then StripRecord(before[j]) else before[j]
    {
      snapshot.undoHistory := snapshot.undoHistory[i := StripRecord(snapshot.undoHistory[i])];
    }
  }

  method FindLegacyUndo<F>(h: seq<UndoRecord<F>>) returns (found: bool)
    ensures found <==> HasLegacyUndo(h)
  {
    found := false;
    for i := 0 to |h|
      invariant found <==> exists j :: 0 <= j < i && h[j].rewardDeltas != []
    {
      found := found || h[i].rewardDeltas != [];
    }
  }

  method RederiveScores<F>(snapshot: RuntimeState<F>, src: Source) returns (unresolved: u32)
    requires src.registered == snapshot.registered
    modifies snapshot`scores, snapshot`points, snapshot`slots
    ensures snapshot.slots == NO_SLOTS
    ensures snapshot.scores == DerivedScores(src, src.registered.Keys)
    ensures snapshot.points == DerivedPoints(src, src.registered.Keys)
    ensures unresolved == DerivedUnresolved(src, src.registered.Keys)
  {
    hide DerivedScores, DerivedPoints, DerivedUnresolved;
    snapshot.slots := NO_SLOTS;
    snapshot.scores, snapshot.points, unresolved := DeriveScores(src);
  }

  method Rederive<F(==)>(snapshot: RuntimeState<F>, forms: Forms, resolver: Resolver)
    modifies snapshot
    ensures snapshot.Value() == Rederived(old(snapshot.Value()), forms, resolver)
  {
    hide DerivedScores, DerivedPoints, DerivedUnresolved, HasLegacyUndo, Stripped;
    ghost var before := snapshot.Value();
    var hadRegistrations := snapshot.registered != map[];
    var hadRewards := snapshot.rewardTotals != map[];
    var hadUndo := FindLegacyUndo(snapshot.undoHistory);
    var unresolved := RederiveScores(snapshot, Source(forms, resolver, snapshot.registered));
    snapshot.migrationVersion := BUILD_MIGRATION_VERSION;
    snapshot.migrationState := if hadRewards then PendingCleanup else Complete;
    if !hadRegistrations && !hadRewards && !hadUndo {
      snapshot.notice := NO_NOTICE;
      return;
    }
    snapshot.notice := Notice(true, hadRewards, unresolved);
    if !hadRewards {
      StripHistory(snapshot);
    }
  }

  lemma RederivedIgnoresSlots<F>(s: Snapshot<F>, slots: Slots, forms: Forms, resolver: Resolver)
    ensures Rederived(s.(slots := slots), forms, resolver) == Rederived(s, forms, resolver)
  {
    hide DerivedScores, DerivedPoints, DerivedUnresolved, HasLegacyUndo, Stripped;
  }

  method NormalizeLoadedSnapshot<F(==)>(snapshot: RuntimeState<F>, forms: Forms, resolver: Resolver)
    modifies snapshot
    ensures snapshot.Value() == Normalized(old(snapshot.Value()), forms, resolver)
  {
    hide Rederived, Remapped, Stripped;
    RederivedIgnoresSlots(snapshot.Value(), Remapped(snapshot.slots), forms, resolver);
    NormalizeSlotIds(snapshot);
    if snapshot.migrationVersion >= BUILD_MIGRATION_VERSION {
      if snapshot.migrationState.PendingCleanup? {
        snapshot.slots := NO_SLOTS;
      } else if snapshot.migrationState.Complete? {
        StripHistory(snapshot);
      }
      return;
    }
    Rederive(snapshot, forms, resolver);
  }

  lemma StrippedIsFinal<F>(h: seq<UndoRecord<F>>)
    ensures Stripped(Stripped(h)) == Stripped(h)
    ensures !HasLegacyUndo(h) ==> Stripped(h) == h
  {
    if !HasLegacyUndo(h) {
      forall i | 0 <= i < |h| ensures Stripped(h)[i] == h[i] {
        assert h[i].rewardDeltas == [];
      }
    }
  }

  lemma RemappedIsFinal(slots: Slots)
    ensures Remapped(Remapped(slots)) == Remapped(slots)
    ensures Remapped(NO_SLOTS) == NO_SLOTS
  {
    hide RemapLegacyOptionId;
    RemapIsFinal("");
    forall i: SlotId ensures RemapLegacyOptionId(RemapLegacyOptionId(slots[i])) == RemapLegacyOptionId(slots[i]) {
      RemapIsFinal(slots[i]);
    }
  }

  lemma RederivedIsNormal<F>(s: Snapshot<F>, forms: Forms, resolver: Resolver)
    ensures var r := Rederived(s, forms, resolver);
      && r.migrationVersion == BUILD_MIGRATION_VERSION && r.slots == NO_SLOTS
      && (r.migrationState.PendingCleanup? || (r.migrationState.Complete? && Stripped(r.undoHistory) == r.undoHistory))
  {
    hide DerivedScores, DerivedPoints, DerivedUnresolved, HasLegacyUndo, Stripped;
    StrippedIsFinal(s.undoHistory);
  }

  ghost predicate IsNormal<F>(s: Snapshot<F>) {
    && s.migrationVersion >= BUILD_MIGRATION_VERSION
    && (s.migrationState.PendingCleanup? ==> s.slots == NO_SLOTS)
    && (s.migrationState.Complete? ==> Stripped(s.undoHistory) == s.undoHistory)
    && Remapped(s.slots) == s.slots
  }

  /**
   * What an old save becomes: its slots are emptied, old rewards wait for a cleanup, and only real
   * progress is announced.
   */
  lemma OldSavesExactly<F>(s: Snapshot<F>, forms: Forms, resolver: Resolver)
    requires s.migrationVersion < 2
    ensures var n := Normalized(s, forms, resolver);
      var progress := s.registered != map[] || s.rewardTotals != map[]
        || exists r :: r in s.undoHistory && r.rewardDeltas != [];
      && n == s.(scores := n.scores, points := n.points, slots := NO_SLOTS, migrationVersion := 2,
                 migrationState := if s.rewardTotals == map[] then Complete else PendingCleanup,
                 notice := Notice(progress, s.rewardTotals != map[], n.notice.unresolved),
                 undoHistory := n.undoHistory)
      && |n.undoHistory| == |s.undoHistory|
      && forall i | 0 <= i < |s.undoHistory| ::
           n.undoHistory[i] == s.undoHistory[i].(rewardDeltas := if s.rewardTotals == map[] then []
                                                                 else s.undoHistory[i].rewardDeltas)
  {
    hide DerivedScores, DerivedPoints, DerivedUnresolved;
    assert HasLegacyUndo(s.undoHistory) <==> exists r :: r in s.undoHistory && r.rewardDeltas != [];
  }

  /**
   * A save of this version keeps its slots, old ids renamed, unless a cleanup is pending; a finished one
   * owes no rewards.
   */
  lemma NewSavesExactly<F>(s: Snapshot<F>, forms: Forms, resolver: Resolver)
    requires s.migrationVersion >= 2
    ensures var n := Normalized(s, forms, resolver);
      && n == s.(slots := n.slots, undoHistory := n.undoHistory)
      && (forall i: SlotId ::
            n.slots[i] == if s.migrationState.PendingCleanup? then "" else RemapLegacyOptionId(s.slots[i]))
      && |n.undoHistory| == |s.undoHistory|
      && (forall i | 0 <= i < |s.undoHistory| ::
            n.undoHistory[i] == s.undoHistory[i].(rewardDeltas := if s.migrationState.Complete? then []
                                                                  else s.undoHistory[i].rewardDeltas))
  {
    hide RemapLegacyOptionId;
  }

  lemma NormalStays<F>(s: Snapshot<F>, forms: Forms, resolver: Resolver)
    requires IsNormal(s)
    ensures Normalized(s, forms, resolver) == s
  {
    hide Rederived, Remapped, Stripped;
  }

  /** Normalising reaches a normal form, so normalising twice is normalising once. */
  lemma NormalizeIsIdempotent<F>(s: Snapshot<F>, forms: Forms, resolver: Resolver)
    ensures IsNormal(Normalized(s, forms, resolver))
    ensures Normalized(Normalized(s, forms, resolver), forms, resolver) == Normalized(s, forms, resolver)
  {
    hide Rederived, Remapped, Stripped;
    RemappedIsFinal(s.slots);
    if s.migrationVersion < BUILD_MIGRATION_VERSION {
      RederivedIsNormal(s, forms, resolver);
    } else {
      StrippedIsFinal(s.undoHistory);
    }
    assert IsNormal(Normalized(s, forms, resolver));
    hide Normalized;
    NormalStays(Normalized(s, forms, resolver), forms, resolver);
  }

  lemma {:induction false} TotalSame(keys: set<FormId>, f: FormId -> int, h: FormId -> int)
    requires forall k | k in keys :: f(k) == h(k)
    ensures Total(keys, f) == Total(keys, h)
    decreases keys
  {
    if keys != {} {
      var k :| k in keys;
      TotalRemove(keys, k, f);
      TotalRemove(keys, k, h);
      TotalSame(keys - {k}, f, h);
    }
  }

  lemma WeightsAgree<F>(g: Registration.Game, s: Snapshot<F>, d: Discipline)
    requires forall k | k in s.registered :: RegistrationRuns.KnownGroup(g, s.registered, k)
    ensures var src := Source(g.forms, None, s.registered);
      && Total(s.registered.Keys, RecordWeight(src, d)) == RegistrationRuns.CountedRecords(g, s.registered.Keys, d)
      && Total(s.registered.Keys, PointWeight(src, d)) == RegistrationRuns.CountedPoints(g, s.registered.Keys, d)
  {
    var src := Source(g.forms, None, s.registered);
    forall k | k in s.registered.Keys
      ensures RecordWeight(src, d)(k) == RegistrationRuns.RecordsOf(g, d)(k)
      ensures PointWeight(src, d)(k) == RegistrationRuns.PointsOf(g, d)(k)
    {
      assert RegistrationRuns.KnownGroup(g, s.registered, k);
      TablesAgree(g.forms[k]);
    }
    TotalSame(s.registered.Keys, RecordWeight(src, d), RegistrationRuns.RecordsOf(g, d));
    TotalSame(s.registered.Keys, PointWeight(src, d), RegistrationRuns.PointsOf(g, d));
  }

  /** The running scores of any run are what the migration loop would derive from the registered map. */
  lemma IncrementalEqualsMigrated<F>(g: Registration.Game, s: Snapshot<F>)
    requires RegistrationRuns.Accounted(g, s) && RegistrationRuns.Roomy(s)
    ensures DerivedScores(Source(g.forms, None, s.registered), s.registered.Keys) == s.scores
    ensures DerivedPoints(Source(g.forms, None, s.registered), s.registered.Keys) == s.points
  {
    MigratedFor(g, s, Attack);
    MigratedFor(g, s, Defense);
    MigratedFor(g, s, Utility);
    hide ScoreFor, PointsFor;
  }

  lemma SmallMod(x: int)
    requires 0 <= x < U32_MODULUS
    ensures Mod32(x) == x
  {
  }

  lemma MigratedFor<F>(g: Registration.Game, s: Snapshot<F>, d: Discipline)
    requires RegistrationRuns.Accounted(g, s) && RegistrationRuns.Roomy(s) && !d.UndefinedDiscipline?
    ensures ScoreFor(Source(g.forms, None, s.registered), s.registered.Keys, d) == s.scores.Get(d)
    ensures PointsFor(Source(g.forms, None, s.registered), s.registered.Keys, d) == s.points.Get(d)
  {
    hide RegistrationRuns.CountedRecords, RegistrationRuns.CountedPoints, RegistrationRuns.KnownGroup,
         PerDiscipline.Get, Mod32;
    WeightsAgree(g, s, d);
    assert RegistrationRuns.Tally(g, s, d);
    RegistrationRuns.CountsAreSmall(g, s.registered.Keys, d);
    SmallMod(RegistrationRuns.CountedRecords(g, s.registered.Keys, d));
    SmallMod(RegistrationRuns.CountedPoints(g, s.registered.Keys, d));
  }
}
