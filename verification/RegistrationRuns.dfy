// Whole runs of registrations, undos and slot changes: the running scores and points are what
// one would count from the registered map, the history stays in order, and the slots stay valid.
module RegistrationRuns {
  import opened ActorValues
  import opened Catalog
  import opened Progression
  import opened Registration
  import opened SetSums
  import opened State

  datatype Event =
    | Activate(slot: SlotId, id: string)
    | Deactivate(slot: SlotId)
    | Swap(from: SlotId, to: SlotId, id: string)
    | Register(input: RegisterInput)
    | Undo(actionId: u64, answer: UndoInput)

  function Next(g: Game, s: Session, e: Event): Session {
    match e
    case Activate(slot, id) => s.(state := Activated(s.state, slot, id).0)
    case Deactivate(slot) => s.(state := Deactivated(s.state, slot))
    case Swap(from, to, id) => s.(state := Swapped(s.state, from, to, id).0)
    case Register(input) => Registering(g, s, input).0
    case Undo(actionId, answer) => Undoing(g, s, actionId, answer).0
  }

  function Run(g: Game, s: Session, es: seq<Event>): Session
    decreases |es|
  {
    if es == [] then s else Run(g, Next(g, s, es[0]), es[1..])
  }

  // ---- Counting from the registered map ----------------------------------------------------

  predicate Counts(g: Game, d: Discipline, key: FormId) {
    key in g.forms && DisciplineOfFormType(g.forms[key]) == Some(d)
  }

  function RecordsOf(g: Game, d: Discipline): FormId -> int {
    (key: FormId) => if Counts(g, d, key) then 1 else 0
  }

  function PointsOf(g: Game, d: Discipline): FormId -> int {
    (key: FormId) => if Counts(g, d, key) then PointsForFormType(g.forms[key]) else 0
  }

  ghost function CountedRecords(g: Game, keys: set<FormId>, d: Discipline): int { Total(keys, RecordsOf(g, d)) }

  ghost function CountedPoints(g: Game, keys: set<FormId>, d: Discipline): int { Total(keys, PointsOf(g, d)) }

  lemma WeightsAreSmall(g: Game, d: Discipline, key: FormId)
    ensures 0 <= RecordsOf(g, d)(key) <= 1
    ensures 0 <= PointsOf(g, d)(key) <= MAX_POINTS_PER_FORM
  {
    if key in g.forms {
      TablesAgree(g.forms[key]);
    }
  }

  lemma {:induction false} CountsAreSmall(g: Game, keys: set<FormId>, d: Discipline)
    ensures 0 <= CountedRecords(g, keys, d) <= |keys|
    ensures 0 <= CountedPoints(g, keys, d) <= MAX_POINTS_PER_FORM * |keys|
    decreases keys
  {
    if keys != {} {
      var k :| k in keys;
      TotalRemove(keys, k, RecordsOf(g, d));
      TotalRemove(keys, k, PointsOf(g, d));
      WeightsAreSmall(g, d, k);
      hide RecordsOf, PointsOf;
      CountsAreSmall(g, keys - {k}, d);
    }
  }

  /** One more key adds one record and its points to its own discipline, and nothing to the others. */
  lemma CountOneMore(g: Game, keys: set<FormId>, key: FormId, d: Discipline)
    requires key !in keys && key in g.forms && GroupFromFormType(g.forms[key]) <= MAX_GROUP
    ensures var own := d == DisciplineOfGroup(GroupFromFormType(g.forms[key]));
      && CountedRecords(g, keys + {key}, d) == CountedRecords(g, keys, d) + (if own then 1 else 0)
      && CountedPoints(g, keys + {key}, d)
         == CountedPoints(g, keys, d) + (if own then PointsForFormType(g.forms[key]) else 0)
  {
    TablesAgree(g.forms[key]);
    TotalInsert(keys, key, RecordsOf(g, d));
    TotalInsert(keys, key, PointsOf(g, d));
    hide GroupFromFormType, PointsForFormType, DisciplineOfFormType;
  }

  lemma AppliedAt(s: Snapshot<real>, c: Contribution, d: Discipline)
    requires IsEffective(c) && Fits(s, c) && !d.UndefinedDiscipline? && !c.discipline.UndefinedDiscipline?
    ensures Applied(s, c).scores.Get(d) == s.scores.Get(d) + (if d == c.discipline then c.recordDelta else 0)
    ensures Applied(s, c).points.Get(d) == s.points.Get(d) + (if d == c.discipline then c.pointsDelta else 0)
  {
  }

  lemma RolledBackAt(s: Snapshot<real>, c: Contribution, d: Discipline)
    requires IsEffective(c) && !d.UndefinedDiscipline? && !c.discipline.UndefinedDiscipline?
    requires s.scores.Get(c.discipline) >= c.recordDelta && s.points.Get(c.discipline) >= c.pointsDelta
    ensures RolledBack(s, c).scores.Get(d) == s.scores.Get(d) - (if d == c.discipline then c.recordDelta else 0)
    ensures RolledBack(s, c).points.Get(d) == s.points.Get(d) - (if d == c.discipline then c.pointsDelta else 0)
  {
    hide Swept;
  }

  predicate KnownGroup(g: Game, registered: map<FormId, u32>, key: FormId)
    requires key in registered
  {
    key in g.forms && registered[key] == GroupFromFormType(g.forms[key]) && registered[key] <= MAX_GROUP
  }

  ghost predicate Tally<F>(g: Game, s: Snapshot<F>, d: Discipline) {
    && s.scores.Get(d) == CountedRecords(g, s.registered.Keys, d)
    && s.points.Get(d) == CountedPoints(g, s.registered.Keys, d)
  }

  ghost predicate Tallied<F>(g: Game, s: Snapshot<F>) {
    forall d: Discipline | !d.UndefinedDiscipline? :: Tally(g, s, d)
  }

  /** The running scores and points are the counts over the registered map. */
  ghost predicate Accounted<F>(g: Game, s: Snapshot<F>) {
    && (forall key | key in s.registered :: KnownGroup(g, s.registered, key))
    && Tallied(g, s)
  }

  // ---- The history -------------------------------------------------------------------------

  /** The record stands for a key that is still registered, under its group and with its contribution. */
  predicate Backed<F>(g: Game, s: Snapshot<F>, r: UndoRecord<F>) {
    && r.actionId < s.nextActionId
    && r.regKey in s.registered && s.registered[r.regKey] == r.group
    && r.regKey in g.forms && r.contribution == MakeContribution(r.group, g.forms[r.regKey])
  }

  predicate InOrder<F>(h: seq<UndoRecord<F>>) {
    forall i, j | 0 <= i < j < |h| :: h[i].actionId < h[j].actionId && h[i].regKey != h[j].regKey
  }

  ghost predicate HistorySound<F>(g: Game, s: Snapshot<F>) {
    && |s.undoHistory| <= UNDO_LIMIT
    && InOrder(s.undoHistory)
    && (forall r | r in s.undoHistory :: Backed(g, s, r))
  }

  ghost predicate Sound<F>(g: Game, s: Snapshot<F>) {
    SlotsValid(s) && HistorySound(g, s) && Accounted(g, s)
  }

  /** Far from the 32-bit limit of the points and the 64-bit limit of the action ids. */
  predicate Roomy<F>(s: Snapshot<F>) {
    MAX_POINTS_PER_FORM * |s.registered| < U32_MODULUS && s.nextActionId + 1 < U64_MODULUS
  }

  predicate StaysRoomy(g: Game, s: Session, es: seq<Event>)
    decreases |es|
  {
    Roomy(s.state) && (es == [] || StaysRoomy(g, Next(g, s, es[0]), es[1..]))
  }

  // ---- One step ----------------------------------------------------------------------------

  lemma FailedUndoChangesNothing(g: Game, s: Session, actionId: u64, answer: UndoInput)
    requires HistorySound(g, s.state) && s.state.nextActionId + 1 < U64_MODULUS
    requires !Undoing(g, s, actionId, answer).1
    ensures Undoing(g, s, actionId, answer).0 == s
  {
    if s.state.undoHistory != [] {
      assert Backed(g, s.state, s.state.undoHistory[|s.state.undoHistory| - 1]);
    }
    FailedUndoRestoresExactlyWhen(g, s, actionId, answer);
  }

  /** What a successful registration does, field by field. */
  lemma RegisterEffect(g: Game, s: Session, input: RegisterInput)
    requires Registering(g, s, input).1.Registered?
    ensures input.key.Some? && input.key.value in g.forms && input.key.value !in s.state.registered
    ensures var key := input.key.value;
      var form := g.forms[key];
      var r := NewRecord(g, s.state, input.item, key);
      var after := Registering(g, s, input).0.state;
      && r.group == GroupFromFormType(form) && r.group <= MAX_GROUP && r.regKey == key
      && r.contribution == Some(Credit(form))
      && after == Pushed(Applied(s.state.(registered := s.state.registered[key := r.group]), r.contribution.value), r)
  {
    TablesAgree(g.forms[input.key.value]);
  }

  lemma BackedAfterPush(g: Game, s: Snapshot<real>, t: Snapshot<real>, key: FormId, group: u32, r: UndoRecord<real>)
    requires Backed(g, s, r) && key !in s.registered && s.nextActionId + 1 < U64_MODULUS
    requires t.registered == s.registered[key := group] && t.nextActionId == s.nextActionId + 1
    ensures Backed(g, t, r)
  {
  }

  lemma {:induction false} InOrderSuffix(h: seq<UndoRecord<real>>, n: nat)
    requires InOrder(h)
    ensures InOrder(Last(h, n))
  {
    var last := Last(h, n);
    var from := |h| - |last|;
    forall i, j | 0 <= i < j < |last| ensures last[i].actionId < last[j].actionId && last[i].regKey != last[j].regKey {
      assert last[i] == h[from + i] && last[j] == h[from + j];
    }
  }

  lemma InOrderPlus(h: seq<UndoRecord<real>>, r: UndoRecord<real>)
    requires InOrder(h)
    requires forall u | u in h :: u.actionId < r.actionId && u.regKey != r.regKey
    ensures InOrder(h + [r])
  {
    var all := h + [r];
    forall i, j | 0 <= i < j < |all| ensures all[i].actionId < all[j].actionId && all[i].regKey != all[j].regKey {
      assert i < |h| && all[i] == h[i];
    }
  }

  lemma PushKeepsHistory(g: Game, s: Snapshot<real>, t: Snapshot<real>, r: UndoRecord<real>)
    requires HistorySound(g, s) && Roomy(s) && r.regKey !in s.registered
    requires t.registered == s.registered[r.regKey := r.group]
    requires t.undoHistory == s.undoHistory && t.nextActionId == s.nextActionId
    requires r.regKey in g.forms && r.contribution == MakeContribution(r.group, g.forms[r.regKey])
    ensures HistorySound(g, Pushed(t, r))
  {
    var stamped := r.(actionId := s.nextActionId);
    assert forall u | u in s.undoHistory :: Backed(g, s, u);
    InOrderPlus(s.undoHistory, stamped);
    InOrderSuffix(s.undoHistory + [stamped], UNDO_LIMIT);
    forall u | u in Pushed(t, r).undoHistory ensures Backed(g, Pushed(t, r), u) {
      StillBacked(g, s, t, r, u);
    }
  }

  lemma StillBacked(g: Game, s: Snapshot<real>, t: Snapshot<real>, r: UndoRecord<real>, u: UndoRecord<real>)
    requires Roomy(s) && r.regKey !in s.registered
    requires forall v | v in s.undoHistory :: Backed(g, s, v)
    requires t.registered == s.registered[r.regKey := r.group]
    requires t.undoHistory == s.undoHistory && t.nextActionId == s.nextActionId
    requires r.regKey in g.forms && r.contribution == MakeContribution(r.group, g.forms[r.regKey])
    requires u in Pushed(t, r).undoHistory
    ensures Backed(g, Pushed(t, r), u)
  {
    hide MakeContribution;
    var stamped := r.(actionId := s.nextActionId);
    if u != stamped {
      assert u in s.undoHistory + [stamped];
      BackedAfterPush(g, s, Pushed(t, r), r.regKey, r.group, u);
    }
  }

  /** The contribution a registered key of this form type was credited with. */
  function Credit(form: FormType): Contribution {
    Contribution(DisciplineOfGroup(GroupFromFormType(form)), 1, PointsForFormType(form))
  }

  lemma TallyAfterApply(g: Game, s: Snapshot<real>, keys: set<FormId>, key: FormId, d: Discipline)
    requires key !in keys && key in g.forms && GroupFromFormType(g.forms[key]) <= MAX_GROUP && !d.UndefinedDiscipline?
    requires s.scores.Get(d) == CountedRecords(g, keys, d) && s.points.Get(d) == CountedPoints(g, keys, d)
    requires Fits(s, Credit(g.forms[key]))
    ensures Applied(s, Credit(g.forms[key])).scores.Get(d) == CountedRecords(g, keys + {key}, d)
    ensures Applied(s, Credit(g.forms[key])).points.Get(d) == CountedPoints(g, keys + {key}, d)
  {
    TablesAgree(g.forms[key]);
    hide GroupFromFormType, PointsForFormType, CountedRecords, CountedPoints, Applied, PerDiscipline.Get;
    CountOneMore(g, keys, key, d);
    AppliedAt(s, Credit(g.forms[key]), d);
  }

  lemma TallyAfterRollback(g: Game, s: Snapshot<real>, keys: set<FormId>, key: FormId, d: Discipline)
    requires key !in keys && key in g.forms && GroupFromFormType(g.forms[key]) <= MAX_GROUP && !d.UndefinedDiscipline?
    requires s.scores.Get(d) == CountedRecords(g, keys + {key}, d)
    requires s.points.Get(d) == CountedPoints(g, keys + {key}, d)
    requires var own := Credit(g.forms[key]).discipline;
      && s.scores.Get(own) == CountedRecords(g, keys + {key}, own)
      && s.points.Get(own) == CountedPoints(g, keys + {key}, own)
    ensures RolledBack(s, Credit(g.forms[key])).scores.Get(d) == CountedRecords(g, keys, d)
    ensures RolledBack(s, Credit(g.forms[key])).points.Get(d) == CountedPoints(g, keys, d)
  {
    TablesAgree(g.forms[key]);
    var c := Credit(g.forms[key]);
    hide GroupFromFormType, PointsForFormType, CountedRecords, CountedPoints, RolledBack, PerDiscipline.Get;
    CountsAreSmall(g, keys, c.discipline);
    CountOneMore(g, keys, key, c.discipline);
    CountOneMore(g, keys, key, d);
    RolledBackAt(s, c, d);
  }

  lemma CreditFits(g: Game, s: Snapshot<real>, form: FormType)
    requires Tallied(g, s) && MAX_POINTS_PER_FORM * (|s.registered| + 1) < U32_MODULUS
    ensures Fits(s, Credit(form))
  {
    TablesAgree(form);
    CountsAreSmall(g, s.registered.Keys, Credit(form).discipline);
    assert Tally(g, s, Credit(form).discipline);
    hide GroupFromFormType, PointsForFormType, CountedRecords, CountedPoints;
  }

  lemma TallyAfterInsert(g: Game, s: Snapshot<real>, inserted: Snapshot<real>, key: FormId, d: Discipline)
    requires Tallied(g, s) && !d.UndefinedDiscipline?
    requires key !in s.registered && key in g.forms && GroupFromFormType(g.forms[key]) <= MAX_GROUP
    requires MAX_POINTS_PER_FORM * (|s.registered| + 1) < U32_MODULUS
    requires inserted.scores == s.scores && inserted.points == s.points
    requires inserted.registered.Keys == s.registered.Keys + {key}
    ensures Tally(g, Applied(inserted, Credit(g.forms[key])), d)
  {
    hide GroupFromFormType, PointsForFormType, CountedRecords, CountedPoints, Applied, PerDiscipline.Get;
    CreditFits(g, s, g.forms[key]);
    ApplyTouchesOnlyProgress(inserted, Credit(g.forms[key]));
    assert Tally(g, s, d);
    TallyAfterApply(g, inserted, s.registered.Keys, key, d);
  }

  lemma KnownAfterInsert(g: Game, registered: map<FormId, u32>, key: FormId, k: FormId)
    requires k == key || (k in registered && KnownGroup(g, registered, k))
    requires key in g.forms && GroupFromFormType(g.forms[key]) <= MAX_GROUP
    ensures KnownGroup(g, registered[key := GroupFromFormType(g.forms[key])], k)
  {
  }

  lemma KnownAfterInsertAll(g: Game, registered: map<FormId, u32>, key: FormId)
    requires forall k | k in registered :: KnownGroup(g, registered, k)
    requires key in g.forms && GroupFromFormType(g.forms[key]) <= MAX_GROUP
    ensures var inserted := registered[key := GroupFromFormType(g.forms[key])];
      forall k | k in inserted :: KnownGroup(g, inserted, k)
  {
    hide KnownGroup;
    var inserted := registered[key := GroupFromFormType(g.forms[key])];
    forall k | k in inserted ensures KnownGroup(g, inserted, k) {
      KnownAfterInsert(g, registered, key, k);
    }
  }

  lemma ApplyKeepsAccounts(g: Game, s: Snapshot<real>, key: FormId)
    requires Accounted(g, s) && key !in s.registered && key in g.forms && GroupFromFormType(g.forms[key]) <= MAX_GROUP
    requires MAX_POINTS_PER_FORM * (|s.registered| + 1) < U32_MODULUS
    ensures Accounted(g,
      Applied(s.(registered := s.registered[key := GroupFromFormType(g.forms[key])]), Credit(g.forms[key])))
  {
    hide GroupFromFormType, Applied, Tally, KnownGroup, Credit;
    KnownAfterInsertAll(g, s.registered, key);
    var inserted := s.(registered := s.registered[key := GroupFromFormType(g.forms[key])]);
    ApplyTouchesOnlyProgress(inserted, Credit(g.forms[key]));
    var applied := Applied(inserted, Credit(g.forms[key]));
    forall d: Discipline | !d.UndefinedDiscipline? ensures Tally(g, applied, d) {
      TallyAfterInsert(g, s, inserted, key, d);
    }
  }

  lemma RegisterKeepsSound(g: Game, s: Session, input: RegisterInput)
    requires Sound(g, s.state) && Roomy(s.state) && Roomy(Registering(g, s, input).0.state)
    ensures Sound(g, Registering(g, s, input).0.state)
  {
    hide SlotsFit, MakeContribution, Applied;
    if Registering(g, s, input).1.Registered? {
      hide Registering;
      RegisterEffect(g, s, input);
      var key := input.key.value;
      var r := NewRecord(g, s.state, input.item, key);
      var c := r.contribution.value;
      var inserted := s.state.(registered := s.state.registered[key := r.group]);
      ApplyTouchesOnlyProgress(inserted, c);
      ApplyKeepsSlotsValid(inserted, c);
      assert |inserted.registered| == |s.state.registered| + 1;
      ApplyKeepsAccounts(g, s.state, key);
      PushKeepsHistory(g, s.state, Applied(inserted, c), r);
    } else {
      RefusedKeepsAllButBlocked(g, s, input);
      assert forall r | r in s.state.undoHistory :: Backed(g, s.state, r);
    }
  }

  /** A registration that does not go through may only ban the item and its key. */
  lemma RefusedKeepsAllButBlocked(g: Game, s: Session, input: RegisterInput)
    requires !Registering(g, s, input).1.Registered?
    ensures var s' := Registering(g, s, input).0;
      && s'.items == s.items && s'.state == s.state.(blocked := s'.state.blocked)
      && s.state.blocked <= s'.state.blocked
      && (s'.state.blocked != s.state.blocked ==> Registering(g, s, input).1.Banned?)
  {
  }

  /** What a successful undo does, field by field. */
  lemma UndoEffect(g: Game, s: Session, actionId: u64, answer: UndoInput)
    requires HistorySound(g, s.state) && Accounted(g, s.state) && Undoing(g, s, actionId, answer).1
    ensures s.state.undoHistory != []
    ensures var r := s.state.undoHistory[|s.state.undoHistory| - 1];
      && Backed(g, s.state, r) && KnownGroup(g, s.state.registered, r.regKey)
      && r.contribution == Some(Credit(g.forms[r.regKey]))
      && Undoing(g, s, actionId, answer).0.state
         == RolledBack(Popped(s.state).(registered := s.state.registered - {r.regKey}), r.contribution.value)
  {
    var r := s.state.undoHistory[|s.state.undoHistory| - 1];
    assert Backed(g, s.state, r);
    assert KnownGroup(g, s.state.registered, r.regKey);
    TablesAgree(g.forms[r.regKey]);
  }

  lemma PopKeepsHistory(g: Game, s: Snapshot<real>, t: Snapshot<real>)
    requires HistorySound(g, s) && s.undoHistory != []
    requires var r := s.undoHistory[|s.undoHistory| - 1];
      && t.undoHistory == s.undoHistory[..|s.undoHistory| - 1] && t.registered == s.registered - {r.regKey}
      && t.nextActionId == s.nextActionId
    ensures HistorySound(g, t)
  {
    hide MakeContribution;
    forall u | u in t.undoHistory ensures Backed(g, t, u) {
      var i :| 0 <= i < |t.undoHistory| && t.undoHistory[i] == u;
      assert s.undoHistory[i] == u;
      assert Backed(g, s, u);
    }
  }

  lemma RollbackKeepsAccounts(g: Game, s: Snapshot<real>, key: FormId)
    requires Accounted(g, s) && key in s.registered && KnownGroup(g, s.registered, key)
    ensures Accounted(g, RolledBack(s.(registered := s.registered - {key}), Credit(g.forms[key])))
  {
    hide GroupFromFormType, PointsForFormType, CountedRecords, CountedPoints, RolledBack;
    var removed := s.(registered := s.registered - {key});
    var c := Credit(g.forms[key]);
    assert s.registered.Keys == removed.registered.Keys + {key};
    RollbackLeavesTheRest(removed, c);
    assert Tally(g, s, c.discipline);
    forall d: Discipline | !d.UndefinedDiscipline? ensures Tally(g, RolledBack(removed, c), d) {
      assert Tally(g, s, d);
      TallyAfterRollback(g, removed, removed.registered.Keys, key, d);
    }
    forall k | k in removed.registered ensures KnownGroup(g, removed.registered, k) {
      assert KnownGroup(g, s.registered, k);
    }
  }

  lemma RollbackLeavesTheRest(s: Snapshot<real>, c: Contribution)
    ensures var s' := RolledBack(s, c); s' == s.(scores := s'.scores, points := s'.points, slots := s'.slots)
    ensures forall t: Snapshot<real> | t == s.(undoHistory := t.undoHistory) ::
      RolledBack(t, c) == RolledBack(s, c).(undoHistory := t.undoHistory)
  {
  }

  lemma UndoKeepsSound(g: Game, s: Session, actionId: u64, answer: UndoInput)
    requires Sound(g, s.state) && Roomy(s.state)
    ensures Sound(g, Undoing(g, s, actionId, answer).0.state)
  {
    hide SlotsFit, RolledBack, MakeContribution;
    if Undoing(g, s, actionId, answer).1 {
      UndoEffect(g, s, actionId, answer);
      hide Undoing;
      var r := s.state.undoHistory[|s.state.undoHistory| - 1];
      var c := r.contribution.value;
      var removed := s.state.(registered := s.state.registered - {r.regKey});
      var popped := Popped(s.state).(registered := s.state.registered - {r.regKey});
      RollbackLeavesTheRest(removed, c);
      RollbackKeepsAccounts(g, s.state, r.regKey);
      RollbackKeepsSlotsValid(removed, c);
      PopKeepsHistory(g, s.state, RolledBack(popped, c));
    } else {
      FailedUndoChangesNothing(g, s, actionId, answer);
    }
  }

  lemma SlotChangeKeepsSound(g: Game, s: Snapshot<real>, s': Snapshot<real>)
    requires Sound(g, s) && SlotsValid(s') && s' == s.(slots := s'.slots)
    ensures Sound(g, s')
  {
    hide SlotsFit;
    assert forall r | r in s.undoHistory :: Backed(g, s, r);
  }

  lemma StepKeepsSound(g: Game, s: Session, e: Event)
    requires Sound(g, s.state) && Roomy(s.state) && Roomy(Next(g, s, e).state)
    ensures Sound(g, Next(g, s, e).state)
  {
    hide SlotsFit, Sound, IsEligible, Registering, Undoing;
    SoundSlots(g, s.state);
    match e
    case Activate(slot, id) =>
      ActivateKeepsSlotsValid(s.state, slot, id);
      SlotChangeKeepsSound(g, s.state, Next(g, s, e).state);
    case Deactivate(slot) =>
      DeactivateKeepsSlotsValid(s.state, slot);
      SlotChangeKeepsSound(g, s.state, Next(g, s, e).state);
    case Swap(from, to, id) =>
      SwapKeepsSlotsValid(s.state, from, to, id);
      SlotChangeKeepsSound(g, s.state, Next(g, s, e).state);
    case Register(input) => RegisterKeepsSound(g, s, input);
    case Undo(actionId, answer) => UndoKeepsSound(g, s, actionId, answer);
  }

  lemma SoundSlots(g: Game, s: Snapshot<real>)
    requires Sound(g, s)
    ensures SlotsValid(s)
  {
  }

  // ---- Whole runs --------------------------------------------------------------------------

  lemma {:induction false} RunsStaySound(g: Game, s: Session, es: seq<Event>)
    requires Sound(g, s.state) && StaysRoomy(g, s, es)
    ensures Sound(g, Run(g, s, es).state)
    decreases |es|
  {
    hide Sound, Next;
    if es != [] {
      StepKeepsSound(g, s, es[0]);
      RunsStaySound(g, Next(g, s, es[0]), es[1..]);
    }
  }

  lemma FreshIsSound(g: Game)
    ensures Sound(g, Cleared<real>())
  {
    hide IsEligible;
  }

  /**
   * Starting with nothing registered, after any run of registrations, undos, failed undos and slot
   * changes: scores and points are the counts over the registered map, the history is in order and
   * backed by it, and every occupied slot holds an option that fits and is unlocked.
   */
  lemma IncrementalEqualsCounted(g: Game, items: map<FormId, nat>, es: seq<Event>)
    requires StaysRoomy(g, Session(Cleared(), items), es)
    ensures var s := Run(g, Session(Cleared(), items), es).state;
      && Accounted(g, s) && HistorySound(g, s) && SlotsValid(s)
  {
    FreshIsSound(g);
    RunsStaySound(g, Session(Cleared(), items), es);
  }
}
