// The quick list and the registration itself judge an inventory entry alike: an entry is listed as
// ready exactly when registering it gets past every check. Registering and undoing are the events
// of the list's cache, so what was registered stays off every later list.
module QuickListAgreement {
  import opened ActorValues
  import opened Progression
  import opened QuickListBuilder
  import opened QuickListCache
  import opened Registration
  import opened State

  function RegistryOf(s: Snapshot<real>): Registry { Registry(s.registered.Keys, s.blocked) }

  /** The list's entry and the registration's input describe the same stack in the same game. */
  predicate SameItem(g: Game, e: Entry, input: RegisterInput) {
    && input.item == e.item && input.key == e.key
    && e.item in g.forms && (e.key.Some? ==> e.key.value in g.forms && g.forms[e.key.value] == e.keyForm)
    && e.itemExcluded == (e.item in g.excluded) && (e.key.Some? ==> e.keyExcluded == (e.key.value in g.excluded))
    && e.questProtected == (input.questProtected || input.questObject)
    && e.gate.Allow? == !input.gateBlocks
    && input.playerAvailable && input.inInventory && input.safeToRemove == (e.safeCount > 0)
  }

  /** Listed, and without a reason to be greyed out. */
  predicate IsReady(e: Entry, reg: Registry) { Qualifies(e, reg) && DisabledReason(e) == "" }

  lemma ReadyExactlyWhenItPasses(g: Game, s: Snapshot<real>, e: Entry, input: RegisterInput)
    requires SameItem(g, e, input)
    ensures IsReady(e, RegistryOf(s)) <==> PassesChecks(g, s, input) && input.safeToRemove
  {
  }

  /** A ready entry registers if it has a name and the engine lets one go; an entry that is not ready never does. */
  lemma RegistersExactlyWhenReady(g: Game, s: Session, e: Entry, input: RegisterInput)
    requires SameItem(g, e, input) && e.count == Held(s.items, e.item)
    ensures Registering(g, s, input).1.Registered? <==>
      IsReady(e, RegistryOf(s.state)) && input.named && input.removable && e.count > 0
  {
    ReadyExactlyWhenItPasses(g, s.state, e, input);
    hide PassesChecks, IsReady;
  }

  /** What was just registered is gone from the list, as a key and as an item. */
  lemma RegisteredLeavesTheList(g: Game, s: Session, input: RegisterInput, entries: seq<Entry>)
    requires Registering(g, s, input).1.Registered?
    ensures var after := RegistryOf(Registering(g, s, input).0.state);
      forall x | x in Eligible(entries, after, {}) :: x.regKey != input.key.value && x.formId != input.key.value
  {
    EligibleKeys(entries, RegistryOf(Registering(g, s, input).0.state), {});
    assert input.key.value in Registering(g, s, input).0.state.registered;
    hide Eligible;
  }

  // ---- Registering and undoing as events of the cache ----------------------------------------

  function BlockEvents(key: FormId, item: FormId): seq<Event> {
    (if key != 0 then [Block(key)] else []) + (if item != 0 && item != key then [Block(item)] else [])
  }

  function RegisterEvents(g: Game, s: Session, input: RegisterInput): seq<Event> {
    match Registering(g, s, input).1
    case Registered => [Insert(input.key.value)] + INVALIDATION
    case Banned => BlockEvents(input.key.value, input.item)
    case Refused => []
  }

  /** A failed undo has put its key back by the time its task ends, and does not invalidate. */
  function UndoEvents(g: Game, s: Session, actionId: u64, input: UndoInput): seq<Event> {
    if !IsLatest(s.state, actionId) then []
    else
      var key := s.state.undoHistory[|s.state.undoHistory| - 1].regKey;
      if Undoing(g, s, actionId, input).1 then [Remove(key)] + INVALIDATION else [FailedUndo(key)]
  }

  lemma InvalidationKeepsRegistry(w: World)
    ensures CanRun(w, INVALIDATION) && Run(w, INVALIDATION).registry == w.registry
  {
    RunTwo(w, Bump, ClearStorage);
  }

  lemma ThenInvalidated(w: World, e: Event)
    requires Enabled(w, e)
    ensures CanRun(w, [e] + INVALIDATION) && Run(w, [e] + INVALIDATION).registry == After(w, e).registry
  {
    assert ([e] + INVALIDATION)[1..] == INVALIDATION;
    InvalidationKeepsRegistry(After(w, e));
  }

  lemma BlockEventsBlock(w: World, key: FormId, item: FormId)
    ensures CanRun(w, BlockEvents(key, item))
    ensures Run(w, BlockEvents(key, item)).registry == Registry(w.registry.registered,
      w.registry.blocked + (if key != 0 then {key} else {}) + (if item != 0 && item != key then {item} else {}))
  {
    if key != 0 && item != 0 && item != key {
      RunTwo(w, Block(key), Block(item));
    }
  }

  lemma RegisteringRegistry(g: Game, s: Session, input: RegisterInput)
    requires Registering(g, s, input).1.Registered?
    ensures RegistryOf(Registering(g, s, input).0.state)
      == Registry(s.state.registered.Keys + {input.key.value}, s.state.blocked)
  {
    var r := NewRecord(g, s.state, input.item, input.key.value);
    ApplyTouchesOnlyProgress(Inserted(s.state, r.regKey, r.group), r.contribution.value);
    hide Applied;
  }

  lemma UndoingRegistry(g: Game, s: Session, actionId: u64, input: UndoInput)
    ensures RegistryOf(Undoing(g, s, actionId, input).0.state)
      == if Undoing(g, s, actionId, input).1
         then Registry(s.state.registered.Keys - {s.state.undoHistory[|s.state.undoHistory| - 1].regKey},
           s.state.blocked)
         else RegistryOf(s.state)
  {
    if IsLatest(s.state, actionId) {
      var r := s.state.undoHistory[|s.state.undoHistory| - 1];
      var removed := Removed(Popped(s.state), r.regKey);
      assert removed.registered.Keys == s.state.registered.Keys - {r.regKey};
      if r.regKey in s.state.registered {
        assert Inserted(removed, r.regKey, r.group).registered.Keys == s.state.registered.Keys;
      }
    }
    hide RolledBack, RewardsTakenBack;
  }

  /** Registering an item does to the registry exactly what its events do. */
  lemma RegisteringIsItsEvents(g: Game, s: Session, input: RegisterInput, w: World)
    requires w.registry == RegistryOf(s.state)
    ensures var es := RegisterEvents(g, s, input);
      CanRun(w, es) && Run(w, es).registry == RegistryOf(Registering(g, s, input).0.state)
  {
    match Registering(g, s, input).1
    case Registered =>
      RegisteringRegistry(g, s, input);
      hide Registering;
      ThenInvalidated(w, Insert(input.key.value));
    case Banned =>
      assert Registering(g, s, input).0.state == BlockedPair(s.state, input.key.value, input.item);
      hide Registering, BlockEvents;
      BlockEventsBlock(w, input.key.value, input.item);
    case Refused =>
  }

  /** So does an undo: one that fails leaves the registry as it was, one that succeeds removes its key. */
  lemma UndoingIsItsEvents(g: Game, s: Session, actionId: u64, input: UndoInput, w: World)
    requires w.registry == RegistryOf(s.state)
    ensures var es := UndoEvents(g, s, actionId, input);
      CanRun(w, es) && Run(w, es).registry == RegistryOf(Undoing(g, s, actionId, input).0.state)
  {
    UndoingRegistry(g, s, actionId, input);
    var key := if IsLatest(s.state, actionId) then s.state.undoHistory[|s.state.undoHistory| - 1].regKey else 0;
    assert !IsLatest(s.state, actionId) ==> !Undoing(g, s, actionId, input).1;
    hide Undoing;
    if Undoing(g, s, actionId, input).1 {
      ThenInvalidated(w, Remove(key));
    } else {
      assert Run(w, [FailedUndo(key)]) == w;
    }
  }

  /** From a registration's invalidation to the next successful undo of its key, no request begun is served the key. */
  lemma RegisteredStaysOffTheList(before: seq<Event>, g: Game, s: Session, input: RegisterInput, es: seq<Event>, r: nat,
      offset: nat, limit: nat)
    requires CanRun(START, before) && Run(START, before).registry == RegistryOf(s.state)
    requires Registering(g, s, input).1.Registered? && r !in Run(START, before).requests
    requires var w := After(Run(START, before), Insert(input.key.value));
      CanRun(Bumped(w), es) && NoRemoval(es, input.key.value)
    ensures var end := Run(Bumped(After(Run(START, before), Insert(input.key.value))), es);
      r in end.requests && end.requests[r].Served? ==>
        Excludes(PageOf(end.requests[r].list, offset, limit).items, {input.key.value})
  {
    var key := input.key.value;
    RunThen(START, before, [Insert(key)]);
    ReadYourWrites(before + [Insert(key)], key, es, r, offset, limit);
  }

  /** So it is after the whole registration, its invalidation carried out. */
  lemma StaysOffOnceRegistered(before: seq<Event>, g: Game, s: Session, input: RegisterInput, es: seq<Event>, r: nat,
      offset: nat, limit: nat)
    requires CanRun(START, before) && Run(START, before).registry == RegistryOf(s.state)
    requires Registering(g, s, input).1.Registered? && r !in Run(START, before).requests
    requires var events := RegisterEvents(g, s, input);
      CanRun(Run(START, before), events) && CanRun(Run(Run(START, before), events), es)
    requires NoRemoval(es, input.key.value)
    ensures var end := Run(Run(Run(START, before), RegisterEvents(g, s, input)), es);
      r in end.requests && end.requests[r].Served? ==>
        Excludes(PageOf(end.requests[r].list, offset, limit).items, {input.key.value})
  {
    var w, key := Run(START, before), input.key.value;
    var inserted := After(w, Insert(key));
    assert ([Insert(key)] + INVALIDATION)[1..] == INVALIDATION;
    InvalidationExactly(inserted);
    assert Run(w, RegisterEvents(g, s, input)) == After(Bumped(inserted), ClearStorage);
    assert ([ClearStorage] + es)[1..] == es;
    assert forall e | e in [ClearStorage] + es :: e == ClearStorage || e in es;
    RegisteredStaysOffTheList(before, g, s, input, [ClearStorage] + es, r, offset, limit);
  }
}
