// The short-lived cache in front of the quick-register list: one list stamped with the
// generation that was current before its snapshot was taken.
//
// Requests and changes interleave at the atomic steps: reading the generation, looking into the
// cache under its lock, taking the snapshot and building from it, storing under the lock, changing
// the registered map, bumping the generation, and emptying the cache. An undo and the building of
// a list are tasks of the same thread, so an undo that fails, having taken its key out and put it
// back before its task ends, is one step.
module QuickListCache {
  import opened ActorValues
  import opened Progression
  import opened QuickListBuilder
  import opened State

  const TTL_MS: nat := 750

  datatype Cache = Cache(list: seq<ListItem>, generation: nat, mask: nat, builtAtMs: nat)

  const NO_CACHE := Cache([], 0, 0, 0)

  /** Only a list of the same generation and settings, built at most 750 ms ago, is served again. */
  predicate Hits(c: Cache, generation: nat, mask: nat, nowMs: nat) {
    c.generation == generation && c.mask == mask && nowMs >= c.builtAtMs && nowMs - c.builtAtMs <= TTL_MS
  }

  datatype Request =
    | Loaded(generation: nat, mask: nat)
    | Missed(generation: nat, mask: nat)
    | Built(generation: nat, mask: nat, list: seq<ListItem>)
    | Served(generation: nat, list: seq<ListItem>)

  /** `settled` is history: for each generation, the keys registered when it began and not removed since. */
  datatype World = World(
    generation: nat, cache: Cache, registry: Registry,
    requests: map<nat, Request>, settled: map<nat, set<FormId>>)

  const START := World(1, NO_CACHE, Registry({}, {}), map[], map[1 := {}])

  datatype Event =
    | Load(r: nat, mask: nat)
    | LookUp(r: nat, nowMs: nat)
    | Build(r: nat, entries: seq<Entry>, list: seq<ListItem>)
    | Store(r: nat, nowMs: nat)
    | Insert(key: FormId)
    | Remove(key: FormId)
    | FailedUndo(key: FormId)
    | Block(key: FormId)
    | Bump
    | ClearStorage

  ghost predicate Enabled(w: World, e: Event) {
    match e
    case Load(r, _) => r !in w.requests
    case LookUp(r, _) => r in w.requests && w.requests[r].Loaded?
    case Build(r, entries, list) => r in w.requests && w.requests[r].Missed? && IsListFor(list, entries, w.registry)
    case Store(r, _) => r in w.requests && w.requests[r].Built?
    case _ => true
  }

  function WithRequest(w: World, r: nat, q: Request): World { w.(requests := w.requests[r := q]) }

  function LookedUp(w: World, q: Request, nowMs: nat): Request
    requires q.Loaded?
  {
    if Hits(w.cache, q.generation, q.mask, nowMs) then Served(q.generation, w.cache.list)
    else Missed(q.generation, q.mask)
  }

  function Bumped(w: World): World {
    w.(generation := w.generation + 1, settled := w.settled[w.generation + 1 := w.registry.registered])
  }

  function RemovedKey(w: World, key: FormId): World {
    w.(registry := w.registry.(registered := w.registry.registered - {key}),
       settled := map g | g in w.settled :: w.settled[g] - {key})
  }

  ghost function After(w: World, e: Event): World
    requires Enabled(w, e)
  {
    match e
    case Load(r, mask) => WithRequest(w, r, Loaded(w.generation, mask))
    case LookUp(r, nowMs) => WithRequest(w, r, LookedUp(w, w.requests[r], nowMs))
    case Build(r, _, list) => WithRequest(w, r, Built(w.requests[r].generation, w.requests[r].mask, list))
    case Store(r, nowMs) =>
      var q := w.requests[r];
      WithRequest(w, r, Served(q.generation, q.list)).(cache := Cache(q.list, q.generation, q.mask, nowMs))
    case Insert(key) => w.(registry := w.registry.(registered := w.registry.registered + {key}))
    case Remove(key) => RemovedKey(w, key)
    case FailedUndo(key) => w
    case Block(key) => w.(registry := w.registry.(blocked := w.registry.blocked + {key}))
    case Bump => Bumped(w)
    case ClearStorage => w.(cache := NO_CACHE)
  }

  ghost predicate CanRun(w: World, es: seq<Event>)
    decreases |es|
  {
    es == [] || (Enabled(w, es[0]) && CanRun(After(w, es[0]), es[1..]))
  }

  ghost function Run(w: World, es: seq<Event>): World
    requires CanRun(w, es)
    decreases |es|
  {
    if es == [] then w else Run(After(w, es[0]), es[1..])
  }

  // ---- In place ----------------------------------------------------------------------------

  /** The events of a request with nothing in between. */
  ghost function RequestEvents(w: World, r: nat, mask: nat, nowMs: nat, builtAtMs: nat, entries: seq<Entry>,
      list: seq<ListItem>): seq<Event>
  {
    [Load(r, mask), LookUp(r, nowMs)]
    + if Hits(w.cache, w.generation, mask, nowMs) then [] else [Build(r, entries, list), Store(r, builtAtMs)]
  }

  const INVALIDATION: seq<Event> := [Bump, ClearStorage]

  /** The cache, its generation, and the store the lists are built from; what each request holds is kept as history. */
  class QuickList {
    var cache: Cache
    var generation: nat
    var registry: Registry
    ghost var requests: map<nat, Request>
    ghost var settled: map<nat, set<FormId>>

    ghost function Value(): World
      reads this
    {
      World(generation, cache, registry, requests, settled)
    }

    constructor ()
      ensures Value() == START
    {
      cache, generation, registry := NO_CACHE, 1, Registry({}, {});
      requests, settled := map[], map[1 := {}];
    }

    method BumpGeneration()
      modifies this
      ensures Value() == After(old(Value()), Bump)
    {
      generation := generation + 1;
      settled := settled[generation := registry.registered];
    }

    method ClearQuickListCacheStorage()
      modifies this`cache
      ensures Value() == After(old(Value()), ClearStorage)
    {
      cache := NO_CACHE;
    }

    method InvalidateQuickRegisterCache()
      modifies this
      ensures CanRun(old(Value()), INVALIDATION) && Value() == Run(old(Value()), INVALIDATION)
    {
      BumpGeneration();
      ClearQuickListCacheStorage();
      assert Run(After(old(Value()), Bump), [ClearStorage]) == Value();
    }

    method LoadGeneration(ghost r: nat, mask: nat) returns (current: nat)
      requires r !in requests
      modifies this`requests
      ensures Value() == After(old(Value()), Load(r, mask)) && current == generation
    {
      requests := requests[r := Loaded(generation, mask)];
      return generation;
    }

    method TryBuildQuickListFromCache(ghost r: nat, offset: nat, limit: nat, expected: nat, mask: nat, nowMs: nat)
      returns (page: Option<Page>)
      requires r in requests && requests[r] == Loaded(expected, mask)
      modifies this`requests
      ensures Value() == After(old(Value()), LookUp(r, nowMs))
      ensures page == if Hits(cache, expected, mask, nowMs) then Some(PageOf(cache.list, offset, limit)) else None
    {
      requests := requests[r := LookedUp(Value(), requests[r], nowMs)];
      if cache.generation != expected || cache.mask != mask {
        return None;
      }
      if nowMs < cache.builtAtMs || nowMs - cache.builtAtMs > TTL_MS {
        return None;
      }
      return Some(PageOf(cache.list, offset, limit));
    }

    method BuildFromSnapshot(ghost r: nat, entries: seq<Entry>) returns (list: seq<ListItem>)
      requires r in requests && requests[r].Missed?
      modifies this`requests
      ensures Enabled(old(Value()), Build(r, entries, list))
      ensures Value() == After(old(Value()), Build(r, entries, list))
    {
      hide IsListFor;
      list := BuildQuickListEligibleItems(entries, registry);
      requests := requests[r := Built(requests[r].generation, requests[r].mask, list)];
    }

    method UpdateQuickListCache(ghost r: nat, list: seq<ListItem>, stamp: nat, mask: nat, builtAtMs: nat)
      requires r in requests && requests[r] == Built(stamp, mask, list)
      modifies this`cache, this`requests
      ensures Value() == After(old(Value()), Store(r, builtAtMs))
    {
      requests := requests[r := Served(stamp, list)];
      cache := Cache(list, stamp, mask, builtAtMs);
    }

    /** A request with nothing in between: from the cache, or from a fresh list that then becomes the cache. */
    method BuildQuickRegisterList(ghost r: nat, playerAvailable: bool, offset: nat, limit: nat, mask: nat,
        entries: seq<Entry>, nowMs: nat, builtAtMs: nat)
      returns (page: Page, ghost list: seq<ListItem>)
      requires r !in requests
      modifies this`cache, this`requests
      ensures !playerAvailable ==> page == Page(false, 0, []) && Value() == old(Value())
      ensures playerAvailable ==>
        var es := RequestEvents(old(Value()), r, mask, nowMs, builtAtMs, entries, list);
        && CanRun(old(Value()), es) && Value() == Run(old(Value()), es)
        && r in requests && requests[r] == Served(generation, list) && page == PageOf(list, offset, limit)
    {
      hide IsListFor, PageOf;
      if !playerAvailable {
        return Page(false, 0, []), [];
      }
      ghost var w := Value();
      var current := LoadGeneration(r, mask);
      ghost var w1 := Value();
      var cached := TryBuildQuickListFromCache(r, offset, limit, current, mask, nowMs);
      ghost var w2 := Value();
      if cached.Some? {
        list := cache.list;
        RunTwo(w, Load(r, mask), LookUp(r, nowMs));
        assert RequestEvents(w, r, mask, nowMs, builtAtMs, entries, list) == [Load(r, mask), LookUp(r, nowMs)];
        return cached.value, list;
      }
      var eligible := BuildFromSnapshot(r, entries);
      page := PageOf(eligible, offset, limit);
      UpdateQuickListCache(r, eligible, current, mask, builtAtMs);
      list := eligible;
      RunTwo(w2, Build(r, entries, list), Store(r, builtAtMs));
      RunTwo(w, Load(r, mask), LookUp(r, nowMs));
      RunThen(w, [Load(r, mask), LookUp(r, nowMs)], [Build(r, entries, list), Store(r, builtAtMs)]);
    }
  }

  lemma RunTwo(w: World, e: Event, e': Event)
    requires Enabled(w, e) && Enabled(After(w, e), e')
    ensures CanRun(w, [e, e']) && Run(w, [e, e']) == After(After(w, e), e')
  {
    hide Enabled, After;
    var w1, w2 := After(w, e), After(After(w, e), e');
    assert CanRun(w2, []) && Run(w2, []) == w2;
    assert [e'][0] == e' && [e'][1..] == [];
    assert CanRun(w1, [e']) && Run(w1, [e']) == w2;
    assert [e, e'][0] == e && [e, e'][1..] == [e'];
  }

  lemma {:induction false} RunThen(w: World, es: seq<Event>, more: seq<Event>)
    requires CanRun(w, es) && CanRun(Run(w, es), more)
    ensures CanRun(w, es + more) && Run(w, es + more) == Run(Run(w, es), more)
    decreases |es|
  {
    hide Enabled, After;
    if es == [] {
      assert es + more == more;
    } else {
      assert (es + more)[0] == es[0] && (es + more)[1..] == es[1..] + more;
      RunThen(After(w, es[0]), es[1..], more);
    }
  }

  // ---- The invariant -----------------------------------------------------------------------

  predicate Excludes(list: seq<ListItem>, keys: set<FormId>) {
    forall x | x in list :: x.regKey !in keys && x.formId !in keys
  }

  predicate RequestSound(w: World, q: Request) {
    && q.generation in w.settled
    && (q.Built? || q.Served? ==> Excludes(q.list, w.settled[q.generation]))
  }

  /** Every list, in the cache or in hand, leaves out what was settled when its generation began. */
  ghost predicate Sound(w: World) {
    && w.generation >= 1 && w.generation in w.settled && 0 !in w.settled
    && (forall g | g in w.settled :: g <= w.generation && w.settled[g] <= w.registry.registered)
    && (w.cache.generation in w.settled ==> Excludes(w.cache.list, w.settled[w.cache.generation]))
    && (w.cache.generation == 0 || w.cache.generation in w.settled)
    && (forall r | r in w.requests :: RequestSound(w, w.requests[r]))
  }

  lemma FreshListExcludes(list: seq<ListItem>, entries: seq<Entry>, reg: Registry, keys: set<FormId>)
    requires IsListFor(list, entries, reg) && keys <= reg.registered
    ensures Excludes(list, keys)
  {
    ListedKeys(list, entries, reg);
    hide IsListFor;
  }

  lemma RequestStepKeepsSound(w: World, e: Event)
    requires Sound(w) && Enabled(w, e) && (e.Load? || e.LookUp? || e.Build? || e.Store?)
    ensures Sound(After(w, e))
  {
    hide IsListFor, Excludes;
    match e
    case Load(r, mask) =>
    case LookUp(r, nowMs) =>
      assert RequestSound(w, w.requests[r]);
    case Build(r, entries, list) =>
      assert RequestSound(w, w.requests[r]);
      FreshListExcludes(list, entries, w.registry, w.settled[w.requests[r].generation]);
    case Store(r, nowMs) =>
      assert RequestSound(w, w.requests[r]);
  }

  lemma FewerKeys(list: seq<ListItem>, keys: set<FormId>, fewer: set<FormId>)
    requires Excludes(list, keys) && fewer <= keys
    ensures Excludes(list, fewer)
  {
  }

  lemma RemoveKeepsSound(w: World, key: FormId)
    requires Sound(w)
    ensures Sound(RemovedKey(w, key))
  {
    hide Excludes;
    var w' := RemovedKey(w, key);
    forall r | r in w'.requests ensures RequestSound(w', w'.requests[r]) {
      var q := w.requests[r];
      assert RequestSound(w, q);
      if q.Built? || q.Served? {
        FewerKeys(q.list, w.settled[q.generation], w'.settled[q.generation]);
      }
    }
    if w.cache.generation in w.settled {
      FewerKeys(w.cache.list, w.settled[w.cache.generation], w'.settled[w.cache.generation]);
    }
  }

  lemma BumpKeepsSound(w: World)
    requires Sound(w)
    ensures Sound(Bumped(w))
  {
    hide Excludes;
    assert w.generation + 1 !in w.settled;
    forall r | r in w.requests ensures RequestSound(Bumped(w), w.requests[r]) {
      assert RequestSound(w, w.requests[r]);
    }
  }

  lemma StepKeepsSound(w: World, e: Event)
    requires Sound(w) && Enabled(w, e)
    ensures Sound(After(w, e))
  {
    hide Excludes, IsListFor;
    match e
    case Remove(key) => RemoveKeepsSound(w, key);
    case Bump => BumpKeepsSound(w);
    case Insert(_) => assert forall r | r in w.requests :: RequestSound(w, w.requests[r]);
    case FailedUndo(_) =>
    case Block(_) => assert forall r | r in w.requests :: RequestSound(w, w.requests[r]);
    case ClearStorage => assert forall r | r in w.requests :: RequestSound(w, w.requests[r]);
    case _ => RequestStepKeepsSound(w, e);
  }

  lemma {:induction false} RunsStaySound(w: World, es: seq<Event>)
    requires Sound(w) && CanRun(w, es)
    ensures Sound(Run(w, es))
    decreases |es|
  {
    hide Sound, Enabled, After;
    if es != [] {
      StepKeepsSound(w, es[0]);
      RunsStaySound(After(w, es[0]), es[1..]);
    }
  }

  lemma StartIsSound()
    ensures Sound(START)
  {
  }

  // ---- Read your writes --------------------------------------------------------------------

  /** The key has been settled in every generation from `since` on. */
  ghost predicate SettledSince(w: World, key: FormId, since: nat) {
    && key in w.registry.registered && since <= w.generation
    && forall g | since <= g <= w.generation :: g in w.settled && key in w.settled[g]
  }

  ghost predicate BegunSince(w: World, r: nat, since: nat) { r in w.requests ==> w.requests[r].generation >= since }

  predicate NoRemoval(es: seq<Event>, key: FormId) { forall e | e in es :: e != Remove(key) }

  lemma StepKeepsSettled(w: World, e: Event, key: FormId, r: nat, since: nat)
    requires Enabled(w, e) && e != Remove(key) && SettledSince(w, key, since) && BegunSince(w, r, since)
    ensures SettledSince(After(w, e), key, since) && BegunSince(After(w, e), r, since)
  {
    hide IsListFor;
  }

  lemma {:induction false} RunKeepsSettled(w: World, es: seq<Event>, key: FormId, r: nat, since: nat)
    requires CanRun(w, es) && NoRemoval(es, key) && SettledSince(w, key, since) && BegunSince(w, r, since)
    ensures SettledSince(Run(w, es), key, since) && BegunSince(Run(w, es), r, since)
    decreases |es|
  {
    hide Enabled, After, SettledSince, BegunSince;
    if es != [] {
      assert es[0] in es && forall e | e in es[1..] :: e in es;
      StepKeepsSettled(w, es[0], key, r, since);
      RunKeepsSettled(After(w, es[0]), es[1..], key, r, since);
    }
  }

  /**
   * Once a registered key's invalidation has bumped the generation, no request begun after that is
   * served a page with the key on it, cached or built anew, until an undo of the key succeeds.
   */
  lemma ReadYourWrites(before: seq<Event>, key: FormId, es: seq<Event>, r: nat, offset: nat, limit: nat)
    requires CanRun(START, before)
    requires var w := Run(START, before);
      key in w.registry.registered && r !in w.requests && CanRun(Bumped(w), es)
    requires NoRemoval(es, key)
    ensures var end := Run(Bumped(Run(START, before)), es);
      r in end.requests && end.requests[r].Served? ==>
        Excludes(PageOf(end.requests[r].list, offset, limit).items, {key})
  {
    StartIsSound();
    RunsStaySound(START, before);
    var w := Run(START, before);
    BumpKeepsSound(w);
    RunsStaySound(Bumped(w), es);
    assert SettledSince(Bumped(w), key, w.generation + 1);
    RunKeepsSettled(Bumped(w), es, key, r, w.generation + 1);
    hide Run, CanRun;
    ServedExcludes(Run(Bumped(w), es), key, r, w.generation + 1, offset, limit);
  }

  lemma ServedExcludes(w: World, key: FormId, r: nat, since: nat, offset: nat, limit: nat)
    requires Sound(w) && SettledSince(w, key, since) && BegunSince(w, r, since)
    ensures r in w.requests && w.requests[r].Served? ==>
      Excludes(PageOf(w.requests[r].list, offset, limit).items, {key})
  {
    if r in w.requests && w.requests[r].Served? {
      assert RequestSound(w, w.requests[r]);
    }
  }

  // ---- When the cache answers ----------------------------------------------------------------

  /** A look into the cache is answered exactly with a list of this generation and mask that is not over 750 ms old. */
  lemma AnswersExactlyWhen(w: World, r: nat, nowMs: nat)
    requires Enabled(w, LookUp(r, nowMs))
    ensures var q, q' := w.requests[r], After(w, LookUp(r, nowMs)).requests[r];
      var recent := w.cache.generation == q.generation && w.cache.mask == q.mask
        && w.cache.builtAtMs <= nowMs <= w.cache.builtAtMs + 750;
      q' == if recent then Served(q.generation, w.cache.list) else Missed(q.generation, q.mask)
  {
  }

  /** A list just stored answers the next request of its mask, unless the cache is invalidated or 750 ms go by. */
  lemma StoredListIsServedAgain(w: World, r: nat, r': nat, builtAtMs: nat, nowMs: nat)
    requires Enabled(w, Store(r, builtAtMs)) && r' !in w.requests && w.requests[r].generation == w.generation
    requires builtAtMs <= nowMs <= builtAtMs + 750
    ensures var es := [Store(r, builtAtMs), Load(r', w.requests[r].mask), LookUp(r', nowMs)];
      && CanRun(w, es) && r' in Run(w, es).requests
      && Run(w, es).requests[r'] == Served(w.generation, w.requests[r].list)
  {
    var store, load, look := Store(r, builtAtMs), Load(r', w.requests[r].mask), LookUp(r', nowMs);
    RunTwo(After(w, store), load, look);
    assert [store, load, look][1..] == [load, look];
  }

  lemma InvalidatedWorld(w: World)
    ensures Enabled(w, Bump) && Enabled(After(w, Bump), ClearStorage)
    ensures After(After(w, Bump), ClearStorage)
      == World(w.generation + 1, Cache([], 0, 0, 0), w.registry, w.requests,
               w.settled[w.generation + 1 := w.registry.registered])
  {
    hide Run, CanRun, IsListFor;
  }

  /** An invalidation begins a new generation and leaves an empty cache, and nothing else. */
  lemma InvalidationExactly(w: World)
    ensures CanRun(w, INVALIDATION)
    ensures Run(w, INVALIDATION)
      == World(w.generation + 1, Cache([], 0, 0, 0), w.registry, w.requests,
               w.settled[w.generation + 1 := w.registry.registered])
  {
    assert INVALIDATION == [Bump, ClearStorage];
    hide *;
    InvalidatedWorld(w);
    RunTwo(w, Bump, ClearStorage);
  }
}
