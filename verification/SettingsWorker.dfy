// The settings mailbox: a one-place pending slot, a running flag, and a worker thread that is
// started anew whenever a producer finds none running. Threads interleave at the atomic steps:
// storing into the mailbox, the compare-exchange on the flag, joining and starting a thread, and
// taking the pending job or giving up under the mailbox lock.
//
// A job is named by its place in the order in which jobs were stored. Shutdown is not modelled.
module SettingsWorker {
  import opened ActorValues
  import opened SeqSums

  datatype Producer = AtPut | AtCas | AtSpawn | Returned

  datatype Worker = Taking | Persisting(job: nat) | Exited

  datatype Threads = Threads(
    pending: Option<nat>, running: bool, producers: seq<Producer>, workers: seq<Worker>,
    queued: nat, attempted: seq<nat>)

  const IDLE := Threads(None, false, [], [], 0, [])

  datatype Event = Arrive | Put(p: nat) | CompareExchange(p: nat) | Spawn(p: nat) | Take(w: nat) | Persist(w: nat)

  function AfterPut(s: Threads, p: nat): Threads
    requires p < |s.producers|
  {
    s.(pending := Some(s.queued), queued := s.queued + 1, producers := s.producers[p := AtCas])
  }

  function AfterCompareExchange(s: Threads, p: nat): Threads
    requires p < |s.producers|
  {
    if s.running then s.(producers := s.producers[p := Returned])
    else s.(running := true, producers := s.producers[p := AtSpawn])
  }

  function AfterSpawn(s: Threads, p: nat): Threads
    requires p < |s.producers|
  {
    s.(producers := s.producers[p := Returned], workers := s.workers + [Taking])
  }

  function AfterTake(s: Threads, w: nat): Threads
    requires w < |s.workers|
  {
    match s.pending
    case None => s.(running := false, workers := s.workers[w := Exited])
    case Some(job) => s.(pending := None, workers := s.workers[w := Persisting(job)])
  }

  function AfterPersist(s: Threads, w: nat): Threads
    requires w < |s.workers| && s.workers[w].Persisting?
  {
    s.(attempted := s.attempted + [s.workers[w].job], workers := s.workers[w := Taking])
  }

  /** A producer that has won the flag still waits for the previous thread to return. */
  predicate JoinReturns(s: Threads) { forall w: Worker | w in s.workers :: w.Exited? }

  predicate Enabled(s: Threads, e: Event) {
    match e
    case Arrive => true
    case Put(p) => p < |s.producers| && s.producers[p].AtPut?
    case CompareExchange(p) => p < |s.producers| && s.producers[p].AtCas?
    case Spawn(p) => p < |s.producers| && s.producers[p].AtSpawn? && JoinReturns(s)
    case Take(w) => w < |s.workers| && s.workers[w].Taking?
    case Persist(w) => w < |s.workers| && s.workers[w].Persisting?
  }

  function After(s: Threads, e: Event): Threads
    requires Enabled(s, e)
  {
    match e
    case Arrive => s.(producers := s.producers + [AtPut])
    case Put(p) => AfterPut(s, p)
    case CompareExchange(p) => AfterCompareExchange(s, p)
    case Spawn(p) => AfterSpawn(s, p)
    case Take(w) => AfterTake(s, w)
    case Persist(w) => AfterPersist(s, w)
  }

  /** A run is any interleaving: each event is enabled when its turn comes. */
  predicate CanRun(s: Threads, es: seq<Event>)
    decreases |es|
  {
    es == [] || (Enabled(s, es[0]) && CanRun(After(s, es[0]), es[1..]))
  }

  function Run(s: Threads, es: seq<Event>): Threads
    requires CanRun(s, es)
    decreases |es|
  {
    if es == [] then s else Run(After(s, es[0]), es[1..])
  }

  // ---- The same steps, in place ------------------------------------------------------------

  class Mailbox {
    var pending: Option<nat>
    var running: bool
    var producers: seq<Producer>
    var workers: seq<Worker>
    ghost var queued: nat
    ghost var attempted: seq<nat>

    ghost function Value(): Threads
      reads this
    {
      Threads(pending, running, producers, workers, queued, attempted)
    }

    constructor ()
      ensures Value() == IDLE
    {
      pending, running, producers, workers, queued, attempted := None, false, [], [], 0, [];
    }

    /** Storing a job replaces one that no worker has taken yet. */
    method PutJob(p: nat, job: nat)
      requires Enabled(Value(), Put(p)) && job == queued
      modifies this
      ensures Value() == AfterPut(old(Value()), p)
    {
      pending := Some(job);
      queued := queued + 1;
      producers := producers[p := AtCas];
    }

    method TryBecomeStarter(p: nat)
      requires Enabled(Value(), CompareExchange(p))
      modifies this
      ensures Value() == AfterCompareExchange(old(Value()), p)
    {
      if running {
        producers := producers[p := Returned];
      } else {
        running := true;
        producers := producers[p := AtSpawn];
      }
    }

    method StartWorker(p: nat)
      requires Enabled(Value(), Spawn(p))
      modifies this
      ensures Value() == AfterSpawn(old(Value()), p)
    {
      producers := producers[p := Returned];
      workers := workers + [Taking];
    }

    method TryTakePendingSettingsSave(w: nat)
      requires Enabled(Value(), Take(w))
      modifies this
      ensures Value() == AfterTake(old(Value()), w)
    {
      match pending
      case None =>
        running := false;
        workers := workers[w := Exited];
      case Some(job) =>
        pending := None;
        workers := workers[w := Persisting(job)];
    }

    method PersistTaken(w: nat)
      requires Enabled(Value(), Persist(w))
      modifies this
      ensures Value() == AfterPersist(old(Value()), w)
    {
      attempted := attempted + [workers[w].job];
      workers := workers[w := Taking];
    }
  }

  // ---- Counting threads --------------------------------------------------------------------

  function IsActive(w: Worker): nat { if w.Exited? then 0 else 1 }

  function IsSpawning(p: Producer): nat { if p.AtSpawn? then 1 else 0 }

  // ---- The invariant -----------------------------------------------------------------------

  /** At most one thread runs the save loop, counting one that is about to be started. */
  predicate OneWorker(s: Threads) {
    Sum(s.workers, IsActive) + Sum(s.producers, IsSpawning) == if s.running then 1 else 0
  }

  /** A waiting job always has someone who will see to it. */
  predicate NotStranded(s: Threads) {
    s.pending.Some? ==> s.running || AtCas in s.producers
  }

  function Held(w: Worker): seq<nat> { if w.Persisting? then [w.job] else [] }

  /** The job being persisted, if any. */
  function InHand(workers: seq<Worker>): seq<nat> {
    if workers == [] then [] else Held(workers[0]) + InHand(workers[1..])
  }

  /** Jobs in the order in which they are attempted: done, in hand, waiting. */
  function Chain(s: Threads): seq<nat> {
    s.attempted + InHand(s.workers) + (if s.pending.Some? then [s.pending.value] else [])
  }

  predicate Increasing(s: seq<nat>) { forall i, j | 0 <= i < j < |s| :: s[i] < s[j] }

  /** Jobs are attempted in queue order, and the newest one is always among those done, in hand or waiting. */
  predicate InOrder(s: Threads) {
    && Increasing(Chain(s))
    && (forall j | j in Chain(s) :: j < s.queued)
    && (s.queued > 0 ==> Chain(s) != [] && Chain(s)[|Chain(s)| - 1] == s.queued - 1)
  }

  predicate Sound(s: Threads) { OneWorker(s) && NotStranded(s) && InOrder(s) }

  lemma {:induction false} NothingInHand(workers: seq<Worker>)
    requires Sum(workers, IsActive) == 0
    ensures InHand(workers) == [] && forall w | w in workers :: w.Exited?
  {
    if workers != [] {
      NothingInHand(workers[1..]);
    }
  }

  /** With one active worker, what is in hand is what that worker holds. */
  lemma {:induction false} OneInHand(workers: seq<Worker>, i: nat)
    requires i < |workers| && Sum(workers, IsActive) == 1 && !workers[i].Exited?
    ensures InHand(workers) == Held(workers[i])
  {
    if i == 0 {
      NothingInHand(workers[1..]);
    } else {
      SumAtLeast(workers[1..], i - 1, IsActive);
      OneInHand(workers[1..], i - 1);
    }
  }

  lemma {:induction false} InHandOfAppend(workers: seq<Worker>, w: Worker)
    ensures InHand(workers + [w]) == InHand(workers) + Held(w)
  {
    hide Held;
    if workers == [] {
      assert [w][1..] == [];
    } else {
      var all := workers + [w];
      assert all[0] == workers[0] && all[1..] == workers[1..] + [w];
      InHandOfAppend(workers[1..], w);
      assert InHand(all) == Held(workers[0]) + (InHand(workers[1..]) + Held(w));
    }
  }

  lemma ActiveWorkerIsTheOne(s: Threads, w: nat)
    requires OneWorker(s) && w < |s.workers| && !s.workers[w].Exited?
    ensures s.running && Sum(s.workers, IsActive) == 1 && Sum(s.producers, IsSpawning) == 0
    ensures InHand(s.workers) == Held(s.workers[w])
  {
    SumAtLeast(s.workers, w, IsActive);
    OneInHand(s.workers, w);
  }

  lemma ProducerStepKeepsSound(s: Threads, e: Event)
    requires Sound(s) && Enabled(s, e) && (e.Put? || e.CompareExchange? || e.Arrive?)
    ensures Sound(After(s, e))
  {
    match e
    case Arrive =>
      SumOfAppend(s.producers, AtPut, IsSpawning);
      assert AtCas in s.producers ==> AtCas in After(s, e).producers;
    case Put(p) =>
      SumOfUpdate(s.producers, p, AtCas, IsSpawning);
      assert After(s, e).producers[p] == AtCas;
      PutKeepsOrder(s, p);
    case CompareExchange(p) =>
      SumOfUpdate(s.producers, p, After(s, e).producers[p], IsSpawning);
      assert Chain(After(s, e)) == Chain(s);
  }

  /** The newest job takes the last place in the chain, in front of none and behind all. */
  lemma PutKeepsOrder(s: Threads, p: nat)
    requires InOrder(s) && p < |s.producers|
    ensures InOrder(AfterPut(s, p))
  {
    var before := s.attempted + InHand(s.workers);
    assert Chain(AfterPut(s, p)) == before + [s.queued];
    forall i | 0 <= i < |before| ensures Chain(s)[i] == before[i] && before[i] < s.queued {
      assert Chain(s)[i] in Chain(s);
    }
    hide Chain;
  }

  lemma SpawnKeepsSound(s: Threads, p: nat)
    requires Sound(s) && Enabled(s, Spawn(p))
    ensures Sound(After(s, Spawn(p)))
  {
    SumAtLeast(s.producers, p, IsSpawning);
    SumOfUpdate(s.producers, p, Returned, IsSpawning);
    SumOfAppend(s.workers, Taking, IsActive);
    InHandOfAppend(s.workers, Taking);
    assert Chain(After(s, Spawn(p))) == Chain(s);
  }

  lemma TakeKeepsSound(s: Threads, w: nat)
    requires Sound(s) && Enabled(s, Take(w))
    ensures Sound(After(s, Take(w)))
  {
    var s' := After(s, Take(w));
    ActiveWorkerIsTheOne(s, w);
    SumOfUpdate(s.workers, w, s'.workers[w], IsActive);
    if s.pending.None? {
      NothingInHand(s'.workers);
    } else {
      OneInHand(s'.workers, w);
    }
    assert Chain(s') == Chain(s);
  }

  lemma PersistKeepsSound(s: Threads, w: nat)
    requires Sound(s) && Enabled(s, Persist(w))
    ensures Sound(After(s, Persist(w)))
  {
    var s' := After(s, Persist(w));
    ActiveWorkerIsTheOne(s, w);
    SumOfUpdate(s.workers, w, Taking, IsActive);
    OneInHand(s'.workers, w);
    assert Chain(s') == Chain(s);
  }

  /** In every interleaving no job is stranded, one worker runs at most, and jobs keep their order. */
  lemma {:induction false} RunsStaySound(s: Threads, es: seq<Event>)
    requires Sound(s) && CanRun(s, es)
    ensures var end := Run(s, es);
      && Sound(end)
      && (end.pending.Some? ==> end.running || AtCas in end.producers)
      && (Sum(end.workers, IsActive) + Sum(end.producers, IsSpawning) == if end.running then 1 else 0)
    decreases |es|
  {
    if es == [] {
      hide InOrder;
    } else {
      hide Enabled, After, InOrder;
      StepKeepsSound(s, es[0]);
      RunsStaySound(After(s, es[0]), es[1..]);
    }
  }

  lemma StepKeepsSound(s: Threads, e: Event)
    requires Sound(s) && Enabled(s, e)
    ensures Sound(After(s, e))
  {
    hide Sound, After, OneWorker, NotStranded, InOrder;
    match e
    case Arrive => ProducerStepKeepsSound(s, e);
    case Put(_) => ProducerStepKeepsSound(s, e);
    case CompareExchange(_) => ProducerStepKeepsSound(s, e);
    case Spawn(p) => SpawnKeepsSound(s, p);
    case Take(w) => TakeKeepsSound(s, w);
    case Persist(w) => PersistKeepsSound(s, w);
  }

  // ---- No lost save ------------------------------------------------------------------------

  predicate Quiescent(s: Threads) {
    && (forall p | p in s.producers :: p.Returned?)
    && (forall w | w in s.workers :: w.Exited?)
  }

  lemma QuiescentAndSound(s: Threads)
    requires Sound(s) && Quiescent(s)
    ensures s.pending == None && !s.running && Chain(s) == s.attempted
  {
    NoneCounted(s.workers, IsActive);
    NoneCounted(s.producers, IsSpawning);
    NothingInHand(s.workers);
    hide Sum, InHand, Increasing;
  }

  /** Once every thread has returned, the mailbox is empty and the last job stored was the last one attempted. */
  lemma QuiescenceLosesNothing(es: seq<Event>)
    requires CanRun(IDLE, es) && Quiescent(Run(IDLE, es))
    ensures var s := Run(IDLE, es);
      && s.pending == None && !s.running && Increasing(s.attempted)
      && (s.queued > 0 ==> s.attempted != [] && s.attempted[|s.attempted| - 1] == s.queued - 1)
  {
    RunsStaySound(IDLE, es);
    hide Run, CanRun, Quiescent, Increasing, OneWorker, NotStranded;
    QuiescentAndSound(Run(IDLE, es));
    hide Chain;
  }

  lemma AtMostOneActive(s: Threads, i: nat, j: nat)
    requires OneWorker(s) && i < j < |s.workers|
    ensures s.workers[i].Exited? || s.workers[j].Exited?
  {
    SumOfTwo(s.workers, i, j, IsActive);
    hide Sum;
  }

  lemma AttemptsAreInOrder(s: Threads)
    requires InOrder(s)
    ensures Increasing(s.attempted) && forall j | j in s.attempted :: j < s.queued
  {
    assert forall i | 0 <= i < |s.attempted| :: Chain(s)[i] == s.attempted[i] && Chain(s)[i] in Chain(s);
  }

  /** Attempts are an increasing list of stored jobs, and never do two threads run the save loop. */
  lemma AttemptsFollowTheQueue(es: seq<Event>)
    requires CanRun(IDLE, es)
    ensures var s := Run(IDLE, es);
      && Increasing(s.attempted) && (forall j | j in s.attempted :: j < s.queued)
      && (forall i, j | 0 <= i < j < |s.workers| :: s.workers[i].Exited? || s.workers[j].Exited?)
  {
    RunsStaySound(IDLE, es);
    hide Run, CanRun, OneWorker, InOrder, NotStranded;
    var s := Run(IDLE, es);
    AttemptsAreInOrder(s);
    forall i, j | 0 <= i < j < |s.workers| ensures s.workers[i].Exited? || s.workers[j].Exited? {
      AtMostOneActive(s, i, j);
    }
  }

  // ---- Every run winds down ----------------------------------------------------------------

  function ProducerWork(p: Producer): nat {
    match p
    case AtPut => 6
    case AtCas => 3
    case AtSpawn => 2
    case Returned => 0
  }

  function WorkerWork(w: Worker): nat {
    match w
    case Taking => 1
    case Persisting(_) => 2
    case Exited => 0
  }

  /** An upper bound on the steps left before all threads have returned. */
  function Work(s: Threads): nat {
    Sum(s.producers, ProducerWork) + Sum(s.workers, WorkerWork) + if s.pending.Some? then 2 else 0
  }

  lemma StepReducesWork(s: Threads, e: Event)
    requires Enabled(s, e) && !e.Arrive?
    ensures Work(After(s, e)) < Work(s)
  {
    match e
    case Put(p) => SumOfUpdate(s.producers, p, AtCas, ProducerWork);
    case CompareExchange(p) => SumOfUpdate(s.producers, p, After(s, e).producers[p], ProducerWork);
    case Spawn(p) =>
      SumOfUpdate(s.producers, p, Returned, ProducerWork);
      SumOfAppend(s.workers, Taking, WorkerWork);
    case Take(w) => SumOfUpdate(s.workers, w, After(s, e).workers[w], WorkerWork);
    case Persist(w) => SumOfUpdate(s.workers, w, Taking, WorkerWork);
  }

  predicate NoArrivals(es: seq<Event>) { forall e | e in es :: !e.Arrive? }

  /** Without new requests, no schedule is longer than the work left. */
  lemma {:induction false} RunsAreFinite(s: Threads, es: seq<Event>)
    requires CanRun(s, es) && NoArrivals(es)
    ensures |es| + Work(Run(s, es)) <= Work(s)
    decreases |es|
  {
    hide Work, Enabled, After;
    if es != [] {
      StepReducesWork(s, es[0]);
      RunsAreFinite(After(s, es[0]), es[1..]);
    }
  }

  lemma UnfinishedProducerMoves(s: Threads, i: nat)
    requires OneWorker(s) && i < |s.producers| && !s.producers[i].Returned?
    ensures exists e: Event :: !e.Arrive? && Enabled(s, e)
  {
    match s.producers[i]
    case AtPut => assert Enabled(s, Put(i));
    case AtCas => assert Enabled(s, CompareExchange(i));
    case AtSpawn =>
      SumAtLeast(s.producers, i, IsSpawning);
      NothingInHand(s.workers);
      assert Enabled(s, Spawn(i));
  }

  lemma UnfinishedThreadMoves(s: Threads)
    requires OneWorker(s) && !Quiescent(s)
    ensures exists e: Event :: !e.Arrive? && Enabled(s, e)
  {
    hide OneWorker;
    if i :| 0 <= i < |s.producers| && !s.producers[i].Returned? {
      UnfinishedProducerMoves(s, i);
    } else {
      var i :| 0 <= i < |s.workers| && !s.workers[i].Exited?;
      assert if s.workers[i].Taking? then Enabled(s, Take(i)) else Enabled(s, Persist(i));
    }
  }

  /**
   * Nothing blocks: a producer that has won the flag finds the previous thread finished, so only
   * quiescence stops a run.
   */
  lemma NothingBlocks(es: seq<Event>)
    requires CanRun(IDLE, es) && !Quiescent(Run(IDLE, es))
    ensures exists e: Event :: !e.Arrive? && Enabled(Run(IDLE, es), e)
  {
    RunsStaySound(IDLE, es);
    hide Run, CanRun, OneWorker, InOrder, NotStranded, Enabled, Quiescent;
    UnfinishedThreadMoves(Run(IDLE, es));
  }
}
