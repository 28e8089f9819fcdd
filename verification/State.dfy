// The runtime state every subsystem shares, as a value and as the object updated in place.
//
// `F` is the type of stored amounts: real numbers for the rules, raw float bits for the save file.
module State {
  import opened ActorValues
  import opened Catalog

  type FormId = u32

  datatype Contribution = Contribution(discipline: Discipline, recordDelta: i32, pointsDelta: i32)

  datatype RewardDelta<F> = RewardDelta(av: ActorValue, delta: F)

  datatype UndoRecord<F> = UndoRecord(
    actionId: u64, formId: FormId, regKey: FormId, group: u32,
    contribution: Option<Contribution>, rewardDeltas: seq<RewardDelta<F>>)

  datatype Notice = Notice(needsNotice: bool, legacyRewardsMigrated: bool, unresolved: u32)

  const NO_NOTICE := Notice(false, false, 0)

  /** One byte; values outside the enumeration can come out of a damaged save. */
  datatype MigrationState = NotStarted | PendingCleanup | Complete | UndefinedState(raw: byte)

  datatype Snapshot<F> = Snapshot(
    registered: map<FormId, u32>,
    blocked: set<FormId>,
    notified: set<FormId>,
    rewardTotals: map<ActorValue, F>,
    buildApplied: map<ActorValue, F>,
    scores: PerDiscipline,
    points: PerDiscipline,
    slots: Slots,
    migrationVersion: u32,
    migrationState: MigrationState,
    notice: Notice,
    undoHistory: seq<UndoRecord<F>>,
    nextActionId: u64)

  function Cleared<F>(): Snapshot<F> {
    Snapshot(map[], {}, {}, map[], map[], NO_POINTS, NO_POINTS, NO_SLOTS, 0, NotStarted, NO_NOTICE, [], 1)
  }

  class RuntimeState<F> {
    var registered: map<FormId, u32>
    var blocked: set<FormId>
    var notified: set<FormId>
    var rewardTotals: map<ActorValue, F>
    var buildApplied: map<ActorValue, F>
    var scores: PerDiscipline
    var points: PerDiscipline
    var slots: Slots
    var migrationVersion: u32
    var migrationState: MigrationState
    var notice: Notice
    var undoHistory: seq<UndoRecord<F>>
    var nextActionId: u64

    /** SnapshotState: a copy of every field. */
    function Value(): Snapshot<F>
      reads this
    {
      Snapshot(registered, blocked, notified, rewardTotals, buildApplied, scores, points, slots,
               migrationVersion, migrationState, notice, undoHistory, nextActionId)
    }

    constructor ()
      ensures Value() == Cleared()
    {
      new;
      Clear();
    }

    method Clear()
      modifies this
      ensures Value() == Cleared()
    {
      Replace(Cleared());
    }

    method Replace(snapshot: Snapshot<F>)
      modifies this
      ensures Value() == snapshot
    {
      ReplaceCollections(snapshot);
      ReplaceProgress(snapshot);
    }

    method ReplaceCollections(snapshot: Snapshot<F>)
      modifies `registered, `blocked, `notified, `rewardTotals, `buildApplied, `undoHistory, `nextActionId
      ensures registered == snapshot.registered && blocked == snapshot.blocked && notified == snapshot.notified
      ensures rewardTotals == snapshot.rewardTotals && buildApplied == snapshot.buildApplied
      ensures undoHistory == snapshot.undoHistory && nextActionId == snapshot.nextActionId
    {
      registered, blocked, notified := snapshot.registered, snapshot.blocked, snapshot.notified;
      rewardTotals, buildApplied := snapshot.rewardTotals, snapshot.buildApplied;
      undoHistory, nextActionId := snapshot.undoHistory, snapshot.nextActionId;
    }

    method ReplaceProgress(snapshot: Snapshot<F>)
      modifies `scores, `points, `slots, `migrationVersion, `migrationState, `notice
      ensures scores == snapshot.scores && points == snapshot.points && slots == snapshot.slots
      ensures migrationVersion == snapshot.migrationVersion && migrationState == snapshot.migrationState
      ensures notice == snapshot.notice
    {
      scores, points, slots := snapshot.scores, snapshot.points, snapshot.slots;
      migrationVersion, migrationState, notice := snapshot.migrationVersion, snapshot.migrationState, snapshot.notice;
    }
  }
}
