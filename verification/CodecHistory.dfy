// The undo record, said from the outside: for any bytes, any version and any resolution of form ids,
// which of the stored entries a load keeps and what it makes of each.
module CodecHistory {
  import opened ActorValues
  import opened Bytes
  import opened Catalog
  import opened CodecFormat
  import Registration
  import opened State

  // ---- Where the entries are ---------------------------------------------------------------

  /** Id, two forms and a group; from version 3 a contribution, from version 4 with its points; the number of deltas. */
  function HeaderBytes(version: u32): nat { if version >= 4 then 40 else if version == 3 then 36 else 24 }

  /** As many reward deltas as the entry announces, or as the record has room for. */
  function StoredDeltas(d: Bytes, p: nat, version: u32): nat
    requires p + HeaderBytes(version) <= |d|
  {
    var announced := U32At(d, p + HeaderBytes(version) - 4);
    var room := (|d| - p - HeaderBytes(version)) / 8;
    if announced < room then announced else room
  }

  /** Both forms of the entry at `p` still exist. */
  predicate BothResolve(d: Bytes, p: nat, resolve: Resolve)
    requires p + 16 <= |d|
  {
    resolve(U32At(d, p + 8)).Some? && resolve(U32At(d, p + 12)).Some?
  }

  /**
   * Where the entries start whose two forms still exist, among the first `n`: entries follow one another, each
   * with its deltas, for as long as the record holds whole headers.
   */
  function Starts(d: Bytes, p: nat, n: nat, version: u32, resolve: Resolve): (r: seq<nat>)
    ensures |r| <= n && forall i | 0 <= i < |r| :: r[i] + HeaderBytes(version) <= |d|
    decreases n
  {
    if n == 0 || p + HeaderBytes(version) > |d| then []
    else (if BothResolve(d, p, resolve) then [p] else [])
         + Starts(d, p + HeaderBytes(version) + 8 * StoredDeltas(d, p, version), n - 1, version, resolve)
  }

  // ---- What an entry says ------------------------------------------------------------------

  /** The supported ones among the first `n` deltas, in order. */
  function DeltasFrom(d: Bytes, p: nat, n: nat): seq<RewardDelta<Float>>
    requires p + 8 * n <= |d|
  {
    if n == 0 then []
    else
      var at := p + 8 * (n - 1);
      DeltasFrom(d, p, n - 1)
        + if IsSupportedReward(U32At(d, at)) then [RewardDelta(U32At(d, at), U32At(d, at + 4))] else []
  }

  /** Version 2 entries have no contribution; version 3 had no points and gets 60, 35 or 10 for each record. */
  predicate SaysContribution(d: Bytes, p: nat, version: u32, c: Option<Contribution>)
    requires p + HeaderBytes(version) <= |d|
  {
    if version < 3 || U32At(d, p + 20) == 0 then c == None
    else
      var raw := U32At(d, p + 24) % 0x100;
      var records := I32Of(U32At(d, p + 28));
      var each := if raw == 0 then 60 else if raw == 1 then 35 else if raw == 2 then 10 else 0;
      && c.Some? && c.value.recordDelta == records
      && (raw == 0 <==> c.value.discipline == Attack) && (raw == 1 <==> c.value.discipline == Defense)
      && (raw == 2 <==> c.value.discipline == Utility)
      && (raw > 2 ==> c.value.discipline == UndefinedDiscipline(raw))
      && c.value.pointsDelta == if version == 3 then WrapI32(each * records) else I32Of(U32At(d, p + 32))
  }

  /** The record is the entry at `p` with its forms as they are called now. */
  predicate IsEntryAt(d: Bytes, p: nat, version: u32, resolve: Resolve, r: UndoRecord<Float>)
    requires p + HeaderBytes(version) <= |d|
  {
    && r.actionId == U64At(d, p)
    && resolve(U32At(d, p + 8)) == Some(r.formId)
    && resolve(U32At(d, p + 12)) == Some(r.regKey)
    && r.group == U32At(d, p + 16)
    && SaysContribution(d, p, version, r.contribution)
    && r.rewardDeltas == DeltasFrom(d, p + HeaderBytes(version), MinInt(StoredDeltas(d, p, version), 64))
  }

  /** Record for record, what the entries at these places say. */
  predicate AreEntriesAt(d: Bytes, starts: seq<nat>, version: u32, resolve: Resolve, h: seq<UndoRecord<Float>>)
    requires forall i | 0 <= i < |starts| :: starts[i] + HeaderBytes(version) <= |d|
  {
    |h| == |starts| && forall i | 0 <= i < |h| :: IsEntryAt(d, starts[i], version, resolve, h[i])
  }

  // ---- The reader ----------------------------------------------------------------------------

  lemma {:induction false} DeltasRead(d: Bytes, p: nat, j: nat, n: nat)
    requires j <= n && p + 8 * n <= |d|
    ensures DeltaEntries(d, p + 8 * j, j, n, DeltasFrom(d, p, MinInt(j, 64)))
         == Some(DeltasFrom(d, p, MinInt(n, 64)))
    decreases n - j
  {
    hide U32At, IsSupportedReward;
    if j < n {
      assert DeltasFrom(d, p, MinInt(j + 1, 64))
          == DeltasFrom(d, p, MinInt(j, 64)) + KeptDelta(U32At(d, p + 8 * j), U32At(d, p + 8 * j + 4), j);
      DeltasRead(d, p, j + 1, n);
    }
  }

  lemma LastPlus<T>(h: seq<T>, x: seq<T>, n: nat)
    ensures Registration.Last(Registration.Last(h, n) + x, n) == Registration.Last(h + x, n)
  {
  }

  /** One entry as the reader takes it. */
  lemma ReadOneEntry(d: Bytes, p: nat, n: nat, version: u32, resolve: Resolve, history: seq<UndoRecord<Float>>)
    returns (entry: UndoRecord<Float>)
    requires n > 0 && p + HeaderBytes(version) <= |d|
    ensures var next := p + HeaderBytes(version) + 8 * StoredDeltas(d, p, version);
      && next <= |d|
      && UndoEntries(d, p, |d| - p, n, version, resolve, history)
         == UndoEntries(d, next, |d| - next, n - 1, version, resolve,
                        if BothResolve(d, p, resolve) then Registration.Last(history + [entry], 10) else history)
    ensures BothResolve(d, p, resolve) ==> IsEntryAt(d, p, version, resolve, entry)
  {
    hide U32At, U64At, IsSupportedReward;
    var header := HeaderBytes(version);
    var deltas := StoredDeltas(d, p, version);
    DeltasRead(d, p + header, 0, deltas);
    var kept := DeltasFrom(d, p + header, MinInt(deltas, 64));
    var key, form := resolve(U32At(d, p + 12)), resolve(U32At(d, p + 8));
    entry := UndoRecord(U64At(d, p), if form.Some? then form.value else 0, if key.Some? then key.value else 0,
                        U32At(d, p + 16), ContributionAt(d, p, version), kept);
    assert DeltasFrom(d, p + header, 0) == [];
  }

  lemma NoMoreEntries(d: Bytes, p: nat, n: nat, version: u32, resolve: Resolve, history: seq<UndoRecord<Float>>)
    requires p <= |d| && (n == 0 || p + HeaderBytes(version) > |d|)
    ensures UndoEntries(d, p, |d| - p, n, version, resolve, history) == Some(history)
  {
  }

  lemma NoEntries(d: Bytes, version: u32, resolve: Resolve)
    ensures AreEntriesAt(d, [], version, resolve, [])
  {
  }

  lemma LastIsShort<T>(h: seq<T>, n: nat)
    ensures |Registration.Last(h, n)| <= n
  {
  }

  lemma OneEntryMore(d: Bytes, p: nat, later: seq<nat>, version: u32, resolve: Resolve, entry: UndoRecord<Float>,
      read: seq<UndoRecord<Float>>)
    requires p + HeaderBytes(version) <= |d| && IsEntryAt(d, p, version, resolve, entry)
    requires forall i | 0 <= i < |later| :: later[i] + HeaderBytes(version) <= |d|
    requires AreEntriesAt(d, later, version, resolve, read)
    ensures AreEntriesAt(d, [p] + later, version, resolve, [entry] + read)
  {
    hide IsEntryAt;
  }

  /**
   * For any bytes: what the entries that resolve say, appended in order to the history, of which the
   * latest ten stay.
   */
  lemma {:induction false} HistoryFrom(d: Bytes, p: nat, n: nat, version: u32, resolve: Resolve,
      history: seq<UndoRecord<Float>>)
    returns (read: seq<UndoRecord<Float>>)
    requires p <= |d| && |history| <= 10
    ensures UndoEntries(d, p, |d| - p, n, version, resolve, history) == Some(Registration.Last(history + read, 10))
    ensures AreEntriesAt(d, Starts(d, p, n, version, resolve), version, resolve, read)
    decreases n
  {
    hide U32At, BothResolve, IsEntryAt, UndoEntries, StoredDeltas, Registration.Last, AreEntriesAt;
    if n == 0 || p + HeaderBytes(version) > |d| {
      NoMoreEntries(d, p, n, version, resolve, history);
      read := [];
      assert history + read == history;
      Registration.LastIsAll(history, 10);
      assert AreEntriesAt(d, [], version, resolve, read) by { NoEntries(d, version, resolve); }
    } else {
      var entry := ReadOneEntry(d, p, n, version, resolve, history);
      var next := p + HeaderBytes(version) + 8 * StoredDeltas(d, p, version);
      var rest := Starts(d, next, n - 1, version, resolve);
      assert Starts(d, p, n, version, resolve) == if BothResolve(d, p, resolve) then [p] + rest else [] + rest;
      if BothResolve(d, p, resolve) {
        LastIsShort(history + [entry], 10);
        var later := HistoryFrom(d, next, n - 1, version, resolve, Registration.Last(history + [entry], 10));
        read := [entry] + later;
        OneEntryMore(d, p, rest, version, resolve, entry, later);
        LastPlus(history + [entry], later, 10);
        assert history + [entry] + later == history + read;
      } else {
        assert [] + rest == rest;
        read := HistoryFrom(d, next, n - 1, version, resolve, history);
      }
    }
  }

  /**
   * A whole undo record, of any version and under any resolution of form ids: the history is the latest ten of the
   * entries whose two forms still exist, each under its new ids, and the next action id lies above the last one.
   */
  lemma UndoRecordExactly(s: Loaded, r: Record, resolve: Resolve)
    requires r.Whole() && |r.data| >= 12
    ensures var starts := Starts(r.data, 12, U32At(r.data, 0), r.version, resolve);
      var loaded := HandleUndo(s, r, resolve);
      && loaded.Some?
      && var h := loaded.value.undoHistory;
      && AreEntriesAt(r.data, Registration.Last(starts, 10), r.version, resolve, h)
      && var above := if h == [] then 1 else (h[|h| - 1].actionId + 1) % U64_MODULUS;
      && loaded.value == s.(undoHistory := h, nextActionId := MaxInt(U64At(r.data, 4), above))
  {
    hide U32At, U64At, UndoEntries, IsEntryAt, Starts;
    var read := HistoryFrom(r.data, 12, U32At(r.data, 0), r.version, resolve, []);
    assert [] + read == read;
  }
}
