// Loading a co-save: the record readers, byte by byte, against the format of CodecFormat.
//
// `remaining` is a 32-bit unsigned number throughout: that it never underflows is part of what
// each reader's verification shows.
module CodecLoad {
  import opened ActorValues
  import opened Bytes
  import opened Catalog
  import opened CodecFormat
  import Migration
  import Registration
  import opened State

  const SKIP_CHUNK: nat := 256

  /** The engine's reading side: one current record, never read past its end. */
  class RecordReader {
    var records: seq<Record>
    var data: Bytes
    var pos: nat

    predicate Valid() reads this { pos <= |data| }

    constructor (records: seq<Record>)
      ensures Valid() && this.records == records && data == []
    {
      this.records, data, pos := records, [], 0;
    }

    method GetNextRecordInfo() returns (next: Option<Record>)
      modifies this
      ensures Valid()
      ensures old(records) == [] ==> next == None && records == []
      ensures old(records) != [] ==>
        next == Some(old(records)[0]) && records == old(records)[1..] && data == next.value.data && pos == 0
    {
      if records == [] {
        data, pos := [], 0;
        return None;
      }
      next := Some(records[0]);
      data, pos, records := records[0].data, 0, records[1..];
    }

    /** Fewer bytes than asked for come back at the end of the record. */
    method ReadRecordData(n: nat) returns (bytes: Bytes)
      requires Valid()
      modifies `pos
      ensures Valid() && pos == MinInt(old(pos) + n, |data|) && bytes == data[old(pos)..pos]
    {
      var end: nat := MinInt(pos + n, |data|);
      bytes := data[pos..end];
      pos := end;
    }

    method ReadU32() returns (value: Option<u32>)
      requires Valid()
      modifies `pos
      ensures Valid()
      ensures value == if Has(data, old(pos), 4) then Some(U32At(data, old(pos))) else None
      ensures value.Some? ==> pos == old(pos) + 4
    {
      var bytes := ReadRecordData(4);
      if |bytes| != 4 {
        return None;
      }
      return Some(U32At(bytes, 0));
    }

    method ReadU64() returns (value: Option<u64>)
      requires Valid()
      modifies `pos
      ensures Valid()
      ensures value == if Has(data, old(pos), 8) then Some(U64At(data, old(pos))) else None
      ensures value.Some? ==> pos == old(pos) + 8
    {
      var bytes := ReadRecordData(8);
      if |bytes| != 8 {
        return None;
      }
      return Some(U64At(bytes, 0));
    }

    method ReadByte() returns (value: Option<byte>)
      requires Valid()
      modifies `pos
      ensures Valid()
      ensures value == if Has(data, old(pos), 1) then Some(data[old(pos)]) else None
      ensures value.Some? ==> pos == old(pos) + 1
    {
      var bytes := ReadRecordData(1);
      if |bytes| != 1 {
        return None;
      }
      return Some(bytes[0]);
    }

    /** Skip in chunks; a record that ends early ends the skipping. */
    method Skip(length: u32)
      requires Valid()
      modifies `pos
      ensures Valid() && pos == MinInt(old(pos) + length, |data|)
    {
      var left: u32 := length;
      while left > 0
        invariant Valid() && left <= length && pos == old(pos) + (length - left)
        decreases left
      {
        var bytes := ReadRecordData(MinInt(left, SKIP_CHUNK));
        if |bytes| == 0 {
          break;
        }
        left := left - |bytes|;
      }
    }
  }

  /** The reader stands at the start of the record. */
  predicate AtStart(reader: RecordReader, r: Record)
    reads reader
  {
    reader.data == r.data && reader.pos == 0 && r.WellFormed()
  }

  /** A reader that goes on has used up the whole record. */
  predicate Consumed(reader: RecordReader)
    reads reader
  {
    reader.pos == |reader.data|
  }

  function Outcome(ok: bool, loaded: RuntimeState<Float>): Option<Loaded>
    reads loaded
  {
    if ok then Some(loaded.Value()) else None
  }

  method ReadRegistered(reader: RecordReader, count: nat, wide: bool, resolve: Resolve, into: map<FormId, u32>,
      remaining: u32)
    returns (registered: Option<map<FormId, u32>>, left: u32)
    requires reader.Valid() && count * RegisteredEntrySize(wide) <= remaining
    modifies reader`pos
    ensures reader.Valid()
    ensures registered == RegisteredEntries(reader.data, old(reader.pos), count, wide, resolve, into)
    ensures registered.Some? ==>
      && left == remaining - RegisteredEntrySize(wide) * count
      && reader.pos == old(reader.pos) + RegisteredEntrySize(wide) * count
  {
    hide Emplaced, U32At;
    var size: u32 := RegisteredEntrySize(wide);
    left := remaining;
    var m := into;
    var i := 0;
    while i < count
      invariant i <= count && reader.Valid()
      invariant reader.pos == old(reader.pos) + size * i && left == remaining - size * i
      invariant RegisteredEntries(reader.data, reader.pos, count - i, wide, resolve, m)
        == RegisteredEntries(reader.data, old(reader.pos), count, wide, resolve, into)
    {
      var oldId := reader.ReadU32();
      if oldId.None? {
        return None, left;
      }
      var group := Some(GROUP_UNKNOWN);
      if wide {
        group := reader.ReadU32();
        if group.None? {
          return None, left;
        }
      }
      left := left - size;
      m := Emplaced(m, resolve(oldId.value), group.value);
      i := i + 1;
    }
    return Some(m), left;
  }

  method LoadRegistered(reader: RecordReader, r: Record, resolve: Resolve,
      loaded: RuntimeState<Float>)
    returns (ok: bool)
    requires AtStart(reader, r)
    modifies reader`pos, loaded
    ensures Outcome(ok, loaded) == HandleRegistered(old(loaded.Value()), r, resolve)
    ensures ok ==> Consumed(reader)
  {
    hide RegisteredEntries, U32At;
    var stored := reader.ReadU32();
    if r.length < 4 || stored.None? {
      return false;
    }
    var remaining: u32 := r.length - 4;
    if r.version == 1 || r.version == 2 {
      var wide := r.version == 2;
      var count := ReadableCount(stored.value, remaining, RegisteredEntrySize(wide));
      var registered, left := ReadRegistered(reader, count, wide, resolve, loaded.registered, remaining);
      if registered.None? {
        return false;
      }
      loaded.registered := registered.value;
      remaining := left;
    }
    if remaining > 0 {
      reader.Skip(remaining);
    }
    return true;
  }

  method ReadForms(reader: RecordReader, count: nat, resolve: Resolve, into: set<FormId>, remaining: u32)
    returns (forms: Option<set<FormId>>, left: u32)
    requires reader.Valid() && count * 4 <= remaining
    modifies reader`pos
    ensures reader.Valid()
    ensures forms == FormEntries(reader.data, old(reader.pos), count, resolve, into)
    ensures forms.Some? ==> left == remaining - 4 * count && reader.pos == old(reader.pos) + 4 * count
  {
    hide Inserted, U32At;
    left := remaining;
    var found := into;
    var i := 0;
    while i < count
      invariant i <= count && reader.Valid()
      invariant reader.pos == old(reader.pos) + 4 * i && left == remaining - 4 * i
      invariant FormEntries(reader.data, reader.pos, count - i, resolve, found)
        == FormEntries(reader.data, old(reader.pos), count, resolve, into)
    {
      var oldId := reader.ReadU32();
      if oldId.None? {
        return None, left;
      }
      left := left - 4;
      found := Inserted(found, resolve(oldId.value));
      i := i + 1;
    }
    return Some(found), left;
  }

  method LoadForms(reader: RecordReader, r: Record, resolve: Resolve, loaded: RuntimeState<Float>) returns (ok: bool)
    requires AtStart(reader, r)
    modifies reader`pos, loaded
    ensures Outcome(ok, loaded) == HandleForms(old(loaded.Value()), r, resolve)
    ensures ok ==> Consumed(reader)
  {
    hide FormEntries, U32At;
    var stored := reader.ReadU32();
    if r.length < 4 || stored.None? {
      return false;
    }
    var count := ReadableCount(stored.value, r.length - 4, 4);
    var into := if r.tag == BLCK then loaded.blocked else loaded.notified;
    var forms, remaining := ReadForms(reader, count, resolve, into, r.length - 4);
    if forms.None? {
      return false;
    }
    if r.tag == BLCK {
      loaded.blocked := forms.value;
    } else {
      loaded.notified := forms.value;
    }
    if remaining > 0 {
      reader.Skip(remaining);
    }
    return true;
  }

  method ReadTriple(reader: RecordReader) returns (triple: Option<PerDiscipline>)
    requires reader.Valid()
    modifies reader`pos
    ensures reader.Valid()
    ensures triple
      == if Has(reader.data, old(reader.pos), 12) then Some(TripleAt(reader.data, old(reader.pos))) else None
    ensures triple.Some? ==> reader.pos == old(reader.pos) + 12
  {
    var attack := reader.ReadU32();
    if attack.None? {
      return None;
    }
    var defense := reader.ReadU32();
    if defense.None? {
      return None;
    }
    var utility := reader.ReadU32();
    if utility.None? {
      return None;
    }
    return Some(PerDiscipline(attack.value, defense.value, utility.value));
  }

  method LoadScores(reader: RecordReader, r: Record, loaded: RuntimeState<Float>) returns (ok: bool)
    requires AtStart(reader, r)
    modifies reader`pos, loaded
    ensures Outcome(ok, loaded) == HandleScores(old(loaded.Value()), r)
    ensures ok ==> Consumed(reader)
  {
    if r.version != 1 && r.version != 2 {
      reader.Skip(r.length);
      return true;
    }
    if r.length < ScoresSize(r.version) {
      return false;
    }
    var scores := ReadTriple(reader);
    if scores.None? {
      return false;
    }
    loaded.scores := scores.value;
    var bytesRead: u32 := 12;
    if r.version >= 2 {
      var points := ReadTriple(reader);
      if points.None? {
        return false;
      }
      loaded.points := points.value;
      bytesRead := 24;
    }
    if r.length > bytesRead {
      reader.Skip(r.length - bytesRead);
    }
    return true;
  }

  /** One length-prefixed text, cut to 128 bytes after it has been read whole. */
  method ReadString(reader: RecordReader, remaining: u32) returns (text: Option<string>, left: u32)
    requires reader.Valid()
    modifies reader`pos
    ensures reader.Valid()
    ensures var length := TextLengthAt(reader.data, old(reader.pos), remaining);
      && (text.None? <==> length.None?)
      && (text.Some? ==>
            && text.value == CutText(reader.data[old(reader.pos) + 4..old(reader.pos) + 4 + length.value])
            && left == remaining - 4 - length.value && reader.pos == old(reader.pos) + 4 + length.value)
  {
    left := remaining;
    var length := reader.ReadU32();
    if remaining < 4 || length.None? {
      return None, left;
    }
    left := left - 4;
    if length.value > left {
      return None, left;
    }
    var bytes := reader.ReadRecordData(length.value);
    if |bytes| != length.value {
      return None, left;
    }
    left := left - length.value;
    return Some(CutText(bytes)), left;
  }

  method ReadSlots(reader: RecordReader, count: nat, remaining: u32) returns (slots: Option<Slots>, left: u32)
    requires reader.Valid()
    modifies reader`pos
    ensures reader.Valid()
    ensures slots == SlotTexts(reader.data, old(reader.pos), remaining, 0, count, NO_SLOTS)
    ensures left <= remaining && (slots.Some? ==> reader.pos == old(reader.pos) + (remaining - left))
  {
    hide CutText, TextLengthAt;
    left := remaining;
    var texts := NO_SLOTS;
    var i := 0;
    while i < count && left > 0
      invariant i <= count && reader.Valid() && left <= remaining
      invariant reader.pos == old(reader.pos) + (remaining - left)
      invariant SlotTexts(reader.data, reader.pos, left, i, count, texts)
        == SlotTexts(reader.data, old(reader.pos), remaining, 0, count, NO_SLOTS)
    {
      var text, rest := ReadString(reader, left);
      if text.None? {
        return None, left;
      }
      left := rest;
      if i < SLOT_COUNT {
        texts := texts[i := text.value];
      }
      i := i + 1;
    }
    return Some(texts), left;
  }

  method LoadSlots(reader: RecordReader, r: Record, loaded: RuntimeState<Float>) returns (ok: bool)
    requires AtStart(reader, r)
    modifies reader`pos, loaded
    ensures Outcome(ok, loaded) == HandleSlots(old(loaded.Value()), r)
    ensures ok ==> Consumed(reader)
  {
    if r.version != 1 {
      reader.Skip(r.length);
      return true;
    }
    var count := reader.ReadU32();
    if r.length < 4 || count.None? {
      return false;
    }
    var slots, remaining := ReadSlots(reader, count.value, r.length - 4);
    if slots.None? {
      return false;
    }
    loaded.slots := slots.value;
    if remaining > 0 {
      reader.Skip(remaining);
    }
    return true;
  }

  method ReadNotice(reader: RecordReader) returns (notice: Option<Notice>)
    requires reader.Valid()
    modifies reader`pos
    ensures reader.Valid()
    ensures var pos := old(reader.pos);
      notice == if Has(reader.data, pos, 6)
                then Some(Notice(reader.data[pos] != 0, reader.data[pos + 1] != 0, U32At(reader.data, pos + 2)))
                else None
    ensures notice.Some? ==> reader.pos == old(reader.pos) + 6
  {
    hide U32At;
    var needsNotice := reader.ReadByte();
    if needsNotice.None? {
      return None;
    }
    var migrated := reader.ReadByte();
    if migrated.None? {
      return None;
    }
    var unresolved := reader.ReadU32();
    if unresolved.None? {
      return None;
    }
    return Some(Notice(needsNotice.value != 0, migrated.value != 0, unresolved.value));
  }

  method LoadMigration(reader: RecordReader, r: Record, loaded: RuntimeState<Float>) returns (ok: bool)
    requires AtStart(reader, r)
    modifies reader`pos, loaded
    ensures Outcome(ok, loaded) == HandleMigration(old(loaded.Value()), r)
    ensures ok ==> Consumed(reader)
  {
    if r.version != 1 {
      reader.Skip(r.length);
      return true;
    }
    if r.length < MIGRATION_SIZE {
      return false;
    }
    hide U32At;
    var version := reader.ReadU32();
    if version.None? {
      return false;
    }
    var state := reader.ReadU32();
    if state.None? {
      return false;
    }
    var notice := ReadNotice(reader);
    if notice.None? {
      return false;
    }
    loaded.migrationVersion := version.value;
    loaded.migrationState := MigrationStateOf(state.value);
    loaded.notice := notice.value;
    if r.length > MIGRATION_SIZE {
      reader.Skip(r.length - MIGRATION_SIZE);
    }
    return true;
  }

  /** The entries of a reward or effect record; `None` when the record ends inside one. */
  method ReadAmounts(reader: RecordReader, count: nat, kind: AmountKind, into: map<ActorValue, Float>, remaining: u32)
    returns (amounts: Option<map<ActorValue, Float>>, left: u32)
    requires reader.Valid() && count * 8 <= remaining
    modifies reader`pos
    ensures reader.Valid()
    ensures amounts == AmountEntries(reader.data, old(reader.pos), count, kind, into)
    ensures amounts.Some? ==> left == remaining - 8 * count && reader.pos == old(reader.pos) + 8 * count
  {
    hide Assigned, U32At;
    left := remaining;
    var m := into;
    var i := 0;
    while i < count
      invariant i <= count && reader.Valid()
      invariant reader.pos == old(reader.pos) + 8 * i && left == remaining - 8 * i
      invariant AmountEntries(reader.data, reader.pos, count - i, kind, m)
        == AmountEntries(reader.data, old(reader.pos), count, kind, into)
    {
      var av := reader.ReadU32();
      if av.None? {
        return None, left;
      }
      var total := reader.ReadU32();
      if total.None? {
        return None, left;
      }
      left := left - 8;
      m := Assigned(m, kind, av.value, total.value);
      i := i + 1;
    }
    return Some(m), left;
  }

  method LoadRewards(reader: RecordReader, r: Record, loaded: RuntimeState<Float>) returns (ok: bool)
    requires AtStart(reader, r)
    modifies reader`pos, loaded
    ensures Outcome(ok, loaded) == HandleRewards(old(loaded.Value()), r)
    ensures ok ==> Consumed(reader)
  {
    hide AmountEntries, U32At;
    var stored := reader.ReadU32();
    if r.length < 4 || stored.None? {
      return false;
    }
    var readable := ReadableCount(stored.value, r.length - 4, 8);
    var count: nat := MinInt(readable, MAX_REWARD_ENTRIES);
    var amounts, remaining := ReadAmounts(reader, count, RewardTotal, loaded.rewardTotals, r.length - 4);
    if amounts.None? {
      return false;
    }
    loaded.rewardTotals := amounts.value;
    if readable > count {
      var skipBytes: u32 := (readable - count) * 8;
      reader.Skip(skipBytes);
      remaining := remaining - skipBytes;
    }
    if remaining > 0 {
      reader.Skip(remaining);
    }
    return true;
  }

  method LoadEffects(reader: RecordReader, r: Record, loaded: RuntimeState<Float>) returns (ok: bool)
    requires AtStart(reader, r)
    modifies reader`pos, loaded
    ensures Outcome(ok, loaded) == HandleEffects(old(loaded.Value()), r)
    ensures ok ==> Consumed(reader)
  {
    hide AmountEntries, U32At;
    if r.version != 1 {
      reader.Skip(r.length);
      return true;
    }
    var stored := reader.ReadU32();
    if r.length < 4 || stored.None? {
      return false;
    }
    var count := ReadableCount(stored.value, r.length - 4, 8);
    var amounts, remaining := ReadAmounts(reader, count, BuildEffect, loaded.buildApplied, r.length - 4);
    if amounts.None? {
      return false;
    }
    loaded.buildApplied := amounts.value;
    if remaining > 0 {
      reader.Skip(remaining);
    }
    return true;
  }

  // ---- UNDO --------------------------------------------------------------------------------

  /** The fixed part of an undo entry, without its reward deltas. */
  method ReadUndoHeader(reader: RecordReader, version: u32) returns (entry: Option<UndoRecord<Float>>, rewardCount: u32)
    requires reader.Valid()
    modifies reader`pos
    ensures reader.Valid()
    ensures var pos := old(reader.pos);
      && (entry.Some? <==> Has(reader.data, pos, UndoHeaderSize(version)))
      && (entry.Some? ==>
            && entry.value
               == UndoRecord(U64At(reader.data, pos), U32At(reader.data, pos + 8), U32At(reader.data, pos + 12),
                                         U32At(reader.data, pos + 16), ContributionAt(reader.data, pos, version), [])
            && rewardCount == U32At(reader.data, pos + UndoHeaderSize(version) - 4)
            && reader.pos == pos + UndoHeaderSize(version))
  {
    rewardCount := 0;
    var actionId := reader.ReadU64();
    if actionId.None? {
      return None, 0;
    }
    var formId := reader.ReadU32();
    if formId.None? {
      return None, 0;
    }
    var regKey := reader.ReadU32();
    if regKey.None? {
      return None, 0;
    }
    var group := reader.ReadU32();
    if group.None? {
      return None, 0;
    }
    var contribution, ok := ReadContribution(reader, version);
    if !ok {
      return None, 0;
    }
    var stored := reader.ReadU32();
    if stored.None? {
      return None, 0;
    }
    return Some(UndoRecord(actionId.value, formId.value, regKey.value, group.value, contribution, [])), stored.value;
  }

  method ReadContribution(reader: RecordReader, version: u32) returns (contribution: Option<Contribution>, ok: bool)
    requires reader.Valid() && reader.pos >= 20
    modifies reader`pos
    ensures reader.Valid()
    ensures ok <==> Has(reader.data, old(reader.pos), UndoHeaderSize(version) - 24)
    ensures ok ==> reader.pos == old(reader.pos) + UndoHeaderSize(version) - 24
    ensures ok && Has(reader.data, old(reader.pos) - 20, UndoHeaderSize(version)) ==>
      contribution == ContributionAt(reader.data, old(reader.pos) - 20, version)
  {
    if version < 3 {
      return None, true;
    }
    var present := reader.ReadU32();
    if present.None? {
      return None, false;
    }
    var discipline := reader.ReadU32();
    if discipline.None? {
      return None, false;
    }
    var recordDelta := reader.ReadU32();
    if recordDelta.None? {
      return None, false;
    }
    var pointsDelta: i32 := LegacyPointsDelta(DisciplineOf(discipline.value), I32Of(recordDelta.value));
    if version >= 4 {
      var stored := reader.ReadU32();
      if stored.None? {
        return None, false;
      }
      pointsDelta := I32Of(stored.value);
    }
    if present.value == 0 {
      return None, true;
    }
    return Some(Contribution(DisciplineOf(discipline.value), I32Of(recordDelta.value), pointsDelta)), true;
  }

  /** All readable deltas are read; the first 64 of them are kept where their actor value is supported. */
  method ReadDeltas(reader: RecordReader, count: nat,
      remaining: u32)
    returns (deltas: Option<seq<RewardDelta<Float>>>, left: u32)
    requires reader.Valid() && count * 8 <= remaining
    modifies reader`pos
    ensures reader.Valid()
    ensures deltas == DeltaEntries(reader.data, old(reader.pos), 0, count, [])
    ensures deltas.Some? ==> left == remaining - 8 * count && reader.pos == old(reader.pos) + 8 * count
  {
    hide KeptDelta, U32At;
    left := remaining;
    var kept: seq<RewardDelta<Float>> := [];
    var j := 0;
    while j < count
      invariant j <= count && reader.Valid()
      invariant reader.pos == old(reader.pos) + 8 * j && left == remaining - 8 * j
      invariant DeltaEntries(reader.data, reader.pos, j, count, kept)
        == DeltaEntries(reader.data, old(reader.pos), 0, count, [])
    {
      var av := reader.ReadU32();
      if av.None? {
        return None, left;
      }
      var delta := reader.ReadU32();
      if delta.None? {
        return None, left;
      }
      left := left - 8;
      kept := kept + KeptDelta(av.value, delta.value, j);
      j := j + 1;
    }
    return Some(kept), left;
  }

  /** One undo entry; it is kept only if both of its forms resolve, and the history keeps the latest ten. */
  method ReadUndoEntry(reader: RecordReader, version: u32, resolve: Resolve, history: seq<UndoRecord<Float>>,
      remaining: u32, ghost n: nat)
    returns (grown: Option<seq<UndoRecord<Float>>>, left: u32)
    requires reader.Valid() && remaining >= UndoHeaderSize(version) && n > 0
    modifies reader`pos
    ensures reader.Valid()
    ensures left <= remaining
    ensures grown.Some? ==> reader.pos == old(reader.pos) + (remaining - left)
    ensures UndoEntries(reader.data, old(reader.pos), remaining, n, version, resolve, history)
      == (if grown.None? then None
          else UndoEntries(reader.data, reader.pos, left, n - 1, version, resolve, grown.value))
  {
    hide ContributionAt, Kept, DeltaEntries;
    left := remaining;
    var entry, rewardCount := ReadUndoHeader(reader, version);
    if entry.None? {
      return None, left;
    }
    left := left - UndoHeaderSize(version);
    var count := ReadableCount(rewardCount, left, 8);
    var deltas, rest := ReadDeltas(reader, count, left);
    if deltas.None? {
      return None, left;
    }
    left := rest;
    var full := entry.value.(rewardDeltas := deltas.value);
    return Some(Kept(history, full, resolve(full.regKey), resolve(full.formId))), left;
  }

  method LoadUndo(reader: RecordReader, r: Record, resolve: Resolve, loaded: RuntimeState<Float>) returns (ok: bool)
    requires AtStart(reader, r)
    modifies reader`pos, loaded
    ensures Outcome(ok, loaded) == HandleUndo(old(loaded.Value()), r, resolve)
    ensures ok ==> Consumed(reader)
  {
    hide UndoEntries;
    var count := reader.ReadU32();
    if r.length < 12 || count.None? {
      return false;
    }
    var nextActionId := reader.ReadU64();
    if nextActionId.None? {
      return false;
    }
    var history, remaining := ReadHistory(reader, count.value, r.version, resolve, r.length - 12);
    if history.None? {
      return false;
    }
    loaded.undoHistory := history.value;
    loaded.nextActionId := NextActionId(nextActionId.value, history.value);
    if remaining > 0 {
      reader.Skip(remaining);
    }
    return true;
  }

  method ReadHistory(reader: RecordReader, count: nat, version: u32, resolve: Resolve, remaining: u32)
    returns (history: Option<seq<UndoRecord<Float>>>, left: u32)
    requires reader.Valid()
    modifies reader`pos
    ensures reader.Valid()
    ensures history == UndoEntries(reader.data, old(reader.pos), remaining, count, version, resolve, [])
    ensures left <= remaining && (history.Some? ==> reader.pos == old(reader.pos) + (remaining - left))
  {
    hide UndoEntries, UndoHeaderSize;
    left := remaining;
    ghost var target := UndoEntries(reader.data, reader.pos, remaining, count, version, resolve, []);
    var kept: seq<UndoRecord<Float>> := [];
    var i := 0;
    while i < count && left >= UndoHeaderSize(version)
      invariant i <= count && reader.Valid() && left <= remaining
      invariant reader.pos == old(reader.pos) + (remaining - left)
      invariant UndoEntries(reader.data, reader.pos, left, count - i, version, resolve, kept) == target
    {
      var grown, rest := ReadUndoEntry(reader, version, resolve, kept, left, count - i);
      if grown.None? {
        return None, left;
      }
      kept, left := grown.value, rest;
      i := i + 1;
    }
    NoMoreEntries(reader.data, reader.pos, left, count - i, version, resolve, kept);
    return Some(kept), left;
  }

  lemma NoMoreEntries(d: Bytes, pos: nat, remaining: nat, n: nat, version: u32, resolve: Resolve,
      history: seq<UndoRecord<Float>>)
    requires n == 0 || remaining < UndoHeaderSize(version)
    ensures UndoEntries(d, pos, remaining, n, version, resolve, history) == Some(history)
  {
  }

  // ---- The whole load ----------------------------------------------------------------------

  method LoadRecord(reader: RecordReader, r: Record, resolve: Resolve, loaded: RuntimeState<Float>) returns (ok: bool)
    requires AtStart(reader, r)
    modifies reader`pos, loaded
    ensures Outcome(ok, loaded) == Handle(old(loaded.Value()), r, resolve)
    ensures ok ==> Consumed(reader)
  {
    hide HandleRegistered, HandleForms, HandleScores, HandleSlots, HandleMigration, HandleRewards, HandleEffects,
         HandleUndo;
    if r.tag == REGI {
      ok := LoadRegistered(reader, r, resolve, loaded);
    } else if r.tag == BLCK || r.tag == NTFY {
      ok := LoadForms(reader, r, resolve, loaded);
    } else if r.tag == BSCR {
      ok := LoadScores(reader, r, loaded);
    } else if r.tag == BSLT {
      ok := LoadSlots(reader, r, loaded);
    } else if r.tag == BMIG {
      ok := LoadMigration(reader, r, loaded);
    } else if r.tag == RWDS {
      ok := LoadRewards(reader, r, loaded);
    } else if r.tag == BEFX {
      ok := LoadEffects(reader, r, loaded);
    } else if r.tag == UNDO {
      ok := LoadUndo(reader, r, resolve, loaded);
    } else {
      reader.Skip(r.length);
      ok := true;
    }
  }

  /** An aborted load leaves the live state as it was; a completed one replaces it as a whole. */
  method Load(reader: RecordReader, resolve: Resolve, forms: Migration.Forms,
      live: RuntimeState<Float>)
    returns (completed: bool)
    requires forall r | r in reader.records :: r.WellFormed()
    modifies reader, live
    ensures var result := HandleAll(Cleared(), old(reader.records), resolve);
      && completed == result.Some?
      && live.Value() == (if completed then Migration.Normalized(result.value, forms, None) else old(live.Value()))
  {
    hide Handle, Migration.Normalized;
    ghost var all := reader.records;
    var loaded := new RuntimeState<Float>();
    var next := reader.GetNextRecordInfo();
    while next.Some?
      invariant fresh(loaded) && unchanged(live)
      invariant next.Some? ==> AtStart(reader, next.value)
      invariant next.None? ==> reader.records == []
      invariant forall r | r in reader.records :: r.WellFormed()
      invariant HandleAll(Cleared(), all, resolve)
        == HandleAll(loaded.Value(), (if next.Some? then [next.value] else []) + reader.records, resolve)
      decreases if next.Some? then 1 + |reader.records| else 0
    {
      assert ([next.value] + reader.records)[1..] == reader.records;
      var ok := LoadRecord(reader, next.value, resolve, loaded);
      if !ok {
        return false;
      }
      ghost var rest := reader.records;
      next := reader.GetNextRecordInfo();
      assert rest == (if next.Some? then [next.value] else []) + reader.records;
    }
    Migration.NormalizeLoadedSnapshot(loaded, forms, None);
    live.Replace(loaded.Value());
    return true;
  }
}
