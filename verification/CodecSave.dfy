// Saving: the nine record writers, and the file they make of a snapshot.
//
// Maps and sets are written in whatever order their containers hold them; a layout records it.
module CodecSave {
  import opened ActorValues
  import opened Bytes
  import opened Catalog
  import opened CodecFormat
  import opened State

  const SERIALIZATION_VERSION: u32 := 2
  const UNDO_VERSION: u32 := 4

  // ---- Encodings ---------------------------------------------------------------------------

  function Flat<T>(xs: seq<T>, f: T -> Bytes): Bytes {
    if xs == [] then [] else f(xs[0]) + Flat(xs[1..], f)
  }

  lemma {:induction false} FlatConcat<T>(a: seq<T>, b: seq<T>, f: T -> Bytes)
    ensures Flat(a + b, f) == Flat(a, f) + Flat(b, f)
  {
    if a == [] {
      assert a + b == b;
    } else {
      assert (a + b)[1..] == a[1..] + b;
      FlatConcat(a[1..], b, f);
    }
  }

  lemma FlatAppend<T>(xs: seq<T>, x: T, f: T -> Bytes)
    ensures Flat(xs + [x], f) == Flat(xs, f) + f(x)
  {
    FlatConcat(xs, [x], f);
    assert [x][1..] == [];
  }

  lemma {:induction false} FlatSize<T(!new)>(xs: seq<T>, f: T -> Bytes, n: nat)
    requires forall x :: |f(x)| == n
    ensures |Flat(xs, f)| == n * |xs|
  {
    if xs != [] {
      FlatSize(xs[1..], f, n);
    }
  }

  /** Part of a list takes no more room than the whole. */
  lemma FlatPrefix<T>(xs: seq<T>, i: nat, f: T -> Bytes)
    requires i < |xs|
    ensures Flat(xs[..i + 1], f) == Flat(xs[..i], f) + f(xs[i])
    ensures |Flat(xs[..i], f)| + |f(xs[i])| <= |Flat(xs, f)|
  {
    FlatAppend(xs[..i], xs[i], f);
    assert xs[..i + 1] == xs[..i] + [xs[i]];
    FlatConcat(xs[..i + 1], xs[i + 1..], f);
    assert xs == xs[..i + 1] + xs[i + 1..];
  }

  function Lookup(m: map<u32, u32>, key: u32): u32 { if key in m then m[key] else 0 }

  function PairBytes(m: map<u32, u32>): u32 -> Bytes {
    (key: u32) => U32Bytes(key) + U32Bytes(Lookup(m, key))
  }

  predicate IsStorableText(s: string) { IsByteText(s) && |s| < U32_MODULUS }

  function TextEntry(s: string): Bytes {
    if IsStorableText(s) then U32Bytes(|s|) + TextBytes(s) else []
  }

  function DeltaBytes(d: RewardDelta<Float>): Bytes { U32Bytes(d.av) + U32Bytes(d.delta) }

  function ContributionBytes(c: Option<Contribution>): (r: Bytes)
    ensures |r| == 16
  {
    match c
    case None => U32Bytes(0) + U32Bytes(0) + U32Bytes(0) + U32Bytes(0)
    case Some(x) =>
      U32Bytes(1) + U32Bytes(RawDiscipline(x.discipline)) + U32Bytes(I32Bits(x.recordDelta))
      + U32Bytes(I32Bits(x.pointsDelta))
  }

  function UndoHeaderBytes(r: UndoRecord<Float>): (h: Bytes)
    ensures |h| == 40
  {
    U64Bytes(r.actionId) + U32Bytes(r.formId) + U32Bytes(r.regKey) + U32Bytes(r.group)
    + ContributionBytes(r.contribution) + U32Bytes(|r.rewardDeltas| % U32_MODULUS)
  }

  function UndoBytes(r: UndoRecord<Float>): Bytes { UndoHeaderBytes(r) + Flat(r.rewardDeltas, DeltaBytes) }

  function TripleBytes(p: PerDiscipline): (r: Bytes)
    ensures |r| == 12
  {
    U32Bytes(p.attack) + U32Bytes(p.defense) + U32Bytes(p.utility)
  }

  function BoolByte(b: bool): byte { if b then 1 else 0 }

  function MigrationBytes(s: Loaded): (r: Bytes)
    ensures |r| == MIGRATION_SIZE
  {
    U32Bytes(s.migrationVersion) + U32Bytes(RawMigrationState(s.migrationState))
    + [BoolByte(s.notice.needsNotice), BoolByte(s.notice.legacyRewardsMigrated)] + U32Bytes(s.notice.unresolved)
  }

  function Counted(n: nat, body: Bytes): Bytes { U32Bytes(n % U32_MODULUS) + body }

  /** The order in which the containers are written. */
  datatype Layout = Layout(registered: seq<FormId>, blocked: seq<FormId>, notified: seq<FormId>,
      effects: seq<ActorValue>, rewards: seq<ActorValue>)

  predicate Enumerates(order: seq<u32>, keys: set<u32>) {
    && |order| == |keys|
    && (forall x | x in order :: x in keys)
    && (forall i, j | 0 <= i < j < |order| :: order[i] != order[j])
  }

  predicate IsLayout(l: Layout, s: Loaded) {
    && Enumerates(l.registered, s.registered.Keys) && Enumerates(l.blocked, s.blocked)
    && Enumerates(l.notified, s.notified)
    && Enumerates(l.effects, s.buildApplied.Keys) && Enumerates(l.rewards, s.rewardTotals.Keys)
  }

  function RegisteredData(s: Loaded, order: seq<FormId>): Bytes {
    Counted(|order|, Flat(order, PairBytes(s.registered)))
  }

  function FormsData(order: seq<FormId>): Bytes { Counted(|order|, Flat(order, U32Bytes)) }

  function AmountsData(m: map<ActorValue, Float>, order: seq<ActorValue>): Bytes {
    Counted(|order|, Flat(order, PairBytes(m)))
  }

  function SlotsData(s: Loaded): Bytes { Counted(|s.slots|, Flat(s.slots, TextEntry)) }

  function UndoData(s: Loaded): Bytes {
    U32Bytes(|s.undoHistory| % U32_MODULUS) + U64Bytes(s.nextActionId) + Flat(s.undoHistory, UndoBytes)
  }

  /** What a record can hold: texts of bytes, and no more than a 32-bit length of them. */
  predicate Fits(s: Loaded) {
    && 4 + 8 * |s.registered| < U32_MODULUS && 4 + 4 * |s.blocked| < U32_MODULUS && 4 + 4 * |s.notified| < U32_MODULUS
    && 4 + 8 * |s.buildApplied| < U32_MODULUS && 4 + 8 * |s.rewardTotals| < U32_MODULUS
    && (forall i: SlotId :: IsStorableText(s.slots[i])) && |SlotsData(s)| < U32_MODULUS
    && |UndoData(s)| < U32_MODULUS
  }

  function Stored(tag: u32, version: u32, data: Bytes): Record {
    Record(tag, version, |data| % U32_MODULUS, data)
  }

  lemma DataSizes(s: Loaded, l: Layout)
    requires Fits(s) && IsLayout(l, s)
    ensures |RegisteredData(s, l.registered)| == 4 + 8 * |s.registered| && |FormsData(l.blocked)| == 4 + 4 * |s.blocked|
    ensures |FormsData(l.notified)| == 4 + 4 * |s.notified|
    ensures |AmountsData(s.buildApplied, l.effects)| == 4 + 8 * |s.buildApplied|
    ensures |AmountsData(s.rewardTotals, l.rewards)| == 4 + 8 * |s.rewardTotals|
  {
    FlatSize(l.registered, PairBytes(s.registered), 8);
    FlatSize(l.blocked, U32Bytes, 4);
    FlatSize(l.notified, U32Bytes, 4);
    FlatSize(l.effects, PairBytes(s.buildApplied), 8);
    FlatSize(l.rewards, PairBytes(s.rewardTotals), 8);
  }

  function FormRecords(s: Loaded, registered: seq<FormId>, blocked: seq<FormId>, notified: seq<FormId>): seq<Record> {
    [Stored(REGI, SERIALIZATION_VERSION, RegisteredData(s, registered)),
     Stored(BLCK, SERIALIZATION_VERSION, FormsData(blocked)),
     Stored(NTFY, SERIALIZATION_VERSION, FormsData(notified))]
  }

  function BuildRecords(s: Loaded): seq<Record> {
    [Stored(BSCR, 2, TripleBytes(s.scores) + TripleBytes(s.points)),
     Stored(BSLT, 1, SlotsData(s)),
     Stored(BMIG, 1, MigrationBytes(s))]
  }

  function AmountRecords(s: Loaded, effects: seq<ActorValue>, rewards: seq<ActorValue>): seq<Record> {
    [Stored(BEFX, 1, AmountsData(s.buildApplied, effects)),
     Stored(RWDS, SERIALIZATION_VERSION, AmountsData(s.rewardTotals, rewards)),
     Stored(UNDO, UNDO_VERSION, UndoData(s))]
  }

  /** The whole file of a snapshot, record by record. */
  function SavedFile(s: Loaded, l: Layout): seq<Record> {
    FormRecords(s, l.registered, l.blocked, l.notified) + BuildRecords(s) + AmountRecords(s, l.effects, l.rewards)
  }

  lemma StoredIsWhole(tag: u32, version: u32, data: Bytes)
    requires |data| < U32_MODULUS
    ensures Stored(tag, version, data).Whole() && Stored(tag, version, data).length == |data|
  {
  }

  predicate AllWhole(rs: seq<Record>) { forall r | r in rs :: r.Whole() }

  /** Every record declares the length it has. */
  lemma SavedRecordsAreWhole(s: Loaded, l: Layout)
    requires Fits(s) && IsLayout(l, s)
    ensures AllWhole(SavedFile(s, l))
  {
    DataSizes(s, l);
    assert |SlotsData(s)| < U32_MODULUS && |UndoData(s)| < U32_MODULUS && |MigrationBytes(s)| == MIGRATION_SIZE;
    hide RegisteredData, FormsData, AmountsData, SlotsData, UndoData, MigrationBytes, TripleBytes, Stored, Record.Whole;
    StoredIsWhole(REGI, SERIALIZATION_VERSION, RegisteredData(s, l.registered));
    StoredIsWhole(BLCK, SERIALIZATION_VERSION, FormsData(l.blocked));
    StoredIsWhole(NTFY, SERIALIZATION_VERSION, FormsData(l.notified));
    assert AllWhole(FormRecords(s, l.registered, l.blocked, l.notified));
    StoredIsWhole(BSCR, 2, TripleBytes(s.scores) + TripleBytes(s.points));
    StoredIsWhole(BSLT, 1, SlotsData(s));
    StoredIsWhole(BMIG, 1, MigrationBytes(s));
    assert AllWhole(BuildRecords(s));
    StoredIsWhole(BEFX, 1, AmountsData(s.buildApplied, l.effects));
    StoredIsWhole(RWDS, SERIALIZATION_VERSION, AmountsData(s.rewardTotals, l.rewards));
    StoredIsWhole(UNDO, UNDO_VERSION, UndoData(s));
    assert AllWhole(AmountRecords(s, l.effects, l.rewards));
    hide FormRecords, BuildRecords, AmountRecords;
  }

  // ---- The writing side of the engine ------------------------------------------------------

  /** `outcomes` says which of the coming operations fail; after those, all succeed. */
  class RecordWriter {
    var done: seq<Record>
    var current: Option<Record>
    var outcomes: seq<bool>

    /** How many of the coming operations fail. */
    ghost function Ahead(): nat
      reads this
    {
      multiset(outcomes)[false]
    }

    function All(): seq<Record>
      reads this
    {
      done + if current.Some? then [current.value] else []
    }

    constructor (outcomes: seq<bool>)
      ensures All() == [] && Ahead() == multiset(outcomes)[false]
    {
      done, current, this.outcomes := [], None, outcomes;
    }

    method NextOutcome() returns (ok: bool)
      modifies `outcomes
      ensures ok <==> old(outcomes) == [] || old(outcomes)[0]
      ensures Ahead() == old(Ahead()) - if ok then 0 else 1
    {
      if outcomes == [] {
        return true;
      }
      ok := outcomes[0];
      assert outcomes == [ok] + outcomes[1..];
      outcomes := outcomes[1..];
    }

    method OpenRecord(tag: u32, version: u32) returns (ok: bool)
      modifies this
      ensures Ahead() == old(Ahead()) - if ok then 0 else 1
      ensures ok ==> done == old(All()) && current == Some(Record(tag, version, 0, []))
      ensures !ok ==> All() == old(All())
    {
      ok := NextOutcome();
      if ok {
        done := All();
        current := Some(Record(tag, version, 0, []));
      }
    }

    method WriteRecordData(bytes: Bytes) returns (ok: bool)
      requires current.Some? && |current.value.data| + |bytes| < U32_MODULUS
      modifies this
      ensures Ahead() == old(Ahead()) - if ok then 0 else 1
      ensures done == old(done)
      ensures current == if !ok then old(current) else
        Some(Stored(old(current).value.tag, old(current).value.version, old(current).value.data + bytes))
    {
      ok := NextOutcome();
      if ok {
        var r := current.value;
        current := Some(Stored(r.tag, r.version, r.data + bytes));
      }
    }
  }

  /** Where a record is being written: behind which records, and under which type and version. */
  datatype Place = Place(done: seq<Record>, tag: u32, version: u32)

  /** The record being written holds exactly `data`. */
  predicate Holds(w: RecordWriter, at: Place, data: Bytes)
    reads w
  {
    |data| < U32_MODULUS && w.done == at.done && w.current == Some(Stored(at.tag, at.version, data))
  }

  predicate Began(w: RecordWriter, at: Place)
    reads w
  {
    w.done == at.done && w.current.Some? && w.current.value.tag == at.tag
  }

  /** A writer that fails may have begun its record; the records before it are as they were. */
  predicate Grew(w: RecordWriter, before: seq<Record>, tag: u32)
    reads w
  {
    w.All() == before || (w.done == before && w.current.Some? && w.current.value.tag == tag)
  }

  method Put(w: RecordWriter, bytes: Bytes, ghost at: Place, ghost data: Bytes) returns (ok: bool)
    requires Holds(w, at, data) && |data| + |bytes| < U32_MODULUS
    modifies w
    ensures w.Ahead() == old(w.Ahead()) - if ok then 0 else 1
    ensures Began(w, at) && (ok ==> Holds(w, at, data + bytes))
  {
    ok := w.WriteRecordData(bytes);
  }

  method PutU32(w: RecordWriter, x: u32, ghost at: Place, ghost data: Bytes) returns (ok: bool)
    requires Holds(w, at, data) && |data| + 4 < U32_MODULUS
    modifies w
    ensures w.Ahead() == old(w.Ahead()) - if ok then 0 else 1
    ensures Began(w, at) && (ok ==> Holds(w, at, data + U32Bytes(x)))
  {
    ok := Put(w, U32Bytes(x), at, data);
  }

  method PutTwo(w: RecordWriter, x: u32, y: u32, ghost at: Place, ghost data: Bytes) returns (ok: bool)
    requires Holds(w, at, data) && |data| + 8 < U32_MODULUS
    modifies w
    ensures w.Ahead() == old(w.Ahead()) - if ok then 0 else 1
    ensures Began(w, at) && (ok ==> Holds(w, at, data + (U32Bytes(x) + U32Bytes(y))))
  {
    ok := PutU32(w, x, at, data);
    if !ok {
      return;
    }
    ok := PutU32(w, y, at, data + U32Bytes(x));
    assert data + (U32Bytes(x) + U32Bytes(y)) == data + U32Bytes(x) + U32Bytes(y);
  }

  /** Open a record and write its count. */
  method Begin(w: RecordWriter, ghost at: Place, tag: u32, version: u32, count: u32) returns (ok: bool)
    requires w.All() == at.done && tag == at.tag && version == at.version
    modifies w
    ensures w.Ahead() == old(w.Ahead()) - if ok then 0 else 1
    ensures Grew(w, at.done, tag) && (ok ==> Holds(w, at, U32Bytes(count)))
  {
    ok := w.OpenRecord(tag, version);
    if !ok {
      return;
    }
    ok := PutU32(w, count, at, []);
    assert [] + U32Bytes(count) == U32Bytes(count);
  }

  lemma CountedGrows<T>(n: nat, xs: seq<T>, x: T, f: T -> Bytes)
    ensures Counted(n, Flat(xs + [x], f)) == Counted(n, Flat(xs, f)) + f(x)
  {
    FlatAppend(xs, x, f);
    assert U32Bytes(n % U32_MODULUS) + (Flat(xs, f) + f(x)) == U32Bytes(n % U32_MODULUS) + Flat(xs, f) + f(x);
  }

  lemma CountedNothing<T>(n: nat, f: T -> Bytes)
    ensures Counted(n, Flat([], f)) == U32Bytes(n % U32_MODULUS)
  {
  }

  lemma CountedSize<T(!new)>(n: nat, xs: seq<T>, f: T -> Bytes, size: nat)
    requires forall x :: |f(x)| == size
    ensures |Counted(n, Flat(xs, f))| == 4 + size * |xs|
  {
    FlatSize(xs, f, size);
  }

  /** Part of an enumeration: distinct keys, none of which is still to come. */
  predicate Listed(order: seq<u32>, rest: set<u32>, keys: set<u32>) {
    && rest <= keys && |order| + |rest| == |keys|
    && (forall x | x in order :: x in keys && x !in rest)
    && (forall i, j | 0 <= i < j < |order| :: order[i] != order[j])
  }

  lemma ListOneMore(order: seq<u32>, rest: set<u32>, keys: set<u32>, x: u32)
    requires Listed(order, rest, keys) && x in rest
    ensures Listed(order + [x], rest - {x}, keys) && |order| < |keys|
  {
  }

  /** Count and pairs, in the order the container yields its keys. */
  method WritePairs(w: RecordWriter, tag: u32, version: u32, m: map<u32, u32>) returns (ok: bool, ghost order: seq<u32>)
    requires 4 + 8 * |m| < U32_MODULUS
    modifies w
    ensures w.Ahead() == old(w.Ahead()) - if ok then 0 else 1
    ensures Grew(w, old(w.All()), tag)
    ensures ok ==>
      && Enumerates(order, m.Keys)
      && Holds(w, Place(old(w.All()), tag, version), AmountsData(m, order))
  {
    hide Flat, Counted, U32Bytes;
    ghost var at := Place(w.All(), tag, version);
    order := [];
    ok := Begin(w, at, tag, version, |m|);
    if !ok {
      return;
    }
    CountedNothing(|m|, PairBytes(m));
    var rest := m.Keys;
    while rest != {}
      invariant Listed(order, rest, m.Keys)
      invariant w.Ahead() == old(w.Ahead())
      invariant Holds(w, at, Counted(|m|, Flat(order, PairBytes(m))))
    {
      var key :| key in rest;
      CountedSize(|m|, order, PairBytes(m), 8);
      CountedGrows(|m|, order, key, PairBytes(m));
      ListOneMore(order, rest, m.Keys, key);
      ok := PutTwo(w, key, m[key], at, Counted(|m|, Flat(order, PairBytes(m))));
      if !ok {
        return;
      }
      order := order + [key];
      rest := rest - {key};
    }
  }

  method WriteForms(w: RecordWriter, tag: u32, forms: set<FormId>) returns (ok: bool, ghost order: seq<FormId>)
    requires 4 + 4 * |forms| < U32_MODULUS
    modifies w
    ensures w.Ahead() == old(w.Ahead()) - if ok then 0 else 1
    ensures Grew(w, old(w.All()), tag)
    ensures ok ==>
      Enumerates(order, forms) && Holds(w, Place(old(w.All()), tag, SERIALIZATION_VERSION), FormsData(order))
  {
    hide Flat, Counted;
    ghost var at := Place(w.All(), tag, SERIALIZATION_VERSION);
    order := [];
    ok := Begin(w, at, tag, SERIALIZATION_VERSION, |forms|);
    if !ok {
      return;
    }
    CountedNothing(|forms|, U32Bytes);
    var rest := forms;
    while rest != {}
      invariant Listed(order, rest, forms)
      invariant w.Ahead() == old(w.Ahead())
      invariant Holds(w, at, Counted(|forms|, Flat(order, U32Bytes)))
    {
      var id :| id in rest;
      CountedSize(|forms|, order, U32Bytes, 4);
      CountedGrows(|forms|, order, id, U32Bytes);
      ListOneMore(order, rest, forms, id);
      ok := PutU32(w, id, at, Counted(|forms|, Flat(order, U32Bytes)));
      if !ok {
        return;
      }
      order := order + [id];
      rest := rest - {id};
    }
  }

  method PutTriple(w: RecordWriter, p: PerDiscipline, ghost at: Place, ghost data: Bytes) returns (ok: bool)
    requires Holds(w, at, data) && |data| + 12 < U32_MODULUS
    modifies w
    ensures w.Ahead() == old(w.Ahead()) - if ok then 0 else 1
    ensures Began(w, at) && (ok ==> Holds(w, at, data + TripleBytes(p)))
  {
    hide U32Bytes;
    ok := PutTwo(w, p.attack, p.defense, at, data);
    if !ok {
      return;
    }
    ok := PutU32(w, p.utility, at, data + (U32Bytes(p.attack) + U32Bytes(p.defense)));
    assert data + TripleBytes(p) == data + (U32Bytes(p.attack) + U32Bytes(p.defense)) + U32Bytes(p.utility);
  }

  method WriteBuildScoresRecord(w: RecordWriter, s: Loaded) returns (ok: bool)
    modifies w
    ensures w.Ahead() == old(w.Ahead()) - if ok then 0 else 1
    ensures Grew(w, old(w.All()), BSCR)
    ensures ok ==> Holds(w, Place(old(w.All()), BSCR, 2), TripleBytes(s.scores) + TripleBytes(s.points))
  {
    ghost var at := Place(w.All(), BSCR, 2);
    ok := w.OpenRecord(BSCR, 2);
    if !ok {
      return;
    }
    ok := PutTriple(w, s.scores, at, []);
    if !ok {
      return;
    }
    ok := PutTriple(w, s.points, at, [] + TripleBytes(s.scores));
    assert [] + TripleBytes(s.scores) == TripleBytes(s.scores);
  }

  method PutString(w: RecordWriter, text: string, ghost at: Place, ghost data: Bytes) returns (ok: bool)
    requires IsStorableText(text) && Holds(w, at, data) && |data| + |TextEntry(text)| < U32_MODULUS
    modifies w
    ensures w.Ahead() == old(w.Ahead()) - if ok then 0 else 1
    ensures Began(w, at) && (ok ==> Holds(w, at, data + TextEntry(text)))
  {
    ok := PutU32(w, |text|, at, data);
    if !ok {
      return;
    }
    if |text| == 0 {
      assert data + TextEntry(text) == data + U32Bytes(|text|);
      return;
    }
    ok := Put(w, TextBytes(text), at, data + U32Bytes(|text|));
    assert data + TextEntry(text) == data + U32Bytes(|text|) + TextBytes(text);
  }

  lemma CountedPrefix<T>(n: nat, xs: seq<T>, i: nat, f: T -> Bytes)
    requires i < |xs|
    ensures Counted(n, Flat(xs[..i + 1], f)) == Counted(n, Flat(xs[..i], f)) + f(xs[i])
    ensures |Counted(n, Flat(xs[..i], f))| + |f(xs[i])| <= |Counted(n, Flat(xs, f))|
  {
    FlatPrefix(xs, i, f);
    assert xs[..i + 1] == xs[..i] + [xs[i]];
    CountedGrows(n, xs[..i], xs[i], f);
  }

  method WriteBuildSlotsRecord(w: RecordWriter, s: Loaded) returns (ok: bool)
    requires Fits(s)
    modifies w
    ensures w.Ahead() == old(w.Ahead()) - if ok then 0 else 1
    ensures Grew(w, old(w.All()), BSLT)
    ensures ok ==> Holds(w, Place(old(w.All()), BSLT, 1), SlotsData(s))
  {
    var slots := s.slots;
    assert |Counted(|slots|, Flat(slots, TextEntry))| < U32_MODULUS && forall i: SlotId :: IsStorableText(slots[i]);
    hide Flat, Counted, TextEntry, Fits, IsStorableText;
    ghost var at := Place(w.All(), BSLT, 1);
    ok := Begin(w, at, BSLT, 1, |slots|);
    if !ok {
      return;
    }
    CountedNothing(|slots|, TextEntry);
    assert slots[..0] == [];
    for i := 0 to SLOT_COUNT
      invariant w.Ahead() == old(w.Ahead())
      invariant Holds(w, at, Counted(|slots|, Flat(slots[..i], TextEntry)))
    {
      CountedPrefix(|slots|, slots, i, TextEntry);
      ok := PutString(w, slots[i], at, Counted(|slots|, Flat(slots[..i], TextEntry)));
      if !ok {
        return;
      }
    }
    assert slots[..SLOT_COUNT] == slots;
  }

  method WriteBuildMigrationRecord(w: RecordWriter, s: Loaded) returns (ok: bool)
    modifies w
    ensures w.Ahead() == old(w.Ahead()) - if ok then 0 else 1
    ensures Grew(w, old(w.All()), BMIG)
    ensures ok ==> Holds(w, Place(old(w.All()), BMIG, 1), MigrationBytes(s))
  {
    hide U32Bytes;
    ghost var at := Place(w.All(), BMIG, 1);
    ok := w.OpenRecord(BMIG, 1);
    if !ok {
      return;
    }
    ok := PutTwo(w, s.migrationVersion, RawMigrationState(s.migrationState), at, []);
    if !ok {
      return;
    }
    ghost var data := [] + (U32Bytes(s.migrationVersion) + U32Bytes(RawMigrationState(s.migrationState)));
    ok := Put(w, [BoolByte(s.notice.needsNotice)], at, data);
    if !ok {
      return;
    }
    data := data + [BoolByte(s.notice.needsNotice)];
    ok := Put(w, [BoolByte(s.notice.legacyRewardsMigrated)], at, data);
    if !ok {
      return;
    }
    data := data + [BoolByte(s.notice.legacyRewardsMigrated)];
    ok := PutU32(w, s.notice.unresolved, at, data);
    assert MigrationBytes(s) == data + U32Bytes(s.notice.unresolved);
  }

  method PutContribution(w: RecordWriter, c: Option<Contribution>, ghost at: Place,
      ghost data: Bytes)
    returns (ok: bool)
    requires Holds(w, at, data) && |data| + 16 < U32_MODULUS
    modifies w
    ensures w.Ahead() == old(w.Ahead()) - if ok then 0 else 1
    ensures Began(w, at) && (ok ==> Holds(w, at, data + ContributionBytes(c)))
  {
    assert I32Bits(0) == 0;
    hide U32Bytes, RawDiscipline, I32Bits, RecordWriter.Ahead;
    var present: u32 := if c.Some? then 1 else 0;
    var discipline: u32 := if c.Some? then RawDiscipline(c.value.discipline) else 0;
    var recordDelta: i32 := if c.Some? then c.value.recordDelta else 0;
    var pointsDelta: i32 := if c.Some? then c.value.pointsDelta else 0;
    ok := PutTwo(w, present, discipline, at, data);
    if !ok {
      return;
    }
    ghost var first := U32Bytes(present) + U32Bytes(discipline);
    ghost var second := U32Bytes(I32Bits(recordDelta)) + U32Bytes(I32Bits(pointsDelta));
    ok := PutTwo(w, I32Bits(recordDelta), I32Bits(pointsDelta), at, data + first);
    assert ContributionBytes(c) == first + second;
    assert data + ContributionBytes(c) == data + first + second;
  }

  method PutUndoHeader(w: RecordWriter, r: UndoRecord<Float>, ghost at: Place, ghost data: Bytes) returns (ok: bool)
    requires Holds(w, at, data) && |data| + 40 < U32_MODULUS
    modifies w
    ensures w.Ahead() == old(w.Ahead()) - if ok then 0 else 1
    ensures Began(w, at) && (ok ==> Holds(w, at, data + UndoHeaderBytes(r)))
  {
    hide U32Bytes, U64Bytes, ContributionBytes;
    assert |U64Bytes(r.actionId)| == 8 && |ContributionBytes(r.contribution)| == 16;
    ok := Put(w, U64Bytes(r.actionId), at, data);
    if !ok {
      return;
    }
    ghost var d := data + U64Bytes(r.actionId);
    ok := PutTwo(w, r.formId, r.regKey, at, d);
    if !ok {
      return;
    }
    d := d + (U32Bytes(r.formId) + U32Bytes(r.regKey));
    ok := PutU32(w, r.group, at, d);
    if !ok {
      return;
    }
    d := d + U32Bytes(r.group);
    ok := PutContribution(w, r.contribution, at, d);
    if !ok {
      return;
    }
    d := d + ContributionBytes(r.contribution);
    ok := PutU32(w, |r.rewardDeltas| % U32_MODULUS, at, d);
    assert data + UndoHeaderBytes(r) == d + U32Bytes(|r.rewardDeltas| % U32_MODULUS);
  }

  lemma PrefixAfter<T>(header: Bytes, xs: seq<T>, i: nat, f: T -> Bytes)
    requires i < |xs|
    ensures header + Flat(xs[..i + 1], f) == header + Flat(xs[..i], f) + f(xs[i])
    ensures |header + Flat(xs[..i], f)| + |f(xs[i])| <= |header + Flat(xs, f)|
  {
    FlatPrefix(xs, i, f);
  }

  method PutUndoEntry(w: RecordWriter, r: UndoRecord<Float>, ghost at: Place, ghost data: Bytes) returns (ok: bool)
    requires Holds(w, at, data) && |data| + |UndoBytes(r)| < U32_MODULUS
    modifies w
    ensures w.Ahead() == old(w.Ahead()) - if ok then 0 else 1
    ensures Began(w, at) && (ok ==> Holds(w, at, data + UndoBytes(r)))
  {
    var ds := r.rewardDeltas;
    ghost var header := data + UndoHeaderBytes(r);
    assert data + UndoBytes(r) == header + Flat(ds, DeltaBytes);
    assert |header| == |data| + 40;
    hide U32Bytes, UndoHeaderBytes, UndoBytes;
    ok := PutUndoHeader(w, r, at, data);
    if !ok {
      return;
    }
    assert header + Flat(ds[..0], DeltaBytes) == header;
    hide Flat;
    for i := 0 to |ds|
      invariant w.Ahead() == old(w.Ahead())
      invariant Holds(w, at, header + Flat(ds[..i], DeltaBytes))
    {
      PrefixAfter(header, ds, i, DeltaBytes);
      ok := PutTwo(w, ds[i].av, ds[i].delta, at, header + Flat(ds[..i], DeltaBytes));
      if !ok {
        return;
      }
    }
    assert ds[..|ds|] == ds;
  }

  /** The entries of the history, behind what the record already holds. */
  method PutHistory(w: RecordWriter, history: seq<UndoRecord<Float>>, ghost at: Place, ghost header: Bytes)
    returns (ok: bool)
    requires Holds(w, at, header) && |header + Flat(history, UndoBytes)| < U32_MODULUS
    modifies w
    ensures w.Ahead() == old(w.Ahead()) - if ok then 0 else 1
    ensures Began(w, at) && (ok ==> Holds(w, at, header + Flat(history, UndoBytes)))
  {
    ok := true;
    assert header + Flat(history[..0], UndoBytes) == header;
    hide Flat, UndoBytes, RecordWriter.Ahead;
    for i := 0 to |history|
      invariant ok && w.Ahead() == old(w.Ahead())
      invariant Holds(w, at, header + Flat(history[..i], UndoBytes))
    {
      PrefixAfter(header, history, i, UndoBytes);
      ok := PutUndoEntry(w, history[i], at, header + Flat(history[..i], UndoBytes));
      if !ok {
        return;
      }
    }
    assert history[..|history|] == history;
  }

  method WriteUndoRecord(w: RecordWriter, s: Loaded) returns (ok: bool)
    requires Fits(s)
    modifies w
    ensures w.Ahead() == old(w.Ahead()) - if ok then 0 else 1
    ensures Grew(w, old(w.All()), UNDO)
    ensures ok ==> Holds(w, Place(old(w.All()), UNDO, UNDO_VERSION), UndoData(s))
  {
    ghost var at := Place(w.All(), UNDO, UNDO_VERSION);
    var history := s.undoHistory;
    ghost var header := U32Bytes(|history| % U32_MODULUS) + U64Bytes(s.nextActionId);
    assert UndoData(s) == header + Flat(history, UndoBytes) && |header| == 12;
    assert |UndoData(s)| < U32_MODULUS;
    hide U32Bytes, U64Bytes, UndoData, Fits, UndoBytes, Flat, RecordWriter.Ahead;
    ok := Begin(w, at, UNDO, UNDO_VERSION, |history| % U32_MODULUS);
    if !ok {
      return;
    }
    ok := Put(w, U64Bytes(s.nextActionId), at, U32Bytes(|history| % U32_MODULUS));
    if !ok {
      return;
    }
    ok := PutHistory(w, history, at, header);
  }

  // ---- The whole file ------------------------------------------------------------------------

  /** What one writer leaves: its record if nothing failed, else nothing or the beginning of it. */
  predicate IsPart(part: seq<Record>, ok: bool, record: Record) {
    |part| <= 1 && (ok ==> part == [record]) && (part != [] ==> part[0].tag == record.tag)
  }

  ghost predicate AreParts(parts: seq<seq<Record>>, oks: seq<bool>, records: seq<Record>) {
    |parts| == |oks| == |records| && forall i | 0 <= i < |records| :: IsPart(parts[i], oks[i], records[i])
  }

  function Joined(parts: seq<seq<Record>>): seq<Record> {
    if parts == [] then [] else parts[0] + Joined(parts[1..])
  }

  /**
   * Writers one after the other: each adds its part to the file, and each failed operation is one writer's. `ahead`
   * and `ahead'` are the failures still to come before and after them.
   */
  ghost predicate Wrote(before: seq<Record>, after: seq<Record>, ahead: nat, ahead': nat, parts: seq<seq<Record>>,
      oks: seq<bool>, records: seq<Record>)
  {
    AreParts(parts, oks, records) && after == before + Joined(parts) && ahead' == ahead - multiset(oks)[false]
  }

  lemma {:induction false} JoinedTwo(a: seq<seq<Record>>, b: seq<seq<Record>>)
    ensures Joined(a + b) == Joined(a) + Joined(b)
  {
    if a == [] {
      assert a + b == b;
    } else {
      assert (a + b)[0] == a[0] && (a + b)[1..] == a[1..] + b;
      JoinedTwo(a[1..], b);
    }
  }

  lemma PartsTwo(p: seq<seq<Record>>, q: seq<seq<Record>>, a: seq<bool>, b: seq<bool>, r: seq<Record>, s: seq<Record>)
    requires AreParts(p, a, r) && AreParts(q, b, s)
    ensures AreParts(p + q, a + b, r + s)
  {
    hide IsPart;
  }

  lemma FailuresTwo(a: seq<bool>, b: seq<bool>)
    ensures multiset(a + b)[false] == multiset(a)[false] + multiset(b)[false]
  {
  }

  lemma WroteThen(before: seq<Record>, mid: seq<Record>, after: seq<Record>, ahead: nat, ahead1: nat, ahead2: nat,
      p: seq<seq<Record>>, q: seq<seq<Record>>, a: seq<bool>, b: seq<bool>, r: seq<Record>, s: seq<Record>)
    requires Wrote(before, mid, ahead, ahead1, p, a, r) && Wrote(mid, after, ahead1, ahead2, q, b, s)
    ensures Wrote(before, after, ahead, ahead2, p + q, a + b, r + s)
  {
    PartsTwo(p, q, a, b, r, s);
    JoinedTwo(p, q);
    FailuresTwo(a, b);
    hide AreParts, Joined;
    assert before + Joined(p) + Joined(q) == before + (Joined(p) + Joined(q));
  }

  function PartOf(before: seq<Record>, after: seq<Record>): seq<Record> {
    if |before| <= |after| then after[|before|..] else []
  }

  /** What a writer promises makes it one of them. */
  lemma WriterWrote(w: RecordWriter, before: seq<Record>, ahead: nat, ok: bool, tag: u32, version: u32, data: Bytes)
    requires Grew(w, before, tag) && (ok ==> Holds(w, Place(before, tag, version), data))
    requires w.Ahead() == ahead - if ok then 0 else 1
    ensures Wrote(before, w.All(), ahead, w.Ahead(), [PartOf(before, w.All())], [ok],
                  [Stored(tag, version, data)])
  {
    var part := PartOf(before, w.All());
    assert [part][1..] == [] && Joined([part]) == part;
    assert multiset([ok])[false] == if ok then 0 else 1;
  }

  /** One writer's turn. */
  ghost predicate Added(before: seq<Record>, after: seq<Record>, ahead: nat, ahead': nat, ok: bool, record: Record) {
    Wrote(before, after, ahead, ahead', [PartOf(before, after)], [ok], [record])
  }

  method AddPairs(w: RecordWriter, tag: u32, version: u32, m: map<u32, u32>) returns (ok: bool, ghost order: seq<u32>)
    requires 4 + 8 * |m| < U32_MODULUS
    modifies w
    ensures Added(old(w.All()), w.All(), old(w.Ahead()), w.Ahead(), ok, Stored(tag, version, AmountsData(m, order)))
    ensures ok ==> Enumerates(order, m.Keys)
  {
    hide AmountsData, Enumerates, Wrote, Holds, Grew, PartOf, RecordWriter.All, RecordWriter.Ahead, Stored;
    ghost var before, ahead := w.All(), w.Ahead();
    ok, order := WritePairs(w, tag, version, m);
    WriterWrote(w, before, ahead, ok, tag, version, AmountsData(m, order));
  }

  method AddForms(w: RecordWriter, tag: u32, forms: set<FormId>) returns (ok: bool, ghost order: seq<FormId>)
    requires 4 + 4 * |forms| < U32_MODULUS
    modifies w
    ensures Added(old(w.All()), w.All(), old(w.Ahead()), w.Ahead(), ok,
                  Stored(tag, SERIALIZATION_VERSION, FormsData(order)))
    ensures ok ==> Enumerates(order, forms)
  {
    hide FormsData, Enumerates, Wrote, Holds, Grew, PartOf, RecordWriter.All, RecordWriter.Ahead, Stored;
    ghost var before, ahead := w.All(), w.Ahead();
    ok, order := WriteForms(w, tag, forms);
    WriterWrote(w, before, ahead, ok, tag, SERIALIZATION_VERSION, FormsData(order));
  }

  method AddUndoHistory(w: RecordWriter, s: Loaded) returns (ok: bool)
    requires Fits(s)
    modifies w
    ensures Added(old(w.All()), w.All(), old(w.Ahead()), w.Ahead(), ok, Stored(UNDO, UNDO_VERSION, UndoData(s)))
  {
    hide UndoData, Fits, Wrote, Holds, Grew, PartOf, RecordWriter.All, RecordWriter.Ahead, Stored;
    ghost var before, ahead := w.All(), w.Ahead();
    ok := WriteUndoRecord(w, s);
    WriterWrote(w, before, ahead, ok, UNDO, UNDO_VERSION, UndoData(s));
  }

  lemma AddedThree(all: seq<Record>, all1: seq<Record>, all2: seq<Record>, all3: seq<Record>,
      h: nat, h1: nat, h2: nat, h3: nat, a: bool, b: bool, c: bool, ra: Record, rb: Record, rc: Record)
    requires Added(all, all1, h, h1, a, ra) && Added(all1, all2, h1, h2, b, rb) && Added(all2, all3, h2, h3, c, rc)
    ensures Wrote(all, all3, h, h3, [PartOf(all, all1), PartOf(all1, all2), PartOf(all2, all3)], [a, b, c],
                  [ra, rb, rc])
  {
    hide Wrote, PartOf;
    var p, q, r := PartOf(all, all1), PartOf(all1, all2), PartOf(all2, all3);
    WroteThen(all, all1, all2, h, h1, h2, [p], [q], [a], [b], [ra], [rb]);
    WroteThen(all, all2, all3, h, h2, h3, [p] + [q], [r], [a] + [b], [c], [ra] + [rb], [rc]);
    assert [p] + [q] + [r] == [p, q, r] && [a] + [b] + [c] == [a, b, c] && [ra] + [rb] + [rc] == [ra, rb, rc];
  }

  method SaveForms(w: RecordWriter, s: Loaded)
    returns (oks: seq<bool>, ghost parts: seq<seq<Record>>, ghost registered: seq<FormId>, ghost blocked: seq<FormId>,
      ghost notified: seq<FormId>)
    requires Fits(s)
    modifies w
    ensures Wrote(old(w.All()), w.All(), old(w.Ahead()), w.Ahead(), parts, oks,
                  FormRecords(s, registered, blocked, notified))
    ensures |oks| == 3 && (oks[0] ==> Enumerates(registered, s.registered.Keys))
    ensures (oks[1] ==> Enumerates(blocked, s.blocked)) && (oks[2] ==> Enumerates(notified, s.notified))
  {
    FitsSizes(s);
    hide Flat, Counted, PairBytes, Enumerates, Fits, Wrote, Added, PartOf, Stored, RecordWriter.All, RecordWriter.Ahead;
    var ok1, ok2, ok3;
    ghost var all, h := w.All(), w.Ahead();
    ok1, registered := AddPairs(w, REGI, SERIALIZATION_VERSION, s.registered);
    ghost var all1, h1 := w.All(), w.Ahead();
    ok2, blocked := AddForms(w, BLCK, s.blocked);
    ghost var all2, h2 := w.All(), w.Ahead();
    ok3, notified := AddForms(w, NTFY, s.notified);
    ghost var records := FormRecords(s, registered, blocked, notified);
    AddedThree(all, all1, all2, w.All(), h, h1, h2, w.Ahead(), ok1, ok2, ok3, records[0], records[1], records[2]);
    oks, parts := [ok1, ok2, ok3], [PartOf(all, all1), PartOf(all1, all2), PartOf(all2, w.All())];
  }

  method SaveBuild(w: RecordWriter, s: Loaded) returns (oks: seq<bool>, ghost parts: seq<seq<Record>>)
    requires Fits(s)
    modifies w
    ensures Wrote(old(w.All()), w.All(), old(w.Ahead()), w.Ahead(), parts, oks, BuildRecords(s)) && |oks| == 3
  {
    hide SlotsData, MigrationBytes, TripleBytes, Fits, Wrote, Holds, Grew, PartOf, Stored, RecordWriter.All,
         RecordWriter.Ahead;
    ghost var all, h, records := w.All(), w.Ahead(), BuildRecords(s);
    var ok1 := WriteBuildScoresRecord(w, s);
    ghost var all1, h1 := w.All(), w.Ahead();
    WriterWrote(w, all, h, ok1, BSCR, 2, TripleBytes(s.scores) + TripleBytes(s.points));
    var ok2 := WriteBuildSlotsRecord(w, s);
    ghost var all2, h2 := w.All(), w.Ahead();
    WriterWrote(w, all1, h1, ok2, BSLT, 1, SlotsData(s));
    var ok3 := WriteBuildMigrationRecord(w, s);
    WriterWrote(w, all2, h2, ok3, BMIG, 1, MigrationBytes(s));
    AddedThree(all, all1, all2, w.All(), h, h1, h2, w.Ahead(), ok1, ok2, ok3, records[0], records[1], records[2]);
    oks, parts := [ok1, ok2, ok3], [PartOf(all, all1), PartOf(all1, all2), PartOf(all2, w.All())];
  }

  method SaveAmounts(w: RecordWriter, s: Loaded)
    returns (oks: seq<bool>, ghost parts: seq<seq<Record>>, ghost effects: seq<ActorValue>,
      ghost rewards: seq<ActorValue>)
    requires Fits(s)
    modifies w
    ensures Wrote(old(w.All()), w.All(), old(w.Ahead()), w.Ahead(), parts, oks, AmountRecords(s, effects, rewards))
    ensures |oks| == 3 && (oks[0] ==> Enumerates(effects, s.buildApplied.Keys))
    ensures oks[1] ==> Enumerates(rewards, s.rewardTotals.Keys)
  {
    FitsSizes(s);
    hide AmountsData, UndoData, Enumerates, Fits, Wrote, Added, PartOf, Stored, RecordWriter.All, RecordWriter.Ahead;
    var ok1, ok2;
    ghost var all, h := w.All(), w.Ahead();
    ok1, effects := AddPairs(w, BEFX, 1, s.buildApplied);
    ghost var all1, h1 := w.All(), w.Ahead();
    ok2, rewards := AddPairs(w, RWDS, SERIALIZATION_VERSION, s.rewardTotals);
    ghost var all2, h2 := w.All(), w.Ahead();
    var ok3 := AddUndoHistory(w, s);
    ghost var records := AmountRecords(s, effects, rewards);
    AddedThree(all, all1, all2, w.All(), h, h1, h2, w.Ahead(), ok1, ok2, ok3, records[0], records[1], records[2]);
    oks, parts := [ok1, ok2, ok3], [PartOf(all, all1), PartOf(all1, all2), PartOf(all2, w.All())];
  }

  /** The orders of the containers whose writers met no failure. */
  predicate IsLayoutWhere(l: Layout, s: Loaded, oks: seq<bool>)
    requires |oks| == 9
  {
    && (oks[0] ==> Enumerates(l.registered, s.registered.Keys)) && (oks[1] ==> Enumerates(l.blocked, s.blocked))
    && (oks[2] ==> Enumerates(l.notified, s.notified))
    && (oks[6] ==> Enumerates(l.effects, s.buildApplied.Keys))
    && (oks[7] ==> Enumerates(l.rewards, s.rewardTotals.Keys))
  }

  /** All nine writers run, whatever the others report: each failed operation costs one record and no other. */
  method Save(w: RecordWriter, s: Loaded)
    returns (allOk: bool, ghost layout: Layout, ghost oks: seq<bool>, ghost parts: seq<seq<Record>>)
    requires Fits(s) && w.All() == []
    modifies w
    ensures Wrote([], w.All(), old(w.Ahead()), w.Ahead(), parts, oks, SavedFile(s, layout))
    ensures |oks| == 9 && IsLayoutWhere(layout, s, oks)
    ensures allOk <==> w.Ahead() == old(w.Ahead())
    ensures allOk ==> IsLayout(layout, s) && w.All() == SavedFile(s, layout)
  {
    ghost var h := w.Ahead();
    hide FormRecords, BuildRecords, AmountRecords, Enumerates, Fits, Wrote, Joined, AreParts, Flat, Counted,
         RecordWriter.All, RecordWriter.Ahead, Stored;
    ghost var formParts, registered, blocked, notified, buildParts, amountParts, effects, rewards;
    var formOks, buildOks, amountOks;
    formOks, formParts, registered, blocked, notified := SaveForms(w, s);
    ghost var all1, h1 := w.All(), w.Ahead();
    buildOks, buildParts := SaveBuild(w, s);
    ghost var all2, h2 := w.All(), w.Ahead();
    amountOks, amountParts, effects, rewards := SaveAmounts(w, s);
    allOk := false !in formOks && false !in buildOks && false !in amountOks;
    layout := Layout(registered, blocked, notified, effects, rewards);
    oks, parts := formOks + buildOks + amountOks, formParts + buildParts + amountParts;
    WroteNine(all1, all2, w.All(), h, h1, h2, w.Ahead(), formParts, buildParts, amountParts, formOks, buildOks,
              amountOks, s, layout);
    FaultlessIsWhole(w.All(), h, w.Ahead(), parts, oks, SavedFile(s, layout));
    OkLayout(layout, s, formOks, buildOks, amountOks);
  }

  lemma WroteNine(all1: seq<Record>, all2: seq<Record>, all3: seq<Record>, h: nat, h1: nat, h2: nat, h3: nat,
      p: seq<seq<Record>>, q: seq<seq<Record>>, r: seq<seq<Record>>, a: seq<bool>, b: seq<bool>, c: seq<bool>,
      s: Loaded, l: Layout)
    requires Wrote([], all1, h, h1, p, a, FormRecords(s, l.registered, l.blocked, l.notified))
    requires Wrote(all1, all2, h1, h2, q, b, BuildRecords(s))
    requires Wrote(all2, all3, h2, h3, r, c, AmountRecords(s, l.effects, l.rewards))
    ensures Wrote([], all3, h, h3, p + q + r, a + b + c, SavedFile(s, l))
  {
    hide FormRecords, BuildRecords, AmountRecords, Wrote;
    var forms, build := FormRecords(s, l.registered, l.blocked, l.notified), BuildRecords(s);
    WroteThen([], all1, all2, h, h1, h2, p, q, a, b, forms, build);
    WroteThen([], all2, all3, h, h2, h3, p + q, r, a + b, c, forms + build, AmountRecords(s, l.effects, l.rewards));
  }

  lemma OkLayout(l: Layout, s: Loaded, a: seq<bool>, b: seq<bool>, c: seq<bool>)
    requires |a| == |b| == |c| == 3
    requires (a[0] ==> Enumerates(l.registered, s.registered.Keys)) && (a[1] ==> Enumerates(l.blocked, s.blocked))
    requires a[2] ==> Enumerates(l.notified, s.notified)
    requires c[0] ==> Enumerates(l.effects, s.buildApplied.Keys)
    requires c[1] ==> Enumerates(l.rewards, s.rewardTotals.Keys)
    ensures IsLayoutWhere(l, s, a + b + c)
    ensures false !in a + b + c <==> false !in a && false !in b && false !in c
    ensures false !in a + b + c ==> IsLayout(l, s)
  {
    hide Enumerates;
    assert a[0] in a && a[1] in a && a[2] in a && c[0] in c && c[1] in c;
  }

  /** Without a failure the file is the records. */
  lemma FaultlessIsWhole(all: seq<Record>, h: nat, h': nat, parts: seq<seq<Record>>, oks: seq<bool>,
      records: seq<Record>)
    requires Wrote([], all, h, h', parts, oks, records)
    ensures false !in oks <==> h' == h
    ensures false !in oks ==> all == records
  {
    assert false in oks <==> false in multiset(oks);
    if false !in oks {
      WholeParts(parts, oks, records);
    }
  }

  lemma {:induction false} WholeParts(parts: seq<seq<Record>>, oks: seq<bool>, records: seq<Record>)
    requires AreParts(parts, oks, records) && false !in oks
    ensures Joined(parts) == records
  {
    if parts != [] {
      assert oks[0];
      WholeParts(parts[1..], oks[1..], records[1..]);
    }
  }

  lemma FitsSizes(s: Loaded)
    requires Fits(s)
    ensures 4 + 8 * |s.registered| < U32_MODULUS
    ensures 4 + 4 * |s.blocked| < U32_MODULUS && 4 + 4 * |s.notified| < U32_MODULUS
    ensures 4 + 8 * |s.buildApplied| < U32_MODULUS && 4 + 8 * |s.rewardTotals| < U32_MODULUS
  {
  }
}
