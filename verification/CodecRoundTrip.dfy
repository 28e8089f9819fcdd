// Loading what was saved: the snapshot comes back after exactly the filters the loader documents.
module CodecRoundTrip {
  import opened ActorValues
  import opened Bytes
  import opened Catalog
  import opened CodecFormat
  import CodecLoad
  import opened CodecSave
  import Migration
  import Registration
  import opened State

  /** Form ids that mean the same after the load as before it. */
  function Identity(): Resolve { (id: FormId) => Some(id) }

  // ---- The filters -------------------------------------------------------------------------

  /** The supported ones among `keys`, each clamped to its cap. */
  function KeptAmounts(kind: AmountKind, keys: seq<ActorValue>, m: map<ActorValue, Float>): map<ActorValue, Float> {
    map av | av in keys && av in m && IsSupported(kind, av) :: ClampBits(av, m[av])
  }

  function FirstRewards(order: seq<ActorValue>): seq<ActorValue> {
    if |order| > MAX_REWARD_ENTRIES then order[..MAX_REWARD_ENTRIES] else order
  }

  function CutSlot(text: string): string { if |text| > MAX_SLOT_TEXT then text[..MAX_SLOT_TEXT] else text }

  function CutSlots(slots: Slots): Slots {
    seq(SLOT_COUNT, i requires 0 <= i < SLOT_COUNT => CutSlot(slots[i]))
  }

  /** The first 64 deltas, without those of unsupported actor values. */
  function KeptDeltas(ds: seq<RewardDelta<Float>>, from: nat): seq<RewardDelta<Float>>
    decreases |ds|
  {
    if ds == [] then [] else KeptDelta(ds[0].av, ds[0].delta, from) + KeptDeltas(ds[1..], from + 1)
  }

  function Recoded(c: Option<Contribution>): Option<Contribution> {
    match c
    case None => None
    case Some(x) => Some(x.(discipline := DisciplineOf(RawDiscipline(x.discipline))))
  }

  function KeptRecord(r: UndoRecord<Float>): UndoRecord<Float> {
    r.(contribution := Recoded(r.contribution), rewardDeltas := KeptDeltas(r.rewardDeltas, 0))
  }

  function KeptRecords(h: seq<UndoRecord<Float>>): (r: seq<UndoRecord<Float>>)
    ensures |r| == |h|
    decreases |h|
  {
    if h == [] then [] else [KeptRecord(h[0])] + KeptRecords(h[1..])
  }

  function KeptHistory(h: seq<UndoRecord<Float>>): seq<UndoRecord<Float>> {
    Registration.Last(KeptRecords(h), Registration.UNDO_LIMIT)
  }

  /** What a save and a load leave of a snapshot, before it is normalised. */
  function Filtered(s: Loaded, l: Layout): Loaded {
    s.(rewardTotals := KeptAmounts(RewardTotal, FirstRewards(l.rewards), s.rewardTotals),
       buildApplied := KeptAmounts(BuildEffect, l.effects, s.buildApplied),
       slots := CutSlots(s.slots),
       migrationState := MigrationStateOf(RawMigrationState(s.migrationState)),
       undoHistory := KeptHistory(s.undoHistory),
       nextActionId := NextActionId(s.nextActionId, KeptHistory(s.undoHistory)))
  }

  // ---- Enumerations ------------------------------------------------------------------------

  function SetOf(xs: seq<u32>): set<u32> { set x | x in xs }

  lemma {:induction false} DistinctSize(xs: seq<u32>)
    requires Distinct(xs)
    ensures |SetOf(xs)| == |xs|
  {
    if xs != [] {
      var front := xs[..|xs| - 1];
      DistinctSize(front);
      assert SetOf(xs) == SetOf(front) + {xs[|xs| - 1]};
    }
  }

  lemma SubsetOfSameSize(a: set<u32>, b: set<u32>)
    requires a <= b && |a| == |b|
    ensures a == b
  {
    assert |b - a| == |b| - |a|;
  }

  lemma EnumeratesAll(order: seq<u32>, keys: set<u32>)
    requires Enumerates(order, keys)
    ensures SetOf(order) == keys
  {
    DistinctSize(order);
    SubsetOfSameSize(SetOf(order), keys);
  }

  // ---- Record by record --------------------------------------------------------------------

  lemma HoldsPair(d: Bytes, pos: nat, m: map<u32, u32>, key: u32, rest: Bytes)
    requires HoldsAt(d, pos, PairBytes(m)(key) + rest)
    ensures Has(d, pos, 8) && U32At(d, pos) == key && U32At(d, pos + 4) == Lookup(m, key) && HoldsAt(d, pos + 8, rest)
  {
    HoldsSplit(d, pos, PairBytes(m)(key), rest);
    HoldsSplit(d, pos, U32Bytes(key), U32Bytes(Lookup(m, key)));
    U32ReadsBack(d, pos, key);
    U32ReadsBack(d, pos + 4, Lookup(m, key));
  }

  lemma HoldsCounted(d: Bytes, n: nat, body: Bytes)
    requires d == Counted(n, body) && n < U32_MODULUS
    ensures Has(d, 0, 4) && U32At(d, 0) == n && HoldsAt(d, 4, body) && |d| == 4 + |body|
  {
    assert HoldsAt(d, 0, U32Bytes(n) + body) by {
      assert d[0..|d|] == d;
    }
    HoldsSplit(d, 0, U32Bytes(n), body);
    U32ReadsBack(d, 0, n);
  }

  function Restricted(m: map<u32, u32>, xs: seq<u32>): map<u32, u32> { map x | x in xs && x in m :: m[x] }

  lemma RestrictOneMore(acc: map<u32, u32>, xs: seq<u32>, m: map<u32, u32>)
    requires xs != [] && xs[0] in m && xs[0] !in acc && xs[0] !in xs[1..]
    ensures acc[xs[0] := m[xs[0]]] + Restricted(m, xs[1..]) == acc + Restricted(m, xs)
  {
    var a := acc[xs[0] := m[xs[0]]] + Restricted(m, xs[1..]);
    var b := acc + Restricted(m, xs);
    assert forall x | x in xs :: x == xs[0] || x in xs[1..];
    assert a.Keys == b.Keys;
    forall k | k in a ensures a[k] == b[k] {
    }
  }

  predicate Distinct(xs: seq<u32>) { forall i, j | 0 <= i < j < |xs| :: xs[i] != xs[j] }

  lemma DistinctTail(xs: seq<u32>)
    requires xs != [] && Distinct(xs)
    ensures Distinct(xs[1..]) && xs[0] !in xs[1..]
  {
  }

  lemma {:induction false} RegisteredReadsBack(d: Bytes, pos: nat, xs: seq<FormId>, m: map<FormId, u32>,
      acc: map<FormId, u32>)
    requires HoldsAt(d, pos, Flat(xs, PairBytes(m))) && Distinct(xs)
    requires forall x | x in xs :: x in m && x !in acc
    ensures RegisteredEntries(d, pos, |xs|, true, Identity(), acc) == Some(acc + Restricted(m, xs))
    decreases |xs|
  {
    hide PairBytes, U32At, HoldsAt, Distinct, Restricted;
    if xs == [] {
      NothingRestricted(acc, m);
    } else {
      HoldsPair(d, pos, m, xs[0], Flat(xs[1..], PairBytes(m)));
      DistinctTail(xs);
      assert xs[0] in xs && forall x | x in xs[1..] :: x in xs;
      RegisteredReadsBack(d, pos + 8, xs[1..], m, acc[xs[0] := m[xs[0]]]);
      RestrictOneMore(acc, xs, m);
    }
  }

  lemma NothingRestricted(acc: map<u32, u32>, m: map<u32, u32>)
    ensures acc + Restricted(m, []) == acc
  {
  }

  lemma {:induction false} FormsReadBack(d: Bytes, pos: nat, xs: seq<FormId>, acc: set<FormId>)
    requires HoldsAt(d, pos, Flat(xs, U32Bytes))
    ensures FormEntries(d, pos, |xs|, Identity(), acc) == Some(acc + SetOf(xs))
    decreases |xs|
  {
    hide U32At, HoldsAt;
    if xs == [] {
      assert acc + SetOf(xs) == acc;
    } else {
      HoldsSplit(d, pos, U32Bytes(xs[0]), Flat(xs[1..], U32Bytes));
      U32ReadsBack(d, pos, xs[0]);
      HoldsRoom(d, pos, U32Bytes(xs[0]));
      FormsReadBack(d, pos + 4, xs[1..], acc + {xs[0]});
      assert acc + {xs[0]} + SetOf(xs[1..]) == acc + SetOf(xs);
    }
  }

  lemma HoldsRoom(d: Bytes, pos: nat, part: Bytes)
    requires HoldsAt(d, pos, part)
    ensures Has(d, pos, |part|)
  {
  }

  lemma {:induction false} AmountsReadBack(d: Bytes, pos: nat, xs: seq<ActorValue>, rest: Bytes, kind: AmountKind,
      m: map<ActorValue, Float>, acc: map<ActorValue, Float>)
    requires HoldsAt(d, pos, Flat(xs, PairBytes(m)) + rest)
    requires forall x | x in xs :: x in m
    ensures AmountEntries(d, pos, |xs|, kind, acc) == Some(acc + KeptAmounts(kind, xs, m))
    decreases |xs|
  {
    hide PairBytes, U32At, HoldsAt, IsSupported, ClampBits;
    if xs == [] {
      assert acc + KeptAmounts(kind, xs, m) == acc;
    } else {
      assert Flat(xs, PairBytes(m)) + rest == PairBytes(m)(xs[0]) + (Flat(xs[1..], PairBytes(m)) + rest);
      HoldsPair(d, pos, m, xs[0], Flat(xs[1..], PairBytes(m)) + rest);
      var acc' := Assigned(acc, kind, xs[0], m[xs[0]]);
      AmountsReadBack(d, pos + 8, xs[1..], rest, kind, m, acc');
      AssignOneMore(acc, kind, xs, m);
    }
  }

  lemma AssignOneMore(acc: map<ActorValue, Float>, kind: AmountKind, xs: seq<ActorValue>, m: map<ActorValue, Float>)
    requires xs != [] && forall x | x in xs :: x in m
    ensures Assigned(acc, kind, xs[0], m[xs[0]]) + KeptAmounts(kind, xs[1..], m) == acc + KeptAmounts(kind, xs, m)
  {
    hide IsSupported, ClampBits;
    var a := Assigned(acc, kind, xs[0], m[xs[0]]) + KeptAmounts(kind, xs[1..], m);
    var b := acc + KeptAmounts(kind, xs, m);
    assert forall x | x in xs :: x == xs[0] || x in xs[1..];
    assert a.Keys == b.Keys;
    forall k | k in a ensures a[k] == b[k] {
    }
  }

  /** A stored count-and-entries record, as its reader first sees it. */
  lemma CountedRecord(tag: u32, version: u32, n: nat, body: Bytes, size: nat)
    requires (size == 4 || size == 8) && |body| == size * n && 4 + |body| < U32_MODULUS && n < U32_MODULUS
    ensures var r := Stored(tag, version, Counted(n, body));
      && r.tag == tag && r.version == version && r.length == 4 + |body| && Has(r.data, 0, 4)
      && U32At(r.data, 0) == n && HoldsAt(r.data, 4, body) && ReadableCount(n, r.length - 4, size) == n
  {
    HoldsCounted(Counted(n, body), n, body);
    StoredIsWhole(tag, version, Counted(n, body));
    DivideExactly(n, size);
    hide U32At, HoldsAt;
  }

  lemma DivideExactly(n: nat, size: nat)
    requires size == 4 || size == 8
    ensures size * n / size == n
  {
    if size == 4 {
      assert 4 * n / 4 == n;
    } else {
      assert 8 * n / 8 == n;
    }
  }

  lemma EnumeratesDistinct(order: seq<u32>, keys: set<u32>)
    requires Enumerates(order, keys)
    ensures Distinct(order) && |order| == |keys|
    ensures forall x | x in order :: x in keys
  {
  }

  lemma RestrictedToAll(m: map<u32, u32>, order: seq<u32>)
    requires Enumerates(order, m.Keys)
    ensures map[] + Restricted(m, order) == m
  {
    EnumeratesAll(order, m.Keys);
    assert forall x | x in m :: x in SetOf(order);
  }

  lemma SavedRegistered(t: Loaded, s: Loaded, order: seq<FormId>)
    requires Enumerates(order, s.registered.Keys) && 4 + 8 * |s.registered| < U32_MODULUS && t.registered == map[]
    ensures HandleRegistered(t, Stored(REGI, SERIALIZATION_VERSION, RegisteredData(s, order)), Identity())
      == Some(t.(registered := s.registered))
  {
    EnumeratesDistinct(order, s.registered.Keys);
    FlatSize(order, PairBytes(s.registered), 8);
    var body := Flat(order, PairBytes(s.registered));
    CountedRecord(REGI, SERIALIZATION_VERSION, |order|, body, 8);
    var r := Stored(REGI, SERIALIZATION_VERSION, Counted(|order|, body));
    assert r == Stored(REGI, SERIALIZATION_VERSION, RegisteredData(s, order));
    hide Stored, Counted, RegisteredData, Flat, PairBytes, HoldsAt, Has, U32At, ReadableCount, Enumerates, Distinct,
         Restricted, Identity, RegisteredEntries;
    RegisteredReadsBack(r.data, 4, order, s.registered, map[]);
    RestrictedToAll(s.registered, order);
  }

  lemma SavedForms(t: Loaded, tag: u32, order: seq<FormId>, forms: set<FormId>)
    requires Enumerates(order, forms) && 4 + 4 * |forms| < U32_MODULUS && tag in {BLCK, NTFY}
    requires (if tag == BLCK then t.blocked else t.notified) == {}
    ensures HandleForms(t, Stored(tag, SERIALIZATION_VERSION, FormsData(order)), Identity())
         == Some(if tag == BLCK then t.(blocked := forms) else t.(notified := forms))
  {
    EnumeratesDistinct(order, forms);
    EnumeratesAll(order, forms);
    FlatSize(order, U32Bytes, 4);
    var body := Flat(order, U32Bytes);
    CountedRecord(tag, SERIALIZATION_VERSION, |order|, body, 4);
    var r := Stored(tag, SERIALIZATION_VERSION, Counted(|order|, body));
    assert r == Stored(tag, SERIALIZATION_VERSION, FormsData(order));
    hide Stored, Counted, FormsData, Flat, U32Bytes, HoldsAt, Has, U32At, ReadableCount, Enumerates, Distinct, SetOf,
         Identity, FormEntries;
    FormsReadBack(r.data, 4, order, {});
    assert {} + SetOf(order) == forms;
  }

  lemma NothingPlus(m: map<u32, u32>)
    ensures map[] + m == m
  {
  }

  lemma SavedEffects(t: Loaded, s: Loaded, order: seq<ActorValue>)
    requires Enumerates(order, s.buildApplied.Keys) && 4 + 8 * |s.buildApplied| < U32_MODULUS && t.buildApplied == map[]
    ensures HandleEffects(t, Stored(BEFX, 1, AmountsData(s.buildApplied, order)))
         == Some(t.(buildApplied := KeptAmounts(BuildEffect, order, s.buildApplied)))
  {
    EnumeratesDistinct(order, s.buildApplied.Keys);
    FlatSize(order, PairBytes(s.buildApplied), 8);
    var body := Flat(order, PairBytes(s.buildApplied));
    CountedRecord(BEFX, 1, |order|, body, 8);
    var r := Stored(BEFX, 1, Counted(|order|, body));
    assert r == Stored(BEFX, 1, AmountsData(s.buildApplied, order)) && body + [] == body;
    hide Stored, Counted, AmountsData, Flat, PairBytes, HoldsAt, Has, U32At, ReadableCount, Enumerates, Distinct,
         KeptAmounts, AmountEntries;
    AmountsReadBack(r.data, 4, order, [], BuildEffect, s.buildApplied, map[]);
    NothingPlus(KeptAmounts(BuildEffect, order, s.buildApplied));
  }

  lemma SavedRewards(t: Loaded, s: Loaded, order: seq<ActorValue>)
    requires Enumerates(order, s.rewardTotals.Keys) && 4 + 8 * |s.rewardTotals| < U32_MODULUS && t.rewardTotals == map[]
    ensures HandleRewards(t, Stored(RWDS, SERIALIZATION_VERSION, AmountsData(s.rewardTotals, order)))
         == Some(t.(rewardTotals := KeptAmounts(RewardTotal, FirstRewards(order), s.rewardTotals)))
  {
    EnumeratesDistinct(order, s.rewardTotals.Keys);
    FlatSize(order, PairBytes(s.rewardTotals), 8);
    var body := Flat(order, PairBytes(s.rewardTotals));
    CountedRecord(RWDS, SERIALIZATION_VERSION, |order|, body, 8);
    var r := Stored(RWDS, SERIALIZATION_VERSION, Counted(|order|, body));
    assert r == Stored(RWDS, SERIALIZATION_VERSION, AmountsData(s.rewardTotals, order));
    var first := FirstRewards(order);
    var rest := order[|first|..];
    assert order == first + rest && |first| == MinInt(|order|, MAX_REWARD_ENTRIES);
    FlatConcat(first, rest, PairBytes(s.rewardTotals));
    hide Stored, Counted, AmountsData, Flat, PairBytes, HoldsAt, Has, U32At, ReadableCount, Enumerates, Distinct,
         KeptAmounts, FirstRewards, AmountEntries;
    AmountsReadBack(r.data, 4, first, Flat(rest, PairBytes(s.rewardTotals)), RewardTotal, s.rewardTotals, map[]);
    NothingPlus(KeptAmounts(RewardTotal, first, s.rewardTotals));
  }

  lemma TripleReadsBack(d: Bytes, pos: nat, p: PerDiscipline)
    requires HoldsAt(d, pos, TripleBytes(p))
    ensures Has(d, pos, 12) && TripleAt(d, pos) == p
  {
    HoldsSplit(d, pos, U32Bytes(p.attack) + U32Bytes(p.defense), U32Bytes(p.utility));
    HoldsSplit(d, pos, U32Bytes(p.attack), U32Bytes(p.defense));
    U32ReadsBack(d, pos, p.attack);
    U32ReadsBack(d, pos + 4, p.defense);
    U32ReadsBack(d, pos + 8, p.utility);
  }

  lemma SavedScores(t: Loaded, s: Loaded)
    ensures HandleScores(t, Stored(BSCR, 2, TripleBytes(s.scores) + TripleBytes(s.points)))
      == Some(t.(scores := s.scores, points := s.points))
  {
    var d := TripleBytes(s.scores) + TripleBytes(s.points);
    assert HoldsAt(d, 0, d) by { assert d[0..|d|] == d; }
    HoldsSplit(d, 0, TripleBytes(s.scores), TripleBytes(s.points));
    TripleReadsBack(d, 0, s.scores);
    TripleReadsBack(d, 12, s.points);
    assert |d| == 24;
    hide TripleBytes, TripleAt;
  }

  lemma MigrationReadsBack(s: Loaded)
    ensures var d := MigrationBytes(s);
      && U32At(d, 0) == s.migrationVersion && U32At(d, 4) == RawMigrationState(s.migrationState)
      && d[8] == BoolByte(s.notice.needsNotice) && d[9] == BoolByte(s.notice.legacyRewardsMigrated)
      && U32At(d, 10) == s.notice.unresolved
  {
    var d := MigrationBytes(s);
    var head := U32Bytes(s.migrationVersion) + U32Bytes(RawMigrationState(s.migrationState));
    var flags := [BoolByte(s.notice.needsNotice), BoolByte(s.notice.legacyRewardsMigrated)];
    var tail := U32Bytes(s.notice.unresolved);
    assert HoldsAt(d, 0, head + flags + tail) by { assert d[0..|d|] == d; }
    HoldsSplit(d, 0, head + flags, tail);
    HoldsSplit(d, 0, head, flags);
    HoldsSplit(d, 0, U32Bytes(s.migrationVersion), U32Bytes(RawMigrationState(s.migrationState)));
    U32ReadsBack(d, 0, s.migrationVersion);
    U32ReadsBack(d, 4, RawMigrationState(s.migrationState));
    U32ReadsBack(d, 10, s.notice.unresolved);
    assert d[8..10] == flags;
    assert d[8] == d[8..10][0] && d[9] == d[8..10][1];
  }

  lemma SavedMigration(t: Loaded, s: Loaded)
    ensures HandleMigration(t, Stored(BMIG, 1, MigrationBytes(s)))
         == Some(t.(migrationVersion := s.migrationVersion,
                    migrationState := MigrationStateOf(RawMigrationState(s.migrationState)), notice := s.notice))
  {
    MigrationReadsBack(s);
    assert |MigrationBytes(s)| == MIGRATION_SIZE;
    hide MigrationBytes, U32At;
  }

  // ---- Slots -------------------------------------------------------------------------------

  lemma CutTextOfText(text: string)
    requires IsByteText(text)
    ensures CutText(TextBytes(text)) == CutSlot(text)
  {
    TextReadsBack(text);
    if |text| > MAX_SLOT_TEXT {
      assert TextBytes(text)[..MAX_SLOT_TEXT] == TextBytes(text[..MAX_SLOT_TEXT]);
      TextReadsBack(text[..MAX_SLOT_TEXT]);
    }
  }

  lemma TextEntryReadsBack(d: Bytes, pos: nat, remaining: nat, text: string, rest: Bytes)
    requires IsStorableText(text) && HoldsAt(d, pos, TextEntry(text) + rest) && remaining == |TextEntry(text)| + |rest|
    ensures TextLengthAt(d, pos, remaining) == Some(|text|) && Has(d, pos + 4, |text|)
    ensures CutText(d[pos + 4..pos + 4 + |text|]) == CutSlot(text)
    ensures HoldsAt(d, pos + 4 + |text|, rest) && |rest| == remaining - 4 - |text|
  {
    HoldsSplit(d, pos, TextEntry(text), rest);
    HoldsSplit(d, pos, U32Bytes(|text|), TextBytes(text));
    U32ReadsBack(d, pos, |text|);
    CutTextOfText(text);
    hide U32At, CutText, CutSlot;
  }

  lemma {:induction false} SlotsReadBack(d: Bytes, pos: nat, remaining: nat, texts: Slots, i: nat, acc: Slots)
    requires i <= SLOT_COUNT && forall j: SlotId :: IsStorableText(texts[j])
    requires HoldsAt(d, pos, Flat(texts[i..], TextEntry)) && remaining == |Flat(texts[i..], TextEntry)|
    requires forall j: SlotId | j < i :: acc[j] == CutSlot(texts[j])
    ensures SlotTexts(d, pos, remaining, i, SLOT_COUNT, acc) == Some(CutSlots(texts))
    decreases SLOT_COUNT - i
  {
    hide TextEntry, IsStorableText, CutSlot, CutText, HoldsAt, TextLengthAt;
    if i == SLOT_COUNT {
      assert acc == CutSlots(texts);
    } else {
      assert texts[i..][0] == texts[i] && texts[i..][1..] == texts[i + 1..];
      var rest := Flat(texts[i + 1..], TextEntry);
      TextEntryRoom(texts[i]);
      TextEntryReadsBack(d, pos, remaining, texts[i], rest);
      SlotsReadBack(d, pos + 4 + |texts[i]|, |rest|, texts, i + 1, acc[i := CutSlot(texts[i])]);
    }
  }

  lemma TextEntryRoom(text: string)
    requires IsStorableText(text)
    ensures |TextEntry(text)| == 4 + |text|
  {
  }

  lemma TextsReadBack(d: Bytes, texts: Slots)
    requires d == Counted(SLOT_COUNT, Flat(texts, TextEntry)) && forall j: SlotId :: IsStorableText(texts[j])
    ensures 4 <= |d| && Has(d, 0, 4) && U32At(d, 0) == SLOT_COUNT
    ensures SlotTexts(d, 4, |d| - 4, 0, SLOT_COUNT, NO_SLOTS) == Some(CutSlots(texts))
  {
    hide Flat, Counted, HoldsAt, U32At, CutSlots, CutSlot, SlotTexts, TextEntry, IsStorableText;
    HoldsCounted(d, SLOT_COUNT, Flat(texts, TextEntry));
    assert texts[0..] == texts;
    SlotsReadBack(d, 4, |d| - 4, texts, 0, NO_SLOTS);
  }

  lemma SlotsRecord(t: Loaded, r: Record, slots: Slots)
    requires r.version == 1 && r.length >= 4 && Has(r.data, 0, 4)
    requires SlotTexts(r.data, 4, r.length - 4, 0, U32At(r.data, 0), NO_SLOTS) == Some(slots)
    ensures HandleSlots(t, r) == Some(t.(slots := slots))
  {
    hide SlotTexts, U32At;
  }

  lemma SavedSlots(t: Loaded, s: Loaded)
    requires |SlotsData(s)| < U32_MODULUS && forall j: SlotId :: IsStorableText(s.slots[j])
    ensures HandleSlots(t, Stored(BSLT, 1, SlotsData(s))) == Some(t.(slots := CutSlots(s.slots)))
  {
    hide Flat, Counted, HoldsAt, U32At, CutSlots, CutSlot, SlotTexts, TextEntry, IsStorableText, HandleSlots, Has;
    var d := SlotsData(s);
    var r := Stored(BSLT, 1, d);
    StoredIsWhole(BSLT, 1, d);
    TextsReadBack(d, s.slots);
    SlotsRecord(t, r, CutSlots(s.slots));
  }

  // ---- Undo history ------------------------------------------------------------------------

  lemma {:induction false} DeltasReadBack(d: Bytes, pos: nat, ds: seq<RewardDelta<Float>>, rest: Bytes, j: nat,
      kept: seq<RewardDelta<Float>>)
    requires HoldsAt(d, pos, Flat(ds, DeltaBytes) + rest)
    ensures DeltaEntries(d, pos, j, j + |ds|, kept) == Some(kept + KeptDeltas(ds, j))
    ensures HoldsAt(d, pos + 8 * |ds|, rest)
    decreases |ds|
  {
    hide U32At, KeptDelta, HoldsAt;
    if ds == [] {
      assert Flat(ds, DeltaBytes) + rest == rest;
      assert kept + KeptDeltas(ds, j) == kept;
    } else {
      var tail := Flat(ds[1..], DeltaBytes) + rest;
      assert Flat(ds, DeltaBytes) + rest == DeltaBytes(ds[0]) + tail;
      DeltaReadsBack(d, pos, ds[0], tail);
      var kept' := kept + KeptDelta(ds[0].av, ds[0].delta, j);
      DeltasReadBack(d, pos + 8, ds[1..], rest, j + 1, kept');
      assert kept' + KeptDeltas(ds[1..], j + 1) == kept + KeptDeltas(ds, j);
    }
  }

  lemma DeltaReadsBack(d: Bytes, pos: nat, x: RewardDelta<Float>, rest: Bytes)
    requires HoldsAt(d, pos, DeltaBytes(x) + rest)
    ensures Has(d, pos, 8) && U32At(d, pos) == x.av && U32At(d, pos + 4) == x.delta && HoldsAt(d, pos + 8, rest)
  {
    HoldsSplit(d, pos, DeltaBytes(x), rest);
    HoldsSplit(d, pos, U32Bytes(x.av), U32Bytes(x.delta));
    U32ReadsBack(d, pos, x.av);
    U32ReadsBack(d, pos + 4, x.delta);
  }

  lemma ContributionReadsBack(d: Bytes, pos: nat, c: Option<Contribution>)
    requires HoldsAt(d, pos + 20, ContributionBytes(c)) && Has(d, pos, 40)
    ensures ContributionAt(d, pos, UNDO_VERSION) == Recoded(c)
  {
    hide U32At, U32Bytes, I32Of, I32Bits, RawDiscipline, DisciplineOf;
    var present: u32 := if c.Some? then 1 else 0;
    var discipline: u32 := if c.Some? then RawDiscipline(c.value.discipline) else 0;
    var recordDelta: u32 := if c.Some? then I32Bits(c.value.recordDelta) else 0;
    var pointsDelta: u32 := if c.Some? then I32Bits(c.value.pointsDelta) else 0;
    assert ContributionBytes(c)
      == U32Bytes(present) + U32Bytes(discipline) + U32Bytes(recordDelta) + U32Bytes(pointsDelta);
    FourReadBack(d, pos + 20, present, discipline, recordDelta, pointsDelta);
    if c.Some? {
      I32ReadsBack(c.value.recordDelta);
      I32ReadsBack(c.value.pointsDelta);
    }
  }

  lemma FourReadBack(d: Bytes, pos: nat, a: u32, b: u32, c: u32, e: u32)
    requires HoldsAt(d, pos, U32Bytes(a) + U32Bytes(b) + U32Bytes(c) + U32Bytes(e))
    ensures Has(d, pos, 16)
    ensures U32At(d, pos) == a && U32At(d, pos + 4) == b && U32At(d, pos + 8) == c && U32At(d, pos + 12) == e
  {
    HoldsSplit(d, pos, U32Bytes(a) + U32Bytes(b) + U32Bytes(c), U32Bytes(e));
    HoldsSplit(d, pos, U32Bytes(a) + U32Bytes(b), U32Bytes(c));
    HoldsSplit(d, pos, U32Bytes(a), U32Bytes(b));
    U32ReadsBack(d, pos, a);
    U32ReadsBack(d, pos + 4, b);
    U32ReadsBack(d, pos + 8, c);
    U32ReadsBack(d, pos + 12, e);
  }

  lemma UndoHeaderReadsBack(d: Bytes, pos: nat, r: UndoRecord<Float>)
    requires HoldsAt(d, pos, UndoHeaderBytes(r))
    ensures Has(d, pos, 40)
    ensures U64At(d, pos) == r.actionId && U32At(d, pos + 8) == r.formId && U32At(d, pos + 12) == r.regKey
    ensures U32At(d, pos + 16) == r.group && ContributionAt(d, pos, UNDO_VERSION) == Recoded(r.contribution)
    ensures U32At(d, pos + 36) == |r.rewardDeltas| % U32_MODULUS
  {
    var first := U64Bytes(r.actionId) + U32Bytes(r.formId) + U32Bytes(r.regKey) + U32Bytes(r.group);
    var count := U32Bytes(|r.rewardDeltas| % U32_MODULUS);
    HoldsSplit(d, pos, first + ContributionBytes(r.contribution), count);
    HoldsSplit(d, pos, first, ContributionBytes(r.contribution));
    U32ReadsBack(d, pos + 36, |r.rewardDeltas| % U32_MODULUS);
    assert Has(d, pos, 40);
    ContributionReadsBack(d, pos, r.contribution);
    HoldsSplit(d, pos, U64Bytes(r.actionId) + U32Bytes(r.formId) + U32Bytes(r.regKey), U32Bytes(r.group));
    HoldsSplit(d, pos, U64Bytes(r.actionId) + U32Bytes(r.formId), U32Bytes(r.regKey));
    HoldsSplit(d, pos, U64Bytes(r.actionId), U32Bytes(r.formId));
    hide U32At, U64At, ContributionAt, ContributionBytes, UndoHeaderBytes;
    U64ReadsBack(d, pos, r.actionId);
    U32ReadsBack(d, pos + 8, r.formId);
    U32ReadsBack(d, pos + 12, r.regKey);
    U32ReadsBack(d, pos + 16, r.group);
  }

  lemma KeptOneMore(h: seq<UndoRecord<Float>>, r: UndoRecord<Float>)
    ensures Registration.Last(Registration.Last(h, Registration.UNDO_LIMIT) + [r], Registration.UNDO_LIMIT)
         == Registration.Last(h + [r], Registration.UNDO_LIMIT)
  {
  }

  /** One turn of the reader, given what stands in the bytes. */
  lemma UndoStep(d: Bytes, pos: nat, remaining: nat, n: nat, history: seq<UndoRecord<Float>>, r: UndoRecord<Float>,
      count: nat)
    requires n > 0 && remaining >= 40 && Has(d, pos, 40) && UndoDeltaCount(d, pos, remaining, UNDO_VERSION) == count
    requires U64At(d, pos) == r.actionId && U32At(d, pos + 8) == r.formId && U32At(d, pos + 12) == r.regKey
    requires U32At(d, pos + 16) == r.group && ContributionAt(d, pos, UNDO_VERSION) == r.contribution
    requires DeltaEntries(d, pos + 40, 0, count, []) == Some(r.rewardDeltas)
    ensures 8 * count <= remaining - 40
    ensures UndoEntries(d, pos, remaining, n, UNDO_VERSION, Identity(), history)
         == UndoEntries(d, pos + 40 + 8 * count, remaining - 40 - 8 * count, n - 1, UNDO_VERSION, Identity(),
                        Registration.Last(history + [r], Registration.UNDO_LIMIT))
  {
    hide U32At, U64At, ContributionAt, DeltaEntries, Registration.Last;
    assert UndoRecord(r.actionId, r.formId, r.regKey, r.group, r.contribution, r.rewardDeltas) == r;
    assert r.(regKey := r.regKey, formId := r.formId) == r;
  }

  /** One entry of the history, read back together with its deltas. */
  lemma UndoEntryReadsBack(d: Bytes, pos: nat, remaining: nat, n: nat, r: UndoRecord<Float>, rest: Bytes,
      history: seq<UndoRecord<Float>>)
    requires n > 0 && HoldsAt(d, pos, UndoBytes(r) + rest)
    requires remaining == |UndoBytes(r)| + |rest| && remaining < U32_MODULUS
    ensures HoldsAt(d, pos + |UndoBytes(r)|, rest)
    ensures UndoEntries(d, pos, remaining, n, UNDO_VERSION, Identity(), history)
         == UndoEntries(d, pos + |UndoBytes(r)|, |rest|, n - 1, UNDO_VERSION, Identity(),
                        Registration.Last(history + [KeptRecord(r)], Registration.UNDO_LIMIT))
  {
    UndoBytesParts(r, rest);
    hide U32At, U64At, Has, ContributionAt, DeltaEntries, Flat, HoldsAt, UndoBytes, UndoHeaderBytes, KeptDeltas,
         Recoded, UndoDeltaCount,
         Registration.Last, UndoEntries;
    UndoCountReadsBack(d, pos, remaining, r, rest);
    DeltasReadBack(d, pos + 40, r.rewardDeltas, rest, 0, []);
    assert [] + KeptDeltas(r.rewardDeltas, 0) == KeptDeltas(r.rewardDeltas, 0);
    UndoStep(d, pos, remaining, n, history, KeptRecord(r), |r.rewardDeltas|);
  }

  lemma UndoBytesParts(r: UndoRecord<Float>, rest: Bytes)
    ensures |UndoBytes(r)| == 40 + 8 * |r.rewardDeltas|
    ensures UndoBytes(r) + rest == UndoHeaderBytes(r) + (Flat(r.rewardDeltas, DeltaBytes) + rest)
  {
    FlatSize(r.rewardDeltas, DeltaBytes, 8);
    hide UndoHeaderBytes, Flat;
  }

  lemma UndoCountReadsBack(d: Bytes, pos: nat, remaining: nat, r: UndoRecord<Float>, rest: Bytes)
    requires HoldsAt(d, pos, UndoBytes(r) + rest) && remaining == |UndoBytes(r)| + |rest| && remaining < U32_MODULUS
    ensures Has(d, pos, 40) && remaining >= 40
    ensures U64At(d, pos) == r.actionId && U32At(d, pos + 8) == r.formId && U32At(d, pos + 12) == r.regKey
    ensures U32At(d, pos + 16) == r.group && ContributionAt(d, pos, UNDO_VERSION) == Recoded(r.contribution)
    ensures UndoDeltaCount(d, pos, remaining, UNDO_VERSION) == |r.rewardDeltas|
    ensures HoldsAt(d, pos + 40, Flat(r.rewardDeltas, DeltaBytes) + rest)
  {
    UndoBytesParts(r, rest);
    HoldsSplit(d, pos, UndoHeaderBytes(r), Flat(r.rewardDeltas, DeltaBytes) + rest);
    UndoHeaderReadsBack(d, pos, r);
    CountFits(|r.rewardDeltas|, |rest|);
    hide U32At, U64At, ContributionAt, Flat, HoldsAt, UndoBytes, UndoHeaderBytes, Recoded, ReadableCount;
  }

  lemma CountFits(n: nat, extra: nat)
    requires n < U32_MODULUS
    ensures n % U32_MODULUS == n && ReadableCount(n, 8 * n + extra, 8) == n
  {
    assert (8 * n + extra) / 8 >= n;
  }

  lemma {:induction false} HistoryReadsBack(d: Bytes, pos: nat, h: seq<UndoRecord<Float>>,
      before: seq<UndoRecord<Float>>)
    requires HoldsAt(d, pos, Flat(h, UndoBytes)) && |Flat(h, UndoBytes)| < U32_MODULUS
    ensures UndoEntries(d, pos, |Flat(h, UndoBytes)|, |h|, UNDO_VERSION, Identity(),
                        Registration.Last(before, Registration.UNDO_LIMIT))
         == Some(Registration.Last(before + KeptRecords(h), Registration.UNDO_LIMIT))
    decreases |h|
  {
    hide UndoBytes, HoldsAt, KeptRecord, Registration.Last;
    if h == [] {
      assert before + KeptRecords(h) == before;
    } else {
      var rest := Flat(h[1..], UndoBytes);
      UndoEntryReadsBack(d, pos, |Flat(h, UndoBytes)|, |h|, h[0], rest,
                         Registration.Last(before, Registration.UNDO_LIMIT));
      KeptOneMore(before, KeptRecord(h[0]));
      HistoryReadsBack(d, pos + |UndoBytes(h[0])|, h[1..], before + [KeptRecord(h[0])]);
      assert before + [KeptRecord(h[0])] + KeptRecords(h[1..]) == before + KeptRecords(h);
    }
  }

  lemma UndoStartReadsBack(d: Bytes, n: u32, next: u64, body: Bytes)
    requires d == U32Bytes(n) + U64Bytes(next) + body
    ensures Has(d, 0, 12) && U32At(d, 0) == n && U64At(d, 4) == next && HoldsAt(d, 12, body) && |d| == 12 + |body|
  {
    var count, id := U32Bytes(n), U64Bytes(next);
    assert |count| == 4 && |id| == 8;
    hide U32Bytes, U64Bytes, U32At, U64At;
    assert d[0..|d|] == count + id + body;
    HoldsSplit(d, 0, count + id, body);
    HoldsSplit(d, 0, count, id);
    U32ReadsBack(d, 0, n);
    U64ReadsBack(d, 4, next);
  }

  lemma UndoDataReadsBack(s: Loaded)
    requires |UndoData(s)| < U32_MODULUS && |s.undoHistory| < U32_MODULUS
    ensures var d := UndoData(s);
      && Has(d, 0, 12) && U32At(d, 0) == |s.undoHistory| && U64At(d, 4) == s.nextActionId
      && HoldsAt(d, 12, Flat(s.undoHistory, UndoBytes)) && |d| == 12 + |Flat(s.undoHistory, UndoBytes)|
  {
    hide Flat, U32Bytes, U64Bytes, U32At, U64At, HoldsAt, Has;
    UndoStartReadsBack(UndoData(s), |s.undoHistory|, s.nextActionId, Flat(s.undoHistory, UndoBytes));
  }

  lemma {:induction false} HistoryTakesRoom(h: seq<UndoRecord<Float>>)
    ensures |Flat(h, UndoBytes)| >= 40 * |h|
  {
    if h != [] {
      HistoryTakesRoom(h[1..]);
    }
  }

  lemma UndoRecordRead(t: Loaded, r: Record, resolve: Resolve, history: seq<UndoRecord<Float>>, next: u64)
    requires r.length >= 12 && Has(r.data, 0, 12) && U64At(r.data, 4) == next
    requires UndoEntries(r.data, 12, r.length - 12, U32At(r.data, 0), r.version, resolve, []) == Some(history)
    ensures HandleUndo(t, r, resolve) == Some(t.(undoHistory := history, nextActionId := NextActionId(next, history)))
  {
    hide UndoEntries, U32At, U64At, NextActionId;
  }

  lemma SavedUndo(t: Loaded, s: Loaded)
    requires |UndoData(s)| < U32_MODULUS
    ensures HandleUndo(t, Stored(UNDO, UNDO_VERSION, UndoData(s)), Identity())
         == Some(t.(undoHistory := KeptHistory(s.undoHistory),
                    nextActionId := NextActionId(s.nextActionId, KeptHistory(s.undoHistory))))
  {
    HistoryTakesRoom(s.undoHistory);
    hide Flat, HoldsAt, U32At, U64At, U32Bytes, U64Bytes, Has, UndoBytes, UndoEntries, KeptHistory, NextActionId,
         HandleUndo, Identity;
    var d := UndoData(s);
    var r := Stored(UNDO, UNDO_VERSION, d);
    assert |d| == 12 + |Flat(s.undoHistory, UndoBytes)| by { UndoDataSize(s); }
    hide UndoData;
    StoredIsWhole(UNDO, UNDO_VERSION, d);
    UndoDataReadsBack(s);
    HistoryFromNothing(d, s.undoHistory);
    UndoRecordRead(t, r, Identity(), KeptHistory(s.undoHistory), s.nextActionId);
  }

  lemma UndoDataSize(s: Loaded)
    ensures |UndoData(s)| == 12 + |Flat(s.undoHistory, UndoBytes)|
  {
    hide Flat;
  }

  lemma HistoryFromNothing(d: Bytes, h: seq<UndoRecord<Float>>)
    requires HoldsAt(d, 12, Flat(h, UndoBytes)) && |Flat(h, UndoBytes)| < U32_MODULUS
    ensures UndoEntries(d, 12, |Flat(h, UndoBytes)|, |h|, UNDO_VERSION, Identity(), []) == Some(KeptHistory(h))
  {
    hide Flat, UndoEntries, HoldsAt, KeptRecords, Registration.Last, UndoBytes, Identity;
    Registration.LastIsAll<UndoRecord<Float>>([], Registration.UNDO_LIMIT);
    HistoryReadsBack(d, 12, h, []);
    assert [] + KeptRecords(h) == KeptRecords(h);
  }

  // ---- The whole file ----------------------------------------------------------------------

  lemma {:induction false} HandleAllOfConcat(s: Loaded, a: seq<Record>, b: seq<Record>, resolve: Resolve)
    requires HandleAll(s, a, resolve).Some?
    ensures HandleAll(s, a + b, resolve) == HandleAll(HandleAll(s, a, resolve).value, b, resolve)
    decreases |a|
  {
    hide Handle;
    if a == [] {
      assert a + b == b;
    } else {
      assert (a + b)[0] == a[0] && (a + b)[1..] == a[1..] + b;
      HandleAllOfConcat(Handle(s, a[0], resolve).value, a[1..], b, resolve);
    }
  }

  lemma HandleThree(s: Loaded, a: Record, b: Record, c: Record, resolve: Resolve, s1: Loaded, s2: Loaded, s3: Loaded)
    requires Handle(s, a, resolve) == Some(s1) && Handle(s1, b, resolve) == Some(s2)
    requires Handle(s2, c, resolve) == Some(s3)
    ensures HandleAll(s, [a, b, c], resolve) == Some(s3)
  {
    hide Handle;
    assert [a, b, c][1..] == [b, c] && [b, c][1..] == [c] && [c][1..] == [];
    assert HandleAll(s3, [], resolve) == Some(s3);
    assert HandleAll(s2, [c], resolve) == Some(s3);
    assert HandleAll(s1, [b, c], resolve) == Some(s3);
  }

  /** Which reader a record goes to. */
  lemma Dispatch(t: Loaded, r: Record, resolve: Resolve)
    ensures r.tag == REGI ==> Handle(t, r, resolve) == HandleRegistered(t, r, resolve)
    ensures r.tag == BLCK || r.tag == NTFY ==> Handle(t, r, resolve) == HandleForms(t, r, resolve)
    ensures r.tag == BSCR ==> Handle(t, r, resolve) == HandleScores(t, r)
    ensures r.tag == BSLT ==> Handle(t, r, resolve) == HandleSlots(t, r)
    ensures r.tag == BMIG ==> Handle(t, r, resolve) == HandleMigration(t, r)
    ensures r.tag == BEFX ==> Handle(t, r, resolve) == HandleEffects(t, r)
    ensures r.tag == RWDS ==> Handle(t, r, resolve) == HandleRewards(t, r)
    ensures r.tag == UNDO ==> Handle(t, r, resolve) == HandleUndo(t, r, resolve)
  {
    hide HandleRegistered, HandleForms, HandleScores, HandleSlots, HandleMigration, HandleEffects, HandleRewards,
         HandleUndo;
  }

  function AfterForms(s: Loaded): Loaded {
    Cleared<Float>().(registered := s.registered, blocked := s.blocked, notified := s.notified)
  }

  lemma FormRecordsReadBack(s: Loaded, l: Layout)
    requires Fits(s) && IsLayout(l, s)
    ensures HandleAll(Cleared(), FormRecords(s, l.registered, l.blocked, l.notified), Identity()) == Some(AfterForms(s))
  {
    FitsSizes(s);
    var a := Stored(REGI, SERIALIZATION_VERSION, RegisteredData(s, l.registered));
    var b := Stored(BLCK, SERIALIZATION_VERSION, FormsData(l.blocked));
    var c := Stored(NTFY, SERIALIZATION_VERSION, FormsData(l.notified));
    assert a.tag == REGI && b.tag == BLCK && c.tag == NTFY;
    hide Fits, Enumerates, RegisteredData, FormsData, HandleRegistered, HandleForms, Identity, Handle, HandleAll,
         Stored;
    var s0: Loaded := Cleared();
    var s1 := s0.(registered := s.registered);
    var s2 := s1.(blocked := s.blocked);
    SavedRegistered(s0, s, l.registered);
    Dispatch(s0, a, Identity());
    SavedForms(s1, BLCK, l.blocked, s.blocked);
    Dispatch(s1, b, Identity());
    SavedForms(s2, NTFY, l.notified, s.notified);
    Dispatch(s2, c, Identity());
    HandleThree(s0, a, b, c, Identity(), s1, s2, AfterForms(s));
  }

  function AfterBuild(t: Loaded, s: Loaded): Loaded {
    t.(scores := s.scores, points := s.points, slots := CutSlots(s.slots), migrationVersion := s.migrationVersion,
       migrationState := MigrationStateOf(RawMigrationState(s.migrationState)), notice := s.notice)
  }

  lemma BuildRecordsReadBack(t: Loaded, s: Loaded)
    requires Fits(s)
    ensures HandleAll(t, BuildRecords(s), Identity()) == Some(AfterBuild(t, s))
  {
    assert |SlotsData(s)| < U32_MODULUS && forall j: SlotId :: IsStorableText(s.slots[j]);
    var a := Stored(BSCR, 2, TripleBytes(s.scores) + TripleBytes(s.points));
    var b := Stored(BSLT, 1, SlotsData(s));
    var c := Stored(BMIG, 1, MigrationBytes(s));
    assert a.tag == BSCR && b.tag == BSLT && c.tag == BMIG;
    hide Fits, IsStorableText, SlotsData, MigrationBytes, TripleBytes, HandleScores, HandleSlots, HandleMigration,
         Identity, CutSlots, Handle, HandleAll, Stored,
         MigrationStateOf, RawMigrationState;
    var s1 := t.(scores := s.scores, points := s.points);
    var s2 := s1.(slots := CutSlots(s.slots));
    SavedScores(t, s);
    Dispatch(t, a, Identity());
    SavedSlots(s1, s);
    Dispatch(s1, b, Identity());
    SavedMigration(s2, s);
    Dispatch(s2, c, Identity());
    HandleThree(t, a, b, c, Identity(), s1, s2, AfterBuild(t, s));
  }

  function AfterAmounts(t: Loaded, s: Loaded, l: Layout): Loaded {
    t.(buildApplied := KeptAmounts(BuildEffect, l.effects, s.buildApplied),
       rewardTotals := KeptAmounts(RewardTotal, FirstRewards(l.rewards), s.rewardTotals),
       undoHistory := KeptHistory(s.undoHistory),
       nextActionId := NextActionId(s.nextActionId, KeptHistory(s.undoHistory)))
  }

  lemma AmountRecordsReadBack(t: Loaded, s: Loaded, l: Layout)
    requires Fits(s) && IsLayout(l, s) && t.buildApplied == map[] && t.rewardTotals == map[]
    ensures HandleAll(t, AmountRecords(s, l.effects, l.rewards), Identity()) == Some(AfterAmounts(t, s, l))
  {
    FitsSizes(s);
    assert |UndoData(s)| < U32_MODULUS;
    var a := Stored(BEFX, 1, AmountsData(s.buildApplied, l.effects));
    var b := Stored(RWDS, SERIALIZATION_VERSION, AmountsData(s.rewardTotals, l.rewards));
    var c := Stored(UNDO, UNDO_VERSION, UndoData(s));
    assert a.tag == BEFX && b.tag == RWDS && c.tag == UNDO;
    hide Fits, Enumerates, AmountsData, UndoData, HandleEffects, HandleRewards, HandleUndo, Identity, KeptAmounts,
         KeptHistory, NextActionId,
         Handle, HandleAll, Stored, FirstRewards;
    var s1 := t.(buildApplied := KeptAmounts(BuildEffect, l.effects, s.buildApplied));
    var s2 := s1.(rewardTotals := KeptAmounts(RewardTotal, FirstRewards(l.rewards), s.rewardTotals));
    SavedEffects(t, s, l.effects);
    Dispatch(t, a, Identity());
    SavedRewards(s1, s, l.rewards);
    Dispatch(s1, b, Identity());
    SavedUndo(s2, s);
    Dispatch(s2, c, Identity());
    HandleThree(t, a, b, c, Identity(), s1, s2, AfterAmounts(t, s, l));
  }

  /** Loading a saved file yields the snapshot after the documented filters, in whatever order the maps were written. */
  lemma RoundTrip(s: Loaded, l: Layout)
    requires Fits(s) && IsLayout(l, s)
    ensures HandleAll(Cleared(), SavedFile(s, l), Identity()) == Some(Filtered(s, l))
  {
    hide Fits, Enumerates, KeptAmounts, KeptHistory, NextActionId, CutSlots, FormRecords, BuildRecords,
         AmountRecords, HandleAll;
    var forms := FormRecords(s, l.registered, l.blocked, l.notified);
    var amounts := AmountRecords(s, l.effects, l.rewards);
    FormRecordsReadBack(s, l);
    var s1 := HandleAll(Cleared(), forms, Identity()).value;
    HandleAllOfConcat(Cleared(), forms, BuildRecords(s), Identity());
    BuildRecordsReadBack(s1, s);
    var s2 := HandleAll(s1, BuildRecords(s), Identity()).value;
    HandleAllOfConcat(Cleared(), forms + BuildRecords(s), amounts, Identity());
    AmountRecordsReadBack(s2, s, l);
  }

  /** The writers and the readers together: what a reload puts in place of the live state. */
  method SaveAndReload(s: Loaded, outcomes: seq<bool>, forms: Migration.Forms, live: RuntimeState<Float>)
    returns (saved: bool, ghost layout: Layout)
    requires Fits(s)
    modifies live
    ensures false !in outcomes ==> saved
    ensures if saved then IsLayout(layout, s) && live.Value() == Migration.Normalized(Filtered(s, layout), forms, None)
            else live.Value() == old(live.Value())
  {
    hide Fits, Enumerates, SavedFile, Filtered, HandleAll, Migration.Normalized;
    var writer := new RecordWriter(outcomes);
    ghost var oks, parts;
    saved, layout, oks, parts := Save(writer, s);
    if saved {
      SavedRecordsAreWhole(s, layout);
      RoundTrip(s, layout);
      var reader := new CodecLoad.RecordReader(writer.All());
      var _ := CodecLoad.Load(reader, Identity(), forms, live);
    }
  }

  // ---- When nothing is lost ----------------------------------------------------------------

  /** Amounts the loader keeps as they are. */
  predicate AmountsSurvive(kind: AmountKind, m: map<ActorValue, Float>) {
    forall av | av in m :: IsSupported(kind, av) && ClampBits(av, m[av]) == m[av]
  }

  lemma KeptAllExactlyWhen(kind: AmountKind, order: seq<ActorValue>, m: map<ActorValue, Float>)
    requires Enumerates(order, m.Keys)
    ensures KeptAmounts(kind, order, m) == m <==> AmountsSurvive(kind, m)
  {
    hide IsSupported, ClampBits;
    EnumeratesAll(order, m.Keys);
    assert forall av | av in m :: av in SetOf(order);
    if AmountsSurvive(kind, m) {
      assert KeptAmounts(kind, order, m).Keys == m.Keys;
    } else {
      var av :| av in m && !(IsSupported(kind, av) && ClampBits(av, m[av]) == m[av]);
      assert av in KeptAmounts(kind, order, m) ==> KeptAmounts(kind, order, m)[av] != m[av];
    }
  }

  /** With more than 256 totals, some are lost whatever the order. */
  lemma TooManyRewards(order: seq<ActorValue>, m: map<ActorValue, Float>)
    requires Enumerates(order, m.Keys) && |m| > MAX_REWARD_ENTRIES
    ensures KeptAmounts(RewardTotal, FirstRewards(order), m) != m
  {
    hide IsSupported, ClampBits;
    EnumeratesDistinct(order, m.Keys);
    var x := order[MAX_REWARD_ENTRIES];
    assert x in order && x !in FirstRewards(order);
  }

  /** The rewards and the ledger come back unchanged exactly when they are few, supported and within their caps. */
  lemma AmountsComeBackExactlyWhen(s: Loaded, l: Layout)
    requires IsLayout(l, s)
    ensures Filtered(s, l).rewardTotals == s.rewardTotals
      <==> |s.rewardTotals| <= MAX_REWARD_ENTRIES && AmountsSurvive(RewardTotal, s.rewardTotals)
    ensures Filtered(s, l).buildApplied == s.buildApplied <==> AmountsSurvive(BuildEffect, s.buildApplied)
  {
    EnumeratesDistinct(l.rewards, s.rewardTotals.Keys);
    hide KeptAmounts, Enumerates, AmountsSurvive, KeptHistory, CutSlots, NextActionId;
    KeptAllExactlyWhen(BuildEffect, l.effects, s.buildApplied);
    if |s.rewardTotals| <= MAX_REWARD_ENTRIES {
      KeptAllExactlyWhen(RewardTotal, l.rewards, s.rewardTotals);
    } else {
      TooManyRewards(l.rewards, s.rewardTotals);
    }
  }

  lemma {:induction false} KeptRecordsAt(h: seq<UndoRecord<Float>>, i: nat)
    requires i < |h|
    ensures KeptRecords(h)[i] == KeptRecord(h[i])
    decreases |h|
  {
    hide KeptRecord;
    if i > 0 {
      KeptRecordsAt(h[1..], i - 1);
    }
  }

  /** A history of at most ten, with the next id above its last one, keeps its length, its ids and the next id. */
  lemma HistoryComesBack(s: Loaded, l: Layout)
    requires |s.undoHistory| <= Registration.UNDO_LIMIT && s.nextActionId >= 1
    requires s.undoHistory != [] ==> s.undoHistory[|s.undoHistory| - 1].actionId < s.nextActionId
    ensures |Filtered(s, l).undoHistory| == |s.undoHistory| && Filtered(s, l).nextActionId == s.nextActionId
    ensures forall i | 0 <= i < |s.undoHistory| :: Filtered(s, l).undoHistory[i] == KeptRecord(s.undoHistory[i])
  {
    hide KeptAmounts, CutSlots, KeptRecord;
    forall i | 0 <= i < |s.undoHistory| ensures KeptRecords(s.undoHistory)[i] == KeptRecord(s.undoHistory[i]) {
      KeptRecordsAt(s.undoHistory, i);
    }
    if s.undoHistory != [] {
      KeptIds(s.undoHistory[|s.undoHistory| - 1]);
    }
  }

  lemma KeptIds(r: UndoRecord<Float>)
    ensures KeptRecord(r).actionId == r.actionId && KeptRecord(r).regKey == r.regKey
    ensures KeptRecord(r).formId == r.formId && KeptRecord(r).group == r.group
  {
  }
}
