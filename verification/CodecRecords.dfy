// The other records, said from the outside: for any bytes and any resolution of form ids, what a load
// makes of a whole record, by the place of each number in it.
module CodecRecords {
  import opened ActorValues
  import opened Bytes
  import opened Catalog
  import opened CodecFormat
  import Migration
  import opened State

  /** The lowest byte comes first. */
  lemma LowestByteFirst()
    ensures U32Bytes(0x0403_0201) == [1, 2, 3, 4] && U32At([1, 2, 3, 4], 0) == 0x0403_0201
    ensures U64Bytes(0x0807_0605_0403_0201) == [1, 2, 3, 4, 5, 6, 7, 8]
  {
  }

  /** How many entries of this size are read: as many as announced, or as the record has room for after the count. */
  function EntriesIn(r: Record, size: nat): nat
    requires size > 0 && |r.data| >= 4
  {
    MinInt(U32At(r.data, 0), (|r.data| - 4) / size)
  }

  // ---- Registered forms --------------------------------------------------------------------

  /**
   * A key is registered after the load if it was, or if some entry now goes by it; the first such entry
   * gives the group.
   */
  lemma RegisteredRecordExactly(s: Loaded, r: Record, resolve: Resolve, id: FormId)
    requires r.Whole() && |r.data| >= 4 && r.version in {1, 2}
    ensures var wide := r.version == 2;
      var n := EntriesIn(r, if wide then 8 else 4);
      && EntryStart(4, n, wide) <= |r.data|
      && var first := FirstEntryFor(r.data, 4, n, wide, resolve, id);
      var loaded := HandleRegistered(s, r, resolve);
      && loaded.Some? && loaded.value == s.(registered := loaded.value.registered)
      && (id in loaded.value.registered <==> id in s.registered || first.Some?)
      && (id in s.registered ==> loaded.value.registered[id] == s.registered[id])
      && (id !in s.registered && first.Some? ==>
            loaded.value.registered[id] == if wide then U32At(r.data, 4 + 8 * first.value + 4) else 255)
  {
    var wide := r.version == 2;
    hide U32At, FirstEntryFor, RegisteredEntries;
    EntriesAddFirstGroups(r.data, 4, EntriesIn(r, if wide then 8 else 4), wide, resolve, s.registered, id);
  }

  // ---- Blocked and notified forms ----------------------------------------------------------

  lemma {:induction false} FormsExactly(d: Bytes, pos: nat, n: nat, resolve: Resolve, forms: set<FormId>, id: FormId)
    requires pos + 4 * n <= |d|
    ensures var read := FormEntries(d, pos, n, resolve, forms);
      && read.Some?
      && (id in read.value <==> id in forms || exists k :: 0 <= k < n && resolve(FormAt(d, pos, k)) == Some(id))
    decreases n
  {
    hide U32At;
    if n > 0 {
      FormsExactly(d, pos + 4, n - 1, resolve, Inserted(forms, resolve(U32At(d, pos))), id);
      assert FormAt(d, pos, 0) == U32At(d, pos);
      var next := pos + 4;
      assert forall k | 0 <= k < n - 1 :: FormAt(d, next, k) == FormAt(d, pos, k + 1);
      if k :| 0 < k < n && resolve(FormAt(d, pos, k)) == Some(id) {
        assert resolve(FormAt(d, pos + 4, k - 1)) == Some(id);
      }
    }
  }

  function FormAt(d: Bytes, pos: nat, k: nat): FormId
    requires pos + 4 * k + 4 <= |d|
  {
    U32At(d, pos + 4 * k)
  }

  /** A form is in the set after the load if it was, or if some entry now goes by it. */
  lemma FormsRecordExactly(s: Loaded, r: Record, resolve: Resolve, id: FormId)
    requires r.Whole() && |r.data| >= 4 && r.tag in {BLCK, NTFY}
    ensures var n := EntriesIn(r, 4);
      var loaded := HandleForms(s, r, resolve);
      var named := exists k :: 0 <= k < n && resolve(FormAt(r.data, 4, k)) == Some(id);
      && loaded.Some?
      && loaded.value == (if r.tag == BLCK then s.(blocked := loaded.value.blocked)
                          else s.(notified := loaded.value.notified))
      && (r.tag == BLCK ==> (id in loaded.value.blocked <==> id in s.blocked || named))
      && (r.tag == NTFY ==> (id in loaded.value.notified <==> id in s.notified || named))
  {
    hide U32At, FormEntries;
    FormsExactly(r.data, 4, EntriesIn(r, 4), resolve, if r.tag == BLCK then s.blocked else s.notified, id);
  }

  // ---- Amounts -----------------------------------------------------------------------------

  /** The last of the first `n` entries for an actor value. */
  function LastEntryFor(d: Bytes, pos: nat, n: nat, av: ActorValue): (r: Option<nat>)
    requires pos + 8 * n <= |d|
    ensures match r
      case None => forall k | 0 <= k < n :: AmountKey(d, pos, k) != av
      case Some(l) => l < n && AmountKey(d, pos, l) == av && forall k | l < k < n :: AmountKey(d, pos, k) != av
  {
    if n == 0 then None
    else if AmountKey(d, pos, n - 1) == av then Some(n - 1)
    else LastEntryFor(d, pos, n - 1, av)
  }

  function AmountKey(d: Bytes, pos: nat, k: nat): ActorValue
    requires pos + 8 * k + 8 <= |d|
  {
    U32At(d, pos + 8 * k)
  }

  /** A supported actor value gets the amount of its last entry, cut to its cap; no other gets any. */
  predicate HoldsLastAmounts(d: Bytes, pos: nat, n: nat, kind: AmountKind, before: map<ActorValue, Float>,
      after: map<ActorValue, Float>, av: ActorValue)
    requires pos + 8 * n <= |d|
  {
    var last := LastEntryFor(d, pos, n, av);
    if !IsSupported(kind, av) || last.None? then
      (av in after <==> av in before) && (av in after ==> after[av] == before[av])
    else av in after && after[av] == ClampBits(av, U32At(d, pos + 8 * last.value + 4))
  }

  lemma {:induction false} AmountsInOrder(d: Bytes, pos: nat, n: nat, k: nat, kind: AmountKind,
      before: map<ActorValue, Float>, m: map<ActorValue, Float>, av: ActorValue)
    requires k <= n && pos + 8 * n <= |d| && HoldsLastAmounts(d, pos, k, kind, before, m, av)
    ensures var read := AmountEntries(d, pos + 8 * k, n - k, kind, m);
      read.Some? && HoldsLastAmounts(d, pos, n, kind, before, read.value, av)
    decreases n - k
  {
    hide U32At, IsSupported, ClampBits;
    if k < n {
      var next := Assigned(m, kind, U32At(d, pos + 8 * k), U32At(d, pos + 8 * k + 4));
      assert AmountKey(d, pos, k) == U32At(d, pos + 8 * k);
      AmountsInOrder(d, pos, n, k + 1, kind, before, next, av);
    }
  }

  /** Reward totals: at most 256 entries are looked at. */
  lemma RewardsRecordExactly(s: Loaded, r: Record, av: ActorValue)
    requires r.Whole() && |r.data| >= 4
    ensures var loaded := HandleRewards(s, r);
      && loaded.Some? && loaded.value == s.(rewardTotals := loaded.value.rewardTotals)
      && HoldsLastAmounts(r.data, 4, MinInt(EntriesIn(r, 8), 256), RewardTotal,
                          s.rewardTotals, loaded.value.rewardTotals, av)
  {
    hide U32At, IsSupported, ClampBits, AmountEntries;
    AmountsInOrder(r.data, 4, MinInt(EntriesIn(r, 8), 256), 0, RewardTotal, s.rewardTotals, s.rewardTotals, av);
  }

  /** The build ledger: every entry counts. */
  lemma EffectsRecordExactly(s: Loaded, r: Record, av: ActorValue)
    requires r.Whole() && |r.data| >= 4 && r.version == 1
    ensures var loaded := HandleEffects(s, r);
      && loaded.Some? && loaded.value == s.(buildApplied := loaded.value.buildApplied)
      && HoldsLastAmounts(r.data, 4, EntriesIn(r, 8), BuildEffect, s.buildApplied, loaded.value.buildApplied, av)
  {
    hide U32At, IsSupported, ClampBits, AmountEntries;
    AmountsInOrder(r.data, 4, EntriesIn(r, 8), 0, BuildEffect, s.buildApplied, s.buildApplied, av);
  }

  // ---- Scores, slots, migration ------------------------------------------------------------

  /** Three scores, and from version 2 three point totals behind them; version 1 leaves the points alone. */
  lemma ScoresRecordExactly(s: Loaded, r: Record)
    requires r.Whole() && r.version in {1, 2} && |r.data| >= if r.version == 1 then 12 else 24
    ensures var d := r.data;
      HandleScores(s, r) == Some(s.(
        scores := PerDiscipline(U32At(d, 0), U32At(d, 4), U32At(d, 8)),
        points := if r.version == 1 then s.points else PerDiscipline(U32At(d, 12), U32At(d, 16), U32At(d, 20))))
  {
    hide U32At;
  }

  lemma MigrationRecordExactly(s: Loaded, r: Record)
    requires r.Whole() && r.version == 1 && |r.data| >= 14
    ensures var d := r.data;
      var raw := U32At(d, 4) % 0x100;
      HandleMigration(s, r) == Some(s.(
        migrationVersion := U32At(d, 0),
        migrationState := if raw == 0 then NotStarted else if raw == 1 then PendingCleanup
                          else if raw == 2 then Complete else UndefinedState(raw),
        notice := Notice(d[8] != 0, d[9] != 0, U32At(d, 10))))
  {
    hide U32At;
  }

  /** The text at `p`, its length first, cut to 128 characters. */
  function SlotTextAt(d: Bytes, p: nat): string
    requires Has(d, p, 4) && p + 4 + U32At(d, p) <= |d|
  {
    var length := U32At(d, p);
    var kept := if length > 128 then 128 else length;
    seq(kept, i requires 0 <= i < kept => d[p + 4 + i] as char)
  }

  /** Slot `i` after the load: the `i`th text if the record has that many, nothing otherwise. */
  predicate HoldsText(d: Bytes, count: nat, slots: Slots, i: SlotId) {
    var p := TextStart(d, 4, i);
    if i < count && p < |d| then Has(d, p, 4) && p + 4 + U32At(d, p) <= |d| && slots[i] == SlotTextAt(d, p)
    else slots[i] == ""
  }

  /** The first `k` slots hold their texts and the others are still empty. */
  predicate HoldTexts(d: Bytes, count: nat, slots: Slots, k: nat) {
    forall i: SlotId :: if i < k then HoldsText(d, count, slots, i) else slots[i] == ""
  }

  function WithText(slots: Slots, k: nat, text: string): Slots {
    if k < SLOT_COUNT then slots[k := text] else slots
  }

  lemma OneMoreText(d: Bytes, count: nat, slots: Slots, k: nat)
    requires HoldTexts(d, count, slots, k) && k < count
    requires var p := TextStart(d, 4, k); p < |d| && Has(d, p, 4) && p + 4 + U32At(d, p) <= |d|
    ensures HoldTexts(d, count, WithText(slots, k, SlotTextAt(d, TextStart(d, 4, k))), k + 1)
  {
    hide U32At, TextStart, SlotTextAt;
    var after := WithText(slots, k, SlotTextAt(d, TextStart(d, 4, k)));
    forall i: SlotId ensures if i < k + 1 then HoldsText(d, count, after, i) else after[i] == "" {
      assert i < k ==> HoldsText(d, count, slots, i);
    }
  }

  lemma NoMoreTexts(d: Bytes, count: nat, slots: Slots, k: nat)
    requires HoldTexts(d, count, slots, k)
    requires k == count || TextStart(d, 4, k) == |d|
    ensures forall i: SlotId :: HoldsText(d, count, slots, i)
  {
    hide U32At, TextStart, SlotTextAt;
    forall i: SlotId ensures HoldsText(d, count, slots, i) {
      if i >= k && k != count {
        EndStays(d, k, i);
      }
    }
  }

  lemma {:induction false} TextsInOrder(d: Bytes, k: nat, count: nat, slots: Slots)
    requires 4 <= TextStart(d, 4, k) <= |d| && k <= count && HoldTexts(d, count, slots, k)
    ensures var p := TextStart(d, 4, k);
      var read := SlotTexts(d, p, |d| - p, k, count, slots);
      read.Some? ==> forall i: SlotId :: HoldsText(d, count, read.value, i)
    decreases count - k
  {
    hide U32At, HoldTexts, HoldsText, CutText, SlotTextAt;
    var p := TextStart(d, 4, k);
    if k == count || p == |d| {
      NoMoreTexts(d, count, slots, k);
    } else if TextLengthAt(d, p, |d| - p).Some? {
      var length := U32At(d, p);
      CutTextIsSlotText(d, p);
      OneMoreText(d, count, slots, k);
      assert TextStart(d, 4, k + 1) == p + 4 + length;
      TextsInOrder(d, k + 1, count, WithText(slots, k, SlotTextAt(d, p)));
    }
  }

  lemma CutTextIsSlotText(d: Bytes, p: nat)
    requires Has(d, p, 4) && p + 4 + U32At(d, p) <= |d|
    ensures CutText(d[p + 4..p + 4 + U32At(d, p)]) == SlotTextAt(d, p)
  {
    hide U32At;
  }

  lemma {:induction false} EndStays(d: Bytes, k: nat, i: nat)
    requires TextStart(d, 4, k) == |d| && k <= i
    ensures TextStart(d, 4, i) == |d|
  {
    hide U32At;
    if k < i {
      EndStays(d, k, i - 1);
    }
  }

  /** Six slots from as many texts as there are; texts for more slots than six are read and dropped. */
  lemma SlotsRecordExactly(s: Loaded, r: Record)
    requires r.Whole() && r.version == 1 && |r.data| >= 4
    ensures var loaded := HandleSlots(s, r);
      loaded.Some? ==>
        && loaded.value == s.(slots := loaded.value.slots)
        && forall i: SlotId :: HoldsText(r.data, U32At(r.data, 0), loaded.value.slots, i)
  {
    hide U32At, SlotTexts, HoldsText;
    assert TextStart(r.data, 4, 0) == 4;
    TextsInOrder(r.data, 0, U32At(r.data, 0), NO_SLOTS);
    var loaded := HandleSlots(s, r);
    if loaded.Some? {
      assert loaded.value.slots == SlotTexts(r.data, 4, |r.data| - 4, 0, U32At(r.data, 0), NO_SLOTS).value;
    }
  }

  // ---- Tags, versions and damaged records --------------------------------------------------

  /** Four characters as one number, the first in the highest byte. */
  function Spelled(name: string): int
    requires |name| == 4
  {
    ((name[0] as int * 0x100 + name[1] as int) * 0x100 + name[2] as int) * 0x100 + name[3] as int
  }

  lemma TagsSpellTheirNames()
    ensures REGI == Spelled("REGI") && BLCK == Spelled("BLCK") && NTFY == Spelled("NTFY")
    ensures RWDS == Spelled("RWDS") && UNDO == Spelled("UNDO") && BSCR == Spelled("BSCR")
    ensures BSLT == Spelled("BSLT") && BMIG == Spelled("BMIG") && BEFX == Spelled("BEFX")
  {
  }

  /** A record of a version this plugin does not know is passed over. */
  lemma OtherVersionsAreIgnored(s: Loaded, r: Record, resolve: Resolve)
    requires r.Whole() && |r.data| >= 4
    requires if r.tag in {REGI, BSCR} then r.version !in {1, 2} else r.tag in {BSLT, BMIG, BEFX} && r.version != 1
    ensures Handle(s, r, resolve) == Some(s)
  {
  }

  lemma {:induction false} RegisteredStopExactlyWhen(d: Bytes, pos: nat, n: nat, wide: bool, resolve: Resolve,
      m: map<FormId, u32>)
    requires pos <= |d|
    ensures RegisteredEntries(d, pos, n, wide, resolve, m).None? <==> EntryStart(pos, n, wide) > |d|
    decreases n
  {
    hide U32At;
    if n > 0 && Has(d, pos, RegisteredEntrySize(wide)) {
      var group := if wide then U32At(d, pos + 4) else GROUP_UNKNOWN;
      RegisteredStopExactlyWhen(d, pos + RegisteredEntrySize(wide), n - 1, wide, resolve,
                                Emplaced(m, resolve(U32At(d, pos)), group));
    }
  }

  lemma {:induction false} FormsStopExactlyWhen(d: Bytes, pos: nat, n: nat, resolve: Resolve, forms: set<FormId>)
    requires pos <= |d|
    ensures FormEntries(d, pos, n, resolve, forms).None? <==> pos + 4 * n > |d|
    decreases n
  {
    hide U32At;
    if n > 0 && Has(d, pos, 4) {
      FormsStopExactlyWhen(d, pos + 4, n - 1, resolve, Inserted(forms, resolve(U32At(d, pos))));
    }
  }

  lemma {:induction false} AmountsStopExactlyWhen(d: Bytes, pos: nat, n: nat, kind: AmountKind,
      m: map<ActorValue, Float>)
    requires pos <= |d|
    ensures AmountEntries(d, pos, n, kind, m).None? <==> pos + 8 * n > |d|
    decreases n
  {
    hide U32At, IsSupported, ClampBits;
    if n > 0 && Has(d, pos, 8) {
      AmountsStopExactlyWhen(d, pos + 8, n - 1, kind, Assigned(m, kind, U32At(d, pos), U32At(d, pos + 4)));
    }
  }

  /**
   * A list record whose bytes may end before its declared length aborts the load exactly when its count, or one of
   * the entries that count and length announce, is not all there.
   */
  lemma ListRecordAbortsExactlyWhen(s: Loaded, r: Record, resolve: Resolve)
    requires r.tag in {REGI, BLCK, NTFY, RWDS, BEFX}
    requires (r.tag == REGI ==> r.version in {1, 2}) && (r.tag == BEFX ==> r.version == 1)
    ensures var size := if r.tag in {BLCK, NTFY} || (r.tag == REGI && r.version == 1) then 4 else 8;
      Handle(s, r, resolve).None? <==>
        || r.length < 4 || |r.data| < 4
        || var n := MinInt(U32At(r.data, 0), (r.length - 4) / size);
           4 + size * (if r.tag == RWDS then MinInt(n, 256) else n) > |r.data|
  {
    hide U32At, RegisteredEntries, FormEntries, AmountEntries;
    if r.length >= 4 && |r.data| >= 4 {
      var count, rest := U32At(r.data, 0), r.length - 4;
      if r.tag == REGI {
        var wide := r.version == 2;
        RegisteredStopExactlyWhen(r.data, 4, ReadableCount(count, rest, RegisteredEntrySize(wide)), wide, resolve,
                                  s.registered);
      }
      FormsStopExactlyWhen(r.data, 4, ReadableCount(count, rest, 4), resolve,
                           if r.tag == BLCK then s.blocked else s.notified);
      AmountsStopExactlyWhen(r.data, 4, ReadableCount(count, rest, 8), BuildEffect, s.buildApplied);
      AmountsStopExactlyWhen(r.data, 4, MinInt(ReadableCount(count, rest, 8), 256), RewardTotal, s.rewardTotals);
    }
  }

  /** A record of fixed size aborts the load exactly when it is declared or found too short. */
  lemma FixedRecordAbortsExactlyWhen(s: Loaded, r: Record, resolve: Resolve)
    requires (r.tag == BSCR && r.version in {1, 2}) || (r.tag == BMIG && r.version == 1)
    ensures var size := if r.tag == BMIG then 14 else 12 * r.version;
      Handle(s, r, resolve).None? <==> r.length < size || |r.data| < size
  {
  }

  // ---- Files from before the migration record ------------------------------------------------

  lemma OthersKeepMigration(s: Loaded, r: Record, resolve: Resolve)
    requires r.tag != BMIG
    ensures var read := Handle(s, r, resolve);
      read.Some? ==> read.value.migrationVersion == s.migrationVersion && read.value.migrationState == s.migrationState
  {
    hide U32At, RegisteredEntries, FormEntries, AmountEntries, UndoEntries, SlotTexts;
  }

  lemma {:induction false} WithoutMigrationRecord(s: Loaded, rs: seq<Record>, resolve: Resolve)
    requires forall r | r in rs :: r.tag != BMIG
    ensures var read := HandleAll(s, rs, resolve);
      read.Some? ==> read.value.migrationVersion == s.migrationVersion && read.value.migrationState == s.migrationState
    decreases |rs|
  {
    hide Handle;
    if rs != [] {
      OthersKeepMigration(s, rs[0], resolve);
      var next := Handle(s, rs[0], resolve);
      if next.Some? {
        WithoutMigrationRecord(next.value, rs[1..], resolve);
      }
    }
  }

  /** A file that has no migration record is an old one: loading it migrates it, whatever else it holds. */
  lemma FilesWithoutMigrationAreMigrated(rs: seq<Record>, resolve: Resolve, forms: Migration.Forms)
    requires forall r | r in rs :: r.tag != BMIG
    requires HandleAll(Cleared(), rs, resolve).Some?
    ensures var read := HandleAll(Cleared(), rs, resolve).value;
      var live := Migration.Normalized(read, forms, None);
      && live.migrationVersion == 2 && live.slots == NO_SLOTS && live.registered == read.registered
      && live.migrationState == (if read.rewardTotals == map[] then Complete else PendingCleanup)
      && live.scores == Migration.DerivedScores(Migration.Source(forms, None, read.registered), read.registered.Keys)
      && live.points == Migration.DerivedPoints(Migration.Source(forms, None, read.registered), read.registered.Keys)
  {
    WithoutMigrationRecord(Cleared(), rs, resolve);
    hide HandleAll, Migration.DerivedScores, Migration.DerivedPoints, Migration.DerivedUnresolved,
         Migration.HasLegacyUndo, Migration.Stripped;
  }

  /** What a load starts from: nothing known, nothing kept, and the first action id. */
  lemma LoadsStartEmpty()
    ensures var s: Loaded := Cleared();
      && s.registered == s.rewardTotals == s.buildApplied == map[] && s.blocked == s.notified == {}
      && s.scores == s.points == PerDiscipline(0, 0, 0) && (forall i: SlotId :: s.slots[i] == "")
      && s.migrationVersion == 0 && s.undoHistory == [] && s.nextActionId == 1 && !s.notice.needsNotice
  {
  }
}
