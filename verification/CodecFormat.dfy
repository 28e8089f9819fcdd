// The co-save's record format: what each record type's reader makes of a record's bytes.
//
// A reader works on one record at a time and never past its end. `None` is an aborted load.
module CodecFormat {
  import opened ActorValues
  import opened Bytes
  import opened Catalog
  import opened State
  import Registration

  type Loaded = Snapshot<Float>
  type Resolve = FormId -> Option<FormId>

  /** `length` is the declared length; the file may hold fewer bytes than that. */
  datatype Record = Record(tag: u32, version: u32, length: u32, data: Bytes) {
    predicate WellFormed() { |data| <= length }

    predicate Whole() { |data| == length }
  }

  const REGI: u32 := 0x52454749
  const BLCK: u32 := 0x424C434B
  const NTFY: u32 := 0x4E544659
  const RWDS: u32 := 0x52574453
  const UNDO: u32 := 0x554E444F
  const BSCR: u32 := 0x42534352
  const BSLT: u32 := 0x42534C54
  const BMIG: u32 := 0x424D4947
  const BEFX: u32 := 0x42454658

  const KNOWN_TAGS := {REGI, BLCK, NTFY, RWDS, UNDO, BSCR, BSLT, BMIG, BEFX}

  const MAX_REWARD_ENTRIES: nat := 256
  const MAX_UNDO_REWARD_DELTAS: nat := 64
  const MAX_SLOT_TEXT: nat := 128
  const GROUP_UNKNOWN: u32 := 255

  // ---- Filters -----------------------------------------------------------------------------

  predicate IsSupportedReward(av: ActorValue) {
    av in {ONE_HANDED, TWO_HANDED, ARCHERY, CRITICAL_CHANCE, UNARMED_DAMAGE, STAMINA_RATE, STAMINA, SPEED_MULT,
           CARRY_WEIGHT, DAMAGE_RESIST, HEALTH, RESIST_MAGIC, RESIST_FIRE, RESIST_FROST, RESIST_SHOCK, HEAL_RATE,
           REFLECT_DAMAGE, HEAVY_ARMOR, SMITHING_MODIFIER, LIGHT_ARMOR, BLOCK, MAGICKA, MAGICKA_RATE, POISON_RESIST,
           RESIST_DISEASE, ALCHEMY_MODIFIER, ALCHEMY, DESTRUCTION_MODIFIER, RESTORATION_MODIFIER, ALTERATION_MODIFIER,
           CONJURATION_MODIFIER, ILLUSION_MODIFIER, ENCHANTING_MODIFIER, ABSORB_CHANCE, SHOUT_RECOVERY_MULT,
           SPEECHCRAFT_MODIFIER, LOCKPICKING_MODIFIER, PICKPOCKET_MODIFIER, SNEAKING_MODIFIER, LOCKPICKING,
           PICKPOCKET, ATTACK_DAMAGE_MULT}
  }

  datatype AmountKind = RewardTotal | BuildEffect

  predicate IsSupported(kind: AmountKind, av: ActorValue) {
    match kind
    case RewardTotal => IsSupportedReward(av)
    case BuildEffect => IsSupportedBuildEffect(av)
  }

  /** The cap and the sum of cap and tolerance, both as floats; the sum is rounded to the nearest float. */
  datatype CapBits = CapBits(cap: Float, limit: Float)

  function CapBitsOf(av: ActorValue): Option<CapBits> {
    if av == ATTACK_DAMAGE_MULT then Some(CapBits(0x3F80_0000, 0x3F80_20C5))
    else if av == CRITICAL_CHANCE then Some(CapBits(0x4248_0000, 0x4248_0106))
    else if av in {RESIST_MAGIC, RESIST_FIRE, RESIST_FROST, RESIST_SHOCK, POISON_RESIST, RESIST_DISEASE} then
      Some(CapBits(0x42AA_0000, 0x42AA_0083))
    else if av in {ABSORB_CHANCE, REFLECT_DAMAGE} then Some(CapBits(0x42A0_0000, 0x42A0_0083))
    else if av == SPEED_MULT then Some(CapBits(0x3F00_0000, 0x3F00_4189))
    else None
  }

  function ClampBits(av: ActorValue, total: Float): Float {
    if !IsFinite(total) then 0
    else
      match CapBitsOf(av)
      case None => total
      case Some(c) => if IsAbove(total, c.limit) then c.cap else total
  }

  /** Reading an amount a second time changes nothing more. */
  lemma ClampBitsIsFinal(av: ActorValue, total: Float)
    ensures ClampBits(av, ClampBits(av, total)) == ClampBits(av, total)
    ensures IsFinite(ClampBits(av, total))
  {
  }

  /** `x` as a multiple of the smallest positive float, given that 2 to the `24 + n` of those make up one. */
  function InUnits(x: real, n: nat): real { (x * 16777216.0) * Pow2(n) }

  /** The smallest positive float is 2 to the -149. */
  const UNIT_EXPONENT: nat := 125

  lemma {:induction false} Pow2OfSum(m: nat, n: nat)
    ensures Pow2(m + n) == Pow2(m) * Pow2(n)
  {
    if m > 0 {
      Pow2OfSum(m - 1, n);
    }
  }

  lemma UnitsInBinade(f: Float, n: nat, k: nat, p: real)
    requires Exponent(f) == n + 1 + k && f < 0x7F80_0000 && Pow2(k) == p
    ensures Units(f) == (Mantissa(f) * p) * Pow2(n)
  {
    Pow2OfSum(k, n);
    hide Mantissa, Exponent, Pow2;
    Regroup(Mantissa(f), p, Pow2(n));
  }

  lemma Regroup(m: real, a: real, b: real)
    ensures m * (a * b) == (m * a) * b
  {
  }

  /** The tolerance as the source holds it: the float with these bits, a little over 0.001. */
  const TOLERANCE_BITS: Float := 0x3A83_126F
  const FLOAT_TOLERANCE: real := 8589935.0 / 8589934592.0

  lemma ToleranceBits()
    ensures Units(TOLERANCE_BITS) == InUnits(FLOAT_TOLERANCE, UNIT_EXPONENT)
  {
    hide Pow2;
    assert Mantissa(TOLERANCE_BITS) == 8589935.0 && Exponent(TOLERANCE_BITS) == 117;
    Pow2OfSum(9, 116);
    assert Pow2(9) == 512.0 by { SmallPowers(); }
    Regroup(FLOAT_TOLERANCE * 16777216.0, 512.0, Pow2(116));
  }

  lemma ScaledDistance(m: real, e: real, p: real, u: real)
    requires -p < 2.0 * (m * p - e) < p && u >= 1.0
    ensures -(p * u) < 2.0 * ((m * p) * u - e * u) < p * u
    ensures ((m + 1.0) * p) * u - (m * p) * u == p * u == (m * p) * u - ((m - 1.0) * p) * u
  {
    var x := m * p - e;
    assert (m * p) * u - e * u == x * u;
    Scale(2.0 * x, p, u);
    Scale(-p, 2.0 * x, u);
  }

  lemma FartherOut(l: real, e: real, step: real, x: real)
    requires -step < 2.0 * (l - e) < step && (x >= l + step || x <= l - step)
    ensures Abs(l - e) < Abs(x - e)
  {
  }

  /** No float is as near to `e` as `l`. */
  ghost predicate IsNearest(l: Float, e: real)
    requires l < 0x7F80_0000
  {
    forall f: Float | f < 0x7F80_0000 && f != l :: Abs(Units(l) - e) < Abs(Units(f) - e)
  }

  lemma AtOrBeyond(f: Float, g: Float)
    requires f <= g < 0x7F80_0000
    ensures Units(f) <= Units(g)
  {
    if f < g {
      BitsAreOrdered(f, g);
    }
  }

  lemma NeighbourMantissas(l: Float)
    requires 1 <= l < 0x7F7F_FFFF && Exponent(l - 1) == Exponent(l) == Exponent(l + 1)
    ensures Mantissa(l - 1) == Mantissa(l) - 1.0 && Mantissa(l + 1) == Mantissa(l) + 1.0
  {
  }

  lemma InUnitsIs(x: real, n: nat, scaled: real)
    requires scaled == x * 16777216.0
    ensures InUnits(x, n) == scaled * Pow2(n)
  {
    hide Pow2;
  }

  lemma NearestInBinade(l: Float, scaled: real, e: real, n: nat, k: nat, p: real)
    requires 1 <= l < 0x7F7F_FFFF && Pow2(k) == p && e == scaled * Pow2(n)
    requires Exponent(l - 1) == Exponent(l) == Exponent(l + 1) == n + 1 + k
    requires -p < 2.0 * (Mantissa(l) * p - scaled) < p
    ensures IsNearest(l, e)
  {
    hide *;
    var m, u := Mantissa(l), Pow2(n);
    NeighbourMantissas(l);
    UnitsInBinade(l, n, k, p);
    UnitsInBinade(l - 1, n, k, p);
    UnitsInBinade(l + 1, n, k, p);
    ScaledDistance(m, scaled, p, u);
    NearestBetween(l, e, p * u);
  }

  lemma NearestBetween(l: Float, e: real, step: real)
    requires 1 <= l < 0x7F7F_FFFF && -step < 2.0 * (Units(l) - e) < step
    requires Units(l + 1) - Units(l) == step == Units(l) - Units(l - 1)
    ensures IsNearest(l, e)
  {
    hide Units, Abs;
    forall f: Float | f < 0x7F80_0000 && f != l ensures Abs(Units(l) - e) < Abs(Units(f) - e) {
      if f > l {
        AtOrBeyond(l + 1, f);
      } else {
        AtOrBeyond(f, l - 1);
      }
      FartherOut(Units(l), e, step, Units(f));
    }
  }

  lemma CapInBinade(c: CapBits, cap: real, sum: real, scaled: real, n: nat, k: nat, p: real)
    requires 1 <= c.limit < 0x7F7F_FFFF && c.cap < 0x7F80_0000 && Pow2(k) == p
    requires Exponent(c.cap) == Exponent(c.limit - 1) == Exponent(c.limit) == Exponent(c.limit + 1) == n + 1 + k
    requires Mantissa(c.cap) * p == cap * 16777216.0 && scaled == sum * 16777216.0
    requires -p < 2.0 * (Mantissa(c.limit) * p - scaled) < p
    ensures Units(c.cap) == InUnits(cap, n) && IsNearest(c.limit, InUnits(sum, n))
  {
    hide *;
    UnitsInBinade(c.cap, n, k, p);
    InUnitsIs(cap, n, Mantissa(c.cap) * p);
    InUnitsIs(sum, n, scaled);
    NearestInBinade(c.limit, scaled, InUnits(sum, n), n, k, p);
  }

  lemma SmallPowers()
    ensures Pow2(0) == 1.0 && Pow2(1) == 2.0 && Pow2(6) == 64.0 && Pow2(7) == 128.0 && Pow2(9) == 512.0
  {
  }

  /** The cap as a float is the cap; the limit is the float nearest to the sum of the cap and the tolerance. */
  lemma CapBitsMeanTheCap(av: ActorValue)
    ensures CapBitsOf(av).Some? <==> RewardCap(av).Some?
    ensures CapBitsOf(av).Some? ==>
      var c := CapBitsOf(av).value;
      var cap := RewardCap(av).value;
      && Units(c.cap) == InUnits(cap, UNIT_EXPONENT)
      && IsNearest(c.limit, InUnits(cap + FLOAT_TOLERANCE, UNIT_EXPONENT))
  {
    hide Pow2, Units, InUnits, IsNearest;
    SmallPowers();
    if CapBitsOf(av).Some? {
      var c := CapBitsOf(av).value;
      if c.cap == 0x3F80_0000 {
        CapInBinade(c, 1.0, 1.0 + FLOAT_TOLERANCE, 1.0 * 16777216.0 + 16777.216796875, UNIT_EXPONENT, 1, 2.0);
      } else if c.cap == 0x4248_0000 {
        CapInBinade(c, 50.0, 50.0 + FLOAT_TOLERANCE, 50.0 * 16777216.0 + 16777.216796875, UNIT_EXPONENT, 6, 64.0);
      } else if c.cap == 0x42AA_0000 {
        CapInBinade(c, 85.0, 85.0 + FLOAT_TOLERANCE, 85.0 * 16777216.0 + 16777.216796875, UNIT_EXPONENT, 7, 128.0);
      } else if c.cap == 0x42A0_0000 {
        CapInBinade(c, 80.0, 80.0 + FLOAT_TOLERANCE, 80.0 * 16777216.0 + 16777.216796875, UNIT_EXPONENT, 7, 128.0);
      } else {
        CapInBinade(c, 0.5, 0.5 + FLOAT_TOLERANCE, 0.5 * 16777216.0 + 16777.216796875, UNIT_EXPONENT, 0, 1.0);
      }
    }
  }

  /** Clamping on the bits compares the values the bits stand for. */
  lemma ClampBitsComparesValues(av: ActorValue, total: Float)
    requires CapBitsOf(av).Some? && IsFinite(total)
    ensures var c := CapBitsOf(av).value;
      ClampBits(av, total) == if total < 0x8000_0000 && Units(total) > Units(c.limit) then c.cap else total
  {
    hide Units;
    var c := CapBitsOf(av).value;
    if total < 0x8000_0000 {
      assert total < 0x7F80_0000;
      if total < c.limit {
        BitsAreOrdered(total, c.limit);
      } else if c.limit < total {
        BitsAreOrdered(c.limit, total);
      }
    }
  }

  // ---- REGI --------------------------------------------------------------------------------

  predicate Has(d: Bytes, pos: nat, n: nat) { pos + n <= |d| }

  /** emplace: the first entry for a key wins. */
  function Emplaced(m: map<FormId, u32>, id: Option<FormId>, group: u32): map<FormId, u32> {
    if id.None? || id.value in m then m else m[id.value := group]
  }

  function RegisteredEntrySize(wide: bool): nat { if wide then 8 else 4 }

  function RegisteredEntries(d: Bytes, pos: nat, n: nat, wide: bool, resolve: Resolve,
      m: map<FormId, u32>): Option<map<FormId, u32>>
    decreases n
  {
    if n == 0 then Some(m)
    else if !Has(d, pos, RegisteredEntrySize(wide)) then None
    else
      var group := if wide then U32At(d, pos + 4) else GROUP_UNKNOWN;
      RegisteredEntries(d, pos + RegisteredEntrySize(wide), n - 1, wide, resolve,
                        Emplaced(m, resolve(U32At(d, pos)), group))
  }

  function EntryStart(pos: nat, k: nat, wide: bool): nat { pos + if wide then 8 * k else 4 * k }

  /** The key that entry `k` of a registered record resolves to. */
  function EntryKey(d: Bytes, pos: nat, k: nat, wide: bool, resolve: Resolve): Option<FormId>
    requires EntryStart(pos, k + 1, wide) <= |d|
  {
    resolve(U32At(d, EntryStart(pos, k, wide)))
  }

  /** Its group; a version 1 file stores none. */
  function EntryGroup(d: Bytes, pos: nat, k: nat, wide: bool): u32
    requires EntryStart(pos, k + 1, wide) <= |d|
  {
    if wide then U32At(d, EntryStart(pos, k, wide) + 4) else GROUP_UNKNOWN
  }

  /** The first of `n` entries that resolves to `id`. */
  function FirstEntryFor(d: Bytes, pos: nat, n: nat, wide: bool, resolve: Resolve, id: FormId): (r: Option<nat>)
    requires EntryStart(pos, n, wide) <= |d|
    ensures match r
      case None => forall k | 0 <= k < n :: EntryKey(d, pos, k, wide, resolve) != Some(id)
      case Some(f) =>
        && f < n && EntryKey(d, pos, f, wide, resolve) == Some(id)
        && (forall k | 0 <= k < f :: EntryKey(d, pos, k, wide, resolve) != Some(id))
  {
    if n == 0 then None
    else
      var before := FirstEntryFor(d, pos, n - 1, wide, resolve, id);
      if before.Some? then before else if EntryKey(d, pos, n - 1, wide, resolve) == Some(id) then Some(n - 1) else None
  }

  /** The entries as they stand, read one at a time. */
  lemma NextEntry(d: Bytes, pos: nat, k: nat, wide: bool, resolve: Resolve)
    requires EntryStart(pos, k + 2, wide) <= |d|
    ensures EntryKey(d, pos + RegisteredEntrySize(wide), k, wide, resolve) == EntryKey(d, pos, k + 1, wide, resolve)
    ensures EntryGroup(d, pos + RegisteredEntrySize(wide), k, wide) == EntryGroup(d, pos, k + 1, wide)
  {
    assert EntryStart(pos + RegisteredEntrySize(wide), k, wide) == EntryStart(pos, k + 1, wide);
    hide U32At;
  }

  lemma ReadOneEntry(d: Bytes, pos: nat, n: nat, wide: bool, resolve: Resolve, m: map<FormId, u32>)
    requires n > 0 && EntryStart(pos, n, wide) <= |d|
    ensures RegisteredEntries(d, pos, n, wide, resolve, m)
         == RegisteredEntries(d, pos + RegisteredEntrySize(wide), n - 1, wide, resolve,
                              Emplaced(m, EntryKey(d, pos, 0, wide, resolve), EntryGroup(d, pos, 0, wide)))
  {
    hide U32At;
  }

  lemma {:induction false} PresentKeysStay(d: Bytes, pos: nat, n: nat, wide: bool, resolve: Resolve,
      m: map<FormId, u32>, id: FormId)
    requires EntryStart(pos, n, wide) <= |d| && id in m
    ensures var read := RegisteredEntries(d, pos, n, wide, resolve, m);
      read.Some? && id in read.value && read.value[id] == m[id]
    decreases n
  {
    if n > 0 {
      ReadOneEntry(d, pos, n, wide, resolve, m);
      hide U32At, EntryKey, EntryGroup, RegisteredEntries;
      PresentKeysStay(d, pos + RegisteredEntrySize(wide), n - 1, wide, resolve,
                      Emplaced(m, EntryKey(d, pos, 0, wide, resolve), EntryGroup(d, pos, 0, wide)), id);
    }
  }

  lemma NoKeyLaterEither(d: Bytes, pos: nat, later: nat, first: nat, wide: bool, resolve: Resolve, id: FormId)
    requires later == pos + RegisteredEntrySize(wide) && first > 0 && EntryStart(pos, first, wide) <= |d|
    requires forall k | 0 <= k < first :: EntryKey(d, pos, k, wide, resolve) != Some(id)
    ensures forall k | 0 <= k < first - 1 :: EntryKey(d, later, k, wide, resolve) != Some(id)
  {
    forall k | 0 <= k < first - 1 ensures EntryKey(d, later, k, wide, resolve) != Some(id) {
      NextEntry(d, pos, k, wide, resolve);
      assert EntryKey(d, pos, k + 1, wide, resolve) != Some(id);
    }
  }

  lemma {:induction false} FirstEntryWins(d: Bytes, pos: nat, n: nat, wide: bool, resolve: Resolve,
      m: map<FormId, u32>, id: FormId, first: nat)
    requires EntryStart(pos, n, wide) <= |d| && id !in m
    requires first <= n && forall k | 0 <= k < first :: EntryKey(d, pos, k, wide, resolve) != Some(id)
    requires first < n ==> EntryKey(d, pos, first, wide, resolve) == Some(id)
    ensures var read := RegisteredEntries(d, pos, n, wide, resolve, m);
      && read.Some? && (id in read.value <==> first < n)
      && (first < n ==> read.value[id] == EntryGroup(d, pos, first, wide))
    decreases n
  {
    if n > 0 {
      ReadOneEntry(d, pos, n, wide, resolve, m);
      hide U32At, EntryKey, EntryGroup, RegisteredEntries;
      var next := Emplaced(m, EntryKey(d, pos, 0, wide, resolve), EntryGroup(d, pos, 0, wide));
      var later := pos + RegisteredEntrySize(wide);
      if first == 0 {
        PresentKeysStay(d, later, n - 1, wide, resolve, next, id);
      } else {
        assert EntryKey(d, pos, 0, wide, resolve) != Some(id);
        NoKeyLaterEither(d, pos, later, first, wide, resolve, id);
        if first < n {
          NextEntry(d, pos, first - 1, wide, resolve);
        }
        FirstEntryWins(d, later, n - 1, wide, resolve, next, id, first - 1);
      }
    }
  }

  /** What reading whole entries makes of a key: there already, it stays; new, it gets the group of its first entry. */
  lemma EntriesAddFirstGroups(d: Bytes, pos: nat, n: nat, wide: bool, resolve: Resolve, m: map<FormId, u32>, id: FormId)
    requires EntryStart(pos, n, wide) <= |d|
    ensures var read := RegisteredEntries(d, pos, n, wide, resolve, m);
      var first := FirstEntryFor(d, pos, n, wide, resolve, id);
      && read.Some? && (id in read.value <==> id in m || first.Some?)
      && (id in m ==> read.value[id] == m[id])
      && (id !in m && first.Some? ==> read.value[id] == EntryGroup(d, pos, first.value, wide))
  {
    var first := FirstEntryFor(d, pos, n, wide, resolve, id);
    if id in m {
      PresentKeysStay(d, pos, n, wide, resolve, m, id);
    } else {
      hide FirstEntryFor;
      FirstEntryWins(d, pos, n, wide, resolve, m, id, if first.Some? then first.value else n);
    }
  }

  function ReadableCount(count: u32, remaining: nat, size: nat): nat
    requires size > 0
  {
    MinInt(count, remaining / size)
  }

  function HandleRegistered(s: Loaded, r: Record, resolve: Resolve): Option<Loaded> {
    if r.length < 4 || !Has(r.data, 0, 4) then None
    else if r.version != 1 && r.version != 2 then Some(s)
    else
      var wide := r.version == 2;
      var n := ReadableCount(U32At(r.data, 0), r.length - 4, RegisteredEntrySize(wide));
      match RegisteredEntries(r.data, 4, n, wide, resolve, s.registered)
      case None => None
      case Some(m) => Some(s.(registered := m))
  }

  // ---- BLCK and NTFY -----------------------------------------------------------------------

  function Inserted(forms: set<FormId>, id: Option<FormId>): set<FormId> {
    if id.None? then forms else forms + {id.value}
  }

  function FormEntries(d: Bytes, pos: nat, n: nat, resolve: Resolve, forms: set<FormId>): Option<set<FormId>>
    decreases n
  {
    if n == 0 then Some(forms)
    else if !Has(d, pos, 4) then None
    else FormEntries(d, pos + 4, n - 1, resolve, Inserted(forms, resolve(U32At(d, pos))))
  }

  function HandleForms(s: Loaded, r: Record, resolve: Resolve): Option<Loaded> {
    if r.length < 4 || !Has(r.data, 0, 4) then None
    else
      var n := ReadableCount(U32At(r.data, 0), r.length - 4, 4);
      match FormEntries(r.data, 4, n, resolve, if r.tag == BLCK then s.blocked else s.notified)
      case None => None
      case Some(forms) => Some(if r.tag == BLCK then s.(blocked := forms) else s.(notified := forms))
  }

  // ---- BSCR --------------------------------------------------------------------------------

  function ScoresSize(version: u32): nat { if version >= 2 then 24 else 12 }

  function TripleAt(d: Bytes, pos: nat): PerDiscipline
    requires Has(d, pos, 12)
  {
    PerDiscipline(U32At(d, pos), U32At(d, pos + 4), U32At(d, pos + 8))
  }

  function HandleScores(s: Loaded, r: Record): Option<Loaded> {
    if r.version != 1 && r.version != 2 then Some(s)
    else if r.length < ScoresSize(r.version) || !Has(r.data, 0, ScoresSize(r.version)) then None
    else
      var scored := s.(scores := TripleAt(r.data, 0));
      Some(if r.version >= 2 then scored.(points := TripleAt(r.data, 12)) else scored)
  }

  // ---- BSLT --------------------------------------------------------------------------------

  function CutText(d: Bytes): string {
    TextOf(if |d| > MAX_SLOT_TEXT then d[..MAX_SLOT_TEXT] else d)
  }

  /** The length-prefixed text at `pos`, with `remaining` bytes of the record to go; None when it cannot be read. */
  function TextLengthAt(d: Bytes, pos: nat, remaining: nat): Option<nat> {
    if remaining < 4 || !Has(d, pos, 4) then None
    else
      var length := U32At(d, pos);
      if length > remaining - 4 || !Has(d, pos + 4, length) then None else Some(length)
  }

  function SlotTexts(d: Bytes, pos: nat, remaining: nat, i: nat, count: nat, slots: Slots): Option<Slots>
    decreases count - i
  {
    if i >= count || remaining == 0 then Some(slots)
    else
      var length := TextLengthAt(d, pos, remaining);
      if length.None? then None
      else
        var text := CutText(d[pos + 4..pos + 4 + length.value]);
        SlotTexts(d, pos + 4 + length.value, remaining - 4 - length.value, i + 1, count,
                  if i < SLOT_COUNT then slots[i := text] else slots)
  }

  function HandleSlots(s: Loaded, r: Record): Option<Loaded> {
    if r.version != 1 then Some(s)
    else if r.length < 4 || !Has(r.data, 0, 4) then None
    else
      match SlotTexts(r.data, 4, r.length - 4, 0, U32At(r.data, 0), NO_SLOTS)
      case None => None
      case Some(slots) => Some(s.(slots := slots))
  }

  // ---- BMIG --------------------------------------------------------------------------------

  const MIGRATION_SIZE: nat := 14

  /** The enumeration is one byte wide; a wider stored value loses its upper bytes. */
  function MigrationStateOf(raw: u32): MigrationState {
    match raw % 0x100
    case 0 => NotStarted
    case 1 => PendingCleanup
    case 2 => Complete
    case b => UndefinedState(b)
  }

  function RawMigrationState(m: MigrationState): u32 {
    match m
    case NotStarted => 0
    case PendingCleanup => 1
    case Complete => 2
    case UndefinedState(b) => b
  }

  function HandleMigration(s: Loaded, r: Record): Option<Loaded> {
    if r.version != 1 then Some(s)
    else if r.length < MIGRATION_SIZE || !Has(r.data, 0, MIGRATION_SIZE) then None
    else
      Some(s.(migrationVersion := U32At(r.data, 0), migrationState := MigrationStateOf(U32At(r.data, 4)),
              notice := Notice(r.data[8] != 0, r.data[9] != 0, U32At(r.data, 10))))
  }

  // ---- RWDS and BEFX -----------------------------------------------------------------------

  function Assigned(m: map<ActorValue, Float>, kind: AmountKind, av: ActorValue, total: Float): map<ActorValue, Float> {
    if IsSupported(kind, av) then m[av := ClampBits(av, total)] else m
  }

  function AmountEntries(d: Bytes, pos: nat, n: nat, kind: AmountKind,
      m: map<ActorValue, Float>): Option<map<ActorValue, Float>>
    decreases n
  {
    if n == 0 then Some(m)
    else if !Has(d, pos, 8) then None
    else AmountEntries(d, pos + 8, n - 1, kind, Assigned(m, kind, U32At(d, pos), U32At(d, pos + 4)))
  }

  function HandleRewards(s: Loaded, r: Record): Option<Loaded> {
    if r.length < 4 || !Has(r.data, 0, 4) then None
    else
      var n := ReadableCount(U32At(r.data, 0), r.length - 4, 8);
      match AmountEntries(r.data, 4, MinInt(n, MAX_REWARD_ENTRIES), RewardTotal, s.rewardTotals)
      case None => None
      case Some(m) => Some(s.(rewardTotals := m))
  }

  function HandleEffects(s: Loaded, r: Record): Option<Loaded> {
    if r.version != 1 then Some(s)
    else if r.length < 4 || !Has(r.data, 0, 4) then None
    else
      var n := ReadableCount(U32At(r.data, 0), r.length - 4, 8);
      match AmountEntries(r.data, 4, n, BuildEffect, s.buildApplied)
      case None => None
      case Some(m) => Some(s.(buildApplied := m))
  }

  // ---- UNDO --------------------------------------------------------------------------------

  function UndoHeaderSize(version: u32): nat {
    if version >= 4 then 40 else if version == 3 then 36 else 24
  }

  function DisciplineOf(raw: u32): Discipline {
    match raw % 0x100
    case 0 => Attack
    case 1 => Defense
    case 2 => Utility
    case b => UndefinedDiscipline(b)
  }

  function RawDiscipline(d: Discipline): u32 {
    match d
    case Attack => 0
    case Defense => 1
    case Utility => 2
    case UndefinedDiscipline(b) => b
  }

  function LegacyPointsDelta(d: Discipline, recordDelta: i32): i32 {
    var perRecord := match d
      case Attack => 60
      case Defense => 35
      case Utility => 10
      case UndefinedDiscipline(_) => 0;
    WrapI32(perRecord * recordDelta)
  }

  /** Version 3 stored no points and version 2 no contribution at all. */
  function ContributionAt(d: Bytes, pos: nat, version: u32): Option<Contribution>
    requires Has(d, pos, UndoHeaderSize(version))
  {
    if version < 3 || U32At(d, pos + 20) == 0 then None
    else
      var discipline := DisciplineOf(U32At(d, pos + 24));
      var recordDelta := I32Of(U32At(d, pos + 28));
      Some(Contribution(discipline, recordDelta,
                        if version == 3 then LegacyPointsDelta(discipline, recordDelta) else I32Of(U32At(d, pos + 32))))
  }

  function KeptDelta(av: ActorValue, delta: Float, index: nat): seq<RewardDelta<Float>> {
    if index < MAX_UNDO_REWARD_DELTAS && IsSupportedReward(av) then [RewardDelta(av, delta)] else []
  }

  function DeltaEntries(d: Bytes, pos: nat, j: nat, n: nat,
      kept: seq<RewardDelta<Float>>): Option<seq<RewardDelta<Float>>>
    decreases n - j
  {
    if j >= n then Some(kept)
    else if !Has(d, pos, 8) then None
    else DeltaEntries(d, pos + 8, j + 1, n, kept + KeptDelta(U32At(d, pos), U32At(d, pos + 4), j))
  }

  function Kept(history: seq<UndoRecord<Float>>, entry: UndoRecord<Float>, key: Option<FormId>,
      form: Option<FormId>): seq<UndoRecord<Float>> {
    if key.None? || form.None? then history
    else Registration.Last(history + [entry.(regKey := key.value, formId := form.value)], Registration.UNDO_LIMIT)
  }

  function UndoDeltaCount(d: Bytes, pos: nat, remaining: nat, version: u32): nat
    requires Has(d, pos, UndoHeaderSize(version)) && remaining >= UndoHeaderSize(version)
  {
    ReadableCount(U32At(d, pos + UndoHeaderSize(version) - 4), remaining - UndoHeaderSize(version), 8)
  }

  function UndoEntries(d: Bytes, pos: nat, remaining: nat, n: nat, version: u32, resolve: Resolve,
      history: seq<UndoRecord<Float>>)
    : Option<seq<UndoRecord<Float>>>
    decreases n
  {
    var header := UndoHeaderSize(version);
    if n == 0 || remaining < header then Some(history)
    else if !Has(d, pos, header) then None
    else
      var deltas := UndoDeltaCount(d, pos, remaining, version);
      match DeltaEntries(d, pos + header, 0, deltas, [])
      case None => None
      case Some(kept) =>
        var entry := UndoRecord(U64At(d, pos), U32At(d, pos + 8), U32At(d, pos + 12), U32At(d, pos + 16),
                                ContributionAt(d, pos, version), kept);
        UndoEntries(d, pos + header + 8 * deltas, remaining - header - 8 * deltas, n - 1, version, resolve,
                    Kept(history, entry, resolve(entry.regKey), resolve(entry.formId)))
  }

  function NextActionId(stored: u64, history: seq<UndoRecord<Float>>): u64 {
    MaxInt(stored, if history == [] then 1 else Registration.NextId(history[|history| - 1].actionId))
  }

  function HandleUndo(s: Loaded, r: Record, resolve: Resolve): Option<Loaded> {
    if r.length < 12 || !Has(r.data, 0, 12) then None
    else
      match UndoEntries(r.data, 12, r.length - 12, U32At(r.data, 0), r.version, resolve, [])
      case None => None
      case Some(history) => Some(s.(undoHistory := history, nextActionId := NextActionId(U64At(r.data, 4), history)))
  }

  // ---- All records -------------------------------------------------------------------------

  function Handle(s: Loaded, r: Record, resolve: Resolve): Option<Loaded> {
    if r.tag == REGI then HandleRegistered(s, r, resolve)
    else if r.tag == BLCK || r.tag == NTFY then HandleForms(s, r, resolve)
    else if r.tag == BSCR then HandleScores(s, r)
    else if r.tag == BSLT then HandleSlots(s, r)
    else if r.tag == BMIG then HandleMigration(s, r)
    else if r.tag == RWDS then HandleRewards(s, r)
    else if r.tag == BEFX then HandleEffects(s, r)
    else if r.tag == UNDO then HandleUndo(s, r, resolve)
    else Some(s)
  }

  function HandleAll(s: Loaded, rs: seq<Record>, resolve: Resolve): Option<Loaded>
    decreases |rs|
  {
    if rs == [] then Some(s)
    else
      match Handle(s, rs[0], resolve)
      case None => None
      case Some(next) => HandleAll(next, rs[1..], resolve)
  }

  predicate IsUnknown(r: Record) { r.tag !in KNOWN_TAGS }

  /** Records of unknown types, wherever they stand, make no difference to the others. */
  lemma {:induction false} UnknownRecordsAreTransparent(s: Loaded, before: seq<Record>, unknown: Record,
      after: seq<Record>, resolve: Resolve)
    requires IsUnknown(unknown)
    ensures HandleAll(s, before + [unknown] + after, resolve) == HandleAll(s, before + after, resolve)
    decreases |before|
  {
    hide Handle;
    var all := before + [unknown] + after;
    if before == [] {
      UnknownIsSkipped(s, unknown, resolve);
      assert all[0] == unknown && all[1..] == after && before + after == after;
    } else {
      assert all[0] == before[0] && all[1..] == before[1..] + [unknown] + after;
      assert (before + after)[0] == before[0] && (before + after)[1..] == before[1..] + after;
      var next := Handle(s, before[0], resolve);
      if next.Some? {
        UnknownRecordsAreTransparent(next.value, before[1..], unknown, after, resolve);
      }
    }
  }

  lemma UnknownIsSkipped(s: Loaded, unknown: Record, resolve: Resolve)
    requires IsUnknown(unknown)
    ensures Handle(s, unknown, resolve) == Some(s)
  {
  }

  // ---- When a whole record aborts the load -------------------------------------------------

  /** The least a record of this type and version must hold. */
  function MinimalLength(r: Record): nat {
    if r.tag in {REGI, BLCK, NTFY, RWDS} then 4
    else if r.tag == BEFX && r.version == 1 then 4
    else if r.tag == BSCR && r.version in {1, 2} then ScoresSize(r.version)
    else if r.tag == BSLT && r.version == 1 then 4
    else if r.tag == BMIG && r.version == 1 then MIGRATION_SIZE
    else if r.tag == UNDO then 12
    else 0
  }

  lemma {:induction false} WholeRegisteredEntries(d: Bytes, pos: nat, n: nat, wide: bool, resolve: Resolve,
      m: map<FormId, u32>)
    requires pos + n * RegisteredEntrySize(wide) <= |d|
    ensures RegisteredEntries(d, pos, n, wide, resolve, m).Some?
    decreases n
  {
    if n > 0 {
      var group := if wide then U32At(d, pos + 4) else GROUP_UNKNOWN;
      WholeRegisteredEntries(d, pos + RegisteredEntrySize(wide), n - 1, wide, resolve,
                             Emplaced(m, resolve(U32At(d, pos)), group));
    }
  }

  lemma {:induction false} WholeFormEntries(d: Bytes, pos: nat, n: nat, resolve: Resolve, forms: set<FormId>)
    requires pos + 4 * n <= |d|
    ensures FormEntries(d, pos, n, resolve, forms).Some?
    decreases n
  {
    if n > 0 {
      WholeFormEntries(d, pos + 4, n - 1, resolve, Inserted(forms, resolve(U32At(d, pos))));
    }
  }

  lemma {:induction false} WholeAmountEntries(d: Bytes, pos: nat, n: nat, kind: AmountKind, m: map<ActorValue, Float>)
    requires pos + 8 * n <= |d|
    ensures AmountEntries(d, pos, n, kind, m).Some?
    decreases n
  {
    if n > 0 {
      WholeAmountEntries(d, pos + 8, n - 1, kind, Assigned(m, kind, U32At(d, pos), U32At(d, pos + 4)));
    }
  }

  lemma {:induction false} WholeDeltaEntries(d: Bytes, pos: nat, j: nat, n: nat, kept: seq<RewardDelta<Float>>)
    requires j <= n && pos + 8 * (n - j) <= |d|
    ensures DeltaEntries(d, pos, j, n, kept).Some?
    decreases n - j
  {
    if j < n {
      WholeDeltaEntries(d, pos + 8, j + 1, n, kept + KeptDelta(U32At(d, pos), U32At(d, pos + 4), j));
    }
  }

  lemma DeltaCountFits(d: Bytes, pos: nat, remaining: nat, version: u32)
    requires Has(d, pos, UndoHeaderSize(version)) && remaining >= UndoHeaderSize(version)
    ensures UndoHeaderSize(version) + 8 * UndoDeltaCount(d, pos, remaining, version) <= remaining
  {
    hide UndoHeaderSize, U32At;
  }

  lemma {:induction false} WholeUndoEntries(d: Bytes, pos: nat, remaining: nat, n: nat, version: u32,
      resolve: Resolve, history: seq<UndoRecord<Float>>)
    requires pos + remaining <= |d|
    ensures UndoEntries(d, pos, remaining, n, version, resolve, history).Some?
    decreases n
  {
    hide ContributionAt, Kept, DeltaEntries, UndoDeltaCount, U32At, U64At, ReadableCount;
    var header := UndoHeaderSize(version);
    if n > 0 && remaining >= header {
      var deltas := UndoDeltaCount(d, pos, remaining, version);
      DeltaCountFits(d, pos, remaining, version);
      hide UndoHeaderSize;
      WholeDeltaEntries(d, pos + header, 0, deltas, []);
      var kept := DeltaEntries(d, pos + header, 0, deltas, []).value;
      var entry := UndoRecord(U64At(d, pos), U32At(d, pos + 8), U32At(d, pos + 12), U32At(d, pos + 16),
                              ContributionAt(d, pos, version), kept);
      WholeUndoEntries(d, pos + header + 8 * deltas, remaining - header - 8 * deltas, n - 1, version, resolve,
                       Kept(history, entry, resolve(entry.regKey), resolve(entry.formId)));
    }
  }

  /** Where slot text `k` begins: every text before it takes its length prefix and that many bytes. */
  function TextStart(d: Bytes, pos: nat, k: nat): nat {
    if k == 0 then pos
    else
      var before := TextStart(d, pos, k - 1);
      if Has(d, before, 4) then before + 4 + U32At(d, before) else before
  }

  /** Something is left of the record for text `k`, but fewer bytes than its prefix needs or the prefix promises. */
  predicate IsBadText(d: Bytes, pos: nat, k: nat) {
    var start := TextStart(d, pos, k);
    start < |d| && (!Has(d, start, 4) || start + 4 + U32At(d, start) > |d|)
  }

  /** The slot record holds a text, among as many as it announces, that runs over the record's end. */
  predicate HasBadSlotText(r: Record) {
    && r.tag == BSLT && r.version == 1 && Has(r.data, 0, 4)
    && exists k :: 0 <= k < U32At(r.data, 0) && IsBadText(r.data, 4, k)
  }

  lemma {:induction false} TextStartFromNext(d: Bytes, pos: nat, k: nat)
    requires Has(d, pos, 4)
    ensures TextStart(d, pos + 4 + U32At(d, pos), k) == TextStart(d, pos, k + 1)
  {
    hide U32At;
    if k > 0 {
      TextStartFromNext(d, pos, k - 1);
    }
  }

  lemma {:induction false} NoTextAtTheEnd(d: Bytes, k: nat)
    ensures !IsBadText(d, |d|, k)
  {
    hide U32At;
    if k > 0 {
      NoTextAtTheEnd(d, k - 1);
      StartsGrow(d, |d|, k);
    }
  }

  lemma {:induction false} StartsGrow(d: Bytes, pos: nat, k: nat)
    ensures TextStart(d, pos, k) >= pos
  {
    hide U32At;
    if k > 0 {
      StartsGrow(d, pos, k - 1);
    }
  }

  /** The reader gives up exactly when one of the texts it has yet to read is bad. */
  lemma {:induction false} SlotTextsFailExactlyWhen(d: Bytes, pos: nat, i: nat, count: nat, slots: Slots)
    requires pos <= |d| && i <= count
    ensures SlotTexts(d, pos, |d| - pos, i, count, slots).None? <==>
      exists k :: 0 <= k < count - i && IsBadText(d, pos, k)
    decreases count - i
  {
    hide U32At, CutText;
    if i < count {
      if pos == |d| {
        forall k: nat { NoTextAtTheEnd(d, k); }
      } else if TextLengthAt(d, pos, |d| - pos).None? {
        assert IsBadText(d, pos, 0);
      } else {
        var length := U32At(d, pos);
        var next := pos + 4 + length;
        var text := CutText(d[pos + 4..next]);
        SlotTextsFailExactlyWhen(d, next, i + 1, count, if i < SLOT_COUNT then slots[i := text] else slots);
        assert !IsBadText(d, pos, 0);
        forall k: nat ensures IsBadText(d, next, k) == IsBadText(d, pos, k + 1) {
          TextStartFromNext(d, pos, k);
        }
        if k :| 0 <= k < count - i && IsBadText(d, pos, k) {
          assert IsBadText(d, next, k - 1);
        }
        if k :| 0 <= k < count - (i + 1) && IsBadText(d, next, k) {
          assert IsBadText(d, pos, k + 1);
        }
      }
    }
  }

  /**
   * A record whose bytes are all there aborts the load only when it is too short for its type or a slot
   * text overruns it.
   */
  lemma WholeRecordAbortsExactlyWhen(s: Loaded, r: Record, resolve: Resolve)
    requires r.Whole()
    ensures Handle(s, r, resolve).None? <==> r.length < MinimalLength(r) || HasBadSlotText(r)
  {
    hide RegisteredEntries, FormEntries, AmountEntries, UndoEntries, SlotTexts, IsBadText;
    if r.tag == BSLT && r.length >= 4 {
      SlotTextsFailExactlyWhen(r.data, 4, 0, U32At(r.data, 0), NO_SLOTS);
    }
    if r.length >= MinimalLength(r) && r.length >= 4 {
      var count := U32At(r.data, 0);
      var rest := r.length - 4;
      var wide := r.version == 2;
      WholeRegisteredEntries(r.data, 4, ReadableCount(count, rest, RegisteredEntrySize(wide)), wide, resolve,
                             s.registered);
      WholeFormEntries(r.data, 4, ReadableCount(count, rest, 4), resolve,
                       if r.tag == BLCK then s.blocked else s.notified);
      WholeAmountEntries(r.data, 4, ReadableCount(count, rest, 8), BuildEffect, s.buildApplied);
      WholeAmountEntries(r.data, 4, MinInt(ReadableCount(count, rest, 8), MAX_REWARD_ENTRIES), RewardTotal,
                         s.rewardTotals);
      if r.tag == UNDO {
        WholeUndoEntries(r.data, 12, r.length - 12, count, r.version, resolve, []);
      }
    }
  }
}
