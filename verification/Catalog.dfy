// The build-option catalog, slot compatibility and tier arithmetic.
module Catalog {
  import opened ActorValues

  /** A discipline is one byte; values outside the enumeration can come out of a damaged save. */
  datatype Discipline = Attack | Defense | Utility | UndefinedDiscipline(raw: byte)

  datatype Compatibility = SameDisciplineOnly | WildcardOnly | SameOrWildcard

  datatype SlotKind = AttackSlot | DefenseSlot | UtilitySlot | WildcardSlot

  datatype EffectType = ActorValueEffect | CarryWeightEffect | Economy | UtilityFlag

  /** The effect keys of the catalog and of the bundles it resolves to. */
  datatype EffectKey =
    | AttackDamageMult | WeaponSpeedMult | CriticalChance | MeleeDamage | UnarmedDamage
    | Stamina | StaminaRate | DestructionModifier | DamageResist | BlockPowerModifier
    | Health | HealRate | RestorationModifier | ReflectDamage | AlterationModifier
    | MagicResistBundle | ElementalResistBundle | StatusResistBundle | AbsorbChance
    | SmithingModifier | AlchemyModifier | EnchantingModifier | Magicka | MagickaRate
    | LockpickingModifier | PickpocketModifier | SneakingModifier | ConjurationModifier
    | IllusionModifier | SpeedMult | ShoutRecoveryMult
    | CarryWeight | SpeechcraftModifier
    | ReserveBundle | MagickaWellBundle | MeditationBundle | HaulerBundle

  datatype Magnitude = Flt(x: real) | Int(n: int)

  datatype OptionDef = OptionDef(
    discipline: Discipline, unlockValue: nat, compatibility: Compatibility,
    effectType: EffectType, effectKey: EffectKey, magnitude: Magnitude, perTier: Magnitude)
  {
    function UnlockCenti(): nat { NormalizeLegacyUnlock(unlockValue) }
  }

  const SLOT_COUNT: nat := 6
  const POINTS_PER_TIER: nat := 800

  /** Attack1, Attack2, Defense1, Utility1, Utility2, Wildcard1, in layout order. */
  type SlotId = i: nat | i < SLOT_COUNT
  type Slots = s: seq<string> | |s| == SLOT_COUNT witness ["", "", "", "", "", ""]

  const NO_SLOTS: Slots := ["", "", "", "", "", ""]

  datatype PerDiscipline = PerDiscipline(attack: u32, defense: u32, utility: u32) {
    function Get(d: Discipline): u32 {
      match d
      case Attack => attack
      case Defense => defense
      case Utility => utility
      case UndefinedDiscipline(_) => 0
    }

    function With(d: Discipline, v: u32): PerDiscipline {
      match d
      case Attack => this.(attack := v)
      case Defense => this.(defense := v)
      case Utility => this.(utility := v)
      case UndefinedDiscipline(_) => this
    }
  }

  const NO_POINTS := PerDiscipline(0, 0, 0)

  /** Legacy unlock values are scores; five of them are worth four whole points. */
  function NormalizeLegacyUnlock(value: nat): nat {
    if value < 100 then (value / 5) * 400 else value
  }

  /** One constructor per row of the catalog, in declaration order. */
  datatype OptionId =
    | Ferocity | Brawler | Destruction | Precision | Pinpoint | Vitals | Reserve | Secondwind | Guard
    | Bulwark | Recovery | Restoration | Bastion | Reprisal | Alteration | Endurance | Warding
    | ElementalWard | Purification | Absorption | Cache | Barter | Smithing | Alchemy | Meditation
    | Enchanting | MagickaWell | Hauler | Mobility | Wayfinder | Echo | Sneak | Lockpicking | Pickpocket
    | Conjuration | Illusion

  /** The row's id string, as slots and saves hold it. */
  function Text(option: OptionId): string {
    match option
    case Ferocity => "build.attack.ferocity"
    case Brawler => "build.attack.brawler"
    case Destruction => "build.attack.destruction"
    case Precision => "build.attack.precision"
    case Pinpoint => "build.attack.pinpoint"
    case Vitals => "build.attack.vitals"
    case Reserve => "build.attack.reserve"
    case Secondwind => "build.attack.secondwind"
    case Guard => "build.defense.guard"
    case Bulwark => "build.defense.bulwark"
    case Recovery => "build.defense.recovery"
    case Restoration => "build.defense.restoration"
    case Bastion => "build.defense.bastion"
    case Reprisal => "build.defense.reprisal"
    case Alteration => "build.defense.alteration"
    case Endurance => "build.defense.endurance"
    case Warding => "build.defense.warding"
    case ElementalWard => "build.defense.elementalWard"
    case Purification => "build.defense.purification"
    case Absorption => "build.defense.absorption"
    case Cache => "build.utility.cache"
    case Barter => "build.utility.barter"
    case Smithing => "build.utility.smithing"
    case Alchemy => "build.utility.alchemy"
    case Meditation => "build.utility.meditation"
    case Enchanting => "build.utility.enchanting"
    case MagickaWell => "build.utility.magicka"
    case Hauler => "build.utility.hauler"
    case Mobility => "build.utility.mobility"
    case Wayfinder => "build.utility.wayfinder"
    case Echo => "build.utility.echo"
    case Sneak => "build.utility.sneak"
    case Lockpicking => "build.utility.lockpicking"
    case Pickpocket => "build.utility.pickpocket"
    case Conjuration => "build.utility.conjuration"
    case Illusion => "build.utility.illusion"
  }

  function Row(option: OptionId): OptionDef {
    match option
    case Ferocity => OptionDef(Attack, 5, SameDisciplineOnly, ActorValueEffect, AttackDamageMult, Flt(3.0), Flt(0.5))
    case Brawler => OptionDef(Attack, 25, SameOrWildcard, ActorValueEffect, UnarmedDamage, Flt(0.2), Flt(0.1))
    case Destruction =>
      OptionDef(Attack, 30, SameOrWildcard, ActorValueEffect, DestructionModifier, Flt(0.06), Flt(0.01))
    case Precision => OptionDef(Attack, 15, SameDisciplineOnly, ActorValueEffect, WeaponSpeedMult, Flt(2.5), Flt(0.35))
    case Pinpoint => OptionDef(Attack, 20, SameOrWildcard, ActorValueEffect, CriticalChance, Flt(1.5), Flt(0.3))
    case Vitals => OptionDef(Attack, 35, SameOrWildcard, ActorValueEffect, MeleeDamage, Flt(2.0), Flt(0.5))
    case Reserve => OptionDef(Attack, 5, SameDisciplineOnly, ActorValueEffect, ReserveBundle, Flt(8.0), Flt(2.0))
    case Secondwind => OptionDef(Attack, 10, SameOrWildcard, ActorValueEffect, StaminaRate, Flt(0.1), Flt(0.05))
    case Guard => OptionDef(Defense, 5, SameDisciplineOnly, ActorValueEffect, DamageResist, Flt(8.0), Flt(1.5))
    case Bulwark => OptionDef(Defense, 20, SameOrWildcard, ActorValueEffect, Health, Flt(6.0), Flt(2.5))
    case Recovery => OptionDef(Defense, 30, SameOrWildcard, ActorValueEffect, HealRate, Flt(0.01), Flt(0.005))
    case Restoration =>
      OptionDef(Defense, 40, SameOrWildcard, ActorValueEffect, RestorationModifier, Flt(0.05), Flt(0.01))
    case Bastion => OptionDef(Defense, 15, SameOrWildcard, ActorValueEffect, BlockPowerModifier, Flt(5.0), Flt(0.75))
    case Reprisal => OptionDef(Defense, 25, SameOrWildcard, ActorValueEffect, ReflectDamage, Flt(0.1), Flt(0.05))
    case Alteration =>
      OptionDef(Defense, 30, SameOrWildcard, ActorValueEffect, AlterationModifier, Flt(0.05), Flt(0.01))
    case Endurance => OptionDef(Defense, 35, SameOrWildcard, ActorValueEffect, Stamina, Flt(10.0), Flt(3.0))
    case Warding => OptionDef(Defense, 10, SameDisciplineOnly, ActorValueEffect, MagicResistBundle, Flt(2.0), Flt(0.5))
    case ElementalWard =>
      OptionDef(Defense, 20, SameOrWildcard, ActorValueEffect, ElementalResistBundle, Flt(2.0), Flt(0.5))
    case Purification =>
      OptionDef(Defense, 25, SameOrWildcard, ActorValueEffect, StatusResistBundle, Flt(2.0), Flt(0.5))
    case Absorption => OptionDef(Defense, 35, SameOrWildcard, ActorValueEffect, AbsorbChance, Flt(1.0), Flt(0.5))
    case Cache => OptionDef(Utility, 10, SameDisciplineOnly, CarryWeightEffect, CarryWeight, Flt(20.0), Flt(1.0))
    case Barter => OptionDef(Utility, 25, SameOrWildcard, Economy, SpeechcraftModifier, Int(8), Int(1))
    case Smithing => OptionDef(Utility, 20, SameOrWildcard, ActorValueEffect, SmithingModifier, Flt(0.03), Flt(0.005))
    case Alchemy => OptionDef(Utility, 25, SameOrWildcard, ActorValueEffect, AlchemyModifier, Flt(0.03), Flt(0.005))
    case Meditation =>
      OptionDef(Utility, 30, SameDisciplineOnly, ActorValueEffect, MeditationBundle, Flt(0.08), Flt(0.04))
    case Enchanting =>
      OptionDef(Utility, 35, SameOrWildcard, ActorValueEffect, EnchantingModifier, Flt(0.03), Flt(0.005))
    case MagickaWell =>
      OptionDef(Utility, 30, SameDisciplineOnly, ActorValueEffect, MagickaWellBundle, Flt(12.0), Flt(4.0))
    case Hauler => OptionDef(Utility, 30, SameDisciplineOnly, ActorValueEffect, HaulerBundle, Flt(6.0), Flt(2.0))
    case Mobility => OptionDef(Utility, 20, SameDisciplineOnly, ActorValueEffect, SpeedMult, Flt(2.0), Flt(0.15))
    case Wayfinder => OptionDef(Utility, 30, SameDisciplineOnly, ActorValueEffect, StaminaRate, Flt(0.05), Flt(0.01))
    case Echo => OptionDef(Utility, 35, SameOrWildcard, ActorValueEffect, ShoutRecoveryMult, Flt(-0.007), Flt(-0.002))
    case Sneak => OptionDef(Utility, 10, SameDisciplineOnly, ActorValueEffect, SneakingModifier, Flt(0.03), Flt(0.005))
    case Lockpicking =>
      OptionDef(Utility, 15, SameDisciplineOnly, ActorValueEffect, LockpickingModifier, Flt(0.03), Flt(0.005))
    case Pickpocket =>
      OptionDef(Utility, 20, SameDisciplineOnly, ActorValueEffect, PickpocketModifier, Flt(0.03), Flt(0.005))
    case Conjuration =>
      OptionDef(Utility, 25, SameOrWildcard, ActorValueEffect, ConjurationModifier, Flt(0.03), Flt(0.005))
    case Illusion => OptionDef(Utility, 30, SameOrWildcard, ActorValueEffect, IllusionModifier, Flt(0.03), Flt(0.005))
  }

  const CATALOG: seq<OptionId> := [
    Ferocity, Brawler, Destruction, Precision, Pinpoint, Vitals, Reserve,
    Secondwind, Guard, Bulwark, Recovery, Restoration, Bastion, Reprisal,
    Alteration, Endurance, Warding, ElementalWard, Purification, Absorption, Cache,
    Barter, Smithing, Alchemy, Meditation, Enchanting, MagickaWell, Hauler,
    Mobility, Wayfinder, Echo, Sneak, Lockpicking, Pickpocket, Conjuration,
    Illusion]

  /** The linear search over the catalog by id string. */
  function FindIn(options: seq<OptionId>, id: string): (r: Option<OptionId>)
    ensures r.Some? ==> r.value in options && Text(r.value) == id
    ensures r.None? ==> forall o | o in options :: Text(o) != id
  {
    if options == [] then None
    else if Text(options[0]) == id then Some(options[0])
    else FindIn(options[1..], id)
  }

  function FindOption(id: string): (r: Option<OptionId>)
    ensures r.Some? ==> Text(r.value) == id
    ensures r.None? ==> forall o: OptionId :: Text(o) != id
  {
    assert forall o: OptionId :: o in CATALOG by {
      forall o: OptionId { CatalogIsComplete(o); }
    }
    FindIn(CATALOG, id)
  }

  lemma CatalogIsComplete(o: OptionId)
    ensures o in CATALOG
  {
  }

  function SlotKindOf(slot: SlotId): SlotKind {
    if slot <= 1 then AttackSlot
    else if slot == 2 then DefenseSlot
    else if slot <= 4 then UtilitySlot
    else WildcardSlot
  }

  predicate IsSlotCompatible(option: OptionDef, slot: SlotId) {
    match SlotKindOf(slot)
    case WildcardSlot => option.compatibility.WildcardOnly? || option.compatibility.SameOrWildcard?
    case kind =>
      && ((kind.AttackSlot? && option.discipline == Attack)
          || (kind.DefenseSlot? && option.discipline == Defense)
          || (kind.UtilitySlot? && option.discipline == Utility))
      && (option.compatibility.SameDisciplineOnly? || option.compatibility.SameOrWildcard?)
  }

  function Tier(points: nat): nat { points / POINTS_PER_TIER }

  function ScaleFloat(base: real, perTier: real, points: nat): Magnitude {
    Flt(base + perTier * (Tier(points) as real))
  }

  function ScaledMagnitude(option: OptionDef, points: nat): Magnitude {
    match (option.magnitude, option.perTier)
    case (Flt(base), Flt(step)) => ScaleFloat(base, step, points)
    case (Int(base), Int(step)) => Int(base + step * Tier(points))
    case _ => option.magnitude
  }

  datatype EffectPart = EffectPart(effectType: EffectType, effectKey: EffectKey, magnitude: Magnitude)

  function ResolvedBundle(option: OptionDef, points: nat): seq<EffectPart> {
    var primary := ScaledMagnitude(option, points);
    match option.effectKey
    case ReserveBundle =>
      [EffectPart(ActorValueEffect, Stamina, primary),
       EffectPart(ActorValueEffect, StaminaRate, ScaleFloat(0.04, 0.02, points))]
    case MagickaWellBundle =>
      [EffectPart(ActorValueEffect, Magicka, primary),
       EffectPart(ActorValueEffect, MagickaRate, ScaleFloat(0.02, 0.01, points))]
    case MeditationBundle =>
      [EffectPart(ActorValueEffect, MagickaRate, primary),
       EffectPart(ActorValueEffect, Magicka, ScaleFloat(2.0, 1.0, points))]
    case HaulerBundle =>
      [EffectPart(ActorValueEffect, Stamina, primary),
       EffectPart(CarryWeightEffect, CarryWeight, ScaleFloat(4.0, 1.0, points))]
    case _ => [EffectPart(option.effectType, option.effectKey, primary)]
  }

  datatype Delta = Delta(av: ActorValue, amount: real)

  /** The actor-value changes one effect stands for; a magnitude of the wrong kind stands for none. */
  function ResolveActorValueDeltas(part: EffectPart): seq<Delta> {
    match part.effectType
    case ActorValueEffect =>
      if part.magnitude.Int? then []
      else ActorValueDeltas(part.effectKey, part.magnitude.x)
    case CarryWeightEffect =>
      if part.magnitude.Int? || part.effectKey != CarryWeight then []
      else [Delta(CARRY_WEIGHT, part.magnitude.x)]
    case Economy =>
      if part.magnitude.Flt? || part.effectKey != SpeechcraftModifier then []
      else [Delta(SPEECHCRAFT_MODIFIER, part.magnitude.n as real * 0.05)]
    case UtilityFlag => []
  }

  function ActorValueDeltas(key: EffectKey, amount: real): seq<Delta> {
    match key
    case AttackDamageMult => [Delta(ATTACK_DAMAGE_MULT, amount / 100.0)]
    case WeaponSpeedMult => [Delta(WEAPON_SPEED_MULT, amount / 100.0)]
    case CriticalChance => [Delta(CRITICAL_CHANCE, amount)]
    case MeleeDamage => [Delta(MELEE_DAMAGE, amount)]
    case UnarmedDamage => [Delta(UNARMED_DAMAGE, amount)]
    case Stamina => [Delta(STAMINA, amount)]
    case StaminaRate => [Delta(STAMINA_RATE, amount)]
    case DestructionModifier => [Delta(DESTRUCTION_MODIFIER, amount)]
    case DamageResist => [Delta(DAMAGE_RESIST, amount)]
    case BlockPowerModifier => [Delta(BLOCK_POWER_MODIFIER, amount)]
    case Health => [Delta(HEALTH, amount)]
    case HealRate => [Delta(HEAL_RATE, amount)]
    case RestorationModifier => [Delta(RESTORATION_MODIFIER, amount)]
    case ReflectDamage => [Delta(REFLECT_DAMAGE, amount)]
    case AlterationModifier => [Delta(ALTERATION_MODIFIER, amount)]
    case MagicResistBundle => [Delta(RESIST_MAGIC, amount)]
    case ElementalResistBundle => [Delta(RESIST_FIRE, amount), Delta(RESIST_FROST, amount), Delta(RESIST_SHOCK, amount)]
    case StatusResistBundle => [Delta(POISON_RESIST, amount), Delta(RESIST_DISEASE, amount)]
    case AbsorbChance => [Delta(ABSORB_CHANCE, amount)]
    case SmithingModifier => [Delta(SMITHING_MODIFIER, amount)]
    case AlchemyModifier => [Delta(ALCHEMY_MODIFIER, amount)]
    case EnchantingModifier => [Delta(ENCHANTING_MODIFIER, amount)]
    case Magicka => [Delta(MAGICKA, amount)]
    case MagickaRate => [Delta(MAGICKA_RATE, amount)]
    case LockpickingModifier => [Delta(LOCKPICKING_MODIFIER, amount)]
    case PickpocketModifier => [Delta(PICKPOCKET_MODIFIER, amount)]
    case SneakingModifier => [Delta(SNEAKING_MODIFIER, amount)]
    case ConjurationModifier => [Delta(CONJURATION_MODIFIER, amount)]
    case IllusionModifier => [Delta(ILLUSION_MODIFIER, amount)]
    case SpeedMult => [Delta(SPEED_MULT, amount / 100.0)]
    case ShoutRecoveryMult => [Delta(SHOUT_RECOVERY_MULT, amount)]
    case _ => []
  }

  /** The slot invariant's unit: this option may sit in this slot at these points. */
  predicate IsEligible(id: string, slot: SlotId, points: PerDiscipline) {
    var found := FindOption(id);
    && found.Some?
    && IsSlotCompatible(Row(found.value), slot)
    && points.Get(Row(found.value).discipline) >= Row(found.value).UnlockCenti()
  }

  // ---- Facts about the table itself ------------------------------------------------------

  /** Ids of options that earlier versions had and the table no longer holds. */
  const LEGACY_OPTION_IDS := {
    "build.defense.fireward", "build.defense.frostward", "build.defense.stormward",
    "build.defense.antidote", "build.defense.purity"}

  lemma LegacyIdsAreNotOptions(o: OptionId)
    ensures Text(o) !in LEGACY_OPTION_IDS && Text(o) != ""
  {
    match o
    case Ferocity =>
    case Brawler =>
    case Destruction =>
    case Precision =>
    case Pinpoint =>
    case Vitals =>
    case Reserve =>
    case Secondwind =>
    case Guard =>
    case Bulwark =>
    case Recovery =>
    case Restoration =>
    case Bastion =>
    case Reprisal =>
    case Alteration =>
    case Endurance =>
    case Warding =>
    case ElementalWard =>
    case Purification =>
    case Absorption =>
    case Cache =>
    case Barter =>
    case Smithing =>
    case Alchemy =>
    case Meditation =>
    case Enchanting =>
    case MagickaWell =>
    case Hauler =>
    case Mobility =>
    case Wayfinder =>
    case Echo =>
    case Sneak =>
    case Lockpicking =>
    case Pickpocket =>
    case Conjuration =>
    case Illusion =>
  }

  /** Enough of an id to tell it from the others: its length and two of its characters. */
  datatype IdMark = Mark(length: nat, sixth: char, seventeenth: char)

  function MarkOf(option: OptionId): IdMark {
    match option
    case Ferocity => Mark(21, 'a', 'c')
    case Brawler => Mark(20, 'a', 'l')
    case Destruction => Mark(24, 'a', 'r')
    case Precision => Mark(22, 'a', 'i')
    case Pinpoint => Mark(21, 'a', 'o')
    case Vitals => Mark(19, 'a', 'l')
    case Reserve => Mark(20, 'a', 'r')
    case Secondwind => Mark(23, 'a', 'n')
    case Guard => Mark(19, 'd', 'r')
    case Bulwark => Mark(21, 'd', 'w')
    case Recovery => Mark(22, 'd', 'o')
    case Restoration => Mark(25, 'd', 't')
    case Bastion => Mark(21, 'd', 't')
    case Reprisal => Mark(22, 'd', 'r')
    case Alteration => Mark(24, 'd', 'e')
    case Endurance => Mark(23, 'd', 'u')
    case Warding => Mark(21, 'd', 'd')
    case ElementalWard => Mark(27, 'd', 'm')
    case Purification => Mark(26, 'd', 'i')
    case Absorption => Mark(24, 'd', 'o')
    case Cache => Mark(19, 'u', 'h')
    case Barter => Mark(20, 'u', 't')
    case Smithing => Mark(22, 'u', 't')
    case Alchemy => Mark(21, 'u', 'h')
    case Meditation => Mark(24, 'u', 'i')
    case Enchanting => Mark(24, 'u', 'h')
    case MagickaWell => Mark(21, 'u', 'i')
    case Hauler => Mark(20, 'u', 'l')
    case Mobility => Mark(22, 'u', 'i')
    case Wayfinder => Mark(23, 'u', 'f')
    case Echo => Mark(18, 'u', 'o')
    case Sneak => Mark(19, 'u', 'a')
    case Lockpicking => Mark(25, 'u', 'k')
    case Pickpocket => Mark(24, 'u', 'k')
    case Conjuration => Mark(25, 'u', 'j')
    case Illusion => Mark(22, 'u', 'u')
  }

  predicate CarriesItsMark(o: OptionId) {
    var m := MarkOf(o);
    |Text(o)| == m.length >= 18 && Text(o)[6] == m.sixth && Text(o)[17] == m.seventeenth
  }

  lemma CombatTextsCarryTheirMark(o: OptionId)
    ensures MarkOf(o).sixth != 'u' ==> CarriesItsMark(o)
  {
    match o
    case Ferocity =>
    case Brawler =>
    case Destruction =>
    case Precision =>
    case Pinpoint =>
    case Vitals =>
    case Reserve =>
    case Secondwind =>
    case Guard =>
    case Bulwark =>
    case Recovery =>
    case Restoration =>
    case Bastion =>
    case Reprisal =>
    case Alteration =>
    case Endurance =>
    case Warding =>
    case ElementalWard =>
    case Purification =>
    case Absorption =>
    case _ =>
  }

  lemma UtilityTextsCarryTheirMark(o: OptionId)
    ensures MarkOf(o).sixth == 'u' ==> CarriesItsMark(o)
  {
    match o
    case Cache =>
    case Barter =>
    case Smithing =>
    case Alchemy =>
    case Meditation =>
    case Enchanting =>
    case MagickaWell =>
    case Hauler =>
    case Mobility =>
    case Wayfinder =>
    case Echo =>
    case Sneak =>
    case Lockpicking =>
    case Pickpocket =>
    case Conjuration =>
    case Illusion =>
    case _ =>
  }

  lemma TextHasItsMark(o: OptionId)
    ensures CarriesItsMark(o)
  {
    hide CarriesItsMark, MarkOf;
    CombatTextsCarryTheirMark(o);
    UtilityTextsCarryTheirMark(o);
  }

  function OptionOf(m: IdMark): Option<OptionId> {
    if m == Mark(21, 'a', 'c') then Some(Ferocity)
    else if m == Mark(20, 'a', 'l') then Some(Brawler)
    else if m == Mark(24, 'a', 'r') then Some(Destruction)
    else if m == Mark(22, 'a', 'i') then Some(Precision)
    else if m == Mark(21, 'a', 'o') then Some(Pinpoint)
    else if m == Mark(19, 'a', 'l') then Some(Vitals)
    else if m == Mark(20, 'a', 'r') then Some(Reserve)
    else if m == Mark(23, 'a', 'n') then Some(Secondwind)
    else if m == Mark(19, 'd', 'r') then Some(Guard)
    else if m == Mark(21, 'd', 'w') then Some(Bulwark)
    else if m == Mark(22, 'd', 'o') then Some(Recovery)
    else if m == Mark(25, 'd', 't') then Some(Restoration)
    else if m == Mark(21, 'd', 't') then Some(Bastion)
    else if m == Mark(22, 'd', 'r') then Some(Reprisal)
    else if m == Mark(24, 'd', 'e') then Some(Alteration)
    else if m == Mark(23, 'd', 'u') then Some(Endurance)
    else if m == Mark(21, 'd', 'd') then Some(Warding)
    else if m == Mark(27, 'd', 'm') then Some(ElementalWard)
    else if m == Mark(26, 'd', 'i') then Some(Purification)
    else if m == Mark(24, 'd', 'o') then Some(Absorption)
    else if m == Mark(19, 'u', 'h') then Some(Cache)
    else if m == Mark(20, 'u', 't') then Some(Barter)
    else if m == Mark(22, 'u', 't') then Some(Smithing)
    else if m == Mark(21, 'u', 'h') then Some(Alchemy)
    else if m == Mark(24, 'u', 'i') then Some(Meditation)
    else if m == Mark(24, 'u', 'h') then Some(Enchanting)
    else if m == Mark(21, 'u', 'i') then Some(MagickaWell)
    else if m == Mark(20, 'u', 'l') then Some(Hauler)
    else if m == Mark(22, 'u', 'i') then Some(Mobility)
    else if m == Mark(23, 'u', 'f') then Some(Wayfinder)
    else if m == Mark(18, 'u', 'o') then Some(Echo)
    else if m == Mark(19, 'u', 'a') then Some(Sneak)
    else if m == Mark(25, 'u', 'k') then Some(Lockpicking)
    else if m == Mark(24, 'u', 'k') then Some(Pickpocket)
    else if m == Mark(25, 'u', 'j') then Some(Conjuration)
    else if m == Mark(22, 'u', 'u') then Some(Illusion)
    else None
  }

  lemma MarkFindsItsOption(o: OptionId)
    ensures OptionOf(MarkOf(o)) == Some(o) && MarkOf(o).length <= 27
  {
    match o
    case Ferocity =>
    case Brawler =>
    case Destruction =>
    case Precision =>
    case Pinpoint =>
    case Vitals =>
    case Reserve =>
    case Secondwind =>
    case Guard =>
    case Bulwark =>
    case Recovery =>
    case Restoration =>
    case Bastion =>
    case Reprisal =>
    case Alteration =>
    case Endurance =>
    case Warding =>
    case ElementalWard =>
    case Purification =>
    case Absorption =>
    case Cache =>
    case Barter =>
    case Smithing =>
    case Alchemy =>
    case Meditation =>
    case Enchanting =>
    case MagickaWell =>
    case Hauler =>
    case Mobility =>
    case Wayfinder =>
    case Echo =>
    case Sneak =>
    case Lockpicking =>
    case Pickpocket =>
    case Conjuration =>
    case Illusion =>
  }

  /** No two rows share an id, so the search finds the row an id names. */
  lemma FindsItsRow(o: OptionId)
    ensures FindOption(Text(o)) == Some(o)
  {
    var found := FindOption(Text(o));
    assert found.Some?;
    TextHasItsMark(o);
    TextHasItsMark(found.value);
    MarkFindsItsOption(o);
    MarkFindsItsOption(found.value);
    hide Text, MarkOf, OptionOf;
  }

  // ---- What may be active where --------------------------------------------------------------

  /** The slots by name: two for attack, one for defense, two for utility, and a wildcard that is choosier. */
  predicate SlotTakes(o: OptionId, slot: SlotId) {
    if slot in {0, 1} then Row(o).discipline == Attack && !Row(o).compatibility.WildcardOnly?
    else if slot == 2 then Row(o).discipline == Defense && !Row(o).compatibility.WildcardOnly?
    else if slot in {3, 4} then Row(o).discipline == Utility && !Row(o).compatibility.WildcardOnly?
    else !Row(o).compatibility.SameDisciplineOnly?
  }

  /** An option costs 0.8 points, 80 hundredths, for each of the scores that its row names. */
  predicate IsUnlocked(o: OptionId, points: PerDiscipline) {
    var cost := 80 * Row(o).unlockValue;
    match Row(o).discipline
    case Attack => points.attack >= cost
    case Defense => points.defense >= cost
    case _ => points.utility >= cost
  }

  lemma RowsAreRegular(o: OptionId)
    ensures Row(o).UnlockCenti() == 80 * Row(o).unlockValue && Row(o).discipline in {Attack, Defense, Utility}
  {
    match o
    case Ferocity =>
    case Brawler =>
    case Destruction =>
    case Precision =>
    case Pinpoint =>
    case Vitals =>
    case Reserve =>
    case Secondwind =>
    case Guard =>
    case Bulwark =>
    case Recovery =>
    case Restoration =>
    case Bastion =>
    case Reprisal =>
    case Alteration =>
    case Endurance =>
    case Warding =>
    case ElementalWard =>
    case Purification =>
    case Absorption =>
    case Cache =>
    case Barter =>
    case Smithing =>
    case Alchemy =>
    case Meditation =>
    case Enchanting =>
    case MagickaWell =>
    case Hauler =>
    case Mobility =>
    case Wayfinder =>
    case Echo =>
    case Sneak =>
    case Lockpicking =>
    case Pickpocket =>
    case Conjuration =>
    case Illusion =>
  }

  /** An option may sit in a slot exactly when the slot takes it and the points of its own discipline cover its cost. */
  lemma EligibleExactlyWhen(o: OptionId, slot: SlotId, points: PerDiscipline)
    ensures IsEligible(Text(o), slot, points) <==> SlotTakes(o, slot) && IsUnlocked(o, points)
  {
    FindsItsRow(o);
    RowsAreRegular(o);
    hide Row, Text, FindOption, OptionDef.UnlockCenti;
  }

  lemma OnlyOptionsAreEligible(id: string, slot: SlotId, points: PerDiscipline)
    requires IsEligible(id, slot, points)
    ensures exists o :: Text(o) == id
  {
    hide Text;
    assert Text(FindOption(id).value) == id;
  }

  // ---- How strong an option is ---------------------------------------------------------------

  function InReal(m: Magnitude): real {
    match m
    case Flt(x) => x
    case Int(n) => n as real
  }

  /** An option's main effect is as strong as its row says, and stronger by its step for each full 800 points. */
  lemma MainEffectExactly(o: OptionId, points: nat)
    ensures ResolvedBundle(Row(o), points) != []
    ensures InReal(ResolvedBundle(Row(o), points)[0].magnitude)
      == InReal(Row(o).magnitude) + InReal(Row(o).perTier) * ((points / 800) as real)
  {
    MagnitudeExactly(o, points);
    hide Row, ScaledMagnitude, ScaleFloat;
  }

  lemma MagnitudeExactly(o: OptionId, points: nat)
    ensures InReal(ScaledMagnitude(Row(o), points))
      == InReal(Row(o).magnitude) + InReal(Row(o).perTier) * ((points / 800) as real)
  {
    match o
    case Ferocity =>
    case Brawler =>
    case Destruction =>
    case Precision =>
    case Pinpoint =>
    case Vitals =>
    case Reserve =>
    case Secondwind =>
    case Guard =>
    case Bulwark =>
    case Recovery =>
    case Restoration =>
    case Bastion =>
    case Reprisal =>
    case Alteration =>
    case Endurance =>
    case Warding =>
    case ElementalWard =>
    case Purification =>
    case Absorption =>
    case Cache =>
    case Barter =>
    case Smithing =>
    case Alchemy =>
    case Meditation =>
    case Enchanting =>
    case MagickaWell =>
    case Hauler =>
    case Mobility =>
    case Wayfinder =>
    case Echo =>
    case Sneak =>
    case Lockpicking =>
    case Pickpocket =>
    case Conjuration =>
    case Illusion =>
  }
}
