// Actor values, reward caps and the tolerances that the rest of the plugin shares.
//
// RE::ActorValue is an enumeration of the game; the plugin stores it as a 32-bit number.
// The numbers below are the game's own and only matter as distinct file values and as a
// sort key.
module ActorValues {
  type byte = x: int | 0 <= x < 0x100
  type u32 = x: int | 0 <= x < 0x1_0000_0000
  type u64 = x: int | 0 <= x < 0x1_0000_0000_0000_0000
  type i32 = x: int | -0x8000_0000 <= x < 0x8000_0000

  const U32_MODULUS: int := 0x1_0000_0000
  const U32_MAX: u32 := 0xFFFF_FFFF
  const U64_MODULUS: int := 0x1_0000_0000_0000_0000

  type ActorValue = u32

  const ONE_HANDED: ActorValue := 6
  const TWO_HANDED: ActorValue := 7
  const ARCHERY: ActorValue := 8
  const BLOCK: ActorValue := 9
  const HEAVY_ARMOR: ActorValue := 11
  const LIGHT_ARMOR: ActorValue := 12
  const PICKPOCKET: ActorValue := 13
  const LOCKPICKING: ActorValue := 14
  const ALCHEMY: ActorValue := 16
  const HEALTH: ActorValue := 24
  const MAGICKA: ActorValue := 25
  const STAMINA: ActorValue := 26
  const HEAL_RATE: ActorValue := 27
  const MAGICKA_RATE: ActorValue := 28
  const STAMINA_RATE: ActorValue := 29
  const SPEED_MULT: ActorValue := 30
  const CARRY_WEIGHT: ActorValue := 32
  const CRITICAL_CHANCE: ActorValue := 33
  const MELEE_DAMAGE: ActorValue := 34
  const UNARMED_DAMAGE: ActorValue := 35
  const DAMAGE_RESIST: ActorValue := 39
  const POISON_RESIST: ActorValue := 40
  const RESIST_FIRE: ActorValue := 41
  const RESIST_SHOCK: ActorValue := 42
  const RESIST_FROST: ActorValue := 43
  const RESIST_MAGIC: ActorValue := 44
  const RESIST_DISEASE: ActorValue := 45
  const ABSORB_CHANCE: ActorValue := 83
  const WEAPON_SPEED_MULT: ActorValue := 85
  const SHOUT_RECOVERY_MULT: ActorValue := 86
  const SMITHING_MODIFIER: ActorValue := 100
  const PICKPOCKET_MODIFIER: ActorValue := 103
  const LOCKPICKING_MODIFIER: ActorValue := 104
  const SNEAKING_MODIFIER: ActorValue := 105
  const ALCHEMY_MODIFIER: ActorValue := 106
  const SPEECHCRAFT_MODIFIER: ActorValue := 107
  const ALTERATION_MODIFIER: ActorValue := 108
  const CONJURATION_MODIFIER: ActorValue := 109
  const DESTRUCTION_MODIFIER: ActorValue := 110
  const ILLUSION_MODIFIER: ActorValue := 111
  const RESTORATION_MODIFIER: ActorValue := 112
  const ENCHANTING_MODIFIER: ActorValue := 113
  const BLOCK_POWER_MODIFIER: ActorValue := 138
  const ATTACK_DAMAGE_MULT: ActorValue := 154
  const REFLECT_DAMAGE: ActorValue := 163

  const EPSILON: real := 0.001
  const SKILL_SNAP_EPSILON: real := 0.0001

  datatype Option<+T> = None | Some(value: T)

  function Abs(x: real): real { if x < 0.0 then -x else x }

  function Min(x: real, y: real): real { if x <= y then x else y }

  function Max(x: real, y: real): real { if x <= y then y else x }

  function MinInt(x: int, y: int): int { if x <= y then x else y }

  function MaxInt(x: int, y: int): int { if x <= y then y else x }

  /** The hard cap of an actor value, if it has one. */
  function RewardCap(av: ActorValue): Option<real> {
    if av == ATTACK_DAMAGE_MULT then Some(1.0)
    else if av == CRITICAL_CHANCE then Some(50.0)
    else if av in {RESIST_MAGIC, RESIST_FIRE, RESIST_FROST, RESIST_SHOCK, POISON_RESIST, RESIST_DISEASE} then Some(85.0)
    else if av in {ABSORB_CHANCE, REFLECT_DAMAGE} then Some(80.0)
    else if av == SPEED_MULT then Some(0.5)
    else None
  }

  function ClampRewardTotal(av: ActorValue, total: real): real {
    match RewardCap(av)
    case None => total
    case Some(cap) => if total > cap + EPSILON then cap else total
  }

  predicate IsSkill(av: ActorValue) {
    av in {ONE_HANDED, TWO_HANDED, ARCHERY, HEAVY_ARMOR, LIGHT_ARMOR, BLOCK, ALCHEMY, LOCKPICKING, PICKPOCKET}
  }

  /** std::trunc: towards zero. */
  function Trunc(x: real): real {
    if x >= 0.0 then x.Floor as real else -((-x).Floor as real)
  }

  /** std::round: to the nearest whole number, halves away from zero. */
  function Round(x: real): real {
    if x >= 0.0 then (x + 0.5).Floor as real else -((-x + 0.5).Floor as real)
  }

  /** The part of a reward total that reaches the actor: skills move in whole points only. */
  function ActorAppliedRewardTotal(av: ActorValue, total: real): real {
    var clamped := ClampRewardTotal(av, total);
    if !IsSkill(av) then clamped
    else
      var rounded := Round(clamped);
      Trunc(if Abs(clamped - rounded) <= SKILL_SNAP_EPSILON then rounded else clamped)
  }

  /** The actor values whose ledger entries the co-save loader keeps. */
  predicate IsSupportedBuildEffect(av: ActorValue) {
    av in {ATTACK_DAMAGE_MULT, WEAPON_SPEED_MULT, CRITICAL_CHANCE, DAMAGE_RESIST, BLOCK_POWER_MODIFIER,
           HEALTH, CARRY_WEIGHT, SPEECHCRAFT_MODIFIER, SPEED_MULT}
  }
}
