/** The runtime state of one combatant in a team fight (`FightFighter` in
    `src/fight_fighter.rs`): signed per-stat modifiers laid over the
    fighter's effective stats, the "speed roll" readiness counter and the
    knockdown count. */
module FightFighters {
  import opened Integers

  datatype Stat = Health | Attack | Defense | Speed | Accuracy | Dodge | Conviction

  /** `Stat::effective_value`, the transform from invested points to the
      in-combat value. Its definition is not part of this model, so the
      combatant receives it as a parameter and nothing is assumed about it. */
  type EffectiveValue = (Stat, StatValue) -> StatValue

  /** The read-only fighter a combatant wraps: its name and raw stats. */
  datatype Fighter = Fighter(name: string, rawStat: Stat -> StatValue)

  /** Upper end of the readiness roll `rng.u16(1..=140)`. */
  const ReadyRange: int := 140

  /** The amount a readiness roll adds to the counter:
      `max(1, roll.saturating_sub(speed))`. Higher speed never adds more. */
  function SpeedIncrement(roll: int, speed: StatValue): (r: int)
    requires 1 <= roll <= ReadyRange
    ensures 1 <= r <= roll
    ensures speed < roll ==> r == roll - speed
    ensures roll <= speed + 1 ==> r == 1
  {
    var rest := SaturatingSub(roll, speed);
    if rest < 1 then 1 else rest
  }

  /** A faster combatant's counter grows no more than a slower one's. */
  lemma SpeedIncrementAntitone(roll: int, slow: StatValue, fast: StatValue)
    requires 1 <= roll <= ReadyRange
    requires slow <= fast
    ensures SpeedIncrement(roll, fast) <= SpeedIncrement(roll, slow)
  {
  }

  /** The crit threshold `1000 - raw_accuracy * 20`; the `u16` subtraction
      panics unless raw accuracy is at most 50. */
  function CritChanceFor(rawAccuracy: StatValue): (r: StatValue)
    requires rawAccuracy <= 50
    ensures r <= 1000 && r % 20 == 0
    ensures r + 20 * rawAccuracy == 1000
  {
    1000 - rawAccuracy * 20
  }

  /** More invested accuracy never raises the crit threshold. */
  lemma CritChanceNonIncreasing(lower: StatValue, higher: StatValue)
    requires lower <= higher <= 50
    ensures CritChanceFor(higher) <= CritChanceFor(lower)
  {
  }

  /** A bonus added on top of a modifier: never lowers it, and adds exactly
      `bonus` unless that passes `i16::MAX`, where it stops at `i16::MAX`. */
  predicate Stacked(before: int, after: int, bonus: nat)
  {
    && before <= after
    && (before + bonus <= SignedStatValueMax ==> after == before + bonus)
    && (SignedStatValueMax < before + bonus ==> after == SignedStatValueMax)
  }

  /** The modifiers after getting back up with conviction `c`: 4 x `c`
      on top of the Attack, Defense and Speed modifiers and 10 x `c` on top
      of Accuracy and Dodge (so bonuses stack over repeated recoveries,
      saturating at `i16::MAX`), and the health modifier that brings
      `baseHealth` to 200 x `c`, read as `i16` and saturating at
      `i16::MIN`. Conviction's modifier is untouched. */
  function Recovered(m: map<Stat, SignedStatValue>, c: StatValue, baseHealth: StatValue)
    : (r: map<Stat, SignedStatValue>)
    requires forall s: Stat :: s in m
    requires 200 * c <= StatValueMax
    ensures forall s: Stat :: s in r
    ensures r[Conviction] == m[Conviction]
    ensures Stacked(m[Attack], r[Attack], 4 * c) && Stacked(m[Defense], r[Defense], 4 * c)
            && Stacked(m[Speed], r[Speed], 4 * c)
    ensures Stacked(m[Accuracy], r[Accuracy], 10 * c) && Stacked(m[Dodge], r[Dodge], 10 * c)
    ensures 200 * c <= SignedStatValueMax && SignedStatValueMin <= 200 * c - baseHealth ==>
      r[Health] == 200 * c - baseHealth
    ensures SignedStatValueMax < 200 * c ==> r[Health] < 0
  {
    m[Attack := SaturatingAddUnsigned(m[Attack], 4 * c)]
     [Defense := SaturatingAddUnsigned(m[Defense], 4 * c)]
     [Speed := SaturatingAddUnsigned(m[Speed], 4 * c)]
     [Accuracy := SaturatingAddUnsigned(m[Accuracy], 10 * c)]
     [Dodge := SaturatingAddUnsigned(m[Dodge], 10 * c)]
     [Health := SaturatingSubUnsigned(AsSigned(200 * c), baseHealth)]
  }

  class FightFighter {
    const fighter: Fighter
    const effectiveValue: EffectiveValue
    var mods: map<Stat, SignedStatValue>
    var speedRoll: StatValue
    var knockdownCount: StatValue

    /** The modifier map is total, like the `EnumMap` it models. */
    ghost predicate Valid()
      reads this
    {
      forall s: Stat :: s in mods
    }

    /** The effective value of a stat before modifiers. */
    function Base(s: Stat): StatValue
    {
      effectiveValue(s, fighter.rawStat(s))
    }

    constructor (fighter: Fighter, effectiveValue: EffectiveValue)
      ensures Valid()
      ensures this.fighter == fighter && this.effectiveValue == effectiveValue
      ensures forall s: Stat :: mods[s] == 0
      ensures speedRoll == 0 && knockdownCount == 0
      ensures forall s: Stat :: CurrentStat(s) == effectiveValue(s, fighter.rawStat(s))
    {
      this.fighter := fighter;
      this.effectiveValue := effectiveValue;
      mods := map[Health := 0, Attack := 0, Defense := 0, Speed := 0,
                  Accuracy := 0, Dodge := 0, Conviction := 0];
      speedRoll := 0;
      knockdownCount := 0;
      new;
      forall s: Stat ensures s in mods {
        match s
        case Health =>
        case Attack =>
        case Defense =>
        case Speed =>
        case Accuracy =>
        case Dodge =>
        case Conviction =>
      }
    }

    /** `stat`: the effective value with the modifier added, saturating at
        both ends of `u16`, so it is zero exactly when the signed sum is
        not positive and otherwise the sum itself, up to `u16::MAX`. */
    function CurrentStat(s: Stat): (r: StatValue)
      reads this
      requires Valid()
      ensures r == 0 <==> Base(s) + mods[s] <= 0
      ensures Base(s) + mods[s] <= StatValueMax ==>
        r == if Base(s) + mods[s] < 0 then 0 else Base(s) + mods[s]
      ensures StatValueMax <= Base(s) + mods[s] ==> r == StatValueMax
      ensures mods[s] == 0 ==> r == Base(s)
      ensures 0 <= mods[s] ==> Base(s) <= r
      ensures mods[s] <= 0 ==> r <= Base(s)
    {
      SaturatingAddSigned(Base(s), mods[s])
    }

    /** `name`: the wrapped fighter's name. */
    function Name(): (n: string)
      ensures n == fighter.name
    {
      fighter.name
    }

    /** `speed_roll`. */
    function SpeedRoll(): (r: StatValue)
      reads this
      ensures r == speedRoll
    {
      speedRoll
    }

    /** `knockdown_count`. */
    function KnockdownCount(): (k: StatValue)
      reads this
      ensures k == knockdownCount
    {
      knockdownCount
    }

    /** `is_alive`: saturation never hides a defeat, so the combatant is
        alive exactly when effective health plus its modifier is positive. */
    function IsAlive(): (alive: bool)
      reads this
      requires Valid()
      ensures alive <==> Base(Health) + mods[Health] > 0
      ensures alive <==> CurrentStat(Health) > 0
    {
      CurrentStat(Health) > 0
    }

    /** `crit_chance`, read from the raw (untransformed) accuracy. */
    function CritChance(): (r: StatValue)
      requires fighter.rawStat(Accuracy) <= 50
      ensures r + 20 * fighter.rawStat(Accuracy) == 1000
      ensures r <= 1000
    {
      CritChanceFor(fighter.rawStat(Accuracy))
    }

    /** `take_damage`: lowers the health modifier by `damage`, saturating at
        `i16::MIN`, and counts a knockdown when that leaves the combatant
        down. The `u16` increment of the count panics at `u16::MAX`. */
    method TakeDamage(damage: StatValue)
      requires Valid()
      requires knockdownCount < StatValueMax
               || Base(Health) + SaturatingSubUnsigned(mods[Health], damage) > 0
      modifies this
      ensures Valid()
      ensures mods == old(mods)[Health := SaturatingSubUnsigned(old(mods[Health]), damage)]
      ensures old(mods[Health]) - damage >= SignedStatValueMin ==> mods[Health] == old(mods[Health]) - damage
      ensures speedRoll == old(speedRoll)
      ensures knockdownCount == old(knockdownCount) + (if IsAlive() then 0 else 1)
      ensures CurrentStat(Health) <= old(CurrentStat(Health))
    {
      mods := mods[Health := SaturatingSubUnsigned(mods[Health], damage)];
      if !IsAlive() {
        knockdownCount := knockdownCount + 1;
      }
    }

    /** `do_speed_roll`, with the drawn value `roll` in `1..=140` passed in.
        The `u16` addition panics on overflow. */
    method DoSpeedRoll(roll: int)
      requires Valid()
      requires 1 <= roll <= ReadyRange
      requires speedRoll + SpeedIncrement(roll, CurrentStat(Speed)) <= StatValueMax
      modifies this
      ensures Valid()
      ensures speedRoll == old(speedRoll) + SpeedIncrement(roll, old(CurrentStat(Speed)))
      ensures old(speedRoll) < speedRoll <= old(speedRoll) + ReadyRange
      ensures mods == old(mods) && knockdownCount == old(knockdownCount)
    {
      speedRoll := speedRoll + SpeedIncrement(roll, CurrentStat(Speed));
    }

    /** `end_turn`: rebases the counter by the attacker's roll, stopping at 0. */
    method EndTurn(attackerSpeedRoll: StatValue)
      requires Valid()
      modifies this
      ensures Valid()
      ensures speedRoll <= old(speedRoll)
      ensures attackerSpeedRoll <= old(speedRoll) ==> speedRoll == old(speedRoll) - attackerSpeedRoll
      ensures old(speedRoll) <= attackerSpeedRoll ==> speedRoll == 0
      ensures mods == old(mods) && knockdownCount == old(knockdownCount)
    {
      speedRoll := SaturatingSub(speedRoll, attackerSpeedRoll);
    }

    /** `get_back_up`: the modifiers become `Recovered` of the old ones,
        for conviction `c` and the effective health; the counter and the
        knockdown count stay. Conviction's own modifier is untouched, so
        every read of it in the source gives the same value. The `u16`
        products panic on overflow, and `200 * c` is the largest of them. */
    method GetBackUp()
      requires Valid()
      requires 200 * CurrentStat(Conviction) <= StatValueMax
      modifies this
      ensures Valid()
      ensures mods == Recovered(old(mods), old(CurrentStat(Conviction)), Base(Health))
      ensures CurrentStat(Conviction) == old(CurrentStat(Conviction))
      ensures var c := CurrentStat(Conviction);
        200 * c <= SignedStatValueMax && SignedStatValueMin <= 200 * c - Base(Health) ==>
          CurrentStat(Health) == 200 * c
      ensures SignedStatValueMax < 200 * CurrentStat(Conviction) && Base(Health) <= SignedStatValueMax ==>
        !IsAlive()
      ensures speedRoll == old(speedRoll) && knockdownCount == old(knockdownCount)
    {
      var c := CurrentStat(Conviction);
      mods := mods[Attack := SaturatingAddUnsigned(mods[Attack], c * 4)];
      mods := mods[Defense := SaturatingAddUnsigned(mods[Defense], c * 4)];
      mods := mods[Speed := SaturatingAddUnsigned(mods[Speed], c * 4)];
      mods := mods[Accuracy := SaturatingAddUnsigned(mods[Accuracy], c * 10)];
      mods := mods[Dodge := SaturatingAddUnsigned(mods[Dodge], c * 10)];
      mods := mods[Health := SaturatingSubUnsigned(AsSigned(200 * c), Base(Health))];
    }
  }
}
