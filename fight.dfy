/** The two-fighter fight of `src/fight.rs`. Every tick is two half-ticks:
    fighter 0 attacks fighter 1, then fighter 1 attacks fighter 0. In a
    half-tick the attacker rolls its die once per point of Speed, each roll
    is raised by the attacker's Strength and lowered (stopping at 0) by the
    defender's Resist, and the defender's health falls by the sum. The
    fight ends after the first tick that leaves someone at or below 0.

    The random generator is replaced by the rolls it would produce, passed
    in tick by tick; the observer is replaced by a log of the events it
    would receive. */
module Fights {
  import opened Results
  import opened Sums

  datatype Stat = Health | Skill | Speed | Strength | Resist

  /** The read-only fighter of this version of the program, with its stat accessor. */
  datatype Fighter = Fighter(name: string, stat: Stat -> nat)

  /** `Uniform::new_inclusive(low, high)`: a die rolling `low..=high`. */
  datatype Die = Die(low: nat, high: nat)

  /** What the observer is told, fighters being named by their index. */
  datatype Event =
    | AttackStarting(attacker: nat, defender: nat)
    | Rolls(rolls: seq<nat>)
    | Adjusts(adjusted: seq<nat>)
    | FinalizeAttack(damage: nat, remainingHealth: int)
    | Winner(winner: Option<nat>)

  /** The rolls of one tick: fighter 0's, then fighter 1's. */
  datatype TickRolls = TickRolls(first: seq<nat>, second: seq<nat>)

  /** One roll after adjustment: `(roll + strength).saturating_sub(resist)`. */
  function Adjust(roll: nat, strength: nat, resist: nat): (r: nat)
    ensures r <= roll + strength
    ensures roll + strength <= r + resist
    ensures resist <= roll + strength ==> r + resist == roll + strength
    ensures roll + strength <= resist ==> r == 0
  {
    if roll + strength <= resist then 0 else roll + strength - resist
  }

  /** Every roll adjusted in place. */
  function AdjustAll(rolls: seq<nat>, strength: nat, resist: nat): (r: seq<nat>)
    ensures |r| == |rolls|
  {
    seq(|rolls|, k requires 0 <= k < |rolls| => Adjust(rolls[k], strength, resist))
  }

  /** The damage a half-tick deals: the sum of the adjusted rolls. */
  function Damage(rolls: seq<nat>, strength: nat, resist: nat): nat
  {
    Sum(AdjustAll(rolls, strength, resist))
  }

  /** The damage of some rolls is that of all but the last plus the last
      roll adjusted. */
  lemma DamageStep(rolls: seq<nat>, strength: nat, resist: nat)
    requires rolls != []
    ensures var init := rolls[..|rolls| - 1];
      && Damage(rolls, strength, resist)
         == Damage(init, strength, resist) + Adjust(rolls[|rolls| - 1], strength, resist)
      && Sum(rolls) == Sum(init) + rolls[|rolls| - 1]
  {
    var init := rolls[..|rolls| - 1];
    var last := rolls[|rolls| - 1];
    assert AdjustAll(rolls, strength, resist)
        == AdjustAll(init, strength, resist) + [Adjust(last, strength, resist)];
    SumAppend(AdjustAll(init, strength, resist), Adjust(last, strength, resist));
    SumAppend(init, last);
    assert init + [last] == rolls;
  }

  /** One more roll adds one more `x` to `n * x`: the step of
      `DamageBounds`, which the solver does not take unaided inside the
      induction. */
  lemma MulSucc(n: nat, x: nat)
    ensures (n + 1) * x == n * x + x
  {
  }

  /** Damage lies between the unclamped total `sum + n * (strength - resist)`
      and `sum + n * strength`, for `n` rolls. */
  lemma {:induction false} DamageBounds(rolls: seq<nat>, strength: nat, resist: nat)
    ensures Damage(rolls, strength, resist) <= Sum(rolls) + |rolls| * strength
    ensures Sum(rolls) + |rolls| * strength <= Damage(rolls, strength, resist) + |rolls| * resist
    decreases |rolls|
  {
    if rolls != [] {
      var init := rolls[..|rolls| - 1];
      var n := |init|;
      DamageStep(rolls, strength, resist);
      DamageBounds(init, strength, resist);
      MulSucc(n, strength);
      MulSucc(n, resist);
    }
  }

  /** When Strength is no lower than Resist, every roll of at least 1 does
      at least 1 damage, so a half-tick does at least one point per roll. */
  lemma {:induction false} DamageAtLeastRollCount(rolls: seq<nat>, strength: nat, resist: nat)
    requires resist <= strength
    requires forall k :: 0 <= k < |rolls| ==> 1 <= rolls[k]
    ensures |rolls| <= Damage(rolls, strength, resist)
    decreases |rolls|
  {
    if rolls != [] {
      DamageStep(rolls, strength, resist);
      DamageAtLeastRollCount(rolls[..|rolls| - 1], strength, resist);
    }
  }

  /** The winner once the fight is over: the fighter with strictly more
      health remaining, or none on equal health. */
  function WinnerOf(health0: int, health1: int): (w: Option<nat>)
    ensures w == Some(0) <==> health1 < health0
    ensures w == Some(1) <==> health0 < health1
    ensures w == None <==> health0 == health1
  {
    if health0 < health1 then Some(1) else if health1 < health0 then Some(0) else None
  }

  /** No rolls at all, or rolls of at most `high` that cannot beat
      `resist` even with `strength` added, deal no damage. */
  lemma {:induction false} NoDamage(rolls: seq<nat>, high: nat, strength: nat, resist: nat)
    requires forall k :: 0 <= k < |rolls| ==> rolls[k] <= high
    requires rolls == [] || high + strength <= resist
    ensures Damage(rolls, strength, resist) == 0
    decreases |rolls|
  {
    if rolls != [] {
      DamageStep(rolls, strength, resist);
      NoDamage(rolls[..|rolls| - 1], high, strength, resist);
    }
  }

  /** The events of one half-tick, as `run_half_tick` reports them. */
  function HalfTickEvents(attacker: nat, defender: nat, rolls: seq<nat>,
                          strength: nat, resist: nat, remaining: int): seq<Event>
  {
    [AttackStarting(attacker, defender), Rolls(rolls), Adjusts(AdjustAll(rolls, strength, resist)),
     FinalizeAttack(Damage(rolls, strength, resist), remaining)]
  }

  /** Total damage fighter `attacker` deals to fighter `defender` over some
      ticks, where `attacker` rolls the `first` or `second` part of each. */
  function DamageOver(ticks: seq<TickRolls>, attackerFirst: bool, strength: nat, resist: nat): nat
  {
    if ticks == [] then 0
    else
      var t := ticks[|ticks| - 1];
      DamageOver(ticks[..|ticks| - 1], attackerFirst, strength, resist)
        + Damage(if attackerFirst then t.first else t.second, strength, resist)
  }

  /** Playing one more tick adds that tick's damage. */
  lemma DamageOverStep(ticks: seq<TickRolls>, i: nat, attackerFirst: bool, strength: nat, resist: nat)
    requires i < |ticks|
    ensures DamageOver(ticks[..i + 1], attackerFirst, strength, resist)
            == DamageOver(ticks[..i], attackerFirst, strength, resist)
               + Damage(if attackerFirst then ticks[i].first else ticks[i].second, strength, resist)
  {
    assert ticks[..i + 1][..i] == ticks[..i];
  }

  /** Health never rises: the damage taken over a prefix of the ticks is at
      most the damage taken over a longer prefix. */
  lemma {:induction false} DamageOverMonotone(ticks: seq<TickRolls>, i: nat, j: nat,
                                              attackerFirst: bool, strength: nat, resist: nat)
    requires i <= j <= |ticks|
    ensures DamageOver(ticks[..i], attackerFirst, strength, resist)
            <= DamageOver(ticks[..j], attackerFirst, strength, resist)
    decreases j - i
  {
    if i < j {
      DamageOverMonotone(ticks, i, j - 1, attackerFirst, strength, resist);
      assert ticks[..j][..j - 1] == ticks[..j - 1];
    }
  }

  /** The events of playing `ticks` in full between fighters `f0` and `f1`
      that start with health `h0` and `h1`: each tick's two half-ticks,
      each reporting the defender's health after it, and no winner. */
  function TicksEvents(ticks: seq<TickRolls>, f0: Fighter, f1: Fighter, h0: int, h1: int): seq<Event>
  {
    if ticks == [] then []
    else
      var t := ticks[|ticks| - 1];
      TicksEvents(ticks[..|ticks| - 1], f0, f1, h0, h1)
        + HalfTickEvents(0, 1, t.first, f0.stat(Strength), f1.stat(Resist),
                         h1 - DamageOver(ticks, true, f0.stat(Strength), f1.stat(Resist)))
        + HalfTickEvents(1, 0, t.second, f1.stat(Strength), f0.stat(Resist),
                         h0 - DamageOver(ticks, false, f1.stat(Strength), f0.stat(Resist)))
  }

  /** Playing one more tick adds that tick's two half-ticks of events. */
  lemma TicksEventsStep(ticks: seq<TickRolls>, i: nat, f0: Fighter, f1: Fighter, h0: int, h1: int)
    requires i < |ticks|
    ensures TicksEvents(ticks[..i + 1], f0, f1, h0, h1)
            == TicksEvents(ticks[..i], f0, f1, h0, h1)
               + HalfTickEvents(0, 1, ticks[i].first, f0.stat(Strength), f1.stat(Resist),
                                h1 - DamageOver(ticks[..i + 1], true, f0.stat(Strength), f1.stat(Resist)))
               + HalfTickEvents(1, 0, ticks[i].second, f1.stat(Strength), f0.stat(Resist),
                                h0 - DamageOver(ticks[..i + 1], false, f1.stat(Strength), f0.stat(Resist)))
  {
    assert ticks[..i + 1][..i] == ticks[..i];
  }

  /** The healths after playing the first `n` of `ticks` between `f0` and
      `f1` from healths `h0` and `h1`: each has fallen by the damage of
      those ticks, both fighters stood after every tick but the last, and
      that last tick ended the fight exactly when `finished`. */
  ghost predicate HealthsAfter(ticks: seq<TickRolls>, n: nat, finished: bool, f0: Fighter, f1: Fighter,
                               h0: int, h1: int, c0: int, c1: int)
  {
    var strength0, resist1 := f0.stat(Strength), f1.stat(Resist);
    var strength1, resist0 := f1.stat(Strength), f0.stat(Resist);
    && n <= |ticks|
    && c1 == h1 - DamageOver(ticks[..n], true, strength0, resist1)
    && c0 == h0 - DamageOver(ticks[..n], false, strength1, resist0)
    && (finished ==> 0 < n && (c0 <= 0 || c1 <= 0))
    && (!finished && 0 < n ==> 0 < c0 && 0 < c1)
    && (forall j :: 0 < j < n ==>
          && 0 < h0 - DamageOver(ticks[..j], false, strength1, resist0)
          && 0 < h1 - DamageOver(ticks[..j], true, strength0, resist1))
  }

  /** The log after playing the first `n` of `ticks` from log `e0`: every
      tick's events and, when `finished`, the winner by healths `c0` and
      `c1`. */
  ghost predicate LogAfter(ticks: seq<TickRolls>, n: nat, finished: bool, f0: Fighter, f1: Fighter,
                           h0: int, h1: int, e0: seq<Event>, c0: int, c1: int, events: seq<Event>)
    requires n <= |ticks|
  {
    events == e0 + TicksEvents(ticks[..n], f0, f1, h0, h1)
                 + (if finished then [Winner(WinnerOf(c0, c1))] else [])
  }

  /** The state after playing the first `n` of `ticks`, with current
      healths `c0` and `c1` and log `events`. */
  ghost predicate PlayedValues(ticks: seq<TickRolls>, n: nat, finished: bool, f0: Fighter, f1: Fighter,
                               h0: int, h1: int, e0: seq<Event>, c0: int, c1: int, events: seq<Event>)
  {
    && HealthsAfter(ticks, n, finished, f0, f1, h0, h1, c0, c1)
    && LogAfter(ticks, n, finished, f0, f1, h0, h1, e0, c0, c1, events)
  }

  /** Ticks that each deal no damage deal none in total. */
  lemma {:induction false} NoDamageOver(ticks: seq<TickRolls>, i: nat, attackerFirst: bool,
                                        strength: nat, resist: nat)
    requires i <= |ticks|
    requires forall k :: 0 <= k < |ticks| ==>
      Damage(if attackerFirst then ticks[k].first else ticks[k].second, strength, resist) == 0
    ensures DamageOver(ticks[..i], attackerFirst, strength, resist) == 0
    decreases i
  {
    if i > 0 {
      DamageOverStep(ticks, i - 1, attackerFirst, strength, resist);
      NoDamageOver(ticks, i - 1, attackerFirst, strength, resist);
    }
  }

  /** When no tick deals damage either way, both fighters keep the health
      they started with, so a fight between two standing fighters never
      ends, however many ticks are played. */
  lemma NoDamageNeverFinishes(ticks: seq<TickRolls>, n: nat, finished: bool, f0: Fighter, f1: Fighter,
                              h0: int, h1: int, c0: int, c1: int)
    requires forall k :: 0 <= k < |ticks| ==>
      && Damage(ticks[k].first, f0.stat(Strength), f1.stat(Resist)) == 0
      && Damage(ticks[k].second, f1.stat(Strength), f0.stat(Resist)) == 0
    requires 0 < h0 && 0 < h1
    requires HealthsAfter(ticks, n, finished, f0, f1, h0, h1, c0, c1)
    ensures !finished && c0 == h0 && c1 == h1
  {
    NoDamageOver(ticks, n, true, f0.stat(Strength), f1.stat(Resist));
    NoDamageOver(ticks, n, false, f1.stat(Strength), f0.stat(Resist));
  }

  /** Playing tick `n` of an unfinished fight lowers each health by that
      tick's damage and ends the fight exactly when one falls to zero. */
  lemma HealthsStep(ticks: seq<TickRolls>, n: nat, f0: Fighter, f1: Fighter, h0: int, h1: int,
                    c0: int, c1: int, d0: int, d1: int, more: bool)
    requires n < |ticks| && HealthsAfter(ticks, n, false, f0, f1, h0, h1, c0, c1)
    requires d1 == c1 - Damage(ticks[n].first, f0.stat(Strength), f1.stat(Resist))
    requires d0 == c0 - Damage(ticks[n].second, f1.stat(Strength), f0.stat(Resist))
    requires more <==> 0 < d0 && 0 < d1
    ensures HealthsAfter(ticks, n + 1, !more, f0, f1, h0, h1, d0, d1)
  {
    DamageOverStep(ticks, n, true, f0.stat(Strength), f1.stat(Resist));
    DamageOverStep(ticks, n, false, f1.stat(Strength), f0.stat(Resist));
  }

  /** Playing tick `n` appends its two half-ticks, and the winner when the
      fight ends, to the log. */
  lemma LogStep(ticks: seq<TickRolls>, n: nat, f0: Fighter, f1: Fighter, h0: int, h1: int,
                e0: seq<Event>, c0: int, c1: int, events: seq<Event>, d0: int, d1: int, more: bool)
    requires n < |ticks| && LogAfter(ticks, n, false, f0, f1, h0, h1, e0, c0, c1, events)
    requires d1 == h1 - DamageOver(ticks[..n + 1], true, f0.stat(Strength), f1.stat(Resist))
    requires d0 == h0 - DamageOver(ticks[..n + 1], false, f1.stat(Strength), f0.stat(Resist))
    ensures LogAfter(ticks, n + 1, !more, f0, f1, h0, h1, e0, d0, d1,
                     events
                     + HalfTickEvents(0, 1, ticks[n].first, f0.stat(Strength), f1.stat(Resist), d1)
                     + HalfTickEvents(1, 0, ticks[n].second, f1.stat(Strength), f0.stat(Resist), d0)
                     + (if more then [] else [Winner(WinnerOf(d0, d1))]))
  {
    TicksEventsStep(ticks, n, f0, f1, h0, h1);
    var done := TicksEvents(ticks[..n], f0, f1, h0, h1);
    var first := HalfTickEvents(0, 1, ticks[n].first, f0.stat(Strength), f1.stat(Resist), d1);
    var second := HalfTickEvents(1, 0, ticks[n].second, f1.stat(Strength), f0.stat(Resist), d0);
    assert TicksEvents(ticks[..n + 1], f0, f1, h0, h1) == done + first + second;
    assert e0 + (done + first + second) == events + first + second;
  }

  /** Playing tick `n` of an unfinished fight, which leaves healths `d0`
      and `d1` and continues exactly when both are positive, reaches the
      state after `n + 1` ticks. */
  lemma PlayedStep(ticks: seq<TickRolls>, n: nat, f0: Fighter, f1: Fighter, h0: int, h1: int,
                   e0: seq<Event>, c0: int, c1: int, events: seq<Event>, d0: int, d1: int, more: bool)
    requires n < |ticks| && PlayedValues(ticks, n, false, f0, f1, h0, h1, e0, c0, c1, events)
    requires d1 == c1 - Damage(ticks[n].first, f0.stat(Strength), f1.stat(Resist))
    requires d0 == c0 - Damage(ticks[n].second, f1.stat(Strength), f0.stat(Resist))
    requires more <==> 0 < d0 && 0 < d1
    ensures PlayedValues(ticks, n + 1, !more, f0, f1, h0, h1, e0, d0, d1,
                         events
                         + HalfTickEvents(0, 1, ticks[n].first, f0.stat(Strength), f1.stat(Resist), d1)
                         + HalfTickEvents(1, 0, ticks[n].second, f1.stat(Strength), f0.stat(Resist), d0)
                         + (if more then [] else [Winner(WinnerOf(d0, d1))]))
  {
    HealthsStep(ticks, n, f0, f1, h0, h1, c0, c1, d0, d1, more);
    LogStep(ticks, n, f0, f1, h0, h1, e0, c0, c1, events, d0, d1, more);
  }

  class Fight {
    const fighters: seq<Fighter>
    const dice: seq<Die>
    const currentHealth: array<int>
    var events: seq<Event>

    ghost predicate Valid()
      reads this
    {
      |fighters| == 2 && |dice| == 2 && currentHealth.Length == 2
    }

    /** Rolls a half-tick of fighter `attacker` may use: one per point of
        its Speed, each on its die. */
    ghost predicate RollsFit(attacker: nat, rolls: seq<nat>)
      requires Valid() && attacker < 2
      reads this
    {
      && |rolls| == fighters[attacker].stat(Speed)
      && forall k :: 0 <= k < |rolls| ==> dice[attacker].low <= rolls[k] <= dice[attacker].high
    }

    ghost predicate TickFits(t: TickRolls)
      requires Valid()
      reads this
    {
      RollsFit(0, t.first) && RollsFit(1, t.second)
    }

    /** Fighter `attacker` can never hurt fighter `defender`: it rolls no
        dice (Speed 0), or its best roll plus its Strength is at most the
        defender's Resist. */
    ghost predicate Harmless(attacker: nat, defender: nat)
      requires Valid() && attacker < 2 && defender < 2
      reads this
    {
      fighters[attacker].stat(Speed) == 0
      || dice[attacker].high + fighters[attacker].stat(Strength) <= fighters[defender].stat(Resist)
    }

    /** Rolls that fit a harmless fighter deal no damage. */
    lemma HarmlessTicks(ticks: seq<TickRolls>)
      requires Valid() && Harmless(0, 1) && Harmless(1, 0)
      requires forall k :: 0 <= k < |ticks| ==> TickFits(ticks[k])
      ensures forall k :: 0 <= k < |ticks| ==>
        && Damage(ticks[k].first, fighters[0].stat(Strength), fighters[1].stat(Resist)) == 0
        && Damage(ticks[k].second, fighters[1].stat(Strength), fighters[0].stat(Resist)) == 0
    {
      forall k | 0 <= k < |ticks|
        ensures Damage(ticks[k].first, fighters[0].stat(Strength), fighters[1].stat(Resist)) == 0
        ensures Damage(ticks[k].second, fighters[1].stat(Strength), fighters[0].stat(Resist)) == 0
      {
        assert TickFits(ticks[k]);
        NoDamage(ticks[k].first, dice[0].high, fighters[0].stat(Strength), fighters[1].stat(Resist));
        NoDamage(ticks[k].second, dice[1].high, fighters[1].stat(Strength), fighters[0].stat(Resist));
      }
    }

    /** `Fight::new`. A die of `1..=Skill` needs Skill of at least 1. */
    constructor (f1: Fighter, f2: Fighter)
      requires 1 <= f1.stat(Skill) && 1 <= f2.stat(Skill)
      ensures Valid() && fresh(currentHealth)
      ensures fighters == [f1, f2]
      ensures currentHealth[0] == f1.stat(Health) && currentHealth[1] == f2.stat(Health)
      ensures dice == [Die(1, f1.stat(Skill)), Die(1, f2.stat(Skill))]
      ensures events == []
    {
      fighters := [f1, f2];
      var health := new int[2];
      health[0], health[1] := f1.stat(Health), f2.stat(Health);
      currentHealth := health;
      dice := [Die(1, f1.stat(Skill)), Die(1, f2.stat(Skill))];
      events := [];
    }

    /** `run_half_tick`: only the defender's health changes, and it falls
        by exactly the damage of the adjusted rolls. */
    method RunHalfTick(attackerIndex: nat, defenderIndex: nat, draws: seq<nat>)
      requires Valid() && attackerIndex < 2 && defenderIndex < 2
      requires RollsFit(attackerIndex, draws)
      modifies this, currentHealth
      ensures Valid()
      ensures var strength := fighters[attackerIndex].stat(Strength);
        var resist := fighters[defenderIndex].stat(Resist);
        && currentHealth[defenderIndex] == old(currentHealth[defenderIndex]) - Damage(draws, strength, resist)
        && events == old(events) + HalfTickEvents(attackerIndex, defenderIndex, draws,
                                                  strength, resist, currentHealth[defenderIndex])
      ensures currentHealth[1 - defenderIndex] == old(currentHealth[1 - defenderIndex])
      ensures currentHealth[defenderIndex] <= old(currentHealth[defenderIndex])
    {
      var attacker := fighters[attackerIndex];
      var defender := fighters[defenderIndex];

      events := events + [AttackStarting(attackerIndex, defenderIndex)];

      var speed := attacker.stat(Speed);
      var rolls := new nat[speed];
      var k := 0;
      while k < speed
        modifies rolls
        invariant 0 <= k <= speed
        invariant rolls[..k] == draws[..k]
      {
        rolls[k] := draws[k];
        k := k + 1;
      }
      assert rolls[..] == draws;

      events := events + [Rolls(rolls[..])];

      var strength := attacker.stat(Strength);
      var resist := defender.stat(Resist);
      k := 0;
      while k < speed
        modifies rolls
        invariant 0 <= k <= speed
        invariant forall j :: 0 <= j < k ==> rolls[j] == Adjust(draws[j], strength, resist)
        invariant forall j :: k <= j < speed ==> rolls[j] == draws[j]
      {
        rolls[k] := Adjust(rolls[k], strength, resist);
        k := k + 1;
      }
      assert rolls[..] == AdjustAll(draws, strength, resist);

      events := events + [Adjusts(rolls[..])];

      var damage := Sum(rolls[..]);
      currentHealth[defenderIndex] := currentHealth[defenderIndex] - damage;

      events := events + [FinalizeAttack(damage, currentHealth[defenderIndex])];
    }

    /** `run_tick`: both half-ticks always run, the second even when the
        first has already put fighter 1 down; the result is false (the fight
        is over, and the winner reported) exactly when a health is at or
        below 0 afterwards. */
    method RunTick(t: TickRolls) returns (continues: bool)
      requires Valid() && TickFits(t)
      modifies this, currentHealth
      ensures Valid()
      ensures currentHealth[1] == old(currentHealth[1])
                - Damage(t.first, fighters[0].stat(Strength), fighters[1].stat(Resist))
      ensures currentHealth[0] == old(currentHealth[0])
                - Damage(t.second, fighters[1].stat(Strength), fighters[0].stat(Resist))
      ensures continues <==> 0 < currentHealth[0] && 0 < currentHealth[1]
      ensures events == old(events)
        + HalfTickEvents(0, 1, t.first, fighters[0].stat(Strength), fighters[1].stat(Resist),
                         currentHealth[1])
        + HalfTickEvents(1, 0, t.second, fighters[1].stat(Strength), fighters[0].stat(Resist),
                         currentHealth[0])
        + (if continues then [] else [Winner(WinnerOf(currentHealth[0], currentHealth[1]))])
    {
      RunHalfTick(0, 1, t.first);
      RunHalfTick(1, 0, t.second);

      var health0 := currentHealth[0];
      var health1 := currentHealth[1];

      if health0 <= 0 || health1 <= 0 {
        events := events + [Winner(WinnerOf(health0, health1))];
        continues := false;
      } else {
        continues := true;
      }
    }

    /** The state after playing the first `n` of `ticks` from healths `h0`
        and `h1` and event log `e0` (see `PlayedValues`). */
    ghost predicate Played(ticks: seq<TickRolls>, n: nat, finished: bool, h0: int, h1: int, e0: seq<Event>)
      requires Valid()
      reads this, currentHealth
    {
      PlayedValues(ticks, n, finished, fighters[0], fighters[1], h0, h1, e0,
                   currentHealth[0], currentHealth[1], events)
    }

    /** One iteration of `run`'s loop: tick `n` is played. */
    method PlayTick(ticks: seq<TickRolls>, n: nat, ghost h0: int, ghost h1: int, ghost e0: seq<Event>)
      returns (more: bool)
      requires Valid() && n < |ticks| && TickFits(ticks[n])
      requires Played(ticks, n, false, h0, h1, e0)
      modifies this, currentHealth
      ensures Valid() && Played(ticks, n + 1, !more, h0, h1, e0)
    {
      ghost var c0, c1, before := currentHealth[0], currentHealth[1], events;
      more := RunTick(ticks[n]);
      PlayedStep(ticks, n, fighters[0], fighters[1], h0, h1, e0, c0, c1, before,
                 currentHealth[0], currentHealth[1], more);
    }

    /** `run`: ticks until one ends the fight. The rolls given cover a
        finite number of ticks, so the run also stops when they run out;
        `finished` says whether the fight ended, `ticksRun` how many ticks
        were played. Each fighter's health has fallen by the damage of
        exactly the ticks played, both were still standing after every
        earlier tick, and the observer saw every tick's events followed by
        a single winner event when the fight ended. */
    method Run(ticks: seq<TickRolls>) returns (finished: bool, ticksRun: nat)
      requires Valid()
      requires forall k :: 0 <= k < |ticks| ==> TickFits(ticks[k])
      modifies this, currentHealth
      ensures Valid()
      ensures ticksRun <= |ticks|
      ensures currentHealth[1] == old(currentHealth[1])
                - DamageOver(ticks[..ticksRun], true, fighters[0].stat(Strength), fighters[1].stat(Resist))
      ensures currentHealth[0] == old(currentHealth[0])
                - DamageOver(ticks[..ticksRun], false, fighters[1].stat(Strength), fighters[0].stat(Resist))
      ensures currentHealth[0] <= old(currentHealth[0]) && currentHealth[1] <= old(currentHealth[1])
      ensures finished ==> 0 < ticksRun && (currentHealth[0] <= 0 || currentHealth[1] <= 0)
      ensures finished ==>
        |events| > 0 && events[|events| - 1] == Winner(WinnerOf(currentHealth[0], currentHealth[1]))
      ensures !finished ==>
        ticksRun == |ticks| && (0 < ticksRun ==> 0 < currentHealth[0] && 0 < currentHealth[1])
      ensures forall j :: 0 < j < ticksRun ==>
        && 0 < old(currentHealth[0])
               - DamageOver(ticks[..j], false, fighters[1].stat(Strength), fighters[0].stat(Resist))
        && 0 < old(currentHealth[1])
               - DamageOver(ticks[..j], true, fighters[0].stat(Strength), fighters[1].stat(Resist))
      ensures events == old(events)
        + TicksEvents(ticks[..ticksRun], fighters[0], fighters[1],
                      old(currentHealth[0]), old(currentHealth[1]))
        + (if finished then [Winner(WinnerOf(currentHealth[0], currentHealth[1]))] else [])
      ensures Harmless(0, 1) && Harmless(1, 0) && 0 < old(currentHealth[0]) && 0 < old(currentHealth[1])
        ==> !finished
    {
      ghost var h0, h1, e0 := currentHealth[0], currentHealth[1], events;
      finished, ticksRun := false, 0;
      assert ticks[..0] == [];
      while ticksRun < |ticks| && !finished
        invariant Valid() && ticksRun <= |ticks|
        invariant Played(ticks, ticksRun, finished, h0, h1, e0)
      {
        var more := PlayTick(ticks, ticksRun, h0, h1, e0);
        finished := !more;
        ticksRun := ticksRun + 1;
      }
      if Harmless(0, 1) && Harmless(1, 0) && 0 < h0 && 0 < h1 {
        HarmlessTicks(ticks);
        NoDamageNeverFinishes(ticks, ticksRun, finished, fighters[0], fighters[1], h0, h1,
                              currentHealth[0], currentHealth[1]);
      }
    }
  }
}
