# FighterSimulator core, modelled in Dafny

FighterSimulator pits stat-built fighters against each other in dice fights.
This project models its core and proves properties of the model:

- **Combatant state** (`src/fight_fighter.rs`). This is the class
  `FightFighters.FightFighter`. It holds signed `i16` modifiers laid over the
  fighter's effective stats, a readiness counter ("speed roll") and a
  knockdown count. Each operation keeps the source's saturating arithmetic:
  - reading a stat;
  - taking damage;
  - rolling for readiness;
  - ending a turn;
  - getting back up, including the `as i16` cast of `200 * conviction`.
- **The two-fighter fight** (`src/fight.rs`). This is the class
  `Fights.Fight`, with the fighters, their health array and their dice.
  - Each half-tick the attacker rolls one die per point of Speed.
  - Every roll gains the attacker's Strength and loses the defender's
    Resist, stopping at zero.
  - The defender's health falls by the sum.
  - The fight ends after the first tick that leaves a fighter at or below
    zero. The fighter with more health remaining wins; equal health means
    no winner.
  - The random rolls are inputs. The observer is an event log.
- **Fighter validation** (`src/fighter.rs`). `Fighters.New` checks every
  stat against the legal range, in the stat map's order, with "too high"
  tested before "too low". When every stat is in range it then checks the
  point total against the budget.
- **Reports** (`src/report.rs`). `FullReport` records the round, the two
  attacks of a tick with the health left after each, and the winner.
  `WinnerOnlyReport` records only the winner.
- **The batch simulator** (`src/bin/sim.rs`):
  - `SimGen`: the fighter enumeration (`gen_fighters`), using the cost
    tables of `src/stats.rs`;
  - `SimTally`: the tally of ten fights for every pair;
  - `Sim`: the final sort by (wins, losses).

  The simulator calls a `Fighter::new` and a `Fight::run` from another
  version of the program. Their code is not part of this model, so both
  enter as parameters:
  - `accepts` says whether `Fighter::new` accepts a build;
  - `firstWins(i1, i2, rep)` says whether fighter `i1` wins fight `rep`
    against `i2`.

Three properties of the source come out of the proofs:

- **Attack cost table.** The table in `src/stats.rs` is not monotone. Entry
  18 costs 450, more than the whole 200-point budget, while entries 19 and
  20 cost 160 and 180. So the enumeration never produces a build with
  attack 18 (`SimGen.NoAttackEighteen`). The model keeps the table as the
  source writes it.
- **Getting back up with high conviction.** `get_back_up` sets health to
  `200 * conviction` through an `as i16` cast. When `200 * conviction`
  exceeds `i16::MAX`, the cast wraps to a negative number. If effective
  health is also at most `i16::MAX`, the combatant then stays down
  (`FightFighters.FightFighter.GetBackUp`).
- **A fight nobody can win.** `Fight::run` loops until a tick ends the
  fight. When neither fighter can hurt the other (Speed 0, or Skill plus
  Strength at most the other's Resist) and both fighters start above 0
  health, no tick ever ends the fight, so the loop never returns
  (`Fights.NoDamageNeverFinishes`, `Fights.Fight.Run`). A fighter that
  starts at 0 or below still ends the fight after the first tick.

Helper modules:

- `Integers`: the `u16` and `i16` stat types and Rust's saturating
  operations on them.
- `Sums`: sums of sequences.
- `Results`: `Option` and `Result`.
- `Stats`: the constant tables of `src/stats.rs`.

## Model

| member | source | states |
|---|---|---|
| FightFighters.FightFighter.constructor | src/fight_fighter.rs:14-21 | every modifier, the speed roll and the knockdown count start at 0, so every current stat equals the effective value of the raw stat |
| FightFighters.FightFighter.CurrentStat | src/fight_fighter.rs:46-49 | the effective value plus the modifier, saturated to `u16`: zero exactly when the signed sum is not positive, the sum itself within range, `u16::MAX` above it; a zero modifier gives the effective value, a positive one never lowers it, a negative one never raises it |
| FightFighters.FightFighter.Name | src/fight_fighter.rs:23-25 | the name is the wrapped fighter's name |
| FightFighters.FightFighter.SpeedRoll | src/fight_fighter.rs:31-33 | the readiness counter as it stands |
| FightFighters.FightFighter.KnockdownCount | src/fight_fighter.rs:42-44 | the number of knockdowns taken so far |
| FightFighters.FightFighter.IsAlive | src/fight_fighter.rs:27-29 | alive exactly when the current health is positive, and exactly when effective health plus its modifier is positive, so saturation never hides a defeat |
| FightFighters.FightFighter.TakeDamage | src/fight_fighter.rs:35-40 | only the health modifier changes, lowered by the damage and saturating at `i16::MIN`; the knockdown count rises by one exactly when the combatant ends up down; current health never rises; the speed roll stays |
| FightFighters.SpeedIncrement | src/fight_fighter.rs:57 | the increment of a readiness roll lies between 1 and the roll, equals roll minus speed when speed is below the roll, and is 1 otherwise |
| FightFighters.SpeedIncrementAntitone | src/fight_fighter.rs:57 | a faster combatant's counter never grows more than a slower one's on the same roll |
| FightFighters.FightFighter.DoSpeedRoll | src/fight_fighter.rs:55-58 | the counter rises by the speed increment of the drawn roll, so it strictly rises, by at most 140; modifiers and knockdowns stay |
| FightFighters.FightFighter.EndTurn | src/fight_fighter.rs:60-62 | the counter drops by the attacker's roll, stopping at 0, and never rises; nothing else changes |
| FightFighters.CritChanceFor | src/fight_fighter.rs:52 | the crit threshold plus 20 times the raw accuracy is exactly 1000; it is a multiple of 20 and at most 1000 |
| FightFighters.CritChanceNonIncreasing | src/fight_fighter.rs:52 | more raw accuracy never raises the crit threshold |
| FightFighters.FightFighter.CritChance | src/fight_fighter.rs:51-53 | the threshold is read from the raw accuracy, not the effective one, and adds up to 1000 with 20 times it |
| FightFighters.Recovered | src/fight_fighter.rs:64-79 | Attack, Defense and Speed modifiers gain 4 x conviction, Accuracy and Dodge gain 10 x conviction, each stacking on the old modifier, exact up to `i16::MAX` and stopping at `i16::MAX` beyond it; health's modifier brings effective health to 200 x conviction when that fits `i16` and effective health is at most 200 x conviction + 32768 (so the modifier does not saturate at `i16::MIN`), and is negative when the cast wraps; Conviction's modifier is kept |
| FightFighters.FightFighter.GetBackUp | src/fight_fighter.rs:64-80 | the modifiers become the recovered ones for the conviction read before the call; conviction itself is unchanged; current health becomes 200 x conviction when that fits `i16` and effective health is at most 200 x conviction + 32768; when it does not and effective health is at most `i16::MAX`, the combatant stays down; the counter and knockdowns stay |
| Integers.AsSigned | src/fight_fighter.rs:76 | the `as i16` cast keeps the value modulo 2^16: values up to `i16::MAX` are kept, larger ones become negative, and only those |
| Fights.Adjust | src/fight.rs:79-81 | an adjusted roll is roll + Strength - Resist when that is not negative and 0 otherwise; it never exceeds roll + Strength |
| Fights.DamageBounds | src/fight.rs:79-86 | a half-tick's damage lies between the unclamped total `sum + n * (Strength - Resist)` and `sum + n * Strength`, for `n` rolls |
| Fights.DamageAtLeastRollCount | src/fight.rs:72-86 | when Strength is at least Resist, every roll does at least 1 damage, so the damage is at least the number of rolls, which is the attacker's Speed |
| Fights.WinnerOf | src/fight.rs:46-53 | fighter 0 wins exactly when it has strictly more health, fighter 1 exactly when fighter 1 has strictly more, and there is no winner exactly on equal health |
| Fights.DamageOverMonotone | src/fight.rs:34-36 | over more ticks a fighter has taken at least as much damage: health never rises during a fight |
| Fights.Fight.constructor | src/fight.rs:19-32 | the fighters in order, current health the Health stat of each, the dice `1..=Skill` of each, an empty event log |
| Fights.Fight.RunHalfTick | src/fight.rs:60-89 | only the defender's health changes, falling by exactly the damage of the adjusted rolls; the observer is told of the attack, the rolls, the adjusted rolls, and the damage with the health left, in that order |
| Fights.Fight.RunTick | src/fight.rs:39-58 | fighter 0 attacks, then fighter 1 does; the tick continues the fight exactly when both fighters stay above 0; otherwise the last event names the winner |
| Fights.PlayedStep | src/fight.rs:35 | playing one more tick of an unfinished fight lowers each health by that tick's damage, appends the tick's events, and ends the fight, with a winner event, exactly when a health drops to 0 or below |
| Fights.HealthsStep | src/fight.rs:35 | playing one more tick of an unfinished fight lowers each health by that tick's damage, and the fight is over exactly when one of the new healths is 0 or below |
| Fights.LogStep | src/fight.rs:35 | playing one more tick appends that tick's two half-tick events, each with the defender's health after the tick, and then a winner event only when the fight ended |
| Fights.Fight.PlayTick | src/fight.rs:35 | one iteration of the loop: after it the state is that of one more tick played |
| Fights.NoDamage | src/fight.rs:72-86 | a half-tick with no rolls, or whose best roll plus Strength is at most the defender's Resist, deals no damage |
| Fights.NoDamageOver | src/fight.rs:34-36 | ticks that each deal no damage deal none over any prefix |
| Fights.NoDamageNeverFinishes | src/fight.rs:34-36 | when no tick deals damage either way, both fighters keep their starting health, so a fight between two standing fighters never finishes, however many ticks are played |
| Fights.Fight.HarmlessTicks | src/fight.rs:72-86 | rolls drawn as the fight draws them deal no damage when both fighters are harmless to each other |
| Fights.Fight.Run | src/fight.rs:34-36 | each fighter's health has fallen by the damage of exactly the ticks played; both fighters stood after every tick but the last, so the fight stops at the first tick that ends it; the log holds every tick's events in order followed, only when the fight ended, by one winner event; an unfinished run used every tick and left both alive; when neither fighter can hurt the other and both start standing, the fight never finishes |
| Fighters.Fighter.Name | src/fighter.rs:44-46 | the name the fighter was built with |
| Fighters.Fighter.Stat | src/fighter.rs:48-50 | the value stored for the stat |
| Fighters.New | src/fighter.rs:17-42 | success exactly when every stat lies in range and the stats add up to `TOTAL_POINTS` (the `totalPoints` parameter); the fighter keeps the name and stats; on error, the first stat out of range is named, too high before too low, and the point-total error carries the actual total and comes only when every stat is in range |
| Reports.FullReport.constructor | src/report.rs:43-50 | no round, two empty attack slots, two empty health slots, no winner |
| Reports.FullReport.GetWinner | src/report.rs:52-54 | the winner recorded, if any |
| Reports.FullReport.SetWinner | src/report.rs:56-58 | the next `get_winner` returns the fighter set; the round stays |
| Reports.FullReport.SetNewRound | src/report.rs:60-62 | the round is recorded; the winner stays |
| Reports.FullReport.SetAttack | src/report.rs:64-72 | slot `i` of the attacks and of the remaining healths is filled; the other slot, the round and the winner stay |
| Reports.WinnerOnlyReport.constructor | src/report.rs:76-78 | no winner yet |
| Reports.WinnerOnlyReport.GetWinner | src/report.rs:80-82 | the winner recorded, if any |
| Reports.WinnerOnlyReport.SetWinner | src/report.rs:84-86 | the next `get_winner` returns the fighter set |
| Reports.WinnerOnlyReport.SetNewRound | src/report.rs:88 | records nothing: the winner stays |
| Reports.WinnerOnlyReport.SetAttack | src/report.rs:89-95 | records nothing: the winner stays |
| SimGen.HealthFor | src/bin/sim.rs:45 | the health bought with the unspent points is at least `BASE_HEALTH` and at most what the whole budget buys |
| SimGen.GenFighters | src/bin/sim.rs:36-58 | the nested attack, speed and endurance loops push exactly the sequence `Generated` |
| SimGen.PushRow | src/bin/sim.rs:41-53 | the endurance loop appends to the list, in order, the accepted builds of one attack and speed that fit the budget |
| SimGen.RowMembers | src/bin/sim.rs:41-53 | a build is pushed by an endurance loop exactly when it has that attack and speed, an earlier endurance, fits the budget, has the health the rest buys, and is accepted |
| SimGen.PlaneMembers | src/bin/sim.rs:40-54 | the same, for every speed up to a bound, for one attack |
| SimGen.CubeMembers | src/bin/sim.rs:39-55 | the same, for every attack up to a bound |
| SimGen.RowShape | src/bin/sim.rs:41-53 | one endurance loop pushes builds in strictly increasing endurance |
| SimGen.PlaneShape | src/bin/sim.rs:40-54 | one speed loop pushes builds in strictly increasing (speed, endurance) |
| SimGen.CubeShape | src/bin/sim.rs:39-55 | the attack loop pushes builds in strictly increasing (attack, speed, endurance) |
| SimGen.GeneratedExactly | src/bin/sim.rs:36-58 | a build is generated exactly when it is within the cost tables and the budget, has the health the rest buys, and is accepted; every pair comes in enumeration order, so nothing repeats |
| SimGen.NoAttackEighteen | src/bin/sim.rs:42-44 | attack cost 18 exceeds the whole budget, so no generated build has attack 18, while attack 19 and 20 are affordable |
| SimTally.PairingSplit | src/bin/sim.rs:14-25 | every fight of a pairing is a win for exactly one of the two, so the two wins add up to the fights played |
| SimTally.GamesAgainst | src/bin/sim.rs:11-27 | a fighter's wins plus losses against the others below a bound is ten per opponent |
| SimTally.RecordAtNextFight | src/bin/sim.rs:18-24 | one fight adds a win to the winner's record and a loss to the loser's, and changes no other record |
| SimTally.TallyStepSums | src/bin/sim.rs:18-24 | one fight keeps the total of wins equal to the total of losses |
| SimTally.PlayFight | src/bin/sim.rs:15-24 | after one more fight of the pair the tally holds every record as the loop order defines it |
| SimTally.PlayPair | src/bin/sim.rs:14-25 | after the ten fights of a pair the tally holds every record as the loop order defines it |
| SimTally.PlayRow | src/bin/sim.rs:12-26 | after fighter `i1` has met every later fighter the tally holds every record as the loop order defines it |
| SimTally.TallyDone | src/bin/sim.rs:11-27 | once every pair is done, each record is the fighter's wins and losses against all the others, and each adds up to ten per opponent |
| SimTally.TallyResults | src/bin/sim.rs:7-27 | each fighter's record is its wins and losses against all others; each fighter has fought ten times against each of the other n - 1; the total of wins equals the total of losses |
| Sim.SortByRecord | src/bin/sim.rs:30 | sorts in place by (wins, losses), compared lexicographically, and keeps the same standings (a permutation); it is stable: each element comes from a distinct earlier position, and elements with equal records keep their earlier order |
| Sim.Insert | src/bin/sim.rs:30 | one insertion pass extends the sorted, stable prefix by one element without changing the standings |
| Sim.InsertStep | src/bin/sim.rs:30 | moving the element being inserted past a strictly greater record keeps the rest of the prefix sorted and stable |
| Sim.InsertEnd | src/bin/sim.rs:30 | once the element being inserted stops after a record no greater than its own, the whole prefix is sorted and stable |
| Sim.SortDone | src/bin/sim.rs:30 | when every pass is done, the standings are sorted by record, each one traces back to a distinct original position, and equal records keep their original order |
| Sim.Simulate | src/bin/sim.rs:5-30 | the standings are the generated fighters paired with their records, as a permutation, sorted by record; fighters with equal records stay in the order they were generated |

## Left out

- `src/bin/main.rs`, `src/bin/user_entry.rs`, `src/observer.rs` and `src/lib.rs` are not part of this model. Input parsing and printing are I/O. The observer is replaced by the event log of `Fights.Fight`.
- The random generator: the readiness roll and the fight's dice rolls are inputs, constrained to the ranges the source draws from.
- `Stat::effective_value`, `StatMap::new`, `MIN_STAT_VALUE`, `MAX_STAT_VALUE` and `Round` are defined in files not part of this model. The effective value is a parameter of the combatant; the legal range and the stat values (in the stat map's iteration order) are parameters of `Fighters.New`.
- `StatValue` and `SignedStatValue` are defined in a version of `src/stats.rs` that this model does not include; they are taken as `u16` and `i16`.
- `FightFighters.FightFighter.TakeDamage`: the `u16` overflow panic of the knockdown count becomes a precondition.
- `FightFighters.FightFighter.DoSpeedRoll`: the `u16` overflow panic of the counter becomes a precondition.
- `FightFighters.FightFighter.GetBackUp`: the `u16` overflow panics of the conviction products become a precondition (`200 * conviction` fits `u16`).
- `FightFighters.FightFighter.CritChance`: the `u16` underflow of `1000 - accuracy * 20` is a precondition (raw accuracy at most 50).
- `Fights.Fight.constructor`: `Uniform::new_inclusive(1, skill)` panics when Skill is 0; that panic becomes the precondition that both fighters have Skill of at least 1.
- `Fights.Fight.RunHalfTick`: integers are unbounded. The `as SignedStatValue` casts and any `i16`/`u16` overflow of health or damage in `src/fight.rs` are not modelled, because the version of `src/stats.rs` that defines those widths is not part of this model.
- `Fights.Fight.RunHalfTick`: the `ArrayVec` capacity `MAX_STAT_POINTS + 1` is not modelled; the rolls are a sequence of any length.
- `Fights.Fight.Run`: the source loops until a tick ends the fight; the model plays a given finite list of ticks' rolls, so it may also stop because the rolls ran out, and says which happened.
- `Fights.Fight.Run`: when neither fighter can hurt the other (Speed 0, or Skill + Strength at most the other's Resist) and both start above 0 health, the loop at `src/fight.rs:35` never returns. The model cannot run forever: its `Run` instead ensures that such a fight is never finished, however many ticks are given (`Fights.NoDamageNeverFinishes`).
- `Reports.FullReport.SetAttack`: the out-of-bounds panic of indexing the two-slot arrays with `attack_index` becomes the precondition `i < 2`.
- `Reports.AttackReport`: the `ArrayVec` capacity of 20 rolls per list is not modelled; the roll lists are sequences of any length.
- The fight's `rng` field is not modelled: its rolls are inputs.
- `Fighters.New`: the `total_cost` sum is unbounded; its `u16` overflow is not modelled.
- `Fighters.New`: `TOTAL_POINTS` comes from the stats module of the same version of the program as `StatMap`, which is not part of this model, so the budget is the parameter `totalPoints` rather than the 200 of `src/stats.rs`.
- `SimGen.GenFighters`: the `format!` fighter names are not modelled; a build is identified by its attack, speed, endurance and health.
- `SimGen.GenFighters` uses the cost tables of `src/stats.rs`, where the source reads them through `Stat::X.costs()`.
- The simulator's `Fighter::new` and `Fight::run` come from another version of the program: they are the `accepts` and `firstWins` parameters. A drawn fight is whatever `firstWins` says it is.
- The team fight of the wider program, and the report's use by it, are not part of this model.
