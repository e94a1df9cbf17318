/** The constant tables of the stat-cost version of the program (`src/stats.rs`). There
    `Stat` is a plain `u16`; the values here are indexed by points bought. */
module Stats {

  /** Cost of buying `i` attack points. Not monotone: index 18 costs 450. */
  const AttackCosts: seq<nat> :=
    [0, 5, 10, 15, 20, 25, 30, 40, 50, 60, 70, 80, 90, 100, 110, 120, 130, 140, 450, 160, 180]

  /** Cost of buying `i` speed points. */
  const SpeedCosts: seq<nat> := [0, 10, 20, 35, 50, 70, 90, 110, 135, 160, 190]

  /** Cost of buying `i` endurance points. */
  const EnduranceCosts: seq<nat> := [0, 20, 40, 80, 100, 150]

  const HealthPerPoint: nat := 3
  const BaseHealth: nat := 50
  const TotalPoints: nat := 200
}
