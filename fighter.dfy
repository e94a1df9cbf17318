/** Fighter construction and validation (`src/fighter.rs`). The stat map
    built from the invested points is visited in its iteration order; each
    stat must lie within the legal per-stat range, checked against the
    maximum first, and only when every stat passes is the point total
    compared with the budget. */
module Fighters {
  import opened Results
  import opened Sums

  /** A stat, named by its position in the stat map's iteration order. */
  type StatIndex = nat

  datatype FighterStatError =
    | IncorrectPointTotal(total: nat)
    | StatAboveMax(stat: StatIndex)
    | StatBelowMin(stat: StatIndex)

  /** The per-stat legal range `MIN_STAT_VALUE..=MAX_STAT_VALUE`. */
  datatype StatRange = StatRange(min: nat, max: nat)

  datatype Fighter = Fighter(name: string, stats: seq<nat>)
  {
    /** `name`. */
    function Name(): (n: string)
      ensures n == name
    {
      name
    }

    /** `stat`: the value stored for a stat. */
    function Stat(s: StatIndex): (v: nat)
      requires s < |stats|
      ensures v == stats[s]
    {
      stats[s]
    }
  }

  predicate InRange(value: nat, range: StatRange)
  {
    range.min <= value <= range.max
  }

  /** Every stat of `values` lies within `range`. */
  predicate AllInRange(values: seq<nat>, range: StatRange)
  {
    forall k :: 0 <= k < |values| ==> InRange(values[k], range)
  }

  /** `Fighter::new`, given the stat map's values in iteration order. It
      succeeds exactly when every stat is in range and the values add up to
      `TOTAL_POINTS`, here `totalPoints`, since the stats module this
      version of the program reads it from is not part of this model. Otherwise the first
      stat out of range decides the error (too high is checked before too
      low), and the point-total error, carrying the actual total, comes only
      when every stat is in range. */
  method New(name: string, stats: seq<nat>, range: StatRange, totalPoints: nat)
    returns (r: Result<Fighter, FighterStatError>)
    ensures r.Ok? <==> AllInRange(stats, range) && Sum(stats) == totalPoints
    ensures r.Ok? ==> r.value.Name() == name && |r.value.stats| == |stats|
                      && forall s :: 0 <= s < |stats| ==> r.value.Stat(s) == stats[s]
    ensures r.Err? && r.error.StatAboveMax? ==>
              var s := r.error.stat;
              s < |stats| && range.max < stats[s] && AllInRange(stats[..s], range)
    ensures r.Err? && r.error.StatBelowMin? ==>
              var s := r.error.stat;
              s < |stats| && stats[s] < range.min && stats[s] <= range.max && AllInRange(stats[..s], range)
    ensures r.Err? && r.error.IncorrectPointTotal? ==>
              AllInRange(stats, range) && r.error.total == Sum(stats) != totalPoints
  {
    var totalCost := 0;
    var s := 0;
    while s < |stats|
      invariant 0 <= s <= |stats|
      invariant AllInRange(stats[..s], range)
      invariant totalCost == Sum(stats[..s])
    {
      var value := stats[s];
      if value > range.max {
        return Err(StatAboveMax(s));
      }
      if value < range.min {
        return Err(StatBelowMin(s));
      }
      assert stats[..s + 1] == stats[..s] + [value];
      SumAppend(stats[..s], value);
      totalCost := totalCost + value;
      s := s + 1;
    }
    assert stats[..s] == stats;

    if totalCost != totalPoints {
      return Err(IncorrectPointTotal(totalCost));
    }

    return Ok(Fighter(name, stats));
  }
}
