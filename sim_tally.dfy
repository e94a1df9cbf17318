/** The pairwise tally of `main` in `src/bin/sim.rs`: every pair of
    fighters fights ten times, and each fight credits a win to its winner
    and a loss to the other. The fight itself is the parameter `firstWins`,
    which says for fight `rep` of the pair `(i1, i2)`, `i1 < i2`, whether
    fighter `i1` won. */
module SimTally {

  /** Whether fighter `i1` wins fight `rep` against fighter `i2`. */
  type FightOracle = (nat, nat, nat) -> bool

  const FightsPerPair: nat := 10

  /** Fighter `k` beats fighter `j` in fight `rep` of their pairing; the
      pairing is fought with the lower index first. */
  function Beats(k: nat, j: nat, rep: nat, firstWins: FightOracle): bool
  {
    if k < j then firstWins(k, j, rep) else !firstWins(j, k, rep)
  }

  /** How many of the first `reps` fights of the pairing `{k, j}` `k` wins. */
  function WinsVs(k: nat, j: nat, reps: nat, firstWins: FightOracle): nat
  {
    if reps == 0 then 0
    else WinsVs(k, j, reps - 1, firstWins) + (if Beats(k, j, reps - 1, firstWins) then 1 else 0)
  }

  /** `k`'s wins against every other fighter below `hi`. */
  function WinsAgainst(k: nat, hi: nat, firstWins: FightOracle): nat
  {
    if hi == 0 then 0
    else WinsAgainst(k, hi - 1, firstWins)
         + (if hi - 1 == k then 0 else WinsVs(k, hi - 1, FightsPerPair, firstWins))
  }

  /** `k`'s losses against every other fighter below `hi`: their wins over it. */
  function LossesAgainst(k: nat, hi: nat, firstWins: FightOracle): nat
  {
    if hi == 0 then 0
    else LossesAgainst(k, hi - 1, firstWins)
         + (if hi - 1 == k then 0 else WinsVs(hi - 1, k, FightsPerPair, firstWins))
  }

  /** The (wins, losses) record of every one of `n` fighters. */
  function Records(n: nat, firstWins: FightOracle): seq<(nat, nat)>
  {
    seq(n, k requires 0 <= k < n => (WinsAgainst(k, n, firstWins), LossesAgainst(k, n, firstWins)))
  }

  /** Each fight of a pairing is a win for exactly one of the two. */
  lemma {:induction false} PairingSplit(k: nat, j: nat, reps: nat, firstWins: FightOracle)
    requires k != j
    ensures WinsVs(k, j, reps, firstWins) + WinsVs(j, k, reps, firstWins) == reps
    decreases reps
  {
    if reps > 0 {
      PairingSplit(k, j, reps - 1, firstWins);
    }
  }

  /** Against the other fighters below `hi`, `k` has played ten fights each. */
  lemma {:induction false} GamesAgainst(k: nat, hi: nat, firstWins: FightOracle)
    ensures WinsAgainst(k, hi, firstWins) + LossesAgainst(k, hi, firstWins)
            == FightsPerPair * (if k < hi then hi - 1 else hi)
    decreases hi
  {
    if hi > 0 {
      GamesAgainst(k, hi - 1, firstWins);
      if hi - 1 != k {
        PairingSplit(k, hi - 1, FightsPerPair, firstWins);
      }
    }
  }

  /** The record of fighter `k` once the tally has reached fight `rep` of
      the pair `(i1, i2)`: every pair before it in the loop order is done. */
  function RecordAt(k: nat, n: nat, i1: nat, i2: nat, rep: nat, firstWins: FightOracle): (nat, nat)
  {
    if k < i1 then (WinsAgainst(k, n, firstWins), LossesAgainst(k, n, firstWins))
    else if k == i1 then (WinsAgainst(k, i2, firstWins) + WinsVs(k, i2, rep, firstWins),
                          LossesAgainst(k, i2, firstWins) + WinsVs(i2, k, rep, firstWins))
    else if k < i2 then (WinsAgainst(k, i1 + 1, firstWins), LossesAgainst(k, i1 + 1, firstWins))
    else if k == i2 then (WinsAgainst(k, i1, firstWins) + WinsVs(k, i1, rep, firstWins),
                          LossesAgainst(k, i1, firstWins) + WinsVs(i1, k, rep, firstWins))
    else (WinsAgainst(k, i1, firstWins), LossesAgainst(k, i1, firstWins))
  }

  function SumWins(s: seq<(nat, nat)>): nat
  {
    if s == [] then 0 else s[0].0 + SumWins(s[1..])
  }

  function SumLosses(s: seq<(nat, nat)>): nat
  {
    if s == [] then 0 else s[0].1 + SumLosses(s[1..])
  }

  /** Replacing one record changes the totals by the difference. */
  lemma {:induction false} SumsUpdate(s: seq<(nat, nat)>, i: nat, x: (nat, nat))
    requires i < |s|
    ensures SumWins(s[i := x]) + s[i].0 == SumWins(s) + x.0
    ensures SumLosses(s[i := x]) + s[i].1 == SumLosses(s) + x.1
    decreases i
  {
    if i > 0 {
      SumsUpdate(s[1..], i - 1, x);
      assert s[i := x][1..] == s[1..][i - 1 := x];
    } else {
      assert s[i := x][1..] == s[1..];
    }
  }

  /** The tally loop of `main`: for every pair `i1 < i2` (the index of the
      skipped-and-enumerated inner iterator plus `i1 + 1`), ten fights, each
      crediting a win to its winner and a loss to the other. Each fighter's
      record is its wins and losses against all the others; every fighter
      has fought ten times against each of the `n - 1` others; and the
      total of wins equals the total of losses. */
  method TallyResults(n: nat, firstWins: FightOracle) returns (results: seq<(nat, nat)>)
    ensures results == Records(n, firstWins)
    ensures forall k :: 0 <= k < n ==> results[k].0 + results[k].1 == FightsPerPair * (n - 1)
    ensures SumWins(results) == SumLosses(results)
  {
    var tally := new (nat, nat)[n](_ => (0, 0));
    TallyStart(tally[..], firstWins);

    var i1 := 0;
    while i1 < n
      invariant i1 <= n
      invariant TallyIs(tally[..], i1, i1 + 1, 0, firstWins)
      invariant SumWins(tally[..]) == SumLosses(tally[..])
    {
      PlayRow(tally, i1, firstWins);
      i1 := i1 + 1;
    }

    results := tally[..];
    TallyDone(results, firstWins);
  }

  /** The fights of fighter `i1` against every later fighter. */
  method PlayRow(tally: array<(nat, nat)>, i1: nat, firstWins: FightOracle)
    requires i1 < tally.Length
    requires TallyIs(tally[..], i1, i1 + 1, 0, firstWins)
    requires SumWins(tally[..]) == SumLosses(tally[..])
    modifies tally
    ensures TallyIs(tally[..], i1 + 1, i1 + 2, 0, firstWins)
    ensures SumWins(tally[..]) == SumLosses(tally[..])
  {
    var i2 := i1 + 1;
    while i2 < tally.Length
      invariant i1 < i2 <= tally.Length
      invariant TallyIs(tally[..], i1, i2, 0, firstWins)
      invariant SumWins(tally[..]) == SumLosses(tally[..])
    {
      PlayPair(tally, i1, i2, firstWins);
      TallyNextPair(tally[..], i1, i2, firstWins);
      i2 := i2 + 1;
    }
    TallyNextRow(tally[..], i1, firstWins);
  }

  /** The ten fights of the pair `(i1, i2)`, each crediting a win to its
      winner and a loss to the other. */
  method PlayPair(tally: array<(nat, nat)>, i1: nat, i2: nat, firstWins: FightOracle)
    requires i1 < i2 < tally.Length
    requires TallyIs(tally[..], i1, i2, 0, firstWins)
    requires SumWins(tally[..]) == SumLosses(tally[..])
    modifies tally
    ensures TallyIs(tally[..], i1, i2, FightsPerPair, firstWins)
    ensures SumWins(tally[..]) == SumLosses(tally[..])
  {
    var n := tally.Length;
    var rep := 0;
    while rep < FightsPerPair
      invariant rep <= FightsPerPair
      invariant TallyIs(tally[..], i1, i2, rep, firstWins)
      invariant SumWins(tally[..]) == SumLosses(tally[..])
    {
      PlayFight(tally, i1, i2, rep, firstWins);
      rep := rep + 1;
    }
  }

  /** Fight `rep` of the pair `(i1, i2)`: the winner's wins and the loser's
      losses go up by one. */
  method PlayFight(tally: array<(nat, nat)>, i1: nat, i2: nat, rep: nat, firstWins: FightOracle)
    requires i1 < i2 < tally.Length
    requires TallyIs(tally[..], i1, i2, rep, firstWins)
    requires SumWins(tally[..]) == SumLosses(tally[..])
    modifies tally
    ensures TallyIs(tally[..], i1, i2, rep + 1, firstWins)
    ensures SumWins(tally[..]) == SumLosses(tally[..])
  {
    ghost var before := tally[..];
    if firstWins(i1, i2, rep) {
      tally[i1] := (tally[i1].0 + 1, tally[i1].1);
      tally[i2] := (tally[i2].0, tally[i2].1 + 1);
    } else {
      tally[i2] := (tally[i2].0 + 1, tally[i2].1);
      tally[i1] := (tally[i1].0, tally[i1].1 + 1);
    }
    TallyStepSums(before, tally[..], i1, i2);
    TallyStep(before, tally[..], i1, i2, rep, firstWins);
  }

  /** `t` holds every record as it stands before fight `rep` of `(i1, i2)`. */
  ghost predicate TallyIs(t: seq<(nat, nat)>, i1: nat, i2: nat, rep: nat, firstWins: FightOracle)
  {
    forall k :: 0 <= k < |t| ==> t[k] == RecordAt(k, |t|, i1, i2, rep, firstWins)
  }

  /** One fight moves the tally from fight `rep` to fight `rep + 1`. */
  lemma TallyStep(before: seq<(nat, nat)>, after: seq<(nat, nat)>, i1: nat, i2: nat, rep: nat,
                  firstWins: FightOracle)
    requires i1 < i2 < |before| == |after|
    requires TallyIs(before, i1, i2, rep, firstWins)
    requires forall k :: 0 <= k < |before| && k != i1 && k != i2 ==> after[k] == before[k]
    requires firstWins(i1, i2, rep) ==>
      after[i1] == (before[i1].0 + 1, before[i1].1) && after[i2] == (before[i2].0, before[i2].1 + 1)
    requires !firstWins(i1, i2, rep) ==>
      after[i2] == (before[i2].0 + 1, before[i2].1) && after[i1] == (before[i1].0, before[i1].1 + 1)
    ensures TallyIs(after, i1, i2, rep + 1, firstWins)
  {
    forall k | 0 <= k < |after| ensures after[k] == RecordAt(k, |after|, i1, i2, rep + 1, firstWins) {
      RecordAtNextFight(k, |after|, i1, i2, rep, firstWins);
    }
  }

  lemma ZeroSums(s: seq<(nat, nat)>)
    requires forall k :: 0 <= k < |s| ==> s[k] == (0, 0)
    ensures SumWins(s) == 0 && SumLosses(s) == 0
  {
    if s != [] {
      ZeroSums(s[1..]);
    }
  }

  /** One fight of the tally adds one to the wins total and one to the
      losses total. */
  lemma TallyStepSums(before: seq<(nat, nat)>, after: seq<(nat, nat)>, i1: nat, i2: nat)
    requires i1 < i2 < |before| == |after|
    requires forall k :: 0 <= k < |before| && k != i1 && k != i2 ==> after[k] == before[k]
    requires (after[i1] == (before[i1].0 + 1, before[i1].1) && after[i2] == (before[i2].0, before[i2].1 + 1))
          || (after[i2] == (before[i2].0 + 1, before[i2].1) && after[i1] == (before[i1].0, before[i1].1 + 1))
    requires SumWins(before) == SumLosses(before)
    ensures SumWins(after) == SumLosses(after)
  {
    var middle := before[i1 := after[i1]];
    SumsUpdate(before, i1, after[i1]);
    SumsUpdate(middle, i2, after[i2]);
    assert middle[i2 := after[i2]] == after;
  }

  /** Fight `rep` of the pair `(i1, i2)` credits a win to its winner and a
      loss to the other, and leaves every other record alone. */
  lemma RecordAtNextFight(k: nat, n: nat, i1: nat, i2: nat, rep: nat, firstWins: FightOracle)
    requires i1 < i2
    ensures var r := RecordAt(k, n, i1, i2, rep, firstWins);
      RecordAt(k, n, i1, i2, rep + 1, firstWins)
      == if k == i1 then (if firstWins(i1, i2, rep) then (r.0 + 1, r.1) else (r.0, r.1 + 1))
         else if k == i2 then (if firstWins(i1, i2, rep) then (r.0, r.1 + 1) else (r.0 + 1, r.1))
         else r
  {
  }

  /** Finishing the ten fights of `(i1, i2)` is starting `(i1, i2 + 1)`. */
  lemma RecordAtNextPair(k: nat, n: nat, i1: nat, i2: nat, firstWins: FightOracle)
    requires i1 < i2
    ensures RecordAt(k, n, i1, i2, FightsPerPair, firstWins) == RecordAt(k, n, i1, i2 + 1, 0, firstWins)
  {
  }

  /** Finishing the last pair of row `i1` is starting row `i1 + 1`. */
  lemma RecordAtNextRow(k: nat, n: nat, i1: nat, firstWins: FightOracle)
    requires k < n
    ensures RecordAt(k, n, i1, n, 0, firstWins) == RecordAt(k, n, i1 + 1, i1 + 2, 0, firstWins)
  {
  }

  /** Before any fight every record is (0, 0). */
  lemma TallyStart(t: seq<(nat, nat)>, firstWins: FightOracle)
    requires forall k :: 0 <= k < |t| ==> t[k] == (0, 0)
    ensures TallyIs(t, 0, 1, 0, firstWins)
    ensures SumWins(t) == SumLosses(t)
  {
    ZeroSums(t);
  }

  /** Finishing the pair `(i1, i2)` is starting `(i1, i2 + 1)`. */
  lemma TallyNextPair(t: seq<(nat, nat)>, i1: nat, i2: nat, firstWins: FightOracle)
    requires i1 < i2 && TallyIs(t, i1, i2, FightsPerPair, firstWins)
    ensures TallyIs(t, i1, i2 + 1, 0, firstWins)
  {
    forall k | 0 <= k < |t| ensures t[k] == RecordAt(k, |t|, i1, i2 + 1, 0, firstWins) {
      RecordAtNextPair(k, |t|, i1, i2, firstWins);
    }
  }

  /** Finishing row `i1` is starting row `i1 + 1`. */
  lemma TallyNextRow(t: seq<(nat, nat)>, i1: nat, firstWins: FightOracle)
    requires TallyIs(t, i1, |t|, 0, firstWins)
    ensures TallyIs(t, i1 + 1, i1 + 2, 0, firstWins)
  {
    forall k | 0 <= k < |t| ensures t[k] == RecordAt(k, |t|, i1 + 1, i1 + 2, 0, firstWins) {
      RecordAtNextRow(k, |t|, i1, firstWins);
    }
  }

  /** Once every row is done, each record is complete, and each fighter has
      fought ten times against each other one. */
  lemma TallyDone(t: seq<(nat, nat)>, firstWins: FightOracle)
    requires TallyIs(t, |t|, |t| + 1, 0, firstWins)
    ensures t == Records(|t|, firstWins)
    ensures forall k :: 0 <= k < |t| ==> t[k].0 + t[k].1 == FightsPerPair * (|t| - 1)
  {
    forall k | 0 <= k < |t| ensures t[k].0 + t[k].1 == FightsPerPair * (|t| - 1) {
      GamesAgainst(k, |t|, firstWins);
    }
  }
}
