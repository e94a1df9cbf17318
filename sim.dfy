/** The batch simulation driver of `src/bin/sim.rs`: enumerate every stat
    build within the point budget, fight every pair of builds ten times,
    and sort the fighters by their (wins, losses) record. */
module Sim {
  import opened SimGen
  import opened SimTally

  /** A fighter with its (wins, losses) record. */
  datatype Standing = Standing(fighter: Build, record: (nat, nat))

  /** The key of `sort_by_key`: the (wins, losses) pair, compared
      lexicographically. */
  predicate RecordLe(x: (nat, nat), y: (nat, nat))
  {
    x.0 < y.0 || (x.0 == y.0 && x.1 <= y.1)
  }

  predicate SortedByRecord(s: seq<Standing>)
  {
    forall i, j :: 0 <= i < j < |s| ==> RecordLe(s[i].record, s[j].record)
  }

  /** Each record of `s[..n]` is at most the next one, except possibly the
      pair that ends at `gap` (pass `0` for no gap). */
  predicate AdjacentSorted(s: seq<Standing>, n: nat, gap: nat)
    requires n <= |s|
  {
    forall k :: 0 < k < n && k != gap ==> RecordLe(s[k - 1].record, s[k].record)
  }

  lemma RecordLeTransitive(x: (nat, nat), y: (nat, nat), z: (nat, nat))
    requires RecordLe(x, y) && RecordLe(y, z)
    ensures RecordLe(x, z)
  {
  }

  /** Sorted neighbour by neighbour is sorted, since the record order is
      transitive. */
  lemma {:induction false} AdjacentSortedIsSorted(s: seq<Standing>, n: nat)
    requires n <= |s| && AdjacentSorted(s, n, 0)
    ensures forall i, j :: 0 <= i < j < n ==> RecordLe(s[i].record, s[j].record)
    decreases n
  {
    if n > 1 {
      AdjacentSortedIsSorted(s, n - 1);
      forall i | 0 <= i < n - 1 ensures RecordLe(s[i].record, s[n - 1].record) {
        if i < n - 2 {
          RecordLeTransitive(s[i].record, s[n - 2].record, s[n - 1].record);
        }
      }
    }
  }

  /** Exchanges `a[j - 1]` and `a[j]`. */
  method SwapDown(a: array<Standing>, j: nat)
    requires 0 < j < a.Length
    modifies a
    ensures a[..] == old(a[..])[j - 1 := old(a[j])][j := old(a[j - 1])]
    ensures multiset(a[..]) == old(multiset(a[..]))
  {
    a[j - 1], a[j] := a[j], a[j - 1];
  }

  /** `s[k]` is the element that stood at `pos[k]` in `s0`. */
  ghost predicate Tracks(s: seq<Standing>, s0: seq<Standing>, pos: seq<nat>)
  {
    |pos| == |s| == |s0| && forall k :: 0 <= k < |s| ==> pos[k] < |s0| && s[k] == s0[pos[k]]
  }

  /** The origins of the first `n` elements are distinct and below `bound`,
      and every later element is still where it started. */
  ghost predicate Origins(pos: seq<nat>, n: nat, bound: nat)
    requires n <= |pos|
  {
    && (forall k :: 0 <= k < n ==> pos[k] < bound)
    && (forall p, q :: 0 <= p < q < n ==> pos[p] != pos[q])
    && (forall k :: n <= k < |pos| ==> pos[k] == k)
  }

  /** Among the first `n` elements, other than the one at `skip`, equal
      records keep the order of their origins (pass `n` for no skip). */
  ghost predicate StableUpTo(s: seq<Standing>, pos: seq<nat>, n: nat, skip: nat)
    requires n <= |s| == |pos|
  {
    forall p, q :: 0 <= p < q < n && p != skip && q != skip && s[p].record == s[q].record ==> pos[p] < pos[q]
  }

  /** The state between passes of the insertion sort: `s[..i]` is sorted
      and stable, `pos` tracks every element back to `s0`, and `s[i..]` is
      untouched. */
  ghost predicate SortedPrefix(s: seq<Standing>, s0: seq<Standing>, pos: seq<nat>, i: nat)
  {
    && i <= |s| && Tracks(s, s0, pos)
    && AdjacentSorted(s, i, 0) && Origins(pos, i, i) && StableUpTo(s, pos, i, i)
  }

  /** The state within the pass that inserts the element that stood at `i`,
      now at `j`: the rest of `s[..i + 1]` is sorted and stable around it,
      and every element after it has a different record. */
  ghost predicate Inserting(s: seq<Standing>, s0: seq<Standing>, pos: seq<nat>, i: nat, j: nat)
  {
    && j <= i < |s| && Tracks(s, s0, pos)
    && AdjacentSorted(s, i + 1, j)
    && (0 < j < i ==> RecordLe(s[j - 1].record, s[j + 1].record))
    && Origins(pos, i + 1, i + 1) && pos[j] == i
    && StableUpTo(s, pos, i + 1, j)
    && forall q :: j < q <= i ==> s[q].record != s[j].record
  }

  /** `final_results.sort_by_key(...)`: sorts in place by record, keeping
      the same standings, and stably: `pos` says where each element stood
      before, and elements with equal records keep their earlier order. */
  method SortByRecord(a: array<Standing>) returns (ghost pos: seq<nat>)
    modifies a
    ensures SortedByRecord(a[..])
    ensures multiset(a[..]) == old(multiset(a[..]))
    ensures Tracks(a[..], old(a[..]), pos)
    ensures forall p, q :: 0 <= p < q < a.Length ==> pos[p] != pos[q]
    ensures forall p, q :: 0 <= p < q < a.Length && a[p].record == a[q].record ==> pos[p] < pos[q]
  {
    ghost var a0 := a[..];
    pos := seq(a.Length, k => k);
    SortStart(a0, pos);
    var i := 0;
    while i < a.Length
      invariant SortedPrefix(a[..], a0, pos, i)
      invariant multiset(a[..]) == multiset(a0)
    {
      pos := Insert(a, i, a0, pos);
      i := i + 1;
    }
    SortDone(a[..], a0, pos);
  }

  /** Before the first pass nothing has moved. */
  lemma SortStart(s0: seq<Standing>, pos: seq<nat>)
    requires pos == seq(|s0|, k => k)
    ensures SortedPrefix(s0, s0, pos, 0)
  {
  }

  /** After the last pass the whole sequence is sorted and stable. */
  lemma SortDone(s: seq<Standing>, s0: seq<Standing>, pos: seq<nat>)
    requires SortedPrefix(s, s0, pos, |s|)
    ensures SortedByRecord(s) && Tracks(s, s0, pos)
    ensures forall p, q :: 0 <= p < q < |s| ==> pos[p] != pos[q]
    ensures forall p, q :: 0 <= p < q < |s| && s[p].record == s[q].record ==> pos[p] < pos[q]
  {
    AdjacentSortedIsSorted(s, |s|);
  }

  /** One pass of the insertion sort: `a[i]` moves left past the strictly
      greater records before it, so `a[..i + 1]` becomes sorted, stably. */
  method Insert(a: array<Standing>, i: nat, ghost a0: seq<Standing>, ghost pos0: seq<nat>)
    returns (ghost pos: seq<nat>)
    requires i < a.Length && SortedPrefix(a[..], a0, pos0, i)
    modifies a
    ensures SortedPrefix(a[..], a0, pos, i + 1)
    ensures multiset(a[..]) == old(multiset(a[..]))
  {
    pos := pos0;
    InsertStart(a[..], a0, pos, i);
    var j: nat := i;
    while 0 < j && !RecordLe(a[j - 1].record, a[j].record)
      invariant Inserting(a[..], a0, pos, i, j)
      invariant multiset(a[..]) == old(multiset(a[..]))
    {
      InsertStep(a[..], a0, pos, i, j);
      SwapDown(a, j);
      pos := pos[j - 1 := pos[j]][j := pos[j - 1]];
      j := j - 1;
    }
    InsertEnd(a[..], a0, pos, i, j);
  }

  /** Before a pass, the element to insert is where it started. */
  lemma InsertStart(s: seq<Standing>, s0: seq<Standing>, pos: seq<nat>, i: nat)
    requires i < |s| && SortedPrefix(s, s0, pos, i)
    ensures Inserting(s, s0, pos, i, i)
  {
  }

  /** Swapping the element being inserted past a strictly greater record. */
  lemma InsertStep(s: seq<Standing>, s0: seq<Standing>, pos: seq<nat>, i: nat, j: nat)
    requires Inserting(s, s0, pos, i, j) && 0 < j && !RecordLe(s[j - 1].record, s[j].record)
    ensures Inserting(s[j - 1 := s[j]][j := s[j - 1]], s0, pos[j - 1 := pos[j]][j := pos[j - 1]], i, j - 1)
  {
    SwapTracks(s, s0, pos, j);
    SwapOrigins(pos, i, j);
    SwapStable(s, pos, i, j);
    SwapSorted(s, i, j);
  }

  /** After a pass the inserted element sits after a record no greater
      than its own, has no equal record after it, and came last of all, so
      the whole prefix is sorted and stable. */
  lemma InsertEnd(s: seq<Standing>, s0: seq<Standing>, pos: seq<nat>, i: nat, j: nat)
    requires Inserting(s, s0, pos, i, j)
    requires 0 < j ==> RecordLe(s[j - 1].record, s[j].record)
    ensures SortedPrefix(s, s0, pos, i + 1)
  {
    forall p, q | 0 <= p < q < i + 1 && s[p].record == s[q].record
      ensures pos[p] < pos[q]
    {
      if q == j {
        assert pos[p] != pos[j];
      }
    }
  }

  /** Swapping keeps the prefix sorted around the element being inserted. */
  lemma SwapSorted(s: seq<Standing>, i: nat, j: nat)
    requires 0 < j <= i < |s| && AdjacentSorted(s, i + 1, j)
    requires 0 < j < i ==> RecordLe(s[j - 1].record, s[j + 1].record)
    requires !RecordLe(s[j - 1].record, s[j].record)
    ensures var t := s[j - 1 := s[j]][j := s[j - 1]];
      && AdjacentSorted(t, i + 1, j - 1)
      && (0 < j - 1 < i ==> RecordLe(t[j - 2].record, t[j].record))
  {
  }

  lemma SwapTracks(s: seq<Standing>, s0: seq<Standing>, pos: seq<nat>, j: nat)
    requires 0 < j < |s| && Tracks(s, s0, pos)
    ensures Tracks(s[j - 1 := s[j]][j := s[j - 1]], s0, pos[j - 1 := pos[j]][j := pos[j - 1]])
  {
  }

  lemma SwapOrigins(pos: seq<nat>, i: nat, j: nat)
    requires 0 < j <= i < |pos| && Origins(pos, i + 1, i + 1) && pos[j] == i
    ensures var moved := pos[j - 1 := pos[j]][j := pos[j - 1]];
      Origins(moved, i + 1, i + 1) && moved[j - 1] == i
  {
  }

  /** Swapping the element being inserted past a strictly greater record
      keeps the rest of the prefix stable. */
  lemma SwapStable(s: seq<Standing>, pos: seq<nat>, i: nat, j: nat)
    requires 0 < j <= i < |s| == |pos|
    requires StableUpTo(s, pos, i + 1, j)
    requires forall q :: j < q <= i ==> s[q].record != s[j].record
    requires !RecordLe(s[j - 1].record, s[j].record)
    ensures var t := s[j - 1 := s[j]][j := s[j - 1]];
      && StableUpTo(t, pos[j - 1 := pos[j]][j := pos[j - 1]], i + 1, j - 1)
      && forall q :: j - 1 < q <= i ==> t[q].record != t[j - 1].record
  {
  }

  function Zip(fighters: seq<Build>, results: seq<(nat, nat)>): (z: seq<Standing>)
    requires |fighters| == |results|
    ensures |z| == |fighters|
  {
    seq(|fighters|, k requires 0 <= k < |fighters| => Standing(fighters[k], results[k]))
  }

  /** `main` without its printing: the generated fighters paired with their
      records, sorted by record; fighters with equal records stay in the
      order they were generated. */
  method Simulate(accepts: Acceptance, firstWins: FightOracle) returns (standings: seq<Standing>)
    ensures var fighters := Generated(accepts);
      && SortedByRecord(standings)
      && multiset(standings) == multiset(Zip(fighters, Records(|fighters|, firstWins)))
    ensures forall p, q :: 0 <= p < q < |standings| && standings[p].record == standings[q].record ==>
      Before(standings[p].fighter, standings[q].fighter)
  {
    var fighters := GenFighters(accepts);
    var results := TallyResults(|fighters|, firstWins);
    var finalResults :=
      new Standing[|fighters|](k requires 0 <= k < |fighters| => Standing(fighters[k], results[k]));
    ghost var unsorted := finalResults[..];
    assert unsorted == Zip(fighters, results);
    GeneratedExactly(accepts);
    ghost var pos := SortByRecord(finalResults);
    standings := finalResults[..];
    forall p, q | 0 <= p < q < |standings| && standings[p].record == standings[q].record
      ensures Before(standings[p].fighter, standings[q].fighter)
    {
      assert standings[p] == unsorted[pos[p]] && standings[q] == unsorted[pos[q]];
    }
  }
}
