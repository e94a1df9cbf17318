/** Sums of sequences of natural numbers, as `Iterator::sum` computes them. */
module Sums {

  /** The sum of `s`, peeling the last element so that a left-to-right
      accumulation loop extends it one element at a time. */
  function Sum(s: seq<nat>): nat
  {
    if s == [] then 0 else Sum(s[..|s| - 1]) + s[|s| - 1]
  }

  /** Appending one element adds it to the sum. */
  lemma SumAppend(s: seq<nat>, x: nat)
    ensures Sum(s + [x]) == Sum(s) + x
  {
    assert (s + [x])[..|s|] == s;
  }
}
