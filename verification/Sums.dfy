/** Finite sums over a sequence of per-thread weights, the counting tool behind
    the token arguments of the concurrent protocols. */
module Sums {

  function Sum(xs: seq<nat>): nat {
    if xs == [] then 0 else xs[0] + Sum(xs[1..])
  }

  /** Changing one entry changes the sum by exactly that entry's difference. */
  lemma {:induction false} SumUpdate(xs: seq<nat>, i: nat, x: nat)
    requires i < |xs|
    ensures Sum(xs[i := x]) + xs[i] == Sum(xs) + x
  {
    var ys := xs[i := x];
    if i == 0 {
      assert ys[1..] == xs[1..];
    } else {
      assert ys[1..] == xs[1..][i - 1 := x];
      SumUpdate(xs[1..], i - 1, x);
    }
  }

  /** A sum dominates every entry, and every pair of distinct entries. */
  lemma {:induction false} SumAtLeast(xs: seq<nat>, i: nat)
    requires i < |xs|
    ensures xs[i] <= Sum(xs)
  {
    if i > 0 {
      SumAtLeast(xs[1..], i - 1);
    }
  }

  lemma {:induction false} SumAtLeastTwo(xs: seq<nat>, i: nat, j: nat)
    requires i < |xs| && j < |xs| && i != j
    ensures xs[i] + xs[j] <= Sum(xs)
  {
    SumUpdate(xs, i, 0);
    SumAtLeast(xs[i := 0], j);
  }

  /** A positive sum has a positive entry. */
  lemma {:induction false} SumWitness(xs: seq<nat>) returns (i: nat)
    requires Sum(xs) > 0
    ensures i < |xs| && xs[i] > 0
  {
    if xs[0] > 0 {
      i := 0;
    } else {
      var k := SumWitness(xs[1..]);
      i := k + 1;
    }
  }

  lemma {:induction false} SumZero(xs: seq<nat>)
    requires forall i :: 0 <= i < |xs| ==> xs[i] == 0
    ensures Sum(xs) == 0
  {
    if xs != [] {
      SumZero(xs[1..]);
    }
  }
}
