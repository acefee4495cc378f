/** Weighted sums over sequences: the wait-group count and the shutdown measure of the
    socket hub are both sums of a per-goroutine weight. */
module Sums {

  function Sum<T>(xs: seq<T>, weight: T -> nat): nat {
    if xs == [] then 0 else Sum(xs[..|xs| - 1], weight) + weight(xs[|xs| - 1])
  }

  lemma {:induction false} SumUpdate<T>(xs: seq<T>, i: nat, x: T, weight: T -> nat)
    requires i < |xs|
    ensures Sum(xs[i := x], weight) + weight(xs[i]) == Sum(xs, weight) + weight(x)
  {
    var last := |xs| - 1;
    if i == last {
      assert xs[i := x][..last] == xs[..last];
    } else {
      assert xs[i := x][..last] == xs[..last][i := x];
      SumUpdate(xs[..last], i, x, weight);
    }
  }

  lemma SumAppend<T>(xs: seq<T>, x: T, weight: T -> nat)
    ensures Sum(xs + [x], weight) == Sum(xs, weight) + weight(x)
  {
  }

  /** A term never exceeds the sum. */
  lemma {:induction false} TermAtMostSum<T>(xs: seq<T>, i: nat, weight: T -> nat)
    requires i < |xs|
    ensures weight(xs[i]) <= Sum(xs, weight)
  {
    if i < |xs| - 1 {
      TermAtMostSum(xs[..|xs| - 1], i, weight);
    }
  }

  /** A positive sum has a positive term. */
  lemma {:induction false} PositiveTerm<T>(xs: seq<T>, weight: T -> nat) returns (i: nat)
    requires Sum(xs, weight) > 0
    ensures i < |xs| && weight(xs[i]) > 0
  {
    var last := |xs| - 1;
    if weight(xs[last]) > 0 {
      i := last;
    } else {
      i := PositiveTerm(xs[..last], weight);
    }
  }
}
