/** Finite sums over a sequence of indices, the `quicksum(... for f in F)`
    expressions the optimizer builds its constraints and objective from. */
module Sums {

  function SumSeq<T>(xs: seq<T>, g: T -> real): real
    decreases |xs|
  {
    if |xs| == 0 then 0.0 else g(xs[0]) + SumSeq(xs[1..], g)
  }

  lemma {:induction false} SumCongruent<T>(xs: seq<T>, g: T -> real, h: T -> real)
    requires forall i :: 0 <= i < |xs| ==> g(xs[i]) == h(xs[i])
    ensures SumSeq(xs, g) == SumSeq(xs, h)
    decreases |xs|
  {
    if |xs| > 0 {
      SumCongruent(xs[1..], g, h);
    }
  }

  lemma {:induction false} SumOfZeros<T>(xs: seq<T>, g: T -> real)
    requires forall i :: 0 <= i < |xs| ==> g(xs[i]) == 0.0
    ensures SumSeq(xs, g) == 0.0
    decreases |xs|
  {
    if |xs| > 0 {
      SumOfZeros(xs[1..], g);
    }
  }

  lemma {:induction false} SumNonNegative<T>(xs: seq<T>, g: T -> real)
    requires forall i :: 0 <= i < |xs| ==> g(xs[i]) >= 0.0
    ensures SumSeq(xs, g) >= 0.0
    decreases |xs|
  {
    if |xs| > 0 {
      SumNonNegative(xs[1..], g);
    }
  }

  /** With no negative term, each term is bounded by the sum. */
  lemma {:induction false} TermAtMostSum<T>(xs: seq<T>, g: T -> real, k: int)
    requires forall i :: 0 <= i < |xs| ==> g(xs[i]) >= 0.0
    requires 0 <= k < |xs|
    ensures g(xs[k]) <= SumSeq(xs, g)
    decreases |xs|
  {
    SumNonNegative(xs[1..], g);
    if k > 0 {
      TermAtMostSum(xs[1..], g, k - 1);
    }
  }

  /** With no negative term, any two distinct terms together are bounded by the sum. */
  lemma {:induction false} TwoTermsAtMostSum<T>(xs: seq<T>, g: T -> real, k: int, l: int)
    requires forall i :: 0 <= i < |xs| ==> g(xs[i]) >= 0.0
    requires 0 <= k < l < |xs|
    ensures g(xs[k]) + g(xs[l]) <= SumSeq(xs, g)
    decreases |xs|
  {
    if k == 0 {
      TermAtMostSum(xs[1..], g, l - 1);
    } else {
      TwoTermsAtMostSum(xs[1..], g, k - 1, l - 1);
    }
  }

  /** Terms valued 0 or 1 that sum to exactly 1: exactly one of them is 1. */
  lemma ExactlyOneTermIsOne<T>(xs: seq<T>, g: T -> real)
    requires forall i :: 0 <= i < |xs| ==> g(xs[i]) == 0.0 || g(xs[i]) == 1.0
    requires SumSeq(xs, g) == 1.0
    ensures exists k :: 0 <= k < |xs| && g(xs[k]) == 1.0
    ensures forall k, l :: 0 <= k < l < |xs| && g(xs[k]) == 1.0 ==> g(xs[l]) == 0.0
  {
    if forall i :: 0 <= i < |xs| ==> g(xs[i]) == 0.0 {
      SumOfZeros(xs, g);
    }
    forall k, l | 0 <= k < l < |xs| && g(xs[k]) == 1.0 ensures g(xs[l]) == 0.0 {
      TwoTermsAtMostSum(xs, g, k, l);
    }
  }

  /** A sum whose terms vanish everywhere but at position k equals that term. */
  lemma {:induction false} SumSingleTerm<T>(xs: seq<T>, g: T -> real, k: int)
    requires 0 <= k < |xs|
    requires forall i :: 0 <= i < |xs| && i != k ==> g(xs[i]) == 0.0
    ensures SumSeq(xs, g) == g(xs[k])
    decreases |xs|
  {
    if k == 0 {
      SumOfZeros(xs[1..], g);
    } else {
      SumSingleTerm(xs[1..], g, k - 1);
    }
  }
}
