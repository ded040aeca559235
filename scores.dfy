/** Scores: reals extended with the two infinities that the alpha-beta agent
    uses as initial bounds, and the folds (`max`, `min`, `sum`) the agents
    apply to lists of child values. */
module Scores {

  /** `float("-inf")`, a finite score, or `float("inf")`. */
  datatype ExtReal = NegInf | Fin(val: real) | PosInf

  function Rank(x: ExtReal): nat {
    match x
    case NegInf => 0
    case Fin(_) => 1
    case PosInf => 2
  }

  /** Strict order on extended scores. */
  predicate Lt(x: ExtReal, y: ExtReal) {
    if x.Fin? && y.Fin? then x.val < y.val else Rank(x) < Rank(y)
  }

  predicate Le(x: ExtReal, y: ExtReal) {
    !Lt(y, x)
  }

  function ExtMax(x: ExtReal, y: ExtReal): (m: ExtReal)
    ensures Le(x, m) && Le(y, m) && (m == x || m == y)
  {
    if Lt(x, y) then y else x
  }

  function ExtMin(x: ExtReal, y: ExtReal): (m: ExtReal)
    ensures Le(m, x) && Le(m, y) && (m == x || m == y)
  {
    if Lt(y, x) then y else x
  }

  function Max(a: real, b: real): real {
    if a < b then b else a
  }

  function Min(a: real, b: real): real {
    if b < a then b else a
  }

  /** Python's `max` over a non-empty list of scores, folded left to right. */
  function MaxOf(xs: seq<real>): (m: real)
    requires |xs| > 0
    ensures m in xs
    ensures forall i :: 0 <= i < |xs| ==> xs[i] <= m
  {
    if |xs| == 1 then xs[0] else Max(MaxOf(xs[..|xs| - 1]), xs[|xs| - 1])
  }

  /** Python's `min` over a non-empty list of scores, folded left to right. */
  function MinOf(xs: seq<real>): (m: real)
    requires |xs| > 0
    ensures m in xs
    ensures forall i :: 0 <= i < |xs| ==> m <= xs[i]
  {
    if |xs| == 1 then xs[0] else Min(MinOf(xs[..|xs| - 1]), xs[|xs| - 1])
  }

  /** `sumValue += x` over the list, starting from 0. */
  function Sum(xs: seq<real>): real {
    if |xs| == 0 then 0.0 else Sum(xs[..|xs| - 1]) + xs[|xs| - 1]
  }

  /** Every element multiplied by `c`. */
  function Scale(c: real, xs: seq<real>): (r: seq<real>)
    ensures |r| == |xs|
    ensures forall i :: 0 <= i < |xs| ==> r[i] == c * xs[i]
  {
    seq(|xs|, i requires 0 <= i < |xs| => c * xs[i])
  }

  lemma {:induction false} SumScale(c: real, xs: seq<real>)
    ensures Sum(Scale(c, xs)) == c * Sum(xs)
  {
    if |xs| > 0 {
      var n := |xs| - 1;
      var ys := Scale(c, xs);
      assert forall i :: 0 <= i < n ==> ys[..n][i] == Scale(c, xs[..n])[i];
      assert ys[..n] == Scale(c, xs[..n]);
      SumScale(c, xs[..n]);
      calc {
        Sum(ys);
        Sum(ys[..n]) + ys[n];
        c * Sum(xs[..n]) + c * xs[n];
        c * (Sum(xs[..n]) + xs[n]);
      }
    }
  }

  /** A sum of `k` values none below `lo` is at least `k * lo`. */
  lemma {:induction false} SumAtLeast(xs: seq<real>, lo: real)
    requires forall i :: 0 <= i < |xs| ==> lo <= xs[i]
    ensures (|xs| as real) * lo <= Sum(xs)
  {
    if |xs| > 0 {
      var n := |xs| - 1;
      SumAtLeast(xs[..n], lo);
      assert (|xs| as real) * lo == (n as real) * lo + lo;
    }
  }

  /** A sum of `k` values none above `hi` is at most `k * hi`. */
  lemma {:induction false} SumAtMost(xs: seq<real>, hi: real)
    requires forall i :: 0 <= i < |xs| ==> xs[i] <= hi
    ensures Sum(xs) <= (|xs| as real) * hi
  {
    if |xs| > 0 {
      var n := |xs| - 1;
      SumAtMost(xs[..n], hi);
      assert (|xs| as real) * hi == (n as real) * hi + hi;
    }
  }

  /** Extending a prefix by one element extends its running maximum. */
  lemma MaxOfPrefix(xs: seq<real>, i: nat)
    requires 0 < i < |xs|
    ensures MaxOf(xs[..i + 1]) == Max(MaxOf(xs[..i]), xs[i])
  {
    assert xs[..i + 1][..i] == xs[..i];
  }

  /** Extending a prefix by one element extends its running minimum. */
  lemma MinOfPrefix(xs: seq<real>, i: nat)
    requires 0 < i < |xs|
    ensures MinOf(xs[..i + 1]) == Min(MinOf(xs[..i]), xs[i])
  {
    assert xs[..i + 1][..i] == xs[..i];
  }

}
