/** Sums of real sequences, and what dividing by the sum does. */
module Totals {

  function Total(p: seq<real>): real {
    if p == [] then 0.0 else Total(p[..|p| - 1]) + p[|p| - 1]
  }

  ghost predicate NotNegative(p: seq<real>) {
    forall i :: 0 <= i < |p| ==> p[i] >= 0.0
  }

  function Scaled(p: seq<real>, sum: real): (r: seq<real>)
    requires sum > 0.0
    ensures |r| == |p| && forall i :: 0 <= i < |p| ==> r[i] == p[i] / sum
  {
    seq(|p|, i requires 0 <= i < |p| => p[i] / sum)
  }

  lemma {:induction false} TotalScales(p: seq<real>, sum: real)
    requires sum > 0.0
    ensures Total(Scaled(p, sum)) == Total(p) / sum
  {
    if p != [] {
      var last := |p| - 1;
      TotalScales(p[..last], sum);
      assert Scaled(p, sum)[..last] == Scaled(p[..last], sum);
      SharesAdd(Total(p[..last]), p[last], sum);
    }
  }

  lemma {:induction false} TotalAtLeast(p: seq<real>, i: nat)
    requires NotNegative(p) && i < |p|
    ensures Total(p) >= p[i]
  {
    var last := |p| - 1;
    TotalNotNegative(p[..last]);
    if i < last {
      TotalAtLeast(p[..last], i);
    }
  }

  lemma {:induction false} TotalNotNegative(p: seq<real>)
    requires NotNegative(p)
    ensures Total(p) >= 0.0
  {
    if p != [] {
      TotalNotNegative(p[..|p| - 1]);
    }
  }

  lemma SharesAdd(a: real, b: real, s: real)
    requires s > 0.0
    ensures a / s + b / s == (a + b) / s
  {
  }

  /** Shares of a positive sum are a distribution. */
  lemma SharesAreADistribution(p: seq<real>)
    requires NotNegative(p) && Total(p) > 0.0
    ensures NotNegative(Scaled(p, Total(p))) && Total(Scaled(p, Total(p))) == 1.0
  {
    TotalScales(p, Total(p));
    ShareOfAll(Total(p));
    forall i | 0 <= i < |p| ensures Scaled(p, Total(p))[i] >= 0.0 {
      ShareNotNegative(p[i], Total(p));
    }
  }

  lemma ShareOfAll(sum: real)
    requires sum > 0.0
    ensures sum / sum == 1.0 && 0.0 / sum == 0.0
  {
  }

  lemma ShareNotNegative(x: real, sum: real)
    requires x >= 0.0 && sum > 0.0
    ensures x / sum >= 0.0
  {
  }
}
