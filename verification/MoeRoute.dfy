/** Routing over exact reals: the selected experts' shares, and the mixture they make. */
module MoeRoute {
  import opened Foundation
  import opened Selection
  import opened MoeSelection
  import opened Totals

  /** The probabilities of the selected experts, in the order of selection. */
  function Chosen(p: seq<real>, ids: seq<nat>): (r: seq<real>)
    requires forall i :: 0 <= i < |ids| ==> ids[i] < |p|
    ensures |r| == |ids| && forall i :: 0 <= i < |r| ==> r[i] == p[ids[i]]
  {
    seq(|ids|, i requires 0 <= i < |ids| => p[ids[i]])
  }

  /** Copies the selected probabilities and adds them up. */
  method GatherWeights(p: seq<real>, ids: seq<nat>, weights: array<real>) returns (selectedSum: real)
    requires weights.Length == |ids| && forall i :: 0 <= i < |ids| ==> ids[i] < |p|
    modifies weights
    ensures weights[..] == Chosen(p, ids) && selectedSum == Total(Chosen(p, ids))
  {
    ghost var chosen := Chosen(p, ids);
    selectedSum := 0.0;
    for position := 0 to |ids|
      invariant weights[..position] == chosen[..position] && selectedSum == Total(chosen[..position])
    {
      weights[position] := p[ids[position]];
      selectedSum := selectedSum + weights[position];
      assert chosen[..position + 1][..position] == chosen[..position];
    }
    assert chosen[..|ids|] == chosen;
  }

  method DivideWeights(weights: array<real>, selectedSum: real)
    requires selectedSum > 0.0
    modifies weights
    ensures weights[..] == Scaled(old(weights[..]), selectedSum)
  {
    for position := 0 to weights.Length
      invariant forall j :: 0 <= j < position ==> weights[j] == old(weights[j]) / selectedSum
      invariant forall j :: position <= j < weights.Length ==> weights[j] == old(weights[j])
    {
      weights[position] := weights[position] / selectedSum;
    }
  }

  /** Selects the experts and divides their probabilities by what they have together. */
  method FinishRoute(p: seq<real>, topK: nat, selectedIds: array<nat>, weights: array<real>) returns (status: Status)
    requires 0 < topK <= |p| && selectedIds.Length == weights.Length == topK && NotNegative(p)
    modifies selectedIds, weights
    ensures IsSelection(p, topK, selectedIds[..])
    ensures status.Ok? <==> Total(Chosen(p, selectedIds[..])) > 0.0
    ensures status.Ok? ==> weights[..] == Scaled(Chosen(p, selectedIds[..]), Total(Chosen(p, selectedIds[..])))
    ensures status.Ok? ==> NotNegative(weights[..]) && Total(weights[..]) == 1.0
  {
    hide Total, Kept;
    SelectTopK(p, topK, selectedIds);
    assert selectedIds[..topK] == selectedIds[..];
    var ids := selectedIds[..];
    var selectedSum := GatherWeights(p, ids, weights);
    assert selectedIds[..] == ids;
    if selectedSum <= 0.0 {
      return NumericDomain;
    }
    SharesAreADistribution(Chosen(p, ids));
    DivideWeights(weights, selectedSum);
    status := Ok;
  }

  /** The check on the selected sum cannot fire behind a softmax: the best experts hold some mass. */
  lemma SelectedMassIsPositive(p: seq<real>, topK: nat, ids: seq<nat>)
    requires 0 < topK <= |p| && NotNegative(p) && Total(p) > 0.0 && IsSelection(p, topK, ids)
    ensures Total(Chosen(p, ids)) > 0.0
  {
    SelectionIsValueTop(p, topK, ids);
    var heavy := SomePositive(p);
    var chosen := Chosen(p, ids);
    assert NotNegative(chosen);
    if heavy in ids {
      var i :| 0 <= i < |ids| && ids[i] == heavy;
      TotalAtLeast(chosen, i);
    } else {
      assert p[ids[0]] >= p[heavy];
      TotalAtLeast(chosen, 0);
    }
  }

  lemma {:induction false} SomePositive(p: seq<real>) returns (i: nat)
    requires NotNegative(p) && Total(p) > 0.0
    ensures i < |p| && p[i] > 0.0
  {
    var last := |p| - 1;
    if p[last] > 0.0 {
      i := last;
    } else {
      i := SomePositive(p[..last]);
    }
  }

  // ----- the mixture -----

  /** The share of every selected expert times its value, for the experts below n. */
  function Mixed(ids: seq<nat>, weights: seq<real>, value: nat -> real, n: nat): real
    requires |ids| == |weights|
  {
    if ids == [] then 0.0
    else
      var last := |ids| - 1;
      Mixed(ids[..last], weights[..last], value, n) + if ids[last] < n then weights[last] * value(ids[last]) else 0.0
  }

  predicate AllDistinct(ids: seq<nat>) {
    forall i, j :: 0 <= i < j < |ids| ==> ids[i] != ids[j]
  }

  /** One more expert adds its own share, or nothing when it is not selected. */
  lemma {:induction false} MixedStep(ids: seq<nat>, weights: seq<real>, value: nat -> real, n: nat)
    requires |ids| == |weights| && AllDistinct(ids)
    ensures n !in ids ==> Mixed(ids, weights, value, n + 1) == Mixed(ids, weights, value, n)
    ensures forall j :: 0 <= j < |ids| && ids[j] == n ==> Mixed(ids, weights, value, n + 1) == Mixed(ids, weights, value, n) + weights[j] * value(n)
  {
    if ids != [] {
      var last := |ids| - 1;
      MixedStep(ids[..last], weights[..last], value, n);
      assert ids == ids[..last] + [ids[last]];
      if ids[last] == n {
        assert n !in ids[..last];
      }
      forall j | 0 <= j < |ids| && ids[j] == n
        ensures Mixed(ids, weights, value, n + 1) == Mixed(ids, weights, value, n) + weights[j] * value(n)
      {
        if j < last {
          assert ids[..last][j] == n && weights[..last][j] == weights[j];
        }
      }
    }
  }

  lemma {:induction false} MixedNone(ids: seq<nat>, weights: seq<real>, value: nat -> real)
    requires |ids| == |weights|
    ensures Mixed(ids, weights, value, 0) == 0.0
  {
    if ids != [] {
      MixedNone(ids[..|ids| - 1], weights[..|ids| - 1], value);
    }
  }

  method FindSelected(ids: seq<nat>, expert: nat) returns (position: Option<nat>)
    ensures position.None? <==> expert !in ids
    ensures position.Some? ==> position.value < |ids| && ids[position.value] == expert
  {
    for i := 0 to |ids|
      invariant expert !in ids[..i]
    {
      if ids[i] == expert {
        return Some(i);
      }
    }
    assert ids[..|ids|] == ids;
    position := None;
  }

  /** Value f of an expert's output row. */
  function Feature(expert: nat -> Option<seq<real>>, f: nat): nat -> real {
    (e: nat) => match expert(e) case None => 0.0 case Some(row) => if f < |row| then row[f] else 0.0
  }

  /** Every selected expert below n delivers its row. */
  predicate AllDeliver(ids: seq<nat>, expert: nat -> Option<seq<real>>, n: nat) {
    forall i :: 0 <= i < |ids| && ids[i] < n ==> expert(ids[i]).Some?
  }

  /** Walks over all experts in the order of their ids and adds the scaled rows of those selected:
      the sum is the mixture by shares, whatever the order of selection. The first selected expert
      that fails ends the walk. */
  method AccumulateRouted(ids: seq<nat>, weights: seq<real>, expert: nat -> Option<seq<real>>, experts: nat, routedSum: array<real>)
    returns (status: Status)
    requires |ids| == |weights| && AllDistinct(ids)
    requires forall e: nat {:trigger expert(e)} :: e < experts && expert(e).Some? ==> |expert(e).value| == routedSum.Length
    modifies routedSum
    ensures status.Ok? <==> AllDeliver(ids, expert, experts)
    ensures status.Ok? ==> forall f :: 0 <= f < routedSum.Length ==> routedSum[f] == Mixed(ids, weights, Feature(expert, f), experts)
  {
    hide Mixed;
    for f := 0 to routedSum.Length
      invariant forall g :: 0 <= g < f ==> routedSum[g] == 0.0
    {
      routedSum[f] := 0.0;
    }
    forall f | 0 <= f < routedSum.Length ensures Mixed(ids, weights, Feature(expert, f), 0) == 0.0 {
      MixedNone(ids, weights, Feature(expert, f));
    }
    for e := 0 to experts
      invariant AllDeliver(ids, expert, e)
      invariant forall f :: 0 <= f < routedSum.Length ==> routedSum[f] == Mixed(ids, weights, Feature(expert, f), e)
    {
      var position := FindSelected(ids, e);
      if position.Some? {
        if expert(e).None? {
          assert expert(ids[position.value]).None?;
          return KernelFailed;
        }
        AddScaled(ids, weights, expert, e, position.value, routedSum);
      } else {
        forall f | 0 <= f < routedSum.Length ensures Mixed(ids, weights, Feature(expert, f), e + 1) == Mixed(ids, weights, Feature(expert, f), e) {
          MixedStep(ids, weights, Feature(expert, f), e);
        }
      }
    }
    status := Ok;
  }

  method AddScaled(ids: seq<nat>, weights: seq<real>, expert: nat -> Option<seq<real>>, e: nat, position: nat, routedSum: array<real>)
    requires |ids| == |weights| && AllDistinct(ids) && position < |ids| && ids[position] == e
    requires expert(e).Some? && |expert(e).value| == routedSum.Length
    requires forall f :: 0 <= f < routedSum.Length ==> routedSum[f] == Mixed(ids, weights, Feature(expert, f), e)
    modifies routedSum
    ensures forall f :: 0 <= f < routedSum.Length ==> routedSum[f] == Mixed(ids, weights, Feature(expert, f), e + 1)
  {
    hide Mixed;
    var output := expert(e).value;
    for feature := 0 to routedSum.Length
      invariant forall f :: 0 <= f < feature ==> routedSum[f] == Mixed(ids, weights, Feature(expert, f), e + 1)
      invariant forall f :: feature <= f < routedSum.Length ==> routedSum[f] == Mixed(ids, weights, Feature(expert, f), e)
    {
      MixedStep(ids, weights, Feature(expert, feature), e);
      assert Feature(expert, feature)(e) == output[feature];
      routedSum[feature] := routedSum[feature] + weights[position] * output[feature];
    }
  }

  /** Every selected expert's own share times its own value. */
  function Terms(ids: seq<nat>, weights: seq<real>, value: nat -> real): (r: seq<real>)
    requires |ids| == |weights|
    ensures |r| == |ids| && forall i :: 0 <= i < |r| ==> r[i] == weights[i] * value(ids[i])
  {
    seq(|ids|, i requires 0 <= i < |ids| => weights[i] * value(ids[i]))
  }

  /** With every selected expert below n the mixture is the sum of those. */
  lemma {:induction false} MixedIsSum(ids: seq<nat>, weights: seq<real>, value: nat -> real, n: nat)
    requires |ids| == |weights| && forall i :: 0 <= i < |ids| ==> ids[i] < n
    ensures Mixed(ids, weights, value, n) == Total(Terms(ids, weights, value))
  {
    if ids != [] {
      var last := |ids| - 1;
      MixedIsSum(ids[..last], weights[..last], value, n);
      forall i | 0 <= i < last ensures Terms(ids, weights, value)[i] == Terms(ids[..last], weights[..last], value)[i] {
        assert weights[..last][i] == weights[i] && ids[..last][i] == ids[i];
      }
      assert Terms(ids, weights, value)[..last] == Terms(ids[..last], weights[..last], value);
    }
  }

  /** The mixture is an average: it lies between the lowest and the highest value of the selected
      experts. */
  lemma {:induction false} MixtureIsBetween(ids: seq<nat>, weights: seq<real>, value: nat -> real, n: nat, low: real, high: real)
    requires |ids| == |weights| && NotNegative(weights) && forall i :: 0 <= i < |ids| ==> ids[i] < n && low <= value(ids[i]) <= high
    ensures low * Total(weights) <= Mixed(ids, weights, value, n) <= high * Total(weights)
  {
    hide Mixed, Total;
    LastTerm(ids, weights, value, n);
    if ids == [] {
      assert low * 0.0 == 0.0 == high * 0.0;
    } else {
      var last := |ids| - 1;
      MixtureIsBetween(ids[..last], weights[..last], value, n, low, high);
      MixtureStep(Mixed(ids[..last], weights[..last], value, n), Total(weights[..last]), weights[last], value(ids[last]), low, high);
    }
  }

  lemma LastTerm(ids: seq<nat>, weights: seq<real>, value: nat -> real, n: nat)
    requires |ids| == |weights| && forall i :: 0 <= i < |ids| ==> ids[i] < n
    ensures ids == [] ==> Mixed(ids, weights, value, n) == Total(weights) == 0.0
    ensures ids != [] ==> var last := |ids| - 1;
              && Mixed(ids, weights, value, n) == Mixed(ids[..last], weights[..last], value, n) + weights[last] * value(ids[last])
              && Total(weights) == Total(weights[..last]) + weights[last]
  {
  }

  lemma MixtureStep(mixed: real, total: real, weight: real, x: real, low: real, high: real)
    requires low * total <= mixed <= high * total && weight >= 0.0 && low <= x <= high
    ensures low * (total + weight) <= mixed + weight * x <= high * (total + weight)
  {
    assert weight * (x - low) >= 0.0 && weight * (high - x) >= 0.0;
    assert low * (total + weight) == low * total + weight * low;
    assert high * (total + weight) == high * total + weight * high;
  }
}
