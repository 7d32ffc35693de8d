/** Top-k and top-p over exact weights: which candidates the sampler keeps. Candidates stand in
    ascending order, so both cut a prefix off. */
module Truncation {
  import opened Foundation
  import opened MergeSort
  import opened Totals
  import Selection

  /** The softmax numerator as a function of the distance to the highest score. */
  type Weight = real -> real

  /** What is assumed of it: never negative, never falling, positive at the highest score. It may
      well be zero far below. */
  ghost predicate Weighting(w: Weight) {
    w(0.0) > 0.0 && (forall x: real :: w(x) >= 0.0) && (forall x: real, y: real :: x <= y ==> w(x) <= w(y))
  }

  /** The weight of an id, relative to the last id of the order. */
  function WeightOf(scores: seq<real>, w: Weight, maximum: real, id: nat): real
    requires id < |scores|
  {
    w(scores[id] - maximum)
  }

  predicate InRange(scores: seq<real>, order: seq<nat>) {
    |order| <= |scores| && forall i :: 0 <= i < |order| ==> order[i] < |scores|
  }

  /** The weight of the candidates from one place of the order to another. */
  function Mass(scores: seq<real>, order: seq<nat>, w: Weight, maximum: real, from: nat, end: nat): real
    requires from <= end <= |order| && InRange(scores, order)
    decreases end
  {
    if from == end then 0.0 else Mass(scores, order, w, maximum, from, end - 1) + WeightOf(scores, w, maximum, order[end - 1])
  }

  lemma {:induction false} MassSplits(scores: seq<real>, order: seq<nat>, w: Weight, maximum: real, from: nat, middle: nat, end: nat)
    requires from <= middle <= end <= |order| && InRange(scores, order)
    ensures Mass(scores, order, w, maximum, from, end) ==
            Mass(scores, order, w, maximum, from, middle) + Mass(scores, order, w, maximum, middle, end)
    decreases end
  {
    if middle < end {
      MassSplits(scores, order, w, maximum, from, middle, end - 1);
    }
  }

  lemma {:induction false} MassNotNegative(scores: seq<real>, order: seq<nat>, w: Weight, maximum: real, from: nat, end: nat)
    requires from <= end <= |order| && InRange(scores, order) && Weighting(w)
    ensures Mass(scores, order, w, maximum, from, end) >= 0.0
    decreases end
  {
    if from < end {
      MassNotNegative(scores, order, w, maximum, from, end - 1);
    }
  }

  /** The last candidate weighs something, so every suffix of the order does. */
  lemma SuffixWeighs(scores: seq<real>, order: seq<nat>, w: Weight, maximum: real, from: nat)
    requires from < |order| && InRange(scores, order) && Weighting(w) && maximum == scores[order[|order| - 1]]
    ensures Mass(scores, order, w, maximum, from, |order|) > 0.0
  {
    MassNotNegative(scores, order, w, maximum, from, |order| - 1);
  }

  // ----- top-k -----

  /** The ids that score strictly higher than `id`. */
  ghost function Above(scores: seq<real>, count: nat, id: nat): set<nat>
    requires count <= |scores| && id < |scores|
  {
    set j: nat | j < count && scores[j] > scores[id]
  }

  /** Skips the candidates that score below the k-th largest. With k = 0 nothing is skipped. At
      least one candidate remains. */
  method TopKStart(scores: seq<real>, order: seq<nat>, topK: nat) returns (start: nat)
    requires SortedRun(scores, order, 0, |order|) && topK <= |order| && order != []
    ensures start < |order|
    ensures topK == 0 ==> start == 0
    ensures topK > 0 ==> forall i :: 0 <= i < |order| ==>
              order[i] < |scores| && order[|order| - topK] < |scores| && (start <= i <==> scores[order[i]] >= scores[order[|order| - topK]])
  {
    start := 0;
    if topK != 0 {
      var threshold := scores[order[|order| - topK]];
      while start < |order| && scores[order[start]] < threshold
        invariant start <= |order| - topK
        invariant forall i :: 0 <= i < start ==> scores[order[i]] < threshold
      {
        start := start + 1;
      }
      forall i | start <= i < |order| ensures scores[order[i]] >= threshold {
        assert i == start || Less(scores, order[start], order[i]);
      }
    }
  }

  /** What remains are exactly the ids that fewer than k others beat: ties at the k-th place stay. */
  lemma TopKKeeps(scores: seq<real>, order: seq<nat>, topK: nat, start: nat, id: nat)
    requires SortedRun(scores, order, 0, |order|) && 0 < topK <= |order| && id < |order|
    requires start < |order| && forall i :: 0 <= i < |order| ==>
              (start <= i <==> scores[order[i]] >= scores[order[|order| - topK]])
    ensures id in order[start..] <==> |Above(scores, |order|, id)| < topK
  {
    AllPresent(scores, order, id);
    var p :| 0 <= p < |order| && order[p] == id;
    var t := |order| - topK;
    Distinct(scores, order);
    assert id in order[start..] <==> start <= p by {
      if start <= p {
        assert order[start..][p - start] == id;
      }
    }
    if start <= p {
      AboveIsFew(scores, order, t, id);
    } else {
      AboveIsMany(scores, order, t, id);
    }
  }

  lemma Distinct(scores: seq<real>, order: seq<nat>)
    requires SortedRun(scores, order, 0, |order|)
    ensures forall i, j :: 0 <= i < j < |order| ==> order[i] != order[j]
  {
    forall i, j | 0 <= i < j < |order| ensures order[i] != order[j] {
      assert Less(scores, order[i], order[j]);
    }
  }

  lemma ScoresAscend(scores: seq<real>, order: seq<nat>, i: nat, j: nat)
    requires SortedRun(scores, order, 0, |order|) && i <= j < |order|
    ensures scores[order[i]] <= scores[order[j]]
  {
    assert i == j || Less(scores, order[i], order[j]);
  }

  lemma AboveIsFew(scores: seq<real>, order: seq<nat>, t: nat, id: nat)
    requires SortedRun(scores, order, 0, |order|) && t < |order| && id < |order| && scores[id] >= scores[order[t]]
    ensures |Above(scores, |order|, id)| < |order| - t
  {
    var rest := order[t + 1..];
    forall j | j in Above(scores, |order|, id) ensures j in rest {
      AllPresent(scores, order, j);
      var q :| 0 <= q < |order| && order[q] == j;
      if q <= t {
        ScoresAscend(scores, order, q, t);
      }
      assert rest[q - t - 1] == j;
    }
    assert Above(scores, |order|, id) <= Selection.Elements(rest);
    Selection.SubsetSize(Above(scores, |order|, id), Selection.Elements(rest));
  }

  lemma AboveIsMany(scores: seq<real>, order: seq<nat>, t: nat, id: nat)
    requires SortedRun(scores, order, 0, |order|) && t < |order| && id < |order| && scores[id] < scores[order[t]]
    ensures |Above(scores, |order|, id)| >= |order| - t
  {
    var rest := order[t..];
    forall j | j in rest ensures j in Above(scores, |order|, id) {
      var q :| 0 <= q < |rest| && rest[q] == j;
      ScoresAscend(scores, order, t, t + q);
    }
    forall i, j | 0 <= i < j < |rest| ensures rest[i] != rest[j] {
      assert Less(scores, order[t + i], order[t + j]);
    }
    hide SortedRun;
    assert Selection.Elements(rest) <= Above(scores, |order|, id);
    Selection.SubsetSize(Selection.Elements(rest), Above(scores, |order|, id));
  }

  // ----- weights -----

  /** The candidates from place `from` on hold their weights, the others nothing. */
  ghost predicate Holding(scores: seq<real>, order: seq<nat>, w: Weight, maximum: real, p: seq<real>, from: nat, end: nat) {
    && InRange(scores, order) && |p| == |order|
    && forall i :: 0 <= i < |order| ==>
         order[i] < |p| && p[order[i]] == if from <= i < end then WeightOf(scores, w, maximum, order[i]) else 0.0
  }

  /** Setting the entry of one candidate moves the front or the back of what is held. */
  lemma HoldingStep(scores: seq<real>, order: seq<nat>, w: Weight, maximum: real, p: seq<real>, from: nat, end: nat, i: nat)
    requires Holding(scores, order, w, maximum, p, from, end) && SortedRun(scores, order, 0, |order|) && i < |order|
    ensures order[i] < |p| && order[i] < |scores|
    ensures i == end >= from ==> Holding(scores, order, w, maximum, p[order[i] := WeightOf(scores, w, maximum, order[i])], from, end + 1)
    ensures i == from ==> Holding(scores, order, w, maximum, p[order[i] := 0.0], from + 1, end)
    ensures i < from ==> Holding(scores, order, w, maximum, p[order[i] := 0.0], from, end)
  {
    Distinct(scores, order);
    hide SortedRun;
    forall j | 0 <= j < |order| ensures order[j] == order[i] <==> i == j {
    }
  }

  /** Weighs every candidate from `start` on. */
  method Weigh(scores: seq<real>, order: seq<nat>, w: Weight, maximum: real, start: nat, probabilities: array<real>) returns (sum: real)
    requires SortedRun(scores, order, 0, |order|) && start <= |order| == probabilities.Length
    requires forall i :: 0 <= i < probabilities.Length ==> probabilities[i] == 0.0
    modifies probabilities
    ensures InRange(scores, order) && sum == Mass(scores, order, w, maximum, start, |order|)
    ensures Holding(scores, order, w, maximum, probabilities[..], start, |order|)
  {
    sum := 0.0;
    for index := start to |order|
      invariant InRange(scores, order) && sum == Mass(scores, order, w, maximum, start, index)
      invariant Holding(scores, order, w, maximum, probabilities[..], start, index)
    {
      HoldingStep(scores, order, w, maximum, probabilities[..], start, index, index);
      hide Holding;
      var weight := w(scores[order[index]] - maximum);
      probabilities[order[index]] := weight;
      sum := sum + weight;
    }
  }

  // ----- top-p -----

  lemma ShareAbove(m: real, s: real, c: real)
    requires s > 0.0
    ensures m / s > c <==> m > c * s
  {
    assert m / s * s == m;
    if m / s > c {
      assert (m / s - c) * s > 0.0;
    } else {
      assert (c - m / s) * s >= 0.0;
    }
  }

  /** Where top-p cuts: the longest prefix whose share is at most 1 - topP, but never the last
      candidate. */
  ghost predicate Cut(scores: seq<real>, order: seq<nat>, w: Weight, maximum: real, topP: real, start: nat, retained: nat)
    requires InRange(scores, order)
  {
    && start <= retained < |order|
    && (topP == 1.0 ==> retained == start)
    && (topP < 1.0 ==> Mass(scores, order, w, maximum, start, retained) <= (1.0 - topP) * Mass(scores, order, w, maximum, start, |order|))
    && (topP < 1.0 && retained + 1 < |order| ==>
          Mass(scores, order, w, maximum, start, retained + 1) > (1.0 - topP) * Mass(scores, order, w, maximum, start, |order|))
  }

  lemma ShareStep(mass: real, weight: real, sum: real, cutoff: real)
    requires sum > 0.0
    ensures mass / sum + weight / sum == (mass + weight) / sum
    ensures (mass + weight) / sum > cutoff <==> mass + weight > cutoff * sum
  {
    SharesAdd(mass, weight, sum);
    ShareAbove(mass + weight, sum, cutoff);
  }

  lemma MassStep(scores: seq<real>, order: seq<nat>, w: Weight, maximum: real, from: nat, i: nat)
    requires from <= i < |order| && InRange(scores, order)
    ensures order[i] < |scores|
    ensures Mass(scores, order, w, maximum, from, i + 1) == Mass(scores, order, w, maximum, from, i) + WeightOf(scores, w, maximum, order[i])
  {
  }

  lemma NothingYet(scores: seq<real>, order: seq<nat>, w: Weight, maximum: real, from: nat, sum: real, cutoff: real)
    requires from <= |order| && InRange(scores, order) && sum > 0.0 && cutoff >= 0.0
    ensures Mass(scores, order, w, maximum, from, from) == 0.0 == 0.0 / sum && cutoff * sum >= 0.0
  {
  }

  /** The loop of top-p: adds shares until they pass the cutoff, dropping what comes before. */
  method DropLight(scores: seq<real>, order: seq<nat>, w: Weight, maximum: real, cutoff: real, start: nat, sum: real, probabilities: array<real>)
    returns (retained: nat)
    requires SortedRun(scores, order, 0, |order|) && InRange(scores, order) && start < |order| == probabilities.Length
    requires 0.0 <= cutoff && sum == Mass(scores, order, w, maximum, start, |order|) > 0.0
    requires Holding(scores, order, w, maximum, probabilities[..], start, |order|)
    modifies probabilities
    ensures start <= retained < |order| && Mass(scores, order, w, maximum, start, retained) <= cutoff * sum
    ensures retained + 1 < |order| ==> Mass(scores, order, w, maximum, start, retained + 1) > cutoff * sum
    ensures Holding(scores, order, w, maximum, probabilities[..], retained, |order|)
  {
    hide SortedRun, Less, InRange, Holding, Mass, WeightOf, WeightAt;
    NothingYet(scores, order, w, maximum, start, sum, cutoff);
    var cumulative := 0.0;
    retained := start;
    while true
      invariant start <= retained < |order|
      invariant cumulative == Mass(scores, order, w, maximum, start, retained) / sum
      invariant Mass(scores, order, w, maximum, start, retained) <= cutoff * sum
      invariant Holding(scores, order, w, maximum, probabilities[..], retained, |order|)
      decreases |order| - retained
    {
      HoldingStep(scores, order, w, maximum, probabilities[..], retained, |order|, retained);
      MassStep(scores, order, w, maximum, start, retained);
      var probability := WeightAt(scores, order, w, maximum, probabilities, retained) / sum;
      ShareStep(Mass(scores, order, w, maximum, start, retained), WeightOf(scores, w, maximum, order[retained]), sum, cutoff);
      cumulative := cumulative + probability;
      if retained == |order| - 1 || cumulative > cutoff {
        return;
      }
      probabilities[order[retained]] := 0.0;
      retained := retained + 1;
    }
  }

  /** Drops the candidates that top-p drops. At least one candidate remains. */
  method TopPStart(scores: seq<real>, order: seq<nat>, w: Weight, maximum: real, topP: real, start: nat, sum: real, probabilities: array<real>)
    returns (retained: nat)
    requires SortedRun(scores, order, 0, |order|) && InRange(scores, order) && start < |order| == probabilities.Length
    requires 0.0 <= topP <= 1.0 && sum == Mass(scores, order, w, maximum, start, |order|) > 0.0
    requires Holding(scores, order, w, maximum, probabilities[..], start, |order|)
    modifies probabilities
    ensures Cut(scores, order, w, maximum, topP, start, retained)
    ensures Holding(scores, order, w, maximum, probabilities[..], retained, |order|)
  {
    hide SortedRun, Less, InRange, Holding, Mass;
    retained := start;
    if topP < 1.0 {
      retained := DropLight(scores, order, w, maximum, 1.0 - topP, start, sum, probabilities);
    }
    for index := start to retained
      invariant Holding(scores, order, w, maximum, probabilities[..], retained, |order|)
    {
      HoldingStep(scores, order, w, maximum, probabilities[..], retained, |order|, index);
      probabilities[order[index]] := 0.0;
    }
  }

  /** Reads the entry of a candidate that is held. */
  function WeightAt(scores: seq<real>, order: seq<nat>, w: Weight, maximum: real, probabilities: array<real>, i: nat): (r: real)
    requires i < |order| && Holding(scores, order, w, maximum, probabilities[..], i, |order|)
    reads probabilities
    ensures order[i] < |scores| && r == WeightOf(scores, w, maximum, order[i])
  {
    probabilities[order[i]]
  }

  /** What top-p promises: the kept candidates weigh at least their share topP, and without the
      lightest of them they would not. */
  lemma KeptShare(scores: seq<real>, order: seq<nat>, w: Weight, maximum: real, topP: real, start: nat, retained: nat)
    requires InRange(scores, order) && 0.0 <= topP <= 1.0 && Weighting(w) && Cut(scores, order, w, maximum, topP, start, retained)
    ensures var all := Mass(scores, order, w, maximum, start, |order|);
            && Mass(scores, order, w, maximum, retained, |order|) >= topP * all
            && (topP < 1.0 && retained + 1 < |order| ==> Mass(scores, order, w, maximum, retained + 1, |order|) < topP * all)
  {
    hide Mass, InRange;
    var all := Mass(scores, order, w, maximum, start, |order|);
    MassSplits(scores, order, w, maximum, start, retained, |order|);
    if retained + 1 < |order| {
      MassSplits(scores, order, w, maximum, start, retained + 1, |order|);
    }
    assert (1.0 - topP) * all == all - topP * all;
  }
}
