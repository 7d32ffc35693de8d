/** What the distribution of a sampling call means in terms of the logits. */
module SamplerLaws {
  import opened Foundation
  import opened MergeSort
  import opened Totals
  import opened Truncation
  import opened Categorical
  import opened Sampler

  // ----- temperature -----

  /** A score is the logit divided by the temperature, also where the division is left out. */
  lemma ScoreTimesTemperature(policy: Policy, logit: real)
    requires policy.temperature > 0.0
    ensures ScoreOf(policy, logit) * policy.temperature == logit
  {
  }

  lemma ScoresAreRescaled(policy: Policy, logits: seq<F32>, other: seq<F32>, value: F32 -> real)
    requires policy.temperature > 0.0 && |other| == |logits|
    requires forall i :: 0 <= i < |logits| ==> value(other[i]) * policy.temperature == value(logits[i])
    ensures Scores(policy, logits, value) == Scores(policy.(temperature := 1.0), other, value)
  {
    hide ScoreOf;
    forall i | 0 <= i < |logits|
      ensures ScoreOf(policy, value(logits[i])) == ScoreOf(policy.(temperature := 1.0), value(other[i]))
    {
      ScoreTimesTemperature(policy, value(logits[i]));
      ScoreTimesTemperature(policy.(temperature := 1.0), value(other[i]));
      SameFactor(ScoreOf(policy, value(logits[i])), value(other[i]), policy.temperature);
    }
  }

  lemma SameFactor(x: real, y: real, t: real)
    requires t > 0.0 && x * t == y * t
    ensures x == y
  {
    assert x == x * t / t && y == y * t / t;
  }

  /** Temperature T picks by a word on some logits exactly what temperature 1 picks on the logits whose
      values, times T, are those. */
  lemma TemperatureRescales(c: Config, logits: Row, other: Row, word: bv32, id: nat)
    requires c.policy.temperature > 0.0 && |other| == |logits|
    requires forall i :: 0 <= i < |logits| ==> c.value(other[i]) * c.policy.temperature == c.value(logits[i])
    ensures PickedBy(c, logits, word, id) <==> PickedBy(c.(policy := c.policy.(temperature := 1.0)), other, word, id)
  {
    hide SortedRun, TopKCut, Cut, IsKeptDistribution, Picks, Scores;
    ScoresAreRescaled(c.policy, logits, other, c.value);
    var one := c.(policy := c.policy.(temperature := 1.0));
    var scores := Scores(c.policy, logits, c.value);
    if PickedBy(c, logits, word, id) {
      var order, p, start, retained :| Sampler.Truncated(c.policy, scores, c.weight, order, p, start, retained) && Picks(p, word as nat, id);
      assert Sampler.Truncated(one.policy, scores, c.weight, order, p, start, retained);
    }
    if PickedBy(one, other, word, id) {
      var order, p, start, retained :| Sampler.Truncated(one.policy, scores, c.weight, order, p, start, retained) && Picks(p, word as nat, id);
      assert Sampler.Truncated(c.policy, scores, c.weight, order, p, start, retained);
    }
  }

  /** So do the choices of the two configurations, whenever both kinds of logits are finite. */
  lemma TemperatureChooses(c: Config, logits: Row, other: Row, word: bv32)
    requires c.Valid(|logits|) && |other| == |logits| && AllFinite(c.finite, logits) && AllFinite(c.finite, other)
    requires forall i :: 0 <= i < |logits| ==> c.value(other[i]) * c.policy.temperature == c.value(logits[i])
    ensures Choice(c)(logits, word) == Choice(c.(policy := c.policy.(temperature := 1.0)))(other, word)
  {
    hide PickedBy, Weighting;
    var one := c.(policy := c.policy.(temperature := 1.0));
    forall id: nat ensures PickedBy(c, logits, word, id) <==> PickedBy(one, other, word, id) {
      TemperatureRescales(c, logits, other, word, id);
    }
    if id: nat :| PickedBy(c, logits, word, id) {
      ChoiceIs(c, logits, word, id);
      ChoiceIs(one, other, word, id);
    }
  }

  // ----- likelihood -----

  /** An id that can be picked lies behind both cuts, and its probability is its weight's share. */
  lemma PositiveIsKept(policy: Policy, scores: seq<real>, w: Weight, order: seq<nat>, p: seq<real>, start: nat, retained: nat, id: nat)
    returns (place: nat)
    requires Sampler.Truncated(policy, scores, w, order, p, start, retained) && id < |p| && p[id] > 0.0
    ensures retained <= place < |order| && order[place] == id
    ensures InRange(scores, order) && id < |scores|
    ensures var maximum := scores[order[|order| - 1]]; var kept := Mass(scores, order, w, maximum, retained, |order|);
            kept > 0.0 && p[id] == WeightOf(scores, w, maximum, id) / kept
  {
    hide Cut, TopKCut, Mass, SortedRun;
    AllPresent(scores, order, id);
    place :| 0 <= place < |order| && order[place] == id;
  }

  ghost predicate Exponential(w: Weight) {
    forall x: real, y: real :: w(x + y) == w(x) * w(y)
  }

  /** The odds of any two ids that can be picked, for a weight that turns sums into products: the weight
      of the difference of their logits, divided by the temperature. No cut changes them. */
  lemma SoftmaxOdds(policy: Policy, logits: seq<F32>, value: F32 -> real, w: Weight,
                    order: seq<nat>, p: seq<real>, start: nat, retained: nat, a: nat, b: nat)
    requires policy.temperature > 0.0 && Exponential(w)
    requires Sampler.Truncated(policy, Scores(policy, logits, value), w, order, p, start, retained)
    requires a < |p| && b < |p| && p[a] > 0.0 && p[b] > 0.0
    ensures a < |logits| && b < |logits|
    ensures p[a] == w((value(logits[a]) - value(logits[b])) / policy.temperature) * p[b]
  {
    hide Sampler.Truncated, Mass, WeightOf, ScoreOf;
    var scores := Scores(policy, logits, value);
    var x := PositiveIsKept(policy, scores, w, order, p, start, retained, a);
    var y := PositiveIsKept(policy, scores, w, order, p, start, retained, b);
    var maximum := scores[order[|order| - 1]];
    var kept := Mass(scores, order, w, maximum, retained, |order|);
    ScoreDifference(policy, value(logits[a]), value(logits[b]));
    WeightsDiffer(scores, w, maximum, a, b);
    SharesDiffer(WeightOf(scores, w, maximum, a), w(scores[a] - scores[b]), WeightOf(scores, w, maximum, b), kept);
  }

  lemma ScoreDifference(policy: Policy, x: real, y: real)
    requires policy.temperature > 0.0
    ensures ScoreOf(policy, x) - ScoreOf(policy, y) == (x - y) / policy.temperature
  {
  }

  lemma WeightsDiffer(scores: seq<real>, w: Weight, maximum: real, a: nat, b: nat)
    requires Exponential(w) && a < |scores| && b < |scores|
    ensures WeightOf(scores, w, maximum, a) == w(scores[a] - scores[b]) * WeightOf(scores, w, maximum, b)
  {
    var d, rest := scores[a] - scores[b], scores[b] - maximum;
    assert scores[a] - maximum == d + rest;
    assert w(d + rest) == w(d) * w(rest);
  }

  lemma SharesDiffer(x: real, f: real, y: real, kept: real)
    requires kept > 0.0 && x == f * y
    ensures x / kept == f * (y / kept)
  {
  }

  /** The higher of two logits is never the less likely one, cut or not. */
  lemma HigherIsLikelier(policy: Policy, logits: seq<F32>, value: F32 -> real, w: Weight,
                         order: seq<nat>, p: seq<real>, start: nat, retained: nat, a: nat, b: nat)
    requires policy.temperature > 0.0 && Weighting(w)
    requires Sampler.Truncated(policy, Scores(policy, logits, value), w, order, p, start, retained)
    requires |p| == |logits| && a < |logits| && b < |logits| && value(logits[a]) < value(logits[b])
    ensures p[a] <= p[b]
  {
    hide Cut, TopKCut, Mass, ScoreOf, SortedRun;
    var scores := Scores(policy, logits, value);
    ScoresKeepOrder(policy, value(logits[a]), value(logits[b]));
    if p[a] > 0.0 {
      var x := PositiveIsKept(policy, scores, w, order, p, start, retained, a);
      AllPresent(scores, order, b);
      var y :| 0 <= y < |order| && order[y] == b;
      HigherIsLater(scores, order, x, y);
      var maximum := scores[order[|order| - 1]];
      ShareGrows(WeightOf(scores, w, maximum, a), WeightOf(scores, w, maximum, b), Mass(scores, order, w, maximum, retained, |order|));
    }
  }

  lemma ScoresKeepOrder(policy: Policy, x: real, y: real)
    requires policy.temperature > 0.0 && x < y
    ensures ScoreOf(policy, x) < ScoreOf(policy, y)
  {
  }

  lemma HigherIsLater(scores: seq<real>, order: seq<nat>, x: nat, y: nat)
    requires SortedRun(scores, order, 0, |order|) && x < |order| && y < |order| && order[x] < |scores| && order[y] < |scores|
    requires scores[order[x]] < scores[order[y]]
    ensures x < y
  {
    hide SortedRun;
    if y < x {
      LaterIsNotLess(scores, order, y, x);
    }
  }

  lemma LaterIsNotLess(scores: seq<real>, order: seq<nat>, x: nat, y: nat)
    requires SortedRun(scores, order, 0, |order|) && x < y < |order|
    ensures order[x] < |scores| && order[y] < |scores| && scores[order[x]] <= scores[order[y]]
  {
    assert Less(scores, order[x], order[y]);
  }

  lemma ShareGrows(x: real, y: real, kept: real)
    requires x <= y && kept > 0.0
    ensures x / kept <= y / kept
  {
  }
}
