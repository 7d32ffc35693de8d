/** One sampling call: sort, cut, weigh, normalise, draw one word, select. The generator moves by one
    step when the call succeeds and not at all when it fails. */
module Sampler {
  import opened Foundation
  import opened MergeSort
  import opened Totals
  import opened Truncation
  import opened Categorical
  import opened Rng
  import opened Selectors
  import Selection

  datatype Policy = Policy(temperature: real, topK: nat, topP: real)

  /** The score of a logit under a temperature. */
  function ScoreOf(policy: Policy, logit: real): real
    requires policy.temperature > 0.0
  {
    if policy.temperature != 1.0 then logit / policy.temperature else logit
  }

  function Scores(policy: Policy, logits: seq<F32>, value: F32 -> real): (r: seq<real>)
    requires policy.temperature > 0.0
    ensures |r| == |logits| && forall i :: 0 <= i < |r| ==> r[i] == ScoreOf(policy, value(logits[i]))
  {
    seq(|logits|, i requires 0 <= i < |logits| => ScoreOf(policy, value(logits[i])))
  }

  /** The opening check of a policy. */
  predicate PolicyValid(policy: Policy, vocabulary: nat) {
    policy.temperature > 0.0 && 0.0 <= policy.topP <= 1.0 && policy.topK <= vocabulary
  }

  method ScoreAll(policy: Policy, logits: seq<F32>, finite: F32 -> bool, value: F32 -> real) returns (status: Status, scores: seq<real>)
    requires policy.temperature > 0.0
    ensures status.Ok? <==> AllFinite(finite, logits)
    ensures status.Ok? ==> scores == Scores(policy, logits, value)
  {
    scores := [];
    for index := 0 to |logits|
      invariant scores == Scores(policy, logits, value)[..index] && AllFinite(finite, logits[..index])
    {
      if !finite(logits[index]) {
        return NumericDomain, [];
      }
      scores := scores + [ScoreOf(policy, value(logits[index]))];
      assert logits[..index + 1] == logits[..index] + [logits[index]];
    }
    assert logits[..|logits|] == logits;
    status := Ok;
  }

  // ----- the final softmax -----

  /** Weighs the candidates that are left once more and sums them. The weights are the ones they
      had, so the array stays as it is. */
  method Reweigh(scores: seq<real>, ghost order: seq<nat>, w: Weight, maximum: real, ghost retained: nat, probabilities: array<real>)
    returns (sum: real)
    requires SortedRun(scores, order, 0, |order|) && probabilities.Length == |order| <= |scores|
    requires Holding(scores, order, w, maximum, probabilities[..], retained, |order|) && NotNegative(probabilities[..])
    modifies probabilities
    ensures probabilities[..] == old(probabilities[..]) && sum == Total(probabilities[..])
  {
    hide SortedRun, Holding;
    ghost var held := probabilities[..];
    sum := 0.0;
    for index := 0 to probabilities.Length
      invariant probabilities[..] == held && sum == Total(held[..index])
    {
      assert held[..index + 1][..index] == held[..index];
      assert probabilities[index] == held[index];
      if probabilities[index] > 0.0 {
        HeldIsWeight(scores, order, w, maximum, held, retained, index);
        var weight := WeightOf(scores, w, maximum, index);
        probabilities[index] := weight;
        sum := sum + weight;
      }
    }
    assert held[..probabilities.Length] == held;
  }

  lemma HeldIsWeight(scores: seq<real>, order: seq<nat>, w: Weight, maximum: real, held: seq<real>, retained: nat, id: nat)
    requires SortedRun(scores, order, 0, |order|) && Holding(scores, order, w, maximum, held, retained, |order|)
    requires id < |order| <= |scores| && |held| == |order| && held[id] > 0.0
    ensures held[id] == WeightOf(scores, w, maximum, id)
  {
    hide SortedRun;
    MergeSort.AllPresent(scores, order, id);
    var i :| 0 <= i < |order| && order[i] == id;
  }

  /** Divides every positive entry by the sum. */
  method Normalise(probabilities: array<real>, sum: real)
    requires NotNegative(probabilities[..]) && sum == Total(probabilities[..]) > 0.0
    modifies probabilities
    ensures probabilities[..] == Scaled(old(probabilities[..]), sum)
    ensures NotNegative(probabilities[..]) && Total(probabilities[..]) == 1.0
  {
    ghost var before := probabilities[..];
    for index := 0 to probabilities.Length
      invariant forall i :: 0 <= i < index ==> probabilities[i] == before[i] / sum
      invariant forall i :: index <= i < probabilities.Length ==> probabilities[i] == before[i]
    {
      if probabilities[index] > 0.0 {
        probabilities[index] := probabilities[index] / sum;
      } else {
        ShareOfAll(sum);
      }
    }
    assert probabilities[..] == Scaled(before, sum);
    SharesAreADistribution(before);
  }

  /** Holding nothing but weights means holding nothing negative. */
  lemma HeldNotNegative(scores: seq<real>, order: seq<nat>, w: Weight, maximum: real, p: seq<real>, from: nat)
    requires SortedRun(scores, order, 0, |order|) && Weighting(w) && Holding(scores, order, w, maximum, p, from, |order|)
    ensures NotNegative(p)
  {
    forall i | 0 <= i < |p| ensures p[i] >= 0.0 {
      AllPresent(scores, order, i);
    }
  }

  // ----- the mass of the kept candidates -----

  /** The entries of p in another order, added up. */
  function TotalAt(p: seq<real>, ids: seq<nat>): real
    requires forall i :: 0 <= i < |ids| ==> ids[i] < |p|
  {
    if ids == [] then 0.0 else TotalAt(p, ids[..|ids| - 1]) + p[ids[|ids| - 1]]
  }

  lemma {:induction false} TotalAtRemoves(p: seq<real>, ids: seq<nat>, j: nat)
    requires j < |ids| && forall i :: 0 <= i < |ids| ==> ids[i] < |p|
    ensures TotalAt(p, ids) == TotalAt(p, ids[..j] + ids[j + 1..]) + p[ids[j]]
  {
    var last := |ids| - 1;
    var rest := ids[..j] + ids[j + 1..];
    if j == last {
      assert rest == ids[..last];
    } else {
      TotalAtRemoves(p, ids[..last], j);
      assert rest[..|rest| - 1] == ids[..last][..j] + ids[..last][j + 1..];
      assert rest[|rest| - 1] == ids[last];
    }
  }

  lemma {:induction false} TotalAtPrefix(p: seq<real>, ids: seq<nat>, n: nat)
    requires n <= |p| && forall i :: 0 <= i < |ids| ==> ids[i] < n
    ensures TotalAt(p, ids) == TotalAt(p[..n], ids)
  {
    if ids != [] {
      TotalAtPrefix(p, ids[..|ids| - 1], n);
    }
  }

  lemma WithoutLast(ids: seq<nat>, j: nat)
    requires j < |ids| && ids[j] == |ids| - 1 && forall i :: 0 <= i < |ids| ==> ids[i] < |ids|
    requires forall i, k :: 0 <= i < k < |ids| ==> ids[i] != ids[k]
    ensures var rest := ids[..j] + ids[j + 1..];
            && (forall i :: 0 <= i < |rest| ==> rest[i] < |ids| - 1)
            && (forall i, k :: 0 <= i < k < |rest| ==> rest[i] != rest[k])
  {
    var rest := ids[..j] + ids[j + 1..];
    forall i | 0 <= i < |rest| ensures rest[i] == ids[if i < j then i else i + 1] {
    }
  }

  /** The order of the terms does not matter. */
  lemma {:induction false} TotalByOrder(p: seq<real>, ids: seq<nat>)
    requires |ids| == |p| && forall i :: 0 <= i < |ids| ==> ids[i] < |p|
    requires forall i, j :: 0 <= i < j < |ids| ==> ids[i] != ids[j]
    ensures TotalAt(p, ids) == Total(p)
    decreases |p|
  {
    if p != [] {
      hide TotalAt;
      var last := |p| - 1;
      Selection.AllBelowPresent(ids, |ids|);
      assert last in ids;
      var j :| 0 <= j < |ids| && ids[j] == last;
      var rest := ids[..j] + ids[j + 1..];
      TotalAtRemoves(p, ids, j);
      WithoutLast(ids, j);
      TotalAtPrefix(p, rest, last);
      TotalByOrder(p[..last], rest);
    }
  }

  lemma {:induction false} HeldMass(scores: seq<real>, order: seq<nat>, w: Weight, maximum: real, held: seq<real>, retained: nat, n: nat)
    requires Holding(scores, order, w, maximum, held, retained, |order|) && retained <= |order| && n <= |order|
    ensures TotalAt(held, order[..n]) == if n <= retained then 0.0 else Mass(scores, order, w, maximum, retained, n)
  {
    if n > 0 {
      HeldMass(scores, order, w, maximum, held, retained, n - 1);
      assert order[..n][..n - 1] == order[..n - 1];
    }
  }

  /** What is held adds up to the mass of the kept candidates. */
  lemma HeldTotal(scores: seq<real>, order: seq<nat>, w: Weight, maximum: real, held: seq<real>, retained: nat)
    requires SortedRun(scores, order, 0, |order|) && Holding(scores, order, w, maximum, held, retained, |order|) && retained < |order|
    ensures InRange(scores, order) && Total(held) == Mass(scores, order, w, maximum, retained, |order|)
  {
    Distinct(scores, order);
    HeldMass(scores, order, w, maximum, held, retained, |order|);
    assert order[..|order|] == order;
    hide SortedRun, Mass;
    TotalByOrder(held, order);
  }

  // ----- the call -----

  /** The distribution that the cuts leave: every kept candidate has its weight's share of what is
      kept, every other id nothing. */
  ghost predicate IsKeptDistribution(scores: seq<real>, order: seq<nat>, w: Weight, retained: nat, p: seq<real>) {
    && InRange(scores, order) && |p| == |order| && retained < |order| && NotNegative(p) && Total(p) == 1.0
    && var maximum := scores[order[|order| - 1]];
       var kept := Mass(scores, order, w, maximum, retained, |order|);
       kept > 0.0 && forall i :: 0 <= i < |order| ==>
         order[i] < |p| && p[order[i]] == if i >= retained then WeightOf(scores, w, maximum, order[i]) / kept else 0.0
  }

  lemma IsKept(scores: seq<real>, order: seq<nat>, w: Weight, maximum: real, held: seq<real>, retained: nat)
    requires SortedRun(scores, order, 0, |order|) && order != [] && retained < |order| && InRange(scores, order)
    requires Weighting(w) && maximum == scores[order[|order| - 1]] && Holding(scores, order, w, maximum, held, retained, |order|)
    ensures NotNegative(held) && Total(held) > 0.0
    ensures IsKeptDistribution(scores, order, w, retained, Scaled(held, Total(held)))
  {
    hide SortedRun, Mass;
    HeldNotNegative(scores, order, w, maximum, held, retained);
    HeldTotal(scores, order, w, maximum, held, retained);
    SuffixWeighs(scores, order, w, maximum, retained);
    SharesAreADistribution(held);
    ShareOfAll(Total(held));
  }

  /** What top-k keeps: the places from `start` on hold the ids scoring at least the k-th largest
      score; k = 0 keeps everything. */
  ghost predicate TopKCut(scores: seq<real>, order: seq<nat>, topK: nat, start: nat) {
    && InRange(scores, order) && start < |order| && topK <= |order|
    && (topK == 0 ==> start == 0)
    && (topK > 0 ==> forall i :: 0 <= i < |order| ==> (start <= i <==> scores[order[i]] >= scores[order[|order| - topK]]))
  }

  /** Sorts, cuts and weighs. Neither cut can leave nothing behind. */
  method CutAndWeigh(policy: Policy, scores: seq<real>, w: Weight, order: array<nat>, temporary: array<nat>, probabilities: array<real>)
    returns (topKStart: nat, retained: nat)
    requires PolicyValid(policy, |scores|) && Weighting(w) && 0 < |scores| <= UINT32_MAX
    requires order.Length == temporary.Length == probabilities.Length == |scores| && order != temporary
    modifies order, temporary, probabilities
    ensures SortedRun(scores, order[..], 0, |scores|) && TopKCut(scores, order[..], policy.topK, topKStart)
    ensures Cut(scores, order[..], w, scores[order[|scores| - 1]], policy.topP, topKStart, retained)
    ensures Holding(scores, order[..], w, scores[order[|scores| - 1]], probabilities[..], retained, |scores|)
  {
    hide Less, Mass, Cut, Holding;
    SortIds(scores, order, temporary, |scores|);
    topKStart := TopKStart(scores, order[..], policy.topK);
    var maximum := scores[order[|scores| - 1]];
    Clear(probabilities);
    var sum := Weigh(scores, order[..], w, maximum, topKStart, probabilities);
    SuffixWeighs(scores, order[..], w, maximum, topKStart);
    retained := TopPStart(scores, order[..], w, maximum, policy.topP, topKStart, sum, probabilities);
    CutInRange(scores, order[..], w, maximum, policy.topP, topKStart, retained);
  }

  lemma CutInRange(scores: seq<real>, order: seq<nat>, w: Weight, maximum: real, topP: real, start: nat, retained: nat)
    requires InRange(scores, order) && Cut(scores, order, w, maximum, topP, start, retained)
    ensures start <= retained < |order|
  {
  }

  method Clear(probabilities: array<real>)
    modifies probabilities
    ensures forall i :: 0 <= i < probabilities.Length ==> probabilities[i] == 0.0
  {
    for i := 0 to probabilities.Length
      invariant forall j :: 0 <= j < i ==> probabilities[j] == 0.0
    {
      probabilities[i] := 0.0;
    }
  }

  /** From scores to the distribution. No error of the source between the scores and the draw can
      occur: no cut leaves nothing, no sum is zero. */
  method Distribute(policy: Policy, scores: seq<real>, w: Weight, order: array<nat>, temporary: array<nat>, probabilities: array<real>)
    returns (topKStart: nat, retained: nat)
    requires PolicyValid(policy, |scores|) && Weighting(w) && 0 < |scores| <= UINT32_MAX
    requires order.Length == temporary.Length == probabilities.Length == |scores| && order != temporary
    modifies order, temporary, probabilities
    ensures topKStart <= retained < |scores| && Truncated(policy, scores, w, order[..], probabilities[..], topKStart, retained)
    ensures NotNegative(probabilities[..]) && Total(probabilities[..]) == 1.0
  {
    hide SortedRun, Mass, Cut, Holding, IsKeptDistribution, NotNegative, Total;
    topKStart, retained := CutAndWeigh(policy, scores, w, order, temporary, probabilities);
    CutInRange(scores, order[..], w, scores[order[|scores| - 1]], policy.topP, topKStart, retained);
    IsKept(scores, order[..], w, scores[order[|scores| - 1]], probabilities[..], retained);
    var total := Reweigh(scores, order[..], w, scores[order[|scores| - 1]], retained, probabilities);
    Normalise(probabilities, total);
  }

  /** What the scratch arrays hold after a successful call: the ids in order, and the distribution
      over the candidates behind both cuts. */
  ghost predicate Truncated(policy: Policy, scores: seq<real>, w: Weight, order: seq<nat>, p: seq<real>, topKStart: nat, retained: nat) {
    && scores != [] && |order| == |scores| && SortedRun(scores, order, 0, |scores|)
    && TopKCut(scores, order, policy.topK, topKStart)
    && Cut(scores, order, w, scores[order[|scores| - 1]], policy.topP, topKStart, retained)
    && IsKeptDistribution(scores, order, w, retained, p)
  }

  /** One sampling call. Only ids below `canonical` are tokens that exist; drawing another one is an
      error, and like every error it leaves the generator where it was. */
  method SelectToken(policy: Policy, canonical: nat, rngState: RngState, logits: seq<F32>, finite: F32 -> bool, value: F32 -> real, w: Weight,
                     order: array<nat>, temporary: array<nat>, probabilities: array<real>)
    returns (status: Status, selected: nat, topKCount: nat, keptCount: nat)
    requires PolicyValid(policy, |logits|) && Weighting(w) && 0 < |logits| <= UINT32_MAX
    requires order.Length == temporary.Length == probabilities.Length == |logits| && order != temporary
    modifies rngState, order, temporary, probabilities
    ensures status.Ok? ==> AllFinite(finite, logits) && selected < canonical && old(rngState.Valid())
    ensures status.Ok? ==> topKCount <= |logits| && keptCount <= |logits| &&
                           Truncated(policy, Scores(policy, logits, value), w, order[..], probabilities[..],
                                     |logits| - topKCount, |logits| - keptCount)
    ensures status.Ok? ==> rngState.Valid() && Draw(old(rngState.View())).Some? && rngState.View() == Draw(old(rngState.View())).value.0
    ensures status.Ok? ==> Picks(probabilities[..], Draw(old(rngState.View())).value.1 as nat, selected) && probabilities[..][selected] > 0.0
    ensures !status.Ok? ==> rngState.View() == old(rngState.View()) && rngState.Valid() == old(rngState.Valid())
    ensures !status.Ok? && AllFinite(finite, logits) && old(rngState.Valid()) && Draw(old(rngState.View())).Some? ==>
              selected >= canonical && Picks(probabilities[..], Draw(old(rngState.View())).value.1 as nat, selected) &&
              exists topKStart, retained :: Truncated(policy, Scores(policy, logits, value), w, order[..], probabilities[..], topKStart, retained)
  {
    hide Truncated, Picks, NotNegative, Total, Scores;
    selected, topKCount, keptCount := 0, 0, 0;
    if !rngState.Valid() {
      return InvalidRngState, 0, 0, 0;
    }
    var scores;
    status, scores := ScoreAll(policy, logits, finite, value);
    if !status.Ok? {
      return;
    }
    var topKStart, retained := Distribute(policy, scores, w, order, temporary, probabilities);
    var drawn := Draw(rngState.View());
    if drawn.None? {
      return ArithmeticOverflow, 0, 0, 0;
    }
    status, selected := CategoricalWord(probabilities[..], drawn.value.1 as nat);
    if !status.Ok? {
      return;
    }
    if selected >= canonical {
      assert Truncated(policy, Scores(policy, logits, value), w, order[..], probabilities[..], topKStart, retained);
      return InvalidTokenId, selected, 0, 0;
    }
    topKCount, keptCount := |scores| - topKStart, |scores| - retained;
    rngState.Store(drawn.value.0);
  }

  // ----- the call as a function -----

  lemma TopKCutIsUnique(scores: seq<real>, order: seq<nat>, topK: nat, a: nat, b: nat)
    requires TopKCut(scores, order, topK, a) && TopKCut(scores, order, topK, b)
    ensures a == b
  {
    if topK > 0 {
      assert a <= a && b <= b;
      assert scores[order[a]] >= scores[order[|order| - topK]] && scores[order[b]] >= scores[order[|order| - topK]];
    }
  }

  lemma CutIsUnique(scores: seq<real>, order: seq<nat>, w: Weight, maximum: real, topP: real, start: nat, a: nat, b: nat)
    requires InRange(scores, order) && Weighting(w) && topP <= 1.0
    requires Cut(scores, order, w, maximum, topP, start, a) && Cut(scores, order, w, maximum, topP, start, b)
    ensures a == b
  {
    if a < b {
      CutIsLongest(scores, order, w, maximum, topP, start, a, b);
    } else if b < a {
      CutIsLongest(scores, order, w, maximum, topP, start, b, a);
    }
  }

  /** A longer prefix is too heavy. */
  lemma CutIsLongest(scores: seq<real>, order: seq<nat>, w: Weight, maximum: real, topP: real, start: nat, a: nat, b: nat)
    requires InRange(scores, order) && Weighting(w) && topP <= 1.0
    requires Cut(scores, order, w, maximum, topP, start, a) && a < b < |order|
    ensures !Cut(scores, order, w, maximum, topP, start, b)
  {
    hide Mass;
    MassSplits(scores, order, w, maximum, start, a + 1, b);
    MassNotNegative(scores, order, w, maximum, a + 1, b);
  }

  /** There is one order, one cut and one distribution. */
  lemma TruncationIsUnique(policy: Policy, scores: seq<real>, w: Weight, order: seq<nat>, p: seq<real>, start: nat, retained: nat,
                           order': seq<nat>, p': seq<real>, start': nat, retained': nat)
    requires Weighting(w) && policy.topP <= 1.0
    requires Truncated(policy, scores, w, order, p, start, retained) && Truncated(policy, scores, w, order', p', start', retained')
    ensures order == order' && start == start' && retained == retained' && p == p'
  {
    hide SortedRun, TopKCut, Cut, Mass;
    SortedIsUnique(scores, order, order');
    TopKCutIsUnique(scores, order, policy.topK, start, start');
    CutIsUnique(scores, order, w, scores[order[|scores| - 1]], policy.topP, start, retained, retained');
    forall id | 0 <= id < |p| ensures p[id] == p'[id] {
      AllPresent(scores, order, id);
      var i :| 0 <= i < |order| && order[i] == id;
    }
  }

  /** A sampling configuration, and the arithmetic it works with. */
  datatype Config = Config(policy: Policy, canonical: nat, finite: F32 -> bool, value: F32 -> real, weight: Weight) {
    /** What opening a configuration for a vocabulary has checked. */
    ghost predicate Valid(vocabulary: nat) {
      PolicyValid(policy, vocabulary) && Weighting(weight) && 0 < vocabulary <= UINT32_MAX
    }
  }

  /** Behind both cuts the word picks this id. */
  ghost predicate PickedBy(c: Config, logits: Row, word: bv32, id: nat) {
    c.policy.temperature > 0.0 &&
    exists order, p, start, retained ::
      Truncated(c.policy, Scores(c.policy, logits, c.value), c.weight, order, p, start, retained) && Picks(p, word as nat, id)
  }

  lemma PickedOnce(c: Config, logits: Row, word: bv32, i: nat, j: nat)
    requires c.Valid(|logits|) && PickedBy(c, logits, word, i) && PickedBy(c, logits, word, j)
    ensures i == j
  {
    hide Truncated, Picks, Scores, NotNegative, Total;
    var scores := Scores(c.policy, logits, c.value);
    var order, p, start, retained :| Truncated(c.policy, scores, c.weight, order, p, start, retained) && Picks(p, word as nat, i);
    var order', p', start', retained' :| Truncated(c.policy, scores, c.weight, order', p', start', retained') && Picks(p', word as nat, j);
    TruncationIsUnique(c.policy, scores, c.weight, order, p, start, retained, order', p', start', retained');
    TruncatedIsNotNegative(c.policy, scores, c.weight, order, p, start, retained);
    PicksOnce(p, word as nat, i, j);
  }

  lemma TruncatedIsNotNegative(policy: Policy, scores: seq<real>, w: Weight, order: seq<nat>, p: seq<real>, start: nat, retained: nat)
    requires Truncated(policy, scores, w, order, p, start, retained)
    ensures NotNegative(p)
  {
    hide SortedRun, TopKCut, Cut;
  }

  /** A configuration as a policy: the id that the word picks, if the logits are finite and the id is
      a token. */
  ghost function Choice(c: Config): Choose {
    (logits: Row, word: bv32) =>
      if AllFinite(c.finite, logits) && exists id: nat :: PickedBy(c, logits, word, id) then
        var id: nat :| PickedBy(c, logits, word, id);
        if id < c.canonical then Some(id) else None
      else None
  }

  lemma ChoiceIs(c: Config, logits: Row, word: bv32, id: nat)
    requires c.Valid(|logits|) && AllFinite(c.finite, logits) && PickedBy(c, logits, word, id)
    ensures Choice(c)(logits, word) == if id < c.canonical then Some(id) else None
  {
    hide PickedBy, Config.Valid;
    forall other | PickedBy(c, logits, word, other) ensures other == id {
      PickedOnce(c, logits, word, other, id);
    }
  }

  /** The sampler is sampled selection: one word drawn, and the policy's choice by it. */
  method Sample(c: Config, rngState: RngState, logits: Row, order: array<nat>, temporary: array<nat>, probabilities: array<real>)
    returns (status: Status, selected: nat)
    requires c.Valid(|logits|) && rngState.Valid()
    requires order.Length == temporary.Length == probabilities.Length == |logits| && order != temporary
    modifies rngState, order, temporary, probabilities
    ensures rngState.Valid()
    ensures Sampled(Choice(c))(logits, old(rngState.View())) == if status.Ok? then Some((selected, rngState.View())) else None
  {
    hide Truncated, Picks, Scores, Draw, Choice;
    ghost var g := rngState.View();
    var kept, held;
    status, selected, kept, held := SelectToken(c.policy, c.canonical, rngState, logits, c.finite, c.value, c.weight, order, temporary, probabilities);
    if Draw(g).Some? {
      if AllFinite(c.finite, logits) {
        ChoiceIs(c, logits, Draw(g).value.1, selected);
      } else {
        NoChoice(c, logits, Draw(g).value.1);
      }
    }
  }

  lemma NoChoice(c: Config, logits: Row, word: bv32)
    requires !AllFinite(c.finite, logits)
    ensures Choice(c)(logits, word) == None
  {
  }
}
