/** What the executor asks of a selector: a token from logits, and from a generator where it draws. */
module Selectors {
  import opened Foundation
  import opened Rng
  import Selection

  /** Chooses a token from logits; the second part is the generator state it draws from. */
  type Select<!R> = (Row, R) -> Option<(nat, R)>

  /** A sampling policy: a token from logits and one random word. */
  type Choose = (Row, bv32) -> Option<nat>

  /** Greedy selection: the highest logit, the lowest id on ties. It draws nothing. */
  function Greedy<R>(finite: F32 -> bool, value: F32 -> real): Select<R> {
    (logits: Row, rng: R) =>
      if logits == [] || |logits| > UINT32_MAX || !AllFinite(finite, logits) then None
      else
        var best := Selection.TopK(Selection.Values(logits, value), |logits|, 1);
        if best == [] then None else Some((best[0], rng))
  }

  /** Sampled selection: one word is drawn and handed to the policy. */
  function Sampled(choose: Choose): Select<Generator> {
    (logits: Row, g: Generator) =>
      match Draw(g)
      case None => None
      case Some((after, word)) =>
        match choose(logits, word)
        case None => None
        case Some(token) => Some((token, after))
  }

  /** The same on logits that a caller puts in the place of the model's. */
  function SampledOn(choose: Choose, replaced: Option<Row>): Select<Generator> {
    (logits: Row, g: Generator) => Sampled(choose)(if replaced.Some? then replaced.value else logits, g)
  }

  /** The executor's greedy selector is greedy selection. */
  method SelectGreedy<R>(logits: Row, finite: F32 -> bool, value: F32 -> real, ghost rng: R) returns (status: Status, selected: nat)
    ensures Greedy<R>(finite, value)(logits, rng) == if status.Ok? then Some((selected, rng)) else None
  {
    status, selected := Selection.GreedyArgmax(logits, finite, value);
    if status.Ok? {
      assert Selection.TopK(Selection.Values(logits, value), |logits|, 1) == [selected];
    }
  }

  /** Greedy selection means: exactly for finite logits of a 32-bit number, the first of the highest. */
  lemma GreedyIsFirstOfHighest<R>(finite: F32 -> bool, value: F32 -> real, logits: Row, rng: R, id: nat, after: R)
    ensures Greedy<R>(finite, value)(logits, rng) == Some((id, after)) <==>
              && after == rng && id < |logits| <= UINT32_MAX && AllFinite(finite, logits)
              && (forall j :: 0 <= j < |logits| ==> value(logits[j]) <= value(logits[id]))
              && (forall j :: 0 <= j < id ==> value(logits[j]) < value(logits[id]))
  {
    if logits != [] {
      hide AllFinite;
      var values := Selection.Values(logits, value);
      var best := Selection.TopK(values, |logits|, 1);
      Selection.TopKIsTopK(values, |logits|, 1);
      OneIsBest(values, best);
      OneIsBest(values, best);
      var first := best[0];
      assert values[first] == value(logits[first]);
      forall j | 0 <= j < |logits| && j != first
        ensures value(logits[j]) < value(logits[first]) || (value(logits[j]) == value(logits[first]) && first < j)
      {
        assert Selection.Better(values, first, j) && values[j] == value(logits[j]);
      }
    }
  }

  lemma OneIsBest(values: seq<real>, best: seq<nat>)
    requires values != [] && Selection.IsTopK(values, |values|, 1, best)
    ensures |best| == 1 && best[0] < |values|
    ensures forall j :: 0 <= j < |values| && j != best[0] ==> Selection.Better(values, best[0], j)
  {
    forall j | 0 <= j < |values| && j != best[0] ensures Selection.Better(values, best[0], j) {
      assert j !in best;
    }
  }

  /** Sampled selection draws one word, chooses by it, and leaves the generator one word on. */
  lemma SampledDrawsOne(choose: Choose, logits: Row, g: Generator, token: nat, after: Generator)
    ensures Sampled(choose)(logits, g) == Some((token, after)) <==>
              Words(g, 1).Some? && Words(g, 1).value.0 == after && choose(logits, Words(g, 1).value.1[0]) == Some(token)
  {
    hide NextState, WordOf;
    assert Words(g, 0) == Some((g, []));
  }
}
