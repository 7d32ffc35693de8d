/** The whole model token by token: every token goes through all layers before the next one starts. The
    engine pushes all tokens of a prompt through one layer after the other; that both are the same,
    failures included, is what this module proves. */
module ModelTokens {
  import opened Foundation
  import opened Streaming
  import opened Layer
  import opened LayerTokens
  import opened Model

  /** One token through the first n layers. */
  function StackToken(c: ModelConfig, k: ModelKernels, slots: seq<SlotView>, token: TokenRow, n: nat): (r: Option<(seq<SlotView>, Row)>)
    requires c.Valid() && n <= |c.layers| == |k.layers| && n <= |slots|
    ensures r.Some? ==> |r.value.0| == n
  {
    if n == 0 then Some(([], token.1))
    else
      match StackToken(c, k, slots, token, n - 1)
      case None => None
      case Some((before, row)) =>
        match LayerToken(c.layers[n - 1], k.layers[n - 1], slots[n - 1], (token.0, row))
        case None => None
        case Some((slot, output)) => Some((before + [slot], output))
  }

  function StackStep(c: ModelConfig, k: ModelKernels, n: nat): Step<seq<SlotView>, TokenRow, Row>
    requires c.Valid() && n <= |c.layers| == |k.layers|
  {
    (slots: seq<SlotView>, token: TokenRow) => if |slots| != n then None else StackToken(c, k, slots, token, n)
  }

  /** A token's embedding, four times, through all layers. */
  function ModelStep(c: ModelConfig, k: ModelKernels): Step<seq<SlotView>, nat, Row>
    requires c.Valid() && |c.layers| == |k.layers|
  {
    (slots: seq<SlotView>, token: nat) =>
      match EmbedOf(k)(token)
      case None => None
      case Some(row) => if |slots| != |c.layers| then None else StackToken(c, k, slots, (token, row), |c.layers|)
  }

  /** Every one of the first n layers lets the call in; of the rows only their number matters. */
  ghost predicate StackAdmits(c: ModelConfig, k: ModelKernels, slots: seq<SlotView>, tokens: seq<nat>, n: nat)
    requires c.Valid() && Fits(c, k, slots) && n <= |c.layers|
  {
    forall i :: 0 <= i < n ==> LayerAdmits(c.layers[i], k.layers[i], c.contextCapacity, slots[i], tokens)
  }

  ghost predicate LayerAdmits(c: LayerConfig, k: LayerKernels, capacity: nat, view: SlotView, tokens: seq<nat>) {
    && tokens != [] && Copies(c, k, capacity, view) && TableAdmits(c, view.ple, tokens)
    && (view.mixer.QsaPart? ==> view.mixer.qsa.length + |tokens| <= capacity)
  }

  lemma AdmitsByNumber(c: LayerConfig, k: LayerKernels, capacity: nat, view: SlotView, tokens: seq<nat>, input: seq<Row>)
    requires |tokens| == |input|
    ensures Admits(c, k, capacity, view, tokens, input) <==> LayerAdmits(c, k, capacity, view, tokens)
  {
    hide Copies, TableAdmits;
  }

  /** The first layers do not look at the slots behind them. */
  lemma {:induction false} PrefixOfSlots(c: ModelConfig, k: ModelKernels, slots: seq<SlotView>, token: TokenRow, n: nat)
    requires c.Valid() && n <= |c.layers| == |k.layers| && n <= |slots|
    ensures StackToken(c, k, slots[..n], token, n) == StackToken(c, k, slots, token, n)
    decreases n
  {
    hide LayerToken;
    if n > 0 {
      PrefixOfSlots(c, k, slots, token, n - 1);
      PrefixOfSlots(c, k, slots[..n], token, n - 1);
      assert slots[..n][..n - 1] == slots[..n - 1];
    }
  }

  /** A step of n layers is a step of n - 1 and a step of the last. */
  lemma StackStepSplits(c: ModelConfig, k: ModelKernels, before: seq<SlotView>, slot: SlotView, token: TokenRow, n: nat)
    requires c.Valid() && n < |c.layers| == |k.layers| && |before| == n
    ensures StackStep(c, k, n + 1)(before + [slot], token) ==
            match StackStep(c, k, n)(before, token)
            case None => None
            case Some((after, row)) =>
              match LayerStep(c.layers[n], k.layers[n])(slot, (token.0, row))
              case None => None
              case Some((last, output)) => Some((after + [last], output))
  {
    hide LayerToken;
    var slots := before + [slot];
    assert slots[..n] == before;
    PrefixOfSlots(c, k, slots, token, n);
  }

  lemma {:induction false} RunKeepsWidth(c: ModelConfig, k: ModelKernels, slots: seq<SlotView>, tokens: seq<TokenRow>, n: nat)
    requires c.Valid() && n <= |c.layers| == |k.layers| && |slots| == n
    ensures Run(StackStep(c, k, n), slots, tokens).Some? ==> |Run(StackStep(c, k, n), slots, tokens).value.0| == n
  {
    hide StackToken;
    if tokens != [] {
      RunKeepsWidth(c, k, slots, tokens[..|tokens| - 1], n);
    }
  }

  /** The rows that n layers yield, through one more layer. */
  function ThroughLast(c: ModelConfig, k: ModelKernels, r: Option<(seq<SlotView>, seq<Row>)>, slot: SlotView, tokens: seq<nat>, n: nat):
    Option<(seq<SlotView>, seq<Row>)>
    requires c.Valid() && n < |c.layers| == |k.layers| && (r.Some? ==> |r.value.1| == |tokens|)
  {
    match r
    case None => None
    case Some((before, rows)) =>
      match Run(LayerStep(c.layers[n], k.layers[n]), slot, Zipped(tokens, rows))
      case None => None
      case Some((last, output)) => Some((before + [last], output))
  }

  lemma ThroughLastOneMore(c: ModelConfig, k: ModelKernels, before: seq<SlotView>, rows: seq<Row>, slot: SlotView,
                           tokens: seq<nat>, token: nat, input: Row, n: nat)
    requires c.Valid() && n < |c.layers| == |k.layers| && |before| == n && |rows| == |tokens|
    requires StackStep(c, k, n)(before, (token, input)).Some?
    ensures var (after, row) := StackStep(c, k, n)(before, (token, input)).value;
            ThroughLast(c, k, Some((after, rows + [row])), slot, tokens + [token], n) ==
            match ThroughLast(c, k, Some((before, rows)), slot, tokens, n)
            case None => None
            case Some((slots, outputs)) =>
              match StackStep(c, k, n + 1)(slots, (token, input))
              case None => None
              case Some((next, output)) => Some((next, outputs + [output]))
  {
    hide StackStep, LayerStep, Run, Zipped;
    var (after, row) := StackStep(c, k, n)(before, (token, input)).value;
    var layer := LayerStep(c.layers[n], k.layers[n]);
    ZippedOneMore(tokens, rows, token, row);
    RunOneMore(layer, slot, Zipped(tokens, rows), (token, row));
    if Run(layer, slot, Zipped(tokens, rows)).Some? {
      StackStepSplits(c, k, before, Run(layer, slot, Zipped(tokens, rows)).value.0, (token, input), n);
    }
  }

  /** The tokens through n layers and then the rows through the next is every token through all of
      them. */
  lemma {:induction false} LayersAreOneRun(c: ModelConfig, k: ModelKernels, slots: seq<SlotView>, slot: SlotView, tokens: seq<nat>, input: seq<Row>, n: nat)
    requires c.Valid() && n < |c.layers| == |k.layers| && |slots| == n && |tokens| == |input|
    ensures Run(StackStep(c, k, n + 1), slots + [slot], Zipped(tokens, input)) ==
            ThroughLast(c, k, Run(StackStep(c, k, n), slots, Zipped(tokens, input)), slot, tokens, n)
    decreases |tokens|
  {
    hide StackStep, LayerStep, ThroughLast;
    var upper, lower := StackStep(c, k, n + 1), StackStep(c, k, n);
    if tokens == [] {
      NothingThroughLast(c, k, slots, slot, n);
      assert Zipped(tokens, input) == [];
    } else {
      var last := |tokens| - 1;
      var ta, ra := tokens[..last], input[..last];
      assert tokens == ta + [tokens[last]] && input == ra + [input[last]];
      LayersAreOneRun(c, k, slots, slot, ta, ra, n);
      ZippedOneMore(ta, ra, tokens[last], input[last]);
      RunOneMore(upper, slots + [slot], Zipped(ta, ra), (tokens[last], input[last]));
      RunOneMore(lower, slots, Zipped(ta, ra), (tokens[last], input[last]));
      RunKeepsWidth(c, k, slots, Zipped(ta, ra), n);
      NoneThroughLast(c, k, slot, ta, n);
      NoneThroughLast(c, k, slot, tokens, n);
      var first := Run(lower, slots, Zipped(ta, ra));
      if first.Some? {
        if lower(first.value.0, (tokens[last], input[last])).Some? {
          ThroughLastOneMore(c, k, first.value.0, first.value.1, slot, ta, tokens[last], input[last], n);
        } else {
          FailsBeforeLast(c, k, first.value.0, first.value.1, slot, ta, (tokens[last], input[last]), n);
        }
      }
    }
  }

  lemma NoneThroughLast(c: ModelConfig, k: ModelKernels, slot: SlotView, tokens: seq<nat>, n: nat)
    requires c.Valid() && n < |c.layers| == |k.layers|
    ensures ThroughLast(c, k, None, slot, tokens, n) == None
  {
  }

  lemma NothingThroughLast(c: ModelConfig, k: ModelKernels, slots: seq<SlotView>, slot: SlotView, n: nat)
    requires c.Valid() && n < |c.layers| == |k.layers|
    ensures ThroughLast(c, k, Some((slots, [])), slot, [], n) == Some((slots + [slot], []))
  {
    assert Zipped([], []) == [];
  }

  /** A token that does not get through n layers does not get through one more. */
  lemma FailsBeforeLast(c: ModelConfig, k: ModelKernels, before: seq<SlotView>, rows: seq<Row>, slot: SlotView,
                        tokens: seq<nat>, token: TokenRow, n: nat)
    requires c.Valid() && n < |c.layers| == |k.layers| && |before| == n && |rows| == |tokens|
    requires StackStep(c, k, n)(before, token).None?
    ensures var r := ThroughLast(c, k, Some((before, rows)), slot, tokens, n);
            r.Some? ==> StackStep(c, k, n + 1)(r.value.0, token).None?
  {
    hide StackStep, LayerStep, Run;
    var layer := Run(LayerStep(c.layers[n], k.layers[n]), slot, Zipped(tokens, rows));
    if layer.Some? {
      StackStepSplits(c, k, before, layer.value.0, token, n);
    }
  }

  /** The layers as they are executed, each over all rows, is every token through all layers. It
      succeeds exactly when every layer lets the call in and every token gets through. */
  lemma {:induction false} StackIsTokenByToken(c: ModelConfig, k: ModelKernels, slots: seq<SlotView>, tokens: seq<nat>, input: seq<Row>, n: nat)
    requires c.Valid() && Fits(c, k, slots) && n <= |c.layers| && |tokens| == |input|
    ensures StackRun(c, k, slots, tokens, input, n) ==
            if StackAdmits(c, k, slots, tokens, n) then Run(StackStep(c, k, n), slots[..n], Zipped(tokens, input)) else None
  {
    hide LayerCall, LayerAdmits, Admits, StackStep, LayerStep, Run;
    if n == 0 {
      NoLayers(c, k, tokens, input);
    } else {
      StackIsTokenByToken(c, k, slots, tokens, input, n - 1);
      LayersAreOneRun(c, k, slots[..n - 1], slots[n - 1], tokens, input, n - 1);
      assert slots[..n] == slots[..n - 1] + [slots[n - 1]];
      AdmitsOneMore(c, k, slots, tokens, n - 1);
      var before := StackRun(c, k, slots, tokens, input, n - 1);
      if before.Some? {
        AdmitsByNumber(c.layers[n - 1], k.layers[n - 1], c.contextCapacity, slots[n - 1], tokens, before.value.1);
        LayerIsTokenByToken(c.layers[n - 1], k.layers[n - 1], c.contextCapacity, slots[n - 1], tokens, before.value.1);
      }
    }
  }

  lemma AdmitsOneMore(c: ModelConfig, k: ModelKernels, slots: seq<SlotView>, tokens: seq<nat>, n: nat)
    requires c.Valid() && Fits(c, k, slots) && n < |c.layers|
    ensures StackAdmits(c, k, slots, tokens, n + 1) <==>
              StackAdmits(c, k, slots, tokens, n) && LayerAdmits(c.layers[n], k.layers[n], c.contextCapacity, slots[n], tokens)
  {
    hide LayerAdmits;
  }

  lemma {:induction false} NoLayers(c: ModelConfig, k: ModelKernels, tokens: seq<nat>, input: seq<Row>)
    requires c.Valid() && |c.layers| == |k.layers| && |tokens| == |input|
    ensures Run(StackStep(c, k, 0), [], Zipped(tokens, input)) == Some(([], input))
    decreases |tokens|
  {
    if tokens != [] {
      var last := |tokens| - 1;
      var ta, ra := tokens[..last], input[..last];
      assert tokens == ta + [tokens[last]] && input == ra + [input[last]];
      NoLayers(c, k, ta, ra);
      ZippedOneMore(ta, ra, tokens[last], input[last]);
      RunOneMore(StackStep(c, k, 0), [], Zipped(ta, ra), (tokens[last], input[last]));
    }
  }

  /** With the embedding in front: a forward pass over a prompt is its tokens one after the other, each
      embedded and sent through all layers. */
  lemma ForwardIsTokenByToken(c: ModelConfig, k: ModelKernels, slots: seq<SlotView>, tokens: seq<nat>)
    requires c.Valid() && Fits(c, k, slots)
    ensures Forward(c, k, slots, tokens) ==
            if StackAdmits(c, k, slots, tokens, |c.layers|) then Run(ModelStep(c, k), slots, tokens) else None
  {
    hide StackRun, StackAdmits, StackStep, ModelStep, MapAll, Run;
    EmbeddedRun(c, k, slots, tokens);
    if MapAll(EmbedOf(k), tokens).Some? {
      assert slots[..|c.layers|] == slots;
      StackIsTokenByToken(c, k, slots, tokens, MapAll(EmbedOf(k), tokens).value, |c.layers|);
    }
  }

  lemma {:induction false} EmbeddedRun(c: ModelConfig, k: ModelKernels, slots: seq<SlotView>, tokens: seq<nat>)
    requires c.Valid() && |c.layers| == |k.layers| == |slots|
    ensures Run(ModelStep(c, k), slots, tokens) ==
            match MapAll(EmbedOf(k), tokens)
            case None => None
            case Some(rows) => Run(StackStep(c, k, |c.layers|), slots, Zipped(tokens, rows))
    decreases |tokens|
  {
    hide StackToken, EmbedOf, MapAll, Run;
    if tokens == [] {
      NoTokens(c, k, slots);
    } else {
      var last := |tokens| - 1;
      assert tokens == tokens[..last] + [tokens[last]];
      EmbeddedRun(c, k, slots, tokens[..last]);
      MapAllOneMore(EmbedOf(k), tokens[..last], tokens[last]);
      RunOneMore(ModelStep(c, k), slots, tokens[..last], tokens[last]);
      var before := MapAll(EmbedOf(k), tokens[..last]);
      if before.Some? && EmbedOf(k)(tokens[last]).Some? {
        var row := EmbedOf(k)(tokens[last]).value;
        ZippedOneMore(tokens[..last], before.value, tokens[last], row);
        RunOneMore(StackStep(c, k, |c.layers|), slots, Zipped(tokens[..last], before.value), (tokens[last], row));
      }
    }
  }

  lemma NoTokens(c: ModelConfig, k: ModelKernels, slots: seq<SlotView>)
    requires c.Valid() && |c.layers| == |k.layers|
    ensures Run(ModelStep(c, k), slots, []) == Some((slots, [])) && MapAll(EmbedOf(k), []) == Some([])
    ensures Run(StackStep(c, k, |c.layers|), slots, Zipped([], [])) == Some((slots, []))
  {
    assert Zipped([], []) == [];
  }
}
