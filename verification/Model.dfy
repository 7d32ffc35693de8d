/** The whole model as a function of values: embedding, a stack of layers, the head, the selection.
    A prefill pushes all tokens of a prompt through one layer after the other; a decode step pushes
    one token through all layers. */
module Model {
  import opened Foundation
  import opened Streaming
  import opened Layer
  import opened Selectors

  const TOKEN_LIMIT: nat := 248077
  const EOG_TOKENS: set<nat> := {248044, 248046}
  const STAGED_TEXT: nat := 1024

  datatype ModelConfig = ModelConfig(layers: seq<LayerConfig>, contextCapacity: nat) {
    ghost predicate Valid() {
      2 <= contextCapacity <= UINT32_MAX && forall i :: 0 <= i < |layers| ==> layers[i].Valid()
    }
  }

  /** Weights, tokenizer and counters: deterministic during a call, free to fail at any point. The
      tokenizer is asked twice about a token, for the size of its text and for the text, and either
      request can fail. A counter that is found to run backwards before the text is decoded counts as
      a failure of the stage before it; `countersSound` is the check after that. */
  datatype ModelKernels = ModelKernels(
    layers: seq<LayerKernels>,
    embed: nat -> Option<Row>,
    mix: Row -> Option<Row>,
    head: Row -> Option<Row>,
    text: nat -> seq<bv8>,
    sizingFails: nat -> bool,
    decodingFails: nat -> bool,
    countersSound: bool)

  /** What a successful call writes to its caller. */
  datatype Output = Output(logits: Row, token: nat, endOfGeneration: bool, text: seq<bv8>)

  datatype ModelView = ModelView(position: nat, slots: seq<SlotView>)

  function FreshSlots(c: ModelConfig): (r: seq<SlotView>)
    ensures |r| == |c.layers| && forall i :: 0 <= i < |r| ==> r[i] == FreshSlot(c.layers[i])
  {
    seq(|c.layers|, i requires 0 <= i < |c.layers| => FreshSlot(c.layers[i]))
  }

  /** The four residual branches start as copies of the embedding. */
  function EmbedOf(k: ModelKernels): nat -> Option<Row> {
    (token: nat) => match k.embed(token) case None => None case Some(row) => Some(row + row + row + row)
  }

  /** Each of the four branches of a token's first row is its embedding. */
  lemma BranchesStartEqual(k: ModelKernels, token: nat, n: nat)
    requires k.embed(token).Some? && n == |k.embed(token).value|
    ensures EmbedOf(k)(token).Some? && |EmbedOf(k)(token).value| == n + n + n + n
    ensures var row, e := EmbedOf(k)(token).value, k.embed(token).value;
            row[..n] == e && row[n..n + n] == e && row[n + n..n + n + n] == e && row[n + n + n..] == e
  {
    FourCopies(k.embed(token).value);
  }

  lemma FourCopies(e: Row)
    ensures var n, row := |e|, e + e + e + e;
            row[..n] == e && row[n..n + n] == e && row[n + n..n + n + n] == e && row[n + n + n..] == e
  {
  }

  predicate Fits(c: ModelConfig, k: ModelKernels, slots: seq<SlotView>) {
    |c.layers| == |k.layers| == |slots|
  }

  /** The first n layers, each over all rows. */
  ghost function StackRun(c: ModelConfig, k: ModelKernels, slots: seq<SlotView>, tokens: seq<nat>, input: seq<Row>, n: nat):
    (r: Option<(seq<SlotView>, seq<Row>)>)
    requires c.Valid() && Fits(c, k, slots) && n <= |c.layers|
    ensures r.Some? ==> |r.value.0| == n && |r.value.1| == |input|
  {
    if n == 0 then Some(([], input))
    else
      match StackRun(c, k, slots, tokens, input, n - 1)
      case None => None
      case Some((before, rows)) =>
        match LayerCall(c.layers[n - 1], k.layers[n - 1], c.contextCapacity, slots[n - 1], tokens, rows)
        case None => None
        case Some((slot, output)) => Some((before + [slot], output))
  }

  /** Embedding and all layers. */
  ghost function Forward(c: ModelConfig, k: ModelKernels, slots: seq<SlotView>, tokens: seq<nat>):
    (r: Option<(seq<SlotView>, seq<Row>)>)
    requires c.Valid() && Fits(c, k, slots)
    ensures r.Some? ==> |r.value.0| == |slots| && |r.value.1| == |tokens|
  {
    match MapAll(EmbedOf(k), tokens)
    case None => None
    case Some(rows) => StackRun(c, k, slots, tokens, rows, |c.layers|)
  }

  /** The logits of a final row. */
  function LogitsOf(k: ModelKernels, row: Row): (r: Option<Row>)
    ensures r.Some? ==> |r.value| == VOCABULARY_SIZE
  {
    match k.mix(row)
    case None => None
    case Some(hidden) => Shaped(k.head(hidden), VOCABULARY_SIZE)
  }

  /** The tokenizer delivers a token's text into a buffer with this much room. */
  predicate TextFits(k: ModelKernels, token: nat, room: nat) {
    !k.sizingFails(token) && |k.text(token)| <= room && !k.decodingFails(token)
  }

  /** Logits, selection, text: everything up to the last check of the counters. */
  function Reached<R>(k: ModelKernels, select: Select<R>, rng: R, row: Row, room: nat): Option<(Output, R)> {
    match LogitsOf(k, row)
    case None => None
    case Some(logits) =>
      match select(logits, rng)
      case None => None
      case Some((token, after)) =>
        if token >= TOKEN_LIMIT || !TextFits(k, token, room) then None
        else Some((Output(logits, token, token in EOG_TOKENS, k.text(token)), after))
  }

  /** When the end of a call is reached, and with what: head of the mixed row, the selector's choice
      from these logits, a token that exists, a text that fits, and the flag of the two tokens that end
      a generation. */
  lemma ReachedExactly<R>(k: ModelKernels, select: Select<R>, rng: R, row: Row, room: nat, output: Output, after: R)
    ensures Reached(k, select, rng, row, room) == Some((output, after)) <==>
              && k.mix(row).Some? && k.head(k.mix(row).value) == Some(output.logits) && |output.logits| == 248320
              && select(output.logits, rng) == Some((output.token, after)) && output.token < 248077
              && !k.sizingFails(output.token) && !k.decodingFails(output.token)
              && output.text == k.text(output.token) && |output.text| <= room
              && (output.endOfGeneration <==> output.token == 248044 || output.token == 248046)
  {
    if k.mix(row).Some? && k.head(k.mix(row).value).Some? {
      var logits := k.head(k.mix(row).value).value;
      if |logits| == VOCABULARY_SIZE && select(logits, rng).Some? {
        var (token, _) := select(logits, rng).value;
        assert token in EOG_TOKENS <==> token == 248044 || token == 248046;
      }
    }
  }

  predicate Canonical(tokens: seq<nat>) {
    forall i :: 0 <= i < |tokens| ==> tokens[i] < TOKEN_LIMIT
  }

  /** A prompt is accepted when it leaves room for at least one more token. */
  predicate Acceptable(c: ModelConfig, tokens: seq<nat>) {
    0 < |tokens| < c.contextCapacity && Canonical(tokens)
  }

  /** What a prefill of a prompt computes from the fresh state, up to the last check. */
  ghost function PrefillReached<R>(c: ModelConfig, k: ModelKernels, select: Select<R>, rng: R, room: nat, tokens: seq<nat>):
    Option<((ModelView, R), Output)>
    requires c.Valid() && |c.layers| == |k.layers|
  {
    if !Acceptable(c, tokens) then None
    else
      match Forward(c, k, FreshSlots(c), tokens)
      case None => None
      case Some((slots, rows)) =>
        match Reached(k, select, rng, rows[|rows| - 1], room)
        case None => None
        case Some((output, after)) => Some(((ModelView(|tokens|, slots), after), output))
  }

  ghost function Prefilled<R>(c: ModelConfig, k: ModelKernels, select: Select<R>, rng: R, room: nat, tokens: seq<nat>):
    Option<((ModelView, R), Output)>
    requires c.Valid() && |c.layers| == |k.layers|
  {
    if k.countersSound then PrefillReached(c, k, select, rng, room, tokens) else None
  }

  /** How a prefill that was let in goes on after the layers. */
  lemma PrefillEnds<R>(c: ModelConfig, k: ModelKernels, select: Select<R>, rng: R, room: nat, tokens: seq<nat>)
    requires c.Valid() && |c.layers| == |k.layers| && Acceptable(c, tokens)
    ensures Forward(c, k, FreshSlots(c), tokens).None? ==> PrefillReached(c, k, select, rng, room, tokens).None?
    ensures Forward(c, k, FreshSlots(c), tokens).Some? ==>
              var (slots, rows) := Forward(c, k, FreshSlots(c), tokens).value;
              PrefillReached(c, k, select, rng, room, tokens) ==
              match Reached(k, select, rng, rows[|tokens| - 1], room)
              case None => None
              case Some((output, after)) => Some(((ModelView(|tokens|, slots), after), output))
  {
    hide Forward, Reached;
  }

  predicate Live(c: ModelConfig, view: ModelView, token: nat) {
    0 < view.position < c.contextCapacity && token < TOKEN_LIMIT
  }

  /** What a decode step computes from a live state; its text goes through a staging buffer. */
  ghost function Decoded<R>(c: ModelConfig, k: ModelKernels, select: Select<R>, room: nat, s: (ModelView, R), token: nat):
    Option<((ModelView, R), Output)>
    requires c.Valid() && |c.layers| == |k.layers|
  {
    if !Live(c, s.0, token) || |s.0.slots| != |c.layers| || !k.countersSound then None
    else
      match Forward(c, k, s.0.slots, [token])
      case None => None
      case Some((slots, rows)) =>
        match Reached(k, select, s.1, rows[0], Min(room, STAGED_TEXT))
        case None => None
        case Some((output, after)) => Some(((ModelView(s.0.position + 1, slots), after), output))
  }

  /** How a decode step that was let in goes on after the layers. */
  lemma DecodeEnds<R>(c: ModelConfig, k: ModelKernels, select: Select<R>, rng: R, room: nat, view: ModelView, token: nat)
    requires c.Valid() && |c.layers| == |k.layers| == |view.slots| && Live(c, view, token)
    ensures Forward(c, k, view.slots, [token]).None? ==> Decoded(c, k, select, room, (view, rng), token).None?
    ensures Forward(c, k, view.slots, [token]).Some? ==>
              var (slots, rows) := Forward(c, k, view.slots, [token]).value;
              Decoded(c, k, select, room, (view, rng), token) ==
              if !k.countersSound then None
              else
                match Reached(k, select, rng, rows[0], Min(room, STAGED_TEXT))
                case None => None
                case Some((output, after)) => Some(((ModelView(view.position + 1, slots), after), output))
  {
    hide Forward, Reached;
  }

  ghost function DecodeStep<R>(c: ModelConfig, k: ModelKernels, select: Select<R>, room: nat): Step<(ModelView, R), nat, Output>
    requires c.Valid() && |c.layers| == |k.layers|
  {
    (s: (ModelView, R), token: nat) => Decoded(c, k, select, room, s, token)
  }

  // ----- layer-major and token-major agree -----

  /** A stack run over a + b is a stack run over a and then one over b on what it left. */
  lemma {:induction false} StackAppend(c: ModelConfig, k: ModelKernels, slots: seq<SlotView>, middle: seq<SlotView>,
                                       ta: seq<nat>, a: seq<Row>, tb: seq<nat>, b: seq<Row>, n: nat)
    requires c.Valid() && Fits(c, k, slots) && Fits(c, k, middle) && n <= |c.layers|
    requires StackRun(c, k, slots, ta, a, n).Some? && StackRun(c, k, slots, ta, a, n).value.0 == middle[..n]
    requires StackRun(c, k, middle, tb, b, n).Some?
    ensures StackRun(c, k, slots, ta + tb, a + b, n) ==
            Some((StackRun(c, k, middle, tb, b, n).value.0, StackRun(c, k, slots, ta, a, n).value.1 + StackRun(c, k, middle, tb, b, n).value.1))
  {
    hide LayerCall;
    if n > 0 {
      var ra := StackRun(c, k, slots, ta, a, n - 1).value;
      var rb := StackRun(c, k, middle, tb, b, n - 1).value;
      assert ra.0 == middle[..n - 1] by {
        assert middle[..n][..n - 1] == middle[..n - 1];
      }
      StackAppend(c, k, slots, middle, ta, a, tb, b, n - 1);
      assert middle[n - 1] == middle[..n][n - 1];
      LayerCallAppend(c.layers[n - 1], k.layers[n - 1], c.contextCapacity, slots[n - 1], ta, ra.1, tb, rb.1);
    }
  }

  /** The same for embedding and stack together. */
  lemma ForwardAppend(c: ModelConfig, k: ModelKernels, slots: seq<SlotView>, a: seq<nat>, b: seq<nat>)
    requires c.Valid() && Fits(c, k, slots) && Forward(c, k, slots, a).Some?
    requires Forward(c, k, Forward(c, k, slots, a).value.0, b).Some?
    ensures var first := Forward(c, k, slots, a).value; var second := Forward(c, k, first.0, b).value;
            Forward(c, k, slots, a + b) == Some((second.0, first.1 + second.1))
  {
    hide StackRun, MapAll;
    var first := Forward(c, k, slots, a).value;
    var ra, rb := MapAll(EmbedOf(k), a).value, MapAll(EmbedOf(k), b).value;
    MapAllAppend(EmbedOf(k), a, b);
    assert first.0[..|c.layers|] == first.0;
    StackAppend(c, k, slots, first.0, a, ra, b, rb, |c.layers|);
  }

  /** The state and the logits are those of one forward pass over the whole sequence, from reset. */
  ghost predicate Recomputes(c: ModelConfig, k: ModelKernels, view: ModelView, logits: Row, whole: seq<nat>)
    requires c.Valid() && |c.layers| == |k.layers|
  {
    && whole != [] && Canonical(whole) && view.position == |whole| && |view.slots| == |c.layers|
    && Forward(c, k, FreshSlots(c), whole).Some?
    && view.slots == Forward(c, k, FreshSlots(c), whole).value.0
    && LogitsOf(k, Forward(c, k, FreshSlots(c), whole).value.1[|whole| - 1]) == Some(logits)
  }

  /** Any number of decode steps after a prefill leave what one forward pass over all tokens leaves. */
  lemma {:induction false} DecodesAreOneForward<R>(c: ModelConfig, k: ModelKernels, select: Select<R>, rng: R, room: nat, p: seq<nat>, ts: seq<nat>)
    requires c.Valid() && |c.layers| == |k.layers| && Prefilled(c, k, select, rng, room, p).Some? && ts != []
    requires Run(DecodeStep(c, k, select, room), Prefilled(c, k, select, rng, room, p).value.0, ts).Some?
    ensures var r := Run(DecodeStep(c, k, select, room), Prefilled(c, k, select, rng, room, p).value.0, ts).value;
            Recomputes(c, k, r.0.0, r.1[|ts| - 1].logits, p + ts)
    decreases |ts|
  {
    hide Recomputes, Decoded, Prefilled, Run, DecodeStep;
    var step, start := DecodeStep(c, k, select, room), Prefilled(c, k, select, rng, room, p).value.0;
    var last := |ts| - 1;
    RunLast(step, start, ts);
    var before := Run(step, start, ts[..last]).value.0;
    var logits;
    if last == 0 {
      assert p + ts[..last] == p;
      RunNone(step, start);
      PrefillIsForward(c, k, select, rng, room, p);
      logits := Prefilled(c, k, select, rng, room, p).value.1.logits;
    } else {
      DecodesAreOneForward(c, k, select, rng, room, p, ts[..last]);
      logits := Run(step, start, ts[..last]).value.1[last - 1].logits;
    }
    StepDecodes(c, k, select, room, before, ts[last]);
    OneMoreDecode(c, k, select, room, before, logits, ts[last], p + ts[..last]);
    assert (p + ts[..last]) + [ts[last]] == p + ts;
  }

  lemma RunNone<S, X, Y>(step: Step<S, X, Y>, s: S)
    ensures Run(step, s, []) == Some((s, []))
  {
  }

  lemma PrefillIsForward<R>(c: ModelConfig, k: ModelKernels, select: Select<R>, rng: R, room: nat, p: seq<nat>)
    requires c.Valid() && |c.layers| == |k.layers| && Prefilled(c, k, select, rng, room, p).Some?
    ensures var r := Prefilled(c, k, select, rng, room, p).value; Recomputes(c, k, r.0.0, r.1.logits, p)
  {
    hide Forward, LogitsOf;
  }

  lemma OneMoreDecode<R>(c: ModelConfig, k: ModelKernels, select: Select<R>, room: nat, s: (ModelView, R), logits: Row, token: nat, prefix: seq<nat>)
    requires c.Valid() && |c.layers| == |k.layers| && Decoded(c, k, select, room, s, token).Some?
    requires Recomputes(c, k, s.0, logits, prefix)
    ensures var r := Decoded(c, k, select, room, s, token).value; Recomputes(c, k, r.0.0, r.1.logits, prefix + [token])
  {
    hide Forward, LogitsOf;
    ForwardAppend(c, k, FreshSlots(c), prefix, [token]);
  }

  /** Incremental decoding equals recomputation: when a prompt is prefilled and tokens are then
      decoded one by one, a prefill of the whole sequence -- if it is short enough to be accepted --
      succeeds too and leaves the same state in every layer, the same logits, the same token, text
      and generator state, given the generator state of the last step. */
  lemma DecodingEqualsRecomputation<R>(c: ModelConfig, k: ModelKernels, select: Select<R>, rng: R, room: nat, p: seq<nat>, ts: seq<nat>)
    requires c.Valid() && |c.layers| == |k.layers| && Prefilled(c, k, select, rng, room, p).Some? && ts != []
    requires Run(DecodeStep(c, k, select, room), Prefilled(c, k, select, rng, room, p).value.0, ts).Some?
    requires |p + ts| < c.contextCapacity
    ensures var start := Prefilled(c, k, select, rng, room, p).value.0;
            var earlier := Run(DecodeStep(c, k, select, room), start, ts[..|ts| - 1]);
            var all := Run(DecodeStep(c, k, select, room), start, ts).value;
            && earlier.Some?
            && Prefilled(c, k, select, earlier.value.0.1, room, p + ts) == Some((all.0, all.1[|ts| - 1]))
  {
    hide Recomputes, Decoded, Prefilled, Run, DecodeStep;
    var step, start := DecodeStep(c, k, select, room), Prefilled(c, k, select, rng, room, p).value.0;
    var last := |ts| - 1;
    RunLast(step, start, ts);
    DecodesAreOneForward(c, k, select, rng, room, p, ts);
    var earlier := Run(step, start, ts[..last]).value.0;
    StepDecodes(c, k, select, room, earlier, ts[last]);
    LastStepIsPrefill(c, k, select, room, earlier, ts[last], p + ts);
  }

  lemma StepDecodes<R>(c: ModelConfig, k: ModelKernels, select: Select<R>, room: nat, s: (ModelView, R), token: nat)
    requires c.Valid() && |c.layers| == |k.layers|
    ensures DecodeStep(c, k, select, room)(s, token) == Decoded(c, k, select, room, s, token)
  {
  }

  /** A decode step that agrees with a forward pass over a whole prompt is the prefill of it. */
  lemma LastStepIsPrefill<R>(c: ModelConfig, k: ModelKernels, select: Select<R>, room: nat, s: (ModelView, R), token: nat, whole: seq<nat>)
    requires c.Valid() && |c.layers| == |k.layers| && |whole| < c.contextCapacity
    requires Decoded(c, k, select, room, s, token).Some?
    requires var r := Decoded(c, k, select, room, s, token).value; Recomputes(c, k, r.0.0, r.1.logits, whole)
    ensures Prefilled(c, k, select, s.1, room, whole) == Decoded(c, k, select, room, s, token)
  {
    hide Forward, LogitsOf, Reached;
    var row := Forward(c, k, s.0.slots, [token]).value.1[0];
    var other := Forward(c, k, FreshSlots(c), whole).value.1[|whole| - 1];
    RoomToSpare(k, select, s.1, row, other, room);
  }

  /** More room for the text changes nothing once the text has fitted. */
  lemma RoomToSpare<R>(k: ModelKernels, select: Select<R>, rng: R, row: Row, other: Row, room: nat)
    requires Reached(k, select, rng, row, Min(room, STAGED_TEXT)).Some?
    requires LogitsOf(k, other) == Some(Reached(k, select, rng, row, Min(room, STAGED_TEXT)).value.0.logits)
    ensures Reached(k, select, rng, other, room) == Reached(k, select, rng, row, Min(room, STAGED_TEXT))
  {
  }

  // ----- positions -----

  predicate AllAtPosition(c: ModelConfig, slots: seq<SlotView>, position: nat) {
    |slots| == |c.layers| && forall i :: 0 <= i < |slots| ==> AtPosition(c.layers[i], slots[i], position)
  }

  /** Every layer moves on by the number of tokens. */
  lemma {:induction false} StackAdvances(c: ModelConfig, k: ModelKernels, slots: seq<SlotView>, position: nat, tokens: seq<nat>, input: seq<Row>, n: nat)
    requires c.Valid() && Fits(c, k, slots) && n <= |c.layers| && AllAtPosition(c, slots, position)
    requires StackRun(c, k, slots, tokens, input, n).Some?
    ensures forall i :: 0 <= i < n ==>
              AtPosition(c.layers[i], StackRun(c, k, slots, tokens, input, n).value.0[i], position + |tokens|)
  {
    hide LayerCall, AtPosition;
    if n > 0 {
      StackAdvances(c, k, slots, position, tokens, input, n - 1);
      var rows := StackRun(c, k, slots, tokens, input, n - 1).value.1;
      LayerAdvances(c.layers[n - 1], k.layers[n - 1], c.contextCapacity, slots[n - 1], position, tokens, rows);
    }
  }
}
