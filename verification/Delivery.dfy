/** The end of a call: a selector is run on the logits, and the text of the token it has chosen is
    decoded into a buffer. */
module Delivery {
  import opened Foundation
  import opened Selectors
  import opened Model
  import opened Rng
  import Sampler

  // ----- the caller's buffers -----

  /** A buffer after data has been written to its front. */
  function Overwritten<T>(buffer: seq<T>, data: seq<T>): (r: seq<T>)
    requires |data| <= |buffer|
    ensures |r| == |buffer| && forall i :: 0 <= i < |r| ==> r[i] == if i < |data| then data[i] else buffer[i]
  {
    data + buffer[|data|..]
  }

  method CopyOut<T>(buffer: array<T>, data: seq<T>)
    requires |data| <= buffer.Length
    modifies buffer
    ensures buffer[..] == Overwritten(old(buffer[..]), data)
  {
    for i := 0 to |data|
      invariant forall j :: 0 <= j < i ==> buffer[j] == data[j]
      invariant forall j :: i <= j < buffer.Length ==> buffer[j] == old(buffer[j])
    {
      buffer[i] := data[i];
    }
  }

  /** The tokenizer: it reports the size of the text whenever it gets that far, and writes the text
      when the capacity suffices. */
  method TokenizerDecode(text: seq<bv8>, fails: bool, utf8: array<bv8>) returns (status: Status, required: nat)
    modifies utf8
    ensures status.Ok? <==> !fails && |text| <= utf8.Length
    ensures status == BufferTooSmall <==> !fails && utf8.Length < |text|
    ensures required == if fails then 0 else |text|
    ensures utf8[..] == if status.Ok? then Overwritten(old(utf8[..]), text) else old(utf8[..])
  {
    required := 0;
    if fails {
      return KernelFailed, required;
    }
    required := |text|;
    if utf8.Length < |text| {
      return BufferTooSmall, required;
    }
    CopyOut(utf8, text);
    status := Ok;
  }

  // ----- selectors -----

  /** What the sampling selector works with: its configuration, a private copy of the generator, its
      scratch arrays, and logits to use instead of the model's. */
  class SampleContext {
    const config: Sampler.Config
    const replaced: Option<Row>
    const rng: RngState
    const order: array<nat>
    const temporary: array<nat>
    const probabilities: array<real>

    ghost predicate Sized() {
      && config.Valid(VOCABULARY_SIZE) && (replaced.Some? ==> |replaced.value| == VOCABULARY_SIZE)
      && order.Length == temporary.Length == probabilities.Length == VOCABULARY_SIZE && order != temporary
    }

    ghost function Objects(): set<object> {
      {rng, order, temporary, probabilities}
    }

    constructor (config: Sampler.Config, replaced: Option<Row>, source: RngState)
      requires config.Valid(VOCABULARY_SIZE) && (replaced.Some? ==> |replaced.value| == VOCABULARY_SIZE) && source.Valid()
      ensures Sized() && fresh(Objects()) && this.config == config && this.replaced == replaced
      ensures rng.Valid() && rng.View() == source.View()
    {
      this.config, this.replaced := config, replaced;
      order, temporary := new nat[VOCABULARY_SIZE], new nat[VOCABULARY_SIZE];
      probabilities := new real[VOCABULARY_SIZE];
      var copy := new RngState(0, 0, source.hash);
      var _ := source.Snapshot(copy);
      rng := copy;
    }
  }

  datatype Selector = GreedySelector(finite: F32 -> bool, value: F32 -> real) | SampledSelector(context: SampleContext) {
    ghost function Objects(): set<object> {
      if GreedySelector? then {} else context.Objects()
    }

    /** A sampling selector holds this generator; a greedy one holds none. */
    ghost predicate Holds(g: Generator)
      reads Objects()
    {
      SampledSelector? ==> context.Sized() && context.rng.Valid() && context.rng.View() == g
    }

    /** The selection that a selector stands for. */
    ghost function Form(): Select<Generator> {
      match this
      case GreedySelector(finite, value) => Greedy<Generator>(finite, value)
      case SampledSelector(context) => SampledOn(Sampler.Choice(context.config), context.replaced)
    }
  }

  /** Running a selector is its selection. */
  method RunSelector(selector: Selector, logits: Row, ghost g: Generator) returns (status: Status, token: nat)
    requires selector.Holds(g) && |logits| == VOCABULARY_SIZE
    modifies selector.Objects()
    ensures status.Ok? <==> selector.Form()(logits, g).Some?
    ensures status.Ok? ==> token == selector.Form()(logits, g).value.0 && selector.Holds(selector.Form()(logits, g).value.1)
  {
    hide Sampled, Sampler.Choice;
    match selector {
      case GreedySelector(finite, value) =>
        status, token := SelectGreedy(logits, finite, value, g);
      case SampledSelector(context) =>
        var row := if context.replaced.Some? then context.replaced.value else logits;
        status, token := Sampler.Sample(context.config, context.rng, row, context.order, context.temporary, context.probabilities);
    }
  }

  /** From the last row of a call to the text of the chosen token, which is written into `text`. The
      caller has `room` for it. */
  method Deliver(k: ModelKernels, selector: Selector, row: Row, text: array<bv8>, room: nat, ghost g: Generator)
    returns (status: Status, output: Option<Output>)
    requires selector.Holds(g) && room <= text.Length && text !in selector.Objects()
    modifies selector.Objects(), text
    ensures status.Ok? <==> Reached(k, selector.Form(), g, row, room).Some?
    ensures status.Ok? ==> var r := Reached(k, selector.Form(), g, row, room).value;
                           output == Some(r.0) && selector.Holds(r.1) && |r.0.text| <= |old(text[..])| && text[..] == Overwritten(old(text[..]), r.0.text)
    ensures status.Ok? ==> |output.value.logits| == VOCABULARY_SIZE && |output.value.text| <= room
    ensures !status.Ok? ==> output == None && text[..] == old(text[..])
  {
    hide Selector.Form, Sampler.Config.Valid;
    output := None;
    var hidden := k.mix(row);
    if hidden.None? {
      return KernelFailed, None;
    }
    var logits := Shaped(k.head(hidden.value), VOCABULARY_SIZE);
    if logits.None? {
      return KernelFailed, None;
    }
    var token;
    status, token := RunSelector(selector, logits.value, g);
    if !status.Ok? {
      return;
    }
    if token >= TOKEN_LIMIT {
      return InvalidTokenId, None;
    }
    status := DecodeToken(k, token, text, room);
    if status.Ok? {
      output := Some(Output(logits.value, token, token in EOG_TOKENS, k.text(token)));
    }
  }

  /** The two requests to the tokenizer. A request for the size that reports success has found an
      empty text. */
  method DecodeToken(k: ModelKernels, token: nat, text: array<bv8>, room: nat) returns (status: Status)
    requires room <= text.Length
    modifies text
    ensures status.Ok? <==> TextFits(k, token, room)
    ensures status.Ok? ==> |k.text(token)| <= |old(text[..])| && text[..] == Overwritten(old(text[..]), k.text(token))
    ensures !status.Ok? ==> text[..] == old(text[..])
  {
    var nowhere := new bv8[0];
    var required;
    status, required := TokenizerDecode(k.text(token), k.sizingFails(token), nowhere);
    if status != BufferTooSmall && !(status.Ok? && required == 0) {
      return;
    }
    if room < required {
      return BufferTooSmall;
    }
    status, required := TokenizerDecode(k.text(token), k.decodingFails(token), text);
  }
}
