/** A model of one recurrent layer whose weights never fail. It prefills and decodes, so the theorems
    about successful calls speak of something; and with counters that run backwards it shows that a
    failed greedy prefill can leave its text behind. */
module Example {
  import opened Foundation
  import opened Streaming
  import opened FlatIndex
  import opened ShiftRegister
  import opened Layer
  import opened Selectors
  import opened Model
  import opened Delivery
  import opened ModelExec
  import opened Rng
  import Gdn
  import PleValue
  import Qsa
  import Selection

  // ----- recurrent layers whose kernels never fail -----

  ghost predicate NeverFails(d: Gdn.Dims, k: Gdn.GdnKernels<F32>) {
    && (forall x: F32 :: k.finite(x)) && (forall x: F32 :: !k.positive(x))
    && (forall v: Row :: k.project(v).Some? && |k.project(v).value.qkv| == d.channels &&
                         |k.project(v).value.beta| == |k.project(v).value.alpha| == d.heads)
    && (forall n: nat, v: Row :: k.convDot(n, v).Some?)
    && (forall v: Row :: |v| == d.channels ==> k.activate(v).Some? && |k.activate(v).value| == d.channels)
    && (forall v: Row :: k.squareSum(v).Some?) && (forall x: F32 :: k.sigmoid(x).Some?)
    && (forall n: nat, x: F32 :: k.logDecay(n, x).Some?) && (forall v: Row, w: Row :: k.finish(v, w).Some?)
  }

  lemma MapAllSucceeds<X, Y>(f: X -> Option<Y>, xs: seq<X>)
    requires forall i :: 0 <= i < |xs| ==> f(xs[i]).Some?
    ensures MapAll(f, xs).Some?
  {
  }

  lemma HeadsSucceed(d: Gdn.Dims, k: Gdn.GdnKernels<F32>, activated: Row, beta: Row, alpha: Row)
    requires NeverFails(d, k) && |activated| == d.channels && |beta| == |alpha| == d.heads
    ensures MapAll(Gdn.HeadOf(d, k, activated, beta, alpha), Ids(d.heads)).Some?
  {
    hide Gdn.QueryAt, Gdn.KeyAt, Gdn.ValueAt, Gdn.Piece, MapAll;
    forall h | 0 <= h < d.heads ensures Gdn.HeadOf(d, k, activated, beta, alpha)(Ids(d.heads)[h]).Some? {
    }
    MapAllSucceeds(Gdn.HeadOf(d, k, activated, beta, alpha), Ids(d.heads));
  }

  lemma PreparedSucceeds(d: Gdn.Dims, k: Gdn.GdnKernels<F32>, conv: Row, input: Row)
    requires NeverFails(d, k) && |conv| == d.channels * Gdn.KERNEL_SIZE
    ensures Gdn.Prepared(d, k, conv, input).Some?
  {
    hide ShiftIn;
    var projected := k.project(input).value;
    var shifted := ShiftIn(conv, Gdn.KERNEL_SIZE, projected.qkv);
    forall i | 0 <= i < d.channels ensures Gdn.ConvDotOf(k, shifted)(Ids(d.channels)[i]).Some? {
      MulStep(i, d.channels, Gdn.KERNEL_SIZE);
    }
    MapAllSucceeds(Gdn.ConvDotOf(k, shifted), Ids(d.channels));
    var activated := k.activate(MapAll(Gdn.ConvDotOf(k, shifted), Ids(d.channels)).value).value;
    HeadsSucceed(d, k, activated, projected.beta, projected.alpha);
    hide Gdn.HeadOf, MapAll;
  }

  lemma TokenSucceeds(d: Gdn.Dims, k: Gdn.GdnKernels<F32>, view: Gdn.GdnView<F32>, input: Row)
    requires NeverFails(d, k) && Gdn.ViewShaped(d, view)
    ensures Gdn.GdnToken(d, k, view, input).Some? && Gdn.ViewShaped(d, Gdn.GdnToken(d, k, view, input).value.0)
    ensures Gdn.GdnToken(d, k, view, input).value.0.initialized
  {
    hide Gdn.Prepared, Gdn.StateAfter, Gdn.CoreOutput;
    PreparedSucceeds(d, k, view.conv, input);
  }

  lemma {:induction false} RunSucceeds(d: Gdn.Dims, k: Gdn.GdnKernels<F32>, view: Gdn.GdnView<F32>, hidden: seq<Row>)
    requires NeverFails(d, k) && Gdn.ViewShaped(d, view)
    ensures Run(Gdn.GdnStep(d, k), view, hidden).Some? && Gdn.ViewShaped(d, Run(Gdn.GdnStep(d, k), view, hidden).value.0)
    ensures hidden != [] ==> Run(Gdn.GdnStep(d, k), view, hidden).value.0.initialized
  {
    hide Gdn.GdnToken, Gdn.ViewShaped, NeverFails;
    if hidden != [] {
      var last := |hidden| - 1;
      RunSucceeds(d, k, view, hidden[..last]);
      TokenSucceeds(d, k, Run(Gdn.GdnStep(d, k), view, hidden[..last]).value.0, hidden[last]);
    }
  }

  ghost predicate LayerNeverFails(c: LayerConfig, k: LayerKernels) {
    && c.mixer.GdnMixer? && c.ple.None? && NeverFails(c.mixer.dims, k.gdn) && (forall x: F32 :: k.isZero(x))
    && (forall v: Row :: k.readForMixer(v).Some?) && (forall v: Row :: k.readForExperts(v).Some?) && (forall v: Row :: k.experts(v).Some?)
  }

  ghost predicate SlotShaped(c: LayerConfig, view: SlotView) {
    c.mixer.GdnMixer? && view.mixer.GdnPart? && view.ple.None? && Gdn.ViewShaped(c.mixer.dims, view.mixer.gdn)
  }

  lemma LayerSucceeds(c: LayerConfig, k: LayerKernels, capacity: nat, view: SlotView, tokens: seq<nat>, input: seq<Row>)
    requires LayerNeverFails(c, k) && SlotShaped(c, view) && input != [] && |tokens| == |input|
    ensures LayerCall(c, k, capacity, view, tokens, input).Some? && SlotShaped(c, LayerCall(c, k, capacity, view, tokens, input).value.0)
  {
    hide Gdn.GdnStep, Gdn.ViewShaped;
    MapAllSucceeds(k.readForMixer, input);
    var mixed := Mixed(MapAll(k.readForMixer, input).value);
    RunSucceeds(c.mixer.dims, k.gdn, view.mixer.gdn, mixed);
    MixerSucceeds(c, k, capacity, view.mixer, mixed);
    ExpertsSucceed(k, Written(k.write, input, MixerStage(c, k, capacity, view.mixer, mixed).value.1, MapAll(k.readForMixer, input).value));
    CopiesSucceed(c, k, capacity, view);
    hide Copies, MixerStage, ExpertStage;
  }

  lemma CopiesSucceed(c: LayerConfig, k: LayerKernels, capacity: nat, view: SlotView)
    requires LayerNeverFails(c, k) && SlotShaped(c, view)
    ensures Copies(c, k, capacity, view)
  {
  }

  lemma MixerSucceeds(c: LayerConfig, k: LayerKernels, capacity: nat, view: MixerView, mixed: seq<Row>)
    requires c.mixer.GdnMixer? && NeverFails(c.mixer.dims, k.gdn) && view.GdnPart? && Gdn.ViewShaped(c.mixer.dims, view.gdn) && mixed != []
    ensures MixerStage(c, k, capacity, view, mixed).Some? && MixerStage(c, k, capacity, view, mixed).value.0.GdnPart?
    ensures Gdn.ViewShaped(c.mixer.dims, MixerStage(c, k, capacity, view, mixed).value.0.gdn)
  {
    hide Gdn.GdnStep, Gdn.ViewShaped;
    RunSucceeds(c.mixer.dims, k.gdn, view.gdn, mixed);
  }

  lemma ExpertsSucceed(k: LayerKernels, after: seq<Row>)
    requires (forall v: Row :: k.readForExperts(v).Some?) && (forall v: Row :: k.experts(v).Some?)
    ensures ExpertStage(k, after).Some?
  {
    MapAllSucceeds(k.readForExperts, after);
    MapAllSucceeds(k.experts, Mixed(MapAll(k.readForExperts, after).value));
  }

  // ----- the example -----

  const DIMS: Gdn.Dims := Gdn.GdnDims(3, 1, 1, 1, 1)
  const LAYER: LayerConfig := LayerConfig(GdnMixer(DIMS), None)
  const CONFIG: ModelConfig := ModelConfig([LAYER], 4)
  const OPS: Gdn.Arith<F32> := Gdn.Arith(ZERO, (a: F32, b: F32) => a, (a: F32, b: F32) => a, (a: F32, b: F32) => a)

  function GdnExample(): Gdn.GdnKernels<F32> {
    Gdn.GdnKernels((x: F32) => true, OPS, (v: Row) => Some(Gdn.Projected([ZERO, ZERO, ZERO], [ZERO], [ZERO], [ZERO])), (n: nat, v: Row) => Some(ZERO),
                   (v: Row) => Some(v), (v: Row) => Some(ZERO), (x: F32) => x, (x: F32) => Some(x), (n: nat, x: F32) => Some(x), (x: F32) => false,
                   (x: F32) => x, ZERO, ZERO, ZERO, (v: Row, w: Row) => Some(v))
  }

  function LayerExample(): LayerKernels {
    LayerKernels(GdnExample(), (x: F32) => true,
                 Qsa.QsaKernels((x: F32) => true, (v: Row, n: nat) => None, (v: Row, w: seq<Row>, n: nat) => None, (v: Row, w: seq<Row>, x: seq<Row>) => None),
                 PleValue.ValueKernels((x: F32) => true, (n: nat, m: nat) => None, (v: Row, w: Row) => None, (n: nat, v: Row) => ZERO, (v: Row) => None,
                                       (x: F32, y: F32) => x),
                 (v: Row, w: Row) => v, (v: Row) => Some(GatedRead(v, [])), (v: Row) => Some(GatedRead(v, [])), (v: Row, w: Row, x: Row) => v,
                 (v: Row) => Some(v))
  }

  function ModelExample(countersSound: bool): ModelKernels {
    ModelKernels([LayerExample()], (token: nat) => Some([ZERO]), (v: Row) => Some(v), (v: Row) => Some(seq(VOCABULARY_SIZE, _ => ZERO)),
                 (token: nat) => [7], (token: nat) => false, (token: nat) => false, countersSound)
  }

  function GreedyExample<R>(): Select<R> { Greedy((x: F32) => true, (x: F32) => 0.0) }

  lemma LayerExampleNeverFails()
    ensures LayerNeverFails(LAYER, LayerExample()) && CONFIG.Valid()
  {
  }

  /** Layers never fail, from whatever slot of the right shape. */
  lemma ForwardSucceeds(sound: bool, slots: seq<SlotView>, tokens: seq<nat>)
    requires |slots| == 1 && SlotShaped(LAYER, slots[0]) && tokens != []
    ensures CONFIG.Valid() && Forward(CONFIG, ModelExample(sound), slots, tokens).Some?
    ensures var r := Forward(CONFIG, ModelExample(sound), slots, tokens).value; |r.0| == 1 && SlotShaped(LAYER, r.0[0]) && |r.1| == |tokens|
  {
    hide LayerNeverFails, SlotShaped, LayerCall;
    LayerExampleNeverFails();
    var k := ModelExample(sound);
    MapAllSucceeds(EmbedOf(k), tokens);
    var rows := MapAll(EmbedOf(k), tokens).value;
    LayerSucceeds(LAYER, LayerExample(), CONFIG.contextCapacity, slots[0], tokens, rows);
    assert StackRun(CONFIG, k, slots, tokens, rows, 0) == Some(([], rows));
    assert StackRun(CONFIG, k, slots, tokens, rows, 1).Some?;
  }

  /** On equal logits greedy selection takes token 0. */
  lemma ReachedSucceeds<R>(sound: bool, rng: R, row: Row, room: nat)
    requires room > 0
    ensures Reached(ModelExample(sound), GreedyExample<R>(), rng, row, room).Some?
    ensures Reached(ModelExample(sound), GreedyExample<R>(), rng, row, room).value.0.text == [7]
  {
    hide Selection.TopK;
    var logits: Row := seq(VOCABULARY_SIZE, _ => ZERO);
    var scores := Selection.Values(logits, (x: F32) => 0.0);
    assert LogitsOf(ModelExample(sound), row) == Some(logits);
    assert Selection.IsTopK(scores, VOCABULARY_SIZE, 1, [0]);
    Selection.IsTheTopK(scores, VOCABULARY_SIZE, 1, [0]);
  }

  lemma FreshIsShaped()
    ensures |FreshSlots(CONFIG)| == 1 && SlotShaped(LAYER, FreshSlots(CONFIG)[0])
  {
  }

  /** The premises of the theorem on incremental decoding can be met. */
  lemma DecodingHappens(room: nat)
    requires room > 0
    ensures CONFIG.Valid() && Prefilled(CONFIG, ModelExample(true), GreedyExample<()>(), (), room, [0]).Some?
    ensures var start := Prefilled(CONFIG, ModelExample(true), GreedyExample<()>(), (), room, [0]).value.0;
            Run(DecodeStep(CONFIG, ModelExample(true), GreedyExample<()>(), room), start, [0]).Some?
  {
    hide ModelExample, GreedyExample, Forward, Reached, SlotShaped, FreshSlots;
    LayerExampleNeverFails();
    FreshIsShaped();
    ExampleFits(true);
    var k, select := ModelExample(true), GreedyExample<()>();
    ForwardSucceeds(true, FreshSlots(CONFIG), [0]);
    var first := Forward(CONFIG, k, FreshSlots(CONFIG), [0]).value;
    ReachedSucceeds(true, (), first.1[0], room);
    var start := Prefilled(CONFIG, k, select, (), room, [0]).value.0;
    ForwardSucceeds(true, first.0, [0]);
    ReachedSucceeds(true, start.1, Forward(CONFIG, k, first.0, [0]).value.1[0], Min(room, STAGED_TEXT));
    StepDecodes(CONFIG, k, select, room, start, 0);
    PrefillEnds(CONFIG, k, select, (), room, [0]);
    assert start.0 == ModelView(1, first.0);
    DecodeEnds(CONFIG, k, select, start.1, room, start.0, 0);
    assert start == (start.0, start.1);
    assert Decoded(CONFIG, k, select, room, start, 0).Some?;
    RunOne(DecodeStep(CONFIG, k, select, room), start, 0);
  }

  lemma ExampleFits(sound: bool)
    ensures |ModelExample(sound).layers| == |CONFIG.layers| && ModelExample(sound).countersSound == sound
  {
  }

  lemma UnsoundReaches(g: Generator, room: nat)
    requires room > 0
    ensures CONFIG.Valid() && PrefillReached(CONFIG, ModelExample(false), GreedyExample<Generator>(), g, room, [0]).Some?
    ensures PrefillReached(CONFIG, ModelExample(false), GreedyExample<Generator>(), g, room, [0]).value.1.text == [7]
  {
    hide ModelExample, GreedyExample, Forward, Reached, SlotShaped, FreshSlots;
    LayerExampleNeverFails();
    FreshIsShaped();
    ExampleFits(false);
    ForwardSucceeds(false, FreshSlots(CONFIG), [0]);
    ReachedSucceeds(false, g, Forward(CONFIG, ModelExample(false), FreshSlots(CONFIG), [0]).value.1[0], room);
  }

  /** A greedy prefill that fails because the counters have run backwards: the caller's logits are as
      before, its text buffer is not. */
  method FailedPrefillLeavesText() returns (status: Status, before: seq<bv8>, after: seq<bv8>)
    ensures !status.Ok? && |before| == |after| == 1 && before != after
  {
    hide *;
    LayerExampleNeverFails();
    ExampleFits(false);
    var logits, text := new F32[VOCABULARY_SIZE](_ => ZERO), new bv8[1](_ => 0);
    var model := new ModelState(CONFIG, (r: seq<nat>) => 0);
    before := text[..];
    ghost var g := Seeded(0, 0);
    UnsoundReaches(g, 1);
    var selector := GreedySelector((x: F32) => true, (x: F32) => 0.0);
    GreedyIsReady(model, selector, g, logits, text);
    var output;
    status, output := model.PrefillSelect(ModelExample(false), [0], selector, g, logits, text, true, true);
    after := text[..];
    SevenIsWritten(before, after, PrefillReached(CONFIG, ModelExample(false), GreedyExample<Generator>(), g, 1, [0]).value.1);
  }

  lemma GreedyIsReady(model: ModelState, selector: Selector, g: Generator, logits: array<F32>, text: array<bv8>)
    requires selector == GreedySelector((x: F32) => true, (x: F32) => 0.0)
    requires logits !in model.Repr() && text !in model.Repr() && (logits as object) != (text as object)
    ensures selector.Holds(g) && model.Separate(selector, logits, text) && selector.Form() == GreedyExample<Generator>()
    ensures selector.Objects() == {} && Acceptable(CONFIG, [0])
  {
  }

  lemma SevenIsWritten(before: seq<bv8>, after: seq<bv8>, output: Output)
    requires |before| == 1 && output.text == [7] && TextAfter(before, after, Some(output))
    ensures |after| == 1 && after[0] == 7
  {
  }
}
