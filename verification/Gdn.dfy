/** The gated delta-net operator: a four-tap convolution register and a recurrent matrix per head,
    both updated in place on a working copy and committed when the call is over. The arithmetic is
    a parameter, so one model serves floats of unknown rounding and exact reals. */
module Gdn {
  import opened Foundation
  import opened Streaming
  import opened FlatIndex
  import opened ShiftRegister

  const KERNEL_SIZE: nat := 4

  datatype GdnDims = GdnDims(channels: nat, keyHeads: nat, heads: nat, keyDim: nat, valueDim: nat) {
    function HeadSize(): nat { keyDim * valueDim }

    function KeyWidth(): nat { keyHeads * keyDim }

    function ValueWidth(): nat { heads * valueDim }

    /** Queries, keys and values lie behind one another; a key head serves several value heads. */
    predicate Consistent() {
      0 < keyHeads && 0 < heads && heads % keyHeads == 0 && 0 < keyDim && 0 < valueDim && channels == 2 * KeyWidth() + ValueWidth()
    }

    function Repeat(): nat requires Consistent() { heads / keyHeads }
  }

  /** The dimensions that a configuration can have. */
  type Dims = d: GdnDims | d.Consistent() witness GdnDims(3, 1, 1, 1, 1)

  datatype Arith<!F> = Arith(zero: F, add: (F, F) -> F, sub: (F, F) -> F, mul: (F, F) -> F)

  datatype Projected<F> = Projected(qkv: seq<F>, gate: seq<F>, beta: seq<F>, alpha: seq<F>)

  /** One head's inputs to the recurrence, normalised and scaled. */
  datatype Head<F> = Head(query: seq<F>, key: seq<F>, value: seq<F>, beta: F, decay: F)

  datatype GdnKernels<!F> = GdnKernels(
    finite: F -> bool,
    ops: Arith<F>,
    project: seq<F> -> Option<Projected<F>>,
    convDot: (nat, seq<F>) -> Option<F>,
    activate: seq<F> -> Option<seq<F>>,
    squareSum: seq<F> -> Option<F>,
    inverseRoot: F -> F,
    sigmoid: F -> Option<F>,
    logDecay: (nat, F) -> Option<F>,
    positive: F -> bool,
    exp: F -> F,
    epsilon: F,
    one: F,
    queryScale: F,
    finish: (seq<F>, seq<F>) -> Option<seq<F>>)

  /** What a slot stores. */
  datatype GdnView<F> = GdnView(conv: seq<F>, recurrent: seq<F>, initialized: bool)

  function FreshGdn<F>(d: GdnDims, zero: F): GdnView<F> {
    GdnView(seq(d.channels * KERNEL_SIZE, _ => zero), seq(d.heads * d.HeadSize(), _ => zero), false)
  }

  // ----- the recurrence of one head -----

  predicate HeadShaped<F>(d: GdnDims, h: Head<F>) {
    |h.query| == d.keyDim && |h.key| == d.keyDim && |h.value| == d.valueDim
  }

  function Decayed<F>(ops: Arith<F>, state: seq<F>, decay: F): (r: seq<F>)
    ensures |r| == |state|
  {
    seq(|state|, i requires 0 <= i < |state| => ops.mul(state[i], decay))
  }

  /** The sum over the first n key features of column f of the state times a vector. */
  function ColumnDot<F>(d: GdnDims, ops: Arith<F>, state: seq<F>, vector: seq<F>, f: nat, n: nat): F
    requires |state| == d.HeadSize() && |vector| == d.keyDim && f < d.valueDim && n <= d.keyDim
  {
    if n == 0 then ops.zero
    else ops.add(ColumnDot(d, ops, state, vector, f, n - 1),
                 ops.mul(state[At(n - 1, f, d.valueDim, d.keyDim)], vector[n - 1]))
  }

  function Columns<F>(d: GdnDims, ops: Arith<F>, state: seq<F>, vector: seq<F>): (r: seq<F>)
    requires |state| == d.HeadSize() && |vector| == d.keyDim
    ensures |r| == d.valueDim
  {
    seq(d.valueDim, f requires 0 <= f < d.valueDim => ColumnDot(d, ops, state, vector, f, d.keyDim))
  }

  /** What the value misses of what is read back, times beta. */
  function Delta<F>(d: GdnDims, ops: Arith<F>, decayed: seq<F>, h: Head<F>): (r: seq<F>)
    requires |decayed| == d.HeadSize() && HeadShaped(d, h)
    ensures |r| == d.valueDim
  {
    seq(d.valueDim, f requires 0 <= f < d.valueDim =>
      ops.mul(ops.sub(h.value[f], ColumnDot(d, ops, decayed, h.key, f, d.keyDim)), h.beta))
  }

  /** The state with key times delta added cell by cell. */
  function Written<F>(d: GdnDims, ops: Arith<F>, decayed: seq<F>, key: seq<F>, delta: seq<F>): (r: seq<F>)
    requires |decayed| == d.HeadSize() && |key| == d.keyDim && |delta| == d.valueDim
    ensures |r| == d.HeadSize()
  {
    seq(d.HeadSize(), i requires 0 <= i < d.HeadSize() =>
      Cell(i, d);
      ops.add(decayed[i], ops.mul(key[i / d.valueDim], delta[i % d.valueDim])))
  }

  lemma Cell(i: nat, d: GdnDims)
    requires i < d.HeadSize()
    ensures d.valueDim > 0 && i / d.valueDim < d.keyDim && i % d.valueDim < d.valueDim
  {
    if d.valueDim > 0 {
      InTable(i, d.valueDim, d.keyDim);
    }
  }

  function HeadState<F>(d: GdnDims, ops: Arith<F>, state: seq<F>, h: Head<F>): (r: seq<F>)
    requires |state| == d.HeadSize() && HeadShaped(d, h)
    ensures |r| == d.HeadSize()
  {
    var decayed := Decayed(ops, state, h.decay);
    Written(d, ops, decayed, h.key, Delta(d, ops, decayed, h))
  }

  function HeadOutput<F>(d: GdnDims, ops: Arith<F>, state: seq<F>, h: Head<F>): (r: seq<F>)
    requires |state| == d.HeadSize() && HeadShaped(d, h)
    ensures |r| == d.valueDim
  {
    Columns(d, ops, HeadState(d, ops, state, h), h.query)
  }

  // ----- all heads of one token -----

  predicate HeadsShaped<F>(d: GdnDims, heads: seq<Head<F>>) {
    |heads| == d.heads && forall h :: 0 <= h < |heads| ==> HeadShaped(d, heads[h])
  }

  function Segment<F>(d: GdnDims, state: seq<F>, h: nat): (r: seq<F>)
    requires |state| == d.heads * d.HeadSize() && h < d.heads
    ensures |r| == d.HeadSize()
  {
    MulStep(h, d.heads, d.HeadSize());
    state[h * d.HeadSize()..h * d.HeadSize() + d.HeadSize()]
  }

  function WithSegment<F>(d: GdnDims, state: seq<F>, h: nat, segment: seq<F>): (r: seq<F>)
    requires |state| == d.heads * d.HeadSize() && h < d.heads && |segment| == d.HeadSize()
    ensures |r| == |state|
  {
    MulStep(h, d.heads, d.HeadSize());
    state[..h * d.HeadSize()] + segment + state[h * d.HeadSize() + d.HeadSize()..]
  }

  /** The recurrent state after the first n heads have been updated, in order. */
  function StateAfter<F>(d: GdnDims, ops: Arith<F>, state: seq<F>, heads: seq<Head<F>>, n: nat): (r: seq<F>)
    requires |state| == d.heads * d.HeadSize() && HeadsShaped(d, heads) && n <= d.heads
    ensures |r| == |state|
  {
    if n == 0 then state
    else
      var before := StateAfter(d, ops, state, heads, n - 1);
      WithSegment(d, before, n - 1, HeadState(d, ops, Segment(d, before, n - 1), heads[n - 1]))
  }

  function CoreOutput<F>(d: GdnDims, ops: Arith<F>, state: seq<F>, heads: seq<Head<F>>, n: nat): seq<F>
    requires |state| == d.heads * d.HeadSize() && HeadsShaped(d, heads) && n <= d.heads
  {
    if n == 0 then []
    else CoreOutput(d, ops, state, heads, n - 1) +
         HeadOutput(d, ops, Segment(d, StateAfter(d, ops, state, heads, n - 1), n - 1), heads[n - 1])
  }

  // ----- the inputs of the recurrence -----

  /** A vector times the inverse root of its square sum plus epsilon, times a scale. */
  function Normalised<F>(k: GdnKernels<F>, vector: seq<F>, scale: F): (r: Option<seq<F>>)
    ensures r.Some? ==> |r.value| == |vector|
  {
    match k.squareSum(vector)
    case None => None
    case Some(sum) =>
      var inverse := k.inverseRoot(k.ops.add(sum, k.epsilon));
      if !k.finite(inverse) || !k.finite(scale) then None
      else Some(seq(|vector|, i requires 0 <= i < |vector| => k.ops.mul(k.ops.mul(vector[i], inverse), scale)))
  }

  /** The decay of a head: the logarithm must be finite and not positive. */
  function DecayOf<F>(k: GdnKernels<F>, h: nat, alpha: F): Option<F> {
    match k.logDecay(h, alpha)
    case None => None
    case Some(log) => if !k.finite(log) || k.positive(log) || !k.finite(k.exp(log)) then None else Some(k.exp(log))
  }

  lemma PiecesFit(d: Dims, h: nat)
    requires h < d.heads
    ensures d.Repeat() > 0 && h / d.Repeat() < d.keyHeads
    ensures h / d.Repeat() * d.keyDim + d.keyDim <= d.KeyWidth()
    ensures h * d.valueDim + d.valueDim <= d.ValueWidth()
  {
    var n := d.heads / d.keyHeads;
    assert d.heads == n * d.keyHeads;
    assert n > 0;
    assert h < d.keyHeads * n;
    InTable(h, n, d.keyHeads);
    MulStep(h / n, d.keyHeads, d.keyDim);
    MulStep(h, d.heads, d.valueDim);
  }

  lemma ChannelsHold(d: Dims)
    ensures d.channels == 2 * d.KeyWidth() + d.ValueWidth()
  {
  }

  /** Where a head's query lies among the channels: with the key head that serves it. */
  function QueryAt(d: Dims, h: nat): (at: nat)
    requires h < d.heads
    ensures at + d.keyDim <= d.KeyWidth() <= d.channels
  {
    PiecesFit(d, h);
    ChannelsHold(d);
    hide GdnDims.KeyWidth, GdnDims.ValueWidth, GdnDims.Consistent;
    h / d.Repeat() * d.keyDim
  }

  function KeyAt(d: Dims, h: nat): (at: nat)
    requires h < d.heads
    ensures at + d.keyDim <= d.channels
  {
    hide QueryAt, GdnDims.KeyWidth, GdnDims.ValueWidth, GdnDims.Consistent;
    ChannelsHold(d);
    d.KeyWidth() + QueryAt(d, h)
  }

  function ValueAt(d: Dims, h: nat): (at: nat)
    requires h < d.heads
    ensures at + d.valueDim <= d.channels
  {
    PiecesFit(d, h);
    ChannelsHold(d);
    hide GdnDims.KeyWidth, GdnDims.ValueWidth, GdnDims.Consistent;
    2 * d.KeyWidth() + h * d.valueDim
  }

  function Piece<F>(row: seq<F>, at: nat, n: nat): (r: seq<F>)
    requires at + n <= |row|
    ensures |r| == n
  {
    row[at..at + n]
  }

  /** One head: query and key normalised, the value as it is, the write gate and the decay. */
  function HeadOf<F>(d: Dims, k: GdnKernels<F>, activated: seq<F>, beta: seq<F>, alpha: seq<F>): nat -> Option<Head<F>>
    requires |activated| == d.channels && |beta| == |alpha| == d.heads
  {
    (h: nat) =>
      if h >= d.heads then None
      else
        match (k.sigmoid(beta[h]), DecayOf(k, h, alpha[h]))
        case (Some(gate), Some(decay)) =>
          (match (Normalised(k, Piece(activated, QueryAt(d, h), d.keyDim), k.queryScale), Normalised(k, Piece(activated, KeyAt(d, h), d.keyDim), k.one))
           case (Some(query), Some(key)) => Some(Head(query, key, Piece(activated, ValueAt(d, h), d.valueDim), gate, decay))
           case _ => None)
        case _ => None
  }

  lemma HeadsAreShaped<F>(d: Dims, k: GdnKernels<F>, activated: seq<F>, beta: seq<F>, alpha: seq<F>, heads: seq<Head<F>>)
    requires |activated| == d.channels && |beta| == |alpha| == d.heads
    requires MapAll(HeadOf(d, k, activated, beta, alpha), Ids(d.heads)) == Some(heads)
    ensures HeadsShaped(d, heads)
  {
    hide Normalised, QueryAt, KeyAt, ValueAt, Piece, DecayOf;
    forall h | 0 <= h < |heads| ensures HeadShaped(d, heads[h]) {
      assert HeadOf(d, k, activated, beta, alpha)(Ids(d.heads)[h]) == Some(heads[h]);
    }
  }

  // ----- one token -----

  function ConvDotOf<F>(k: GdnKernels<F>, conv: seq<F>): nat -> Option<F> {
    (channel: nat) =>
      if channel * KERNEL_SIZE + KERNEL_SIZE > |conv| then None
      else k.convDot(channel, conv[channel * KERNEL_SIZE..channel * KERNEL_SIZE + KERNEL_SIZE])
  }

  predicate ViewShaped<F>(d: Dims, view: GdnView<F>) {
    |view.conv| == d.channels * KERNEL_SIZE && |view.recurrent| == d.heads * d.HeadSize()
  }

  /** The inputs of the recurrence: they depend on the token and the convolution register only. */
  function Prepared<F>(d: Dims, k: GdnKernels<F>, conv: seq<F>, input: seq<F>): (r: Option<(Projected<F>, seq<F>, seq<Head<F>>)>)
    requires |conv| == d.channels * KERNEL_SIZE
    ensures r.Some? ==> HeadsShaped(d, r.value.2) && |r.value.0.qkv| == d.channels
    ensures r.Some? ==> r.value.1 == ShiftIn(conv, KERNEL_SIZE, r.value.0.qkv)
    ensures r.Some? ==> k.project(input) == Some(r.value.0)
  {
    match k.project(input)
    case None => None
    case Some(projected) =>
      if |projected.qkv| != d.channels || |projected.beta| != d.heads || |projected.alpha| != d.heads then None
      else
        var shifted := ShiftIn(conv, KERNEL_SIZE, projected.qkv);
        match MapAll(ConvDotOf(k, shifted), Ids(d.channels))
        case None => None
        case Some(convolved) =>
          match Shaped(k.activate(convolved), d.channels)
          case None => None
          case Some(activated) =>
            match MapAll(HeadOf(d, k, activated, projected.beta, projected.alpha), Ids(d.heads))
            case None => None
            case Some(heads) =>
              HeadsAreShaped(d, k, activated, projected.beta, projected.alpha, heads);
              Some((projected, shifted, heads))
  }

  function GdnToken<F>(d: Dims, k: GdnKernels<F>, view: GdnView<F>, input: seq<F>): Option<(GdnView<F>, seq<F>)> {
    if !ViewShaped(d, view) then None
    else
      match Prepared(d, k, view.conv, input)
      case None => None
      case Some((projected, shifted, heads)) =>
        var recurrent := StateAfter(d, k.ops, view.recurrent, heads, d.heads);
        var core := CoreOutput(d, k.ops, view.recurrent, heads, d.heads);
        if !AllFinite(k.finite, recurrent) || !AllFinite(k.finite, core) then None
        else
          match k.finish(core, projected.gate)
          case None => None
          case Some(output) =>
            if AllFinite(k.finite, output) then Some((GdnView(shifted, recurrent, true), output)) else None
  }

  function GdnStep<F>(d: Dims, k: GdnKernels<F>): Step<GdnView<F>, seq<F>, seq<F>> {
    (view: GdnView<F>, input: seq<F>) => GdnToken(d, k, view, input)
  }

  predicate AllSeqsFinite<F>(finite: F -> bool, rows: seq<seq<F>>) {
    forall t :: 0 <= t < |rows| ==> AllFinite(finite, rows[t])
  }

  /** The whole call. */
  function GdnCall<F>(d: Dims, k: GdnKernels<F>, view: GdnView<F>, hidden: seq<seq<F>>): Option<(GdnView<F>, seq<seq<F>>)> {
    if hidden == [] || !AllSeqsFinite(k.finite, hidden) || !AllFinite(k.finite, view.conv) ||
       !AllFinite(k.finite, view.recurrent) then None
    else Run(GdnStep(d, k), view, hidden)
  }

  /** Two calls in a row do what one call does, whenever both succeed. */
  lemma GdnCallAppend<F>(d: Dims, k: GdnKernels<F>, view: GdnView<F>, a: seq<seq<F>>, b: seq<seq<F>>)
    requires GdnCall(d, k, view, a).Some? && GdnCall(d, k, GdnCall(d, k, view, a).value.0, b).Some?
    ensures GdnCall(d, k, view, a + b) == Resume(GdnStep(d, k), GdnCall(d, k, view, a), b)
  {
    hide GdnToken;
    RunAppend(GdnStep(d, k), view, a, b);
    forall t | 0 <= t < |a + b| ensures AllFinite(k.finite, (a + b)[t]) {
      assert (a + b)[t] == if t < |a| then a[t] else b[t - |a|];
    }
  }

  // ----- the convolution register over a whole run -----

  predicate Projects<F>(d: Dims, k: GdnKernels<F>, input: seq<F>) {
    k.project(input).Some? && |k.project(input).value.qkv| == d.channels
  }

  function QkvOf<F>(d: Dims, k: GdnKernels<F>, input: seq<F>): (r: seq<F>)
    requires Projects(d, k, input)
    ensures |r| == d.channels
  {
    k.project(input).value.qkv
  }

  function Qkvs<F>(d: Dims, k: GdnKernels<F>, hidden: seq<seq<F>>): (r: seq<seq<F>>)
    requires forall t :: 0 <= t < |hidden| ==> Projects(d, k, hidden[t])
    ensures |r| == |hidden| && forall t :: 0 <= t < |r| ==> r[t] == QkvOf(d, k, hidden[t])
  {
    seq(|hidden|, t requires 0 <= t < |hidden| => QkvOf(d, k, hidden[t]))
  }

  lemma {:induction false} ConvIsShiftedProjections<F>(d: Dims, k: GdnKernels<F>, view: GdnView<F>, hidden: seq<seq<F>>)
    requires ViewShaped(d, view) && Run(GdnStep(d, k), view, hidden).Some?
    ensures forall t :: 0 <= t < |hidden| ==> Projects(d, k, hidden[t])
    ensures ViewShaped(d, Run(GdnStep(d, k), view, hidden).value.0)
    ensures Run(GdnStep(d, k), view, hidden).value.0.conv ==
            ShiftInAll(view.conv, KERNEL_SIZE, Qkvs(d, k, hidden), d.channels)
  {
    hide ShiftIn, GdnToken, Projects;
    if hidden != [] {
      var last := |hidden| - 1;
      ConvIsShiftedProjections(d, k, view, hidden[..last]);
      PreparedProjects(d, k, Run(GdnStep(d, k), view, hidden[..last]).value.0, hidden[last]);
      assert hidden[..last] + [hidden[last]] == hidden;
      assert Qkvs(d, k, hidden)[..last] == Qkvs(d, k, hidden[..last]);
    }
  }

  lemma PreparedProjects<F>(d: Dims, k: GdnKernels<F>, view: GdnView<F>, input: seq<F>)
    requires GdnToken(d, k, view, input).Some?
    ensures Projects(d, k, input) && ViewShaped(d, GdnToken(d, k, view, input).value.0)
    ensures |view.conv| == d.channels * KERNEL_SIZE
    ensures GdnToken(d, k, view, input).value.0.conv == ShiftIn(view.conv, KERNEL_SIZE, QkvOf(d, k, input))
  {
    hide ShiftIn, StateAfter, CoreOutput, Prepared;
  }

  /** After any tokens from reset, entry j of a channel is the projection of the token 4 - j back
      from the next one, zero before the stream starts. */
  lemma ConvHoldsLastProjections<F>(d: Dims, k: GdnKernels<F>, zero: F, hidden: seq<seq<F>>, channel: nat, j: nat)
    requires Run(GdnStep(d, k), FreshGdn(d, zero), hidden).Some?
    requires channel < d.channels && j < KERNEL_SIZE
    ensures forall t :: 0 <= t < |hidden| ==> Projects(d, k, hidden[t])
    ensures |Run(GdnStep(d, k), FreshGdn(d, zero), hidden).value.0.conv| == d.channels * KERNEL_SIZE
    ensures Run(GdnStep(d, k), FreshGdn(d, zero), hidden).value.0.conv[At(channel, j, KERNEL_SIZE, d.channels)] ==
            if |hidden| + j < KERNEL_SIZE then zero else Qkvs(d, k, hidden)[|hidden| + j - KERNEL_SIZE][channel]
  {
    hide GdnToken, ShiftIn, ShiftInAll, Run;
    ConvIsShiftedProjections(d, k, FreshGdn(d, zero), hidden);
    RegisterHoldsHistory(FreshGdn(d, zero).conv, KERNEL_SIZE, Qkvs(d, k, hidden), d.channels, channel, j);
  }

  // ----- the loops -----

  /** Scales the state of one head. */
  method DecayHead<F>(d: GdnDims, ops: Arith<F>, state: array<F>, base: nat, decay: F)
    requires base + d.HeadSize() <= state.Length
    modifies state
    ensures state[..base] == old(state[..base]) && state[base + d.HeadSize()..] == old(state[base + d.HeadSize()..])
    ensures state[base..base + d.HeadSize()] == Decayed(ops, old(state[base..base + d.HeadSize()]), decay)
  {
    for index := 0 to d.HeadSize()
      invariant forall i :: 0 <= i < state.Length && !(base <= i < base + index) ==> state[i] == old(state[i])
      invariant forall i :: base <= i < base + index ==> state[i] == ops.mul(old(state[i]), decay)
    {
      state[base + index] := ops.mul(state[base + index], decay);
    }
  }

  /** One column sum, by the inner loop over key features. */
  method SumColumn<F>(d: GdnDims, ops: Arith<F>, state: array<F>, base: nat, vector: seq<F>, feature: nat) returns (sum: F)
    requires base + d.HeadSize() <= state.Length && |vector| == d.keyDim && feature < d.valueDim
    ensures sum == ColumnDot(d, ops, state[base..base + d.HeadSize()], vector, feature, d.keyDim)
  {
    ghost var segment := state[base..base + d.HeadSize()];
    sum := ops.zero;
    for keyFeature := 0 to d.keyDim
      invariant sum == ColumnDot(d, ops, segment, vector, feature, keyFeature)
    {
      var index := At(keyFeature, feature, d.valueDim, d.keyDim);
      assert segment[index] == state[base + index];
      var product := ops.mul(state[base + index], vector[keyFeature]);
      sum := ops.add(sum, product);
    }
  }

  /** Reads the decayed state back along the key and scales what the value misses. */
  method ComputeDelta<F>(d: GdnDims, ops: Arith<F>, state: array<F>, base: nat, h: Head<F>) returns (delta: seq<F>)
    requires base + d.HeadSize() <= state.Length && HeadShaped(d, h)
    ensures delta == Delta(d, ops, state[base..base + d.HeadSize()], h)
  {
    delta := [];
    for feature := 0 to d.valueDim
      invariant |delta| == feature
      invariant forall f :: 0 <= f < feature ==> delta[f] == Delta(d, ops, state[base..base + d.HeadSize()], h)[f]
    {
      var sum := SumColumn(d, ops, state, base, h.key, feature);
      delta := delta + [ops.mul(ops.sub(h.value[feature], sum), h.beta)];
    }
  }

  /** Adds key times delta to the state, row by row. */
  method WriteHead<F>(d: GdnDims, ops: Arith<F>, state: array<F>, base: nat, key: seq<F>, delta: seq<F>)
    requires base + d.HeadSize() <= state.Length && |key| == d.keyDim && |delta| == d.valueDim
    modifies state
    ensures state[..base] == old(state[..base]) && state[base + d.HeadSize()..] == old(state[base + d.HeadSize()..])
    ensures state[base..base + d.HeadSize()] == Written(d, ops, old(state[base..base + d.HeadSize()]), key, delta)
  {
    ghost var whole := state[..];
    ghost var before := state[base..base + d.HeadSize()];
    ghost var target := Written(d, ops, before, key, delta);
    for keyFeature := 0 to d.keyDim
      invariant WrittenUpTo(before, target, whole, state[..], base, keyFeature * d.valueDim)
    {
      MulStep(keyFeature, d.keyDim, d.valueDim);
      WriteRow(d, ops, state, base, key, delta, keyFeature, whole);
    }
    WrittenAll(before, target, whole, state[..], base);
  }

  lemma WrittenAll<F>(before: seq<F>, target: seq<F>, whole: seq<F>, state: seq<F>, base: nat)
    requires WrittenUpTo(before, target, whole, state, base, |before|)
    ensures state[..base] == whole[..base] && state[base + |before|..] == whole[base + |before|..]
    ensures state[base..base + |before|] == target
  {
  }

  /** The inner loop of the write: one row of the head. */
  method WriteRow<F>(d: GdnDims, ops: Arith<F>, state: array<F>, base: nat, key: seq<F>, delta: seq<F>, keyFeature: nat, ghost whole: seq<F>)
    requires base + d.HeadSize() <= state.Length == |whole| && |key| == d.keyDim && |delta| == d.valueDim && keyFeature < d.keyDim
    requires var before := whole[base..base + d.HeadSize()];
             WrittenUpTo(before, Written(d, ops, before, key, delta), whole, state[..], base, keyFeature * d.valueDim)
    modifies state
    ensures var before := whole[base..base + d.HeadSize()];
            WrittenUpTo(before, Written(d, ops, before, key, delta), whole, state[..], base, (keyFeature + 1) * d.valueDim)
  {
    hide Written, WrittenUpTo;
    ghost var before := whole[base..base + d.HeadSize()];
    ghost var target := Written(d, ops, before, key, delta);
    for feature := 0 to d.valueDim
      invariant WrittenUpTo(before, target, whole, state[..], base, keyFeature * d.valueDim + feature)
    {
      var stateIndex := At(keyFeature, feature, d.valueDim, d.keyDim);
      ghost var was := state[..];
      WrittenCell(d, ops, before, key, delta, keyFeature, feature);
      NextUnwritten(before, target, whole, was, base, stateIndex);
      state[base + stateIndex] := ops.add(state[base + stateIndex], ops.mul(key[keyFeature], delta[feature]));
      WriteOneMore(before, target, whole, was, state[..], base, stateIndex);
    }
  }

  lemma WrittenCell<F>(d: GdnDims, ops: Arith<F>, decayed: seq<F>, key: seq<F>, delta: seq<F>, keyFeature: nat, feature: nat)
    requires |decayed| == d.HeadSize() && |key| == d.keyDim && |delta| == d.valueDim
    requires keyFeature < d.keyDim && feature < d.valueDim
    ensures var i := At(keyFeature, feature, d.valueDim, d.keyDim);
            Written(d, ops, decayed, key, delta)[i] == ops.add(decayed[i], ops.mul(key[keyFeature], delta[feature]))
  {
  }

  lemma NextUnwritten<F>(before: seq<F>, target: seq<F>, whole: seq<F>, state: seq<F>, base: nat, n: nat)
    requires WrittenUpTo(before, target, whole, state, base, n) && n < |before|
    ensures |target| == |before| && base + n < |state| == |whole| && state[base + n] == before[n]
  {
  }

  lemma WriteOneMore<F>(before: seq<F>, target: seq<F>, whole: seq<F>, was: seq<F>, state: seq<F>, base: nat, n: nat)
    requires WrittenUpTo(before, target, whole, was, base, n) && n < |before|
    requires state == was[base + n := target[n]]
    ensures WrittenUpTo(before, target, whole, state, base, n + 1)
  {
  }

  /** The first n cells of a head hold their target values, everything else is as it was. */
  ghost predicate WrittenUpTo<F>(before: seq<F>, target: seq<F>, whole: seq<F>, state: seq<F>, base: nat, n: nat) {
    && |state| == |whole| && |target| == |before| && base + |before| <= |whole| && n <= |before|
    && (forall i {:trigger state[i]} :: base <= i < base + n ==> state[i] == target[i - base])
    && (forall i {:trigger state[i]} :: base + n <= i < base + |before| ==> state[i] == before[i - base])
    && (forall i {:trigger state[i]} :: 0 <= i < base || base + |before| <= i < |whole| ==> state[i] == whole[i])
  }

  method ReadOutput<F>(d: GdnDims, ops: Arith<F>, state: array<F>, base: nat, query: seq<F>) returns (output: seq<F>)
    requires base + d.HeadSize() <= state.Length && |query| == d.keyDim
    ensures output == Columns(d, ops, state[base..base + d.HeadSize()], query)
  {
    output := [];
    for feature := 0 to d.valueDim
      invariant |output| == feature
      invariant forall f :: 0 <= f < feature ==> output[f] == Columns(d, ops, state[base..base + d.HeadSize()], query)[f]
    {
      var sum := SumColumn(d, ops, state, base, query, feature);
      output := output + [sum];
    }
  }

  /** The recurrence of one head, in place in its segment of the state. */
  method UpdateHead<F>(d: GdnDims, ops: Arith<F>, state: array<F>, base: nat, h: Head<F>) returns (output: seq<F>)
    requires base + d.HeadSize() <= state.Length && HeadShaped(d, h)
    modifies state
    ensures state[..base] == old(state[..base]) && state[base + d.HeadSize()..] == old(state[base + d.HeadSize()..])
    ensures state[base..base + d.HeadSize()] == HeadState(d, ops, old(state[base..base + d.HeadSize()]), h)
    ensures output == HeadOutput(d, ops, old(state[base..base + d.HeadSize()]), h)
  {
    hide Decayed, Delta, Written, Columns;
    DecayHead(d, ops, state, base, h.decay);
    var delta := ComputeDelta(d, ops, state, base, h);
    WriteHead(d, ops, state, base, h.key, delta);
    output := ReadOutput(d, ops, state, base, h.query);
  }

  /** One head's turn, on its segment of the state of all heads. */
  method UpdateSegment<F>(d: GdnDims, ops: Arith<F>, state: array<F>, head: nat, h: Head<F>) returns (output: seq<F>)
    requires state.Length == d.heads * d.HeadSize() && head < d.heads && HeadShaped(d, h)
    modifies state
    ensures state[..] == WithSegment(d, old(state[..]), head, HeadState(d, ops, Segment(d, old(state[..]), head), h))
    ensures output == HeadOutput(d, ops, Segment(d, old(state[..]), head), h)
  {
    hide HeadState, HeadOutput, HeadShaped;
    MulStep(head, d.heads, d.HeadSize());
    var base := head * d.HeadSize();
    ghost var was := state[..];
    assert Segment(d, was, head) == state[base..base + d.HeadSize()];
    assert state[..base] == was[..base] && state[base + d.HeadSize()..] == was[base + d.HeadSize()..];
    output := UpdateHead(d, ops, state, base, h);
    assert state[..][base..base + d.HeadSize()] == state[base..base + d.HeadSize()];
    assert state[..][..base] == state[..base] && state[..][base + d.HeadSize()..] == state[base + d.HeadSize()..];
    SegmentReplaced(d, was, state[..], head, HeadState(d, ops, Segment(d, was, head), h));
  }

  /** The head loop of one token. */
  method UpdateHeads<F>(d: GdnDims, ops: Arith<F>, state: array<F>, heads: seq<Head<F>>) returns (core: seq<F>)
    requires state.Length == d.heads * d.HeadSize() && HeadsShaped(d, heads)
    modifies state
    ensures state[..] == StateAfter(d, ops, old(state[..]), heads, d.heads)
    ensures core == CoreOutput(d, ops, old(state[..]), heads, d.heads)
  {
    hide HeadState, HeadOutput, HeadShaped, WithSegment, Segment;
    core := [];
    for head := 0 to d.heads
      invariant state[..] == StateAfter(d, ops, old(state[..]), heads, head)
      invariant core == CoreOutput(d, ops, old(state[..]), heads, head)
    {
      var output := UpdateSegment(d, ops, state, head, heads[head]);
      core := core + output;
    }
  }

  lemma SegmentReplaced<F>(d: GdnDims, was: seq<F>, state: seq<F>, h: nat, segment: seq<F>)
    requires |was| == d.heads * d.HeadSize() == |state| && h < d.heads && |segment| == d.HeadSize()
    requires h * d.HeadSize() + d.HeadSize() <= |was|
    requires state[..h * d.HeadSize()] == was[..h * d.HeadSize()]
    requires state[h * d.HeadSize() + d.HeadSize()..] == was[h * d.HeadSize() + d.HeadSize()..]
    requires state[h * d.HeadSize()..h * d.HeadSize() + d.HeadSize()] == segment
    ensures state == WithSegment(d, was, h, segment)
  {
  }

  /** Normalises a vector in place. */
  method NormaliseInPlace<F>(k: GdnKernels<F>, values: array<F>, scale: F) returns (status: Status)
    modifies values
    ensures status.Ok? <==> Normalised(k, old(values[..]), scale).Some?
    ensures status.Ok? ==> Normalised(k, old(values[..]), scale) == Some(values[..])
  {
    ghost var before := values[..];
    var sum := k.squareSum(values[..]);
    if sum.None? {
      return KernelFailed;
    }
    var inverse := k.inverseRoot(k.ops.add(sum.value, k.epsilon));
    if !k.finite(inverse) || !k.finite(scale) {
      return NumericDomain;
    }
    for index := 0 to values.Length
      invariant forall i :: 0 <= i < index ==> values[i] == k.ops.mul(k.ops.mul(before[i], inverse), scale)
      invariant forall i :: index <= i < values.Length ==> values[i] == before[i]
    {
      var normalised := k.ops.mul(values[index], inverse);
      values[index] := k.ops.mul(normalised, scale);
    }
    assert values[..] == Normalised(k, before, scale).value;
    status := Ok;
  }

  /** One head: its pieces copied out of the activated channels, its gates, its normalisation. */
  method PrepareHead<F>(d: Dims, k: GdnKernels<F>, activated: seq<F>, beta: seq<F>, alpha: seq<F>, h: nat)
    returns (status: Status, head: Option<Head<F>>)
    requires |activated| == d.channels && |beta| == |alpha| == d.heads && h < d.heads
    ensures head == HeadOf(d, k, activated, beta, alpha)(h) && (status.Ok? <==> head.Some?)
  {
    hide Normalised, QueryAt, KeyAt, ValueAt, Piece, DecayOf;
    var q, e := Piece(activated, QueryAt(d, h), d.keyDim), Piece(activated, KeyAt(d, h), d.keyDim);
    var query := new F[d.keyDim](i requires 0 <= i < d.keyDim => q[i]);
    var key := new F[d.keyDim](i requires 0 <= i < d.keyDim => e[i]);
    assert query[..] == q && key[..] == e;
    var gate := k.sigmoid(beta[h]);
    if gate.None? {
      return NumericDomain, None;
    }
    var decay := DecayOf(k, h, alpha[h]);
    if decay.None? {
      return NumericDomain, None;
    }
    status := NormaliseInPlace(k, query, k.queryScale);
    if !status.Ok? {
      return status, None;
    }
    status := NormaliseInPlace(k, key, k.one);
    if !status.Ok? {
      return status, None;
    }
    head := Some(Head(query[..], key[..], Piece(activated, ValueAt(d, h), d.valueDim), gate.value, decay.value));
  }

  /** The inputs of the recurrence, head by head. */
  method PrepareHeads<F>(d: Dims, k: GdnKernels<F>, activated: seq<F>, beta: seq<F>, alpha: seq<F>)
    returns (status: Status, heads: seq<Head<F>>)
    requires |activated| == d.channels && |beta| == |alpha| == d.heads
    ensures status.Ok? <==> MapAll(HeadOf(d, k, activated, beta, alpha), Ids(d.heads)).Some?
    ensures status.Ok? ==> MapAll(HeadOf(d, k, activated, beta, alpha), Ids(d.heads)) == Some(heads)
  {
    hide HeadOf;
    heads := [];
    for h := 0 to d.heads
      invariant |heads| == h
      invariant forall i :: 0 <= i < h ==> HeadOf(d, k, activated, beta, alpha)(i) == Some(heads[i])
    {
      var head;
      status, head := PrepareHead(d, k, activated, beta, alpha, h);
      if !status.Ok? {
        assert HeadOf(d, k, activated, beta, alpha)(Ids(d.heads)[h]).None?;
        return status, [];
      }
      heads := heads + [head.value];
    }
    MapAllIs(HeadOf(d, k, activated, beta, alpha), Ids(d.heads), heads);
    status := Ok;
  }

  /** Shifts every channel's register and convolves it. */
  method ShiftAndConvolve<F>(d: Dims, k: GdnKernels<F>, register: array<F>, qkv: seq<F>) returns (status: Status, convolved: seq<F>)
    requires register.Length == d.channels * KERNEL_SIZE && |qkv| == d.channels
    modifies register
    ensures var shifted := ShiftIn(old(register[..]), KERNEL_SIZE, qkv);
            && (status.Ok? <==> MapAll(ConvDotOf(k, shifted), Ids(d.channels)).Some?)
            && (status.Ok? ==> register[..] == shifted && MapAll(ConvDotOf(k, shifted), Ids(d.channels)) == Some(convolved))
  {
    hide ShiftIn;
    ghost var before := register[..];
    ghost var shifted := ShiftIn(before, KERNEL_SIZE, qkv);
    convolved := [];
    for channel := 0 to d.channels
      invariant ShiftedUpTo(before, register[..], KERNEL_SIZE, qkv, channel)
      invariant |convolved| == channel
      invariant forall c :: 0 <= c < channel ==> ConvDotOf(k, shifted)(c) == Some(convolved[c])
    {
      ghost var middle := register[..];
      ShiftChannel(register, KERNEL_SIZE, channel, d.channels, qkv[channel]);
      ShiftNextChannel(before, middle, register[..], KERNEL_SIZE, qkv, channel);
      MulStep(channel, d.channels, KERNEL_SIZE);
      WindowIsShifted(before, register[..], qkv, channel);
      var value := k.convDot(channel, register[channel * KERNEL_SIZE..channel * KERNEL_SIZE + KERNEL_SIZE]);
      assert ConvDotOf(k, shifted)(channel) == value;
      if value.None? {
        assert ConvDotOf(k, shifted)(Ids(d.channels)[channel]).None?;
        return KernelFailed, [];
      }
      convolved := convolved + [value.value];
    }
    ShiftedAll(before, register[..], KERNEL_SIZE, qkv);
    MapAllIs(ConvDotOf(k, shifted), Ids(d.channels), convolved);
    status := Ok;
  }

  /** A channel's window is final as soon as the channel is shifted. */
  lemma WindowIsShifted<F>(before: seq<F>, register: seq<F>, qkv: seq<F>, channel: nat)
    requires |before| == |qkv| * KERNEL_SIZE && channel < |qkv| && ShiftedUpTo(before, register, KERNEL_SIZE, qkv, channel + 1)
    ensures channel * KERNEL_SIZE + KERNEL_SIZE <= |register|
    ensures register[channel * KERNEL_SIZE..channel * KERNEL_SIZE + KERNEL_SIZE] ==
            ShiftIn(before, KERNEL_SIZE, qkv)[channel * KERNEL_SIZE..channel * KERNEL_SIZE + KERNEL_SIZE]
  {
    hide ShiftIn;
    var base := channel * KERNEL_SIZE;
    MulStep(channel, |qkv|, KERNEL_SIZE);
    forall i | base <= i < base + KERNEL_SIZE ensures register[i] == ShiftIn(before, KERNEL_SIZE, qkv)[i] {
      RowOf(i, KERNEL_SIZE, channel);
    }
  }

  /** One token on the working copies. */
  method ExecuteToken<F>(d: Dims, k: GdnKernels<F>, conv: array<F>, recurrent: array<F>, ghost initialized: bool, input: seq<F>)
    returns (status: Status, output: seq<F>)
    requires conv.Length == d.channels * KERNEL_SIZE && recurrent.Length == d.heads * d.HeadSize() && conv != recurrent
    modifies conv, recurrent
    ensures var r := GdnToken(d, k, GdnView(old(conv[..]), old(recurrent[..]), initialized), input);
            && (status.Ok? <==> r.Some?)
            && (status.Ok? ==> r == Some((GdnView(conv[..], recurrent[..], true), output)))
  {
    hide ShiftIn, StateAfter, CoreOutput, ConvDotOf, AllFinite;
    var projected := k.project(input);
    if projected.None? || |projected.value.qkv| != d.channels || |projected.value.beta| != d.heads || |projected.value.alpha| != d.heads {
      return KernelFailed, [];
    }
    var convolved;
    status, convolved := ShiftAndConvolve(d, k, conv, projected.value.qkv);
    if !status.Ok? {
      return status, [];
    }
    var activated := Shaped(k.activate(convolved), d.channels);
    if activated.None? {
      return KernelFailed, [];
    }
    var heads;
    status, heads := PrepareHeads(d, k, activated.value, projected.value.beta, projected.value.alpha);
    if !status.Ok? {
      return status, [];
    }
    HeadsAreShaped(d, k, activated.value, projected.value.beta, projected.value.alpha, heads);
    var core := UpdateHeads(d, k.ops, recurrent, heads);
    var stateFinite := CheckFinite(k.finite, recurrent[..]);
    var coreFinite := CheckFinite(k.finite, core);
    if !stateFinite || !coreFinite {
      return NumericDomain, [];
    }
    var finished := k.finish(core, projected.value.gate);
    if finished.None? {
      return KernelFailed, [];
    }
    var outputFinite := CheckFinite(k.finite, finished.value);
    if !outputFinite {
      return NumericDomain, [];
    }
    return Ok, finished.value;
  }

  /** The token loop of a call. */
  method ExecuteTokens<F>(d: Dims, k: GdnKernels<F>, conv: array<F>, recurrent: array<F>, ghost initialized: bool, hidden: seq<seq<F>>)
    returns (status: Status, output: seq<seq<F>>)
    requires conv.Length == d.channels * KERNEL_SIZE && recurrent.Length == d.heads * d.HeadSize() && conv != recurrent
    modifies conv, recurrent
    ensures var r := Run(GdnStep(d, k), GdnView(old(conv[..]), old(recurrent[..]), initialized), hidden);
            && (status.Ok? <==> r.Some?)
            && (status.Ok? ==> r == Some((GdnView(conv[..], recurrent[..], initialized || hidden != []), output)))
  {
    hide GdnToken;
    ghost var start := GdnView(conv[..], recurrent[..], initialized);
    output := [];
    for t := 0 to |hidden|
      invariant Run(GdnStep(d, k), start, hidden[..t]) == Some((GdnView(conv[..], recurrent[..], initialized || t > 0), output))
    {
      assert hidden[..t + 1][..t] == hidden[..t] && hidden[..t + 1][t] == hidden[t];
      var row;
      status, row := ExecuteToken(d, k, conv, recurrent, initialized || t > 0, hidden[t]);
      if !status.Ok? {
        RunFailsOnPrefix(GdnStep(d, k), start, hidden, t + 1);
        return status, [];
      }
      output := output + [row];
    }
    assert hidden[..|hidden|] == hidden;
    status := Ok;
  }

  /** The state of one slot. */
  class GdnState<F(0)> {
    var conv: seq<F>
    var recurrent: seq<F>
    var initialized: bool

    function View(): GdnView<F>
      reads this
    {
      GdnView(conv, recurrent, initialized)
    }

    constructor (d: Dims, zero: F)
      ensures View() == FreshGdn(d, zero)
    {
      conv := seq(d.channels * KERNEL_SIZE, _ => zero);
      recurrent := seq(d.heads * d.HeadSize(), _ => zero);
      initialized := false;
    }

    method Reset(d: Dims, zero: F)
      modifies this
      ensures View() == FreshGdn(d, zero)
    {
      conv := seq(d.channels * KERNEL_SIZE, _ => zero);
      recurrent := seq(d.heads * d.HeadSize(), _ => zero);
      initialized := false;
    }

    /** Export and import, as the slot copy does them: import takes only finite values, and only
        zeros for a state that was never run. */
    method CopyFrom(d: Dims, finite: F -> bool, isZero: F -> bool, other: GdnState<F>) returns (status: Status)
      modifies this
      ensures status.Ok? <==> Importable(d, finite, isZero, old(other.View()))
      ensures View() == if status.Ok? then old(other.View()) else old(View())
    {
      if |other.conv| != d.channels * KERNEL_SIZE || |other.recurrent| != d.heads * d.HeadSize() {
        return InvalidModelState;
      }
      var values := other.conv + other.recurrent;
      for i := 0 to |values|
        invariant View() == old(View()) && other.View() == old(other.View())
        invariant forall j :: 0 <= j < i ==> finite(values[j]) && (other.initialized || isZero(values[j]))
      {
        if !finite(values[i]) || (!other.initialized && !isZero(values[i])) {
          return NumericDomain;
        }
      }
      conv, recurrent, initialized := other.conv, other.recurrent, other.initialized;
      status := Ok;
    }

    /** Runs the operator on working copies and commits them at the end. */
    method Execute(d: Dims, k: GdnKernels<F>, hidden: seq<seq<F>>) returns (status: Status, output: seq<seq<F>>)
      requires ViewShaped(d, View())
      modifies this
      ensures status.Ok? <==> GdnCall(d, k, old(View()), hidden).Some?
      ensures status.Ok? ==> Some((View(), output)) == GdnCall(d, k, old(View()), hidden)
      ensures !status.Ok? ==> View() == old(View())
    {
      if hidden == [] {
        return InvalidArgument, [];
      }
      for t := 0 to |hidden|
        invariant View() == old(View()) && forall u :: 0 <= u < t ==> AllFinite(k.finite, hidden[u])
      {
        var ok := CheckFinite(k.finite, hidden[t]);
        if !ok {
          return NumericDomain, [];
        }
      }
      var convFinite := CheckFinite(k.finite, conv);
      var recurrentFinite := CheckFinite(k.finite, recurrent);
      if !convFinite || !recurrentFinite {
        return NumericDomain, [];
      }
      var workConv := new F[|conv|](i requires 0 <= i < |conv| reads this => conv[i]);
      var workRecurrent := new F[|recurrent|](i requires 0 <= i < |recurrent| reads this => recurrent[i]);
      assert workConv[..] == conv && workRecurrent[..] == recurrent;
      hide GdnToken;
      status, output := ExecuteTokens(d, k, workConv, workRecurrent, initialized, hidden);
      if !status.Ok? {
        return status, [];
      }
      conv, recurrent, initialized := workConv[..], workRecurrent[..], true;
    }
  }

  /** What the import accepts. */
  ghost predicate Importable<F>(d: Dims, finite: F -> bool, isZero: F -> bool, view: GdnView<F>) {
    && ViewShaped(d, view)
    && forall j :: 0 <= j < |view.conv + view.recurrent| ==>
         finite((view.conv + view.recurrent)[j]) && (view.initialized || isZero((view.conv + view.recurrent)[j]))
  }
}
