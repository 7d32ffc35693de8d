/** What the gated delta-net operator computes, seen from the whole sequence: which channels a head
    reads, what the convolution sees, and how every head runs through the tokens by itself. */
module GdnHistory {
  import opened Foundation
  import opened Streaming
  import opened FlatIndex
  import opened ShiftRegister
  import opened Gdn
  import GdnReal

  // ----- which channels a head reads -----

  /** Key head j serves the `Repeat` value heads from j * Repeat on. Queries lie first, then keys, both
      one key head after the other, then values, one value head after the other. */
  lemma HeadSlices<F>(d: Dims, k: GdnKernels<F>, activated: seq<F>, beta: seq<F>, alpha: seq<F>, j: nat, r: nat, h: nat,
                      queryAt: nat, keyAt: nat, valueAt: nat)
    requires |activated| == d.channels && |beta| == |alpha| == d.heads
    requires j < d.keyHeads && r < d.Repeat() && h == j * d.Repeat() + r
    requires queryAt == j * d.keyDim
    requires keyAt == d.keyHeads * d.keyDim + j * d.keyDim
    requires valueAt == 2 * (d.keyHeads * d.keyDim) + h * d.valueDim
    ensures h < d.heads && queryAt + d.keyDim <= d.channels && keyAt + d.keyDim <= d.channels && valueAt + d.valueDim <= d.channels
    ensures HeadOf(d, k, activated, beta, alpha)(h) ==
            match (k.sigmoid(beta[h]), DecayOf(k, h, alpha[h]),
                   Normalised(k, activated[queryAt..queryAt + d.keyDim], k.queryScale),
                   Normalised(k, activated[keyAt..keyAt + d.keyDim], k.one))
            case (Some(gate), Some(decay), Some(query), Some(key)) =>
              Some(Head(query, key, activated[valueAt..valueAt + d.valueDim], gate, decay))
            case _ => None
  {
    SlicesAre(d, j, r, h);
    hide Normalised, DecayOf, QueryAt, KeyAt, ValueAt, GdnDims.Repeat, GdnDims.Consistent;
  }

  lemma SlicesAre(d: Dims, j: nat, r: nat, h: nat)
    requires j < d.keyHeads && r < d.Repeat() && h == j * d.Repeat() + r
    ensures h < d.heads && QueryAt(d, h) == j * d.keyDim
    ensures KeyAt(d, h) == d.keyHeads * d.keyDim + j * d.keyDim
    ensures ValueAt(d, h) == 2 * (d.keyHeads * d.keyDim) + h * d.valueDim
  {
    RepeatDivides(d);
    hide GdnDims.Consistent;
    MulStep(j, d.keyHeads, d.Repeat());
    Divides(j, r, d.Repeat());
  }

  lemma RepeatDivides(d: Dims)
    ensures d.heads == d.keyHeads * d.Repeat()
  {
  }

  // ----- the heads side by side -----

  /** The core output of a token: head h's part comes from head h's own matrix and inputs. */
  lemma {:induction false} CoreByHead<F>(d: GdnDims, ops: Arith<F>, state: seq<F>, heads: seq<Head<F>>, n: nat, h: nat)
    requires |state| == d.heads * d.HeadSize() && HeadsShaped(d, heads) && h < n <= d.heads
    ensures |CoreOutput(d, ops, state, heads, n)| == n * d.valueDim && h * d.valueDim + d.valueDim <= n * d.valueDim
    ensures CoreOutput(d, ops, state, heads, n)[h * d.valueDim..h * d.valueDim + d.valueDim] ==
            HeadOutput(d, ops, Segment(d, state, h), heads[h])
  {
    hide HeadOutput, Segment, StateAfter, GdnDims.HeadSize, HeadShaped;
    var before := CoreOutput(d, ops, state, heads, n - 1);
    CoreIsLong(d, ops, state, heads, n - 1);
    MulStep(h, n, d.valueDim);
    OneHeadMore(n - 1, d.valueDim);
    GdnReal.HeadsAreIndependent(d, ops, state, heads, n - 1, n - 1);
    var part := HeadOutput(d, ops, Segment(d, StateAfter(d, ops, state, heads, n - 1), n - 1), heads[n - 1]);
    if h < n - 1 {
      MulStep(h, n - 1, d.valueDim);
      CoreByHead(d, ops, state, heads, n - 1, h);
      SliceOfFirst(before, part, h * d.valueDim, d.valueDim);
    } else {
      assert (before + part)[|before|..|before| + d.valueDim] == part;
    }
  }

  lemma OneHeadMore(n: nat, width: nat)
    ensures (n + 1) * width == n * width + width
  {
  }

  lemma SliceOfFirst<F>(a: seq<F>, b: seq<F>, from: nat, n: nat)
    requires from + n <= |a|
    ensures (a + b)[from..from + n] == a[from..from + n]
  {
  }

  lemma {:induction false} CoreIsLong<F>(d: GdnDims, ops: Arith<F>, state: seq<F>, heads: seq<Head<F>>, n: nat)
    requires |state| == d.heads * d.HeadSize() && HeadsShaped(d, heads) && n <= d.heads
    ensures |CoreOutput(d, ops, state, heads, n)| == n * d.valueDim
  {
    hide HeadOutput, Segment, StateAfter, GdnDims.HeadSize, HeadShaped;
    if n > 0 {
      CoreIsLong(d, ops, state, heads, n - 1);
      OneHeadMore(n - 1, d.valueDim);
    }
  }

  // ----- one token of a stream -----

  /** The projection of token t in a channel, zero before the stream starts. */
  function ProjectedAt<F>(d: Dims, k: GdnKernels<F>, zero: F, hidden: seq<seq<F>>, t: int, channel: nat): F
    requires t < |hidden| && channel < d.channels && forall i :: 0 <= i < |hidden| ==> Projects(d, k, hidden[i])
  {
    if t < 0 then zero else QkvOf(d, k, hidden[t])[channel]
  }

  /** Every channel is convolved over its projections at t - 3, t - 2, t - 1 and t. */
  ghost predicate Convolves<F>(d: Dims, k: GdnKernels<F>, zero: F, hidden: seq<seq<F>>, convolved: seq<F>)
    requires hidden != [] && forall i :: 0 <= i < |hidden| ==> Projects(d, k, hidden[i])
  {
    var t := |hidden| - 1;
    && |convolved| == d.channels
    && forall channel :: 0 <= channel < d.channels ==>
         k.convDot(channel, [ProjectedAt(d, k, zero, hidden, t - 3, channel), ProjectedAt(d, k, zero, hidden, t - 2, channel),
                             ProjectedAt(d, k, zero, hidden, t - 1, channel), ProjectedAt(d, k, zero, hidden, t, channel)])
         == Some(convolved[channel])
  }

  /** Every head runs by itself: its matrix from its own matrix, its part of the core from that. */
  ghost predicate RunsHeads<F>(d: Dims, ops: Arith<F>, before: seq<F>, after: seq<F>, heads: seq<Head<F>>, core: seq<F>) {
    && |before| == |after| == d.heads * d.HeadSize() && HeadsShaped(d, heads) && |core| == d.heads * d.valueDim
    && forall h :: 0 <= h < d.heads ==>
         && Segment(d, after, h) == HeadState(d, ops, Segment(d, before, h), heads[h])
         && h * d.valueDim + d.valueDim <= |core|
         && core[h * d.valueDim..h * d.valueDim + d.valueDim] == HeadOutput(d, ops, Segment(d, before, h), heads[h])
  }

  /** The inputs of all heads. */
  ghost predicate FromChannels<F>(d: Dims, k: GdnKernels<F>, activated: seq<F>, beta: seq<F>, alpha: seq<F>, heads: seq<Head<F>>) {
    && |activated| == d.channels && |beta| == |alpha| == |heads| == d.heads
    && forall h :: 0 <= h < d.heads ==> HeadOf(d, k, activated, beta, alpha)(h) == Some(heads[h])
  }

  lemma HeadsByHead<F>(d: Dims, ops: Arith<F>, state: seq<F>, heads: seq<Head<F>>)
    requires |state| == d.heads * d.HeadSize() && HeadsShaped(d, heads)
    ensures RunsHeads(d, ops, state, StateAfter(d, ops, state, heads, d.heads), heads, CoreOutput(d, ops, state, heads, d.heads))
  {
    hide HeadOutput, HeadState, Segment, StateAfter, CoreOutput, HeadShaped;
    CoreIsLong(d, ops, state, heads, d.heads);
    forall h | 0 <= h < d.heads
      ensures Segment(d, StateAfter(d, ops, state, heads, d.heads), h) == HeadState(d, ops, Segment(d, state, h), heads[h])
      ensures h * d.valueDim + d.valueDim <= |CoreOutput(d, ops, state, heads, d.heads)|
      ensures CoreOutput(d, ops, state, heads, d.heads)[h * d.valueDim..h * d.valueDim + d.valueDim] ==
              HeadOutput(d, ops, Segment(d, state, h), heads[h])
    {
      GdnReal.HeadsAreIndependent(d, ops, state, heads, d.heads, h);
      CoreByHead(d, ops, state, heads, d.heads, h);
    }
  }

  /** What one step computes, part by part. */
  lemma TokenIs<F>(d: Dims, k: GdnKernels<F>, view: GdnView<F>, input: seq<F>)
    returns (convolved: seq<F>, activated: seq<F>, heads: seq<Head<F>>, core: seq<F>)
    requires GdnToken(d, k, view, input).Some?
    ensures Projects(d, k, input) && |view.conv| == d.channels * KERNEL_SIZE && |convolved| == d.channels
    ensures forall channel :: 0 <= channel < d.channels ==>
              ConvDotOf(k, ShiftIn(view.conv, KERNEL_SIZE, QkvOf(d, k, input)))(channel) == Some(convolved[channel])
    ensures k.activate(convolved) == Some(activated)
    ensures FromChannels(d, k, activated, k.project(input).value.beta, k.project(input).value.alpha, heads)
    ensures RunsHeads(d, k.ops, view.recurrent, GdnToken(d, k, view, input).value.0.recurrent, heads, core)
    ensures GdnToken(d, k, view, input).value.0.conv == ShiftIn(view.conv, KERNEL_SIZE, QkvOf(d, k, input))
    ensures k.finish(core, k.project(input).value.gate) == Some(GdnToken(d, k, view, input).value.1)
  {
    hide HeadOf, ConvDotOf, ShiftIn, StateAfter, CoreOutput, RunsHeads, HeadsShaped;
    var p := k.project(input).value;
    var shifted := ShiftIn(view.conv, KERNEL_SIZE, p.qkv);
    convolved := MapAll(ConvDotOf(k, shifted), Ids(d.channels)).value;
    activated := Shaped(k.activate(convolved), d.channels).value;
    heads := MapAll(HeadOf(d, k, activated, p.beta, p.alpha), Ids(d.heads)).value;
    core := CoreOutput(d, k.ops, view.recurrent, heads, d.heads);
    forall channel | 0 <= channel < d.channels ensures ConvDotOf(k, shifted)(channel) == Some(convolved[channel]) {
      assert Ids(d.channels)[channel] == channel;
    }
    forall h | 0 <= h < d.heads ensures HeadOf(d, k, activated, p.beta, p.alpha)(h) == Some(heads[h]) {
      assert Ids(d.heads)[h] == h;
    }
    HeadsAreShaped(d, k, activated, p.beta, p.alpha, heads);
    HeadsByHead(d, k.ops, view.recurrent, heads);
  }

  /** The window of a channel, read off the register. */
  lemma WindowIs<F>(k: GdnKernels<F>, conv: seq<F>, channel: nat, channels: nat)
    requires |conv| == channels * KERNEL_SIZE && channel < channels
    ensures ConvDotOf(k, conv)(channel) ==
            k.convDot(channel, [conv[At(channel, 0, KERNEL_SIZE, channels)], conv[At(channel, 1, KERNEL_SIZE, channels)],
                                conv[At(channel, 2, KERNEL_SIZE, channels)], conv[At(channel, 3, KERNEL_SIZE, channels)]])
  {
    MulStep(channel, channels, KERNEL_SIZE);
    var at := channel * KERNEL_SIZE;
    assert conv[at..at + KERNEL_SIZE] == [conv[at], conv[at + 1], conv[at + 2], conv[at + 3]];
  }

  lemma WindowHolds<F>(d: Dims, k: GdnKernels<F>, zero: F, hidden: seq<seq<F>>, channel: nat, j: nat)
    requires Run(GdnStep(d, k), FreshGdn(d, zero), hidden).Some? && hidden != []
    requires channel < d.channels && j < KERNEL_SIZE
    ensures forall i :: 0 <= i < |hidden| ==> Projects(d, k, hidden[i])
    ensures |Run(GdnStep(d, k), FreshGdn(d, zero), hidden).value.0.conv| == d.channels * KERNEL_SIZE
    ensures Run(GdnStep(d, k), FreshGdn(d, zero), hidden).value.0.conv[At(channel, j, KERNEL_SIZE, d.channels)] ==
            ProjectedAt(d, k, zero, hidden, |hidden| - 1 - 3 + j, channel)
  {
    hide Run, GdnStep, FreshGdn, Projects;
    ConvHoldsLastProjections(d, k, zero, hidden, channel, j);
  }

  /** The output of the last token of any stream from reset: every channel convolved over its last four
      projections, the activation cut into heads, every head run by itself from its matrix after the
      tokens before, and the core finished with the token's own gate. */
  lemma OutputFromHistory<F>(d: Dims, k: GdnKernels<F>, zero: F, hidden: seq<seq<F>>)
    returns (convolved: seq<F>, activated: seq<F>, heads: seq<Head<F>>, core: seq<F>)
    requires hidden != [] && Run(GdnStep(d, k), FreshGdn(d, zero), hidden).Some?
    ensures forall i :: 0 <= i < |hidden| ==> Projects(d, k, hidden[i])
    ensures Run(GdnStep(d, k), FreshGdn(d, zero), hidden[..|hidden| - 1]).Some?
    ensures Convolves(d, k, zero, hidden, convolved) && k.activate(convolved) == Some(activated)
    ensures var p := k.project(hidden[|hidden| - 1]).value; FromChannels(d, k, activated, p.beta, p.alpha, heads)
    ensures RunsHeads(d, k.ops, Run(GdnStep(d, k), FreshGdn(d, zero), hidden[..|hidden| - 1]).value.0.recurrent,
                      Run(GdnStep(d, k), FreshGdn(d, zero), hidden).value.0.recurrent, heads, core)
    ensures k.finish(core, k.project(hidden[|hidden| - 1]).value.gate) ==
            Some(Run(GdnStep(d, k), FreshGdn(d, zero), hidden).value.1[|hidden| - 1])
  {
    hide GdnToken, ConvDotOf, ShiftIn, RunsHeads, FromChannels, FreshGdn;
    var t := |hidden| - 1;
    RunLast(GdnStep(d, k), FreshGdn(d, zero), hidden);
    hide Run;
    var before := Run(GdnStep(d, k), FreshGdn(d, zero), hidden[..t]).value.0;
    var after := Run(GdnStep(d, k), FreshGdn(d, zero), hidden).value.0;
    convolved, activated, heads, core := TokenIs(d, k, before, hidden[t]);
    WindowHolds(d, k, zero, hidden, 0, 0);
    forall channel | 0 <= channel < d.channels
      ensures k.convDot(channel, [ProjectedAt(d, k, zero, hidden, t - 3, channel), ProjectedAt(d, k, zero, hidden, t - 2, channel),
                                  ProjectedAt(d, k, zero, hidden, t - 1, channel), ProjectedAt(d, k, zero, hidden, t, channel)])
              == Some(convolved[channel])
    {
      WindowHolds(d, k, zero, hidden, channel, 0);
      WindowHolds(d, k, zero, hidden, channel, 1);
      WindowHolds(d, k, zero, hidden, channel, 2);
      WindowHolds(d, k, zero, hidden, channel, 3);
      WindowIs(k, after.conv, channel, d.channels);
    }
  }
}
