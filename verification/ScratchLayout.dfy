/** One block of scratch memory for a whole call: the model carves its buffers off it and hands the
    rest to the layers, one after the other; a layer carves its own and hands the rest to its
    operators, one after the other; behind that lies the block into which weights are decoded. */
module ScratchLayout {
  import opened Foundation
  import opened Regions
  import opened OperatorScratch

  const INTENT_BYTES: nat := 64
  const ADDRESSES_PER_TOKEN: nat := 16
  const WEIGHT_BYTES: nat := 1048576
  const HIDDEN: nat := 2560
  const FINAL_WIDTH: nat := 10240
  const GR_RANK: nat := 320

  // ----- a layer -----

  datatype MixerShape = GdnMixer(gdn: GdnShape) | QsaMixer(qsa: QsaShape)

  datatype LayerShape = LayerShape(hidden: nat, branches: nat, rank: nat, table: Option<ValueShape>, mixer: MixerShape, moe: MoeShape) {
    /** What the creation of the configurations has checked. */
    predicate Valid() {
      && hidden <= UINT32_MAX && branches <= UINT32_MAX && rank <= UINT32_MAX
      && (mixer.GdnMixer? ==> GdnFits(mixer.gdn)) && (mixer.QsaMixer? ==> mixer.qsa.Valid() && mixer.qsa.capacity <= UINT64_MAX)
      && (table.Some? ==> ValueFits(table.value)) && MoeFits(moe)
    }

    function Width(): nat { Times(hidden, branches) }
  }

  /** The buffers of a layer in bytes, in the order in which they are carved. */
  function LayerBuffers(s: LayerShape, tokens: nat): seq<nat> {
    var w, h, b := Times(tokens, s.Width()), Times(tokens, s.hidden), Times(tokens, s.branches);
    Words([w, w, h, h, w] + [h, h, s.Width(), s.Width(), s.rank] + [b, b]) +
    (if s.table.Some? then [tokens * ADDRESSES_PER_TOKEN * INTENT_BYTES] else [])
  }

  /** The workspaces of the operators in bytes. They use the same memory, one after the other. */
  function Workspaces(s: LayerShape, tokens: nat): seq<seq<nat>>
    requires s.Valid()
  {
    (if s.table.Some? then [Words(ValueWorkspace(s.table.value))] else []) +
    [if s.mixer.GdnMixer? then Words(GdnWorkspace(s.mixer.gdn)) else Words(QsaWorkspace(s.mixer.qsa, tokens)), Words(MoeWorkspace(s.moe))]
  }

  function Max(a: nat, b: nat): nat { if b > a then b else a }

  /** The largest demand of the first n workspaces. */
  function Largest(spaces: seq<seq<nat>>, n: nat): nat
    requires n <= |spaces|
  {
    if n == 0 then 0 else Max(Largest(spaces, n - 1), Sum(spaces[n - 1]))
  }

  lemma {:induction false} LargestIsEnough(spaces: seq<seq<nat>>, n: nat, op: nat)
    requires op < n <= |spaces|
    ensures Sum(spaces[op]) <= Largest(spaces, n)
  {
    if op < n - 1 {
      LargestIsEnough(spaces, n - 1, op);
    }
  }

  function SubBytes(s: LayerShape, tokens: nat): nat
    requires s.Valid()
  {
    Largest(Workspaces(s, tokens), |Workspaces(s, tokens)|)
  }

  /** The size of a layer's block, without the weights. */
  function LayerBytes(s: LayerShape, tokens: nat): nat
    requires s.Valid()
  {
    Sum(LayerBuffers(s, tokens)) + SubBytes(s, tokens)
  }

  /** The floats that a layer needs per token, and those it needs once. */
  function PerToken(s: LayerShape): nat { s.Width() * 3 + s.hidden * 4 + s.branches * 2 }

  function Once(s: LayerShape): nat { s.Width() * 2 + s.rank }

  lemma LayerBuffersSum(s: LayerShape, tokens: nat)
    ensures Sum(LayerBuffers(s, tokens)) ==
            (Times(tokens, PerToken(s)) + Once(s)) * 4 + (if s.table.Some? then tokens * ADDRESSES_PER_TOKEN * INTENT_BYTES else 0)
  {
    hide Times, Sum;
    var w, h, b := Times(tokens, s.Width()), Times(tokens, s.hidden), Times(tokens, s.branches);
    var x, y := [w, w, h, h, w], [h, h, s.Width(), s.Width(), s.rank];
    SumFive(w, w, h, h, w);
    SumFive(h, h, s.Width(), s.Width(), s.rank);
    SumTwo(b, b);
    SumAppend(x, y);
    SumAppend(x + y, [b, b]);
    SumWords(x + y + [b, b]);
    TimesDistributes(tokens, s.Width(), s.hidden, s.branches);
    if s.table.Some? {
      SumOne(tokens * ADDRESSES_PER_TOKEN * INTENT_BYTES);
      SumAppend(Words(x + y + [b, b]), [tokens * ADDRESSES_PER_TOKEN * INTENT_BYTES]);
    } else {
      assert Words(x + y + [b, b]) + [] == Words(x + y + [b, b]);
    }
  }

  lemma TimesDistributes(t: nat, w: nat, h: nat, b: nat)
    ensures Times(t, w * 3 + h * 4 + b * 2) == 3 * Times(t, w) + 4 * Times(t, h) + 2 * Times(t, b)
  {
  }

  /** A 64-bit word. */
  function Wrapped(x: nat): nat { x % (UINT64_MAX + 1) }

  lemma WrappedIs(x: nat, n: nat)
    requires n * (UINT64_MAX + 1) <= x < (n + 1) * (UINT64_MAX + 1)
    ensures Wrapped(x) == x - n * (UINT64_MAX + 1)
  {
  }

  lemma WidthIsWord(hidden: nat, branches: nat)
    requires hidden <= UINT32_MAX && branches <= UINT32_MAX
    ensures Times(hidden, branches) <= UINT32_MAX * UINT32_MAX
  {
    assert hidden * branches <= UINT32_MAX * branches <= UINT32_MAX * UINT32_MAX;
  }

  /** The widths are added in 64-bit words without a check. When the sum wraps, what is left of the
      two sums is still too much for a size in bytes. */
  lemma WrappingIsRefused(w: nat, h: nat, b: nat, r: nat)
    requires w <= UINT32_MAX * UINT32_MAX && h <= UINT32_MAX && b <= UINT32_MAX && r <= UINT32_MAX
    requires w * 3 + h * 4 + b * 2 > UINT64_MAX
    ensures (Wrapped(w * 3 + h * 4 + b * 2) + Wrapped(w * 2 + r)) * 4 > UINT64_MAX
  {
    hide Wrapped;
    var a, f, m := w * 3 + h * 4 + b * 2, w * 2 + r, UINT64_MAX + 1;
    assert a < 3 * m && f < 2 * m;
    if a < 2 * m {
      WrappedIs(a, 1);
    } else {
      WrappedIs(a, 2);
    }
    if f < m {
      WrappedIs(f, 0);
    } else {
      WrappedIs(f, 1);
    }
  }

  /** Without wrapping the words are the sums. */
  lemma NothingWraps(w: nat, h: nat, b: nat, r: nat)
    requires r <= UINT32_MAX && w * 3 + h * 4 + b * 2 <= UINT64_MAX
    ensures Wrapped(w * 3 + h * 4 + b * 2) == w * 3 + h * 4 + b * 2 && Wrapped(w * 2 + r) == w * 2 + r
  {
    WrappedIs(w * 3 + h * 4 + b * 2, 0);
    WrappedIs(w * 2 + r, 0);
  }

  lemma TimesAtLeast(t: nat, x: nat)
    requires t > 0
    ensures Times(t, x) >= x
  {
  }

  /** The floats of a layer: checked products and sums of unchecked widths. */
  method LayerFloats(s: LayerShape, tokens: nat) returns (fits: bool, bytes: nat)
    requires s.Valid() && tokens > 0
    ensures fits <==> (Times(tokens, PerToken(s)) + Once(s)) * 4 <= UINT64_MAX
    ensures fits ==> bytes == (Times(tokens, PerToken(s)) + Once(s)) * 4
  {
    hide Times, Wrapped;
    WidthIsWord(s.hidden, s.branches);
    var width := Times(s.hidden, s.branches);
    var perToken, once := Wrapped(width * 3 + s.hidden * 4 + s.branches * 2), Wrapped(width * 2 + s.rank);
    if PerToken(s) > UINT64_MAX {
      WrappingIsRefused(width, s.hidden, s.branches, s.rank);
      TimesAtLeast(tokens, PerToken(s));
      TimesAtLeast(tokens, perToken);
    } else {
      NothingWraps(width, s.hidden, s.branches, s.rank);
    }
    var floats := Times(tokens, perToken);
    if floats > UINT64_MAX || floats + once > UINT64_MAX || (floats + once) * 4 > UINT64_MAX {
      return false, 0;
    }
    return true, (floats + once) * 4;
  }

  predicate MixerFits(s: LayerShape, length: nat, tokens: nat)
    requires s.Valid()
  {
    s.mixer.QsaMixer? ==> QsaFits(s.mixer.qsa, length, tokens)
  }

  /** The largest demand of a layer's operators, asked of each in turn. */
  method LargestDemand(s: LayerShape, length: nat, tokens: nat) returns (status: Status, sub: nat)
    requires s.Valid() && tokens > 0
    ensures status.Ok? <==> MixerFits(s, length, tokens)
    ensures status.Ok? ==> sub == SubBytes(s, tokens)
  {
    WorkspaceSums(s, tokens);
    hide GdnFits, ValueFits, MoeFits, Sum, Words, GdnWorkspace, QsaWorkspace, MoeWorkspace, ValueWorkspace, SubBytes;
    sub := 0;
    var demand;
    if s.table.Some? {
      status, demand := ValueScratchBytes(s.table.value);
      sub := demand;
    }
    if s.mixer.GdnMixer? {
      status, demand := GdnScratchBytes(s.mixer.gdn);
      if demand > sub {
        sub := demand;
      }
    } else {
      status, demand := QsaScratchBytes(s.mixer.qsa, length, tokens);
      if !status.Ok? {
        return;
      }
      if demand > sub {
        sub := demand;
      }
    }
    status, demand := MoeScratchBytes(s.moe);
    if demand > sub {
      sub := demand;
    }
  }

  lemma WorkspaceSums(s: LayerShape, tokens: nat)
    requires s.Valid()
    ensures var mixer := if s.mixer.GdnMixer? then 4 * Sum(GdnWorkspace(s.mixer.gdn)) else 4 * Sum(QsaWorkspace(s.mixer.qsa, tokens));
            var table := if s.table.Some? then 4 * Sum(ValueWorkspace(s.table.value)) else 0;
            SubBytes(s, tokens) == Max(Max(table, mixer), 4 * Sum(MoeWorkspace(s.moe)))
  {
    hide GdnFits, ValueFits, MoeFits, Sum, Words, GdnWorkspace, QsaWorkspace, MoeWorkspace, ValueWorkspace;
    if s.table.Some? {
      SumWords(ValueWorkspace(s.table.value));
    }
    if s.mixer.GdnMixer? {
      SumWords(GdnWorkspace(s.mixer.gdn));
    } else {
      SumWords(QsaWorkspace(s.mixer.qsa, tokens));
    }
    SumWords(MoeWorkspace(s.moe));
    var spaces := Workspaces(s, tokens);
    assert Largest(spaces, 0) == 0;
    assert Largest(spaces, 1) == Max(0, Sum(spaces[0]));
    assert Largest(spaces, 2) == Max(Largest(spaces, 1), Sum(spaces[1]));
  }

  /** The size that a layer reports for a call on `tokens` tokens by a state that holds `length`. */
  method LayerRequired(s: LayerShape, length: nat, tokens: nat) returns (status: Status, bytes: nat)
    requires s.Valid() && tokens > 0
    ensures status.Ok? <==> MixerFits(s, length, tokens) && LayerBytes(s, tokens) <= UINT64_MAX
    ensures status.Ok? ==> bytes == LayerBytes(s, tokens)
  {
    hide s.Valid, Sum, LayerBuffers, SubBytes, PerToken, Once, MixerFits;
    LayerBuffersSum(s, tokens);
    bytes := 0;
    var fits, base := LayerFloats(s, tokens);
    if !fits {
      return ArithmeticOverflow, 0;
    }
    if s.table.Some? {
      if base + tokens * ADDRESSES_PER_TOKEN * INTENT_BYTES > UINT64_MAX {
        return ArithmeticOverflow, 0;
      }
      base := base + tokens * ADDRESSES_PER_TOKEN * INTENT_BYTES;
    }
    var sub;
    status, sub := LargestDemand(s, length, tokens);
    if !status.Ok? {
      return;
    }
    if base + sub > UINT64_MAX {
      return ArithmeticOverflow, 0;
    }
    return Ok, base + sub;
  }

  /** The size with the block for decoded weights, which is what the executor asks for. */
  method LayerRequiredQuantized(s: LayerShape, length: nat, tokens: nat) returns (status: Status, bytes: nat)
    requires s.Valid() && tokens > 0
    ensures status.Ok? <==> MixerFits(s, length, tokens) && LayerBytes(s, tokens) + WEIGHT_BYTES <= UINT64_MAX
    ensures status.Ok? ==> bytes == LayerBytes(s, tokens) + WEIGHT_BYTES
  {
    hide s.Valid, LayerBytes, MixerFits;
    status, bytes := LayerRequired(s, length, tokens);
    if !status.Ok? {
      return;
    }
    if bytes + WEIGHT_BYTES > UINT64_MAX {
      return ArithmeticOverflow, 0;
    }
    bytes := bytes + WEIGHT_BYTES;
  }

  // ----- the model -----

  /** The buffers of a call in bytes, in the order in which they are carved. */
  function ModelBuffers(tokens: nat): seq<nat> {
    var rows := tokens * FINAL_WIDTH;
    Words([rows, rows, HIDDEN, FINAL_WIDTH, FINAL_WIDTH] + [GR_RANK, GR_RANK, FINAL_WIDTH, FINAL_WIDTH, FINAL_WIDTH] +
          [HIDDEN, VOCABULARY_SIZE, VOCABULARY_SIZE + HIDDEN])
  }

  ghost predicate AllValid(layers: seq<LayerShape>) {
    forall i :: 0 <= i < |layers| ==> layers[i].Valid()
  }

  /** The largest demand of the first n layers. */
  ghost function LayerMax(layers: seq<LayerShape>, tokens: nat, n: nat): nat
    requires AllValid(layers) && n <= |layers|
  {
    if n == 0 then 0 else Max(LayerMax(layers, tokens, n - 1), LayerBytes(layers[n - 1], tokens) + WEIGHT_BYTES)
  }

  lemma {:induction false} LayerMaxIsEnough(layers: seq<LayerShape>, tokens: nat, n: nat, i: nat)
    requires AllValid(layers) && i < n <= |layers|
    ensures LayerBytes(layers[i], tokens) + WEIGHT_BYTES <= LayerMax(layers, tokens, n)
  {
    hide LayerBytes;
    if i < n - 1 {
      LayerMaxIsEnough(layers, tokens, n - 1, i);
    }
  }

  ghost function ModelBytes(layers: seq<LayerShape>, tokens: nat): nat
    requires AllValid(layers)
  {
    Sum(ModelBuffers(tokens)) + LayerMax(layers, tokens, |layers|)
  }

  lemma ModelBuffersSum(tokens: nat)
    ensures Sum(ModelBuffers(tokens)) ==
            (tokens * FINAL_WIDTH * 2 + HIDDEN + FINAL_WIDTH * 5 + GR_RANK * 2 + HIDDEN + VOCABULARY_SIZE) * 4 + (VOCABULARY_SIZE + HIDDEN) * 4
  {
    hide Sum;
    var rows := tokens * FINAL_WIDTH;
    var x, y := [rows, rows, HIDDEN, FINAL_WIDTH, FINAL_WIDTH], [GR_RANK, GR_RANK, FINAL_WIDTH, FINAL_WIDTH, FINAL_WIDTH];
    var z := [HIDDEN, VOCABULARY_SIZE, VOCABULARY_SIZE + HIDDEN];
    SumFive(rows, rows, HIDDEN, FINAL_WIDTH, FINAL_WIDTH);
    SumFive(GR_RANK, GR_RANK, FINAL_WIDTH, FINAL_WIDTH, FINAL_WIDTH);
    SumThree(HIDDEN, VOCABULARY_SIZE, VOCABULARY_SIZE + HIDDEN);
    SumAppend(x, y);
    SumAppend(x + y, z);
    SumWords(x + y + z);
  }

  ghost predicate LayersFit(layers: seq<LayerShape>, length: nat, tokens: nat)
    requires AllValid(layers)
  {
    forall i :: 0 <= i < |layers| ==> MixerFits(layers[i], length, tokens) && LayerBytes(layers[i], tokens) + WEIGHT_BYTES <= UINT64_MAX
  }

  /** The largest block any layer asks for. */
  method LargestLayer(layers: seq<LayerShape>, length: nat, tokens: nat) returns (status: Status, largest: nat)
    requires AllValid(layers) && tokens > 0
    ensures status.Ok? <==> LayersFit(layers, length, tokens)
    ensures status.Ok? ==> largest == LayerMax(layers, tokens, |layers|)
  {
    hide LayerBytes, MixerFits, LayerShape.Valid;
    largest := 0;
    for i := 0 to |layers|
      invariant forall j :: 0 <= j < i ==> MixerFits(layers[j], length, tokens) && LayerBytes(layers[j], tokens) + WEIGHT_BYTES <= UINT64_MAX
      invariant largest == LayerMax(layers, tokens, i)
    {
      var candidate;
      status, candidate := LayerRequiredQuantized(layers[i], length, tokens);
      if !status.Ok? {
        return;
      }
      if candidate > largest {
        largest := candidate;
      }
    }
    status := Ok;
  }

  /** The size of a call's block, with every overflow check. */
  method ModelRequired(layers: seq<LayerShape>, length: nat, tokens: nat) returns (status: Status, bytes: nat, layerBytes: nat)
    requires AllValid(layers) && tokens > 0
    ensures status.Ok? <==> LayersFit(layers, length, tokens) && ModelBytes(layers, tokens) <= UINT64_MAX
    ensures status.Ok? ==> bytes == ModelBytes(layers, tokens) && layerBytes == LayerMax(layers, tokens, |layers|)
  {
    hide LayersFit, LayerMax, Sum, ModelBuffers;
    ModelBuffersSum(tokens);
    status, layerBytes := LargestLayer(layers, length, tokens);
    bytes := 0;
    if !status.Ok? {
      return;
    }
    var rows := tokens * FINAL_WIDTH;
    var fixedFloats := rows * 2 + HIDDEN + FINAL_WIDTH * 5 + GR_RANK * 2 + HIDDEN + VOCABULARY_SIZE;
    if rows > UINT64_MAX || rows * 2 > UINT64_MAX || fixedFloats > UINT64_MAX || fixedFloats * 4 > UINT64_MAX {
      return ArithmeticOverflow, 0, layerBytes;
    }
    bytes := fixedFloats * 4 + (VOCABULARY_SIZE + HIDDEN) * 4;
    if bytes > UINT64_MAX || bytes + layerBytes > UINT64_MAX {
      return ArithmeticOverflow, bytes, layerBytes;
    }
    bytes := bytes + layerBytes;
  }

  // ----- the partition of the block -----

  /** Where the layer's block starts, where its operators' memory, where the decoded weights. */
  ghost function AtLayer(tokens: nat): nat { Sum(ModelBuffers(tokens)) }

  ghost function AtSub(s: LayerShape, tokens: nat): nat { AtLayer(tokens) + Sum(LayerBuffers(s, tokens)) }

  ghost function AtWeights(s: LayerShape, tokens: nat): nat
    requires s.Valid()
  {
    AtLayer(tokens) + LayerBytes(s, tokens)
  }

  /** What the layer was given beyond its own demand. */
  ghost function WeightRegion(layers: seq<LayerShape>, tokens: nat, i: nat): (r: Region)
    requires AllValid(layers) && i < |layers|
    ensures r.start == AtWeights(layers[i], tokens) && r.size >= WEIGHT_BYTES && r.End() == ModelBytes(layers, tokens)
  {
    LayerMaxIsEnough(layers, tokens, |layers|, i);
    Region(AtWeights(layers[i], tokens), LayerMax(layers, tokens, |layers|) - LayerBytes(layers[i], tokens))
  }

  /** Everything that is in use while operator `op` of layer i runs: the model's buffers, the layer's,
      the operator's, and the decoded weights. */
  ghost function Layout(layers: seq<LayerShape>, tokens: nat, i: nat, op: nat): seq<Region>
    requires AllValid(layers) && i < |layers| && op < |Workspaces(layers[i], tokens)|
  {
    Carved(ModelBuffers(tokens), 0) + Carved(LayerBuffers(layers[i], tokens), AtLayer(tokens)) +
    Carved(Workspaces(layers[i], tokens)[op], AtSub(layers[i], tokens)) + [WeightRegion(layers, tokens, i)]
  }

  /** No buffer of the model, of a layer or of an operator, and no decoded weight, shares a byte with
      another or lies outside the block whose size was computed. */
  lemma LayoutIsSafe(layers: seq<LayerShape>, tokens: nat, i: nat, op: nat)
    requires AllValid(layers) && i < |layers| && op < |Workspaces(layers[i], tokens)|
    ensures Inside(Layout(layers, tokens, i, op), 0, ModelBytes(layers, tokens)) && Apart(Layout(layers, tokens, i, op))
    ensures WeightRegion(layers, tokens, i).size >= WEIGHT_BYTES
  {
    hide Sum, ModelBuffers, LayerBuffers, Carved, LayerMax, Inside, Apart, Workspaces, ModelBytes, AtWeights, AtSub, AtLayer, LayerBytes;
    var space := Workspaces(layers[i], tokens)[op];
    OperatorFits(layers[i], tokens, op);
    CarvedIsSafe(ModelBuffers(tokens), 0);
    CarvedIsSafe(LayerBuffers(layers[i], tokens), AtLayer(tokens));
    CarvedIsSafe(space, AtSub(layers[i], tokens));
    Boundaries(layers[i], tokens);
    InsideLonger(Carved(space, AtSub(layers[i], tokens)), AtSub(layers[i], tokens), AtSub(layers[i], tokens) + Sum(space), AtWeights(layers[i], tokens));
    var weights := WeightRegion(layers, tokens, i);
    OneIsSafe(weights);
    FourAreSafe(Carved(ModelBuffers(tokens), 0), Carved(LayerBuffers(layers[i], tokens), AtLayer(tokens)), Carved(space, AtSub(layers[i], tokens)),
                [weights], AtLayer(tokens), AtSub(layers[i], tokens), AtWeights(layers[i], tokens), ModelBytes(layers, tokens));
  }

  lemma Boundaries(s: LayerShape, tokens: nat)
    requires s.Valid()
    ensures AtLayer(tokens) == 0 + Sum(ModelBuffers(tokens)) && AtSub(s, tokens) == AtLayer(tokens) + Sum(LayerBuffers(s, tokens))
    ensures AtSub(s, tokens) <= AtWeights(s, tokens)
  {
  }

  /** An operator's demand fits what its layer hands it. */
  lemma OperatorFits(s: LayerShape, tokens: nat, op: nat)
    requires s.Valid() && op < |Workspaces(s, tokens)|
    ensures AtSub(s, tokens) + Sum(Workspaces(s, tokens)[op]) <= AtWeights(s, tokens)
  {
    hide Sum, Workspaces, ModelBuffers, LayerBuffers;
    LargestIsEnough(Workspaces(s, tokens), |Workspaces(s, tokens)|, op);
  }

  lemma OneIsSafe(region: Region)
    ensures Inside([region], region.start, region.End()) && Apart([region])
  {
  }

  lemma FourAreSafe(a: seq<Region>, b: seq<Region>, c: seq<Region>, d: seq<Region>, p: nat, q: nat, r: nat, end: nat)
    requires p <= q <= r <= end && Inside(a, 0, p) && Inside(b, p, q) && Inside(c, q, r) && Inside(d, r, end)
    requires Apart(a) && Apart(b) && Apart(c) && Apart(d)
    ensures Inside(a + b + c + d, 0, end) && Apart(a + b + c + d)
  {
    hide Inside, Apart;
    JoinedAreSafe(a, b, 0, p, q);
    JoinedAreSafe(a + b, c, 0, q, r);
    JoinedAreSafe(a + b + c, d, 0, r, end);
  }

  lemma InsideLonger(regions: seq<Region>, from: nat, end: nat, further: nat)
    requires Inside(regions, from, end) && end <= further
    ensures Inside(regions, from, further)
  {
  }

  /** The partition of the model's block: its buffers, and the rest for the layers. */
  method PartitionModel(tokens: nat, layerBytes: nat) returns (regions: seq<Region>, rest: Region)
    ensures regions == Carved(ModelBuffers(tokens), 0) && rest == Region(Sum(ModelBuffers(tokens)), layerBytes)
  {
    var cursor;
    regions, cursor := Carve(0, ModelBuffers(tokens));
    rest := Region(cursor, layerBytes);
  }

  /** The partition of a layer's block: its buffers, the rest of what it has asked for to its
      operators, and what it was given beyond that to the weights. */
  method PartitionLayer(s: LayerShape, tokens: nat, block: Region, required: nat) returns (regions: seq<Region>, sub: Region, weights: Region)
    requires s.Valid() && required == LayerBytes(s, tokens) <= block.size
    ensures regions == Carved(LayerBuffers(s, tokens), block.start)
    ensures sub == Region(block.start + Sum(LayerBuffers(s, tokens)), SubBytes(s, tokens))
    ensures weights == Region(block.start + required, block.size - required)
  {
    var cursor;
    regions, cursor := Carve(block.start, LayerBuffers(s, tokens));
    sub := Region(cursor, required - (cursor - block.start));
    weights := Region(block.start + required, block.size - required);
  }

  /** The partitions of a call, down to one operator, starting from the sizes that were reported. The
      operator finds at least what it has asked for, and so does the decoding of weights. */
  method PartitionCall(layers: seq<LayerShape>, length: nat, tokens: nat, i: nat, op: nat)
    returns (status: Status, regions: seq<Region>, size: nat)
    requires AllValid(layers) && tokens > 0 && i < |layers| && op < |Workspaces(layers[i], tokens)|
    ensures status.Ok? <==> LayersFit(layers, length, tokens) && ModelBytes(layers, tokens) <= UINT64_MAX
    ensures status.Ok? ==> size == ModelBytes(layers, tokens) && regions == Layout(layers, tokens, i, op)
    ensures status.Ok? ==> Inside(regions, 0, size) && Apart(regions)
  {
    hide Inside, Apart, Sum, ModelBuffers, LayerBuffers, Workspaces, Carved, LayerMax, LayersFit, LayerBytes, SubBytes;
    regions := [];
    LayoutIsSafe(layers, tokens, i, op);
    var layerBytes;
    status, size, layerBytes := ModelRequired(layers, length, tokens);
    if !status.Ok? {
      return;
    }
    LayerFits(layers, length, tokens, i);
    var required;
    status, required := LayerRequired(layers[i], length, tokens);
    var buffers, block := PartitionModel(tokens, layerBytes);
    var own, sub, weights := PartitionLayer(layers[i], tokens, block, required);
    var space, _ := Carve(sub.start, Workspaces(layers[i], tokens)[op]);
    regions := buffers + own + space + [weights];
  }

  /** A layer's demand fits what the model hands it. */
  lemma LayerFits(layers: seq<LayerShape>, length: nat, tokens: nat, i: nat)
    requires AllValid(layers) && LayersFit(layers, length, tokens) && i < |layers|
    ensures layers[i].Valid() && MixerFits(layers[i], length, tokens)
    ensures LayerBytes(layers[i], tokens) <= UINT64_MAX && LayerBytes(layers[i], tokens) + WEIGHT_BYTES <= LayerMax(layers, tokens, |layers|)
  {
    LayerMaxIsEnough(layers, tokens, |layers|, i);
  }
}
