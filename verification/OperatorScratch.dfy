/** The scratch memory of the operators. For each of them the engine computes a size in one place and
    carves the buffers in another; here both are written down separately, and the sizes agree. */
module OperatorScratch {
  import opened Foundation
  import opened Regions

  // ----- the recurrent operator -----

  datatype GdnShape = GdnShape(hidden: nat, keyHeads: nat, valueHeads: nat, keyDim: nat, valueDim: nat) {
    function Key(): nat { Times(keyHeads, keyDim) }

    function Value(): nat { Times(valueHeads, valueDim) }

    function Channels(): nat { Key() + Key() + Value() }

    function Repeated(): nat { Times(valueHeads, keyDim) }

    function Recurrent(): nat { Times(Repeated(), valueDim) }
  }

  /** The buffers in floats, in the order in which they are carved. */
  function GdnWorkspace(s: GdnShape): seq<nat> {
    [s.Channels() * 4, s.Recurrent()] +
    [s.hidden, s.Channels(), s.Value(), s.valueHeads, s.valueHeads] +
    [s.Channels(), s.Repeated(), s.Repeated(), s.Value(), s.valueHeads] +
    [s.valueHeads, s.Value(), s.Value(), s.Value(), s.Value()] + [s.hidden]
  }

  lemma GdnWorkspaceSum(s: GdnShape)
    ensures Sum(GdnWorkspace(s)) == 6 * s.Channels() + s.Recurrent() + 2 * s.hidden + 6 * s.Value() + 4 * s.valueHeads + 2 * s.Repeated()
  {
    var a := [s.Channels() * 4, s.Recurrent()];
    var b := [s.hidden, s.Channels(), s.Value(), s.valueHeads, s.valueHeads];
    var c := [s.Channels(), s.Repeated(), s.Repeated(), s.Value(), s.valueHeads];
    var d := [s.valueHeads, s.Value(), s.Value(), s.Value(), s.Value()];
    SumTwo(s.Channels() * 4, s.Recurrent());
    SumFive(s.hidden, s.Channels(), s.Value(), s.valueHeads, s.valueHeads);
    SumFive(s.Channels(), s.Repeated(), s.Repeated(), s.Value(), s.valueHeads);
    SumFive(s.valueHeads, s.Value(), s.Value(), s.Value(), s.Value());
    SumOne(s.hidden);
    SumAppend(a, b);
    SumAppend(a + b, c);
    SumAppend(a + b + c, d);
    SumAppend(a + b + c + d, [s.hidden]);
  }

  predicate GdnFits(s: GdnShape) {
    s.Key() <= UINT32_MAX && s.Value() <= UINT32_MAX && s.Channels() <= UINT32_MAX && 4 * Sum(GdnWorkspace(s)) <= UINT64_MAX
  }

  /** The size, with every overflow check of the dimension validation. */
  method GdnScratchBytes(s: GdnShape) returns (status: Status, bytes: nat)
    ensures status.Ok? <==> GdnFits(s)
    ensures status.Ok? ==> bytes == 4 * Sum(GdnWorkspace(s))
  {
    GdnWorkspaceSum(s);
    hide GdnWorkspace, Sum, Times;
    bytes := 0;
    var key, value := Times(s.keyHeads, s.keyDim), Times(s.valueHeads, s.valueDim);
    var channels := key + key + value;
    if key > UINT32_MAX || value > UINT32_MAX || channels > UINT32_MAX {
      return ArithmeticOverflow, 0;
    }
    var repeated := Times(s.valueHeads, s.keyDim);
    var recurrent := Times(repeated, s.valueDim);
    if repeated > UINT64_MAX || recurrent > UINT64_MAX {
      return ArithmeticOverflow, 0;
    }
    var tokenFloats;
    var fits;
    fits, tokenFloats := AccumulateGdn(s.hidden, channels, value, s.valueHeads, repeated);
    if !fits || tokenFloats * 4 > UINT64_MAX {
      return ArithmeticOverflow, 0;
    }
    var total := tokenFloats + recurrent;
    if total > UINT64_MAX || total + channels * 4 > UINT64_MAX || (total + channels * 4) * 4 > UINT64_MAX {
      return ArithmeticOverflow, 0;
    }
    return Ok, (total + channels * 4) * 4;
  }

  /** The per-token part of the size, count by count. */
  method AccumulateGdn(hidden: nat, channels: nat, value: nat, heads: nat, repeated: nat) returns (fits: bool, floats: nat)
    ensures fits <==> 2 * channels + 2 * hidden + 6 * value + 4 * heads + 2 * repeated <= UINT64_MAX
    ensures fits ==> floats == 2 * channels + 2 * hidden + 6 * value + 4 * heads + 2 * repeated
  {
    var a, b := [hidden, channels, value, heads, heads], [channels, repeated, repeated, value, heads];
    var c := [heads, value, value, value, value];
    SumFive(hidden, channels, value, heads, heads);
    SumFive(channels, repeated, repeated, value, heads);
    SumFive(heads, value, value, value, value);
    SumOne(hidden);
    SumAppend(a, b);
    SumAppend(a + b, c);
    SumAppend(a + b + c, [hidden]);
    fits, floats := Accumulate(a + b + c + [hidden]);
  }

  // ----- sparse attention -----

  datatype QsaShape = QsaShape(hidden: nat, queryHeads: nat, kvHeads: nat, headDim: nat, indexHeads: nat, indexDim: nat,
                               blockSize: nat, tokenBudget: nat, capacity: nat) {
    predicate Valid() { blockSize > 0 && tokenBudget > 0 }

    function Query(): nat { Times(queryHeads, headDim) }

    function KeyValues(): nat { Times(kvHeads, headDim) }

    function IndexQuery(): nat { Times(indexHeads, indexDim) }

    function Blocks(): nat requires Valid() { capacity / blockSize }

    function TopK(): nat requires Valid() { tokenBudget / blockSize }

    function Selected(): nat requires Valid() { tokenBudget + blockSize - 1 }

    function Attention(): nat requires Valid() { Times(queryHeads, Selected()) }

    function BlockKeys(): nat requires Valid() { Times(Blocks(), indexDim) }
  }

  /** The buffers in floats, in the order in which they are carved. */
  function QsaWorkspace(s: QsaShape, sequence: nat): seq<nat>
    requires s.Valid()
  {
    [Times(sequence, s.KeyValues()), Times(sequence, s.KeyValues()), Times(sequence, s.indexDim)] +
    [Times(sequence, s.hidden), 2 * s.Query(), s.Query(), s.KeyValues(), s.KeyValues()] +
    [s.IndexQuery(), s.indexDim, s.BlockKeys(), s.Blocks(), s.Blocks()] +
    [s.TopK(), s.Selected(), s.Attention(), s.Attention(), s.Query()] + [s.Query(), s.hidden]
  }

  function QsaFloats(s: QsaShape, sequence: nat): nat
    requires s.Valid()
  {
    2 * Times(sequence, s.KeyValues()) + Times(sequence, s.indexDim) + Times(sequence, s.hidden) + 5 * s.Query() + 2 * s.KeyValues() + s.IndexQuery() +
    s.indexDim + s.BlockKeys() + 2 * s.Blocks() + s.TopK() + s.Selected() + 2 * s.Attention() + s.hidden
  }

  lemma QsaWorkspaceSum(s: QsaShape, sequence: nat)
    requires s.Valid()
    ensures Sum(QsaWorkspace(s, sequence)) == QsaFloats(s, sequence)
  {
    var a := [Times(sequence, s.KeyValues()), Times(sequence, s.KeyValues()), Times(sequence, s.indexDim)];
    var b := [Times(sequence, s.hidden), 2 * s.Query(), s.Query(), s.KeyValues(), s.KeyValues()];
    var c := [s.IndexQuery(), s.indexDim, s.BlockKeys(), s.Blocks(), s.Blocks()];
    var d := [s.TopK(), s.Selected(), s.Attention(), s.Attention(), s.Query()];
    var e := [s.Query(), s.hidden];
    SumThree(Times(sequence, s.KeyValues()), Times(sequence, s.KeyValues()), Times(sequence, s.indexDim));
    SumFive(Times(sequence, s.hidden), 2 * s.Query(), s.Query(), s.KeyValues(), s.KeyValues());
    SumFive(s.IndexQuery(), s.indexDim, s.BlockKeys(), s.Blocks(), s.Blocks());
    SumFive(s.TopK(), s.Selected(), s.Attention(), s.Attention(), s.Query());
    SumTwo(s.Query(), s.hidden);
    SumAppend(a, b);
    SumAppend(a + b, c);
    SumAppend(a + b + c, d);
    SumAppend(a + b + c + d, e);
  }

  predicate QsaFits(s: QsaShape, length: nat, sequence: nat)
    requires s.Valid()
  {
    length + sequence <= s.capacity && 4 * Sum(QsaWorkspace(s, sequence)) <= UINT64_MAX
  }

  /** The size for a call on `sequence` tokens by a state that holds `length`. Here the pending rows
      are one product, and the counts come in another order. */
  method QsaScratchBytes(s: QsaShape, length: nat, sequence: nat) returns (status: Status, bytes: nat)
    requires s.Valid() && s.capacity <= UINT64_MAX && sequence > 0
    ensures status.Ok? <==> QsaFits(s, length, sequence)
    ensures status.Ok? ==> bytes == 4 * Sum(QsaWorkspace(s, sequence))
  {
    QsaWorkspaceSum(s, sequence);
    hide QsaWorkspace, Sum, Times;
    bytes := 0;
    if s.Query() > UINT64_MAX || s.IndexQuery() > UINT64_MAX || length + sequence > s.capacity {
      return InvalidArgument, 0;
    }
    var stateWidth := s.KeyValues() + s.KeyValues() + s.indexDim;
    var pending, staged := Times(sequence, stateWidth), Times(sequence, s.hidden);
    WidthTimes(sequence, s.KeyValues(), s.indexDim);
    if stateWidth > UINT64_MAX || s.Query() + s.Query() > UINT64_MAX || s.BlockKeys() > UINT64_MAX ||
       pending > UINT64_MAX || staged > UINT64_MAX || s.Attention() > UINT64_MAX {
      return ArithmeticOverflow, 0;
    }
    var fits, total := AccumulateQsa(s, pending, staged);
    if !fits || total * 4 > UINT64_MAX {
      return ArithmeticOverflow, 0;
    }
    return Ok, total * 4;
  }

  lemma WidthTimes(n: nat, kv: nat, raw: nat)
    ensures Times(n, kv + kv + raw) == 2 * Times(n, kv) + Times(n, raw)
    ensures n > 0 ==> kv + kv + raw <= Times(n, kv + kv + raw)
  {
  }

  method AccumulateQsa(s: QsaShape, pending: nat, staged: nat) returns (fits: bool, floats: nat)
    requires s.Valid()
    ensures var total := pending + staged + 5 * s.Query() + 2 * s.KeyValues() + s.IndexQuery() + s.indexDim + s.BlockKeys() +
                         2 * s.Blocks() + s.TopK() + s.Selected() + 2 * s.Attention() + s.hidden;
            (fits <==> total <= UINT64_MAX) && (fits ==> floats == total)
  {
    var query, kv, attention := s.Query(), s.KeyValues(), s.Attention();
    var a, b := [pending, staged, query + query, query, kv], [kv, s.IndexQuery(), s.indexDim, s.BlockKeys(), s.Blocks()];
    var c, d := [s.Blocks(), s.TopK(), s.Selected(), attention, attention], [query, query, s.hidden];
    SumFive(pending, staged, query + query, query, kv);
    SumFive(kv, s.IndexQuery(), s.indexDim, s.BlockKeys(), s.Blocks());
    SumFive(s.Blocks(), s.TopK(), s.Selected(), attention, attention);
    SumThree(query, query, s.hidden);
    SumAppend(a, b);
    SumAppend(a + b, c);
    SumAppend(a + b + c, d);
    fits, floats := Accumulate(a + b + c + d);
  }

  // ----- experts -----

  datatype MoeShape = MoeShape(hidden: nat, experts: nat, topK: nat, routed: nat, shared: nat)

  /** The buffers in four-byte values, in the order in which they are carved. */
  function MoeWorkspace(s: MoeShape): seq<nat> {
    [s.experts, s.experts, s.topK, s.topK, s.routed] + [s.routed, s.routed, s.hidden, s.hidden, s.hidden] +
    [s.shared, s.shared, s.shared, s.hidden, s.hidden]
  }

  lemma MoeWorkspaceSum(s: MoeShape)
    ensures Sum(MoeWorkspace(s)) == 2 * s.experts + 2 * s.topK + 3 * s.routed + 5 * s.hidden + 3 * s.shared
  {
    var a, b := [s.experts, s.experts, s.topK, s.topK, s.routed], [s.routed, s.routed, s.hidden, s.hidden, s.hidden];
    var c := [s.shared, s.shared, s.shared, s.hidden, s.hidden];
    SumFive(s.experts, s.experts, s.topK, s.topK, s.routed);
    SumFive(s.routed, s.routed, s.hidden, s.hidden, s.hidden);
    SumFive(s.shared, s.shared, s.shared, s.hidden, s.hidden);
    SumAppend(a, b);
    SumAppend(a + b, c);
  }

  predicate MoeFits(s: MoeShape) {
    4 * Sum(MoeWorkspace(s)) <= UINT64_MAX
  }

  /** The size, in the five parts that the configuration reports. */
  method MoeScratchBytes(s: MoeShape) returns (status: Status, bytes: nat)
    ensures status.Ok? <==> MoeFits(s)
    ensures status.Ok? ==> bytes == 4 * Sum(MoeWorkspace(s))
  {
    MoeWorkspaceSum(s);
    hide MoeWorkspace;
    bytes := 0;
    var router, selection := s.experts * 2 * 4, s.topK * 8;
    if router > UINT64_MAX || selection > UINT64_MAX {
      return ArithmeticOverflow, 0;
    }
    var expert, sum, shared := (s.routed * 3 + s.hidden * 2) * 4, s.hidden * 4, (s.shared * 3 + s.hidden * 2) * 4;
    if expert > UINT64_MAX || sum > UINT64_MAX || shared > UINT64_MAX {
      return ArithmeticOverflow, 0;
    }
    SumFive(router, selection, expert, sum, shared);
    var fits, total := Accumulate([router, selection, expert, sum, shared]);
    if !fits {
      return ArithmeticOverflow, 0;
    }
    return Ok, total;
  }

  // ----- table values -----

  datatype ValueShape = ValueShape(hidden: nat, branches: nat, headCount: nat, rowWidth: nat) {
    function Embedding(): nat { Times(headCount, rowWidth) }

    function Branch(): nat { Times(hidden, branches) }

    function State(): nat { Branch() * 9 }
  }

  /** The buffers in floats, in the order in which they are carved. */
  function ValueWorkspace(s: ValueShape): seq<nat> {
    [s.State(), s.Embedding(), s.rowWidth, s.hidden, s.Branch()] + [s.Branch(), s.Branch(), s.Branch()] + [s.Branch(), s.Branch(), s.Branch()]
  }

  lemma ValueWorkspaceSum(s: ValueShape)
    ensures Sum(ValueWorkspace(s)) == s.State() + s.Embedding() + s.rowWidth + s.hidden + 7 * s.Branch()
  {
    var a, b := [s.State(), s.Embedding(), s.rowWidth, s.hidden, s.Branch()], [s.Branch(), s.Branch(), s.Branch()];
    SumFive(s.State(), s.Embedding(), s.rowWidth, s.hidden, s.Branch());
    SumThree(s.Branch(), s.Branch(), s.Branch());
    SumAppend(a, b);
    SumAppend(a + b, b);
  }

  predicate ValueFits(s: ValueShape) {
    4 * Sum(ValueWorkspace(s)) <= UINT64_MAX
  }

  method ValueScratchBytes(s: ValueShape) returns (status: Status, bytes: nat)
    ensures status.Ok? <==> ValueFits(s)
    ensures status.Ok? ==> bytes == 4 * Sum(ValueWorkspace(s))
  {
    ValueWorkspaceSum(s);
    hide ValueWorkspace, Sum, Times;
    bytes := 0;
    var embedding, branch := Times(s.headCount, s.rowWidth), Times(s.hidden, s.branches);
    var state := branch * 9;
    if embedding > UINT64_MAX || branch > UINT64_MAX || state > UINT64_MAX || state * 4 > UINT64_MAX || state * 2 > UINT64_MAX {
      return ArithmeticOverflow, 0;
    }
    var floats := state + embedding + s.rowWidth + s.hidden;
    if floats > UINT64_MAX || branch * 7 > UINT64_MAX || floats + branch * 7 > UINT64_MAX || (floats + branch * 7) * 4 > UINT64_MAX {
      return ArithmeticOverflow, 0;
    }
    return Ok, (floats + branch * 7) * 4;
  }
}
