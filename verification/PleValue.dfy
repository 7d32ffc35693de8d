/** The value half of the product-key layer: table rows looked up by address intents, a gate, and a
    dilated convolution whose history is carried from call to call. */
module PleValue {
  import opened Foundation
  import opened Streaming
  import opened FlatIndex
  import opened ShiftRegister
  import opened PleAddress

  const HISTORY_LENGTH: nat := 9
  const DILATION: nat := 3
  const TAPS: nat := 4

  datatype ValueConfig = ValueConfig(branchWidth: nat, rowWidth: nat, members: nat, memberRows: nat)

  /** The arithmetic of the operator: deterministic kernels that may fail. */
  datatype ValueKernels = ValueKernels(
    finite: F32 -> bool,
    lookup: (nat, nat) -> Option<Row>,
    gate: (Row, Row) -> Option<(Row, Row)>,
    tap: (nat, Row) -> F32,
    silu: Row -> Option<Row>,
    add: (F32, F32) -> F32)

  /** What a slot stores: the position and, per branch element, nine convolution inputs. */
  datatype ValueView = ValueView(position: nat, history: Row)

  /** One token's input: its hidden row and its sixteen intents. */
  type Token = (Row, seq<Intent>)

  function FreshValue(c: ValueConfig): ValueView {
    ValueView(0, seq(c.branchWidth * HISTORY_LENGTH, _ => ZERO))
  }

  /** The intent at place i of a token belongs there. */
  predicate IntentFits(c: ValueConfig, position: nat, i: nat, intent: Intent) {
    && intent.position == position && intent.globalHead == i
    && intent.order == 2 + i / HEADS_PER_ORDER && intent.localHead == i % HEADS_PER_ORDER
    && intent.member < c.members && intent.memberRow < c.memberRows
  }

  predicate IntentsFit(c: ValueConfig, position: nat, intents: seq<Intent>) {
    |intents| == HEAD_COUNT && forall i :: 0 <= i < HEAD_COUNT ==> IntentFits(c, position, i, intents[i])
  }

  /** A finite table row of the right width. */
  function LookupRow(c: ValueConfig, k: ValueKernels, intent: Intent): Option<Row> {
    var row := Shaped(k.lookup(intent.member, intent.memberRow), c.rowWidth);
    if row.Some? && AllFinite(k.finite, row.value) then row else None
  }

  function LookupOf(c: ValueConfig, k: ValueKernels): Intent -> Option<Row> {
    intent => LookupRow(c, k, intent)
  }

  /** The gated values and the convolution input of one token: no state enters here. */
  function Gated(c: ValueConfig, k: ValueKernels, token: Token): (r: Option<(Row, Row)>)
    ensures r.Some? ==> |r.value.0| == c.branchWidth && |r.value.1| == c.branchWidth
  {
    match MapAll(LookupOf(c, k), token.1)
    case None => None
    case Some(rows) =>
      match k.gate(Flatten(rows), token.0)
      case None => None
      case Some((gated, norm)) => if |gated| == c.branchWidth && |norm| == c.branchWidth then Some((gated, norm)) else None
  }

  /** The four taps of element i: nine, six and three tokens back, and the token itself. */
  function Sources(history: Row, norm: Row, i: nat): Row
    requires |history| == |norm| * HISTORY_LENGTH && i < |norm|
  {
    [history[At(i, 0, HISTORY_LENGTH, |norm|)], history[At(i, 3, HISTORY_LENGTH, |norm|)],
     history[At(i, 6, HISTORY_LENGTH, |norm|)], norm[i]]
  }

  function Convolved(k: ValueKernels, history: Row, norm: Row): (r: Row)
    requires |history| == |norm| * HISTORY_LENGTH
    ensures |r| == |norm|
  {
    seq(|norm|, i requires 0 <= i < |norm| => k.tap(i, Sources(history, norm, i)))
  }

  function AddRows(k: ValueKernels, a: Row, b: Row): (r: Row)
    requires |a| == |b|
    ensures |r| == |a|
  {
    seq(|a|, i requires 0 <= i < |a| => k.add(a[i], b[i]))
  }

  /** One token: its output, and the history with its convolution input shifted in. */
  function ValueToken(c: ValueConfig, k: ValueKernels, view: ValueView, token: Token): Option<(ValueView, Row)> {
    if |view.history| != c.branchWidth * HISTORY_LENGTH || !IntentsFit(c, view.position, token.1) then None
    else
      match Gated(c, k, token)
      case None => None
      case Some((gated, norm)) =>
        match Shaped(k.silu(Convolved(k, view.history, norm)), c.branchWidth)
        case None => None
        case Some(activated) =>
          Some((ValueView(view.position + 1, ShiftIn(view.history, HISTORY_LENGTH, norm)), AddRows(k, gated, activated)))
  }

  function ValueStep(c: ValueConfig, k: ValueKernels): Step<ValueView, Token, Row> {
    (view: ValueView, token: Token) => ValueToken(c, k, view, token)
  }

  /** Tokens paired with their slices of the flat intent buffer. */
  function Paired(hidden: seq<Row>, intents: seq<Intent>): (r: seq<Token>)
    requires |intents| == |hidden| * HEAD_COUNT
    ensures |r| == |hidden|
    ensures forall t :: 0 <= t < |r| ==> r[t].0 == hidden[t]
  {
    seq(|hidden|, t requires 0 <= t < |hidden| =>
      MulStep(t, |hidden|, HEAD_COUNT);
      (hidden[t], intents[t * HEAD_COUNT..(t + 1) * HEAD_COUNT]))
  }

  lemma PairedAt(hidden: seq<Row>, intents: seq<Intent>, t: nat)
    requires |intents| == |hidden| * HEAD_COUNT && t < |hidden|
    ensures (t + 1) * HEAD_COUNT <= |intents|
    ensures Paired(hidden, intents)[t] == (hidden[t], intents[t * HEAD_COUNT..(t + 1) * HEAD_COUNT])
  {
    MulStep(t, |hidden|, HEAD_COUNT);
  }

  predicate AllRowsFinite(finite: F32 -> bool, rows: seq<Row>) {
    forall t :: 0 <= t < |rows| ==> AllFinite(finite, rows[t])
  }

  /** The whole call: the checks on the inputs, then the fold. */
  function ValueCall(c: ValueConfig, k: ValueKernels, view: ValueView, hidden: seq<Row>, intents: seq<Intent>):
    (r: Option<(ValueView, seq<Row>)>)
    ensures r.Some? ==> |r.value.1| == |hidden|
  {
    if hidden == [] || view.position + |hidden| > UINT64_MAX || |intents| != |hidden| * HEAD_COUNT ||
       !AllRowsFinite(k.finite, hidden) then None
    else Run(ValueStep(c, k), view, Paired(hidden, intents))
  }

  // ----- chunking and history -----

  /** Two calls in a row do what one call does, whenever both succeed. */
  lemma ValueCallAppend(c: ValueConfig, k: ValueKernels, view: ValueView,
                        ha: seq<Row>, ia: seq<Intent>, hb: seq<Row>, ib: seq<Intent>)
    requires ValueCall(c, k, view, ha, ia).Some?
    requires ValueCall(c, k, ValueCall(c, k, view, ha, ia).value.0, hb, ib).Some?
    ensures ValueCall(c, k, view, ha + hb, ia + ib) ==
            Resume(ValueStep(c, k), ValueCall(c, k, view, ha, ia), Paired(hb, ib))
  {
    hide ValueToken;
    var a, b := Paired(ha, ia), Paired(hb, ib);
    PositionAdvances(c, k, view, a);
    PairedAppend(ha, ia, hb, ib);
    RunAppend(ValueStep(c, k), view, a, b);
    forall t | 0 <= t < |ha + hb| ensures AllFinite(k.finite, (ha + hb)[t]) {
      assert (ha + hb)[t] == if t < |ha| then ha[t] else hb[t - |ha|];
    }
  }

  lemma PairedAppend(ha: seq<Row>, ia: seq<Intent>, hb: seq<Row>, ib: seq<Intent>)
    requires |ia| == |ha| * HEAD_COUNT && |ib| == |hb| * HEAD_COUNT
    ensures Paired(ha + hb, ia + ib) == Paired(ha, ia) + Paired(hb, ib)
  {
    forall t | 0 <= t < |ha + hb|
      ensures Paired(ha + hb, ia + ib)[t] == (Paired(ha, ia) + Paired(hb, ib))[t]
    {
      if t < |ha| {
        assert (ia + ib)[t * HEAD_COUNT..(t + 1) * HEAD_COUNT] == ia[t * HEAD_COUNT..(t + 1) * HEAD_COUNT];
      } else {
        var u := t - |ha|;
        assert (ia + ib)[t * HEAD_COUNT..(t + 1) * HEAD_COUNT] == ib[u * HEAD_COUNT..(u + 1) * HEAD_COUNT];
      }
    }
  }

  lemma {:induction false} PositionAdvances(c: ValueConfig, k: ValueKernels, view: ValueView, tokens: seq<Token>)
    requires Run(ValueStep(c, k), view, tokens).Some?
    ensures Run(ValueStep(c, k), view, tokens).value.0.position == view.position + |tokens|
  {
    if tokens != [] {
      PositionAdvances(c, k, view, tokens[..|tokens| - 1]);
    }
  }

  /** The convolution inputs of a run of tokens. */
  function Norms(c: ValueConfig, k: ValueKernels, tokens: seq<Token>): (r: seq<Row>)
    requires forall t :: 0 <= t < |tokens| ==> Gated(c, k, tokens[t]).Some?
    ensures |r| == |tokens| && forall t :: 0 <= t < |r| ==> |r[t]| == c.branchWidth && r[t] == Gated(c, k, tokens[t]).value.1
  {
    seq(|tokens|, t requires 0 <= t < |tokens| => Gated(c, k, tokens[t]).value.1)
  }

  /** The stored history is every token's convolution input shifted in, one after the other. */
  lemma {:induction false} HistoryIsShiftedNorms(c: ValueConfig, k: ValueKernels, view: ValueView, tokens: seq<Token>)
    requires |view.history| == c.branchWidth * HISTORY_LENGTH
    requires Run(ValueStep(c, k), view, tokens).Some?
    ensures forall t :: 0 <= t < |tokens| ==> Gated(c, k, tokens[t]).Some?
    ensures Run(ValueStep(c, k), view, tokens).value.0.history ==
            ShiftInAll(view.history, HISTORY_LENGTH, Norms(c, k, tokens), c.branchWidth)
  {
    hide Gated, ShiftIn;
    if tokens != [] {
      var last := |tokens| - 1;
      HistoryIsShiftedNorms(c, k, view, tokens[..last]);
      assert tokens[..last] + [tokens[last]] == tokens;
      var norms := Norms(c, k, tokens);
      assert norms[..last] == Norms(c, k, tokens[..last]);
    }
  }

  /** The convolution input of branch element i at token t, zero before the stream starts. */
  function NormAt(norms: seq<Row>, t: int, i: nat): F32
    requires t < |norms| && (t >= 0 ==> i < |norms[t]|)
  {
    if t < 0 then ZERO else norms[t][i]
  }

  /** The taps of the token that follows any run from reset are the full-history convolution:
      nine, six and three tokens back and the token itself, zeros before the start. */
  lemma TapsAreDilatedHistory(c: ValueConfig, k: ValueKernels, tokens: seq<Token>, norm: Row, i: nat)
    requires Run(ValueStep(c, k), FreshValue(c), tokens).Some?
    requires |norm| == c.branchWidth && i < c.branchWidth
    ensures |Run(ValueStep(c, k), FreshValue(c), tokens).value.0.history| == |norm| * HISTORY_LENGTH
    ensures forall t :: 0 <= t < |tokens| ==> Gated(c, k, tokens[t]).Some?
    ensures var norms := Norms(c, k, tokens); var t := |tokens|;
            Sources(Run(ValueStep(c, k), FreshValue(c), tokens).value.0.history, norm, i) ==
            [NormAt(norms, t - 9, i), NormAt(norms, t - 6, i), NormAt(norms, t - 3, i), norm[i]]
  {
    hide Gated, ShiftIn, ShiftInAll, Run;
    var zero := FreshValue(c).history;
    HistoryIsShiftedNorms(c, k, FreshValue(c), tokens);
    var norms := Norms(c, k, tokens);
    RegisterHoldsHistory(zero, HISTORY_LENGTH, norms, c.branchWidth, i, 0);
    RegisterHoldsHistory(zero, HISTORY_LENGTH, norms, c.branchWidth, i, 3);
    RegisterHoldsHistory(zero, HISTORY_LENGTH, norms, c.branchWidth, i, 6);
  }

  // ----- the operator -----

  /** The state of one slot. */
  class ValueState {
    var position: nat
    var history: Row

    function View(): ValueView
      reads this
    {
      ValueView(position, history)
    }

    constructor (c: ValueConfig)
      ensures View() == FreshValue(c)
    {
      position := 0;
      history := seq(c.branchWidth * HISTORY_LENGTH, _ => ZERO);
    }

    method Reset(c: ValueConfig)
      modifies this
      ensures View() == FreshValue(c)
    {
      position := 0;
      history := seq(c.branchWidth * HISTORY_LENGTH, _ => ZERO);
    }

    /** Export and import, as the slot copy does them; import refuses values that are not finite. */
    method CopyFrom(c: ValueConfig, k: ValueKernels, other: ValueState) returns (status: Status)
      modifies this
      ensures status.Ok? <==> |old(other.history)| == c.branchWidth * HISTORY_LENGTH && AllFinite(k.finite, old(other.history))
      ensures View() == if status.Ok? then old(other.View()) else old(View())
    {
      if |other.history| != c.branchWidth * HISTORY_LENGTH {
        return InvalidModelState;
      }
      for i := 0 to |other.history|
        invariant forall j :: 0 <= j < i ==> k.finite(other.history[j])
        invariant View() == old(View()) && other.View() == old(other.View())
      {
        if !k.finite(other.history[i]) {
          return NumericDomain;
        }
      }
      history := other.history;
      position := other.position;
      status := Ok;
    }

    /** Runs the operator over all tokens on a staged history and commits once at the end. */
    method Execute(c: ValueConfig, k: ValueKernels, hidden: seq<Row>, intents: seq<Intent>)
      returns (status: Status, output: seq<Row>)
      requires |history| == c.branchWidth * HISTORY_LENGTH
      modifies this
      ensures status.Ok? <==> ValueCall(c, k, old(View()), hidden, intents).Some?
      ensures status.Ok? ==> Some((View(), output)) == ValueCall(c, k, old(View()), hidden, intents)
      ensures !status.Ok? ==> View() == old(View())
    {
      output := [];
      if hidden == [] {
        return InvalidArgument, [];
      }
      if position + |hidden| > UINT64_MAX {
        return ArithmeticOverflow, [];
      }
      if |intents| != |hidden| * HEAD_COUNT {
        return IncompatiblePleValue, [];
      }
      if exists t :: 0 <= t < |hidden| && !AllFinite(k.finite, hidden[t]) {
        return NumericDomain, [];
      }
      ghost var start := View();
      var staged := new F32[|history|](i requires 0 <= i < |history| reads this => history[i]);
      assert staged[..] == history;
      hide ValueToken;
      status, output := ExecuteTokens(c, k, position, hidden, intents, staged);
      if !status.Ok? {
        return status, [];
      }
      history := staged[..];
      position := position + |hidden|;
    }
  }

  /** The token loop of a call. */
  method ExecuteTokens(c: ValueConfig, k: ValueKernels, position: nat, hidden: seq<Row>, intents: seq<Intent>, staged: array<F32>)
    returns (status: Status, output: seq<Row>)
    requires staged.Length == c.branchWidth * HISTORY_LENGTH && |intents| == |hidden| * HEAD_COUNT
    modifies staged
    ensures var r := Run(ValueStep(c, k), ValueView(position, old(staged[..])), Paired(hidden, intents));
            && (status.Ok? <==> r.Some?)
            && (status.Ok? ==> r == Some((ValueView(position + |hidden|, staged[..]), output)))
  {
    hide ValueToken, Paired;
    ghost var start, tokens := ValueView(position, staged[..]), Paired(hidden, intents);
    output := [];
    for t := 0 to |hidden|
      invariant Run(ValueStep(c, k), start, tokens[..t]) == Some((ValueView(position + t, staged[..]), output))
    {
      PairedAt(hidden, intents, t);
      assert tokens[..t + 1][..t] == tokens[..t] && tokens[..t + 1][t] == tokens[t];
      var row;
      status, row := ExecuteToken(c, k, position + t, hidden[t], intents[t * HEAD_COUNT..(t + 1) * HEAD_COUNT], staged);
      if !status.Ok? {
        RunFailsOnPrefix(ValueStep(c, k), start, tokens, t + 1);
        return status, [];
      }
      output := output + [row];
    }
    assert tokens[..|hidden|] == tokens;
    status := Ok;
  }

  /** One token on the staged history. A failure may leave the staged history as it was; it is
      thrown away with the call. */
  method ExecuteToken(c: ValueConfig, k: ValueKernels, position: nat, hidden: Row, intents: seq<Intent>, staged: array<F32>)
    returns (status: Status, output: Row)
    requires staged.Length == c.branchWidth * HISTORY_LENGTH && |intents| == HEAD_COUNT
    modifies staged
    ensures status.Ok? <==> ValueToken(c, k, ValueView(position, old(staged[..])), (hidden, intents)).Some?
    ensures status.Ok? ==> ValueToken(c, k, ValueView(position, old(staged[..])), (hidden, intents)) ==
                           Some((ValueView(position + 1, staged[..]), output))
  {
    ghost var history := staged[..];
    output := [];
    var rows;
    status, rows := GatherRows(c, k, position, intents);
    if !status.Ok? {
      return;
    }
    var gatedAndNorm := k.gate(Flatten(rows), hidden);
    if gatedAndNorm.None? || |gatedAndNorm.value.0| != c.branchWidth || |gatedAndNorm.value.1| != c.branchWidth {
      return KernelFailed, [];
    }
    var gated, norm := gatedAndNorm.value.0, gatedAndNorm.value.1;
    var convPre := Convolve(k, staged, norm);
    var convOut := Shaped(k.silu(convPre), c.branchWidth);
    if convOut.None? {
      return KernelFailed, [];
    }
    output := AddRows(k, gated, convOut.value);
    for i := 0 to c.branchWidth
      invariant ShiftedUpTo(history, staged[..], HISTORY_LENGTH, norm, i)
    {
      ghost var middle := staged[..];
      ShiftChannel(staged, HISTORY_LENGTH, i, c.branchWidth, norm[i]);
      ShiftNextChannel(history, middle, staged[..], HISTORY_LENGTH, norm, i);
    }
    ShiftedAll(history, staged[..], HISTORY_LENGTH, norm);
    status := Ok;
  }

  /** The table lookups of one token, with the checks on its intents. */
  method GatherRows(c: ValueConfig, k: ValueKernels, position: nat, intents: seq<Intent>)
    returns (status: Status, rows: seq<Row>)
    requires |intents| == HEAD_COUNT
    ensures status.Ok? <==> IntentsFit(c, position, intents) && MapAll(LookupOf(c, k), intents).Some?
    ensures status.Ok? ==> MapAll(LookupOf(c, k), intents) == Some(rows)
  {
    rows := [];
    for i := 0 to HEAD_COUNT
      invariant |rows| == i
      invariant forall j :: 0 <= j < i ==> IntentFits(c, position, j, intents[j])
      invariant forall j :: 0 <= j < i ==> LookupOf(c, k)(intents[j]) == Some(rows[j])
    {
      if !IntentFits(c, position, i, intents[i]) {
        return IncompatiblePleValue, [];
      }
      var row := LookupRow(c, k, intents[i]);
      assert LookupOf(c, k)(intents[i]) == row;
      if row.None? {
        return KernelFailed, [];
      }
      rows := rows + [row.value];
    }
    MapAllIs(LookupOf(c, k), intents, rows);
    status := Ok;
  }

  /** The dilated convolution of one token, element by element. */
  method Convolve(k: ValueKernels, staged: array<F32>, norm: Row) returns (convPre: Row)
    requires staged.Length == |norm| * HISTORY_LENGTH
    ensures convPre == Convolved(k, staged[..], norm)
  {
    convPre := [];
    for i := 0 to |norm|
      invariant convPre == Convolved(k, staged[..], norm)[..i]
    {
      MulStep(i, |norm|, HISTORY_LENGTH);
      var sources: Row := [];
      for tap := 0 to TAPS
        invariant sources == Sources(staged[..], norm, i)[..tap]
      {
        var source := if tap == TAPS - 1 then norm[i] else staged[i * HISTORY_LENGTH + tap * DILATION];
        sources := sources + [source];
      }
      assert sources == Sources(staged[..], norm, i);
      convPre := convPre + [k.tap(i, sources)];
    }
  }
}
