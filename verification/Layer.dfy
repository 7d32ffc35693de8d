/** One layer as a function of values: what a call does to the state of a slot and to its rows. The
    stages run one after the other over all tokens of the call, never token by token. */
module Layer {
  import opened Foundation
  import opened Streaming
  import opened FlatIndex
  import PleAddress
  import PleStream
  import PleValue
  import Gdn
  import Qsa

  datatype MixerConfig = GdnMixer(dims: Gdn.Dims) | QsaMixer(qsa: Qsa.QsaConfig)

  datatype PleConfig = PleConfig(address: PleAddress.Config, value: PleValue.ValueConfig)

  /** Every layer mixes tokens with one of two operators; some have a product-key table in front. */
  datatype LayerConfig = LayerConfig(mixer: MixerConfig, ple: Option<PleConfig>) {
    ghost predicate Valid() {
      && (mixer.QsaMixer? ==> mixer.qsa.Valid())
      && (ple.Some? ==> ple.value.address.Shape() && ple.value.address.eos < ple.value.address.vocabularySize)
    }
  }

  /** What a gated read of the residual branches yields. */
  datatype GatedRead = GatedRead(mixed: Row, gates: Row)

  /** The arithmetic of one layer. A provider that fails is a kernel that yields nothing. */
  datatype LayerKernels = LayerKernels(
    gdn: Gdn.GdnKernels<F32>,
    isZero: F32 -> bool,
    qsa: Qsa.QsaKernels,
    value: PleValue.ValueKernels,
    enhance: (Row, Row) -> Row,
    readForMixer: Row -> Option<GatedRead>,
    readForExperts: Row -> Option<GatedRead>,
    write: (Row, Row, Row) -> Row,
    experts: Row -> Option<Row>)

  datatype MixerView = GdnPart(gdn: Gdn.GdnView<F32>) | QsaPart(qsa: Qsa.QsaView)

  datatype PleView = PleView(stream: PleAddress.Stream, value: PleValue.ValueView)

  /** The contents of one slot. */
  datatype SlotView = SlotView(mixer: MixerView, ple: Option<PleView>)

  function FreshMixer(c: MixerConfig): MixerView {
    match c
    case GdnMixer(dims) => GdnPart(Gdn.FreshGdn(dims, ZERO))
    case QsaMixer(_) => QsaPart(Qsa.FRESH_QSA)
  }

  function FreshSlot(c: LayerConfig): SlotView {
    SlotView(FreshMixer(c.mixer),
             match c.ple
             case None => None
             case Some(p) => Some(PleView(PleAddress.Fresh(p.address), PleValue.FreshValue(p.value))))
  }

  // ----- copying a slot -----

  ghost predicate MixerCopies(c: LayerConfig, k: LayerKernels, capacity: nat, view: MixerView) {
    match (c.mixer, view)
    case (GdnMixer(dims), GdnPart(gdn)) => Gdn.Importable(dims, k.gdn.finite, k.isZero, gdn)
    case (QsaMixer(_), QsaPart(qsa)) => qsa.length <= capacity && Qsa.FiniteView(k.qsa.finite, qsa)
    case _ => false
  }

  ghost predicate PleCopies(c: LayerConfig, k: LayerKernels, view: Option<PleView>) {
    match (c.ple, view)
    case (None, None) => true
    case (Some(p), Some(v)) =>
      |v.value.history| == p.value.branchWidth * PleValue.HISTORY_LENGTH && AllFinite(k.value.finite, v.value.history)
    case _ => false
  }

  /** The export of every part is accepted by its import. */
  ghost predicate Copies(c: LayerConfig, k: LayerKernels, capacity: nat, view: SlotView) {
    MixerCopies(c, k, capacity, view.mixer) && PleCopies(c, k, view.ple)
  }

  // ----- the stages -----

  function Combined(f: (Row, Row) -> Row, a: seq<Row>, b: seq<Row>): (r: seq<Row>)
    requires |a| == |b|
    ensures |r| == |a|
  {
    seq(|a|, t requires 0 <= t < |a| => f(a[t], b[t]))
  }

  /** Addresses, table values, and the rows enhanced with them; a layer without a table passes its
      rows on. */
  ghost function PleStage(c: LayerConfig, k: LayerKernels, view: Option<PleView>, tokens: seq<nat>, input: seq<Row>):
    (r: Option<(Option<PleView>, seq<Row>)>)
    requires c.Valid()
    ensures r.Some? ==> |r.value.1| == |input|
  {
    match (c.ple, view)
    case (None, None) => Some((None, input))
    case (Some(p), Some(v)) =>
      (match PleStream.Call(p.address, v.stream, tokens)
       case None => None
       case Some((stream, groups)) =>
         match PleValue.ValueCall(p.value, k.value, v.value, input, Flatten(groups))
         case None => None
         case Some((value, rows)) => Some((Some(PleView(stream, value)), Combined(k.enhance, input, rows))))
    case _ => None
  }

  function MixerStage(c: LayerConfig, k: LayerKernels, capacity: nat, view: MixerView, mixed: seq<Row>):
    (r: Option<(MixerView, seq<Row>)>)
    requires c.mixer.QsaMixer? ==> c.mixer.qsa.blockSize > 0
    ensures r.Some? ==> |r.value.1| == |mixed|
  {
    match (c.mixer, view)
    case (GdnMixer(dims), GdnPart(gdn)) =>
      (match Gdn.GdnCall(dims, k.gdn, gdn, mixed)
       case None => None
       case Some((after, rows)) => Some((GdnPart(after), rows)))
    case (QsaMixer(qsaConfig), QsaPart(qsa)) =>
      (match Qsa.QsaCall(qsaConfig, k.qsa, capacity, qsa, mixed)
       case None => None
       case Some((after, rows)) => Some((QsaPart(after), rows)))
    case _ => None
  }

  function Mixed(gated: seq<GatedRead>): (r: seq<Row>)
    ensures |r| == |gated|
  {
    seq(|gated|, t requires 0 <= t < |gated| => gated[t].mixed)
  }

  /** Writes every row back into its residual branches through its gates. */
  function Written(write: (Row, Row, Row) -> Row, residual: seq<Row>, rows: seq<Row>, gated: seq<GatedRead>): (r: seq<Row>)
    requires |residual| == |rows| == |gated|
    ensures |r| == |rows|
  {
    seq(|rows|, t requires 0 <= t < |rows| => write(residual[t], rows[t], gated[t].gates))
  }

  /** The second half of a layer: read, experts, write. No state enters here. */
  function ExpertStage(k: LayerKernels, after: seq<Row>): (r: Option<seq<Row>>)
    ensures r.Some? ==> |r.value| == |after|
  {
    match MapAll(k.readForExperts, after)
    case None => None
    case Some(gated) =>
      match MapAll(k.experts, Mixed(gated))
      case None => None
      case Some(rows) => Some(Written(k.write, after, rows, gated))
  }

  /** The stages after the table: read, mix, write, experts. */
  function MainStages(c: LayerConfig, k: LayerKernels, capacity: nat, view: MixerView, current: seq<Row>):
    (r: Option<(MixerView, seq<Row>)>)
    requires c.mixer.QsaMixer? ==> c.mixer.qsa.blockSize > 0
    ensures r.Some? ==> |r.value.1| == |current|
  {
    match MapAll(k.readForMixer, current)
    case None => None
    case Some(gated) =>
      match MixerStage(c, k, capacity, view, Mixed(gated))
      case None => None
      case Some((after, rows)) =>
        match ExpertStage(k, Written(k.write, current, rows, gated))
        case None => None
        case Some(output) => Some((after, output))
  }

  /** The whole call of a layer on a slot whose contents are `view`. */
  ghost function LayerCall(c: LayerConfig, k: LayerKernels, capacity: nat, view: SlotView, tokens: seq<nat>, input: seq<Row>):
    (r: Option<(SlotView, seq<Row>)>)
    requires c.Valid()
    ensures r.Some? ==> |r.value.1| == |input|
  {
    if input == [] || |tokens| != |input| || !Copies(c, k, capacity, view) then None
    else
      match PleStage(c, k, view.ple, tokens, input)
      case None => None
      case Some((ple, current)) =>
        match MainStages(c, k, capacity, view.mixer, current)
        case None => None
        case Some((mixer, output)) => Some((SlotView(mixer, ple), output))
  }

  // ----- two calls in a row -----

  lemma CombinedAppend(f: (Row, Row) -> Row, a: seq<Row>, x: seq<Row>, b: seq<Row>, y: seq<Row>)
    requires |a| == |x| && |b| == |y|
    ensures Combined(f, a + b, x + y) == Combined(f, a, x) + Combined(f, b, y)
  {
  }

  lemma PleStageAppend(c: LayerConfig, k: LayerKernels, view: Option<PleView>, ta: seq<nat>, a: seq<Row>, tb: seq<nat>, b: seq<Row>)
    requires c.Valid() && PleStage(c, k, view, ta, a).Some?
    requires PleStage(c, k, PleStage(c, k, view, ta, a).value.0, tb, b).Some?
    ensures var first := PleStage(c, k, view, ta, a).value; var second := PleStage(c, k, first.0, tb, b).value;
            PleStage(c, k, view, ta + tb, a + b) == Some((second.0, first.1 + second.1))
  {
    hide PleStream.Call, PleValue.ValueCall, Flatten, Combined;
    if c.ple.Some? {
      var p, v := c.ple.value, view.value;
      var addresses := PleStream.Call(p.address, v.stream, ta).value;
      var values := PleValue.ValueCall(p.value, k.value, v.value, a, Flatten(addresses.1)).value;
      var addresses' := PleStream.Call(p.address, addresses.0, tb).value;
      var values' := PleValue.ValueCall(p.value, k.value, values.0, b, Flatten(addresses'.1)).value;
      AddressesAppend(p.address, v.stream, ta, tb);
      FlattenAppend(addresses.1, addresses'.1);
      ValuesAppend(p.value, k.value, v.value, a, Flatten(addresses.1), b, Flatten(addresses'.1));
      CombinedAppend(k.enhance, a, values.1, b, values'.1);
    }
  }

  lemma AddressesAppend(c: PleAddress.Config, s: PleAddress.Stream, a: seq<nat>, b: seq<nat>)
    requires c.Shape() && PleStream.Call(c, s, a).Some? && PleStream.Call(c, PleStream.Call(c, s, a).value.0, b).Some?
    ensures var first := PleStream.Call(c, s, a).value; var second := PleStream.Call(c, first.0, b).value;
            PleStream.Call(c, s, a + b) == Some((second.0, first.1 + second.1))
  {
    PleStream.CallAppend(c, s, a, b);
  }

  lemma ValuesAppend(c: PleValue.ValueConfig, k: PleValue.ValueKernels, view: PleValue.ValueView,
                     ha: seq<Row>, ia: seq<PleAddress.Intent>, hb: seq<Row>, ib: seq<PleAddress.Intent>)
    requires PleValue.ValueCall(c, k, view, ha, ia).Some?
    requires PleValue.ValueCall(c, k, PleValue.ValueCall(c, k, view, ha, ia).value.0, hb, ib).Some?
    ensures var first := PleValue.ValueCall(c, k, view, ha, ia).value; var second := PleValue.ValueCall(c, k, first.0, hb, ib).value;
            PleValue.ValueCall(c, k, view, ha + hb, ia + ib) == Some((second.0, first.1 + second.1))
  {
    PleValue.ValueCallAppend(c, k, view, ha, ia, hb, ib);
  }

  lemma MixerStageAppend(c: LayerConfig, k: LayerKernels, capacity: nat, view: MixerView, a: seq<Row>, b: seq<Row>)
    requires c.Valid() && MixerStage(c, k, capacity, view, a).Some?
    requires MixerStage(c, k, capacity, MixerStage(c, k, capacity, view, a).value.0, b).Some?
    ensures var first := MixerStage(c, k, capacity, view, a).value; var second := MixerStage(c, k, capacity, first.0, b).value;
            MixerStage(c, k, capacity, view, a + b) == Some((second.0, first.1 + second.1))
  {
    match (c.mixer, view)
    case (GdnMixer(dims), GdnPart(gdn)) =>
      Gdn.GdnCallAppend(dims, k.gdn, gdn, a, b);
    case (QsaMixer(qsaConfig), QsaPart(qsa)) =>
      Qsa.QsaCallAppend(qsaConfig, k.qsa, capacity, qsa, a, b);
    case _ =>
  }

  lemma MixedAppend(a: seq<GatedRead>, b: seq<GatedRead>)
    ensures Mixed(a + b) == Mixed(a) + Mixed(b)
  {
  }

  lemma WrittenAppend(write: (Row, Row, Row) -> Row, ra: seq<Row>, xa: seq<Row>, ga: seq<GatedRead>,
                      rb: seq<Row>, xb: seq<Row>, gb: seq<GatedRead>)
    requires |ra| == |xa| == |ga| && |rb| == |xb| == |gb|
    ensures Written(write, ra + rb, xa + xb, ga + gb) == Written(write, ra, xa, ga) + Written(write, rb, xb, gb)
  {
  }

  lemma ExpertStageAppend(k: LayerKernels, a: seq<Row>, b: seq<Row>)
    requires ExpertStage(k, a).Some? && ExpertStage(k, b).Some?
    ensures ExpertStage(k, a + b) == Some(ExpertStage(k, a).value + ExpertStage(k, b).value)
  {
    hide Mixed, Written, MapAll;
    var ra, rb := MapAll(k.readForExperts, a).value, MapAll(k.readForExperts, b).value;
    MapAllAppend(k.readForExperts, a, b);
    MixedAppend(ra, rb);
    MapAllAppend(k.experts, Mixed(ra), Mixed(rb));
    WrittenAppend(k.write, a, MapAll(k.experts, Mixed(ra)).value, ra, b, MapAll(k.experts, Mixed(rb)).value, rb);
  }

  lemma MainStagesAppend(c: LayerConfig, k: LayerKernels, capacity: nat, view: MixerView, a: seq<Row>, b: seq<Row>)
    requires c.Valid() && MainStages(c, k, capacity, view, a).Some?
    requires MainStages(c, k, capacity, MainStages(c, k, capacity, view, a).value.0, b).Some?
    ensures var first := MainStages(c, k, capacity, view, a).value; var second := MainStages(c, k, capacity, first.0, b).value;
            MainStages(c, k, capacity, view, a + b) == Some((second.0, first.1 + second.1))
  {
    hide MixerStage, ExpertStage, Mixed, Written, MapAll;
    var ra, rb := MapAll(k.readForMixer, a).value, MapAll(k.readForMixer, b).value;
    MapAllAppend(k.readForMixer, a, b);
    MixedAppend(ra, rb);
    MixerStageAppend(c, k, capacity, view, Mixed(ra), Mixed(rb));
    var ma := MixerStage(c, k, capacity, view, Mixed(ra)).value;
    var mb := MixerStage(c, k, capacity, ma.0, Mixed(rb)).value;
    WrittenAppend(k.write, a, ma.1, ra, b, mb.1, rb);
    ExpertStageAppend(k, Written(k.write, a, ma.1, ra), Written(k.write, b, mb.1, rb));
  }

  /** Stage-major over a + b is stage-major over a and then over b: the layer may be called once or
      twice. Whenever both calls succeed the one call succeeds too. */
  lemma LayerCallAppend(c: LayerConfig, k: LayerKernels, capacity: nat, view: SlotView, ta: seq<nat>, a: seq<Row>, tb: seq<nat>, b: seq<Row>)
    requires c.Valid() && LayerCall(c, k, capacity, view, ta, a).Some?
    requires LayerCall(c, k, capacity, LayerCall(c, k, capacity, view, ta, a).value.0, tb, b).Some?
    ensures var first := LayerCall(c, k, capacity, view, ta, a).value; var second := LayerCall(c, k, capacity, first.0, tb, b).value;
            LayerCall(c, k, capacity, view, ta + tb, a + b) == Some((second.0, first.1 + second.1))
  {
    hide PleStage, MainStages, Copies;
    PleStageAppend(c, k, view.ple, ta, a, tb, b);
    var pa := PleStage(c, k, view.ple, ta, a).value;
    var pb := PleStage(c, k, pa.0, tb, b).value;
    MainStagesAppend(c, k, capacity, view.mixer, pa.1, pb.1);
  }

  // ----- positions -----

  /** Every counter inside a slot stands at the same position. */
  predicate AtPosition(c: LayerConfig, view: SlotView, position: nat) {
    && (view.mixer.QsaPart? ==> view.mixer.qsa.length == position)
    && (view.ple.Some? ==> view.ple.value.stream.position == position && view.ple.value.value.position == position)
  }

  lemma FreshIsAtZero(c: LayerConfig)
    ensures AtPosition(c, FreshSlot(c), 0)
  {
  }

  /** A successful call moves every counter on by the number of tokens. */
  lemma LayerAdvances(c: LayerConfig, k: LayerKernels, capacity: nat, view: SlotView, position: nat, tokens: seq<nat>, input: seq<Row>)
    requires c.Valid() && LayerCall(c, k, capacity, view, tokens, input).Some? && AtPosition(c, view, position)
    ensures AtPosition(c, LayerCall(c, k, capacity, view, tokens, input).value.0, position + |tokens|)
  {
    hide Copies, Run;
    PleAdvances(c, k, view.ple, tokens, input);
    var ple := PleStage(c, k, view.ple, tokens, input).value;
    hide PleStage;
    var gated := MapAll(k.readForMixer, ple.1).value;
    MixerAdvances(c, k, capacity, view.mixer, Mixed(gated));
  }

  lemma PleAdvances(c: LayerConfig, k: LayerKernels, view: Option<PleView>, tokens: seq<nat>, input: seq<Row>)
    requires c.Valid() && PleStage(c, k, view, tokens, input).Some? && |tokens| == |input|
    ensures var after := PleStage(c, k, view, tokens, input).value.0;
            && after.Some? == view.Some?
            && (after.Some? ==> after.value.stream.position == view.value.stream.position + |tokens|
                                && after.value.value.position == view.value.value.position + |tokens|)
  {
    hide Run;
    if c.ple.Some? {
      var p, v := c.ple.value, view.value;
      var addresses := PleStream.Call(p.address, v.stream, tokens).value;
      PleStream.RunKeepsPlausible(p.address, v.stream, tokens);
      PleValue.PositionAdvances(p.value, k.value, v.value, PleValue.Paired(input, Flatten(addresses.1)));
    }
  }

  lemma MixerAdvances(c: LayerConfig, k: LayerKernels, capacity: nat, view: MixerView, mixed: seq<Row>)
    requires c.Valid() && MixerStage(c, k, capacity, view, mixed).Some?
    ensures var after := MixerStage(c, k, capacity, view, mixed).value.0;
            && after.QsaPart? == view.QsaPart?
            && (after.QsaPart? ==> after.qsa.length == view.qsa.length + |mixed|)
  {
    hide Run;
    if c.mixer.QsaMixer? {
      Qsa.LengthAdvances(c.mixer.qsa, k.qsa, view.qsa, mixed);
    }
  }
}
