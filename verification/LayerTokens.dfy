/** The layer written a second time, token by token: what one token and its row go through, from the
    table to the last write. The stages of `Layer` run over all tokens one after the other; that both
    come to the same, failures included, is what this module proves. */
module LayerTokens {
  import opened Foundation
  import opened Streaming
  import opened Layer
  import PleAddress
  import PleStream
  import PleValue
  import Gdn
  import Qsa

  /** A token's id and its row of residual branches. */
  type TokenRow = (nat, Row)

  /** Address, table value, sum; a layer without a table hands the row on. */
  function TableToken(c: LayerConfig, k: LayerKernels, view: Option<PleView>, token: TokenRow): Option<(Option<PleView>, Row)>
    requires c.ple.Some? ==> c.ple.value.address.Shape()
  {
    match (c.ple, view)
    case (None, None) => Some((None, token.1))
    case (Some(p), Some(v)) =>
      (match PleAddress.GenerateOne(p.address, v.stream, token.0)
       case None => None
       case Some((stream, intents)) =>
         if !AllFinite(k.value.finite, token.1) then None
         else
           match PleValue.ValueToken(p.value, k.value, v.value, (token.1, intents))
           case None => None
           case Some((value, row)) => Some((Some(PleView(stream, value)), k.enhance(token.1, row))))
    case _ => None
  }

  /** One token through the mixer of the layer. */
  function MixerToken(c: LayerConfig, k: LayerKernels, view: MixerView, mixed: Row): Option<(MixerView, Row)>
    requires c.mixer.QsaMixer? ==> c.mixer.qsa.blockSize > 0
  {
    match (c.mixer, view)
    case (GdnMixer(dims), GdnPart(gdn)) =>
      if !AllFinite(k.gdn.finite, mixed) then None
      else
        (match Gdn.GdnToken(dims, k.gdn, gdn, mixed)
         case None => None
         case Some((after, row)) => Some((GdnPart(after), row)))
    case (QsaMixer(qsaConfig), QsaPart(qsa)) =>
      if !AllFinite(k.qsa.finite, mixed) then None
      else
        (match Qsa.QsaToken(qsaConfig, k.qsa, qsa, mixed)
         case None => None
         case Some((after, row)) => Some((QsaPart(after), row)))
    case _ => None
  }

  /** Read, mix, write back through the gates of that read; read, experts, write back through the
      gates of this one. */
  function MainToken(c: LayerConfig, k: LayerKernels, view: MixerView, current: Row): Option<(MixerView, Row)>
    requires c.mixer.QsaMixer? ==> c.mixer.qsa.blockSize > 0
  {
    match k.readForMixer(current)
    case None => None
    case Some(read) =>
      match MixerToken(c, k, view, read.mixed)
      case None => None
      case Some((mixer, mixed)) =>
        var after := k.write(current, mixed, read.gates);
        match k.readForExperts(after)
        case None => None
        case Some(second) =>
          match k.experts(second.mixed)
          case None => None
          case Some(expert) => Some((mixer, k.write(after, expert, second.gates)))
  }

  /** One token through the whole layer. */
  function LayerToken(c: LayerConfig, k: LayerKernels, view: SlotView, token: TokenRow): Option<(SlotView, Row)>
    requires c.Valid()
  {
    match TableToken(c, k, view.ple, token)
    case None => None
    case Some((ple, current)) =>
      match MainToken(c, k, view.mixer, current)
      case None => None
      case Some((mixer, output)) => Some((SlotView(mixer, ple), output))
  }

  function TableStep(c: LayerConfig, k: LayerKernels): Step<Option<PleView>, TokenRow, Row>
    requires c.Valid()
  {
    (view: Option<PleView>, token: TokenRow) => TableToken(c, k, view, token)
  }

  function MixerStep(c: LayerConfig, k: LayerKernels): Step<MixerView, Row, Row>
    requires c.Valid()
  {
    (view: MixerView, mixed: Row) => MixerToken(c, k, view, mixed)
  }

  function MainStep(c: LayerConfig, k: LayerKernels): Step<MixerView, Row, Row>
    requires c.Valid()
  {
    (view: MixerView, current: Row) => MainToken(c, k, view, current)
  }

  function LayerStep(c: LayerConfig, k: LayerKernels): Step<SlotView, TokenRow, Row>
    requires c.Valid()
  {
    (view: SlotView, token: TokenRow) => LayerToken(c, k, view, token)
  }

  function Zipped(tokens: seq<nat>, rows: seq<Row>): (r: seq<TokenRow>)
    requires |tokens| == |rows|
    ensures |r| == |rows|
  {
    seq(|rows|, t requires 0 <= t < |rows| => (tokens[t], rows[t]))
  }

  // ----- the checks before the first token -----

  /** What the address generator and the value operator check about a whole call. */
  predicate TableAdmits(c: LayerConfig, view: Option<PleView>, tokens: seq<nat>) {
    match (c.ple, view)
    case (None, None) => true
    case (Some(p), Some(v)) =>
      && PleStream.Plausible(p.address, v.stream) && |tokens| <= p.address.contextLength - v.stream.position
      && PleAddress.InVocabulary(p.address, tokens) && v.value.position + |tokens| <= UINT64_MAX
    case _ => false
  }

  /** A call is let in: as many rows as tokens, at least one, a slot that can be copied, room. */
  ghost predicate Admits(c: LayerConfig, k: LayerKernels, capacity: nat, view: SlotView, tokens: seq<nat>, input: seq<Row>) {
    && input != [] && |tokens| == |input| && Copies(c, k, capacity, view) && TableAdmits(c, view.ple, tokens)
    && (view.mixer.QsaPart? ==> view.mixer.qsa.length + |input| <= capacity)
  }

  // ----- the table -----

  /** The addresses of a run, as long as they should be. */
  lemma {:induction false} AddressesFill(c: PleAddress.Config, s: PleAddress.Stream, tokens: seq<nat>)
    requires c.Shape() && Run(PleAddress.Generate(c), s, tokens).Some?
    ensures |Flatten(Run(PleAddress.Generate(c), s, tokens).value.1)| == |tokens| * PleAddress.HEAD_COUNT
  {
    if tokens != [] {
      var last := |tokens| - 1;
      AddressesFill(c, s, tokens[..last]);
      var groups := Run(PleAddress.Generate(c), s, tokens).value.1;
      assert groups[..last] == Run(PleAddress.Generate(c), s, tokens[..last]).value.1;
    }
  }

  lemma GroupIsFull(c: PleAddress.Config, s: PleAddress.Stream, token: nat)
    requires c.Shape() && PleAddress.GenerateOne(c, s, token).Some?
    ensures |PleAddress.GenerateOne(c, s, token).value.1| == PleAddress.HEAD_COUNT
  {
  }

  /** Pairing rows with one more group of intents adds one pair. */
  lemma PairedOneMore(hidden: seq<Row>, intents: seq<PleAddress.Intent>, row: Row, group: seq<PleAddress.Intent>)
    requires |intents| == |hidden| * PleAddress.HEAD_COUNT && |group| == PleAddress.HEAD_COUNT
    ensures PleValue.Paired(hidden + [row], intents + group) == PleValue.Paired(hidden, intents) + [(row, group)]
  {
    hide PleValue.Paired;
    PleValue.PairedAppend(hidden, intents, [row], group);
    PleValue.PairedAt([row], group, 0);
    assert group[0..PleAddress.HEAD_COUNT] == group;
    assert PleValue.Paired([row], group) == [(row, group)];
  }

  /** Addresses for all tokens and then values for all rows, without the checks of the calls. */
  function TableRun(p: PleConfig, k: LayerKernels, v: PleView, tokens: seq<nat>, input: seq<Row>): Option<(PleView, seq<Row>)>
    requires p.address.Shape() && |tokens| == |input|
  {
    match Run(PleAddress.Generate(p.address), v.stream, tokens)
    case None => None
    case Some((stream, groups)) =>
      AddressesFill(p.address, v.stream, tokens);
      match Run(PleValue.ValueStep(p.value, k.value), v.value, PleValue.Paired(input, Flatten(groups)))
      case None => None
      case Some((value, rows)) => Some((PleView(stream, value), Combined(k.enhance, input, rows)))
  }

  /** The table's two runs over one more token. */
  lemma TableRunOneMore(p: PleConfig, k: LayerKernels, v: PleView, tokens: seq<nat>, input: seq<Row>, token: nat, row: Row)
    requires p.address.Shape() && |tokens| == |input|
    ensures TableRun(p, k, v, tokens + [token], input + [row]) ==
            match TableRun(p, k, v, tokens, input)
            case None => None
            case Some((before, rows)) =>
              (match PleAddress.GenerateOne(p.address, before.stream, token)
               case None => None
               case Some((stream, intents)) =>
                 match PleValue.ValueToken(p.value, k.value, before.value, (row, intents))
                 case None => None
                 case Some((value, output)) => Some((PleView(stream, value), rows + [k.enhance(row, output)])))
  {
    hide PleAddress.GenerateOne, PleValue.ValueToken;
    var addresses := Run(PleAddress.Generate(p.address), v.stream, tokens);
    RunOneMore(PleAddress.Generate(p.address), v.stream, tokens, token);
    if addresses.Some? {
      AddressesFill(p.address, v.stream, tokens);
      var groups := addresses.value.1;
      var next := PleAddress.GenerateOne(p.address, addresses.value.0, token);
      if next.Some? {
        GroupIsFull(p.address, addresses.value.0, token);
        FlattenOneMore(groups, next.value.1);
        PairedOneMore(input, Flatten(groups), row, next.value.1);
        RunOneMore(PleValue.ValueStep(p.value, k.value), v.value, PleValue.Paired(input, Flatten(groups)), (row, next.value.1));
        var values := Run(PleValue.ValueStep(p.value, k.value), v.value, PleValue.Paired(input, Flatten(groups)));
        if values.Some? {
          var output := PleValue.ValueToken(p.value, k.value, values.value.0, (row, next.value.1));
          if output.Some? {
            CombinedAppend(k.enhance, input, values.value.1, [row], [output.value.1]);
            assert Combined(k.enhance, [row], [output.value.1]) == [k.enhance(row, output.value.1)];
          }
        }
      }
    }
  }

  lemma AllRowsFiniteOneMore(finite: F32 -> bool, rows: seq<Row>, row: Row)
    ensures PleValue.AllRowsFinite(finite, rows + [row]) <==> PleValue.AllRowsFinite(finite, rows) && AllFinite(finite, row)
  {
    if PleValue.AllRowsFinite(finite, rows + [row]) {
      forall t | 0 <= t < |rows| ensures AllFinite(finite, rows[t]) {
        assert (rows + [row])[t] == rows[t];
      }
      assert (rows + [row])[|rows|] == row;
    }
  }

  lemma ZippedOneMore(tokens: seq<nat>, input: seq<Row>, token: nat, row: Row)
    requires |tokens| == |input|
    ensures Zipped(tokens + [token], input + [row]) == Zipped(tokens, input) + [(token, row)]
  {
  }

  function WithTable(r: Option<(PleView, seq<Row>)>): Option<(Option<PleView>, seq<Row>)> {
    match r case None => None case Some((view, rows)) => Some((Some(view), rows))
  }

  /** Addresses for all tokens and then values for all of them is token by token. */
  lemma {:induction false} TableRunIs(c: LayerConfig, k: LayerKernels, v: PleView, tokens: seq<nat>, input: seq<Row>)
    requires c.Valid() && c.ple.Some? && |tokens| == |input|
    ensures Run(TableStep(c, k), Some(v), Zipped(tokens, input)) ==
            if PleValue.AllRowsFinite(k.value.finite, input) then WithTable(TableRun(c.ple.value, k, v, tokens, input)) else None
  {
    hide PleAddress.GenerateOne, PleValue.ValueToken, AllFinite, PleValue.AllRowsFinite, TableRun;
    if input == [] {
      TableRunOfNothing(c.ple.value, k, v);
    } else {
      var last := |input| - 1;
      var before, rows := tokens[..last], input[..last];
      assert tokens == before + [tokens[last]] && input == rows + [input[last]];
      TableRunIs(c, k, v, before, rows);
      AllRowsFiniteOneMore(k.value.finite, rows, input[last]);
      ZippedOneMore(before, rows, tokens[last], input[last]);
      RunOneMore(TableStep(c, k), Some(v), Zipped(before, rows), (tokens[last], input[last]));
      TableRunOneMore(c.ple.value, k, v, before, rows, tokens[last], input[last]);
    }
  }

  lemma TableRunOfNothing(p: PleConfig, k: LayerKernels, v: PleView)
    requires p.address.Shape()
    ensures TableRun(p, k, v, [], []) == Some((v, []))
    ensures PleValue.AllRowsFinite(k.value.finite, [])
  {
  }

  lemma {:induction false} RunWithoutTable(c: LayerConfig, k: LayerKernels, tokens: seq<nat>, input: seq<Row>)
    requires c.Valid() && c.ple.None? && |tokens| == |input|
    ensures Run(TableStep(c, k), None, Zipped(tokens, input)) == Some((None, input))
  {
    if input != [] {
      var last := |input| - 1;
      var before, rows := tokens[..last], input[..last];
      assert tokens == before + [tokens[last]] && input == rows + [input[last]];
      RunWithoutTable(c, k, before, rows);
      ZippedOneMore(before, rows, tokens[last], input[last]);
      RunOneMore(TableStep(c, k), None, Zipped(before, rows), (tokens[last], input[last]));
    }
  }

  /** The first stage of the layer, token by token. */
  lemma TableStageIs(c: LayerConfig, k: LayerKernels, view: Option<PleView>, tokens: seq<nat>, input: seq<Row>)
    requires c.Valid() && input != [] && |tokens| == |input|
    ensures PleStage(c, k, view, tokens, input) ==
            if TableAdmits(c, view, tokens) then Run(TableStep(c, k), view, Zipped(tokens, input)) else None
  {
    hide Run, PleAddress.GenerateOne, PleValue.ValueToken, PleValue.AllRowsFinite, PleStream.Plausible, PleAddress.InVocabulary, AllFinite;
    if c.ple.Some? && view.Some? {
      var p, v := c.ple.value, view.value;
      TableRunIs(c, k, v, tokens, input);
      var addresses := Run(PleAddress.Generate(p.address), v.stream, tokens);
      if addresses.Some? {
        AddressesFill(p.address, v.stream, tokens);
      }
    } else if c.ple.None? && view.None? {
      RunWithoutTable(c, k, tokens, input);
    }
  }

  // ----- mixer, writes, experts -----

  lemma RowsFiniteOneMore(finite: F32 -> bool, rows: seq<Row>, row: Row)
    ensures Gdn.AllSeqsFinite(finite, rows + [row]) <==> Gdn.AllSeqsFinite(finite, rows) && AllFinite(finite, row)
  {
    if Gdn.AllSeqsFinite(finite, rows + [row]) {
      forall t | 0 <= t < |rows| ensures AllFinite(finite, rows[t]) {
        assert (rows + [row])[t] == rows[t];
      }
      assert (rows + [row])[|rows|] == row;
    }
  }

  function AsGdn(r: Option<(Gdn.GdnView<F32>, seq<Row>)>): Option<(MixerView, seq<Row>)> {
    match r case None => None case Some((view, rows)) => Some((GdnPart(view), rows))
  }

  function AsQsa(r: Option<(Qsa.QsaView, seq<Row>)>): Option<(MixerView, seq<Row>)> {
    match r case None => None case Some((view, rows)) => Some((QsaPart(view), rows))
  }

  lemma {:induction false} GdnRunIs(c: LayerConfig, k: LayerKernels, view: Gdn.GdnView<F32>, mixed: seq<Row>)
    requires c.Valid() && c.mixer.GdnMixer?
    ensures Run(MixerStep(c, k), GdnPart(view), mixed) ==
            if Gdn.AllSeqsFinite(k.gdn.finite, mixed) then AsGdn(Run(Gdn.GdnStep(c.mixer.dims, k.gdn), view, mixed)) else None
  {
    hide Gdn.GdnToken, AllFinite, Gdn.AllSeqsFinite;
    if mixed == [] {
      assert Gdn.AllSeqsFinite(k.gdn.finite, mixed) by { NothingIsFinite(k.gdn.finite); }
    } else {
      var last := |mixed| - 1;
      assert mixed == mixed[..last] + [mixed[last]];
      GdnRunIs(c, k, view, mixed[..last]);
      RowsFiniteOneMore(k.gdn.finite, mixed[..last], mixed[last]);
      RunOneMore(MixerStep(c, k), GdnPart(view), mixed[..last], mixed[last]);
      RunOneMore(Gdn.GdnStep(c.mixer.dims, k.gdn), view, mixed[..last], mixed[last]);
    }
  }

  lemma {:induction false} QsaRunIs(c: LayerConfig, k: LayerKernels, view: Qsa.QsaView, mixed: seq<Row>)
    requires c.Valid() && c.mixer.QsaMixer?
    ensures Run(MixerStep(c, k), QsaPart(view), mixed) ==
            if Gdn.AllSeqsFinite(k.qsa.finite, mixed) then AsQsa(Run(Qsa.QsaStep(c.mixer.qsa, k.qsa), view, mixed)) else None
  {
    hide Qsa.QsaToken, AllFinite, Gdn.AllSeqsFinite;
    if mixed == [] {
      assert Gdn.AllSeqsFinite(k.qsa.finite, mixed) by { NothingIsFinite(k.qsa.finite); }
    } else {
      var last := |mixed| - 1;
      assert mixed == mixed[..last] + [mixed[last]];
      QsaRunIs(c, k, view, mixed[..last]);
      RowsFiniteOneMore(k.qsa.finite, mixed[..last], mixed[last]);
      RunOneMore(MixerStep(c, k), QsaPart(view), mixed[..last], mixed[last]);
      RunOneMore(Qsa.QsaStep(c.mixer.qsa, k.qsa), view, mixed[..last], mixed[last]);
    }
  }

  lemma NothingIsFinite(finite: F32 -> bool)
    ensures Gdn.AllSeqsFinite(finite, [])
  {
  }

  /** The mixer of a slot that can be copied, token by token. */
  lemma MixerStageIs(c: LayerConfig, k: LayerKernels, capacity: nat, view: MixerView, mixed: seq<Row>)
    requires c.Valid() && mixed != [] && MixerCopies(c, k, capacity, view)
    ensures MixerStage(c, k, capacity, view, mixed) ==
            if view.QsaPart? && view.qsa.length + |mixed| > capacity then None else Run(MixerStep(c, k), view, mixed)
  {
    hide Run, Gdn.GdnToken, Qsa.QsaToken;
    if c.mixer.GdnMixer? {
      GdnRunIs(c, k, view.gdn, mixed);
      CopiesIsFinite(c.mixer.dims, k, view.gdn);
    } else {
      QsaRunIs(c, k, view.qsa, mixed);
    }
  }

  lemma CopiesIsFinite(dims: Gdn.Dims, k: LayerKernels, view: Gdn.GdnView<F32>)
    requires Gdn.Importable(dims, k.gdn.finite, k.isZero, view)
    ensures AllFinite(k.gdn.finite, view.conv) && AllFinite(k.gdn.finite, view.recurrent)
  {
    var values := view.conv + view.recurrent;
    forall i | 0 <= i < |view.conv| ensures k.gdn.finite(view.conv[i]) {
      assert values[i] == view.conv[i];
    }
    forall i | 0 <= i < |view.recurrent| ensures k.gdn.finite(view.recurrent[i]) {
      assert values[|view.conv| + i] == view.recurrent[i];
    }
  }

  /** Expert stage for one more row. */
  lemma ExpertStageOneMore(k: LayerKernels, after: seq<Row>, row: Row)
    ensures ExpertStage(k, after + [row]) ==
            match ExpertStage(k, after)
            case None => None
            case Some(before) =>
              (match k.readForExperts(row)
               case None => None
               case Some(second) =>
                 match k.experts(second.mixed)
                 case None => None
                 case Some(expert) => Some(before + [k.write(row, expert, second.gates)]))
  {
    hide Mixed, Written;
    MapAllOneMore(k.readForExperts, after, row);
    if MapAll(k.readForExperts, after).Some? && k.readForExperts(row).Some? {
      var gated, second := MapAll(k.readForExperts, after).value, k.readForExperts(row).value;
      MixedOneMore(gated, second);
      MapAllOneMore(k.experts, Mixed(gated), second.mixed);
      if MapAll(k.experts, Mixed(gated)).Some? && k.experts(second.mixed).Some? {
        WrittenOneMore(k.write, after, MapAll(k.experts, Mixed(gated)).value, gated, row, k.experts(second.mixed).value, second);
      }
    }
  }

  lemma MixedOneMore(gated: seq<GatedRead>, read: GatedRead)
    ensures Mixed(gated + [read]) == Mixed(gated) + [read.mixed]
  {
  }

  lemma WrittenOneMore(write: (Row, Row, Row) -> Row, residual: seq<Row>, rows: seq<Row>, gated: seq<GatedRead>, r: Row, x: Row, g: GatedRead)
    requires |residual| == |rows| == |gated|
    ensures Written(write, residual + [r], rows + [x], gated + [g]) == Written(write, residual, rows, gated) + [write(r, x, g.gates)]
  {
  }

  /** Read all, mix all, write all, experts for all, without the checks of the mixer's call. */
  function MainRun(c: LayerConfig, k: LayerKernels, view: MixerView, current: seq<Row>): Option<(MixerView, seq<Row>)>
    requires c.Valid()
  {
    match MapAll(k.readForMixer, current)
    case None => None
    case Some(gated) =>
      match Run(MixerStep(c, k), view, Mixed(gated))
      case None => None
      case Some((after, rows)) =>
        match ExpertStage(k, Written(k.write, current, rows, gated))
        case None => None
        case Some(output) => Some((after, output))
  }

  lemma MainRunOneMore(c: LayerConfig, k: LayerKernels, view: MixerView, current: seq<Row>, row: Row)
    requires c.Valid()
    ensures MainRun(c, k, view, current + [row]) ==
            match MainRun(c, k, view, current)
            case None => None
            case Some((before, rows)) =>
              match MainToken(c, k, before, row)
              case None => None
              case Some((after, output)) => Some((after, rows + [output]))
  {
    hide ExpertStage, Mixed, Written, MapAll, MixerToken;
    MapAllOneMore(k.readForMixer, current, row);
    if MapAll(k.readForMixer, current).Some? && k.readForMixer(row).Some? {
      var gated, read := MapAll(k.readForMixer, current).value, k.readForMixer(row).value;
      MixedOneMore(gated, read);
      RunOneMore(MixerStep(c, k), view, Mixed(gated), read.mixed);
      if Run(MixerStep(c, k), view, Mixed(gated)).Some? {
        var (mixer, rows) := Run(MixerStep(c, k), view, Mixed(gated)).value;
        var next := MixerToken(c, k, mixer, read.mixed);
        if next.Some? {
          WrittenOneMore(k.write, current, rows, gated, row, next.value.1, read);
          ExpertStageOneMore(k, Written(k.write, current, rows, gated), k.write(row, next.value.1, read.gates));
        }
      }
    }
  }

  lemma {:induction false} MainRunIs(c: LayerConfig, k: LayerKernels, view: MixerView, current: seq<Row>)
    requires c.Valid()
    ensures MainRun(c, k, view, current) == Run(MainStep(c, k), view, current)
  {
    hide MainToken, MainRun;
    if current == [] {
      MainRunOfNothing(c, k, view);
    } else {
      var last := |current| - 1;
      assert current == current[..last] + [current[last]];
      MainRunIs(c, k, view, current[..last]);
      MainRunOneMore(c, k, view, current[..last], current[last]);
      RunOneMore(MainStep(c, k), view, current[..last], current[last]);
    }
  }

  lemma MainRunOfNothing(c: LayerConfig, k: LayerKernels, view: MixerView)
    requires c.Valid()
    ensures MainRun(c, k, view, []) == Some((view, []))
  {
    assert Mixed([]) == [];
  }

  /** The stages after the table, token by token. */
  lemma MainStagesIs(c: LayerConfig, k: LayerKernels, capacity: nat, view: MixerView, current: seq<Row>)
    requires c.Valid() && current != [] && MixerCopies(c, k, capacity, view)
    ensures MainStages(c, k, capacity, view, current) ==
            if view.QsaPart? && view.qsa.length + |current| > capacity then None else Run(MainStep(c, k), view, current)
  {
    hide Run, MixerStage, ExpertStage, Written, Mixed;
    MainRunIs(c, k, view, current);
    if MapAll(k.readForMixer, current).Some? {
      MixerStageIs(c, k, capacity, view, Mixed(MapAll(k.readForMixer, current).value));
    }
  }

  // ----- the whole layer -----

  /** One run after another, each over all inputs, is one run that hands every output on at once. */
  lemma {:induction false} StagesAreOneRun(c: LayerConfig, k: LayerKernels, view: SlotView, tokens: seq<TokenRow>)
    requires c.Valid()
    ensures Run(LayerStep(c, k), view, tokens) ==
            match Run(TableStep(c, k), view.ple, tokens)
            case None => None
            case Some((ple, current)) =>
              match Run(MainStep(c, k), view.mixer, current)
              case None => None
              case Some((mixer, output)) => Some((SlotView(mixer, ple), output))
  {
    hide TableToken, MainToken;
    if tokens != [] {
      var last := |tokens| - 1;
      assert tokens == tokens[..last] + [tokens[last]];
      StagesAreOneRun(c, k, view, tokens[..last]);
      RunOneMore(LayerStep(c, k), view, tokens[..last], tokens[last]);
      RunOneMore(TableStep(c, k), view.ple, tokens[..last], tokens[last]);
      if Run(TableStep(c, k), view.ple, tokens[..last]).Some? {
        var (ple, current) := Run(TableStep(c, k), view.ple, tokens[..last]).value;
        var next := TableToken(c, k, ple, tokens[last]);
        if next.Some? {
          RunOneMore(MainStep(c, k), view.mixer, current, next.value.1);
        }
      }
    }
  }

  /** The layer as it is executed, stage after stage over all tokens, is the run of its tokens one
      after the other. It succeeds exactly when the call is let in and every token gets through. */
  lemma LayerIsTokenByToken(c: LayerConfig, k: LayerKernels, capacity: nat, view: SlotView, tokens: seq<nat>, input: seq<Row>)
    requires c.Valid()
    ensures LayerCall(c, k, capacity, view, tokens, input) ==
            if Admits(c, k, capacity, view, tokens, input) then Run(LayerStep(c, k), view, Zipped(tokens, input)) else None
  {
    hide PleStage, MainStages, Run, TableAdmits, Zipped;
    if input != [] && |tokens| == |input| && Copies(c, k, capacity, view) {
      TableStageIs(c, k, view.ple, tokens, input);
      StagesAreOneRun(c, k, view, Zipped(tokens, input));
      var stage := Run(TableStep(c, k), view.ple, Zipped(tokens, input));
      if stage.Some? {
        MainStagesIs(c, k, capacity, view.mixer, stage.value.1);
      }
    }
  }
}
