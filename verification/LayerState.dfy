/** The state of a layer: two slots of operator state, one of them active. A call copies the active
    slot over the other one, runs on the copy, and makes the copy active only when all is done. */
module LayerState {
  import opened Foundation
  import opened Streaming
  import opened Layer
  import PleAddress
  import PleStream
  import PleValue
  import Gdn
  import Qsa
  import QsaState

  datatype MixerRef = GdnRef(gdn: Gdn.GdnState<F32>) | QsaRef(qsa: QsaState.QsaState)

  datatype PleRef = PleRef(stream: PleStream.StreamState, value: PleValue.ValueState)

  // ----- the parts of a slot -----

  ghost function MixerObjects(m: MixerRef): set<object> {
    match m case GdnRef(gdn) => {gdn} case QsaRef(qsa) => {qsa}
  }

  ghost predicate MixerValid(c: MixerConfig, capacity: nat, m: MixerRef)
    reads MixerObjects(m)
  {
    match (c, m)
    case (GdnMixer(dims), GdnRef(gdn)) => Gdn.ViewShaped(dims, gdn.View())
    case (QsaMixer(qsaConfig), QsaRef(qsa)) => qsa.Valid(qsaConfig) && qsa.capacity == capacity
    case _ => false
  }

  ghost function MixerViewOf(c: MixerConfig, capacity: nat, m: MixerRef): (view: MixerView)
    requires MixerValid(c, capacity, m)
    reads MixerObjects(m)
    ensures view.QsaPart? == c.QsaMixer?
  {
    match m
    case GdnRef(gdn) => GdnPart(gdn.View())
    case QsaRef(qsa) => QsaPart(qsa.View(c.qsa))
  }

  ghost function PleObjects(p: Option<PleRef>): set<object> {
    if p.Some? then {p.value.stream, p.value.value} else {}
  }

  ghost predicate PleValid(c: Option<PleConfig>, p: Option<PleRef>)
    reads PleObjects(p)
  {
    && p.Some? == c.Some?
    && (p.Some? ==> p.value.stream.Sound(c.value.address) &&
                    |p.value.value.history| == c.value.value.branchWidth * PleValue.HISTORY_LENGTH)
  }

  ghost function PleViewOf(p: Option<PleRef>): (view: Option<PleView>)
    reads PleObjects(p)
    ensures view.Some? == p.Some?
  {
    if p.Some? then Some(PleView(p.value.stream.View(), p.value.value.View())) else None
  }

  method ResetMixer(c: MixerConfig, capacity: nat, m: MixerRef)
    requires MixerValid(c, capacity, m)
    modifies MixerObjects(m)
    ensures MixerValid(c, capacity, m) && MixerViewOf(c, capacity, m) == FreshMixer(c)
  {
    match m
    case GdnRef(gdn) => gdn.Reset(c.dims, ZERO);
    case QsaRef(qsa) => qsa.Reset(c.qsa);
  }

  method ResetPle(c: Option<PleConfig>, p: Option<PleRef>)
    requires PleValid(c, p) && (c.Some? ==> c.value.address.eos < c.value.address.vocabularySize)
    modifies PleObjects(p)
    ensures PleValid(c, p)
    ensures c.Some? ==> PleViewOf(p) == Some(PleView(PleAddress.Fresh(c.value.address), PleValue.FreshValue(c.value.value)))
  {
    if p.Some? {
      p.value.stream.Reset(c.value.address);
      p.value.value.Reset(c.value.value);
    }
  }

  method CopyMixer(c: MixerConfig, k: LayerKernels, capacity: nat, from: MixerRef, to: MixerRef) returns (status: Status)
    requires MixerValid(c, capacity, from) && MixerValid(c, capacity, to) && MixerObjects(from) !! MixerObjects(to)
    modifies MixerObjects(to)
    ensures MixerValid(c, capacity, to)
    ensures status.Ok? <==> MixerCopies(LayerConfig(c, None), k, capacity, old(MixerViewOf(c, capacity, from)))
    ensures status.Ok? ==> MixerViewOf(c, capacity, to) == old(MixerViewOf(c, capacity, from))
  {
    hide Gdn.ViewShaped, Qsa.FiniteView;
    match from {
      case GdnRef(gdn) =>
        ImportableIsShaped(c.dims, k, gdn.View());
        status := to.gdn.CopyFrom(c.dims, k.gdn.finite, k.isZero, gdn);
      case QsaRef(qsa) =>
        status := to.qsa.CopyFrom(c.qsa, k.qsa.finite, qsa);
    }
  }

  lemma ImportableIsShaped(d: Gdn.Dims, k: LayerKernels, view: Gdn.GdnView<F32>)
    ensures Gdn.Importable(d, k.gdn.finite, k.isZero, view) ==> Gdn.ViewShaped(d, view)
  {
  }

  /** The address stream is assigned, the value state exported and imported. */
  method CopyPle(c: Option<PleConfig>, k: LayerKernels, from: Option<PleRef>, to: Option<PleRef>) returns (status: Status)
    requires PleValid(c, from) && PleValid(c, to) && PleObjects(from) !! PleObjects(to)
    requires c.Some? ==> from.value.stream.hash == to.value.stream.hash
    modifies PleObjects(to)
    ensures PleValid(c, to)
    ensures status.Ok? <==> (c.Some? ==> AllFinite(k.value.finite, old(PleViewOf(from)).value.value.history))
    ensures status.Ok? ==> PleViewOf(to) == old(PleViewOf(from))
  {
    hide AllFinite;
    if c.None? {
      return Ok;
    }
    to.value.stream.CopyFrom(c.value.address, from.value.stream);
    status := to.value.value.CopyFrom(c.value.value, k.value, from.value.value);
  }

  // ----- the stages in place -----

  /** The generator wrote its groups of intents one behind the other. */
  lemma {:induction false} FlattenedIsFlat(groups: seq<seq<PleAddress.Intent>>, flat: seq<PleAddress.Intent>)
    requires PleStream.Flattens(groups, flat)
    ensures |groups| * PleAddress.HEAD_COUNT <= |flat| && flat[..|groups| * PleAddress.HEAD_COUNT] == Flatten(groups)
  {
    if groups != [] {
      var last := |groups| - 1;
      FlattenedIsFlat(groups[..last], flat);
      assert groups[last] == flat[last * PleAddress.HEAD_COUNT..(last + 1) * PleAddress.HEAD_COUNT];
    }
  }

  /** The intents of all tokens, one group behind the other. */
  method RunAddresses(c: PleAddress.Config, stream: PleStream.StreamState, tokens: seq<nat>)
    returns (status: Status, intents: seq<PleAddress.Intent>)
    requires c.Shape() && stream.Sound(c)
    modifies stream
    ensures stream.Sound(c)
    ensures status.Ok? <==> PleStream.Call(c, old(stream.View()), tokens).Some?
    ensures status.Ok? ==> stream.View() == PleStream.Call(c, old(stream.View()), tokens).value.0
    ensures status.Ok? ==> intents == Flatten(PleStream.Call(c, old(stream.View()), tokens).value.1)
  {
    hide PleStream.Call, PleStream.Flattens;
    var buffer := new PleAddress.Intent[|tokens| * PleAddress.HEAD_COUNT];
    status := stream.Prefill(c, tokens, buffer);
    if !status.Ok? {
      return status, [];
    }
    CallLength(c, old(stream.View()), tokens);
    FlattenedIsFlat(PleStream.Call(c, old(stream.View()), tokens).value.1, buffer[..]);
    intents := buffer[..];
    assert intents[..|tokens| * PleAddress.HEAD_COUNT] == intents;
  }

  method RunValues(c: PleValue.ValueConfig, k: PleValue.ValueKernels, state: PleValue.ValueState, input: seq<Row>, intents: seq<PleAddress.Intent>)
    returns (status: Status, rows: seq<Row>)
    requires |state.history| == c.branchWidth * PleValue.HISTORY_LENGTH
    modifies state
    ensures |state.history| == c.branchWidth * PleValue.HISTORY_LENGTH
    ensures status.Ok? <==> PleValue.ValueCall(c, k, old(state.View()), input, intents).Some?
    ensures status.Ok? ==> PleValue.ValueCall(c, k, old(state.View()), input, intents) == Some((state.View(), rows))
  {
    ValueKeepsShape(c, k, state.View(), input, intents);
    hide PleValue.ValueCall;
    status, rows := state.Execute(c, k, input, intents);
  }

  /** Addresses, then values, then the enhanced rows. */
  method RunPle(c: LayerConfig, k: LayerKernels, p: Option<PleRef>, tokens: seq<nat>, input: seq<Row>)
    returns (status: Status, current: seq<Row>)
    requires c.Valid() && PleValid(c.ple, p) && |tokens| == |input|
    modifies PleObjects(p)
    ensures PleValid(c.ple, p)
    ensures status.Ok? <==> PleStage(c, k, old(PleViewOf(p)), tokens, input).Some?
    ensures status.Ok? ==> PleStage(c, k, old(PleViewOf(p)), tokens, input) == Some((PleViewOf(p), current))
  {
    hide PleStream.Call, PleValue.ValueCall, Flatten;
    if c.ple.None? {
      return Ok, input;
    }
    var intents, values;
    status, intents := RunAddresses(c.ple.value.address, p.value.stream, tokens);
    if !status.Ok? {
      return status, [];
    }
    status, values := RunValues(c.ple.value.value, k.value, p.value.value, input, intents);
    if !status.Ok? {
      return status, [];
    }
    current := [];
    for t := 0 to |input|
      invariant current == Combined(k.enhance, input, values)[..t]
    {
      current := current + [k.enhance(input[t], values[t])];
    }
    assert current == Combined(k.enhance, input, values);
  }

  lemma CallLength(c: PleAddress.Config, s: PleAddress.Stream, tokens: seq<nat>)
    requires c.Shape() && PleStream.Call(c, s, tokens).Some?
    ensures |PleStream.Call(c, s, tokens).value.1| == |tokens|
  {
  }

  lemma ValueKeepsShape(c: PleValue.ValueConfig, k: PleValue.ValueKernels, view: PleValue.ValueView,
                        hidden: seq<Row>, intents: seq<PleAddress.Intent>)
    requires |view.history| == c.branchWidth * PleValue.HISTORY_LENGTH
    ensures PleValue.ValueCall(c, k, view, hidden, intents).Some? ==>
              |PleValue.ValueCall(c, k, view, hidden, intents).value.0.history| == c.branchWidth * PleValue.HISTORY_LENGTH
  {
    if PleValue.ValueCall(c, k, view, hidden, intents).Some? {
      PleValue.HistoryIsShiftedNorms(c, k, view, PleValue.Paired(hidden, intents));
    }
  }

  lemma GdnKeepsShape(d: Gdn.Dims, k: Gdn.GdnKernels<F32>, view: Gdn.GdnView<F32>, hidden: seq<Row>)
    requires Gdn.ViewShaped(d, view)
    ensures Gdn.GdnCall(d, k, view, hidden).Some? ==> Gdn.ViewShaped(d, Gdn.GdnCall(d, k, view, hidden).value.0)
  {
    if Gdn.GdnCall(d, k, view, hidden).Some? {
      Gdn.ConvIsShiftedProjections(d, k, view, hidden);
    }
  }

  method RunMixer(c: LayerConfig, k: LayerKernels, capacity: nat, m: MixerRef, mixed: seq<Row>)
    returns (status: Status, rows: seq<Row>)
    requires c.Valid() && MixerValid(c.mixer, capacity, m)
    modifies MixerObjects(m)
    ensures MixerValid(c.mixer, capacity, m)
    ensures status.Ok? <==> MixerStage(c, k, capacity, old(MixerViewOf(c.mixer, capacity, m)), mixed).Some?
    ensures status.Ok? ==> MixerStage(c, k, capacity, old(MixerViewOf(c.mixer, capacity, m)), mixed) ==
                           Some((MixerViewOf(c.mixer, capacity, m), rows))
  {
    hide Gdn.GdnCall, Gdn.ViewShaped, Qsa.QsaCall;
    match m {
      case GdnRef(gdn) =>
        GdnKeepsShape(c.mixer.dims, k.gdn, gdn.View(), mixed);
        status, rows := gdn.Execute(c.mixer.dims, k.gdn, mixed);
      case QsaRef(qsa) =>
        status, rows := qsa.Execute(c.mixer.qsa, k.qsa, mixed);
    }
  }

  /** Applies a kernel to every row, or fails. */
  method ApplyAll<Y>(f: Row -> Option<Y>, rows: seq<Row>) returns (status: Status, results: seq<Y>)
    ensures status.Ok? <==> MapAll(f, rows).Some?
    ensures status.Ok? ==> MapAll(f, rows) == Some(results)
  {
    results := [];
    for t := 0 to |rows|
      invariant |results| == t && forall u :: 0 <= u < t ==> f(rows[u]) == Some(results[u])
    {
      var result := f(rows[t]);
      if result.None? {
        return KernelFailed, [];
      }
      results := results + [result.value];
    }
    MapAllIs(f, rows, results);
    status := Ok;
  }

  /** Writes every mixer row back and reads it again for the experts, token by token. */
  method WriteAndRead(k: LayerKernels, current: seq<Row>, rows: seq<Row>, gated: seq<GatedRead>)
    returns (status: Status, after: seq<Row>, gatedAfter: seq<GatedRead>)
    requires |current| == |rows| == |gated|
    ensures status.Ok? <==> MapAll(k.readForExperts, Written(k.write, current, rows, gated)).Some?
    ensures status.Ok? ==> after == Written(k.write, current, rows, gated) && MapAll(k.readForExperts, after) == Some(gatedAfter)
  {
    ghost var all := Written(k.write, current, rows, gated);
    after, gatedAfter := [], [];
    for t := 0 to |rows|
      invariant after == all[..t] && |gatedAfter| == t
      invariant forall u :: 0 <= u < t ==> k.readForExperts(all[u]) == Some(gatedAfter[u])
    {
      var written := k.write(current[t], rows[t], gated[t].gates);
      assert written == all[t];
      after := after + [written];
      var read := k.readForExperts(written);
      if read.None? {
        return KernelFailed, [], [];
      }
      gatedAfter := gatedAfter + [read.value];
    }
    MapAllIs(k.readForExperts, all, gatedAfter);
    status := Ok;
  }

  method RunExperts(k: LayerKernels, current: seq<Row>, rows: seq<Row>, gated: seq<GatedRead>)
    returns (status: Status, output: seq<Row>)
    requires |current| == |rows| == |gated|
    ensures status.Ok? <==> ExpertStage(k, Written(k.write, current, rows, gated)).Some?
    ensures status.Ok? ==> ExpertStage(k, Written(k.write, current, rows, gated)) == Some(output)
  {
    hide Mixed;
    var after, gatedAfter;
    status, after, gatedAfter := WriteAndRead(k, current, rows, gated);
    if !status.Ok? {
      return status, [];
    }
    var routed;
    status, routed := ApplyAll(k.experts, Mixed(gatedAfter));
    if !status.Ok? {
      return status, [];
    }
    output := [];
    for t := 0 to |routed|
      invariant output == Written(k.write, after, routed, gatedAfter)[..t]
    {
      output := output + [k.write(after[t], routed[t], gatedAfter[t].gates)];
    }
    assert output == Written(k.write, after, routed, gatedAfter);
  }

  method RunMain(c: LayerConfig, k: LayerKernels, capacity: nat, m: MixerRef, current: seq<Row>)
    returns (status: Status, output: seq<Row>)
    requires c.Valid() && MixerValid(c.mixer, capacity, m)
    modifies MixerObjects(m)
    ensures MixerValid(c.mixer, capacity, m)
    ensures status.Ok? <==> MainStages(c, k, capacity, old(MixerViewOf(c.mixer, capacity, m)), current).Some?
    ensures status.Ok? ==> MainStages(c, k, capacity, old(MixerViewOf(c.mixer, capacity, m)), current) ==
                           Some((MixerViewOf(c.mixer, capacity, m), output))
  {
    hide MixerStage, ExpertStage, MixerValid, MixerViewOf, Mixed, MapAll, Written;
    var gated;
    status, gated := ApplyAll(k.readForMixer, current);
    if !status.Ok? {
      return status, [];
    }
    var rows;
    status, rows := RunMixer(c, k, capacity, m, Mixed(gated));
    if !status.Ok? {
      return status, [];
    }
    status, output := RunExperts(k, current, rows, gated);
  }

  // ----- slots -----

  /** One slot: references to its operator states. */
  datatype Slot = Slot(mixer: MixerRef, ple: Option<PleRef>) {
    ghost function Objects(): set<object> {
      MixerObjects(mixer) + PleObjects(ple)
    }

    ghost predicate Valid(c: LayerConfig, capacity: nat)
      reads Objects()
    {
      MixerValid(c.mixer, capacity, mixer) && PleValid(c.ple, ple)
    }

    ghost function View(c: LayerConfig, capacity: nat): SlotView
      requires Valid(c, capacity)
      reads Objects()
    {
      SlotView(MixerViewOf(c.mixer, capacity, mixer), PleViewOf(ple))
    }
  }

  method ResetSlot(c: LayerConfig, capacity: nat, slot: Slot)
    requires c.Valid() && slot.Valid(c, capacity)
    modifies slot.Objects()
    ensures slot.Valid(c, capacity) && slot.View(c, capacity) == FreshSlot(c)
  {
    hide MixerValid, MixerViewOf;
    ResetMixer(c.mixer, capacity, slot.mixer);
    ResetPle(c.ple, slot.ple);
  }

  method CopySlot(c: LayerConfig, k: LayerKernels, capacity: nat, from: Slot, to: Slot) returns (status: Status)
    requires from.Valid(c, capacity) && to.Valid(c, capacity) && from.Objects() !! to.Objects()
    requires c.ple.Some? ==> from.ple.value.stream.hash == to.ple.value.stream.hash
    modifies to.Objects()
    ensures to.Valid(c, capacity)
    ensures status.Ok? <==> Copies(c, k, capacity, old(from.View(c, capacity)))
    ensures status.Ok? ==> to.View(c, capacity) == old(from.View(c, capacity))
  {
    hide MixerValid, MixerViewOf, AllFinite;
    assert MixerCopies(c, k, capacity, from.View(c, capacity).mixer) ==
           MixerCopies(LayerConfig(c.mixer, None), k, capacity, MixerViewOf(c.mixer, capacity, from.mixer));
    status := CopyMixer(c.mixer, k, capacity, from.mixer, to.mixer);
    if !status.Ok? {
      return;
    }
    status := CopyPle(c.ple, k, from.ple, to.ple);
  }

  /** All stages on one slot. A failed call leaves the slot valid, with some of its parts moved on. */
  method RunSlot(c: LayerConfig, k: LayerKernels, capacity: nat, slot: Slot, tokens: seq<nat>, input: seq<Row>)
    returns (status: Status, output: seq<Row>)
    requires c.Valid() && slot.Valid(c, capacity) && input != [] && |tokens| == |input|
    requires Copies(c, k, capacity, slot.View(c, capacity))
    modifies slot.Objects()
    ensures slot.Valid(c, capacity)
    ensures status.Ok? <==> LayerCall(c, k, capacity, old(slot.View(c, capacity)), tokens, input).Some?
    ensures status.Ok? ==> LayerCall(c, k, capacity, old(slot.View(c, capacity)), tokens, input) ==
                           Some((slot.View(c, capacity), output))
  {
    hide PleStage, MainStages, MixerValid, MixerViewOf, PleValid, PleViewOf, Copies;
    var current;
    status, current := RunPle(c, k, slot.ple, tokens, input);
    if !status.Ok? {
      return status, [];
    }
    status, output := RunMain(c, k, capacity, slot.mixer, current);
  }

  lemma LayerCallEmpty(c: LayerConfig, k: LayerKernels, capacity: nat, view: SlotView, tokens: seq<nat>, input: seq<Row>)
    requires c.Valid()
    ensures input == [] || !Copies(c, k, capacity, view) ==> LayerCall(c, k, capacity, view, tokens, input).None?
  {
  }

  /** Runs all stages on a copy of a slot that stays as it is. */
  method CopyAndRun(c: LayerConfig, k: LayerKernels, capacity: nat, from: Slot, to: Slot, tokens: seq<nat>, input: seq<Row>)
    returns (status: Status, output: seq<Row>)
    requires c.Valid() && input != [] && |tokens| == |input|
    requires from.Valid(c, capacity) && to.Valid(c, capacity) && from.Objects() !! to.Objects()
    requires c.ple.Some? ==> from.ple.value.stream.hash == to.ple.value.stream.hash
    modifies to.Objects()
    ensures to.Valid(c, capacity)
    ensures status.Ok? <==> LayerCall(c, k, capacity, old(from.View(c, capacity)), tokens, input).Some?
    ensures status.Ok? ==> LayerCall(c, k, capacity, old(from.View(c, capacity)), tokens, input) == Some((to.View(c, capacity), output))
  {
    LayerCallEmpty(c, k, capacity, from.View(c, capacity), tokens, input);
    hide LayerCall, Copies, from.View, from.Valid, from.Objects;
    status := CopySlot(c, k, capacity, from, to);
    if !status.Ok? {
      return status, [];
    }
    status, output := RunSlot(c, k, capacity, to, tokens, input);
  }

  // ----- the layer -----

  class LayerState {
    const config: LayerConfig
    const capacity: nat
    const slot0: Slot
    const slot1: Slot
    ghost const Repr: set<object>
    var activeSlot: nat
    var position: nat

    function Active(): Slot
      reads this
    {
      if activeSlot == 0 then slot0 else slot1
    }

    function Staging(): Slot
      reads this
    {
      if activeSlot == 0 then slot1 else slot0
    }

    ghost predicate Valid()
      reads this, Repr
    {
      && Repr == {this} + slot0.Objects() + slot1.Objects()
      && config.Valid() && activeSlot < 2
      && slot0.Valid(config, capacity) && slot1.Valid(config, capacity)
      && slot0.Objects() !! slot1.Objects() && this !in slot0.Objects() + slot1.Objects()
      && (config.ple.Some? ==> slot0.ple.value.stream.hash == slot1.ple.value.stream.hash)
    }

    /** The committed contents. */
    ghost function Current(): SlotView
      requires Valid()
      reads this, Repr
    {
      Active().View(config, capacity)
    }

    /** The contents of the slot that is not active. */
    ghost function Other(): SlotView
      requires Valid()
      reads this, Repr
    {
      Staging().View(config, capacity)
    }

    constructor (config: LayerConfig, capacity: nat, hash: seq<nat> -> nat)
      requires config.Valid() && capacity <= UINT32_MAX
      ensures Valid() && fresh(Repr) && this in Repr
      ensures this.config == config && this.capacity == capacity
      ensures Current() == FreshSlot(config) && position == 0
    {
      hide Slot.Valid, Slot.View, FreshSlot;
      var first := NewSlot(config, capacity, hash);
      var second := NewSlot(config, capacity, hash);
      this.config := config;
      this.capacity := capacity;
      slot0 := first;
      slot1 := second;
      activeSlot, position := 0, 0;
      Repr := {this} + first.Objects() + second.Objects();
    }

    /** Both slots go back to their initial contents. */
    method Reset()
      requires Valid()
      modifies Repr
      ensures Valid() && Current() == FreshSlot(config) && position == 0
    {
      hide slot0.View, slot0.Valid, FreshSlot;
      ResetSlot(config, capacity, slot0);
      ResetSlot(config, capacity, slot1);
      activeSlot, position := 0, 0;
    }

    /** Runs the layer on a copy of the active slot. Success makes the copy active, so the other
        slot then holds what was active before; a failure leaves the active slot alone. */
    method Execute(k: LayerKernels, tokens: seq<nat>, input: seq<Row>) returns (status: Status, output: seq<Row>)
      requires Valid() && |tokens| == |input|
      modifies Repr
      ensures Valid()
      ensures status.Ok? <==> LayerCall(config, k, capacity, old(Current()), tokens, input).Some? && old(position) + |input| <= UINT64_MAX
      ensures status.Ok? ==> LayerCall(config, k, capacity, old(Current()), tokens, input) == Some((Current(), output))
      ensures status.Ok? ==> Other() == old(Current()) && position == old(position) + |input|
      ensures !status.Ok? ==> Current() == old(Current()) && position == old(position)
    {
      hide LayerCall, Copies, slot0.View, slot0.Valid;
      if input == [] {
        LayerCallEmpty(config, k, capacity, Current(), tokens, input);
        return InvalidArgument, [];
      }
      var active, staging := Active(), Staging();
      status, output := CopyAndRun(config, k, capacity, active, staging, tokens, input);
      if !status.Ok? {
        return status, [];
      }
      if UINT64_MAX - position < |input| {
        return ArithmeticOverflow, [];
      }
      position := position + |input|;
      activeSlot := 1 - activeSlot;
    }

    /** Makes the other slot active again. Right after a successful call of `tokenCount` tokens this
        undoes it; the source keeps no more than the one step. */
    method RollbackLast(tokenCount: nat) returns (status: Status)
      requires Valid()
      modifies this
      ensures Valid()
      ensures status.Ok? <==> 0 < tokenCount <= old(position)
      ensures status.Ok? ==> Current() == old(Other()) && Other() == old(Current()) && position == old(position) - tokenCount
      ensures !status.Ok? ==> Current() == old(Current()) && position == old(position)
    {
      if tokenCount == 0 || position < tokenCount {
        return InvalidLayerState;
      }
      activeSlot := 1 - activeSlot;
      position := position - tokenCount;
      status := Ok;
    }
  }

  method NewSlot(c: LayerConfig, capacity: nat, hash: seq<nat> -> nat) returns (slot: Slot)
    requires c.Valid() && capacity <= UINT32_MAX
    ensures slot.Valid(c, capacity) && fresh(slot.Objects()) && slot.View(c, capacity) == FreshSlot(c)
    ensures c.ple.Some? ==> slot.ple.value.stream.hash == hash
  {
    var mixer;
    match c.mixer {
      case GdnMixer(dims) =>
        var gdn := new Gdn.GdnState<F32>(dims, ZERO);
        mixer := GdnRef(gdn);
      case QsaMixer(qsaConfig) =>
        var qsa := new QsaState.QsaState(qsaConfig, capacity);
        mixer := QsaRef(qsa);
    }
    if c.ple.None? {
      return Slot(mixer, None);
    }
    var stream := new PleStream.StreamState(c.ple.value.address, hash);
    var value := new PleValue.ValueState(c.ple.value.value);
    slot := Slot(mixer, Some(PleRef(stream, value)));
  }
}
