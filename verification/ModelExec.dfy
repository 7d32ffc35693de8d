/** The model executor: layers in the heap, a position, and a flag that poisons the state. A prefill
    poisons it before it touches a layer and lifts the poison when all is done; a decode step takes
    back the layers that have already committed when a later stage fails. */
module ModelExec {
  import opened Foundation
  import opened Streaming
  import opened Layer
  import opened Model
  import LayerState
  import opened Rng
  import opened Selectors
  import opened Delivery
  import Sampler

  // ----- the stack of layers -----

  ghost function StackObjects(layers: seq<LayerState.LayerState>): set<object> {
    set i, o | 0 <= i < |layers| && o in layers[i].Repr :: o
  }

  ghost predicate StackValid(c: ModelConfig, layers: seq<LayerState.LayerState>)
    reads StackObjects(layers)
  {
    && |layers| == |c.layers|
    && (forall i :: 0 <= i < |layers| ==> layers[i] in layers[i].Repr && layers[i].Valid() && layers[i].config == c.layers[i] && layers[i].capacity == c.contextCapacity)
    && (forall i, j :: 0 <= i < j < |layers| ==> layers[i].Repr !! layers[j].Repr)
  }

  /** The active contents of the first n layers. */
  ghost function SlotsOf(c: ModelConfig, layers: seq<LayerState.LayerState>, n: nat): (r: seq<SlotView>)
    requires StackValid(c, layers) && n <= |layers|
    reads StackObjects(layers)
    ensures |r| == n && forall i :: 0 <= i < n ==> r[i] == layers[i].Current()
  {
    if n == 0 then [] else SlotsOf(c, layers, n - 1) + [layers[n - 1].Current()]
  }

  /** Layers from `first` on hold `slots` and stand at `position`. */
  ghost predicate Resting(c: ModelConfig, layers: seq<LayerState.LayerState>, slots: seq<SlotView>, position: nat, first: nat)
    requires StackValid(c, layers) && |slots| == |layers|
    reads StackObjects(layers)
  {
    forall i :: first <= i < |layers| ==> layers[i].Current() == slots[i] && layers[i].position == position
  }

  /** Layers before `end` have moved on to `position` and still keep `slots` in the other slot. */
  ghost predicate Moved(c: ModelConfig, layers: seq<LayerState.LayerState>, slots: seq<SlotView>, position: nat, end: nat)
    requires StackValid(c, layers) && |slots| == |layers|
    reads StackObjects(layers)
  {
    forall i :: 0 <= i < end && i < |layers| ==> layers[i].Other() == slots[i] && layers[i].position == position
  }

  lemma StackRunOneMore(c: ModelConfig, k: ModelKernels, slots: seq<SlotView>, tokens: seq<nat>, input: seq<Row>, n: nat,
                        before: seq<SlotView>, rows: seq<Row>)
    requires c.Valid() && Fits(c, k, slots) && n < |c.layers| && StackRun(c, k, slots, tokens, input, n) == Some((before, rows))
    ensures StackRun(c, k, slots, tokens, input, n + 1) ==
            match LayerCall(c.layers[n], k.layers[n], c.contextCapacity, slots[n], tokens, rows)
            case None => None
            case Some((slot, output)) => Some((before + [slot], output))
  {
    hide LayerCall;
  }

  lemma {:induction false} StackFailsOnPrefix(c: ModelConfig, k: ModelKernels, slots: seq<SlotView>, tokens: seq<nat>, input: seq<Row>, n: nat, m: nat)
    requires c.Valid() && Fits(c, k, slots) && n <= m <= |c.layers| && StackRun(c, k, slots, tokens, input, n).None?
    ensures StackRun(c, k, slots, tokens, input, m).None?
    decreases m
  {
    hide LayerCall;
    if n < m {
      StackFailsOnPrefix(c, k, slots, tokens, input, n, m - 1);
    }
  }

  lemma SlotsOfIs(c: ModelConfig, layers: seq<LayerState.LayerState>, slots: seq<SlotView>, n: nat)
    requires StackValid(c, layers) && n == |slots| <= |layers|
    requires forall i :: 0 <= i < n ==> layers[i].Current() == slots[i]
    ensures SlotsOf(c, layers, n) == slots
  {
    hide LayerState.LayerState.Valid, LayerState.LayerState.Current, LayerState.LayerState.Other;
  }

  method ExecuteLayer(c: ModelConfig, k: LayerKernels, layers: seq<LayerState.LayerState>, tokens: seq<nat>, current: seq<Row>, n: nat)
    returns (status: Status, next: seq<Row>)
    requires c.Valid() && StackValid(c, layers) && |tokens| == |current| && n < |layers|
    modifies layers[n].Repr
    ensures StackValid(c, layers)
    ensures status.Ok? <==> LayerCall(c.layers[n], k, c.contextCapacity, old(layers[n].Current()), tokens, current).Some? &&
                            old(layers[n].position) + |current| <= UINT64_MAX
    ensures status.Ok? ==> LayerCall(c.layers[n], k, c.contextCapacity, old(layers[n].Current()), tokens, current) ==
                           Some((layers[n].Current(), next))
    ensures status.Ok? ==> layers[n].Other() == old(layers[n].Current()) && layers[n].position == old(layers[n].position) + |current|
    ensures !status.Ok? ==> layers[n].Current() == old(layers[n].Current()) && layers[n].position == old(layers[n].position)
    ensures forall i :: 0 <= i < |layers| && i != n ==>
              layers[i].Current() == old(layers[i].Current()) && layers[i].Other() == old(layers[i].Other()) &&
              layers[i].position == old(layers[i].position)
  {
    hide LayerState.LayerState.Valid, LayerState.LayerState.Current, LayerState.LayerState.Other, LayerCall;
    status, next := layers[n].Execute(k, tokens, current);
  }

  /** The first n layers have run over all rows; the others have not been touched. */
  ghost predicate Progress(c: ModelConfig, k: ModelKernels, layers: seq<LayerState.LayerState>, slots: seq<SlotView>, position: nat,
                           tokens: seq<nat>, input: seq<Row>, n: nat, current: seq<Row>)
    requires c.Valid() && StackValid(c, layers) && Fits(c, k, slots) && n <= |layers|
    reads StackObjects(layers)
  {
    && |tokens| == |input| == |current|
    && StackRun(c, k, slots, tokens, input, n) == Some((SlotsOf(c, layers, n), current))
    && Moved(c, layers, slots, position + |input|, n) && Resting(c, layers, slots, position, n)
  }

  /** One layer of the stack. */
  method RunLayer(c: ModelConfig, k: ModelKernels, layers: seq<LayerState.LayerState>, ghost slots: seq<SlotView>, ghost position: nat,
                  tokens: seq<nat>, ghost input: seq<Row>, current: seq<Row>, n: nat)
    returns (status: Status, next: seq<Row>)
    requires c.Valid() && StackValid(c, layers) && Fits(c, k, slots) && n < |layers| && position + |input| <= UINT64_MAX
    requires Progress(c, k, layers, slots, position, tokens, input, n, current)
    modifies layers[n].Repr
    ensures StackValid(c, layers)
    ensures status.Ok? ==> Progress(c, k, layers, slots, position, tokens, input, n + 1, next)
    ensures !status.Ok? ==> StackRun(c, k, slots, tokens, input, n + 1).None?
    ensures !status.Ok? ==> Moved(c, layers, slots, position + |input|, n) && Resting(c, layers, slots, position, n)
  {
    hide LayerState.LayerState.Valid, LayerState.LayerState.Current, LayerState.LayerState.Other, LayerCall, StackRun;
    ghost var before := SlotsOf(c, layers, n);
    StackRunOneMore(c, k, slots, tokens, input, n, before, current);
    status, next := ExecuteLayer(c, k.layers[n], layers, tokens, current, n);
    SlotsOfIs(c, layers, before, n);
  }

  lemma StackCounts(c: ModelConfig, layers: seq<LayerState.LayerState>)
    requires StackValid(c, layers)
    ensures |layers| == |c.layers|
  {
  }

  lemma ProgressAtStart(c: ModelConfig, k: ModelKernels, layers: seq<LayerState.LayerState>, slots: seq<SlotView>, position: nat,
                        tokens: seq<nat>, input: seq<Row>)
    requires c.Valid() && StackValid(c, layers) && Fits(c, k, slots) && |tokens| == |input| && Resting(c, layers, slots, position, 0)
    ensures Progress(c, k, layers, slots, position, tokens, input, 0, input)
  {
    hide LayerState.LayerState.Valid, LayerState.LayerState.Current, LayerState.LayerState.Other;
  }

  lemma ProgressAtEnd(c: ModelConfig, k: ModelKernels, layers: seq<LayerState.LayerState>, slots: seq<SlotView>, position: nat,
                      tokens: seq<nat>, input: seq<Row>, output: seq<Row>)
    requires c.Valid() && StackValid(c, layers) && Fits(c, k, slots)
    requires Progress(c, k, layers, slots, position, tokens, input, |layers|, output)
    ensures StackRun(c, k, slots, tokens, input, |layers|) == Some((SlotsOf(c, layers, |layers|), output))
    ensures Moved(c, layers, slots, position + |input|, |layers|) && Resting(c, layers, slots, position, |layers|)
  {
    hide LayerState.LayerState.Valid, LayerState.LayerState.Current, LayerState.LayerState.Other;
  }

  /** All layers, stage by stage over all rows. A failure at layer n leaves the layers before it
      moved on and the others as they were. */
  method RunStack(c: ModelConfig, k: ModelKernels, layers: seq<LayerState.LayerState>, ghost slots: seq<SlotView>, ghost position: nat,
                  tokens: seq<nat>, input: seq<Row>)
    returns (status: Status, committed: nat, output: seq<Row>)
    requires c.Valid() && StackValid(c, layers) && Fits(c, k, slots) && |tokens| == |input|
    requires position + |input| <= UINT64_MAX && Resting(c, layers, slots, position, 0)
    modifies StackObjects(layers)
    ensures StackValid(c, layers) && committed <= |layers|
    ensures status.Ok? <==> StackRun(c, k, slots, tokens, input, |layers|).Some?
    ensures status.Ok? ==> committed == |layers| && StackRun(c, k, slots, tokens, input, |layers|) == Some((SlotsOf(c, layers, |layers|), output))
    ensures Moved(c, layers, slots, position + |input|, committed) && Resting(c, layers, slots, position, committed)
  {
    hide LayerState.LayerState.Valid, LayerState.LayerState.Current, LayerState.LayerState.Other, LayerCall, Resting, StackValid, Progress, StackRun, SlotsOf, Moved, c.Valid;
    StackCounts(c, layers);
    ProgressAtStart(c, k, layers, slots, position, tokens, input);
    output, committed := input, 0;
    while committed < |layers|
      invariant committed <= |layers| && StackValid(c, layers)
      invariant Progress(c, k, layers, slots, position, tokens, input, committed, output)
    {
      var next;
      status, next := RunLayer(c, k, layers, slots, position, tokens, input, output, committed);
      if !status.Ok? {
        StackFailsOnPrefix(c, k, slots, tokens, input, committed + 1, |layers|);
        return status, committed, [];
      }
      output := next;
      committed := committed + 1;
    }
    ProgressAtEnd(c, k, layers, slots, position, tokens, input, output);
    status := Ok;
  }

  /** Takes the first `committed` layers back, last one first. No step of it can fail. */
  method RollbackLayers(c: ModelConfig, layers: seq<LayerState.LayerState>, ghost slots: seq<SlotView>, ghost position: nat, committed: nat)
    returns (status: Status)
    requires StackValid(c, layers) && |slots| == |layers| && committed <= |layers|
    requires Moved(c, layers, slots, position + 1, committed) && Resting(c, layers, slots, position, committed)
    modifies StackObjects(layers)
    ensures StackValid(c, layers) && status.Ok? && Resting(c, layers, slots, position, 0)
  {
    var left: nat := committed;
    while left != 0
      invariant left <= committed && StackValid(c, layers)
      invariant Moved(c, layers, slots, position + 1, left) && Resting(c, layers, slots, position, left)
    {
      left := left - 1;
      status := RollbackLayer(c, layers, slots, position, left);
      if !status.Ok? {
        return InvalidModelState;
      }
    }
    status := Ok;
  }

  method RollbackLayer(c: ModelConfig, layers: seq<LayerState.LayerState>, ghost slots: seq<SlotView>, ghost position: nat, n: nat)
    returns (status: Status)
    requires StackValid(c, layers) && |slots| == |layers| && n < |layers|
    requires Moved(c, layers, slots, position + 1, n + 1) && Resting(c, layers, slots, position, n + 1)
    modifies layers[n].Repr
    ensures StackValid(c, layers) && status.Ok?
    ensures Moved(c, layers, slots, position + 1, n) && Resting(c, layers, slots, position, n)
  {
    hide LayerState.LayerState.Valid, LayerState.LayerState.Current, LayerState.LayerState.Other;
    status := layers[n].RollbackLast(1);
  }

  method ResetLayer(c: ModelConfig, layers: seq<LayerState.LayerState>, n: nat)
    requires c.Valid() && StackValid(c, layers) && n < |layers|
    modifies layers[n].Repr
    ensures StackValid(c, layers) && layers[n].Current() == FreshSlot(c.layers[n]) && layers[n].position == 0
    ensures forall i :: 0 <= i < |layers| && i != n ==>
              layers[i].Current() == old(layers[i].Current()) && layers[i].position == old(layers[i].position)
  {
    hide LayerState.LayerState.Valid, LayerState.LayerState.Current, LayerState.LayerState.Other, FreshSlot;
    layers[n].Reset();
  }

  /** Resets every layer. */
  method ResetLayers(c: ModelConfig, layers: seq<LayerState.LayerState>)
    requires c.Valid() && StackValid(c, layers)
    modifies StackObjects(layers)
    ensures StackValid(c, layers) && Resting(c, layers, FreshSlots(c), 0, 0)
  {
    for n := 0 to |layers|
      invariant StackValid(c, layers)
      invariant forall i :: 0 <= i < n ==> layers[i].Current() == FreshSlots(c)[i] && layers[i].position == 0
    {
      hide LayerState.LayerState.Valid, LayerState.LayerState.Current, LayerState.LayerState.Other, FreshSlot;
      ResetLayer(c, layers, n);
    }
  }

  /** The first layers of a stack under construction. */
  ghost predicate Built(c: ModelConfig, layers: seq<LayerState.LayerState>)
    reads StackObjects(layers)
  {
    && |layers| <= |c.layers|
    && (forall i :: 0 <= i < |layers| ==> layers[i] in layers[i].Repr && layers[i].Valid() && layers[i].config == c.layers[i] &&
                                          layers[i].capacity == c.contextCapacity)
    && (forall i :: 0 <= i < |layers| ==> layers[i].Current() == FreshSlot(c.layers[i]) && layers[i].position == 0)
    && (forall i, j :: 0 <= i < j < |layers| ==> layers[i].Repr !! layers[j].Repr)
  }

  method AddLayer(c: ModelConfig, layers: seq<LayerState.LayerState>, hash: seq<nat> -> nat) returns (longer: seq<LayerState.LayerState>)
    requires c.Valid() && Built(c, layers) && |layers| < |c.layers|
    ensures Built(c, longer) && |longer| == |layers| + 1 && fresh(StackObjects(longer) - StackObjects(layers))
  {
    hide LayerState.LayerState.Valid, LayerState.LayerState.Current, LayerState.LayerState.Other, FreshSlot;
    var layer := new LayerState.LayerState(c.layers[|layers|], c.contextCapacity, hash);
    longer := layers + [layer];
  }

  method NewStack(c: ModelConfig, hash: seq<nat> -> nat) returns (layers: seq<LayerState.LayerState>)
    requires c.Valid()
    ensures StackValid(c, layers) && fresh(StackObjects(layers)) && Resting(c, layers, FreshSlots(c), 0, 0)
  {
    layers := [];
    while |layers| < |c.layers|
      invariant Built(c, layers) && fresh(StackObjects(layers))
    {
      hide Built, c.Valid;
      layers := AddLayer(c, layers, hash);
    }
  }

  // ----- the stages around the stack -----

  /** Looks every token up and copies its row into the four branches. */
  method EmbedAll(k: ModelKernels, tokens: seq<nat>) returns (status: Status, rows: seq<Row>)
    ensures status.Ok? <==> MapAll(EmbedOf(k), tokens).Some?
    ensures status.Ok? ==> MapAll(EmbedOf(k), tokens) == Some(rows)
  {
    rows := [];
    for t := 0 to |tokens|
      invariant |rows| == t && forall u :: 0 <= u < t ==> EmbedOf(k)(tokens[u]) == Some(rows[u])
    {
      var embedding := k.embed(tokens[t]);
      if embedding.None? {
        assert EmbedOf(k)(tokens[t]).None?;
        return KernelFailed, [];
      }
      var row := embedding.value;
      rows := rows + [row + row + row + row];
    }
    MapAllIs(EmbedOf(k), tokens, rows);
    status := Ok;
  }

  method CheckTokens(tokens: seq<nat>) returns (ok: bool)
    ensures ok <==> Canonical(tokens)
  {
    for t := 0 to |tokens|
      invariant Canonical(tokens[..t])
    {
      if tokens[t] >= TOKEN_LIMIT {
        return false;
      }
    }
    assert tokens[..|tokens|] == tokens;
    ok := true;
  }

  /** Embedding and the stack. */
  method RunForward(c: ModelConfig, k: ModelKernels, layers: seq<LayerState.LayerState>, ghost slots: seq<SlotView>, ghost position: nat,
                    tokens: seq<nat>)
    returns (status: Status, committed: nat, rows: seq<Row>)
    requires c.Valid() && StackValid(c, layers) && Fits(c, k, slots) && position + |tokens| <= UINT64_MAX
    requires Resting(c, layers, slots, position, 0)
    modifies StackObjects(layers)
    ensures StackValid(c, layers) && committed <= |layers|
    ensures status.Ok? <==> Forward(c, k, slots, tokens).Some?
    ensures status.Ok? ==> committed == |layers| && Forward(c, k, slots, tokens) == Some((SlotsOf(c, layers, |layers|), rows))
    ensures Moved(c, layers, slots, position + |tokens|, committed) && Resting(c, layers, slots, position, committed)
  {
    hide LayerState.LayerState.Valid, LayerState.LayerState.Current, LayerState.LayerState.Other, StackRun, MapAll, Resting;
    var input;
    status, input := EmbedAll(k, tokens);
    if !status.Ok? {
      return status, 0, [];
    }
    hide StackValid, Moved, c.Valid;
    status, committed, rows := RunStack(c, k, layers, slots, position, tokens, input);
  }

  /** After a forward pass all counters stand at the position behind its tokens. */
  lemma ForwardIsInStep(c: ModelConfig, k: ModelKernels, layers: seq<LayerState.LayerState>, slots: seq<SlotView>, position: nat, tokens: seq<nat>)
    requires c.Valid() && StackValid(c, layers) && Fits(c, k, slots) && AllAtPosition(c, slots, position) && tokens != []
    requires Forward(c, k, slots, tokens).Some? && Forward(c, k, slots, tokens).value.0 == SlotsOf(c, layers, |layers|)
    requires Moved(c, layers, slots, position + |tokens|, |layers|)
    ensures InStep(c, layers, position + |tokens|)
  {
    hide LayerState.LayerState.Valid, LayerState.LayerState.Current, LayerState.LayerState.Other, AtPosition, MapAll, StackRun, FreshSlots;
    StackAdvances(c, k, slots, position, tokens, MapAll(EmbedOf(k), tokens).value, |layers|);
  }

  // ----- the stack between calls -----

  /** All counters of all layers stand at one position, and at position 0 nothing has run yet. */
  ghost predicate InStep(c: ModelConfig, layers: seq<LayerState.LayerState>, position: nat)
    requires StackValid(c, layers)
    reads StackObjects(layers)
  {
    var slots := SlotsOf(c, layers, |layers|);
    Resting(c, layers, slots, position, 0) && InStepSlots(c, slots, position)
  }

  ghost predicate InStepSlots(c: ModelConfig, slots: seq<SlotView>, position: nat) {
    AllAtPosition(c, slots, position) && (position == 0 ==> slots == FreshSlots(c))
  }

  lemma CapacityFits(c: ModelConfig)
    requires c.Valid()
    ensures c.contextCapacity <= UINT32_MAX
  {
  }

  lemma AcceptableFits(c: ModelConfig, tokens: seq<nat>)
    requires c.Valid() && Acceptable(c, tokens)
    ensures 0 < |tokens| < c.contextCapacity <= UINT32_MAX
  {
  }

  lemma FreshAtZero(c: ModelConfig, layers: seq<LayerState.LayerState>)
    requires StackValid(c, layers) && InStep(c, layers, 0)
    ensures SlotsOf(c, layers, |layers|) == FreshSlots(c)
  {
  }

  lemma FreshIsInStep(c: ModelConfig, layers: seq<LayerState.LayerState>)
    requires c.Valid() && StackValid(c, layers) && Resting(c, layers, FreshSlots(c), 0, 0)
    ensures SlotsOf(c, layers, |layers|) == FreshSlots(c) && InStep(c, layers, 0)
  {
    hide LayerState.LayerState.Valid, LayerState.LayerState.Current, LayerState.LayerState.Other, FreshSlot, AtPosition;
    SlotsOfIs(c, layers, FreshSlots(c), |layers|);
    forall i | 0 <= i < |layers| ensures AtPosition(c.layers[i], FreshSlots(c)[i], 0) {
      FreshIsAtZero(c.layers[i]);
    }
  }

  /** The slots of the first `committed` layers have been swapped, those of the others not: what a
      rollback of `count` tokens can undo. */
  ghost predicate Taken(c: ModelConfig, layers: seq<LayerState.LayerState>, slots: seq<SlotView>, position: nat, count: nat, committed: nat)
    requires StackValid(c, layers)
    reads StackObjects(layers)
  {
    && |slots| == |layers| && committed <= |layers| && InStepSlots(c, slots, position)
    && Moved(c, layers, slots, position + count, committed) && Resting(c, layers, slots, position, committed)
  }

  /** Pushes tokens through a stack at rest. */
  method AdvanceStack(c: ModelConfig, k: ModelKernels, layers: seq<LayerState.LayerState>, ghost position: nat, tokens: seq<nat>)
    returns (status: Status, committed: nat, rows: seq<Row>)
    requires c.Valid() && StackValid(c, layers) && |k.layers| == |c.layers| && tokens != [] && position + |tokens| <= UINT64_MAX
    requires InStep(c, layers, position)
    modifies StackObjects(layers)
    ensures StackValid(c, layers)
    ensures status.Ok? <==> Forward(c, k, old(SlotsOf(c, layers, |layers|)), tokens).Some?
    ensures status.Ok? ==> Forward(c, k, old(SlotsOf(c, layers, |layers|)), tokens) == Some((SlotsOf(c, layers, |layers|), rows))
    ensures status.Ok? ==> InStep(c, layers, position + |tokens|)
    ensures Taken(c, layers, old(SlotsOf(c, layers, |layers|)), position, |tokens|, committed)
  {
    hide LayerState.LayerState.Valid, LayerState.LayerState.Current, LayerState.LayerState.Other, Forward, AtPosition, FreshSlots;
    ghost var slots := SlotsOf(c, layers, |layers|);
    status, committed, rows := RunForward(c, k, layers, slots, position, tokens);
    if status.Ok? {
      ForwardIsInStep(c, k, layers, slots, position, tokens);
    }
  }

  /** A rollback of one token brings the whole stack back. */
  method RestoreStack(c: ModelConfig, layers: seq<LayerState.LayerState>, ghost slots: seq<SlotView>, ghost position: nat, committed: nat)
    returns (status: Status)
    requires StackValid(c, layers) && Taken(c, layers, slots, position, 1, committed)
    modifies StackObjects(layers)
    ensures StackValid(c, layers) && status.Ok?
    ensures InStep(c, layers, position) && SlotsOf(c, layers, |layers|) == slots
  {
    hide LayerState.LayerState.Valid, LayerState.LayerState.Current, LayerState.LayerState.Other, AtPosition, FreshSlots;
    status := RollbackLayers(c, layers, slots, position, committed);
    SlotsOfIs(c, layers, slots, |layers|);
  }

  // ----- the end of a call beside the stack -----

  /** Selection and decoding of the text touch no layer. */
  method DeliverBeside(c: ModelConfig, ghost layers: seq<LayerState.LayerState>, ghost slots: seq<SlotView>, ghost position: nat, ghost count: nat,
                       ghost committed: nat, k: ModelKernels, selector: Selector, row: Row, text: array<bv8>, room: nat, ghost g: Generator)
    returns (status: Status, output: Option<Output>)
    requires StackValid(c, layers) && Taken(c, layers, slots, position, count, committed)
    requires selector.Objects() !! StackObjects(layers) && text !in StackObjects(layers)
    requires selector.Holds(g) && room <= text.Length && text !in selector.Objects()
    modifies selector.Objects(), text
    ensures StackValid(c, layers) && Taken(c, layers, slots, position, count, committed)
    ensures SlotsOf(c, layers, |layers|) == old(SlotsOf(c, layers, |layers|))
    ensures forall p :: InStep(c, layers, p) == old(InStep(c, layers, p))
    ensures status.Ok? <==> Reached(k, selector.Form(), g, row, room).Some?
    ensures status.Ok? ==> var r := Reached(k, selector.Form(), g, row, room).value; output == Some(r.0) && selector.Holds(r.1)
    ensures status.Ok? == output.Some? && TextAfter(old(text[..]), text[..], output)
    ensures status.Ok? ==> |output.value.logits| == VOCABULARY_SIZE && |output.value.text| <= room
  {
    hide StackValid, InStep, SlotsOf, Taken, Selector.Form, Reached;
    status, output := Deliver(k, selector, row, text, room, g);
  }

  /** The same with the text going to a staging buffer. */
  method DeliverStaged(c: ModelConfig, ghost layers: seq<LayerState.LayerState>, ghost slots: seq<SlotView>, ghost position: nat,
                       ghost committed: nat, k: ModelKernels, selector: Selector, row: Row, room: nat, ghost g: Generator)
    returns (status: Status, output: Option<Output>)
    requires StackValid(c, layers) && Taken(c, layers, slots, position, 1, committed)
    requires selector.Objects() !! StackObjects(layers) && selector.Holds(g) && room <= STAGED_TEXT
    modifies selector.Objects()
    ensures StackValid(c, layers) && Taken(c, layers, slots, position, 1, committed)
    ensures SlotsOf(c, layers, |layers|) == old(SlotsOf(c, layers, |layers|))
    ensures forall p :: InStep(c, layers, p) == old(InStep(c, layers, p))
    ensures status.Ok? <==> Reached(k, selector.Form(), g, row, room).Some?
    ensures status.Ok? ==> var r := Reached(k, selector.Form(), g, row, room).value; output == Some(r.0) && selector.Holds(r.1)
    ensures status.Ok? ==> |output.value.logits| == VOCABULARY_SIZE && |output.value.text| <= room
  {
    hide StackValid, InStep, SlotsOf, Taken, Selector.Form, Reached;
    var staged := new bv8[STAGED_TEXT];
    status, output := DeliverBeside(c, layers, slots, position, 1, committed, k, selector, row, staged, room, g);
  }

  lemma ReachedIsAcceptable<R>(c: ModelConfig, k: ModelKernels, select: Select<R>, rng: R, room: nat, tokens: seq<nat>)
    requires c.Valid() && |c.layers| == |k.layers|
    ensures PrefillReached(c, k, select, rng, room, tokens).Some? ==> Acceptable(c, tokens)
  {
    hide Forward, Reached;
  }

  // ----- the generator -----

  lemma ReachedDraws(k: ModelKernels, choose: Choose, replaced: Option<Row>, g: Generator, row: Row, room: nat)
    ensures var r := Reached(k, SampledOn(choose, replaced), g, row, room);
            r.Some? ==> Draw(g).Some? && r.value.1 == Draw(g).value.0
  {
    hide Draw, LogitsOf;
  }

  /** A sampled prefill that succeeds has drawn one word. */
  lemma PrefillDraws(c: ModelConfig, k: ModelKernels, choose: Choose, replaced: Option<Row>, g: Generator, room: nat, tokens: seq<nat>)
    requires c.Valid() && |c.layers| == |k.layers|
    ensures var done := Prefilled(c, k, SampledOn(choose, replaced), g, room, tokens);
            done.Some? ==> Draw(g).Some? && done.value.0.1 == Draw(g).value.0
  {
    hide Forward, Reached, SampledOn;
    if Acceptable(c, tokens) && Forward(c, k, FreshSlots(c), tokens).Some? {
      ReachedDraws(k, choose, replaced, g, Forward(c, k, FreshSlots(c), tokens).value.1[|tokens| - 1], room);
    }
  }

  lemma DecodeDraws(c: ModelConfig, k: ModelKernels, choose: Choose, replaced: Option<Row>, g: Generator, room: nat, view: ModelView, token: nat)
    requires c.Valid() && |c.layers| == |k.layers|
    ensures var done := Decoded(c, k, SampledOn(choose, replaced), room, (view, g), token);
            done.Some? ==> Draw(g).Some? && done.value.0.1 == Draw(g).value.0
  {
    hide Forward, Reached, SampledOn;
    if |view.slots| == |c.layers| && Forward(c, k, view.slots, [token]).Some? {
      ReachedDraws(k, choose, replaced, g, Forward(c, k, view.slots, [token]).value.1[0], Min(room, STAGED_TEXT));
    }
  }

  // ----- the executor -----

  class ModelState {
    const config: ModelConfig
    const layers: seq<LayerState.LayerState>
    var position: nat
    var requiresReset: bool

    ghost function Repr(): set<object> {
      {this} + StackObjects(layers)
    }

    /** Holds between any two calls. A poisoned state stands at position 0; in any other, the model,
        every layer and every counter inside the active slots stand at the same position. */
    ghost predicate Valid()
      reads Repr()
    {
      && config.Valid() && this !in StackObjects(layers) && StackValid(config, layers)
      && position <= config.contextCapacity
      && (requiresReset ==> position == 0)
      && (!requiresReset ==> InStep(config, layers, position))
    }

    ghost function View(): ModelView
      requires Valid()
      reads Repr()
    {
      ModelView(position, SlotsOf(config, layers, |layers|))
    }

    constructor (config: ModelConfig, hash: seq<nat> -> nat)
      requires config.Valid()
      ensures Valid() && fresh(Repr()) && this.config == config
      ensures !requiresReset && position == 0 && View() == ModelView(0, FreshSlots(config))
    {
      hide StackValid, InStep, SlotsOf, FreshSlots, Resting;
      var built := NewStack(config, hash);
      this.config := config;
      layers := built;
      position := 0;
      requiresReset := false;
      new;
      FreshIsInStep(config, layers);
    }

    /** Back to the state of a new model. */
    method Reset()
      requires Valid()
      modifies Repr()
      ensures Valid() && !requiresReset && View() == ModelView(0, FreshSlots(config))
    {
      hide StackObjects, StackValid, InStep, SlotsOf, FreshSlots, Resting, config.Valid;
      ResetLayers(config, layers);
      FreshIsInStep(config, layers);
      position := 0;
      requiresReset := false;
    }

    /** Moves the position on over tokens that every layer has taken. */
    method Commit(count: nat)
      requires config.Valid() && this !in StackObjects(layers) && StackValid(config, layers)
      requires position + count <= config.contextCapacity && InStep(config, layers, position + count)
      modifies this
      ensures Valid() && !requiresReset && View() == ModelView(old(position) + count, old(SlotsOf(config, layers, |layers|)))
    {
      hide StackObjects, StackValid, InStep, SlotsOf, config.Valid;
      position := position + count;
      requiresReset := false;
    }

    /** The checks before a prefill, among them a pending reset. */
    method AdmitPrefill(tokens: seq<nat>, argumentsValid: bool, buffersFit: bool) returns (status: Status)
      requires Valid()
      modifies Repr()
      ensures Valid() && position == old(position)
      ensures status.Ok? <==> argumentsValid && buffersFit && old(position) == 0 && Acceptable(config, tokens)
      ensures status.Ok? ==> !requiresReset
      ensures requiresReset <==> old(requiresReset) && (!argumentsValid || tokens == [])
      ensures !requiresReset ==> View() == if old(requiresReset) then ModelView(0, FreshSlots(config)) else old(View())
    {
      hide StackValid, InStep, FreshSlots, SlotsOf, config.Valid;
      if !argumentsValid || tokens == [] {
        return InvalidArgument;
      }
      if requiresReset {
        Reset();
      }
      if |tokens| >= config.contextCapacity {
        return InvalidArgument;
      }
      if position != 0 {
        return InvalidModelState;
      }
      if !buffersFit {
        return BufferTooSmall;
      }
      var canonical := CheckTokens(tokens);
      if !canonical {
        return InvalidTokenId;
      }
      status := Ok;
    }

    /** The caller's buffers and the selector share nothing with the model. */
    ghost predicate Separate(selector: Selector, logits: array<F32>, text: array<bv8>)
      reads Repr()
    {
      && selector.Objects() !! Repr() && logits !in Repr() && text !in Repr()
      && logits !in selector.Objects() && text !in selector.Objects() && (logits as object) != (text as object)
    }

    /** The part of a prefill that can fail. It may have written the caller's text buffer when it
        does. */
    method TryPrefill(k: ModelKernels, tokens: seq<nat>, selector: Selector, ghost g: Generator, text: array<bv8>)
      returns (status: Status, reached: Option<Output>)
      requires config.Valid() && this !in StackObjects(layers) && StackValid(config, layers) && InStep(config, layers, 0)
      requires |k.layers| == |config.layers| && Acceptable(config, tokens) && selector.Holds(g)
      requires selector.Objects() !! Repr() && text !in Repr() && text !in selector.Objects()
      modifies StackObjects(layers), selector.Objects(), text
      ensures StackValid(config, layers)
      ensures status.Ok? ==> InStep(config, layers, |tokens|) && reached.Some? && |reached.value.logits| == VOCABULARY_SIZE
      ensures var r := PrefillReached(config, k, selector.Form(), g, text.Length, tokens);
              && (status.Ok? <==> r.Some? && k.countersSound)
              && (status.Ok? ==> selector.Holds(r.value.0.1) && reached == Some(r.value.1) &&
                                 r.value.0.0 == ModelView(|tokens|, SlotsOf(config, layers, |layers|)))
              && TextAfter(old(text[..]), text[..], if r.Some? then Some(r.value.1) else None)
    {
      hide StackValid, Forward, Reached, InStep, FreshSlots, SlotsOf, Taken, Canonical, Acceptable, config.Valid, Selector.Form, PrefillReached, TextAfter, Overwritten;
      NothingAfter([], text[..]);
      AcceptableFits(config, tokens);
      PrefillEnds(config, k, selector.Form(), g, text.Length, tokens);
      StackCounts(config, layers);
      FreshAtZero(config, layers);
      reached := None;
      ghost var before := SlotsOf(config, layers, |layers|);
      var committed, rows;
      status, committed, rows := AdvanceStack(config, k, layers, 0, tokens);
      if !status.Ok? {
        return;
      }
      status, reached := DeliverBeside(config, layers, before, 0, |tokens|, committed, k, selector, rows[|tokens| - 1], text, text.Length, g);
      if status.Ok? && !k.countersSound {
        status := IncompatibleModelExec;
      }
    }

    /** Logits and the new position; the text has been written already. */
    method FinishPrefill(count: nat, output: Output, selector: Selector, ghost g: Generator, logits: array<F32>, text: array<bv8>)
      requires config.Valid() && this !in StackObjects(layers) && StackValid(config, layers)
      requires position + count <= config.contextCapacity && InStep(config, layers, position + count)
      requires Separate(selector, logits, text) && selector.Holds(g) && |output.logits| == VOCABULARY_SIZE <= logits.Length
      modifies this, logits
      ensures Valid() && !requiresReset && View() == ModelView(old(position) + count, old(SlotsOf(config, layers, |layers|)))
      ensures selector.Holds(g) && LogitsAfter(old(logits[..]), logits[..], Some(output)) && text[..] == old(text[..])
    {
      hide StackValid, InStep, SlotsOf, config.Valid;
      CopyOut(logits, output.logits);
      Commit(count);
    }

    /** The prefill proper: poison, run, select, decode the text into the caller's buffer, check the
        counters, hand out the logits, commit. */
    method RunPrefill(k: ModelKernels, tokens: seq<nat>, selector: Selector, ghost g: Generator, logits: array<F32>, text: array<bv8>)
      returns (status: Status, output: Option<Output>)
      requires Valid() && |k.layers| == |config.layers| && !requiresReset && position == 0 && Acceptable(config, tokens)
      requires Separate(selector, logits, text) && selector.Holds(g) && logits.Length >= VOCABULARY_SIZE
      modifies Repr(), selector.Objects(), logits, text
      ensures Valid() && (status.Ok? <==> output.Some?) && requiresReset == output.None?
      ensures var r := PrefillReached(config, k, selector.Form(), g, text.Length, tokens);
              && (status.Ok? <==> r.Some? && k.countersSound)
              && (status.Ok? ==> selector.Holds(r.value.0.1) && View() == r.value.0.0 && output == Some(r.value.1))
              && TextAfter(old(text[..]), text[..], if r.Some? then Some(r.value.1) else None)
      ensures LogitsAfter(old(logits[..]), logits[..], output)
      ensures !status.Ok? ==> position == 0
    {
      hide StackValid, InStep, SlotsOf, PrefillReached, Selector.Form, config.Valid, Acceptable, LogitsAfter, TextAfter, Selector.Holds;
      AcceptableFits(config, tokens);
      NothingAfter(logits[..], text[..]);
      output := None;
      requiresReset := true;
      var reached;
      status, reached := TryPrefill(k, tokens, selector, g, text);
      if status.Ok? {
        FinishPrefill(|tokens|, reached.value, selector, PrefillReached(config, k, selector.Form(), g, text.Length, tokens).value.0.1, logits, text);
        output := reached;
      }
    }

    /** Pushes a whole prompt through the model. `argumentsValid` and `buffersFit` stand for the
        checks on pointers, capacities and overlaps before and after a pending reset. A failure past
        the checks leaves the state poisoned. The logits of the caller are written only by success,
        its text buffer by whatever gets as far as decoding the text. */
    method PrefillSelect(k: ModelKernels, tokens: seq<nat>, selector: Selector, ghost g: Generator, logits: array<F32>, text: array<bv8>,
                         argumentsValid: bool, buffersFit: bool)
      returns (status: Status, output: Option<Output>)
      requires Valid() && |k.layers| == |config.layers| && Separate(selector, logits, text) && selector.Holds(g)
      modifies Repr(), selector.Objects(), logits, text
      ensures Valid() && (status.Ok? <==> output.Some?)
      ensures var valid := argumentsValid && logits.Length >= VOCABULARY_SIZE;
              var admitted := valid && buffersFit && old(position) == 0 && Acceptable(config, tokens);
              var r := PrefillReached(config, k, selector.Form(), g, text.Length, tokens);
              && (status.Ok? <==> admitted && r.Some? && k.countersSound)
              && (status.Ok? ==> selector.Holds(r.value.0.1) && View() == r.value.0.0 && output == Some(r.value.1))
              && TextAfter(old(text[..]), text[..], if admitted && r.Some? then Some(r.value.1) else None)
              && (requiresReset <==> if admitted then !status.Ok? else old(requiresReset) && (!valid || tokens == []))
      ensures LogitsAfter(old(logits[..]), logits[..], output)
      ensures !status.Ok? ==> position == old(position)
      ensures !status.Ok? && !requiresReset ==> View() == if old(requiresReset) then ModelView(0, FreshSlots(config)) else old(View())
    {
      hide StackObjects, StackValid, InStep, FreshSlots, SlotsOf, PrefillReached, Selector.Form, Acceptable, config.Valid;
      status := AdmitPrefill(tokens, argumentsValid && logits.Length >= VOCABULARY_SIZE, buffersFit);
      if !status.Ok? {
        return status, None;
      }
      status, output := RunPrefill(k, tokens, selector, g, logits, text);
    }

    /** Takes back what a decode step has done to the layers and reports its error. */
    method RollbackDecode(ghost slots: seq<SlotView>, committed: nat, original: Status) returns (status: Status)
      requires config.Valid() && this !in StackObjects(layers) && StackValid(config, layers) && position <= config.contextCapacity
      requires !requiresReset && Taken(config, layers, slots, position, 1, committed)
      modifies Repr()
      ensures Valid() && !requiresReset && View() == ModelView(old(position), slots) && status == original
    {
      hide StackObjects, StackValid, InStep, SlotsOf, Taken, config.Valid;
      var undone := RestoreStack(config, layers, slots, position, committed);
      requiresReset := requiresReset || !undone.Ok?;
      status := if undone.Ok? then original else InvalidModelState;
    }

    /** The part of a decode step that can fail. It writes nothing of the caller's, and leaves the
        layers either all moved on or as a rollback can take them back. */
    method TryDecode(k: ModelKernels, token: nat, selector: Selector, ghost g: Generator, room: nat)
      returns (status: Status, committed: nat, reached: Option<Output>)
      requires Valid() && |k.layers| == |config.layers| && !requiresReset && Live(config, View(), token)
      requires selector.Objects() !! Repr() && selector.Holds(g)
      modifies StackObjects(layers), selector.Objects()
      ensures config.Valid() && this !in StackObjects(layers) && StackValid(config, layers)
      ensures Taken(config, layers, old(View()).slots, position, 1, committed)
      ensures status.Ok? ==> InStep(config, layers, position + 1)
      ensures var r := Decoded(config, k, selector.Form(), room, (old(View()), g), token);
              && (status.Ok? <==> r.Some?)
              && (status.Ok? ==> selector.Holds(r.value.0.1) && reached == Some(r.value.1) &&
                                 r.value.0.0 == ModelView(position + 1, SlotsOf(config, layers, |layers|)))
      ensures status.Ok? ==> |reached.value.logits| == VOCABULARY_SIZE && |reached.value.text| <= room
    {
      hide StackValid, Forward, Reached, InStep, SlotsOf, Taken, Decoded, Selector.Form, Selector.Holds, config.Valid, Fits, Live, StackObjects;
      CapacityFits(config);
      ghost var slots := View().slots;
      StackCounts(config, layers);
      DecodeEnds(config, k, selector.Form(), g, room, View(), token);
      reached := None;
      var rows;
      status, committed, rows := AdvanceStack(config, k, layers, position, [token]);
      if !status.Ok? {
        return;
      }
      status, reached := DeliverStaged(config, layers, slots, position, committed, k, selector, rows[0], Min(room, STAGED_TEXT), g);
      if status.Ok? && !k.countersSound {
        status := IncompatibleModelExec;
      }
    }

    /** Everything is handed out at once: logits, text, and the new position. */
    method FinishDecode(output: Output, selector: Selector, ghost g: Generator, logits: array<F32>, text: array<bv8>)
      requires config.Valid() && this !in StackObjects(layers) && StackValid(config, layers) && !requiresReset
      requires position + 1 <= config.contextCapacity && InStep(config, layers, position + 1)
      requires Separate(selector, logits, text) && selector.Holds(g)
      requires |output.logits| == VOCABULARY_SIZE <= logits.Length && |output.text| <= text.Length
      modifies this, logits, text
      ensures Valid() && !requiresReset && View() == ModelView(old(position) + 1, old(SlotsOf(config, layers, |layers|)))
      ensures selector.Holds(g) && LogitsAfter(old(logits[..]), logits[..], Some(output)) && TextAfter(old(text[..]), text[..], Some(output))
    {
      hide StackValid, InStep, SlotsOf, config.Valid;
      CopyBoth(output, logits, text);
      Commit(1);
    }

    /** The decode step proper: run, select, decode the text into a staging buffer, check the
        counters, and then either hand everything out and commit or take everything back. */
    method RunDecode(k: ModelKernels, token: nat, selector: Selector, ghost g: Generator, logits: array<F32>, text: array<bv8>)
      returns (status: Status, output: Option<Output>)
      requires Valid() && |k.layers| == |config.layers| && !requiresReset && Live(config, View(), token)
      requires Separate(selector, logits, text) && selector.Holds(g) && logits.Length >= VOCABULARY_SIZE
      modifies Repr(), selector.Objects(), logits, text
      ensures Valid() && !requiresReset && (status.Ok? <==> output.Some?)
      ensures var r := Decoded(config, k, selector.Form(), text.Length, (old(View()), g), token);
              (status.Ok? <==> r.Some?) && (status.Ok? ==> selector.Holds(r.value.0.1) && View() == r.value.0.0 && output == Some(r.value.1))
      ensures !status.Ok? ==> View() == old(View())
      ensures LogitsAfter(old(logits[..]), logits[..], output) && TextAfter(old(text[..]), text[..], output)
    {
      hide StackValid, InStep, SlotsOf, Taken, Decoded, Selector.Form, config.Valid, LogitsAfter, TextAfter, Selector.Holds;
      StackCounts(config, layers);
      ghost var before := (View(), g);
      output := None;
      var committed, reached;
      status, committed, reached := TryDecode(k, token, selector, g, text.Length);
      if status.Ok? {
        FinishDecode(reached.value, selector, Decoded(config, k, selector.Form(), text.Length, before, token).value.0.1, logits, text);
        output := reached;
      } else {
        NothingAfter(logits[..], text[..]);
        status := RollbackDecode(before.0.slots, committed, status);
      }
    }

    /** Pushes one token through a live model, all or nothing: every layer, the position, the flag
        and the caller's buffers are as before unless the whole step succeeds. */
    method DecodeSelect(k: ModelKernels, token: nat, selector: Selector, ghost g: Generator, logits: array<F32>, text: array<bv8>,
                        argumentsValid: bool, buffersFit: bool)
      returns (status: Status, output: Option<Output>)
      requires Valid() && |k.layers| == |config.layers| && Separate(selector, logits, text) && selector.Holds(g)
      modifies Repr(), selector.Objects(), logits, text
      ensures Valid() && requiresReset == old(requiresReset) && (status.Ok? <==> output.Some?)
      ensures var r := Decoded(config, k, selector.Form(), text.Length, (old(View()), g), token);
              && (status.Ok? <==> argumentsValid && logits.Length >= VOCABULARY_SIZE && buffersFit && !old(requiresReset) && r.Some?)
              && (status.Ok? ==> selector.Holds(r.value.0.1) && View() == r.value.0.0 && output == Some(r.value.1))
      ensures !status.Ok? ==> View() == old(View()) && logits[..] == old(logits[..]) && text[..] == old(text[..])
      ensures LogitsAfter(old(logits[..]), logits[..], output) && TextAfter(old(text[..]), text[..], output)
    {
      hide StackObjects, StackValid, InStep, SlotsOf, config.Valid, Selector.Form, Forward, Reached;
      if !argumentsValid || logits.Length < VOCABULARY_SIZE {
        return InvalidArgument, None;
      }
      if token >= TOKEN_LIMIT {
        return InvalidTokenId, None;
      }
      if requiresReset || position == 0 {
        return InvalidModelState, None;
      }
      if position >= config.contextCapacity {
        return LimitExceeded, None;
      }
      if !buffersFit {
        return BufferTooSmall, None;
      }
      StackCounts(config, layers);
      status, output := RunDecode(k, token, selector, g, logits, text);
    }

    /** Nothing that a sampled call works with is part of the model. */
    ghost predicate Apart(rngState: RngState, logits: array<F32>, text: array<bv8>)
      reads Repr()
    {
      && rngState !in Repr() && logits !in Repr() && text !in Repr() && (logits as object) != (text as object)
      && (logits as object) != (rngState as object) && (text as object) != (rngState as object)
    }

    /** The prefill of a sampled call: a private copy of the generator, a staging buffer for the text. */
    method PrefillStaged(k: ModelKernels, tokens: seq<nat>, sampling: Sampler.Config, replaced: Option<Row>, rngState: RngState,
                         logits: array<F32>, room: nat, argumentsValid: bool, buffersFit: bool)
      returns (status: Status, output: Option<Output>, after: Generator)
      requires Valid() && |k.layers| == |config.layers| && rngState !in Repr() && logits !in Repr()
      requires sampling.Valid(VOCABULARY_SIZE) && (replaced.Some? ==> |replaced.value| == VOCABULARY_SIZE) && rngState.Valid()
      modifies Repr(), logits
      ensures Valid() && (status.Ok? <==> output.Some?)
      ensures var r := Prefilled(config, k, SampledOn(Sampler.Choice(sampling), replaced), old(rngState.View()), room, tokens);
              && (status.Ok? <==> argumentsValid && logits.Length >= VOCABULARY_SIZE && buffersFit && old(position) == 0 && r.Some?)
              && (status.Ok? ==> r == Some(((View(), after), output.value)))
      ensures status.Ok? ==> |output.value.text| <= room
      ensures LogitsAfter(old(logits[..]), logits[..], output)
      ensures !status.Ok? ==> position == old(position)
      ensures !status.Ok? && position != 0 ==> requiresReset == old(requiresReset) && View() == old(View())
    {
      hide StackValid, InStep, SlotsOf, FreshSlots, PrefillReached, config.Valid, SampledOn, Sampler.Choice, Sampler.Config.Valid, LogitsAfter, Overwritten, Acceptable, Increment;
      ghost var g := rngState.View();
      var context := new SampleContext(sampling, replaced, rngState);
      var staged := new bv8[room];
      status, output := PrefillSelect(k, tokens, SampledSelector(context), g, logits, staged, argumentsValid, buffersFit);
      ReachedIsAcceptable(config, k, SampledSelector(context).Form(), g, room, tokens);
      after := context.rng.View();
    }

    method DecodeStaged(k: ModelKernels, token: nat, sampling: Sampler.Config, replaced: Option<Row>, rngState: RngState,
                        logits: array<F32>, room: nat, argumentsValid: bool, buffersFit: bool)
      returns (status: Status, output: Option<Output>, after: Generator)
      requires Valid() && |k.layers| == |config.layers| && rngState !in Repr() && logits !in Repr()
      requires sampling.Valid(VOCABULARY_SIZE) && (replaced.Some? ==> |replaced.value| == VOCABULARY_SIZE) && rngState.Valid()
      modifies Repr(), logits
      ensures Valid() && requiresReset == old(requiresReset) && (status.Ok? <==> output.Some?)
      ensures var r := Decoded(config, k, SampledOn(Sampler.Choice(sampling), replaced), room, (old(View()), old(rngState.View())), token);
              && (status.Ok? <==> argumentsValid && logits.Length >= VOCABULARY_SIZE && buffersFit && !old(requiresReset) && r.Some?)
              && (status.Ok? ==> r == Some(((View(), after), output.value)))
      ensures status.Ok? ==> |output.value.text| <= room
      ensures LogitsAfter(old(logits[..]), logits[..], output)
      ensures !status.Ok? ==> View() == old(View())
    {
      hide StackValid, InStep, SlotsOf, Decoded, config.Valid, SampledOn, Sampler.Choice, Sampler.Config.Valid, LogitsAfter, Overwritten, Increment;
      ghost var g := rngState.View();
      var context := new SampleContext(sampling, replaced, rngState);
      var staged := new bv8[room];
      status, output := DecodeSelect(k, token, SampledSelector(context), g, logits, staged, argumentsValid, buffersFit);
      after := context.rng.View();
    }

    /** The staged text and the new generator go to the caller. */
    method FinishSampled(output: Output, after: Generator, rngState: RngState, logits: array<F32>, text: array<bv8>)
      requires Valid() && Apart(rngState, logits, text) && rngState.Valid() && |output.text| <= text.Length && after.stream <= MAX_STREAM
      modifies rngState, text
      ensures Valid() && View() == old(View()) && requiresReset == old(requiresReset)
      ensures rngState.Valid() && rngState.View() == after && logits[..] == old(logits[..])
      ensures TextAfter(old(text[..]), text[..], Some(output))
    {
      hide StackValid, InStep, SlotsOf, config.Valid;
      CopyOut(text, output.text);
      rngState.Store(after);
    }

    lemma DrawKeepsStream(g: Generator)
      requires Draw(g).Some? && g.stream <= MAX_STREAM
      ensures Draw(g).value.0.stream <= MAX_STREAM
    {
    }

    /** A prefill whose selection samples, from a private copy of the caller's generator record. The
        record, the logits and the text are written only by success; after a failure from position 0
        the model is as new, poison included, once the call has got past its own checks. */
    method SampledPrefill(k: ModelKernels, tokens: seq<nat>, sampling: Sampler.Config, replaced: Option<Row>, rngState: RngState,
                          logits: array<F32>, text: array<bv8>, policyValid: bool, argumentsValid: bool, buffersFit: bool)
      returns (status: Status, output: Option<Output>)
      requires Valid() && |k.layers| == |config.layers| && sampling.Valid(VOCABULARY_SIZE) && Apart(rngState, logits, text)
      modifies Repr(), rngState, logits, text
      ensures Valid() && (status.Ok? <==> output.Some?)
      ensures var checked := policyValid && (replaced.Some? ==> |replaced.value| == VOCABULARY_SIZE) && old(rngState.Valid());
              var g := old(rngState.View());
              var r := Prefilled(config, k, SampledOn(Sampler.Choice(sampling), replaced), g, Min(text.Length, STAGED_TEXT), tokens);
              && (status.Ok? <==> checked && argumentsValid && logits.Length >= VOCABULARY_SIZE && buffersFit && old(position) == 0 && r.Some?)
              && (status.Ok? ==> rngState.Valid() && r == Some(((View(), rngState.View()), output.value)))
              && (status.Ok? ==> Draw(g).Some? && rngState.View() == Draw(g).value.0)
              && (!status.Ok? && checked && old(position) == 0 ==> !requiresReset && View() == ModelView(0, FreshSlots(config)))
              && (!status.Ok? && !(checked && old(position) == 0) ==> requiresReset == old(requiresReset) && View() == old(View()))
      ensures !status.Ok? ==> rngState.View() == old(rngState.View()) && rngState.Valid() == old(rngState.Valid())
      ensures LogitsAfter(old(logits[..]), logits[..], output) && TextAfter(old(text[..]), text[..], output)
    {
      hide StackValid, InStep, SlotsOf, FreshSlots, Prefilled, config.Valid, Draw, SampledOn, Sampler.Choice, Sampler.Config.Valid, LogitsAfter, TextAfter;
      output := None;
      NothingAfter(logits[..], text[..]);
      if !policyValid || (replaced.Some? && |replaced.value| != VOCABULARY_SIZE) {
        return InvalidArgument, None;
      }
      if !rngState.Valid() {
        return InvalidRngState, None;
      }
      var atStart := position == 0;
      ghost var g := rngState.View();
      var room := Min(text.Length, STAGED_TEXT);
      PrefillDraws(config, k, Sampler.Choice(sampling), replaced, g, room, tokens);
      var after;
      status, output, after := PrefillStaged(k, tokens, sampling, replaced, rngState, logits, room, argumentsValid, buffersFit);
      if status.Ok? {
        DrawKeepsStream(g);
        FinishSampled(output.value, after, rngState, logits, text);
      } else if atStart {
        Reset();
      }
    }

    /** A decode step whose selection samples; refused after an end of generation. Without success
        nothing of the model or of the caller's changes. */
    method SampledDecode(k: ModelKernels, token: nat, sampling: Sampler.Config, replaced: Option<Row>, rngState: RngState,
                         logits: array<F32>, text: array<bv8>, policyValid: bool, argumentsValid: bool, buffersFit: bool)
      returns (status: Status, output: Option<Output>)
      requires Valid() && |k.layers| == |config.layers| && sampling.Valid(VOCABULARY_SIZE) && Apart(rngState, logits, text)
      modifies Repr(), rngState, logits, text
      ensures Valid() && requiresReset == old(requiresReset) && (status.Ok? <==> output.Some?)
      ensures var checked := policyValid && (replaced.Some? ==> |replaced.value| == VOCABULARY_SIZE) && token !in EOG_TOKENS && old(rngState.Valid());
              var g := old(rngState.View());
              var r := Decoded(config, k, SampledOn(Sampler.Choice(sampling), replaced), Min(text.Length, STAGED_TEXT), (old(View()), g), token);
              && (status.Ok? <==> checked && argumentsValid && logits.Length >= VOCABULARY_SIZE && buffersFit && !old(requiresReset) && r.Some?)
              && (status.Ok? ==> rngState.Valid() && r == Some(((View(), rngState.View()), output.value)))
              && (status.Ok? ==> Draw(g).Some? && rngState.View() == Draw(g).value.0)
      ensures !status.Ok? ==> View() == old(View()) && rngState.View() == old(rngState.View()) && rngState.Valid() == old(rngState.Valid())
      ensures !status.Ok? ==> logits[..] == old(logits[..]) && text[..] == old(text[..])
      ensures LogitsAfter(old(logits[..]), logits[..], output) && TextAfter(old(text[..]), text[..], output)
    {
      hide StackValid, InStep, SlotsOf, Decoded, config.Valid, Draw, SampledOn, Sampler.Choice, Sampler.Config.Valid;
      output := None;
      NothingAfter(logits[..], text[..]);
      if !policyValid || (replaced.Some? && |replaced.value| != VOCABULARY_SIZE) {
        return InvalidArgument, None;
      }
      if token in EOG_TOKENS {
        return InvalidModelState, None;
      }
      if !rngState.Valid() {
        return InvalidRngState, None;
      }
      ghost var g, before := rngState.View(), View();
      var room := Min(text.Length, STAGED_TEXT);
      DecodeDraws(config, k, Sampler.Choice(sampling), replaced, g, room, before, token);
      var after;
      status, output, after := DecodeStaged(k, token, sampling, replaced, rngState, logits, room, argumentsValid, buffersFit);
      if status.Ok? {
        DrawKeepsStream(g);
        FinishSampled(output.value, after, rngState, logits, text);
      }
    }
  }

  /** What validity says about positions, layer by layer. */
  lemma ValidMeansInStep(s: ModelState, n: nat)
    requires s.Valid() && n < |s.layers|
    ensures s.position <= s.config.contextCapacity
    ensures s.requiresReset ==> s.position == 0
    ensures !s.requiresReset ==> s.layers[n] in StackObjects(s.layers) && s.layers[n].Valid()
    ensures !s.requiresReset ==> s.layers[n].position == s.position && AtPosition(s.config.layers[n], s.layers[n].Current(), s.position)
  {
    hide LayerState.LayerState.Valid, LayerState.LayerState.Current, LayerState.LayerState.Other, AtPosition;
  }

  /** The calls a caller can make, each with weights that may fail wherever they like. */
  datatype Command =
    | ResetCall
    | GreedyPrefill(k: ModelKernels, tokens: seq<nat>, finite: F32 -> bool, value: F32 -> real, logits: array<F32>, text: array<bv8>,
                    argumentsValid: bool, buffersFit: bool)
    | GreedyDecode(k: ModelKernels, token: nat, finite: F32 -> bool, value: F32 -> real, logits: array<F32>, text: array<bv8>,
                   argumentsValid: bool, buffersFit: bool)
    | SampledPrefillCall(k: ModelKernels, tokens: seq<nat>, sampling: Sampler.Config, replaced: Option<Row>, logits: array<F32>, text: array<bv8>,
                         policyValid: bool, argumentsValid: bool, buffersFit: bool)
    | SampledDecodeCall(k: ModelKernels, token: nat, sampling: Sampler.Config, replaced: Option<Row>, logits: array<F32>, text: array<bv8>,
                        policyValid: bool, argumentsValid: bool, buffersFit: bool)
  {
    ghost function Buffers(): set<object> {
      if ResetCall? then {} else {logits, text}
    }
  }

  /** Kernels for every layer, a sampling configuration that could be opened, and buffers of the
      caller's own. */
  ghost predicate FitsModel(s: ModelState, rngState: RngState, command: Command) {
    && (command.ResetCall? || |command.k.layers| == |s.config.layers|)
    && (command.SampledPrefillCall? || command.SampledDecodeCall? ==> command.sampling.Valid(VOCABULARY_SIZE))
    && command.Buffers() !! {rngState} + s.Repr()
    && (!command.ResetCall? ==> (command.logits as object) != (command.text as object))
  }

  method RunCommand(s: ModelState, rngState: RngState, command: Command)
    requires s.Valid() && rngState !in s.Repr() && FitsModel(s, rngState, command)
    modifies s.Repr(), rngState, command.Buffers()
    ensures s.Valid()
  {
    hide StackValid, InStep, SlotsOf, FreshSlots, Prefilled, PrefillReached, Decoded, s.config.Valid, Sampler.Config.Valid, Sampler.Choice;
    match command {
      case ResetCall => s.Reset();
      case GreedyPrefill(k, tokens, finite, value, logits, text, argumentsValid, buffersFit) =>
        var _, _ := s.PrefillSelect(k, tokens, GreedySelector(finite, value), rngState.View(), logits, text, argumentsValid, buffersFit);
      case GreedyDecode(k, token, finite, value, logits, text, argumentsValid, buffersFit) =>
        var _, _ := s.DecodeSelect(k, token, GreedySelector(finite, value), rngState.View(), logits, text, argumentsValid, buffersFit);
      case SampledPrefillCall(k, tokens, sampling, replaced, logits, text, policyValid, argumentsValid, buffersFit) =>
        var _, _ := s.SampledPrefill(k, tokens, sampling, replaced, rngState, logits, text, policyValid, argumentsValid, buffersFit);
      case SampledDecodeCall(k, token, sampling, replaced, logits, text, policyValid, argumentsValid, buffersFit) =>
        var _, _ := s.SampledDecode(k, token, sampling, replaced, rngState, logits, text, policyValid, argumentsValid, buffersFit);
    }
  }

  ghost function AllBuffers(commands: seq<Command>): set<object> {
    set i, o | 0 <= i < |commands| && o in commands[i].Buffers() :: o
  }

  /** Any run of calls, failures included, keeps the state valid: poisoned only at position 0, and
      in step everywhere otherwise. */
  method RunCommands(s: ModelState, rngState: RngState, commands: seq<Command>)
    requires s.Valid() && rngState !in s.Repr() && forall i :: 0 <= i < |commands| ==> FitsModel(s, rngState, commands[i])
    modifies s.Repr(), rngState, AllBuffers(commands)
    ensures s.Valid()
  {
    for i := 0 to |commands|
      invariant s.Valid()
    {
      hide s.Valid, FitsModel, StackObjects;
      RunCommand(s, rngState, commands[i]);
    }
  }

  /** What a decode step hands out. */
  method CopyBoth(output: Output, logits: array<F32>, text: array<bv8>)
    requires |output.logits| <= logits.Length && |output.text| <= text.Length && (logits as object) != (text as object)
    modifies logits, text
    ensures LogitsAfter(old(logits[..]), logits[..], Some(output)) && TextAfter(old(text[..]), text[..], Some(output))
  {
    CopyOut(logits, output.logits);
    CopyOut(text, output.text);
  }

  lemma NothingAfter(logits: seq<F32>, text: seq<bv8>)
    ensures LogitsAfter(logits, logits, None) && TextAfter(text, text, None)
  {
  }

  /** The caller's logits after a call: those of the result, or as before. */
  ghost predicate LogitsAfter(before: seq<F32>, after: seq<F32>, output: Option<Output>) {
    match output
    case None => after == before
    case Some(result) => |result.logits| <= |before| && after == Overwritten(before, result.logits)
  }

  /** The caller's text buffer after a call that got as far as `output`. */
  ghost predicate TextAfter(before: seq<bv8>, after: seq<bv8>, output: Option<Output>) {
    match output
    case None => after == before
    case Some(result) => |result.text| <= |before| && after == Overwritten(before, result.text)
  }
}
