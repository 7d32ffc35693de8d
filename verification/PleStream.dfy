/** The stream state of the address generator, updated token by token and committed per call. */
module PleStream {
  import opened Foundation
  import opened Streaming
  import opened PleAddress

  /** What a stream of this configuration may look like. */
  predicate Plausible(c: Config, s: Stream) {
    && s.position <= c.contextLength
    && s.history0 < c.vocabularySize && s.history1 < c.vocabularySize
    && (s.position == 0 ==> s.history0 == c.eos && s.history1 == c.eos)
    && (s.position == 1 ==> s.history0 == c.eos)
  }

  /** The call of the generator on a stream value: all checks first, then the fold. */
  function Call(c: Config, s: Stream, tokens: seq<nat>): Option<(Stream, seq<seq<Intent>>)>
    requires c.Shape()
  {
    if Plausible(c, s) && |tokens| <= c.contextLength - s.position && InVocabulary(c, tokens)
    then Run(Generate(c), s, tokens) else None
  }

  /** One head range order of one token: eight intents from one mixed hash. */
  method GenerateOrder(c: Config, position: nat, token: nat, order: nat, pair: nat, triple: nat,
                       intents: array<Intent>, base: nat)
    returns (status: Status)
    requires c.Shape() && 2 <= order <= 3 && base + HEAD_COUNT <= intents.Length
    modifies intents
    ensures var first := (order - 2) * HEADS_PER_ORDER;
            && (status.Ok? ==> forall h :: first <= h < first + HEADS_PER_ORDER ==>
                  HeadIntentOf(c, position, token, pair, triple)(h) == Some(intents[base + h]))
            && (!status.Ok? ==> (exists h :: first <= h < first + HEADS_PER_ORDER &&
                                             HeadIntentOf(c, position, token, pair, triple)(h).None?))
            && (forall i :: 0 <= i < intents.Length && !(base + first <= i < base + first + HEADS_PER_ORDER) ==>
                  intents[i] == old(intents[i]))
  {
    var mixed := if order == 2 then pair else triple;
    var first := (order - 2) * HEADS_PER_ORDER;
    ghost var f := HeadIntentOf(c, position, token, pair, triple);
    assert order == 2 || order == 3;
    if mixed > INT64_MAX {
      assert f(first).None?;
      return ArithmeticOverflow;
    }
    for localHead := 0 to HEADS_PER_ORDER
      invariant forall h :: first <= h < first + localHead ==> f(h) == Some(intents[base + h])
      invariant forall i :: 0 <= i < intents.Length && !(base + first <= i < base + first + HEADS_PER_ORDER) ==>
                  intents[i] == old(intents[i])
    {
      var globalHead := first + localHead;
      assert f(globalHead) == HeadIntent(c, position, token, mixed, globalHead);
      assert 2 + globalHead / HEADS_PER_ORDER == order && globalHead % HEADS_PER_ORDER == localHead;
      var headRow := mixed % c.sizes[globalHead];
      if c.offsets[globalHead] > UINT64_MAX - headRow {
        assert f(globalHead).None?;
        return ArithmeticOverflow;
      }
      var globalAddress := c.offsets[globalHead] + headRow;
      var member := globalAddress / c.memberRows;
      var row := globalAddress % c.memberRows;
      if globalAddress >= c.activeRows || member >= c.members || row >= c.memberRows {
        assert f(globalHead).None?;
        return IncompatiblePle;
      }
      intents[base + globalHead] := Intent(position, globalAddress, c.offsets[globalHead], c.sizes[globalHead], row,
                                           token, order, localHead, globalHead, member);
      assert f(globalHead) == Some(intents[base + globalHead]);
    }
    status := Ok;
  }

  /** One token: sixteen intents at `base`, and the shifted history. */
  method GenerateToken(c: Config, working: Stream, token: nat, intents: array<Intent>, base: nat)
    returns (status: Status, next: Stream)
    requires c.Shape() && base + HEAD_COUNT <= intents.Length
    modifies intents
    ensures status.Ok? ==> GenerateOne(c, working, token) == Some((next, intents[base..base + HEAD_COUNT]))
    ensures !status.Ok? ==> GenerateOne(c, working, token).None?
    ensures forall i :: 0 <= i < intents.Length && !(base <= i < base + HEAD_COUNT) ==> intents[i] == old(intents[i])
  {
    hide HeadIntent, HeadIntentOf, Xor;
    next := working;
    var shifted1 := if working.history1 == c.eos then c.eos else working.history1;
    var shifted2 := if working.history1 == c.eos || working.history0 == c.eos then c.eos else working.history0;
    var product0, product1, product2 :=
      CheckedProduct(token, c.multipliers[0]), CheckedProduct(shifted1, c.multipliers[1]), CheckedProduct(shifted2, c.multipliers[2]);
    if product0.None? || product1.None? || product2.None? {
      return ArithmeticOverflow, working;
    }
    var pair := Xor(product0.value, product1.value);
    var triple := Xor(pair, product2.value);
    ghost var f := HeadIntentOf(c, working.position, token, pair, triple);
    for order := 2 to NGRAM_SIZE + 1
      invariant forall h :: 0 <= h < (order - 2) * HEADS_PER_ORDER ==> f(h) == Some(intents[base + h])
      invariant forall i :: 0 <= i < intents.Length && !(base <= i < base + HEAD_COUNT) ==> intents[i] == old(intents[i])
    {
      status := GenerateOrder(c, working.position, token, order, pair, triple, intents, base);
      if !status.Ok? {
        ghost var h :| 0 <= h < HEAD_COUNT && f(h).None?;
        assert f(Heads()[h]).None?;
        return;
      }
    }
    MapAllIs(f, Heads(), intents[base..base + HEAD_COUNT]);
    next := Stream(working.position + 1, working.history1, token);
    status := Ok;
  }

  /** The token loop on a working copy of the stream. */
  method GenerateAll(c: Config, start: Stream, tokens: seq<nat>, intents: array<Intent>)
    returns (status: Status, working: Stream)
    requires c.Shape() && |tokens| * HEAD_COUNT <= intents.Length
    modifies intents
    ensures status.Ok? <==> Run(Generate(c), start, tokens).Some?
    ensures status.Ok? ==> working == Run(Generate(c), start, tokens).value.0
    ensures status.Ok? ==> Flattens(Run(Generate(c), start, tokens).value.1, intents[..])
  {
    hide GenerateOne;
    working := start;
    ghost var outputs: seq<seq<Intent>> := [];
    for index := 0 to |tokens|
      invariant Run(Generate(c), start, tokens[..index]) == Some((working, outputs))
      invariant Flattens(outputs, intents[..])
    {
      ghost var before := intents[..];
      status, working := GenerateToken(c, working, tokens[index], intents, index * HEAD_COUNT);
      assert tokens[..index + 1][..index] == tokens[..index] && tokens[..index + 1][index] == tokens[index];
      if !status.Ok? {
        RunFailsOnPrefix(Generate(c), start, tokens, index + 1);
        return;
      }
      FlattensMore(outputs, before, intents[..]);
      outputs := outputs + [intents[..][index * HEAD_COUNT..(index + 1) * HEAD_COUNT]];
    }
    assert tokens[..|tokens|] == tokens;
    status := Ok;
  }

  /** The stream of one layer slot. `hash` is the integrity hash: any function will do. */
  class StreamState {
    const hash: seq<nat> -> nat
    var position: nat
    var history0: nat
    var history1: nat
    var version: nat
    var reserved: nat
    var integrity: nat

    function View(): Stream
      reads this
    {
      Stream(position, history0, history1)
    }

    function Digest(): nat
      reads this
    {
      hash([position, history0, history1, version, reserved])
    }

    /** The state passes its own validation: every update recomputes the integrity hash. */
    ghost predicate Sound(c: Config)
      reads this
    {
      version == STATE_VERSION && reserved == 0 && Plausible(c, View()) && integrity == Digest()
    }

    constructor (c: Config, hash: seq<nat> -> nat)
      requires c.eos < c.vocabularySize
      ensures Sound(c) && View() == Fresh(c) && this.hash == hash
    {
      this.hash := hash;
      position, history0, history1 := 0, c.eos, c.eos;
      version, reserved := STATE_VERSION, 0;
      integrity := hash([0, c.eos, c.eos, STATE_VERSION, 0]);
    }

    method Reset(c: Config)
      requires c.eos < c.vocabularySize
      modifies this
      ensures Sound(c) && View() == Fresh(c)
    {
      position, history0, history1 := 0, c.eos, c.eos;
      version, reserved := STATE_VERSION, 0;
      integrity := Digest();
    }

    /** Struct assignment, as the slot copy does it. */
    method CopyFrom(c: Config, other: StreamState)
      requires other.Sound(c) && hash == other.hash
      modifies this
      ensures Sound(c) && View() == old(other.View())
    {
      position, history0, history1 := other.position, other.history0, other.history1;
      version, reserved, integrity := other.version, other.reserved, other.integrity;
    }

    method Validate(c: Config) returns (status: Status)
      ensures status.Ok? <==> Sound(c)
    {
      if version != STATE_VERSION || reserved != 0 || position > c.contextLength ||
         history0 >= c.vocabularySize || history1 >= c.vocabularySize ||
         (position == 0 && (history0 != c.eos || history1 != c.eos)) ||
         (position == 1 && history0 != c.eos) || integrity != Digest() {
        return InvalidPleState;
      }
      status := Ok;
    }

    /** Generates the intents of all tokens or none: the state is committed once, at the end. A
        state that fails its validation is left alone. */
    method Prefill(c: Config, tokens: seq<nat>, intents: array<Intent>) returns (status: Status)
      requires c.Shape()
      modifies this, intents
      ensures status.Ok? <==> old(Sound(c)) && |tokens| * HEAD_COUNT <= intents.Length && Call(c, old(View()), tokens).Some?
      ensures status.Ok? ==> Sound(c) && View() == Call(c, old(View()), tokens).value.0
      ensures status.Ok? ==> Flattens(Call(c, old(View()), tokens).value.1, intents[..])
      ensures !status.Ok? ==> View() == old(View()) && (old(Sound(c)) ==> Sound(c))
    {
      status := Validate(c);
      if !status.Ok? {
        return;
      }
      if |tokens| > UINT64_MAX / HEAD_COUNT {
        return ArithmeticOverflow;
      }
      if |tokens| > c.contextLength - position {
        return LimitExceeded;
      }
      for index := 0 to |tokens|
        invariant InVocabulary(c, tokens[..index])
      {
        if tokens[index] >= c.vocabularySize {
          return InvalidTokenId;
        }
      }
      assert tokens[..|tokens|] == tokens;
      if intents.Length < |tokens| * HEAD_COUNT {
        return BufferTooSmall;
      }
      ghost var start := View();
      var working;
      status, working := GenerateAll(c, View(), tokens, intents);
      if !status.Ok? {
        return;
      }
      RunKeepsPlausible(c, start, tokens);
      position, history0, history1 := working.position, working.history0, working.history1;
      integrity := Digest();
    }
  }

  /** The flat buffer holds the outputs one after the other. */
  ghost predicate Flattens(outputs: seq<seq<Intent>>, flat: seq<Intent>) {
    && |outputs| * HEAD_COUNT <= |flat|
    && forall t :: 0 <= t < |outputs| ==> outputs[t] == flat[t * HEAD_COUNT..(t + 1) * HEAD_COUNT]
  }

  lemma FlattensMore(outputs: seq<seq<Intent>>, before: seq<Intent>, after: seq<Intent>)
    requires Flattens(outputs, before) && |after| == |before| && (|outputs| + 1) * HEAD_COUNT <= |after|
    requires forall i :: 0 <= i < |outputs| * HEAD_COUNT ==> after[i] == before[i]
    ensures Flattens(outputs + [after[|outputs| * HEAD_COUNT..(|outputs| + 1) * HEAD_COUNT]], after)
  {
    forall t | 0 <= t < |outputs| ensures after[t * HEAD_COUNT..(t + 1) * HEAD_COUNT] == before[t * HEAD_COUNT..(t + 1) * HEAD_COUNT] {
    }
  }

  /** A stream that passes validation still passes it after any accepted tokens. */
  lemma {:induction false} RunKeepsPlausible(c: Config, s: Stream, tokens: seq<nat>)
    requires c.Shape() && Plausible(c, s) && |tokens| <= c.contextLength - s.position && InVocabulary(c, tokens)
    requires Run(Generate(c), s, tokens).Some?
    ensures Plausible(c, Run(Generate(c), s, tokens).value.0)
    ensures Run(Generate(c), s, tokens).value.0.position == s.position + |tokens|
  {
    if tokens != [] {
      RunKeepsPlausible(c, s, tokens[..|tokens| - 1]);
    }
  }

  /** Two calls in a row do what one call over all tokens does, whenever both succeed. */
  lemma CallAppend(c: Config, s: Stream, a: seq<nat>, b: seq<nat>)
    requires c.Shape() && Call(c, s, a).Some? && Call(c, Call(c, s, a).value.0, b).Some?
    ensures Call(c, s, a + b) == Resume(Generate(c), Call(c, s, a), b)
  {
    RunKeepsPlausible(c, s, a);
    RunAppend(Generate(c), s, a, b);
  }
}
