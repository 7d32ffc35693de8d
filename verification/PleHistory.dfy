/** What the embedding layer looks up and adds, seen from the whole token sequence. */
module PleHistory {
  import opened Foundation
  import opened Streaming
  import opened FlatIndex
  import opened PleAddress
  import opened PleValue
  import PleStream

  // ----- exclusive or, bit by bit -----

  /** Bit i of a natural. */
  function Bit(n: nat, i: nat): nat {
    if i == 0 then n % 2 else Bit(n / 2, i - 1)
  }

  /** Every bit of the exclusive or is the sum of the two bits without carry. */
  lemma {:induction false} XorByBits(a: nat, b: nat, i: nat)
    ensures Bit(Xor(a, b), i) == (Bit(a, i) + Bit(b, i)) % 2
    decreases i
  {
    XorSplits(a, b);
    hide Xor;
    if i > 0 {
      XorByBits(a / 2, b / 2, i - 1);
    }
  }

  lemma XorSplits(a: nat, b: nat)
    ensures Xor(a, b) % 2 == (a + b) % 2 == (a % 2 + b % 2) % 2
    ensures Xor(a, b) / 2 == Xor(a / 2, b / 2)
  {
    if a == 0 && b == 0 {
      assert Xor(0, 0) == 0;
    } else {
      var rest := Xor(a / 2, b / 2);
      assert Xor(a, b) == (a + b) % 2 + 2 * rest;
      hide Xor;
      Parity(a, b);
      Halves((a + b) % 2, rest);
    }
  }

  lemma Parity(a: nat, b: nat)
    ensures (a + b) % 2 == (a % 2 + b % 2) % 2
  {
  }

  lemma Halves(bit: nat, rest: nat)
    requires bit < 2
    ensures (bit + 2 * rest) % 2 == bit && (bit + 2 * rest) / 2 == rest
  {
  }

  /** Doing it twice undoes it. */
  lemma {:induction false} XorUndoes(a: nat, b: nat)
    ensures Xor(Xor(a, b), b) == a
    decreases a + b
  {
    hide Xor;
    if a == 0 && b == 0 {
      XorOfZeros();
    } else {
      XorSplits(a, b);
      XorSplits(Xor(a, b), b);
      XorUndoes(a / 2, b / 2);
      SameHalves(Xor(Xor(a, b), b), a, Xor(a, b) % 2, b);
    }
  }

  lemma XorOfZeros()
    ensures Xor(0, 0) == 0
  {
  }

  lemma SameHalves(n: nat, a: nat, x: nat, b: nat)
    requires n / 2 == a / 2 && x == (a % 2 + b % 2) % 2 && n % 2 == (x % 2 + b % 2) % 2
    ensures n == a
  {
  }

  // ----- addresses from the tokens -----

  /** The row of head h at position t: the tokens there and before, each times its multiplier, mixed by
      exclusive or, two of them for the first eight heads and three for the others. Nothing is seen
      across an end of sequence. */
  lemma AddressFromTokens(tokens: seq<nat>, t: nat, h: nat, back1: nat, back2: nat, mixed: nat, address: nat)
    requires InVocabulary(TARGET, tokens) && t < |tokens| && h < 16
    requires back1 == if t >= 1 then tokens[t - 1] else TARGET.eos
    requires back2 == if t >= 2 && tokens[t - 1] != TARGET.eos then tokens[t - 2] else TARGET.eos
    requires var p0, p1, p2 := tokens[t] * TARGET_MULTIPLIERS[0], back1 * TARGET_MULTIPLIERS[1], back2 * TARGET_MULTIPLIERS[2];
             mixed == if h < 8 then Xor(p0, p1) else Xor(Xor(p0, p1), p2)
    requires address == TARGET_OFFSETS[h] + mixed % TARGET_SIZES[h]
    ensures Run(Generate(TARGET), Fresh(TARGET), tokens).Some?
    ensures |Run(Generate(TARGET), Fresh(TARGET), tokens).value.1[t]| == 16
    ensures Run(Generate(TARGET), Fresh(TARGET), tokens).value.1[t][h] ==
            Intent(t, address, TARGET_OFFSETS[h], TARGET_SIZES[h], address % TARGET.memberRows, tokens[t],
                   if h < 8 then 2 else 3, h % 8, h, address / TARGET.memberRows)
  {
    hide Run, Xor, AddressesAt, Lookback;
    StreamMatchesSequence(TARGET, tokens);
    LookbackIs(tokens, t);
    AddressIs(tokens, t);
    IntentIs(t, tokens[t], back1, back2, h);
  }

  lemma AddressIs(tokens: seq<nat>, t: nat)
    requires t < |tokens|
    ensures AddressesAt(TARGET, tokens, t) == Intents(TARGET, t, tokens[t], Lookback(TARGET, tokens, t, 1), Lookback(TARGET, tokens, t, 2))
  {
    hide Intents, Lookback;
  }

  lemma IntentIs(position: nat, token: nat, back1: nat, back2: nat, h: nat)
    requires Intents(TARGET, position, token, back1, back2).Some? && h < 16
    ensures var p0, p1, p2 := token * TARGET_MULTIPLIERS[0], back1 * TARGET_MULTIPLIERS[1], back2 * TARGET_MULTIPLIERS[2];
            var mixed := if h < 8 then Xor(p0, p1) else Xor(Xor(p0, p1), p2);
            var address := TARGET_OFFSETS[h] + mixed % TARGET_SIZES[h];
            && |Intents(TARGET, position, token, back1, back2).value| == 16
            && Intents(TARGET, position, token, back1, back2).value[h] ==
               Intent(position, address, TARGET_OFFSETS[h], TARGET_SIZES[h], address % TARGET.memberRows, token,
                      if h < 8 then 2 else 3, h % 8, h, address / TARGET.memberRows)
  {
    hide Xor;
    var p0, p1, p2 := token * TARGET_MULTIPLIERS[0], back1 * TARGET_MULTIPLIERS[1], back2 * TARGET_MULTIPLIERS[2];
    var f := HeadIntentOf(TARGET, position, token, Xor(p0, p1), Xor(Xor(p0, p1), p2));
    var mixed := if h < 8 then Xor(p0, p1) else Xor(Xor(p0, p1), p2);
    assert Heads()[h] == h;
    assert f(Heads()[h]) == Some(Intents(TARGET, position, token, back1, back2).value[h]);
    assert f(h) == HeadIntent(TARGET, position, token, mixed, h);
    assert h / 8 == if h < 8 then 0 else 1;
  }

  lemma LookbackIs(tokens: seq<nat>, t: nat)
    requires t < |tokens|
    ensures Lookback(TARGET, tokens, t, 1) == if t >= 1 then tokens[t - 1] else TARGET.eos
    ensures Lookback(TARGET, tokens, t, 2) == if t >= 2 && tokens[t - 1] != TARGET.eos then tokens[t - 2] else TARGET.eos
  {
    if t >= 1 {
      assert Cut(TARGET, tokens, t, 1) <==> tokens[t - 1] == TARGET.eos;
    }
    if t >= 2 {
      assert Cut(TARGET, tokens, t, 2) <==> tokens[t - 1] == TARGET.eos || tokens[t - 2] == TARGET.eos;
    }
  }

  /** The first eight heads see two tokens only: wherever those agree, in whatever streams, they address
      the same rows. */
  lemma PairHeadsSeeTwoTokens(a: seq<nat>, t: nat, b: seq<nat>, u: nat, h: nat)
    requires InVocabulary(TARGET, a) && t < |a| && InVocabulary(TARGET, b) && u < |b| && h < 8
    requires a[t] == b[u] && (if t >= 1 then a[t - 1] else TARGET.eos) == (if u >= 1 then b[u - 1] else TARGET.eos)
    ensures Run(Generate(TARGET), Fresh(TARGET), a).Some? && |Run(Generate(TARGET), Fresh(TARGET), a).value.1[t]| == 16
    ensures Run(Generate(TARGET), Fresh(TARGET), b).Some? && |Run(Generate(TARGET), Fresh(TARGET), b).value.1[u]| == 16
    ensures Run<Stream, nat, seq<Intent>>(Generate(TARGET), Fresh(TARGET), a).value.1[t][h].globalAddress ==
            Run<Stream, nat, seq<Intent>>(Generate(TARGET), Fresh(TARGET), b).value.1[u][h].globalAddress
  {
    hide Run, Xor, TARGET, TARGET_MULTIPLIERS, TARGET_OFFSETS, TARGET_SIZES;
    var back := if t >= 1 then a[t - 1] else TARGET.eos;
    var mixed := PairOf(a[t], back);
    AddressOfPair(a, t, h, back);
    AddressOfPair(b, u, h, back);
  }

  function PairOf(token: nat, back: nat): nat {
    Xor(token * TARGET_MULTIPLIERS[0], back * TARGET_MULTIPLIERS[1])
  }

  lemma AddressOfPair(tokens: seq<nat>, t: nat, h: nat, back: nat)
    requires InVocabulary(TARGET, tokens) && t < |tokens| && h < 8
    requires back == if t >= 1 then tokens[t - 1] else TARGET.eos
    ensures Run(Generate(TARGET), Fresh(TARGET), tokens).Some?
    ensures |Run(Generate(TARGET), Fresh(TARGET), tokens).value.1[t]| == 16
    ensures Run<Stream, nat, seq<Intent>>(Generate(TARGET), Fresh(TARGET), tokens).value.1[t][h].globalAddress ==
            TARGET_OFFSETS[h] + PairOf(tokens[t], back) % TARGET_SIZES[h]
  {
    hide Run, Xor;
    var back2 := if t >= 2 && tokens[t - 1] != TARGET.eos then tokens[t - 2] else TARGET.eos;
    var mixed := PairOf(tokens[t], back);
    AddressFromTokens(tokens, t, h, back, back2, mixed, TARGET_OFFSETS[h] + mixed % TARGET_SIZES[h]);
  }

  /** The states that pass validation are exactly those that some tokens lead to from a reset. */
  lemma PlausibleIsReachable(s: Stream)
    ensures PleStream.Plausible(TARGET, s) <==>
              exists tokens: seq<nat> :: InVocabulary(TARGET, tokens) && |tokens| <= TARGET.contextLength && LeadsTo(tokens, s)
  {
    if PleStream.Plausible(TARGET, s) {
      var tokens := Witness(s);
      StreamMatchesSequence(TARGET, tokens);
      assert LeadsTo(tokens, s);
    }
    if tokens: seq<nat> :| InVocabulary(TARGET, tokens) && |tokens| <= TARGET.contextLength && LeadsTo(tokens, s) {
      StreamMatchesSequence(TARGET, tokens);
      HistoryIsPlausible(tokens);
    }
  }

  ghost predicate LeadsTo(tokens: seq<nat>, s: Stream) {
    var r := Run(Generate(TARGET), Fresh(TARGET), tokens);
    r.Some? && r.value.0 == s
  }

  function Witness(s: Stream): (tokens: seq<nat>)
    requires PleStream.Plausible(TARGET, s)
    ensures InVocabulary(TARGET, tokens) && |tokens| == s.position && HistoryOf(TARGET, tokens) == s
  {
    if s.position == 0 then []
    else if s.position == 1 then [s.history1]
    else seq(s.position - 2, _ => 0) + [s.history0, s.history1]
  }

  lemma HistoryIsPlausible(tokens: seq<nat>)
    requires InVocabulary(TARGET, tokens) && |tokens| <= TARGET.contextLength
    ensures PleStream.Plausible(TARGET, HistoryOf(TARGET, tokens))
  {
  }

  /** The addresses of a stream pass every check that the value operator makes on them. */
  lemma StreamIntentsFit(c: ValueConfig, tokens: seq<nat>, t: nat)
    requires InVocabulary(TARGET, tokens) && t < |tokens|
    requires c.members == TARGET.members && c.memberRows == TARGET.memberRows
    ensures Run(Generate(TARGET), Fresh(TARGET), tokens).Some?
    ensures IntentsFit(c, t, Run(Generate(TARGET), Fresh(TARGET), tokens).value.1[t])
  {
    hide Run, AddressesAt, Lookback;
    StreamMatchesSequence(TARGET, tokens);
    AddressIs(tokens, t);
    IntentsOfTargetFit(c, t, tokens[t], Lookback(TARGET, tokens, t, 1), Lookback(TARGET, tokens, t, 2));
  }

  lemma IntentsOfTargetFit(c: ValueConfig, position: nat, token: nat, back1: nat, back2: nat)
    requires Intents(TARGET, position, token, back1, back2).Some?
    requires c.members == TARGET.members && c.memberRows == TARGET.memberRows
    ensures IntentsFit(c, position, Intents(TARGET, position, token, back1, back2).value)
  {
    hide Xor;
    var intents := Intents(TARGET, position, token, back1, back2).value;
    var p0, p1, p2 := token * TARGET_MULTIPLIERS[0], back1 * TARGET_MULTIPLIERS[1], back2 * TARGET_MULTIPLIERS[2];
    var f := HeadIntentOf(TARGET, position, token, Xor(p0, p1), Xor(Xor(p0, p1), p2));
    forall h | 0 <= h < HEAD_COUNT ensures IntentFits(c, position, h, intents[h]) {
      assert Heads()[h] == h;
      assert f(Heads()[h]) == Some(intents[h]);
      IntentRecoversAddress(position, token, if h < HEADS_PER_ORDER then Xor(p0, p1) else Xor(Xor(p0, p1), p2), h);
    }
  }

  // ----- values from the tokens -----

  /** What is gated: the sixteen looked-up rows one behind the other, with the hidden row. */
  lemma GatedIs(c: ValueConfig, k: ValueKernels, token: Token) returns (rows: seq<Row>)
    requires Gated(c, k, token).Some?
    ensures |rows| == |token.1| && k.gate(Flatten(rows), token.0) == Gated(c, k, token)
    ensures forall i :: 0 <= i < |rows| ==> k.lookup(token.1[i].member, token.1[i].memberRow) == Some(rows[i])
    ensures forall i :: 0 <= i < |rows| ==> |rows[i]| == c.rowWidth && AllFinite(k.finite, rows[i])
  {
    rows := MapAll(LookupOf(c, k), token.1).value;
    forall i | 0 <= i < |rows|
      ensures k.lookup(token.1[i].member, token.1[i].memberRow) == Some(rows[i]) && |rows[i]| == c.rowWidth && AllFinite(k.finite, rows[i])
    {
      assert LookupOf(c, k)(token.1[i]) == Some(rows[i]);
    }
  }

  /** What one step computes, part by part. */
  lemma TokenIs(c: ValueConfig, k: ValueKernels, view: ValueView, token: Token) returns (convolved: Row, activated: Row)
    requires ValueToken(c, k, view, token).Some? && |view.history| == c.branchWidth * HISTORY_LENGTH
    ensures IntentsFit(c, view.position, token.1) && Gated(c, k, token).Some?
    ensures |convolved| == |activated| == |ValueToken(c, k, view, token).value.1| == c.branchWidth
    ensures k.silu(convolved) == Some(activated)
    ensures forall i :: 0 <= i < c.branchWidth ==>
              convolved[i] == k.tap(i, Sources(view.history, Gated(c, k, token).value.1, i))
    ensures forall i :: 0 <= i < c.branchWidth ==>
              ValueToken(c, k, view, token).value.1[i] == k.add(Gated(c, k, token).value.0[i], activated[i])
  {
    hide Sources, IntentsFit, Gated;
    convolved := Convolved(k, view.history, Gated(c, k, token).value.1);
    activated := Shaped(k.silu(convolved), c.branchWidth).value;
  }

  /** The output of the last token of any stream from reset: its gated value plus the activated
      convolution of the inputs nine, six and three tokens back and its own, zeros before the start. */
  lemma ValueFromHistory(c: ValueConfig, k: ValueKernels, tokens: seq<Token>) returns (convolved: Row, activated: Row)
    requires tokens != [] && Run(ValueStep(c, k), FreshValue(c), tokens).Some?
    ensures IntentsFit(c, |tokens| - 1, tokens[|tokens| - 1].1)
    ensures forall s :: 0 <= s < |tokens| ==> Gated(c, k, tokens[s]).Some?
    ensures |convolved| == |activated| == |Run(ValueStep(c, k), FreshValue(c), tokens).value.1[|tokens| - 1]| == c.branchWidth
    ensures k.silu(convolved) == Some(activated)
    ensures var norms := Norms(c, k, tokens); var t := |tokens| - 1;
            forall i :: 0 <= i < c.branchWidth ==>
              convolved[i] == k.tap(i, [NormAt(norms, t - 9, i), NormAt(norms, t - 6, i), NormAt(norms, t - 3, i), NormAt(norms, t, i)])
    ensures forall i :: 0 <= i < c.branchWidth ==>
              Run(ValueStep(c, k), FreshValue(c), tokens).value.1[|tokens| - 1][i] ==
              k.add(Gated(c, k, tokens[|tokens| - 1]).value.0[i], activated[i])
  {
    hide ValueToken, Sources, IntentsFit, Gated, FreshValue;
    var t := |tokens| - 1;
    RunLast(ValueStep(c, k), FreshValue(c), tokens);
    hide Run;
    var before := Run(ValueStep(c, k), FreshValue(c), tokens[..t]).value.0;
    PositionAdvances(c, k, FreshValue(c), tokens[..t]);
    EarlierAreGated(c, k, tokens[..t]);
    convolved, activated := TokenIs(c, k, before, tokens[t]);
    assert tokens[..t] + [tokens[t]] == tokens;
    var norms, norm := Norms(c, k, tokens), Gated(c, k, tokens[t]).value.1;
    assert norms[..t] == Norms(c, k, tokens[..t]);
    forall i | 0 <= i < c.branchWidth
      ensures convolved[i] == k.tap(i, [NormAt(norms, t - 9, i), NormAt(norms, t - 6, i), NormAt(norms, t - 3, i), NormAt(norms, t, i)])
    {
      TapsAreDilatedHistory(c, k, tokens[..t], norm, i);
    }
  }

  lemma EarlierAreGated(c: ValueConfig, k: ValueKernels, tokens: seq<Token>)
    requires Run(ValueStep(c, k), FreshValue(c), tokens).Some?
    ensures forall s :: 0 <= s < |tokens| ==> Gated(c, k, tokens[s]).Some?
    ensures FreshValue(c).position == 0
    ensures |Run(ValueStep(c, k), FreshValue(c), tokens).value.0.history| == c.branchWidth * HISTORY_LENGTH
  {
    hide Gated, Run;
    HistoryIsShiftedNorms(c, k, FreshValue(c), tokens);
  }
}
