/** N-gram address generation for the product-key embedding layer: a two-token history, masked at
    the end-of-sequence token, hashed into sixteen head ranges. */
module PleAddress {
  import opened Foundation
  import opened Streaming

  const NGRAM_SIZE: nat := 3
  const HEADS_PER_ORDER: nat := 8
  const HEAD_COUNT: nat := 16
  const STATE_VERSION: nat := 1
  const HASH_OFFSET: nat := 1469598103934665603
  const HASH_PRIME: nat := 1099511628211

  datatype Config = Config(
    vocabularySize: nat,
    contextLength: nat,
    eos: nat,
    ngramSize: nat,
    headsPerOrder: nat,
    members: nat,
    memberRows: nat,
    activeRows: nat,
    multipliers: seq<nat>,
    offsets: seq<nat>,
    sizes: seq<nat>)
  {
    ghost predicate Shape() {
      |multipliers| == NGRAM_SIZE && |offsets| == HEAD_COUNT && |sizes| == HEAD_COUNT &&
      contextLength <= UINT32_MAX && memberRows > 0 &&
      forall h :: 0 <= h < HEAD_COUNT ==> sizes[h] > 0
    }
  }

  const TARGET_MULTIPLIERS: seq<nat> := [23703573157769, 20109073645365, 8052911324071]

  const TARGET_OFFSETS: seq<nat> := [
    0, 20000003, 40000026, 60000059, 80000106, 100000165, 120000228, 140000297,
    160000374, 180000455, 200000548, 220000655, 240000802, 260000955, 280001114, 300001275]

  const TARGET_SIZES: seq<nat> := [
    20000003, 20000023, 20000033, 20000047, 20000059, 20000063, 20000069, 20000077,
    20000081, 20000093, 20000107, 20000147, 20000153, 20000159, 20000161, 20000171]

  /** The one configuration the engine accepts. */
  const TARGET: Config := Config(248320, 262144, 248044, NGRAM_SIZE, HEADS_PER_ORDER, 128, 2500012, 320001446,
                                 TARGET_MULTIPLIERS, TARGET_OFFSETS, TARGET_SIZES)

  /** What the descriptor check demands of a configuration read from a model file. */
  method ValidateDescriptor(c: Config) returns (status: Status)
    requires |c.multipliers| == NGRAM_SIZE && |c.offsets| == HEAD_COUNT && |c.sizes| == HEAD_COUNT
    ensures status.Ok? <==> c == TARGET
  {
    if c.vocabularySize != 248320 || c.contextLength != 262144 || c.eos != 248044 ||
       c.ngramSize != NGRAM_SIZE || c.headsPerOrder != HEADS_PER_ORDER || c.members != 128 || c.memberRows != 2500012 {
      return IncompatiblePle;
    }
    var multipliersValid := ValidateMultipliers(c);
    if !multipliersValid {
      return IncompatiblePle;
    }
    var headsValid, cumulative := ValidateHeads(c);
    if !headsValid {
      return IncompatiblePle;
    }
    if cumulative != c.activeRows || c.memberRows * c.members != 320001536 || cumulative > c.memberRows * c.members {
      return IncompatiblePle;
    }
    status := Ok;
  }

  method ValidateMultipliers(c: Config) returns (valid: bool)
    requires |c.multipliers| == NGRAM_SIZE && c.vocabularySize == 248320
    ensures valid <==> c.multipliers == TARGET_MULTIPLIERS
  {
    for index := 0 to NGRAM_SIZE
      invariant forall j :: 0 <= j < index ==> c.multipliers[j] == TARGET_MULTIPLIERS[j]
    {
      if c.multipliers[index] != TARGET_MULTIPLIERS[index] || c.multipliers[index] % 2 == 0 ||
         c.vocabularySize - 1 > INT64_MAX / c.multipliers[index] {
        return false;
      }
    }
    valid := true;
  }

  method ValidateHeads(c: Config) returns (valid: bool, cumulative: nat)
    requires |c.offsets| == HEAD_COUNT && |c.sizes| == HEAD_COUNT
    ensures valid <==> c.offsets == TARGET_OFFSETS && c.sizes == TARGET_SIZES
    ensures valid ==> cumulative == TARGET.activeRows
  {
    cumulative := 0;
    for index := 0 to HEAD_COUNT
      invariant forall j :: 0 <= j < index ==> c.offsets[j] == TARGET_OFFSETS[j] && c.sizes[j] == TARGET_SIZES[j]
      invariant cumulative == RangeStart(index)
    {
      hide RangeStart;
      TargetRangesAbut(index);
      if c.offsets[index] != cumulative || c.offsets[index] != TARGET_OFFSETS[index] ||
         c.sizes[index] != TARGET_SIZES[index] || c.sizes[index] == 0 ||
         cumulative > UINT64_MAX - c.sizes[index] {
        return false, 0;
      }
      cumulative := cumulative + c.sizes[index];
    }
    valid := true;
  }

  /** Where the range of head h starts; past the last head, where all ranges end. */
  function RangeStart(h: nat): nat
    requires h <= HEAD_COUNT
  {
    if h == HEAD_COUNT then TARGET.activeRows else TARGET_OFFSETS[h]
  }

  /** Each head range starts where the one before it ends, and the last ends at the active rows. */
  lemma TargetRangesAbut(h: nat)
    requires h < HEAD_COUNT
    ensures RangeStart(h) == TARGET_OFFSETS[h] && 0 < TARGET_SIZES[h] <= 20000171
    ensures RangeStart(h) + TARGET_SIZES[h] == RangeStart(h + 1) <= TARGET.activeRows
  {
  }

  // ----- addresses of one token -----

  /** Bitwise exclusive or of two naturals. */
  function Xor(a: nat, b: nat): nat
    decreases a + b
  {
    if a == 0 && b == 0 then 0 else (a + b) % 2 + 2 * Xor(a / 2, b / 2)
  }

  /** Exclusive or sets no bit above the highest bit of its operands. */
  lemma {:induction false} XorBelowPow2(a: nat, b: nat, k: nat)
    requires a < Pow2(k) && b < Pow2(k)
    ensures Xor(a, b) < Pow2(k)
    decreases k
  {
    if k > 0 && (a > 0 || b > 0) {
      XorBelowPow2(a / 2, b / 2, k - 1);
    }
  }

  lemma XorFits(a: nat, b: nat)
    requires a <= INT64_MAX && b <= INT64_MAX
    ensures Xor(a, b) <= INT64_MAX
  {
    SixteenMoreBits(47);
    SixteenMoreBits(31);
    SixteenMoreBits(15);
    assert Pow2(15) == 0x8000;
    XorBelowPow2(a, b, 63);
  }

  lemma SixteenMoreBits(k: nat)
    ensures Pow2(k + 16) == 0x1_0000 * Pow2(k)
  {
    assert Pow2(k + 4) == 16 * Pow2(k) by { FourMoreBits(k); }
    FourMoreBits(k + 4);
    FourMoreBits(k + 8);
    FourMoreBits(k + 12);
  }

  lemma FourMoreBits(k: nat)
    ensures Pow2(k + 4) == 16 * Pow2(k)
  {
    assert Pow2(k + 1) == 2 * Pow2(k) && Pow2(k + 2) == 2 * Pow2(k + 1) && Pow2(k + 3) == 2 * Pow2(k + 2);
  }

  datatype Intent = Intent(
    position: nat, globalAddress: nat, headOffset: nat, headSize: nat, memberRow: nat,
    tokenId: nat, order: nat, localHead: nat, globalHead: nat, member: nat)

  /** A token times its multiplier, refused above the signed 64-bit range. */
  function CheckedProduct(token: nat, multiplier: nat): Option<nat> {
    if multiplier != 0 && token > INT64_MAX / multiplier then None else Some(token * multiplier)
  }

  /** The address of one head for one mixed hash, with the bounds checks of the source. */
  function HeadIntent(c: Config, position: nat, token: nat, mixed: nat, head: nat): Option<Intent>
    requires c.Shape() && head < HEAD_COUNT
  {
    var row := mixed % c.sizes[head];
    if c.offsets[head] > UINT64_MAX - row then None
    else
      var address := c.offsets[head] + row;
      if address >= c.activeRows || address / c.memberRows >= c.members then None
      else Some(Intent(position, address, c.offsets[head], c.sizes[head], address % c.memberRows, token,
                       2 + head / HEADS_PER_ORDER, head % HEADS_PER_ORDER, head, address / c.memberRows))
  }

  /** Heads 0..7 hash the last two tokens, heads 8..15 the last three. */
  function HeadIntentOf(c: Config, position: nat, token: nat, pair: nat, triple: nat): nat -> Option<Intent>
    requires c.Shape()
  {
    (head: nat) =>
      if head >= HEAD_COUNT || (if head < HEADS_PER_ORDER then pair else triple) > INT64_MAX then None
      else HeadIntent(c, position, token, if head < HEADS_PER_ORDER then pair else triple, head)
  }

  function Heads(): seq<nat> { seq(HEAD_COUNT, h => h) }

  /** The sixteen intents for a token and what it sees one and two tokens back. */
  function Intents(c: Config, position: nat, token: nat, back1: nat, back2: nat): Option<seq<Intent>>
    requires c.Shape()
  {
    match (CheckedProduct(token, c.multipliers[0]), CheckedProduct(back1, c.multipliers[1]), CheckedProduct(back2, c.multipliers[2]))
    case (Some(p0), Some(p1), Some(p2)) =>
      MapAll(HeadIntentOf(c, position, token, Xor(p0, p1), Xor(Xor(p0, p1), p2)), Heads())
    case _ => None
  }

  // ----- the stream -----

  /** The part of the stream state that determines addresses. */
  datatype Stream = Stream(position: nat, history0: nat, history1: nat)

  function Fresh(c: Config): Stream { Stream(0, c.eos, c.eos) }

  function Back1(c: Config, s: Stream): nat { s.history1 }

  function Back2(c: Config, s: Stream): nat {
    if s.history1 == c.eos || s.history0 == c.eos then c.eos else s.history0
  }

  /** Generates one token's intents and shifts the token into the history. */
  function GenerateOne(c: Config, s: Stream, token: nat): Option<(Stream, seq<Intent>)>
    requires c.Shape()
  {
    match Intents(c, s.position, token, Back1(c, s), Back2(c, s))
    case None => None
    case Some(intents) => Some((Stream(s.position + 1, s.history1, token), intents))
  }

  function Generate(c: Config): Step<Stream, nat, seq<Intent>>
    requires c.Shape()
  {
    (s: Stream, token: nat) => GenerateOne(c, s, token)
  }

  // ----- what the stream means: addresses over the whole token sequence -----

  /** The end of a sequence, or its start, lies among the j tokens before position t. */
  predicate Cut(c: Config, tokens: seq<nat>, t: nat, j: nat)
    requires t <= |tokens|
  {
    t < j || exists i :: t - j <= i < t && tokens[i] == c.eos
  }

  /** Token j back from position t, or the end-of-sequence id when the sequence is cut between. */
  function Lookback(c: Config, tokens: seq<nat>, t: nat, j: nat): nat
    requires t <= |tokens|
  {
    if Cut(c, tokens, t, j) || t - j >= |tokens| then c.eos else tokens[t - j]
  }

  /** The intents of position t, from the whole sequence. */
  function AddressesAt(c: Config, tokens: seq<nat>, t: nat): Option<seq<Intent>>
    requires c.Shape() && t < |tokens|
  {
    Intents(c, t, tokens[t], Lookback(c, tokens, t, 1), Lookback(c, tokens, t, 2))
  }

  function HistoryOf(c: Config, tokens: seq<nat>): Stream {
    var n := |tokens|;
    Stream(n, if n < 2 then c.eos else tokens[n - 2], if n < 1 then c.eos else tokens[n - 1])
  }

  lemma HistoryShowsLookback(c: Config, tokens: seq<nat>)
    ensures Back1(c, HistoryOf(c, tokens)) == Lookback(c, tokens, |tokens|, 1)
    ensures Back2(c, HistoryOf(c, tokens)) == Lookback(c, tokens, |tokens|, 2)
  {
    var n := |tokens|;
    if n >= 1 {
      assert Cut(c, tokens, n, 1) <==> tokens[n - 1] == c.eos;
    }
    if n >= 2 {
      assert Cut(c, tokens, n, 2) <==> tokens[n - 1] == c.eos || tokens[n - 2] == c.eos;
    }
  }

  predicate InVocabulary(c: Config, tokens: seq<nat>) {
    forall i :: 0 <= i < |tokens| ==> tokens[i] < c.vocabularySize
  }

  /** With the target configuration no check of the address arithmetic can fire. */
  lemma TargetNeverFails(position: nat, token: nat, back1: nat, back2: nat)
    requires token < TARGET.vocabularySize && back1 < TARGET.vocabularySize && back2 < TARGET.vocabularySize
    ensures Intents(TARGET, position, token, back1, back2).Some?
  {
    ProductFits(token, 0);
    ProductFits(back1, 1);
    ProductFits(back2, 2);
    var p0, p1, p2 := token * TARGET_MULTIPLIERS[0], back1 * TARGET_MULTIPLIERS[1], back2 * TARGET_MULTIPLIERS[2];
    XorFits(p0, p1);
    XorFits(Xor(p0, p1), p2);
    forall h | 0 <= h < HEAD_COUNT
      ensures HeadIntentOf(TARGET, position, token, Xor(p0, p1), Xor(Xor(p0, p1), p2))(h).Some?
    {
      HeadInBounds(position, token, if h < HEADS_PER_ORDER then Xor(p0, p1) else Xor(Xor(p0, p1), p2), h);
    }
  }

  lemma ProductFits(token: nat, j: nat)
    requires token < TARGET.vocabularySize && j < NGRAM_SIZE
    ensures CheckedProduct(token, TARGET_MULTIPLIERS[j]) == Some(token * TARGET_MULTIPLIERS[j])
    ensures token * TARGET_MULTIPLIERS[j] <= INT64_MAX
  {
    assert TARGET_MULTIPLIERS[j] <= 23703573157769;
    assert token <= 248319 <= INT64_MAX / TARGET_MULTIPLIERS[j];
    assert token * TARGET_MULTIPLIERS[j] <= 248319 * 23703573157769;
  }

  lemma HeadInBounds(position: nat, token: nat, mixed: nat, head: nat)
    requires head < HEAD_COUNT
    ensures HeadIntent(TARGET, position, token, mixed, head).Some?
  {
    TargetRangesAbut(head);
  }

  /** A stream run from reset yields, at every position, the intents of the whole sequence. */
  lemma {:induction false} StreamMatchesSequence(c: Config, tokens: seq<nat>)
    requires c == TARGET && InVocabulary(c, tokens)
    ensures Run(Generate(c), Fresh(c), tokens).Some?
    ensures Run(Generate(c), Fresh(c), tokens).value.0 == HistoryOf(c, tokens)
    ensures forall t :: 0 <= t < |tokens| ==> AddressesAt(c, tokens, t) == Some(Run(Generate(c), Fresh(c), tokens).value.1[t])
  {
    hide Intents, Lookback, Back1, Back2;
    if tokens != [] {
      var last := |tokens| - 1;
      var before := tokens[..last];
      StreamMatchesSequence(c, before);
      NextTokenMatches(c, before, tokens[last]);
      assert before + [tokens[last]] == tokens;
      forall t | 0 <= t < last ensures AddressesAt(c, tokens, t) == AddressesAt(c, before, t) {
        SuffixDoesNotMatter(c, before, tokens, t);
      }
    }
  }

  lemma NextTokenMatches(c: Config, before: seq<nat>, token: nat)
    requires c == TARGET && InVocabulary(c, before) && token < c.vocabularySize
    ensures AddressesAt(c, before + [token], |before|).Some?
    ensures GenerateOne(c, HistoryOf(c, before), token) ==
            Some((HistoryOf(c, before + [token]), AddressesAt(c, before + [token], |before|).value))
  {
    var n := |before|;
    HistoryShowsLookback(c, before);
    SuffixDoesNotMatter(c, before, before + [token], n);
    LookbackInVocabulary(c, before, n, 1);
    LookbackInVocabulary(c, before, n, 2);
    hide Intents, Lookback, Back1, Back2;
    TargetNeverFails(n, token, Lookback(c, before, n, 1), Lookback(c, before, n, 2));
  }

  /** What a position sees does not depend on later tokens. */
  lemma SuffixDoesNotMatter(c: Config, before: seq<nat>, tokens: seq<nat>, t: nat)
    requires t <= |before| && before <= tokens
    ensures Lookback(c, tokens, t, 1) == Lookback(c, before, t, 1)
    ensures Lookback(c, tokens, t, 2) == Lookback(c, before, t, 2)
  {
    assert forall i :: 0 <= i < t ==> tokens[i] == before[i];
    SameCut(c, before, tokens, t, 1);
    SameCut(c, before, tokens, t, 2);
  }

  lemma SameCut(c: Config, before: seq<nat>, tokens: seq<nat>, t: nat, j: nat)
    requires t <= |before| && before <= tokens
    ensures Cut(c, tokens, t, j) == Cut(c, before, t, j)
  {
    if Cut(c, tokens, t, j) && j <= t {
      var i :| t - j <= i < t && tokens[i] == c.eos;
      assert before[i] == c.eos;
    }
    if Cut(c, before, t, j) && j <= t {
      var i :| t - j <= i < t && before[i] == c.eos;
      assert tokens[i] == c.eos;
    }
  }

  lemma LookbackInVocabulary(c: Config, tokens: seq<nat>, t: nat, j: nat)
    requires t <= |tokens| && c.eos < c.vocabularySize && InVocabulary(c, tokens)
    ensures Lookback(c, tokens, t, j) < c.vocabularySize
  {
  }

  /** An end of sequence makes a stream forget: what follows it is addressed as after a reset,
      position numbers apart. */
  lemma EosForgets(c: Config, a: seq<nat>, b: seq<nat>, t: nat)
    requires c == TARGET && InVocabulary(c, a) && InVocabulary(c, b) && t < |b|
    ensures AddressesAt(c, a + [c.eos] + b, |a| + 1 + t).Some? && AddressesAt(c, b, t).Some?
    ensures Renumbered(AddressesAt(c, a + [c.eos] + b, |a| + 1 + t).value, t) == AddressesAt(c, b, t).value
  {
    hide Intents, Lookback;
    var whole := a + [c.eos] + b;
    var at := |a| + 1 + t;
    assert whole[at] == b[t];
    LookbackPastEos(c, a, b, t, 1);
    LookbackPastEos(c, a, b, t, 2);
    LookbackInVocabulary(c, b, t, 1);
    LookbackInVocabulary(c, b, t, 2);
    PositionIsOnlyALabel(at, t, b[t], Lookback(c, b, t, 1), Lookback(c, b, t, 2));
  }

  function Renumbered(intents: seq<Intent>, position: nat): (r: seq<Intent>)
    ensures |r| == |intents| && forall i :: 0 <= i < |r| ==> r[i] == intents[i].(position := position)
  {
    seq(|intents|, i requires 0 <= i < |intents| => intents[i].(position := position))
  }

  lemma LookbackPastEos(c: Config, a: seq<nat>, b: seq<nat>, t: nat, j: nat)
    requires t < |b| && 1 <= j
    ensures Lookback(c, a + [c.eos] + b, |a| + 1 + t, j) == Lookback(c, b, t, j)
  {
    var whole := a + [c.eos] + b;
    var at := |a| + 1 + t;
    if t < j {
      assert whole[|a|] == c.eos && at - j <= |a| < at;
    } else {
      assert whole[|a| + 1..] == b;
      if Cut(c, whole, at, j) {
        var i :| at - j <= i < at && whole[i] == c.eos;
        assert b[i - |a| - 1] == c.eos;
      }
      if Cut(c, b, t, j) {
        var i :| t - j <= i < t && b[i] == c.eos;
        assert whole[|a| + 1 + i] == c.eos;
      }
    }
  }

  lemma PositionIsOnlyALabel(p: nat, q: nat, token: nat, back1: nat, back2: nat)
    requires token < TARGET.vocabularySize && back1 < TARGET.vocabularySize && back2 < TARGET.vocabularySize
    ensures Intents(TARGET, p, token, back1, back2).Some? && Intents(TARGET, q, token, back1, back2).Some?
    ensures Renumbered(Intents(TARGET, p, token, back1, back2).value, q) == Intents(TARGET, q, token, back1, back2).value
  {
    TargetNeverFails(p, token, back1, back2);
    TargetNeverFails(q, token, back1, back2);
    var left := Intents(TARGET, p, token, back1, back2).value;
    var right := Intents(TARGET, q, token, back1, back2).value;
    ProductFits(token, 0);
    ProductFits(back1, 1);
    ProductFits(back2, 2);
    assert |left| == |right| == HEAD_COUNT;
    var p0, p1, p2 := token * TARGET_MULTIPLIERS[0], back1 * TARGET_MULTIPLIERS[1], back2 * TARGET_MULTIPLIERS[2];
    var pair, triple := Xor(p0, p1), Xor(Xor(p0, p1), p2);
    hide HeadIntent, Xor;
    forall h | 0 <= h < HEAD_COUNT ensures left[h].(position := q) == right[h] {
      assert Heads()[h] == h;
      assert HeadIntentOf(TARGET, p, token, pair, triple)(h) == Some(left[h]);
      assert HeadIntentOf(TARGET, q, token, pair, triple)(h) == Some(right[h]);
      HeadLabel(p, q, token, if h < HEADS_PER_ORDER then pair else triple, h);
    }
  }

  lemma HeadLabel(p: nat, q: nat, token: nat, mixed: nat, head: nat)
    requires head < HEAD_COUNT && HeadIntent(TARGET, p, token, mixed, head).Some? && HeadIntent(TARGET, q, token, mixed, head).Some?
    ensures HeadIntent(TARGET, p, token, mixed, head).value.(position := q) == HeadIntent(TARGET, q, token, mixed, head).value
  {
  }

  /** Every address below the active rows belongs to exactly one head. */
  lemma {:induction false} HeadRangesPartition(address: nat)
    requires address < TARGET.activeRows
    ensures exists h :: 0 <= h < HEAD_COUNT && InHeadRange(address, h)
    ensures forall h, g :: 0 <= h < HEAD_COUNT && 0 <= g < HEAD_COUNT && InHeadRange(address, h) && InHeadRange(address, g) ==> h == g
  {
    var h := 0;
    while h + 1 < HEAD_COUNT && TARGET_OFFSETS[h + 1] <= address
      invariant h < HEAD_COUNT && TARGET_OFFSETS[h] <= address
    {
      h := h + 1;
    }
    TargetRangesAbut(h);
    assert InHeadRange(address, h);
    forall f, g | 0 <= f < g < HEAD_COUNT ensures !(InHeadRange(address, f) && InHeadRange(address, g)) {
      OffsetsIncrease(f, g);
    }
  }

  predicate InHeadRange(address: nat, h: nat) {
    h < HEAD_COUNT && TARGET_OFFSETS[h] <= address < TARGET_OFFSETS[h] + TARGET_SIZES[h]
  }

  lemma {:induction false} OffsetsIncrease(f: nat, g: nat)
    requires f < g < HEAD_COUNT
    ensures TARGET_OFFSETS[f] + TARGET_SIZES[f] <= TARGET_OFFSETS[g]
    decreases g
  {
    if f + 1 < g {
      OffsetsIncrease(f, g - 1);
    }
    TargetRangesAbut(g - 1);
  }

  /** An intent names its head's range, and its member and row give the address back. */
  lemma IntentRecoversAddress(position: nat, token: nat, mixed: nat, head: nat)
    requires head < HEAD_COUNT
    ensures HeadIntent(TARGET, position, token, mixed, head).Some?
    ensures var i := HeadIntent(TARGET, position, token, mixed, head).value;
            && i.member * TARGET.memberRows + i.memberRow == i.globalAddress
            && i.memberRow < TARGET.memberRows && i.member < TARGET.members
            && InHeadRange(i.globalAddress, head)
            && HEADS_PER_ORDER * (i.order - 2) + i.localHead == i.globalHead == head
  {
    HeadInBounds(position, token, mixed, head);
    TargetRangesAbut(head);
  }
}
