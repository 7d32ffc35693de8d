/** The sampling generator: PCG with 64 bits of state and 32-bit words, its stream number in the
    increment, and a state record that guards itself with a draw count and an integrity hash. */
module Rng {
  import opened Foundation

  const MULTIPLIER: bv64 := 6364136223846793005
  const MAX_STREAM: bv64 := 0x7FFF_FFFF_FFFF_FFFF
  const RNG_VERSION: nat := 1

  /** Everything that determines the words to come, and where they started. */
  datatype Generator = Generator(seed: bv64, stream: bv64, state: bv64, draws: nat)

  function Increment(stream: bv64): bv64 { (stream << 1) | 1 }

  /** The linear congruential step. */
  function NextState(state: bv64, increment: bv64): bv64 { state * MULTIPLIER + increment }

  /** The output permutation: a xorshift, rotated by the top five bits. */
  function WordOf(state: bv64): bv32 {
    var shifted := (((((state >> 18) ^ state) >> 27) & 0xFFFF_FFFF) as bv32);
    var rotation := ((state >> 59) as bv5);
    RotatedRight(shifted, rotation)
  }

  function RotatedRight(x: bv32, rotation: bv5): bv32 {
    (x >> rotation) | (x << (0 - rotation))
  }

  function Seeded(seed: bv64, stream: bv64): Generator {
    var increment := Increment(stream);
    Generator(seed, stream, NextState(NextState(0, increment) + seed, increment), 0)
  }

  /** One word and the state after it; the draw count may not wrap. */
  function Draw(g: Generator): Option<(Generator, bv32)> {
    if g.draws >= UINT64_MAX then None
    else Some((g.(state := NextState(g.state, Increment(g.stream)), draws := g.draws + 1), WordOf(g.state)))
  }

  /** The first n words and the state after them. */
  function Words(g: Generator, n: nat): (r: Option<(Generator, seq<bv32>)>)
    ensures r.Some? ==> |r.value.1| == n
  {
    if n == 0 then Some((g, []))
    else
      match Words(g, n - 1)
      case None => None
      case Some((before, words)) =>
        match Draw(before)
        case None => None
        case Some((after, word)) => Some((after, words + [word]))
  }

  /** Where a reset puts a generator. */
  function Restarted(g: Generator): Generator { Seeded(g.seed, g.stream) }

  /** Drawing keeps seed and stream and counts every word. */
  lemma {:induction false} WordsKeepOrigin(g: Generator, n: nat)
    requires Words(g, n).Some?
    ensures Words(g, n).value.0.seed == g.seed && Words(g, n).value.0.stream == g.stream
    ensures Words(g, n).value.0.draws == g.draws + n && (n > 0 ==> g.draws + n <= UINT64_MAX)
  {
    hide NextState, WordOf;
    if n > 0 {
      WordsKeepOrigin(g, n - 1);
    }
  }

  /** Words can be drawn in any number of pieces. */
  lemma {:induction false} WordsAppend(g: Generator, n: nat, m: nat)
    requires Words(g, n + m).Some?
    ensures Words(g, n).Some? && Words(Words(g, n).value.0, m).Some?
    ensures var first := Words(g, n).value; var second := Words(first.0, m).value;
            Words(g, n + m) == Some((second.0, first.1 + second.1))
    decreases m
  {
    hide Draw;
    if m > 0 {
      WordsAppend(g, n, m - 1);
      var first := Words(g, n).value;
      var second := Words(first.0, m - 1).value;
      assert (first.1 + second.1) + [Draw(second.0).value.1] == first.1 + (second.1 + [Draw(second.0).value.1]);
    } else {
      assert Words(g, n).value.1 + [] == Words(g, n).value.1;
    }
  }

  /** A reset after any number of draws replays the words of the fresh generator from the start. */
  lemma ResetReplays(seed: bv64, stream: bv64, n: nat, m: nat)
    requires Words(Seeded(seed, stream), n).Some?
    ensures Words(Restarted(Words(Seeded(seed, stream), n).value.0), m) == Words(Seeded(seed, stream), m)
  {
    WordsKeepOrigin(Seeded(seed, stream), n);
  }

  /** The increment of a legal stream is odd, and half of it is the stream. */
  lemma IncrementIsOdd(stream: bv64)
    requires stream <= MAX_STREAM
    ensures Increment(stream) & 1 == 1 && Increment(stream) >> 1 == stream
  {
  }

  /** No two legal streams share an increment. */
  lemma IncrementsDiffer(a: bv64, b: bv64)
    requires a <= MAX_STREAM && b <= MAX_STREAM && Increment(a) == Increment(b)
    ensures a == b
  {
    hide Increment;
    IncrementIsOdd(a);
    IncrementIsOdd(b);
  }

  lemma KnownStep(seed: bv64, stream: bv64, known: seq<bv32>, n: nat, state: bv64, increment: bv64, next: bv64)
    requires n < |known| && n < UINT64_MAX && increment == Increment(stream)
    requires Words(Seeded(seed, stream), n) == Some((Generator(seed, stream, state, n), known[..n]))
    requires WordOf(state) == known[n] && NextState(state, increment) == next
    ensures Words(Seeded(seed, stream), n + 1) == Some((Generator(seed, stream, next, n + 1), known[..n + 1]))
  {
    hide WordOf, NextState, Seeded, Increment;
    assert known[..n] + [known[n]] == known[..n + 1];
  }

  /** The words of seed 0 and stream 0 are the published ones. */
  lemma KnownWords()
    ensures Seeded(0, 0).state == 0x5851f42d4c957f2e && Words(Seeded(0, 0), 8).Some?
    ensures Words(Seeded(0, 0), 8).value.1 ==
            [0xe4c14788, 0x379c6516, 0x5c4ab3bb, 0x601d23e0, 0x1c382b8c, 0xd1faab16, 0x67680a2d, 0x92014a6e]
  {
    hide Words;
    var known: seq<bv32> := [0xe4c14788, 0x379c6516, 0x5c4ab3bb, 0x601d23e0, 0x1c382b8c, 0xd1faab16, 0x67680a2d, 0x92014a6e];
    NoWords(Seeded(0, 0));
    KnownStep(0, 0, known, 0, 0x5851f42d4c957f2e, 1, 0xc0b18ccf4e252d17);
    KnownStep(0, 0, known, 1, 0xc0b18ccf4e252d17, 1, 0xcbb5f646404a560c);
    KnownStep(0, 0, known, 2, 0xcbb5f646404a560c, 1, 0xc7033129d2bd141d);
    KnownStep(0, 0, known, 3, 0xc7033129d2bd141d, 1, 0x30705b042917ec1a);
    KnownStep(0, 0, known, 4, 0x30705b042917ec1a, 1, 0x20fd5db43a776693);
    KnownStep(0, 0, known, 5, 0x20fd5db43a776693, 1, 0x9a8b7f78da6ef4d8);
    KnownStep(0, 0, known, 6, 0x9a8b7f78da6ef4d8, 1, 0x502959d812b031f9);
    KnownStep(0, 0, known, 7, 0x502959d812b031f9, 1, 0xab894868b3b04fc6);
    assert known[..8] == known;
  }

  /** So are those of seed 42 and stream 54, the generator's own demonstration. */
  lemma KnownWordsOfStream()
    ensures Seeded(42, 54).state == 0x185706b82c2e03f8 && Words(Seeded(42, 54), 6).Some?
    ensures Words(Seeded(42, 54), 6).value.1 ==
            [0xa15c02b7, 0x7b47f409, 0xba1d3330, 0x83d2f293, 0xbfa4784b, 0xcbed606e]
  {
    hide Words;
    var known: seq<bv32> := [0xa15c02b7, 0x7b47f409, 0xba1d3330, 0x83d2f293, 0xbfa4784b, 0xcbed606e];
    NoWords(Seeded(42, 54));
    KnownStep(42, 54, known, 0, 0x185706b82c2e03f8, 109, 0x2b47fed88766bb05);
    KnownStep(42, 54, known, 1, 0x2b47fed88766bb05, 109, 0x8b33296d19bf5b4e);
    KnownStep(42, 54, known, 2, 0x8b33296d19bf5b4e, 109, 0xf7079824c154bf23);
    KnownStep(42, 54, known, 3, 0xf7079824c154bf23, 109, 0xebbf9e97aa16f694);
    KnownStep(42, 54, known, 4, 0xebbf9e97aa16f694, 109, 0x8303569fbe80c471);
    KnownStep(42, 54, known, 5, 0x8303569fbe80c471, 109, 0xbeb6d0b73fdb974a);
    assert known[..6] == known;
  }

  lemma NoWords(g: Generator)
    ensures Words(g, 0) == Some((g, []))
  {
  }

  /** Everything in a state record that its integrity hash covers. */
  datatype Record = Record(version: nat, reserved: nat, seed: bv64, stream: bv64, state: bv64, increment: bv64, draws: nat)

  /** The state record that callers hold. `hash` stands for the integrity hash. */
  class RngState {
    const hash: Record -> bv64
    var version: nat
    var reserved: nat
    var seed: bv64
    var stream: bv64
    var state: bv64
    var increment: bv64
    var draws: nat
    var integrity: bv64

    function View(): Generator
      reads this
    {
      Generator(seed, stream, state, draws)
    }

    function Digest(): bv64
      reads this
    {
      hash(Record(version, reserved, seed, stream, state, increment, draws))
    }

    predicate Valid()
      reads this
    {
      version == RNG_VERSION && reserved == 0 && stream <= MAX_STREAM && increment == Increment(stream) && integrity == Digest()
    }

    constructor (seed: bv64, stream: bv64, hash: Record -> bv64)
      requires stream <= MAX_STREAM
      ensures Valid() && View() == Seeded(seed, stream) && this.hash == hash
    {
      this.hash := hash;
      new;
      Store(Seeded(seed, stream));
    }

    /** Writes a generator value into the record. */
    method Store(g: Generator)
      modifies this
      ensures View() == g && (g.stream <= MAX_STREAM ==> Valid())
    {
      version, reserved := RNG_VERSION, 0;
      seed, stream, state, draws := g.seed, g.stream, g.state, g.draws;
      increment := Increment(g.stream);
      integrity := Digest();
    }

    method Reset() returns (status: Status)
      modifies this
      ensures status.Ok? <==> old(Valid())
      ensures status.Ok? ==> Valid() && View() == Restarted(old(View()))
      ensures !status.Ok? ==> View() == old(View())
    {
      if !Valid() {
        return InvalidRngState;
      }
      Store(Seeded(seed, stream));
      status := Ok;
    }

    /** Copies a valid record into another one; an import is the same call from the other side. */
    method Snapshot(output: RngState) returns (status: Status)
      requires output.hash == hash
      modifies output
      ensures status.Ok? <==> old(Valid())
      ensures status.Ok? ==> output.Valid() && output.View() == old(View())
      ensures !status.Ok? && output != this ==> output.View() == old(output.View()) && output.Valid() == old(output.Valid())
      ensures Valid() == old(Valid()) && View() == old(View())
    {
      hide Increment;
      if !Valid() {
        return InvalidRngState;
      }
      output.version, output.reserved, output.seed, output.stream := version, reserved, seed, stream;
      output.state, output.increment, output.draws, output.integrity := state, increment, draws, integrity;
      status := Ok;
    }

    /** Draws one word, or leaves the record as it is. */
    method Next() returns (status: Status, word: bv32)
      modifies this
      ensures status.Ok? <==> old(Valid()) && Draw(old(View())).Some?
      ensures status.Ok? ==> Valid() && Draw(old(View())) == Some((View(), word))
      ensures !status.Ok? ==> View() == old(View()) && Valid() == old(Valid())
    {
      if !Valid() {
        return InvalidRngState, 0;
      }
      if draws >= UINT64_MAX {
        return ArithmeticOverflow, 0;
      }
      word := WordOf(state);
      state := NextState(state, increment);
      draws := draws + 1;
      integrity := Digest();
      status := Ok;
    }
  }
}
