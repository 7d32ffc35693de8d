/** Streaming SHA-256 against the standard: FIPS 180-4, section numbers below. */
module Sha256 {
  import opened Foundation
  import opened FlatIndex
  import opened Streaming

  // ----- the standard -----

  /** Section 4.2.2. */
  const K00: seq<bv32> := [0x428a2f98, 0x71374491, 0xb5c0fbcf, 0xe9b5dba5, 0x3956c25b, 0x59f111f1, 0x923f82a4, 0xab1c5ed5]
  const K08: seq<bv32> := [0xd807aa98, 0x12835b01, 0x243185be, 0x550c7dc3, 0x72be5d74, 0x80deb1fe, 0x9bdc06a7, 0xc19bf174]
  const K16: seq<bv32> := [0xe49b69c1, 0xefbe4786, 0x0fc19dc6, 0x240ca1cc, 0x2de92c6f, 0x4a7484aa, 0x5cb0a9dc, 0x76f988da]
  const K24: seq<bv32> := [0x983e5152, 0xa831c66d, 0xb00327c8, 0xbf597fc7, 0xc6e00bf3, 0xd5a79147, 0x06ca6351, 0x14292967]
  const K32: seq<bv32> := [0x27b70a85, 0x2e1b2138, 0x4d2c6dfc, 0x53380d13, 0x650a7354, 0x766a0abb, 0x81c2c92e, 0x92722c85]
  const K40: seq<bv32> := [0xa2bfe8a1, 0xa81a664b, 0xc24b8b70, 0xc76c51a3, 0xd192e819, 0xd6990624, 0xf40e3585, 0x106aa070]
  const K48: seq<bv32> := [0x19a4c116, 0x1e376c08, 0x2748774c, 0x34b0bcb5, 0x391c0cb3, 0x4ed8aa4a, 0x5b9cca4f, 0x682e6ff3]
  const K56: seq<bv32> := [0x748f82ee, 0x78a5636f, 0x84c87814, 0x8cc70208, 0x90befffa, 0xa4506ceb, 0xbef9a3f7, 0xc67178f2]

  const K: seq<bv32> := K00 + K08 + K16 + K24 + K32 + K40 + K48 + K56

  datatype Hash = Hash(a: bv32, b: bv32, c: bv32, d: bv32, e: bv32, f: bv32, g: bv32, h: bv32)

  /** Section 5.3.3. */
  const INITIAL: Hash := Hash(0x6a09e667, 0xbb67ae85, 0x3c6ef372, 0xa54ff53a, 0x510e527f, 0x9b05688c, 0x1f83d9ab, 0x5be0cd19)

  /** Section 3.2, ROTR. */
  function Rotr(x: bv32, count: bv6): bv32
    requires 0 < count < 32
  {
    (x >> count) | (x << (32 - count))
  }

  /** Section 3.2, addition modulo 2^32. */
  function Add(x: bv32, y: bv32): bv32 { x + y }

  function Add4(x: bv32, y: bv32, z: bv32, w: bv32): bv32 { x + y + z + w }

  // Section 4.1.2.
  function Ch(x: bv32, y: bv32, z: bv32): bv32 { (x & y) ^ (!x & z) }

  function Maj(x: bv32, y: bv32, z: bv32): bv32 { (x & y) ^ (x & z) ^ (y & z) }

  function BigSigma0(x: bv32): bv32 { Rotr(x, 2) ^ Rotr(x, 13) ^ Rotr(x, 22) }

  function BigSigma1(x: bv32): bv32 { Rotr(x, 6) ^ Rotr(x, 11) ^ Rotr(x, 25) }

  function SmallSigma0(x: bv32): bv32 { Rotr(x, 7) ^ Rotr(x, 18) ^ (x >> 3) }

  function SmallSigma1(x: bv32): bv32 { Rotr(x, 17) ^ Rotr(x, 19) ^ (x >> 10) }

  /** A big-endian word of a block. */
  function WordAt(block: seq<bv8>, t: nat): bv32
    requires |block| == 64 && t < 16
  {
    ((block[4 * t] as bv32) << 24) | ((block[4 * t + 1] as bv32) << 16) | ((block[4 * t + 2] as bv32) << 8) | (block[4 * t + 3] as bv32)
  }

  /** Section 6.2.2, step 1: the message schedule. */
  function Schedule(block: seq<bv8>, t: nat): bv32
    requires |block| == 64 && t < 64
  {
    if t < 16 then WordAt(block, t)
    else Add4(SmallSigma1(Schedule(block, t - 2)), Schedule(block, t - 7), SmallSigma0(Schedule(block, t - 15)), Schedule(block, t - 16))
  }

  /** Section 6.2.2, step 3, once. */
  function Round(v: Hash, k: bv32, w: bv32): Hash {
    var t1 := Add(Add(Add(Add(v.h, BigSigma1(v.e)), Ch(v.e, v.f, v.g)), k), w);
    var t2 := Add(BigSigma0(v.a), Maj(v.a, v.b, v.c));
    Hash(Add(t1, t2), v.a, v.b, v.c, Add(v.d, t1), v.e, v.f, v.g)
  }

  function Rounds(block: seq<bv8>, v: Hash, n: nat): Hash
    requires |block| == 64 && n <= 64
  {
    if n == 0 then v else Round(Rounds(block, v, n - 1), K[n - 1], Schedule(block, n - 1))
  }

  /** Section 6.2.2, step 4. */
  function AddHash(x: Hash, y: Hash): Hash {
    Hash(Add(x.a, y.a), Add(x.b, y.b), Add(x.c, y.c), Add(x.d, y.d), Add(x.e, y.e), Add(x.f, y.f), Add(x.g, y.g), Add(x.h, y.h))
  }

  function Compress(v: Hash, block: seq<bv8>): Hash
    requires |block| == 64
  {
    AddHash(Rounds(block, v, 64), v)
  }

  /** All blocks of a message whose length is a multiple of 64 bytes. */
  function Process(message: seq<bv8>): Hash
    requires |message| % 64 == 0
  {
    if message == [] then INITIAL else Compress(Process(message[..|message| - 64]), message[|message| - 64..])
  }

  /** A number as eight bytes, the highest first. */
  function BigEndian64(n: nat): (r: seq<bv8>)
    ensures |r| == 8
  {
    seq(8, i requires 0 <= i < 8 => ByteOf(n, 7 - i))
  }

  function ByteOf(n: nat, i: nat): bv8 { (n / Pow256(i) % 256) as bv8 }

  function Zeros(n: nat): (r: seq<bv8>)
    ensures |r| == n && forall i :: 0 <= i < n ==> r[i] == 0
  {
    seq(n, _ => 0)
  }

  /** The zero bytes of the padding. */
  function ZeroCount(length: nat): (k: nat)
    ensures k < 64 && (length + 1 + k) % 64 == 56
  {
    (119 - length % 64) % 64
  }

  /** Section 5.1.1: a one bit, the fewest zero bits that bring the length to 448 modulo 512, and
      the length in bits; in whole bytes. `bits` is the number that the length field holds. */
  function Padded(message: seq<bv8>, bits: nat): (r: seq<bv8>)
    ensures |r| % 64 == 0
  {
    message + [0x80] + Zeros(ZeroCount(|message|)) + BigEndian64(bits)
  }

  lemma PaddingIsShortest(length: nat, k: nat)
    requires (8 * length + 1 + 7 + 8 * k) % 512 == 448
    ensures ZeroCount(length) <= k && (8 * length + 1 + 7 + 8 * ZeroCount(length)) % 512 == 448
  {
    InBytes(length + 1 + k);
    InBytes(length + 1 + ZeroCount(length));
    Shortest(length, k);
  }

  lemma InBytes(n: nat)
    ensures 8 * n % 512 == 448 <==> n % 64 == 56
  {
  }

  lemma Shortest(length: nat, k: nat)
    requires (length + 1 + k) % 64 == 56
    ensures (119 - length % 64) % 64 <= k
  {
  }

  function HashBytes(v: Hash): (r: seq<bv8>)
    ensures |r| == 32
  {
    WordBytes(v.a) + WordBytes(v.b) + WordBytes(v.c) + WordBytes(v.d) + WordBytes(v.e) + WordBytes(v.f) + WordBytes(v.g) + WordBytes(v.h)
  }

  function WordBytes(x: bv32): (r: seq<bv8>)
    ensures |r| == 4
  {
    [((x >> 24) & 0xFF) as bv8, ((x >> 16) & 0xFF) as bv8, ((x >> 8) & 0xFF) as bv8, (x & 0xFF) as bv8]
  }

  /** Reading a word and writing it out gives its four bytes back. */
  lemma WordsAreBytes(block: seq<bv8>, t: nat)
    requires |block| == 64 && t < 16
    ensures WordBytes(WordAt(block, t)) == block[4 * t..4 * t + 4]
  {
    BytesOfWord(block[4 * t], block[4 * t + 1], block[4 * t + 2], block[4 * t + 3]);
  }

  lemma BytesOfWord(a: bv8, b: bv8, c: bv8, d: bv8)
    ensures WordBytes(((a as bv32) << 24) | ((b as bv32) << 16) | ((c as bv32) << 8) | (d as bv32)) == [a, b, c, d]
  {
  }

  /** SHA-256 of a message, for any message that the length field can describe. */
  function Digest(message: seq<bv8>): seq<bv8>
  {
    HashBytes(Process(Padded(message, 8 * |message|)))
  }

  // ----- the transform -----

  lemma SumOrder(a: bv32, b: bv32, c: bv32, d: bv32)
    ensures Add4(a, b, c, d) == Add4(d, c, b, a)
  {
  }

  lemma ScheduleStep(block: seq<bv8>, t: nat)
    requires |block| == 64 && 16 <= t < 64
    ensures Schedule(block, t) ==
            Add4(Schedule(block, t - 16), SmallSigma0(Schedule(block, t - 15)), Schedule(block, t - 7), SmallSigma1(Schedule(block, t - 2)))
  {
    hide SmallSigma0, SmallSigma1, WordAt, Add4;
    SumOrder(Schedule(block, t - 16), SmallSigma0(Schedule(block, t - 15)), Schedule(block, t - 7), SmallSigma1(Schedule(block, t - 2)));
  }

  /** Expands a block into the words of its schedule. */
  method Expand(block: seq<bv8>) returns (words: array<bv32>)
    requires |block| == 64
    ensures fresh(words) && words.Length == 64 && forall t :: 0 <= t < 64 ==> words[t] == Schedule(block, t)
  {
    hide SmallSigma0, SmallSigma1, WordAt, Schedule, Add4;
    words := new bv32[64];
    FirstWords(block, words);
    for index := 16 to 64
      invariant forall t :: 0 <= t < index ==> words[t] == Schedule(block, t)
    {
      ScheduleStep(block, index);
      var s0, s1 := SmallSigma0(words[index - 15]), SmallSigma1(words[index - 2]);
      words[index] := Add4(words[index - 16], s0, words[index - 7], s1);
    }
  }

  method FirstWords(block: seq<bv8>, words: array<bv32>)
    requires |block| == 64 == words.Length
    modifies words
    ensures forall t :: 0 <= t < 16 ==> words[t] == Schedule(block, t)
  {
    hide SmallSigma0, SmallSigma1, WordAt;
    for index := 0 to 16
      invariant forall t :: 0 <= t < index ==> words[t] == Schedule(block, t)
    {
      words[index] := WordAt(block, index);
    }
  }

  /** Adds one block to a state. */
  method Transform(state: Hash, block: seq<bv8>) returns (next: Hash)
    requires |block| == 64
    ensures next == Compress(state, block)
  {
    hide BigSigma0, BigSigma1, Ch, Maj, Schedule, AddHash, Add;
    var words := Expand(block);
    var a, b, c, d := state.a, state.b, state.c, state.d;
    var e, f, g, h := state.e, state.f, state.g, state.h;
    for index := 0 to 64
      invariant Hash(a, b, c, d, e, f, g, h) == Rounds(block, state, index)
    {
      var temporary1 := Add(Add(Add(Add(h, BigSigma1(e)), Ch(e, f, g)), K[index]), words[index]);
      var temporary2 := Add(BigSigma0(a), Maj(a, b, c));
      h, g, f := g, f, e;
      e := Add(d, temporary1);
      d, c, b := c, b, a;
      a := Add(temporary1, temporary2);
    }
    next := AddHash(Hash(a, b, c, d, e, f, g, h), state);
  }

  lemma ProcessAppend(message: seq<bv8>, block: seq<bv8>)
    requires |message| % 64 == 0 && |block| == 64
    ensures Process(message + block) == Compress(Process(message), block)
  {
    hide Compress;
    assert (message + block)[..|message|] == message && (message + block)[|message|..] == block;
  }

  // ----- the streaming context -----

  method CopyInto(block: array<bv8>, at: nat, data: seq<bv8>)
    requires at + |data| <= block.Length
    modifies block
    ensures block[..at + |data|] == old(block[..at]) + data
  {
    for i := 0 to |data|
      invariant block[..at + i] == old(block[..at]) + data[..i]
    {
      block[at + i] := data[i];
      assert data[..i + 1] == data[..i] + [data[i]];
    }
  }

  class Context {
    var state: Hash
    var totalBytes: nat
    const block: array<bv8>
    var blockUsed: nat
    ghost var absorbed: seq<bv8>

    /** What has been absorbed is in the state, but for an incomplete block in the buffer. */
    ghost predicate Buffered()
      reads this`state, this`blockUsed, this`absorbed, block
    {
      && block.Length == 64 && blockUsed == |absorbed| % 64
      && state == Process(absorbed[..|absorbed| - blockUsed])
      && block[..blockUsed] == absorbed[|absorbed| - blockUsed..]
    }

    ghost predicate Valid()
      reads this, block
    {
      Buffered() && totalBytes == |absorbed| % (UINT64_MAX + 1)
    }

    constructor ()
      ensures Valid() && fresh(block) && absorbed == []
    {
      state := INITIAL;
      totalBytes, blockUsed := 0, 0;
      block := new bv8[64];
      absorbed := [];
    }

    /** Transforms the block when it is full. */
    method TransformBlock(ghost base: seq<bv8>)
      requires block.Length == 64 && |base| % 64 == 0 && state == Process(base)
      modifies this`state
      ensures state == Process(base + block[..])
    {
      hide Process, Compress;
      ProcessAppend(base, block[..]);
      state := Transform(state, block[..]);
    }

    /** Copies as much of the data as the block takes, and transforms a block that is full. */
    method Absorb(data: seq<bv8>) returns (copied: nat)
      requires Buffered() && data != []
      modifies this`state, this`blockUsed, this`absorbed, block
      ensures Buffered() && 0 < copied <= |data| && absorbed == old(absorbed) + data[..copied]
    {
      hide Process;
      var available := 64 - blockUsed;
      copied := if |data| < available then |data| else available;
      ghost var base := absorbed[..|absorbed| - blockUsed];
      assert absorbed == base + block[..blockUsed];
      BlockCount(|absorbed|, copied);
      CopyInto(block, blockUsed, data[..copied]);
      absorbed := absorbed + data[..copied];
      blockUsed := blockUsed + copied;
      assert absorbed == base + block[..blockUsed];
      if blockUsed == 64 {
        assert block[..64] == block[..];
        TransformBlock(base);
        blockUsed := 0;
        assert absorbed[..|absorbed|] == absorbed;
      } else {
        assert absorbed[..|absorbed| - blockUsed] == base;
      }
    }

    /** Absorbs any number of bytes. */
    method Update(data: seq<bv8>)
      requires Valid()
      modifies this, block
      ensures Valid() && absorbed == old(absorbed) + data
    {
      hide Buffered;
      var rest := data;
      TotalAdds(|absorbed|, |data|);
      totalBytes := (totalBytes + |data|) % (UINT64_MAX + 1);
      while rest != []
        invariant Buffered() && old(absorbed) + data == absorbed + rest
        invariant totalBytes == |old(absorbed) + data| % (UINT64_MAX + 1)
        decreases |rest|
      {
        var copied := Absorb(rest);
        assert rest == rest[..copied] + rest[copied..];
        rest := rest[copied..];
      }
    }

    /** Writes zero bytes into the block. */
    method FillZeros(from: nat, end: nat)
      requires from <= end <= 64 == block.Length
      modifies block
      ensures block[..from] == old(block[..from]) && block[from..end] == Zeros(end - from)
    {
      for i := from to end
        invariant block[..from] == old(block[..from]) && forall j :: from <= j < i ==> block[j] == 0
      {
        block[i] := 0;
      }
    }

    /** Writes the length field into the last eight bytes. */
    method WriteLength(bits: nat)
      requires block.Length == 64
      modifies block
      ensures block[..56] == old(block[..56]) && block[56..] == BigEndian64(bits)
    {
      for index := 0 to 8
        invariant block[..56] == old(block[..56]) && forall j :: 0 <= j < index ==> block[63 - j] == ByteOf(bits, j)
      {
        hide ByteOf;
        block[63 - index] := ByteOf(bits, index);
      }
    }

    /** Pads, writes the length and puts the state out; the context is cleared. The length field
        holds the number of bits modulo 2^64. */
    method Final() returns (digest: seq<bv8>)
      requires Valid()
      modifies this, block
      ensures digest == HashBytes(Process(Padded(old(absorbed), 8 * |old(absorbed)| % (UINT64_MAX + 1))))
      ensures |old(absorbed)| < 0x2000_0000_0000_0000 ==> digest == Digest(old(absorbed))
    {
      hide Process, HashBytes, BigEndian64, Padded, Digest;
      ghost var message := absorbed;
      BitCount(|message|);
      DigestIs(message);
      var bits := totalBytes * 8 % (UINT64_MAX + 1);
      PadAndTransform(bits);
      digest := HashBytes(state);
      state := Hash(0, 0, 0, 0, 0, 0, 0, 0);
      totalBytes, blockUsed := 0, 0;
      FillZeros(0, 64);
    }

    /** The padding: one or two more blocks. */
    method PadAndTransform(bits: nat)
      requires Buffered()
      modifies this`state, this`blockUsed, block
      ensures block.Length == 64 && state == Process(Padded(absorbed, bits))
    {
      hide Process, BigEndian64, Padded;
      ghost var base, tail := absorbed[..|absorbed| - blockUsed], absorbed[|absorbed| - blockUsed..];
      BlockCount(|absorbed|, 0);
      PaddedIs(absorbed, tail, bits);
      block[blockUsed] := 0x80;
      blockUsed := blockUsed + 1;
      assert block[..blockUsed] == tail + [0x80];
      if blockUsed > 56 {
        FillZeros(blockUsed, 64);
        assert block[..] == tail + [0x80] + Zeros(63 - |tail|);
        TransformBlock(base);
        base := base + block[..];
        blockUsed := 0;
        LastBlock(base, [], bits);
      } else {
        LastBlock(base, tail + [0x80], bits);
      }
    }

    /** Zeros up to the length field, the length, and the last transform. */
    method LastBlock(ghost base: seq<bv8>, ghost head: seq<bv8>, bits: nat)
      requires block.Length == 64 && blockUsed == |head| <= 56 && block[..blockUsed] == head
      requires |base| % 64 == 0 && state == Process(base)
      modifies this`state, block
      ensures |base + (head + Zeros(56 - |head|) + BigEndian64(bits))| % 64 == 0
      ensures state == Process(base + (head + Zeros(56 - |head|) + BigEndian64(bits)))
    {
      hide Process, BigEndian64;
      FillZeros(blockUsed, 56);
      assert block[..56] == head + Zeros(56 - |head|);
      WriteLength(bits);
      assert block[..] == block[..56] + block[56..];
      TransformBlock(base);
    }
  }

  lemma DigestIs(message: seq<bv8>)
    ensures Digest(message) == HashBytes(Process(Padded(message, 8 * |message|)))
  {
  }

  /** The padded message, cut where the buffer was cut. */
  lemma PaddedIs(message: seq<bv8>, tail: seq<bv8>, bits: nat)
    requires |tail| == |message| % 64 && tail == message[|message| - |tail|..]
    ensures var base := message[..|message| - |tail|];
            Padded(message, bits) ==
            if |tail| < 56 then base + (tail + [0x80] + Zeros(55 - |tail|) + BigEndian64(bits))
            else base + (tail + [0x80] + Zeros(63 - |tail|)) + ([] + Zeros(56) + BigEndian64(bits))
  {
    hide BigEndian64;
    var base := message[..|message| - |tail|];
    assert message == base + tail;
    if |tail| < 56 {
      assert ZeroCount(|message|) == 55 - |tail|;
    } else {
      assert ZeroCount(|message|) == (63 - |tail|) + 56;
      assert Zeros(ZeroCount(|message|)) == Zeros(63 - |tail|) + Zeros(56);
    }
  }

  lemma ModAdds(a: nat, x: nat, m: nat)
    requires m > 0
    ensures (a % m + x) % m == (a + x) % m
  {
    var q, r := a / m, a % m;
    assert a == q * m + r;
    MultipleDrops(q, r + x, m);
  }

  lemma MultipleDrops(q: nat, y: nat, m: nat)
    requires m > 0
    ensures (q * m + y) % m == y % m
  {
    assert y == y / m * m + y % m;
    assert q * m + y == (q + y / m) * m + y % m;
    Divides(q + y / m, y % m, m);
  }

  lemma TotalAdds(a: nat, b: nat)
    ensures (a % (UINT64_MAX + 1) + b) % (UINT64_MAX + 1) == (a + b) % (UINT64_MAX + 1)
  {
    ModAdds(a, b, UINT64_MAX + 1);
  }

  lemma BitCount(length: nat)
    ensures length % (UINT64_MAX + 1) * 8 % (UINT64_MAX + 1) == 8 * length % (UINT64_MAX + 1)
    ensures length < 0x2000_0000_0000_0000 ==> 8 * length % (UINT64_MAX + 1) == 8 * length
  {
    var m, r := UINT64_MAX + 1, length % (UINT64_MAX + 1);
    var k := length / m;
    assert length == k * m + r;
    assert 8 * length == (8 * k) * m + r * 8;
    MultipleDrops(8 * k, r * 8, m);
  }

  lemma BlockCount(length: nat, more: nat)
    requires length % 64 + more <= 64
    ensures (length - length % 64) % 64 == 0
    ensures (length + more) % 64 == if length % 64 + more == 64 then 0 else length % 64 + more
  {
  }

  /** A message may be handed over in any pieces: the digest is that of the whole. */
  method HashPieces(pieces: seq<seq<bv8>>) returns (digest: seq<bv8>)
    ensures |Flatten(pieces)| < 0x2000_0000_0000_0000 ==> digest == Digest(Flatten(pieces))
  {
    hide Digest, Process;
    var context := new Context();
    for i := 0 to |pieces|
      invariant context.Valid() && fresh(context) && fresh(context.block) && context.absorbed == Flatten(pieces[..i])
    {
      assert pieces[..i + 1][..i] == pieces[..i];
      context.Update(pieces[i]);
    }
    assert pieces[..|pieces|] == pieces;
    digest := context.Final();
  }
}
