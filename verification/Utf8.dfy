/** The string check of the parser against the definition of UTF-8 (RFC 3629). */
module Utf8 {
  import opened Foundation

  type Byte = b: nat | b < 256

  // ----- the standard -----

  /** Section 3: the code points that have an encoding, all up to U+10FFFF but the surrogates. */
  predicate IsScalar(v: nat) { v < 0xD800 || 0xE000 <= v <= 0x10FFFF }

  /** Section 3: one to four bytes, six bits in every byte but the first. */
  function Encode(v: nat): (r: seq<Byte>)
    requires IsScalar(v)
    ensures 1 <= |r| <= 4
  {
    if v < 0x80 then [v]
    else if v < 0x800 then [0xC0 + v / 64, 0x80 + v % 64]
    else if v < 0x10000 then [0xE0 + v / 4096, 0x80 + v / 64 % 64, 0x80 + v % 64]
    else [0xF0 + v / 262144, 0x80 + v / 4096 % 64, 0x80 + v / 64 % 64, 0x80 + v % 64]
  }

  predicate AllScalars(vs: seq<nat>) {
    forall i :: 0 <= i < |vs| ==> IsScalar(vs[i])
  }

  function EncodeAll(vs: seq<nat>): seq<Byte>
    requires AllScalars(vs)
  {
    if vs == [] then [] else Encode(vs[0]) + EncodeAll(vs[1..])
  }

  ghost predicate WellFormed(bytes: seq<Byte>) {
    exists vs: seq<nat> :: AllScalars(vs) && bytes == EncodeAll(vs)
  }

  // ----- the check -----

  /** The source masks with 0xC0 and compares with 0x80. */
  predicate IsContinuation(b: Byte) { 0x80 <= b <= 0xBF }

  /** How many bytes the first character of `rest` takes; 0 when there is none. */
  function Step(rest: seq<Byte>): (n: nat)
    requires rest != []
    ensures n <= |rest|
  {
    var first := rest[0];
    if first <= 0x7F then 1
    else if 0xC2 <= first <= 0xDF then
      if |rest| < 2 || !IsContinuation(rest[1]) then 0 else 2
    else if 0xE0 <= first <= 0xEF then
      if |rest| < 3 then 0
      else if !IsContinuation(rest[2]) || (first == 0xE0 && (rest[1] < 0xA0 || rest[1] > 0xBF)) ||
              (first == 0xED && (rest[1] < 0x80 || rest[1] > 0x9F)) ||
              (first != 0xE0 && first != 0xED && !IsContinuation(rest[1])) then 0
      else 3
    else if 0xF0 <= first <= 0xF4 then
      if |rest| < 4 then 0
      else if !IsContinuation(rest[2]) || !IsContinuation(rest[3]) || (first == 0xF0 && (rest[1] < 0x90 || rest[1] > 0xBF)) ||
              (first == 0xF4 && (rest[1] < 0x80 || rest[1] > 0x8F)) ||
              (first != 0xF0 && first != 0xF4 && !IsContinuation(rest[1])) then 0
      else 4
    else 0
  }

  /** The code point that a step passes over. */
  function Decode(rest: seq<Byte>): (v: nat)
    requires rest != [] && Step(rest) > 0
  {
    var a: int := rest[0];
    match Step(rest)
    case 1 => a
    case 2 => (a - 0xC0) * 64 + Low(rest[1])
    case 3 => ((a - 0xE0) * 64 + Low(rest[1])) * 64 + Low(rest[2])
    case _ => (((a - 0xF0) * 64 + Low(rest[1])) * 64 + Low(rest[2])) * 64 + Low(rest[3])
  }

  /** The six bits of a continuation byte. */
  function Low(b: Byte): (r: nat)
    ensures IsContinuation(b) ==> b == 0x80 + r && r < 64
  {
    if IsContinuation(b) then b - 0x80 else 0
  }

  lemma Digits(a: nat, b: nat, c: nat, d: nat)
    requires b < 64 && c < 64 && d < 64
    ensures var v := ((a * 64 + b) * 64 + c) * 64 + d;
            v % 64 == d && v / 64 % 64 == c && v / 4096 % 64 == b && v / 262144 == a
    ensures a == 0 ==> var v := ((a * 64 + b) * 64 + c) * 64 + d; v / 4096 == b
  {
  }

  /** A step passes over the encoding of a code point. */
  lemma StepIsSound(rest: seq<Byte>)
    requires rest != [] && Step(rest) > 0
    ensures IsScalar(Decode(rest)) && Encode(Decode(rest)) == rest[..Step(rest)]
  {
    var n, a := Step(rest), rest[0];
    if n == 2 {
      Digits(0, 0, a - 0xC0, Low(rest[1]));
    } else if n == 3 {
      Digits(0, a - 0xE0, Low(rest[1]), Low(rest[2]));
    } else if n == 4 {
      Digits(a - 0xF0, Low(rest[1]), Low(rest[2]), Low(rest[3]));
    }
  }

  /** The encoding of a code point is passed over in one step, whatever follows it. */
  lemma StepIsComplete(v: nat, rest: seq<Byte>)
    requires IsScalar(v) && Encode(v) <= rest
    ensures Step(rest) == |Encode(v)|
  {
    var e := Encode(v);
    forall i | 0 <= i < |e| ensures e[i] == rest[i] {
      assert rest[..|e|][i] == rest[i];
    }
    if v < 0x80 {
    } else if v < 0x800 {
      assert 2 <= v / 64 < 32;
    } else if v < 0x10000 {
      assert v / 4096 < 16;
      Sextets(v);
    } else {
      assert v / 262144 <= 4;
      Sextets(v);
    }
  }

  /** The second byte of a long encoding, by the value of the first. */
  lemma Sextets(v: nat)
    requires 0x800 <= v && IsScalar(v)
    ensures v < 0x10000 && v / 4096 == 0 ==> v / 64 % 64 >= 0x20
    ensures v < 0x10000 && v / 4096 == 13 ==> v / 64 % 64 < 0x20
    ensures 0x10000 <= v && v / 262144 == 0 ==> v / 4096 % 64 >= 0x10
    ensures 0x10000 <= v && v / 262144 == 4 ==> v / 4096 % 64 < 0x10
  {
  }

  lemma WellFormedStep(bytes: seq<Byte>)
    requires bytes != []
    ensures WellFormed(bytes) <==> Step(bytes) > 0 && WellFormed(bytes[Step(bytes)..])
  {
    hide Encode, Step, Decode;
    if WellFormed(bytes) {
      var vs: seq<nat> :| AllScalars(vs) && bytes == EncodeAll(vs);
      assert bytes == Encode(vs[0]) + EncodeAll(vs[1..]);
      StepIsComplete(vs[0], bytes);
      assert AllScalars(vs[1..]) && bytes[Step(bytes)..] == EncodeAll(vs[1..]);
    }
    if Step(bytes) > 0 && WellFormed(bytes[Step(bytes)..]) {
      var vs: seq<nat> :| AllScalars(vs) && bytes[Step(bytes)..] == EncodeAll(vs);
      StepIsSound(bytes);
      var all := [Decode(bytes)] + vs;
      assert all[1..] == vs && AllScalars(all);
      assert bytes == Encode(all[0]) + EncodeAll(all[1..]);
      assert bytes == EncodeAll(all);
    }
  }

  lemma EmptyIsWellFormed()
    ensures WellFormed([])
  {
    assert EncodeAll([]) == [];
  }

  /** Accepts exactly the well-formed strings. */
  method IsValid(data: seq<Byte>) returns (valid: bool)
    ensures valid <==> WellFormed(data)
  {
    hide WellFormed, Step;
    EmptyIsWellFormed();
    var index := 0;
    assert data[0..] == data;
    while index < |data|
      invariant index <= |data| && (WellFormed(data) <==> WellFormed(data[index..]))
    {
      var step := Step(data[index..]);
      WellFormedStep(data[index..]);
      if step == 0 {
        return false;
      }
      assert data[index..][step..] == data[index + step..];
      index := index + step;
    }
    assert data[index..] == [];
    valid := true;
  }
}
