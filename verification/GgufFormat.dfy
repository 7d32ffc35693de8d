/** The directory of a model file: what it says, how it is written down, and how it is read back.
    Reading is shown to be the exact inverse of writing, for everything within the limits. */
module GgufFormat {
  import opened Foundation
  import opened Utf8

  const MAGIC: nat := 0x46554747
  const VERSION: nat := 3
  const MAX_STRING: nat := 134217728
  const MAX_ARRAY: nat := 2000000
  const MAX_METADATA: nat := 1024
  const MAX_TENSORS: nat := 8192
  const MAX_DIMS: nat := 8
  const DEFAULT_ALIGNMENT: nat := 32
  const MAX_ALIGNMENT: nat := 4096

  // Value types.
  const UINT16: nat := 2
  const UINT32: nat := 4
  const INT32: nat := 5
  const FLOAT32: nat := 6
  const BOOL: nat := 7
  const STRING: nat := 8
  const ARRAY: nat := 9
  const UINT64: nat := 10

  /** "general.architecture" */
  const ARCHITECTURE_KEY: seq<Byte> := [103, 101, 110, 101, 114, 97, 108, 46, 97, 114, 99, 104, 105, 116, 101, 99, 116, 117, 114, 101]

  /** "general.alignment" */
  const ALIGNMENT_KEY: seq<Byte> := [103, 101, 110, 101, 114, 97, 108, 46, 97, 108, 105, 103, 110, 109, 101, 110, 116]

  /** The bytes stand in the data at this place. */
  predicate At(data: seq<Byte>, at: nat, bytes: seq<Byte>) {
    at + |bytes| <= |data| && data[at..at + |bytes|] == bytes
  }

  lemma AtConcat(data: seq<Byte>, at: nat, a: seq<Byte>, b: seq<Byte>)
    ensures At(data, at, a + b) <==> At(data, at, a) && At(data, at + |a|, b)
  {
    var n, m := |a|, |b|;
    if at + n + m <= |data| {
      assert data[at..at + n + m] == data[at..at + n] + data[at + n..at + n + m];
      assert data[at..at + n + m][..n] == data[at..at + n] && data[at..at + n + m][n..] == data[at + n..at + n + m];
      assert (a + b)[..n] == a && (a + b)[n..] == b;
    }
  }

  // ----- numbers -----

  function LittleEndian(v: nat, n: nat): (r: seq<Byte>)
    ensures |r| == n
  {
    if n == 0 then [] else [v % 256] + LittleEndian(v / 256, n - 1)
  }

  function Number(bytes: seq<Byte>): nat {
    if bytes == [] then 0 else bytes[0] + 256 * Number(bytes[1..])
  }

  lemma {:induction false} NumberOfBytes(v: nat, n: nat)
    requires v < Pow256(n)
    ensures Number(LittleEndian(v, n)) == v
  {
    if n > 0 {
      NumberOfBytes(v / 256, n - 1);
      assert LittleEndian(v, n)[1..] == LittleEndian(v / 256, n - 1);
    }
  }

  lemma {:induction false} BytesOfNumber(bytes: seq<Byte>)
    ensures Number(bytes) < Pow256(|bytes|) && LittleEndian(Number(bytes), |bytes|) == bytes
  {
    if bytes != [] {
      BytesOfNumber(bytes[1..]);
      var first: nat, rest := bytes[0], Number(bytes[1..]);
      assert (first + 256 * rest) % 256 == first && (first + 256 * rest) / 256 == rest;
      assert bytes == [bytes[0]] + bytes[1..];
    }
  }

  /** What a reader that parses a thing of type T at a place of the data yields: the thing and the
      place behind it. */
  type Parsed<T> = Option<(T, nat)>

  function Take(data: seq<Byte>, at: nat, n: nat): Parsed<seq<Byte>> {
    if at + n > |data| then None else Some((data[at..at + n], at + n))
  }

  function Num(data: seq<Byte>, at: nat, n: nat): Parsed<nat> {
    match Take(data, at, n)
    case None => None
    case Some((bytes, end)) => Some((Number(bytes), end))
  }

  lemma TakeExactly(data: seq<Byte>, at: nat, bytes: seq<Byte>, end: nat)
    ensures Take(data, at, |bytes|) == Some((bytes, end)) <==> At(data, at, bytes) && end == at + |bytes|
  {
  }

  lemma NumExactly(data: seq<Byte>, at: nat, n: nat, v: nat, end: nat)
    ensures Num(data, at, n) == Some((v, end)) <==> v < Pow256(n) && At(data, at, LittleEndian(v, n)) && end == at + n
  {
    hide Pow256, LittleEndian, Number;
    if Num(data, at, n) == Some((v, end)) {
      BytesOfNumber(data[at..at + n]);
    }
    if v < Pow256(n) && At(data, at, LittleEndian(v, n)) {
      NumberOfBytes(v, n);
    }
  }

  // ----- strings -----

  ghost predicate StringOk(s: seq<Byte>) { |s| <= MAX_STRING && WellFormed(s) }

  function EncodeString(s: seq<Byte>): seq<Byte> { LittleEndian(|s|, 8) + s }

  ghost function Str(data: seq<Byte>, at: nat): Parsed<seq<Byte>> {
    match Num(data, at, 8)
    case None => None
    case Some((length, next)) =>
      if length > MAX_STRING then None
      else
        match Take(data, next, length)
        case None => None
        case Some((s, end)) => if WellFormed(s) then Some((s, end)) else None
  }

  lemma LengthFits(n: nat)
    ensures n <= MAX_STRING ==> n < Pow256(8)
    ensures n <= UINT64_MAX <==> n < Pow256(8)
    ensures n <= UINT32_MAX <==> n < Pow256(4)
    ensures n < 65536 <==> n < Pow256(2)
    ensures n < 256 <==> n < Pow256(1)
  {
    assert Pow256(1) == 256 && Pow256(2) == 65536 && Pow256(4) == 256 * 256 * 65536;
    assert Pow256(6) == 65536 * Pow256(4) && Pow256(8) == 65536 * Pow256(6);
  }

  lemma StrExactly(data: seq<Byte>, at: nat, s: seq<Byte>, end: nat)
    ensures Str(data, at) == Some((s, end)) <==> StringOk(s) && At(data, at, EncodeString(s)) && end == at + |EncodeString(s)|
  {
    hide WellFormed, LittleEndian, Number;
    LengthFits(|s|);
    AtConcat(data, at, LittleEndian(|s|, 8), s);
    NumExactly(data, at, 8, |s|, at + 8);
    TakeExactly(data, at + 8, s, end);
    hide Pow256;
  }

  function EncodeStrings(ss: seq<seq<Byte>>): seq<Byte> {
    if ss == [] then [] else EncodeStrings(ss[..|ss| - 1]) + EncodeString(ss[|ss| - 1])
  }

  ghost predicate StringsOk(ss: seq<seq<Byte>>) {
    forall i :: 0 <= i < |ss| ==> StringOk(ss[i])
  }

  /** n strings, one behind the other. */
  ghost function Strs(data: seq<Byte>, at: nat, n: nat): (r: Parsed<seq<seq<Byte>>>)
    ensures r.Some? ==> |r.value.0| == n
  {
    if n == 0 then Some(([], at))
    else
      match Strs(data, at, n - 1)
      case None => None
      case Some((before, next)) =>
        match Str(data, next)
        case None => None
        case Some((s, end)) => Some((before + [s], end))
  }

  lemma {:induction false} StrsExactly(data: seq<Byte>, at: nat, ss: seq<seq<Byte>>, end: nat)
    requires at <= |data|
    ensures Strs(data, at, |ss|) == Some((ss, end)) <==> StringsOk(ss) && At(data, at, EncodeStrings(ss)) && end == at + |EncodeStrings(ss)|
  {
    hide Str, StringOk, EncodeString;
    if ss != [] {
      var last := |ss| - 1;
      var prefix, s := ss[..last], ss[last];
      assert ss == prefix + [s];
      var next := at + |EncodeStrings(prefix)|;
      StrsExactly(data, at, prefix, next);
      StrExactly(data, next, s, end);
      AtConcat(data, at, EncodeStrings(prefix), EncodeString(s));
      if Strs(data, at, |ss|) == Some((ss, end)) {
        var middle := Strs(data, at, last).value;
        assert ss[..last] == middle.0;
        StrsExactly(data, at, prefix, middle.1);
      }
    }
  }

  // ----- values -----

  /** A metadata value. Number arrays are kept as the bytes they are stored in. */
  datatype Value =
    | Scalar(kind: nat, bits: nat)
    | Text(text: seq<Byte>)
    | Numbers(element: nat, length: nat, raw: seq<Byte>)
    | Strings(items: seq<seq<Byte>>)

  /** The width of a scalar type that the parser knows. */
  function ScalarWidth(kind: nat): Option<nat> {
    if kind == UINT16 then Some(2)
    else if kind == UINT32 || kind == INT32 || kind == FLOAT32 then Some(4)
    else if kind == BOOL then Some(1)
    else None
  }

  function ElementWidth(element: nat): Option<nat> {
    if element == INT32 then Some(4) else if element == UINT64 then Some(8) else None
  }

  function KindOf(v: Value): nat {
    match v
    case Scalar(kind, _) => kind
    case Text(_) => STRING
    case _ => ARRAY
  }

  ghost predicate ValueOk(v: Value) {
    match v
    case Scalar(kind, bits) => ScalarWidth(kind).Some? && bits < Pow256(ScalarWidth(kind).value) && (kind == BOOL ==> bits <= 1)
    case Text(text) => StringOk(text)
    case Numbers(element, length, raw) => ElementWidth(element).Some? && length <= MAX_ARRAY && |raw| == length * ElementWidth(element).value
    case Strings(items) => |items| <= MAX_ARRAY && StringsOk(items)
  }

  function EncodeValue(v: Value): seq<Byte> {
    match v
    case Scalar(kind, bits) => if ScalarWidth(kind).Some? then LittleEndian(bits, ScalarWidth(kind).value) else []
    case Text(text) => EncodeString(text)
    case Numbers(element, length, raw) => LittleEndian(element, 4) + LittleEndian(length, 8) + raw
    case Strings(items) => LittleEndian(STRING, 4) + LittleEndian(|items|, 8) + EncodeStrings(items)
  }

  function ParseScalar(data: seq<Byte>, at: nat, kind: nat): Parsed<Value> {
    match ScalarWidth(kind)
    case None => None
    case Some(width) =>
      match Num(data, at, width)
      case None => None
      case Some((bits, end)) => if kind == BOOL && bits > 1 then None else Some((Scalar(kind, bits), end))
  }

  ghost function ParseArray(data: seq<Byte>, at: nat): Parsed<Value> {
    match Num(data, at, 4)
    case None => None
    case Some((element, next)) =>
      match Num(data, next, 8)
      case None => None
      case Some((length, start)) => if length > MAX_ARRAY then None else ParseItems(data, start, element, length)
  }

  ghost function ParseItems(data: seq<Byte>, start: nat, element: nat, length: nat): Parsed<Value> {
    if element == STRING then
      match Strs(data, start, length)
      case None => None
      case Some((items, end)) => Some((Strings(items), end))
    else
      match ElementWidth(element)
      case None => None
      case Some(width) =>
        match Take(data, start, length * width)
        case None => None
        case Some((raw, end)) => Some((Numbers(element, length, raw), end))
  }

  ghost function ParseValue(data: seq<Byte>, at: nat, kind: nat): Parsed<Value> {
    if kind == STRING then
      match Str(data, at)
      case None => None
      case Some((text, end)) => Some((Text(text), end))
    else if kind == ARRAY then ParseArray(data, at)
    else ParseScalar(data, at, kind)
  }

  /** What is read is what is written, for scalars. */
  lemma ScalarExactly(data: seq<Byte>, at: nat, kind: nat, v: Value, end: nat)
    ensures ParseScalar(data, at, kind) == Some((v, end)) <==>
              v.Scalar? && v.kind == kind && ValueOk(v) && At(data, at, EncodeValue(v)) && end == at + |EncodeValue(v)|
  {
    hide Pow256, LittleEndian, Num, At;
    if v.Scalar? && ScalarWidth(kind).Some? {
      NumExactly(data, at, ScalarWidth(kind).value, v.bits, end);
    }
  }

  lemma NumbersExactly(data: seq<Byte>, start: nat, element: nat, length: nat, v: Value, end: nat)
    requires element != STRING && length <= MAX_ARRAY
    ensures ParseItems(data, start, element, length) == Some((v, end)) <==>
              v.Numbers? && v.element == element && v.length == length && ValueOk(v) && At(data, start, v.raw) && end == start + |v.raw|
  {
    hide At, Take;
    if v.Numbers? && ElementWidth(element).Some? {
      TakeExactly(data, start, v.raw, end);
    }
    if ParseItems(data, start, element, length).Some? {
      TakenLength(data, start, length * ElementWidth(element).value);
    }
  }

  lemma TakenLength(data: seq<Byte>, at: nat, n: nat)
    ensures Take(data, at, n).Some? ==> |Take(data, at, n).value.0| == n
  {
  }

  lemma StringItemsExactly(data: seq<Byte>, start: nat, length: nat, v: Value, end: nat)
    requires length <= MAX_ARRAY && start <= |data|
    ensures ParseItems(data, start, STRING, length) == Some((v, end)) <==>
              v.Strings? && |v.items| == length && ValueOk(v) && At(data, start, EncodeStrings(v.items)) && end == start + |EncodeStrings(v.items)|
  {
    hide At, Strs, EncodeStrings, StringsOk;
    if v.Strings? {
      StrsExactly(data, start, v.items, end);
    }
  }

  /** The bytes behind the head of an array. */
  function Body(v: Value): seq<Byte> {
    match v
    case Numbers(_, _, raw) => raw
    case Strings(items) => EncodeStrings(items)
    case _ => []
  }

  function ElementOf(v: Value): nat { if v.Numbers? then v.element else STRING }

  function LengthOf(v: Value): nat {
    match v
    case Numbers(_, length, _) => length
    case Strings(items) => |items|
    case _ => 0
  }

  predicate IsArray(v: Value) { v.Numbers? || v.Strings? }

  lemma ItemsExactly(data: seq<Byte>, start: nat, element: nat, length: nat, v: Value, end: nat)
    requires length <= MAX_ARRAY && start <= |data|
    ensures ParseItems(data, start, element, length) == Some((v, end)) <==>
              IsArray(v) && ElementOf(v) == element && LengthOf(v) == length && ValueOk(v) && At(data, start, Body(v)) && end == start + |Body(v)|
  {
    hide At, EncodeStrings, StringsOk, ParseItems;
    if element == STRING {
      StringItemsExactly(data, start, length, v, end);
    } else {
      NumbersExactly(data, start, element, length, v, end);
    }
  }

  lemma ArrayExactly(data: seq<Byte>, at: nat, v: Value, end: nat)
    ensures ParseArray(data, at) == Some((v, end)) <==>
              IsArray(v) && ValueOk(v) && At(data, at, EncodeValue(v)) && end == at + |EncodeValue(v)|
  {
    hide Num, At, ParseItems, LittleEndian, EncodeStrings, Pow256, StringsOk;
    ArrayHeadFits(v);
    if IsArray(v) {
      var a, b := LittleEndian(ElementOf(v), 4), LittleEndian(LengthOf(v), 8);
      assert EncodeValue(v) == a + b + Body(v);
      AtConcat(data, at, a + b, Body(v));
      AtConcat(data, at, a, b);
      NumExactly(data, at, 4, ElementOf(v), at + 4);
      NumExactly(data, at + 4, 8, LengthOf(v), at + 12);
      if at + 12 <= |data| && LengthOf(v) <= MAX_ARRAY {
        ItemsExactly(data, at + 12, ElementOf(v), LengthOf(v), v, end);
      }
      AtInside(data, at, a + b);
    }
    if ParseArray(data, at) == Some((v, end)) {
      ArrayIsRead(data, at, v, end);
    }
  }

  lemma AtInside(data: seq<Byte>, at: nat, bytes: seq<Byte>)
    ensures At(data, at, bytes) ==> at + |bytes| <= |data|
  {
  }

  lemma ArrayHeadFits(v: Value)
    ensures IsArray(v) && ValueOk(v) ==> ElementOf(v) < Pow256(4) && LengthOf(v) < Pow256(8) && LengthOf(v) <= MAX_ARRAY
  {
    LengthFits(ElementOf(v));
    LengthFits(LengthOf(v));
  }

  lemma NumEnds(data: seq<Byte>, at: nat, n: nat)
    ensures Num(data, at, n).Some? ==> Num(data, at, n).value.1 == at + n <= |data| && Num(data, at, n).value.0 < Pow256(n)
  {
    if at + n <= |data| {
      BytesOfNumber(data[at..at + n]);
    }
  }

  lemma ArrayIsRead(data: seq<Byte>, at: nat, v: Value, end: nat)
    requires ParseArray(data, at) == Some((v, end))
    ensures IsArray(v) && LengthOf(v) <= MAX_ARRAY
    ensures Num(data, at, 4) == Some((ElementOf(v), at + 4)) && Num(data, at + 4, 8) == Some((LengthOf(v), at + 12)) && at + 12 <= |data|
    ensures ParseItems(data, at + 12, ElementOf(v), LengthOf(v)) == Some((v, end))
  {
    hide Num, At, ParseItems, EncodeStrings, StringsOk, Pow256;
    NumEnds(data, at, 4);
    NumEnds(data, at + 4, 8);
    var element, length := Num(data, at, 4).value.0, Num(data, at + 4, 8).value.0;
    ItemsExactly(data, at + 12, element, length, v, end);
  }

  lemma ValueExactly(data: seq<Byte>, at: nat, kind: nat, v: Value, end: nat)
    ensures ParseValue(data, at, kind) == Some((v, end)) <==>
              KindOf(v) == kind && ValueOk(v) && At(data, at, EncodeValue(v)) && end == at + |EncodeValue(v)|
  {
    hide ParseScalar, ParseArray, Str, At, StringsOk, StringOk, EncodeStrings, EncodeString, LittleEndian, Pow256;
    if kind == STRING {
      if v.Text? {
        StrExactly(data, at, v.text, end);
      }
    } else if kind == ARRAY {
      ArrayExactly(data, at, v, end);
    } else {
      ScalarExactly(data, at, kind, v, end);
    }
  }
}
