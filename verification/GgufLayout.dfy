/** The bytes of a directory by their places: what stands where, counted from the beginning of the
    file, of an entry and of a tensor. */
module GgufLayout {
  import opened Foundation
  import opened Utf8
  import opened GgufFormat
  import opened GgufDirectory
  import FlatIndex

  /** The n bytes from a place on are a number, lowest byte first. */
  predicate Holds(bytes: seq<Byte>, at: nat, n: nat, v: nat) {
    at + n <= |bytes| && Number(bytes[at..at + n]) == v
  }

  /** Byte i of a number of n bytes. */
  lemma {:induction false} ByteAt(v: nat, n: nat, i: nat)
    requires i < n
    ensures LittleEndian(v, n)[i] as nat == v / Pow256(i) % 256
  {
    if i > 0 {
      ByteAt(v / 256, n - 1, i - 1);
      DividedTwice(v, Pow256(i - 1));
    }
  }

  lemma DividedTwice(v: nat, p: nat)
    requires p > 0
    ensures v / 256 / p == v / (256 * p)
  {
    var q, r := v / 256, v % 256;
    FlatIndex.InTable(q, p, q + 1);
    TwoSteps(v, q, r, q / p, q % p, p);
  }

  lemma TwoSteps(v: nat, q: nat, r: nat, s: nat, u: nat, p: nat)
    requires v == 256 * q + r && r < 256 && q == s * p + u && u < p
    ensures v / (256 * p) == s
  {
    Scaled(s, p);
    FlatIndex.Divides(s, 256 * u + r, 256 * p);
  }

  lemma Scaled(s: nat, p: nat)
    ensures s * (256 * p) == 256 * (s * p)
  {
  }

  lemma NumberBetween(a: seq<Byte>, v: nat, n: nat, c: seq<Byte>)
    requires v < Pow256(n)
    ensures Holds(a + LittleEndian(v, n) + c, |a|, n, v)
  {
    hide LittleEndian, Number, Pow256;
    var b := LittleEndian(v, n);
    assert (a + b + c)[|a|..|a| + n] == b;
    NumberOfBytes(v, n);
  }

  /** A file begins with the four letters, the version and the two counts. */
  lemma FileBegins(data: seq<Byte>, d: Directory, end: nat)
    requires ParseDirectory(data) == Some((d, end))
    ensures 24 <= |data| && data[..4] == [0x47, 0x47, 0x55, 0x46] && data[4..8] == [3, 0, 0, 0]
    ensures Holds(data, 8, 8, |d.tensors|) && Holds(data, 16, 8, |d.entries|)
  {
    hide ParseEntries, ParseTensors, AlignmentOf, KeyIn, AlignmentOk, LittleEndian, Pow256, Number, EncodeEntries, EncodeTensors, DirectoryOk;
    ParseIsExact(data, d, end);
    HeaderLength(|d.tensors|, |d.entries|);
    var head := EncodeHeader(|d.tensors|, |d.entries|);
    CountsFit(d);
    HeaderLayout(|d.tensors|, |d.entries|);
    hide ParseDirectory, EncodeHeader;
    assert data[..24] == head;
    HoldsInPrefix(data, head, 8, 8, |d.tensors|);
    HoldsInPrefix(data, head, 16, 8, |d.entries|);
    assert data[..4] == head[..4] && data[4..8] == head[4..8];
  }

  lemma HoldsInPrefix(data: seq<Byte>, prefix: seq<Byte>, at: nat, n: nat, v: nat)
    requires prefix <= data && Holds(prefix, at, n, v)
    ensures Holds(data, at, n, v)
  {
    assert data[at..at + n] == prefix[at..at + n];
  }

  lemma CountsFit(d: Directory)
    requires DirectoryOk(d)
    ensures |d.tensors| <= UINT64_MAX && |d.entries| <= UINT64_MAX
  {
  }

  lemma HeaderLayout(tensorCount: nat, metadataCount: nat)
    requires tensorCount <= UINT64_MAX && metadataCount <= UINT64_MAX
    ensures var head := EncodeHeader(tensorCount, metadataCount);
            && |head| == 24 && head[..4] == [0x47, 0x47, 0x55, 0x46] && head[4..8] == [3, 0, 0, 0]
            && Holds(head, 8, 8, tensorCount) && Holds(head, 16, 8, metadataCount)
  {
    MagicBytes();
    hide LittleEndian, Number, Pow256;
    var a, b, c, d := LittleEndian(MAGIC, 4), LittleEndian(VERSION, 4), LittleEndian(tensorCount, 8), LittleEndian(metadataCount, 8);
    LengthFits(tensorCount);
    LengthFits(metadataCount);
    NumberBetween(a + b, tensorCount, 8, d);
    NumberBetween(a + b + c, metadataCount, 8, []);
    assert a + b + c + d + [] == a + b + c + d;
  }

  lemma MagicBytes()
    ensures LittleEndian(MAGIC, 4) == [0x47, 0x47, 0x55, 0x46] && LittleEndian(VERSION, 4) == [3, 0, 0, 0]
  {
    assert LittleEndian(0x46, 1) == [0x46] && LittleEndian(0, 1) == [0];
    assert LittleEndian(0x4655, 2) == [0x55, 0x46] && LittleEndian(0, 2) == [0, 0];
  }

  /** The first bytes of an entry: the length of its key, the key, the kind of its value. */
  lemma EntryLayout(e: Entry)
    requires EntryOk(e)
    ensures var bytes, n := EncodeEntry(e), |e.key|;
            && 12 + n <= |bytes| && Holds(bytes, 0, 8, n) && bytes[8..8 + n] == e.key
            && Holds(bytes, 8 + n, 4, KindOf(e.value)) && bytes[12 + n..] == EncodeValue(e.value)
  {
    hide LittleEndian, Number, Pow256, ValueOk, EncodeValue, KindOf, WellFormed;
    var n := |e.key|;
    var a, k, v := LittleEndian(n, 8), LittleEndian(KindOf(e.value), 4), EncodeValue(e.value);
    LengthFits(n);
    KindFits(e.value);
    NumberBetween([], n, 8, e.key + k + v);
    NumberBetween(a + e.key, KindOf(e.value), 4, v);
    assert EncodeEntry(e) == [] + a + (e.key + k + v) == (a + e.key) + k + v;
  }

  lemma {:induction false} DimsLayout(dims: seq<nat>, i: nat)
    requires DimsOk(dims)
    ensures |EncodeDims(dims)| == 8 * |dims|
    ensures i < |dims| ==> Holds(EncodeDims(dims), 8 * i, 8, dims[i])
  {
    hide LittleEndian, Number, Pow256, Product;
    if dims != [] {
      var last := |dims| - 1;
      DimsLayout(dims[..last], i);
      LengthFits(dims[last]);
      if i < last {
        HoldsInPrefix(EncodeDims(dims), EncodeDims(dims[..last]), 8 * i, 8, dims[i]);
      } else if i == last {
        NumberBetween(EncodeDims(dims[..last]), dims[last], 8, []);
        assert EncodeDims(dims) + [] == EncodeDims(dims);
      }
    }
  }

  /** The fixed and the variable parts of a tensor, one behind the other. */
  lemma TensorParts(name: seq<Byte>, m: nat, dims: seq<Byte>, typeId: nat, offset: nat)
    requires |name| < Pow256(8) && m < Pow256(4) && typeId < Pow256(4) && offset < Pow256(8)
    ensures var bytes, n := LittleEndian(|name|, 8) + name + LittleEndian(m, 4) + dims + LittleEndian(typeId, 4) + LittleEndian(offset, 8), |name|;
            && |bytes| == 24 + n + |dims| && Holds(bytes, 0, 8, n) && bytes[8..8 + n] == name && Holds(bytes, 8 + n, 4, m)
            && Holds(bytes, 12 + n + |dims|, 4, typeId) && Holds(bytes, 16 + n + |dims|, 8, offset)
  {
    hide LittleEndian, Number, Pow256, Holds;
    var a, r, y, o := LittleEndian(|name|, 8), LittleEndian(m, 4), LittleEndian(typeId, 4), LittleEndian(offset, 8);
    Regrouped(a, name, r, dims, y, o);
    NumberBetween([], |name|, 8, name + r + dims + y + o);
    NumberBetween(a + name, m, 4, dims + y + o);
    NumberBetween(a + name + r + dims, typeId, 4, o);
    NumberBetween(a + name + r + dims + y, offset, 8, []);
  }

  lemma DimsInside(a: seq<Byte>, b: seq<Byte>, c: seq<Byte>, d: seq<Byte>, e: seq<Byte>, f: seq<Byte>, at: nat, n: nat, v: nat)
    requires Holds(d, at, n, v)
    ensures Holds(a + b + c + d + e + f, |a| + |b| + |c| + at, n, v)
  {
    hide Holds;
    HoldsInside(a + b + c, d, e + f, at, n, v);
    Regrouped(a, b, c, d, e, f);
  }

  /** A tensor: the length of its name, the name, the rank, the dimensions, the type, the offset. */
  lemma TensorLayout(t: Tensor, alignment: nat, i: nat)
    requires alignment > 0 && TensorOk(t, alignment) && i < |t.dims|
    ensures var bytes, n, m := EncodeTensor(t), |t.name|, |t.dims|;
            && |bytes| == 24 + n + 8 * m && Holds(bytes, 0, 8, n) && bytes[8..8 + n] == t.name
            && Holds(bytes, 8 + n, 4, m) && Holds(bytes, 12 + n + 8 * i, 8, t.dims[i])
            && Holds(bytes, 12 + n + 8 * m, 4, t.typeId) && Holds(bytes, 16 + n + 8 * m, 8, t.offset)
  {
    hide LittleEndian, Number, Pow256, DimsOk, EncodeDims, TensorOk, Holds;
    TensorFits(t, alignment);
    DimsLayout(t.dims, i);
    var dims := EncodeDims(t.dims);
    TensorParts(t.name, |t.dims|, dims, t.typeId, t.offset);
    DimsInside(LittleEndian(|t.name|, 8), t.name, LittleEndian(|t.dims|, 4), dims, LittleEndian(t.typeId, 4), LittleEndian(t.offset, 8),
               8 * i, 8, t.dims[i]);
  }

  lemma Regrouped(a: seq<Byte>, b: seq<Byte>, c: seq<Byte>, d: seq<Byte>, e: seq<Byte>, f: seq<Byte>)
    ensures var all := a + b + c + d + e + f;
            && all == [] + a + (b + c + d + e + f) && all == (a + b) + c + (d + e + f) && all == (a + b + c) + d + (e + f)
            && all == (a + b + c + d) + e + f && all == (a + b + c + d + e) + f + [] && all[|a|..|a| + |b|] == b
  {
    assert a + b + c + d + e + f == [] + a + (b + c + d + e + f);
    assert a + b + c + d + e + f == (a + b) + c + (d + e + f);
    assert a + b + c + d + e + f == (a + b + c) + d + (e + f);
  }

  lemma HoldsInside(a: seq<Byte>, b: seq<Byte>, c: seq<Byte>, at: nat, n: nat, v: nat)
    requires Holds(b, at, n, v)
    ensures Holds(a + b + c, |a| + at, n, v)
  {
    assert (a + b + c)[|a| + at..|a| + at + n] == b[at..at + n];
  }

  lemma TensorFits(t: Tensor, alignment: nat)
    requires alignment > 0 && TensorOk(t, alignment)
    ensures |t.name| < Pow256(8) && |t.dims| < Pow256(4) && t.typeId < Pow256(4) && t.offset < Pow256(8) && DimsOk(t.dims)
  {
    hide Pow256, DimsOk, WellFormed, PackedBytes;
    LengthFits(|t.name|);
    LengthFits(|t.dims|);
    LengthFits(t.typeId);
    LengthFits(t.offset);
  }
}
