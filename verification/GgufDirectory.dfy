/** The directory as a whole: metadata entries, tensor descriptors, header. Parsing accepts exactly
    the encodings of valid directories and gives back what was encoded. */
module GgufDirectory {
  import opened Foundation
  import opened Utf8
  import opened GgufFormat
  import FlatIndex

  // ----- metadata -----

  datatype Entry = Entry(key: seq<Byte>, value: Value)

  function EncodeEntry(e: Entry): seq<Byte> {
    EncodeString(e.key) + LittleEndian(KindOf(e.value), 4) + EncodeValue(e.value)
  }

  /** The architecture is a string and the alignment a 32-bit number. */
  ghost predicate EntryOk(e: Entry) {
    && StringOk(e.key) && ValueOk(e.value)
    && (e.key == ARCHITECTURE_KEY ==> KindOf(e.value) == STRING)
    && (e.key == ALIGNMENT_KEY ==> KindOf(e.value) == UINT32)
  }

  ghost function ParseEntry(data: seq<Byte>, at: nat): Parsed<Entry> {
    match Str(data, at)
    case None => None
    case Some((key, next)) =>
      match Num(data, next, 4)
      case None => None
      case Some((kind, start)) =>
        match ParseValue(data, start, kind)
        case None => None
        case Some((value, end)) =>
          if (key == ARCHITECTURE_KEY && kind != STRING) || (key == ALIGNMENT_KEY && kind != UINT32) then None
          else Some((Entry(key, value), end))
  }

  lemma KindFits(v: Value)
    ensures ValueOk(v) ==> KindOf(v) < Pow256(4)
  {
    LengthFits(KindOf(v));
  }

  lemma EntryExactly(data: seq<Byte>, at: nat, e: Entry, end: nat)
    ensures ParseEntry(data, at) == Some((e, end)) <==> EntryOk(e) && At(data, at, EncodeEntry(e)) && end == at + |EncodeEntry(e)|
  {
    hide Str, Num, ParseValue, At, EncodeString, EncodeValue, LittleEndian, StringOk, ValueOk, Pow256, KindOf;
    var a, b, c := EncodeString(e.key), LittleEndian(KindOf(e.value), 4), EncodeValue(e.value);
    AtConcat(data, at, a + b, c);
    AtConcat(data, at, a, b);
    KindFits(e.value);
    StrExactly(data, at, e.key, at + |a|);
    NumExactly(data, at + |a|, 4, KindOf(e.value), at + |a| + 4);
    ValueExactly(data, at + |a| + 4, KindOf(e.value), e.value, end);
    if ParseEntry(data, at) == Some((e, end)) {
      var next := Str(data, at).value.1;
      var kind := Num(data, next, 4).value.0;
      StrExactly(data, at, e.key, next);
      NumEnds(data, next, 4);
      ValueExactly(data, next + 4, kind, e.value, end);
    }
  }

  predicate KeyIn(entries: seq<Entry>, key: seq<Byte>) {
    exists i :: 0 <= i < |entries| && entries[i].key == key
  }

  function EncodeEntries(es: seq<Entry>): seq<Byte> {
    if es == [] then [] else EncodeEntries(es[..|es| - 1]) + EncodeEntry(es[|es| - 1])
  }

  /** Every entry is valid, and no key comes twice. */
  ghost predicate EntriesOk(es: seq<Entry>) {
    es == [] || (EntriesOk(es[..|es| - 1]) && EntryOk(es[|es| - 1]) && !KeyIn(es[..|es| - 1], es[|es| - 1].key))
  }

  ghost function ParseEntries(data: seq<Byte>, at: nat, n: nat): (r: Parsed<seq<Entry>>)
    ensures r.Some? ==> |r.value.0| == n
  {
    if n == 0 then Some(([], at))
    else
      match ParseEntries(data, at, n - 1)
      case None => None
      case Some((before, next)) =>
        match ParseEntry(data, next)
        case None => None
        case Some((e, end)) => if KeyIn(before, e.key) then None else Some((before + [e], end))
  }

  lemma {:induction false} EntriesExactly(data: seq<Byte>, at: nat, es: seq<Entry>, end: nat)
    requires at <= |data|
    ensures ParseEntries(data, at, |es|) == Some((es, end)) <==> EntriesOk(es) && At(data, at, EncodeEntries(es)) && end == at + |EncodeEntries(es)|
  {
    hide ParseEntry, EntryOk, EncodeEntry, KeyIn;
    if es != [] {
      var last := |es| - 1;
      var prefix, e := es[..last], es[last];
      assert es == prefix + [e];
      var next := at + |EncodeEntries(prefix)|;
      EntriesExactly(data, at, prefix, next);
      EntryExactly(data, next, e, end);
      AtConcat(data, at, EncodeEntries(prefix), EncodeEntry(e));
      if ParseEntries(data, at, |es|) == Some((es, end)) {
        var middle := ParseEntries(data, at, last).value;
        assert es[..last] == middle.0;
        EntriesExactly(data, at, prefix, middle.1);
      }
    }
  }

  /** No two entries of a valid directory have the same key. */
  lemma {:induction false} KeysAreUnique(es: seq<Entry>, i: nat, j: nat)
    requires EntriesOk(es) && i < j < |es|
    ensures es[i].key != es[j].key
  {
    var last := |es| - 1;
    if j < last {
      KeysAreUnique(es[..last], i, j);
    } else {
      assert es[..last][i] == es[i];
    }
  }

  /** The alignment: the entry of that name, or the default. */
  function AlignmentOf(es: seq<Entry>): nat {
    if es == [] then DEFAULT_ALIGNMENT
    else if es[|es| - 1].key == ALIGNMENT_KEY && es[|es| - 1].value.Scalar? then es[|es| - 1].value.bits
    else AlignmentOf(es[..|es| - 1])
  }

  /** A power of two; the source tests that it shares no bit with its predecessor. */
  predicate PowerOfTwo(n: nat) {
    n == 1 || (n > 1 && n % 2 == 0 && PowerOfTwo(n / 2))
  }

  predicate AlignmentOk(n: nat) { n <= MAX_ALIGNMENT && PowerOfTwo(n) }

  lemma AlignmentIsPositive(n: nat)
    requires AlignmentOk(n)
    ensures n > 0
  {
  }

  // ----- tensors -----

  datatype Tensor = Tensor(name: seq<Byte>, dims: seq<nat>, typeId: nat, offset: nat)

  datatype TypeInfo = TypeInfo(blockElements: nat, bytesPerBlock: nat)

  /** The supported types: elements and bytes of a block. */
  function TypeInfoFor(typeId: nat): (r: Option<TypeInfo>)
    ensures r.Some? ==> r.value.blockElements > 0 && r.value.bytesPerBlock > 0
  {
    if typeId == 0 then Some(TypeInfo(1, 4))
    else if typeId == 7 then Some(TypeInfo(32, 24))
    else if typeId == 8 then Some(TypeInfo(32, 34))
    else if typeId == 12 then Some(TypeInfo(256, 144))
    else if typeId == 13 then Some(TypeInfo(256, 176))
    else if typeId == 20 then Some(TypeInfo(32, 18))
    else if typeId == 30 then Some(TypeInfo(1, 2))
    else None
  }

  function Product(dims: seq<nat>): nat {
    if dims == [] then 1 else Product(dims[..|dims| - 1]) * dims[|dims| - 1]
  }

  function PackedBytes(t: Tensor): nat {
    match TypeInfoFor(t.typeId)
    case None => 0
    case Some(info) => Product(t.dims) / info.blockElements * info.bytesPerBlock
  }

  /** The bytes of a block from what it stores: scales, minima, high bits and codes. */
  lemma BlocksFromFields()
    ensures TypeInfoFor(0).value == TypeInfo(1, 32 / 8)
    ensures TypeInfoFor(30).value == TypeInfo(1, 16 / 8)
    ensures TypeInfoFor(7).value == TypeInfo(32, 2 + 2 + 32 * 1 / 8 + 32 * 4 / 8)
    ensures TypeInfoFor(8).value == TypeInfo(32, 2 + 32 * 8 / 8)
    ensures TypeInfoFor(20).value == TypeInfo(32, 2 + 32 * 4 / 8)
    ensures TypeInfoFor(12).value == TypeInfo(256, 2 + 2 + 2 * 8 * 6 / 8 + 256 * 4 / 8)
    ensures TypeInfoFor(13).value == TypeInfo(256, 2 + 2 + 2 * 8 * 6 / 8 + 256 * 1 / 8 + 256 * 4 / 8)
  {
  }

  function EncodeDims(dims: seq<nat>): seq<Byte> {
    if dims == [] then [] else EncodeDims(dims[..|dims| - 1]) + LittleEndian(dims[|dims| - 1], 8)
  }

  function EncodeTensor(t: Tensor): seq<Byte> {
    EncodeString(t.name) + LittleEndian(|t.dims|, 4) + EncodeDims(t.dims) + LittleEndian(t.typeId, 4) + LittleEndian(t.offset, 8)
  }

  predicate DimsOk(dims: seq<nat>) {
    dims == [] || (DimsOk(dims[..|dims| - 1]) && 0 < dims[|dims| - 1] <= UINT64_MAX && Product(dims) <= UINT64_MAX)
  }

  /** The checks on a tensor that need its type and the alignment. */
  predicate LayoutOk(t: Tensor, alignment: nat)
    requires alignment > 0
  {
    && TypeInfoFor(t.typeId).Some? && t.offset % alignment == 0 && t.dims != []
    && t.dims[0] % TypeInfoFor(t.typeId).value.blockElements == 0 && PackedBytes(t) <= UINT64_MAX
  }

  lemma {:induction false} ProductDivides(dims: seq<nat>, n: nat)
    requires n > 0 && dims != [] && dims[0] % n == 0
    ensures Product(dims) % n == 0
  {
    var last := |dims| - 1;
    if last == 0 {
      assert Product(dims[..0]) == 1;
    } else {
      ProductDivides(dims[..last], n);
      MultipleTimes(Product(dims[..last]), dims[last], n);
    }
  }

  lemma MultipleTimes(a: nat, b: nat, n: nat)
    requires n > 0 && a % n == 0
    ensures a * b % n == 0
  {
    var q := a / n;
    assert a == q * n;
    assert a * b == (q * b) * n;
    FlatIndex.Divides(q * b, 0, n);
  }

  /** The elements of an accepted tensor fill whole blocks: the bytes are neither more nor less than
      those blocks take. */
  lemma PackedIsWholeBlocks(t: Tensor, alignment: nat)
    requires alignment > 0 && LayoutOk(t, alignment)
    ensures var info := TypeInfoFor(t.typeId).value;
            && Product(t.dims) % info.blockElements == 0
            && PackedBytes(t) == (Product(t.dims) / info.blockElements) * info.bytesPerBlock
            && PackedBytes(t) * info.blockElements == Product(t.dims) * info.bytesPerBlock
  {
    hide TypeInfoFor, Product;
    var info := TypeInfoFor(t.typeId).value;
    ProductDivides(t.dims, info.blockElements);
    WholeBlocks(Product(t.dims), info.blockElements, info.bytesPerBlock);
  }

  lemma WholeBlocks(elements: nat, n: nat, bytes: nat)
    requires n > 0 && elements % n == 0
    ensures (elements / n) * bytes * n == elements * bytes
  {
    var q := elements / n;
    assert elements == q * n;
    assert q * bytes * n == (q * n) * bytes;
  }

  ghost predicate TensorOk(t: Tensor, alignment: nat)
    requires alignment > 0
  {
    && StringOk(t.name) && 1 <= |t.dims| <= MAX_DIMS && DimsOk(t.dims) && LayoutOk(t, alignment) && t.offset <= UINT64_MAX
  }

  function ParseDims(data: seq<Byte>, at: nat, n: nat): (r: Parsed<seq<nat>>)
    ensures r.Some? ==> |r.value.0| == n
  {
    if n == 0 then Some(([], at))
    else
      match ParseDims(data, at, n - 1)
      case None => None
      case Some((before, next)) =>
        match Num(data, next, 8)
        case None => None
        case Some((d, end)) => if d == 0 || Product(before) * d > UINT64_MAX then None else Some((before + [d], end))
  }

  lemma {:induction false} DimsExactly(data: seq<Byte>, at: nat, dims: seq<nat>, end: nat)
    requires at <= |data|
    ensures ParseDims(data, at, |dims|) == Some((dims, end)) <==> DimsOk(dims) && At(data, at, EncodeDims(dims)) && end == at + |EncodeDims(dims)|
  {
    hide Num, LittleEndian, Pow256;
    if dims != [] {
      var last := |dims| - 1;
      var prefix, d := dims[..last], dims[last];
      assert dims == prefix + [d];
      var next := at + |EncodeDims(prefix)|;
      DimsExactly(data, at, prefix, next);
      LengthFits(d);
      NumExactly(data, next, 8, d, end);
      AtConcat(data, at, EncodeDims(prefix), LittleEndian(d, 8));
      if ParseDims(data, at, |dims|) == Some((dims, end)) {
        var middle := ParseDims(data, at, last).value;
        assert dims[..last] == middle.0;
        DimsExactly(data, at, prefix, middle.1);
      }
    }
  }

  /** The part of a tensor behind its name. */
  function ParseShape(data: seq<Byte>, at: nat, name: seq<Byte>): Parsed<Tensor> {
    match Num(data, at, 4)
    case None => None
    case Some((rank, start)) =>
      if rank == 0 || rank > MAX_DIMS then None
      else
        match ParseDims(data, start, rank)
        case None => None
        case Some((dims, next)) =>
          match Num(data, next, 4)
          case None => None
          case Some((typeId, last)) =>
            match Num(data, last, 8)
            case None => None
            case Some((offset, end)) => Some((Tensor(name, dims, typeId, offset), end))
  }

  ghost function ParseTensor(data: seq<Byte>, at: nat, alignment: nat): Parsed<Tensor>
    requires alignment > 0
  {
    match Str(data, at)
    case None => None
    case Some((name, next)) =>
      match ParseShape(data, next, name)
      case None => None
      case Some((t, end)) => if LayoutOk(t, alignment) then Some((t, end)) else None
  }

  function EncodeShape(t: Tensor): seq<Byte> {
    LittleEndian(|t.dims|, 4) + EncodeDims(t.dims) + LittleEndian(t.typeId, 4) + LittleEndian(t.offset, 8)
  }

  predicate ShapeOk(t: Tensor) {
    1 <= |t.dims| <= MAX_DIMS && DimsOk(t.dims) && t.typeId <= UINT32_MAX && t.offset <= UINT64_MAX
  }

  lemma RankFits(n: nat)
    requires n <= MAX_DIMS
    ensures n < Pow256(4)
  {
    LengthFits(n);
  }

  lemma ShapeExactly(data: seq<Byte>, at: nat, t: Tensor, end: nat)
    ensures ParseShape(data, at, t.name) == Some((t, end)) <==> ShapeOk(t) && At(data, at, EncodeShape(t)) && end == at + |EncodeShape(t)|
  {
    hide Num, ParseDims, At, LittleEndian, Pow256, EncodeDims, DimsOk, Product;
    if ShapeOk(t) {
      ShapeIsParsed(data, at, t, end);
    }
    if ParseShape(data, at, t.name) == Some((t, end)) {
      ShapeIsEncoded(data, at, t, end);
    }
  }

  lemma ShapeIsParsed(data: seq<Byte>, at: nat, t: Tensor, end: nat)
    requires ShapeOk(t)
    ensures At(data, at, EncodeShape(t)) && end == at + |EncodeShape(t)| ==> ParseShape(data, at, t.name) == Some((t, end))
  {
    hide Num, ParseDims, At, LittleEndian, Pow256, EncodeDims, DimsOk, Product;
    var a, b, c, d := LittleEndian(|t.dims|, 4), EncodeDims(t.dims), LittleEndian(t.typeId, 4), LittleEndian(t.offset, 8);
    AtConcat(data, at, a + b + c, d);
    AtConcat(data, at, a + b, c);
    AtConcat(data, at, a, b);
    AtInside(data, at, a);
    RankFits(|t.dims|);
    LengthFits(t.typeId);
    LengthFits(t.offset);
    NumExactly(data, at, 4, |t.dims|, at + 4);
    if at + 4 <= |data| {
      DimsExactly(data, at + 4, t.dims, at + 4 + |b|);
    }
    NumExactly(data, at + 4 + |b|, 4, t.typeId, at + 4 + |b| + 4);
    NumExactly(data, at + 4 + |b| + 4, 8, t.offset, end);
  }

  lemma ShapeIsEncoded(data: seq<Byte>, at: nat, t: Tensor, end: nat)
    requires ParseShape(data, at, t.name) == Some((t, end))
    ensures ShapeOk(t) && At(data, at, EncodeShape(t)) && end == at + |EncodeShape(t)|
  {
    hide Num, ParseDims, At, LittleEndian, Pow256, EncodeDims, DimsOk, Product;
    NumEnds(data, at, 4);
    var rank := Num(data, at, 4).value.0;
    var next := ParseDims(data, at + 4, rank).value.1;
    NumEnds(data, next, 4);
    NumEnds(data, next + 4, 8);
    NumExactly(data, at, 4, rank, at + 4);
    DimsExactly(data, at + 4, t.dims, next);
    NumExactly(data, next, 4, t.typeId, next + 4);
    NumExactly(data, next + 4, 8, t.offset, end);
    LengthFits(t.typeId);
    LengthFits(t.offset);
    var a, b, c, d := LittleEndian(|t.dims|, 4), EncodeDims(t.dims), LittleEndian(t.typeId, 4), LittleEndian(t.offset, 8);
    AtConcat(data, at, a, b);
    AtConcat(data, at, a + b, c);
    AtConcat(data, at, a + b + c, d);
  }

  lemma TensorExactly(data: seq<Byte>, at: nat, alignment: nat, t: Tensor, end: nat)
    requires alignment > 0
    ensures ParseTensor(data, at, alignment) == Some((t, end)) <==>
              TensorOk(t, alignment) && At(data, at, EncodeTensor(t)) && end == at + |EncodeTensor(t)|
  {
    hide Str, ParseShape, At, LittleEndian, EncodeString, EncodeDims, StringOk, DimsOk, Product;
    var a := EncodeString(t.name);
    assert EncodeTensor(t) == a + EncodeShape(t);
    AtConcat(data, at, a, EncodeShape(t));
    StrExactly(data, at, t.name, at + |a|);
    ShapeExactly(data, at + |a|, t, end);
    if ParseTensor(data, at, alignment) == Some((t, end)) {
      NameIsRead(data, at, alignment, t, end);
      var next := Str(data, at).value.1;
      StrExactly(data, at, t.name, next);
      ShapeExactly(data, next, t, end);
    }
  }

  lemma NameIsRead(data: seq<Byte>, at: nat, alignment: nat, t: Tensor, end: nat)
    requires alignment > 0 && ParseTensor(data, at, alignment) == Some((t, end))
    ensures Str(data, at).Some? && Str(data, at).value.0 == t.name
    ensures ParseShape(data, Str(data, at).value.1, t.name) == Some((t, end)) && LayoutOk(t, alignment)
  {
    hide Str, Num, ParseDims;
  }

  predicate NameIn(tensors: seq<Tensor>, name: seq<Byte>) {
    exists i :: 0 <= i < |tensors| && tensors[i].name == name
  }

  function EncodeTensors(ts: seq<Tensor>): seq<Byte> {
    if ts == [] then [] else EncodeTensors(ts[..|ts| - 1]) + EncodeTensor(ts[|ts| - 1])
  }

  ghost predicate TensorsOk(ts: seq<Tensor>, alignment: nat)
    requires alignment > 0
  {
    ts == [] || (TensorsOk(ts[..|ts| - 1], alignment) && TensorOk(ts[|ts| - 1], alignment) && !NameIn(ts[..|ts| - 1], ts[|ts| - 1].name))
  }

  ghost function ParseTensors(data: seq<Byte>, at: nat, alignment: nat, n: nat): (r: Parsed<seq<Tensor>>)
    requires alignment > 0
    ensures r.Some? ==> |r.value.0| == n
  {
    if n == 0 then Some(([], at))
    else
      match ParseTensors(data, at, alignment, n - 1)
      case None => None
      case Some((before, next)) =>
        match ParseTensor(data, next, alignment)
        case None => None
        case Some((t, end)) => if NameIn(before, t.name) then None else Some((before + [t], end))
  }

  lemma {:induction false} TensorsExactly(data: seq<Byte>, at: nat, alignment: nat, ts: seq<Tensor>, end: nat)
    requires alignment > 0 && at <= |data|
    ensures ParseTensors(data, at, alignment, |ts|) == Some((ts, end)) <==>
              TensorsOk(ts, alignment) && At(data, at, EncodeTensors(ts)) && end == at + |EncodeTensors(ts)|
  {
    hide ParseTensor, TensorOk, EncodeTensor, NameIn;
    if ts != [] {
      var last := |ts| - 1;
      var prefix, t := ts[..last], ts[last];
      assert ts == prefix + [t];
      var next := at + |EncodeTensors(prefix)|;
      TensorsExactly(data, at, alignment, prefix, next);
      TensorExactly(data, next, alignment, t, end);
      AtConcat(data, at, EncodeTensors(prefix), EncodeTensor(t));
      if ParseTensors(data, at, alignment, |ts|) == Some((ts, end)) {
        var middle := ParseTensors(data, at, alignment, last).value;
        assert ts[..last] == middle.0;
        TensorsExactly(data, at, alignment, prefix, middle.1);
      }
    }
  }

  // ----- the whole directory -----

  datatype Directory = Directory(entries: seq<Entry>, tensors: seq<Tensor>)

  function EncodeHeader(tensorCount: nat, metadataCount: nat): seq<Byte> {
    LittleEndian(MAGIC, 4) + LittleEndian(VERSION, 4) + LittleEndian(tensorCount, 8) + LittleEndian(metadataCount, 8)
  }

  function EncodeDirectory(d: Directory): seq<Byte> {
    EncodeHeader(|d.tensors|, |d.entries|) + EncodeEntries(d.entries) + EncodeTensors(d.tensors)
  }

  predicate CountsOk(tensorCount: nat, metadataCount: nat) {
    0 < metadataCount <= MAX_METADATA && 0 < tensorCount <= MAX_TENSORS
  }

  /** The demands on the metadata as a whole. */
  ghost predicate MetadataOk(es: seq<Entry>) {
    EntriesOk(es) && KeyIn(es, ARCHITECTURE_KEY) && AlignmentOk(AlignmentOf(es))
  }

  ghost predicate DirectoryOk(d: Directory) {
    && CountsOk(|d.tensors|, |d.entries|) && MetadataOk(d.entries)
    && (AlignmentIsPositive(AlignmentOf(d.entries)); TensorsOk(d.tensors, AlignmentOf(d.entries)))
  }

  /** Magic, version and the two counts. */
  function ParseHeader(data: seq<Byte>): Parsed<(nat, nat)> {
    match Num(data, 0, 4)
    case None => None
    case Some((magic, _)) =>
      if magic != MAGIC then None
      else
        match Num(data, 4, 4)
        case None => None
        case Some((version, _)) =>
          if version != VERSION then None
          else
            match Num(data, 8, 8)
            case None => None
            case Some((tensorCount, _)) =>
              match Num(data, 16, 8)
              case None => None
              case Some((metadataCount, end)) =>
                if CountsOk(tensorCount, metadataCount) then Some(((tensorCount, metadataCount), end)) else None
  }

  ghost function ParseBody(data: seq<Byte>, at: nat, tensorCount: nat, metadataCount: nat): Parsed<Directory> {
    match ParseEntries(data, at, metadataCount)
    case None => None
    case Some((entries, next)) =>
      if !KeyIn(entries, ARCHITECTURE_KEY) || !AlignmentOk(AlignmentOf(entries)) then None
      else
        AlignmentIsPositive(AlignmentOf(entries));
        match ParseTensors(data, next, AlignmentOf(entries), tensorCount)
        case None => None
        case Some((tensors, end)) => Some((Directory(entries, tensors), end))
  }

  ghost function ParseDirectory(data: seq<Byte>): Parsed<Directory> {
    match ParseHeader(data)
    case None => None
    case Some((counts, at)) => ParseBody(data, at, counts.0, counts.1)
  }

  lemma HeaderExactly(data: seq<Byte>, tensorCount: nat, metadataCount: nat, end: nat)
    ensures ParseHeader(data) == Some(((tensorCount, metadataCount), end)) <==>
              CountsOk(tensorCount, metadataCount) && At(data, 0, EncodeHeader(tensorCount, metadataCount)) && end == 24
  {
    hide Num, At, LittleEndian, Pow256;
    var a, b, c, d := LittleEndian(MAGIC, 4), LittleEndian(VERSION, 4), LittleEndian(tensorCount, 8), LittleEndian(metadataCount, 8);
    AtConcat(data, 0, a + b + c, d);
    AtConcat(data, 0, a + b, c);
    AtConcat(data, 0, a, b);
    LengthFits(MAGIC);
    LengthFits(VERSION);
    LengthFits(tensorCount);
    LengthFits(metadataCount);
    NumExactly(data, 0, 4, MAGIC, 4);
    NumExactly(data, 4, 4, VERSION, 8);
    NumExactly(data, 8, 8, tensorCount, 16);
    NumExactly(data, 16, 8, metadataCount, 24);
    NumEnds(data, 0, 4);
    NumEnds(data, 4, 4);
    NumEnds(data, 8, 8);
    NumEnds(data, 16, 8);
  }

  lemma BodyExactly(data: seq<Byte>, at: nat, d: Directory, end: nat)
    requires at <= |data|
    ensures ParseBody(data, at, |d.tensors|, |d.entries|) == Some((d, end)) <==>
              MetadataOk(d.entries) && (AlignmentIsPositive(AlignmentOf(d.entries)); TensorsOk(d.tensors, AlignmentOf(d.entries))) &&
              At(data, at, EncodeEntries(d.entries) + EncodeTensors(d.tensors)) && end == at + |EncodeEntries(d.entries) + EncodeTensors(d.tensors)|
  {
    hide ParseEntries, ParseTensors, At, EncodeEntries, EncodeTensors, EntriesOk, TensorsOk, AlignmentOk, AlignmentOf, KeyIn;
    var a, b := EncodeEntries(d.entries), EncodeTensors(d.tensors);
    AtConcat(data, at, a, b);
    AtInside(data, at, a);
    EntriesExactly(data, at, d.entries, at + |a|);
    if AlignmentOk(AlignmentOf(d.entries)) {
      AlignmentIsPositive(AlignmentOf(d.entries));
      if at + |a| <= |data| {
        TensorsExactly(data, at + |a|, AlignmentOf(d.entries), d.tensors, end);
      }
    }
    if ParseBody(data, at, |d.tensors|, |d.entries|) == Some((d, end)) {
      var next := ParseEntries(data, at, |d.entries|).value.1;
      EntriesExactly(data, at, d.entries, next);
      AlignmentIsPositive(AlignmentOf(d.entries));
    }
  }

  /** The parser accepts exactly the encodings of valid directories, whatever follows them, gives
      back the directory that was encoded, and stops exactly behind it. */
  lemma ParseIsExact(data: seq<Byte>, d: Directory, end: nat)
    ensures ParseDirectory(data) == Some((d, end)) <==> DirectoryOk(d) && At(data, 0, EncodeDirectory(d)) && end == |EncodeDirectory(d)|
  {
    hide ParseHeader, ParseBody, At, EncodeHeader, EncodeEntries, EncodeTensors, MetadataOk, TensorsOk, AlignmentOf;
    var head, rest := EncodeHeader(|d.tensors|, |d.entries|), EncodeEntries(d.entries) + EncodeTensors(d.tensors);
    assert EncodeDirectory(d) == head + rest;
    HeaderLength(|d.tensors|, |d.entries|);
    AtConcat(data, 0, head, rest);
    AtInside(data, 0, head);
    HeaderExactly(data, |d.tensors|, |d.entries|, 24);
    if 24 <= |data| {
      BodyExactly(data, 24, d, end);
    }
    if ParseDirectory(data) == Some((d, end)) {
      HeaderIsRead(data, d, end);
    }
  }

  lemma HeaderLength(tensorCount: nat, metadataCount: nat)
    ensures |EncodeHeader(tensorCount, metadataCount)| == 24
  {
  }

  lemma HeaderIsRead(data: seq<Byte>, d: Directory, end: nat)
    requires ParseDirectory(data) == Some((d, end))
    ensures ParseHeader(data) == Some(((|d.tensors|, |d.entries|), 24)) && 24 <= |data|
    ensures ParseBody(data, 24, |d.tensors|, |d.entries|) == Some((d, end))
  {
    hide Num, ParseEntries, ParseTensors, AlignmentOf, KeyIn, AlignmentOk;
    NumEnds(data, 16, 8);
    var counts := ParseHeader(data).value.0;
    hide ParseHeader;
    BodyCounts(data, 24, counts.0, counts.1, d, end);
  }

  lemma BodyCounts(data: seq<Byte>, at: nat, tensorCount: nat, metadataCount: nat, d: Directory, end: nat)
    requires ParseBody(data, at, tensorCount, metadataCount) == Some((d, end))
    ensures tensorCount == |d.tensors| && metadataCount == |d.entries|
  {
    hide ParseEntries, ParseTensors, AlignmentOf, KeyIn, AlignmentOk;
  }

  const MAX_DIRECTORY: nat := 536870912

  /** The part of a file that the parser maps. */
  function View(file: seq<Byte>): seq<Byte> {
    if |file| < MAX_DIRECTORY then file else file[..MAX_DIRECTORY]
  }

  /** Parsing undoes writing: a valid directory that fits, followed by any payload, comes back as it
      was, and the cursor stands exactly at its end. */
  lemma ParseUndoesEncode(d: Directory, payload: seq<Byte>)
    requires DirectoryOk(d) && |EncodeDirectory(d)| <= MAX_DIRECTORY
    ensures ParseDirectory(View(EncodeDirectory(d) + payload)) == Some((d, |EncodeDirectory(d)|))
  {
    hide EncodeDirectory, DirectoryOk, ParseDirectory;
    var file := EncodeDirectory(d) + payload;
    assert At(View(file), 0, EncodeDirectory(d));
    ParseIsExact(View(file), d, |EncodeDirectory(d)|);
  }

  /** No valid directory is the beginning of another one. */
  lemma EncodingsAreUnambiguous(d: Directory, e: Directory, payload: seq<Byte>, other: seq<Byte>)
    requires DirectoryOk(d) && DirectoryOk(e) && EncodeDirectory(d) + payload == EncodeDirectory(e) + other
    ensures d == e && payload == other
  {
    hide EncodeDirectory, DirectoryOk, ParseDirectory;
    var data := EncodeDirectory(d) + payload;
    assert At(data, 0, EncodeDirectory(d)) && At(data, 0, EncodeDirectory(e));
    ParseIsExact(data, d, |EncodeDirectory(d)|);
    ParseIsExact(data, e, |EncodeDirectory(e)|);
    assert payload == data[|EncodeDirectory(d)|..] && other == data[|EncodeDirectory(e)|..];
  }
}
