/** An opened model file: lookups in string arrays, the placement of the tensors, and views into
    them. */
module GgufFile {
  import opened Foundation
  import opened Utf8
  import opened GgufFormat
  import opened GgufDirectory
  import opened GgufReader
  import FlatIndex
  import Selection

  // ----- lookup in a string array -----

  lemma {:induction false} StringsSplit(ss: seq<seq<Byte>>, i: nat)
    requires i < |ss|
    ensures EncodeStrings(ss[..i + 1]) == EncodeStrings(ss[..i]) + EncodeString(ss[i])
    ensures EncodeStrings(ss[..i + 1]) <= EncodeStrings(ss)
    decreases |ss|
  {
    hide EncodeString;
    assert ss[..i + 1][..i] == ss[..i];
    if i + 1 < |ss| {
      StringsSplit(ss[..|ss| - 1], i);
      assert ss[..|ss| - 1][..i + 1] == ss[..i + 1] && ss[..|ss| - 1][..i] == ss[..i];
    } else {
      assert ss[..i + 1] == ss;
    }
  }

  /** Where string i stands in the bytes of its array. */
  lemma StringStands(ss: seq<seq<Byte>>, i: nat)
    requires i < |ss| && StringsOk(ss)
    ensures At(EncodeStrings(ss), |EncodeStrings(ss[..i])|, LittleEndian(|ss[i]|, 8))
    ensures At(EncodeStrings(ss), |EncodeStrings(ss[..i])| + 8, ss[i])
    ensures |EncodeStrings(ss[..i + 1])| == |EncodeStrings(ss[..i])| + 8 + |ss[i]|
    ensures Number(LittleEndian(|ss[i]|, 8)) == |ss[i]|
  {
    var raw, before, here := EncodeStrings(ss), EncodeStrings(ss[..i]), EncodeString(ss[i]);
    StringsSplit(ss, i);
    hide EncodeStrings;
    assert raw[..|before| + |here|] == before + here;
    assert raw[|before|..|before| + |here|] == (before + here)[|before|..] == here;
    assert At(raw, |before|, here);
    AtConcat(raw, |before|, LittleEndian(|ss[i]|, 8), ss[i]);
    assert StringOk(ss[i]);
    LengthFits(|ss[i]|);
    NumberOfBytes(|ss[i]|, 8);
  }

  /** Walks a string array to one of its strings. For every array that the parser has accepted the
      walk finds what the parser walked over, so its own checks never fire. */
  method StringAt(raw: seq<Byte>, length: nat, index: nat, ghost ss: seq<seq<Byte>>) returns (found: Option<seq<Byte>>)
    requires StringsOk(ss) && raw == EncodeStrings(ss) && length == |ss|
    ensures found == if index < length then Some(ss[index]) else None
  {
    hide EncodeStrings, At, LittleEndian, Number, StringsOk, Pow256;
    if index >= length {
      return None;
    }
    var offset := 0;
    StringsStart(ss);
    for item := 0 to index + 1
      invariant item <= index && offset == |EncodeStrings(ss[..item])|
    {
      StringStands(ss, item);
      AtIs(raw, offset, LittleEndian(|ss[item]|, 8));
      AtIs(raw, offset + 8, ss[item]);
      if |raw| - offset < 8 {
        return None;
      }
      var size := Assemble(raw[offset..offset + 8]);
      offset := offset + 8;
      if size > |raw| - offset {
        return None;
      }
      if item == index {
        return Some(raw[offset..offset + size]);
      }
      offset := offset + size;
    }
  }

  // ----- the strings of a parsed directory -----

  /** Where the cursor stood when it reached the strings of entry e. */
  function ItemsAt(d: Directory, e: nat): nat
    requires e < |d.entries|
  {
    24 + |EncodeEntries(d.entries[..e])| + |EncodeString(d.entries[e].key)| + 4 + 12
  }

  lemma {:induction false} EntriesSplit(es: seq<Entry>, e: nat)
    requires e < |es|
    ensures EncodeEntries(es[..e]) + EncodeEntry(es[e]) <= EncodeEntries(es)
    decreases |es|
  {
    hide EncodeEntry;
    var last := |es| - 1;
    if e == last {
      assert EncodeEntries(es[..e]) + EncodeEntry(es[e]) == EncodeEntries(es);
    } else {
      EntriesSplit(es[..last], e);
      assert es[..last][..e] == es[..e];
    }
  }

  lemma {:induction false} EntryIsOk(es: seq<Entry>, e: nat)
    requires EntriesOk(es) && e < |es|
    ensures EntryOk(es[e])
    decreases |es|
  {
    hide EntryOk;
    if e < |es| - 1 {
      EntryIsOk(es[..|es| - 1], e);
    }
  }

  lemma AtPrefix(data: seq<Byte>, at: nat, whole: seq<Byte>, part: seq<Byte>)
    requires At(data, at, whole) && part <= whole
    ensures At(data, at, part)
  {
    assert data[at..at + |part|] == data[at..at + |whole|][..|part|];
  }

  /** A string array that the parser has accepted stands in the file as it was walked. */
  lemma StringsAreStored(data: seq<Byte>, d: Directory, end: nat, e: nat)
    requires ParseDirectory(data) == Some((d, end)) && e < |d.entries| && d.entries[e].value.Strings?
    ensures StringsOk(d.entries[e].value.items)
    ensures At(data, ItemsAt(d, e), EncodeStrings(d.entries[e].value.items))
  {
    hide ParseDirectory, TensorsOk, EncodeTensors, EncodeEntries, EncodeStrings, EncodeString, LittleEndian, StringsOk, At;
    ParseIsExact(data, d, end);
    HeaderLength(|d.tensors|, |d.entries|);
    var entry := d.entries[e];
    EntryIsOk(d.entries, e);
    EntriesSplit(d.entries, e);
    var before, header := EncodeEntries(d.entries[..e]), EncodeHeader(|d.tensors|, |d.entries|);
    AtConcat(data, 0, header + EncodeEntries(d.entries), EncodeTensors(d.tensors));
    AtConcat(data, 0, header, EncodeEntries(d.entries));
    AtPrefix(data, 24, EncodeEntries(d.entries), before + EncodeEntry(entry));
    AtConcat(data, 24, before, EncodeEntry(entry));
    AtConcat(data, 24 + |before|, EncodeString(entry.key) + LittleEndian(KindOf(entry.value), 4), EncodeValue(entry.value));
    AtConcat(data, 24 + |before| + |EncodeString(entry.key)| + 4,
             LittleEndian(STRING, 4) + LittleEndian(|entry.value.items|, 8), EncodeStrings(entry.value.items));
  }

  /** Looking a string up in the metadata of a parsed directory returns the string that the parser
      walked over, for every array and every index. */
  method MetadataStringAt(data: seq<Byte>, d: Directory, ghost end: nat, e: nat, index: nat) returns (found: Option<seq<Byte>>)
    requires ParseDirectory(data) == Some((d, end)) && e < |d.entries| && d.entries[e].value.Strings?
    ensures found == if index < |d.entries[e].value.items| then Some(d.entries[e].value.items[index]) else None
  {
    hide ParseDirectory, EncodeStrings, StringsOk, ItemsAt;
    var items := d.entries[e].value.items;
    StringsAreStored(data, d, end, e);
    AtIs(data, ItemsAt(d, e), EncodeStrings(items));
    var raw := data[ItemsAt(d, e)..ItemsAt(d, e) + |EncodeStrings(items)|];
    found := StringAt(raw, |items|, index, items);
  }

  lemma StringsStart(ss: seq<seq<Byte>>)
    ensures |EncodeStrings(ss[..0])| == 0
  {
  }

  lemma AtIs(data: seq<Byte>, at: nat, bytes: seq<Byte>)
    ensures At(data, at, bytes) ==> at + |bytes| <= |data| && data[at..at + |bytes|] == bytes
  {
  }

  // ----- placement -----

  /** Up to the next multiple of the alignment. */
  function AlignUp(value: nat, alignment: nat): (r: nat)
    requires alignment > 0
    ensures value <= r < value + alignment && r % alignment == 0
  {
    AlignUpIs(value, alignment);
    (value + alignment - 1) / alignment * alignment
  }

  lemma AlignUpIs(value: nat, alignment: nat)
    requires alignment > 0
    ensures var r := (value + alignment - 1) / alignment * alignment; value <= r < value + alignment && r % alignment == 0
  {
    var q := (value + alignment - 1) / alignment;
    assert value + alignment - 1 == q * alignment + (value + alignment - 1) % alignment;
    FlatIndex.Divides(q, 0, alignment);
  }

  predicate Disjoint(a: Tensor, b: Tensor) {
    a.offset + PackedBytes(a) <= b.offset || b.offset + PackedBytes(b) <= a.offset
  }

  /** Tensor i ends inside the file. */
  predicate InFile(t: Tensor, dataSection: nat, fileSize: nat) {
    dataSection + t.offset + PackedBytes(t) <= fileSize
  }

  /** What an accepted placement means. */
  ghost predicate Placed(ts: seq<Tensor>, dataSection: nat, fileSize: nat) {
    && (exists i :: 0 <= i < |ts| && ts[i].offset == 0)
    && (forall i :: 0 <= i < |ts| ==> InFile(ts[i], dataSection, fileSize))
    && (forall i, j :: 0 <= i < j < |ts| ==> Disjoint(ts[i], ts[j]))
  }

  /** Tensor ids by offset, the lower id first among equal offsets. */
  predicate Earlier(ts: seq<Tensor>, a: nat, b: nat)
    requires a < |ts| && b < |ts|
  {
    ts[a].offset < ts[b].offset || (ts[a].offset == ts[b].offset && a < b)
  }

  ghost predicate Ordered(ts: seq<Tensor>, order: seq<nat>, n: nat) {
    && n <= |ts| && |order| == n
    && (forall k :: 0 <= k < n ==> order[k] < n)
    && (forall k, l :: 0 <= k < l < n ==> Earlier(ts, order[k], order[l]))
  }

  /** Sorts the tensor ids; the source leaves this to the C library. */
  method SortTensors(ts: seq<Tensor>) returns (order: seq<nat>)
    ensures Ordered(ts, order, |ts|)
  {
    order := [];
    for n := 0 to |ts|
      invariant Ordered(ts, order, n)
    {
      var p := 0;
      while p < n && Earlier(ts, order[p], n)
        invariant p <= n
        invariant forall k :: 0 <= k < p ==> Earlier(ts, order[k], n)
      {
        p := p + 1;
      }
      InsertKeepsOrder(ts, order, n, p);
      order := order[..p] + [n] + order[p..];
    }
  }

  lemma InsertKeepsOrder(ts: seq<Tensor>, order: seq<nat>, n: nat, p: nat)
    requires n < |ts| && Ordered(ts, order, n) && p <= n
    requires forall k :: 0 <= k < p ==> Earlier(ts, order[k], n)
    requires p < n ==> !Earlier(ts, order[p], n)
    ensures Ordered(ts, order[..p] + [n] + order[p..], n + 1)
  {
    var longer := order[..p] + [n] + order[p..];
    forall k, l | 0 <= k < l < n + 1 ensures Earlier(ts, longer[k], longer[l]) {
      if k == p {
        assert Earlier(ts, n, order[p]);
        assert l - 1 == p || Earlier(ts, order[p], order[l - 1]);
      }
    }
  }

  /** Only neighbours are compared, but in offset order that is enough. */
  lemma NeighboursSuffice(ts: seq<Tensor>, order: seq<nat>, k: nat, l: nat)
    requires Ordered(ts, order, |ts|) && k < l < |ts|
    requires forall m :: 0 <= m < |ts| - 1 ==> ts[order[m]].offset + PackedBytes(ts[order[m]]) <= ts[order[m + 1]].offset
    ensures ts[order[k]].offset + PackedBytes(ts[order[k]]) <= ts[order[l]].offset
    decreases l
  {
    hide PackedBytes;
    if k + 1 < l {
      NeighboursSuffice(ts, order, k, l - 1);
      assert Earlier(ts, order[l - 1], order[l]);
    }
  }

  /** Every id stands somewhere in the order. */
  lemma OrderHasAll(ts: seq<Tensor>, order: seq<nat>, i: nat)
    requires Ordered(ts, order, |ts|) && i < |ts|
    ensures exists k :: 0 <= k < |order| && order[k] == i
  {
    forall k, l | 0 <= k < l < |order| ensures order[k] != order[l] {
      assert Earlier(ts, order[k], order[l]);
    }
    Selection.AllBelowPresent(order, |order|);
    assert i in order;
  }

  /** The packed bytes of the first n tensors in file order. */
  function PackedTotal(ts: seq<Tensor>, order: seq<nat>, n: nat): nat
    requires n <= |order| && forall k :: 0 <= k < |order| ==> order[k] < |ts|
  {
    if n == 0 then 0 else PackedTotal(ts, order, n - 1) + PackedBytes(ts[order[n - 1]])
  }

  /** The first n tensors in file order fit before their ends. */
  lemma {:induction false} TotalFits(ts: seq<Tensor>, order: seq<nat>, n: nat)
    requires Ordered(ts, order, |ts|) && 0 < n <= |ts|
    requires forall m :: 0 <= m < n - 1 ==> ts[order[m]].offset + PackedBytes(ts[order[m]]) <= ts[order[m + 1]].offset
    ensures PackedTotal(ts, order, n) <= ts[order[n - 1]].offset + PackedBytes(ts[order[n - 1]])
  {
    hide PackedBytes;
    if n > 1 {
      TotalFits(ts, order, n - 1);
      assert ts[order[n - 2]].offset + PackedBytes(ts[order[n - 2]]) <= ts[order[n - 2 + 1]].offset;
    }
  }

  /** No tensor is empty: it has at least one block. */
  lemma PackedIsPositive(t: Tensor, alignment: nat)
    requires alignment > 0 && TensorOk(t, alignment)
    ensures PackedBytes(t) > 0
  {
    hide StringOk;
    var block := TypeInfoFor(t.typeId).value.blockElements;
    FirstDividesProduct(t.dims, block);
    var blocks := Product(t.dims) / block;
    assert Product(t.dims) == blocks * block;
    FlatIndex.MulStep(1, blocks, TypeInfoFor(t.typeId).value.bytesPerBlock);
  }

  lemma {:induction false} FirstDividesProduct(dims: seq<nat>, block: nat)
    requires dims != [] && DimsOk(dims) && block > 0 && dims[0] % block == 0
    ensures Product(dims) > 0 && Product(dims) % block == 0
  {
    var last := |dims| - 1;
    if last == 0 {
      assert Product(dims) == Product([]) * dims[0] by {
        assert dims[..0] == [];
      }
      assert DimsOk(dims[..0]);
    } else {
      FirstDividesProduct(dims[..last], block);
      var a, d := Product(dims[..last]), dims[last];
      assert a == a / block * block;
      assert a * d == a / block * d * block;
      FlatIndex.Divides(a / block * d, 0, block);
      FlatIndex.MulStep(0, a, d);
    }
  }

  /** In offset order, the lowest comes first. */
  lemma FirstIsLowest(ts: seq<Tensor>, order: seq<nat>, i: nat)
    requires Ordered(ts, order, |ts|) && i < |ts|
    ensures ts[order[0]].offset <= ts[i].offset
  {
    OrderHasAll(ts, order, i);
    var k :| 0 <= k < |order| && order[k] == i;
    assert k == 0 || Earlier(ts, order[0], order[k]);
  }

  lemma NeighboursArePlaced(ts: seq<Tensor>, order: seq<nat>, dataSection: nat, fileSize: nat)
    requires Ordered(ts, order, |ts|) && ts != [] && ts[order[0]].offset == 0
    requires forall m :: 0 <= m < |ts| ==> InFile(ts[order[m]], dataSection, fileSize)
    requires forall m :: 0 <= m < |ts| - 1 ==> ts[order[m]].offset + PackedBytes(ts[order[m]]) <= ts[order[m + 1]].offset
    ensures Placed(ts, dataSection, fileSize)
  {
    hide PackedBytes;
    forall i | 0 <= i < |ts| ensures InFile(ts[i], dataSection, fileSize) {
      OrderHasAll(ts, order, i);
    }
    forall i, j | 0 <= i < j < |ts| ensures Disjoint(ts[i], ts[j]) {
      OrderHasAll(ts, order, i);
      OrderHasAll(ts, order, j);
      var k :| 0 <= k < |order| && order[k] == i;
      var l :| 0 <= l < |order| && order[l] == j;
      if k < l {
        NeighboursSuffice(ts, order, k, l);
      } else {
        NeighboursSuffice(ts, order, l, k);
      }
    }
  }

  /** The check of the placement: sort by offset, then look at every tensor and its neighbour. It
      accepts exactly the placements where all tensors lie in the file and no two overlap. The sum
      of the packed bytes then fits the file, so the source's checks on it cannot fire. */
  method ValidateSpans(ts: seq<Tensor>, dataSection: nat, fileSize: nat) returns (status: Status, totalPacked: nat, order: seq<nat>)
    requires ts != [] && fileSize <= UINT64_MAX && forall i :: 0 <= i < |ts| ==> PackedBytes(ts[i]) > 0
    ensures Ordered(ts, order, |ts|)
    ensures status.Ok? <==> Placed(ts, dataSection, fileSize)
    ensures status.Ok? ==> totalPacked == PackedTotal(ts, order, |ts|) <= fileSize - dataSection
  {
    hide PackedBytes, Placed, Disjoint, Earlier;
    order := SortTensors(ts);
    totalPacked := 0;
    if ts[order[0]].offset != 0 {
      FirstNotPlaced(ts, order, dataSection, fileSize);
      return InconsistentDataSection, 0, order;
    }
    for index := 0 to |ts|
      invariant totalPacked == PackedTotal(ts, order, index)
      invariant forall m :: 0 <= m < index ==> InFile(ts[order[m]], dataSection, fileSize)
      invariant forall m :: 0 <= m < index && m + 1 < |ts| ==> ts[order[m]].offset + PackedBytes(ts[order[m]]) <= ts[order[m + 1]].offset
    {
      var t := ts[order[index]];
      if dataSection + t.offset + PackedBytes(t) > fileSize {
        OutsideNotPlaced(ts, dataSection, fileSize, order[index]);
        return SpanOutOfRange, 0, order;
      }
      if index + 1 < |ts| {
        if t.offset + PackedBytes(t) > ts[order[index + 1]].offset {
          NotPlaced(ts, order, dataSection, fileSize, index);
          return InconsistentDataSection, 0, order;
        }
      }
      TotalFits(ts, order, index + 1);
      if totalPacked > UINT64_MAX - PackedBytes(t) {
        status := ArithmeticOverflow;
        return;
      }
      totalPacked := totalPacked + PackedBytes(t);
    }
    NeighboursArePlaced(ts, order, dataSection, fileSize);
    TotalFits(ts, order, |ts|);
    if totalPacked > fileSize {
      status := InconsistentDataSection;
      return;
    }
    status := Ok;
  }

  lemma FirstNotPlaced(ts: seq<Tensor>, order: seq<nat>, dataSection: nat, fileSize: nat)
    requires Ordered(ts, order, |ts|) && ts != [] && ts[order[0]].offset != 0
    ensures !Placed(ts, dataSection, fileSize)
  {
    hide PackedBytes, Disjoint, Earlier;
    forall i | 0 <= i < |ts| ensures ts[i].offset != 0 {
      FirstIsLowest(ts, order, i);
    }
  }

  lemma OutsideNotPlaced(ts: seq<Tensor>, dataSection: nat, fileSize: nat, i: nat)
    requires i < |ts| && !InFile(ts[i], dataSection, fileSize)
    ensures !Placed(ts, dataSection, fileSize)
  {
    hide PackedBytes, Disjoint, InFile;
  }

  lemma NotPlaced(ts: seq<Tensor>, order: seq<nat>, dataSection: nat, fileSize: nat, m: nat)
    requires Ordered(ts, order, |ts|) && m + 1 < |ts| && forall i :: 0 <= i < |ts| ==> PackedBytes(ts[i]) > 0
    requires ts[order[m]].offset + PackedBytes(ts[order[m]]) > ts[order[m + 1]].offset
    ensures !Placed(ts, dataSection, fileSize)
  {
    hide PackedBytes;
    var a, b := order[m], order[m + 1];
    assert Earlier(ts, a, b);
    assert !Disjoint(ts[a], ts[b]) && !Disjoint(ts[b], ts[a]);
    assert a < b || b < a;
  }

  // ----- opening -----

  datatype Gguf = Gguf(directory: Directory, directoryEnd: nat, dataSection: nat, packed: nat, overhead: nat) {
    /** The bytes of a tensor in the file. */
    function SpanStart(t: Tensor): nat { dataSection + t.offset }

    function SpanEnd(t: Tensor): nat { dataSection + t.offset + PackedBytes(t) }
  }

  /** What a file says, if it can be opened: a directory at its beginning, and tensors placed behind
      it from the next aligned position on. */
  ghost function Contents(file: seq<Byte>): Parsed<Directory> {
    match ParseDirectory(View(file))
    case None => None
    case Some((d, end)) => if PlacedBehind(file, d, end) then Some((d, end)) else None
  }

  ghost predicate PlacedBehind(file: seq<Byte>, d: Directory, end: nat) {
    var alignment := AlignmentOf(d.entries);
    AlignmentOk(alignment) && (AlignmentIsPositive(alignment); Placed(d.tensors, AlignUp(end, alignment), |file|))
  }

  ghost predicate Opens(file: seq<Byte>, d: Directory, end: nat) {
    Contents(file) == Some((d, end))
  }

  lemma {:induction false} TensorsAreOk(ts: seq<Tensor>, alignment: nat, i: nat)
    requires alignment > 0 && TensorsOk(ts, alignment) && i < |ts|
    ensures TensorOk(ts[i], alignment)
    decreases |ts|
  {
    hide TensorOk, NameIn;
    if i < |ts| - 1 {
      TensorsAreOk(ts[..|ts| - 1], alignment, i);
    }
  }

  /** What the parser has accepted is a valid directory with non-empty tensors. */
  lemma ParsedIsOk(data: seq<Byte>, d: Directory, end: nat)
    requires ParseDirectory(data) == Some((d, end))
    ensures d.tensors != [] && AlignmentOk(AlignmentOf(d.entries)) && AlignmentOf(d.entries) > 0
    ensures forall i :: 0 <= i < |d.tensors| ==> TensorOk(d.tensors[i], AlignmentOf(d.entries)) && PackedBytes(d.tensors[i]) > 0
  {
    hide ParseDirectory, EncodeDirectory, EntriesOk, KeyIn, TensorsOk, TensorOk, PackedBytes, AlignmentOf, PowerOfTwo;
    ParseIsExact(data, d, end);
    var alignment := AlignmentOf(d.entries);
    AlignmentIsPositive(alignment);
    forall i | 0 <= i < |d.tensors| ensures TensorOk(d.tensors[i], alignment) && PackedBytes(d.tensors[i]) > 0 {
      TensorsAreOk(d.tensors, alignment, i);
      PackedIsPositive(d.tensors[i], alignment);
    }
  }

  /** Opens a file, or refuses it. Packed bytes and overhead add up to the file. */
  method Open(file: seq<Byte>) returns (status: Status, g: Gguf)
    requires |file| <= UINT64_MAX
    ensures status.Ok? <==> Contents(file).Some?
    ensures status.Ok? ==> Opens(file, g.directory, g.directoryEnd) && AlignmentOf(g.directory.entries) > 0
    ensures status.Ok? ==> g.dataSection == AlignUp(g.directoryEnd, AlignmentOf(g.directory.entries)) <= |file|
    ensures status.Ok? ==> g.packed + g.overhead == |file|
  {
    hide ParseDirectory, Placed, AlignmentOf, PackedBytes, AlignmentOk, TensorOk;
    g := Gguf(Directory([], []), 0, 0, 0, 0);
    var reader := new Reader(View(file), |file|);
    var d, order, packed;
    status, d := reader.ReadDirectory();
    if !status.Ok? {
      return;
    }
    ParsedIsOk(View(file), d, reader.offset);
    var dataSection := AlignUp(reader.offset, AlignmentOf(d.entries));
    if dataSection > |file| {
      BeyondEnd(d.tensors, dataSection, |file|);
      return InconsistentDataSection, g;
    }
    status, packed, order := ValidateSpans(d.tensors, dataSection, |file|);
    if !status.Ok? {
      return;
    }
    g := Gguf(d, reader.offset, dataSection, packed, |file| - packed);
  }

  lemma BeyondEnd(ts: seq<Tensor>, dataSection: nat, fileSize: nat)
    requires dataSection > fileSize
    ensures !Placed(ts, dataSection, fileSize)
  {
    hide PackedBytes;
  }

  /** The spans of an opened file: behind the directory, aligned, inside the file, not empty. */
  lemma SpansAreSafe(file: seq<Byte>, g: Gguf, i: nat)
    requires Opens(file, g.directory, g.directoryEnd) && i < |g.directory.tensors|
    requires AlignmentOf(g.directory.entries) > 0 && g.dataSection == AlignUp(g.directoryEnd, AlignmentOf(g.directory.entries))
    ensures var t := g.directory.tensors[i];
            && g.directoryEnd <= g.dataSection <= g.SpanStart(t) < g.SpanEnd(t) <= |file|
            && g.SpanStart(t) % AlignmentOf(g.directory.entries) == 0
  {
    hide ParseDirectory, PackedBytes, AlignmentOf, AlignmentOk, TensorOk;
    ParsedIsOk(View(file), g.directory, g.directoryEnd);
    var t, alignment := g.directory.tensors[i], AlignmentOf(g.directory.entries);
    assert InFile(t, g.dataSection, |file|);
    OffsetIsAligned(t, alignment);
    AlignedSum(g.dataSection, t.offset, alignment);
  }

  lemma OffsetIsAligned(t: Tensor, alignment: nat)
    requires alignment > 0 && TensorOk(t, alignment)
    ensures t.offset % alignment == 0
  {
  }

  lemma AlignedSum(a: nat, b: nat, n: nat)
    requires n > 0 && a % n == 0 && b % n == 0
    ensures (a + b) % n == 0
  {
    assert a == a / n * n && b == b / n * n;
    assert a + b == (a / n + b / n) * n;
    FlatIndex.Divides(a / n + b / n, 0, n);
  }

  /** No byte of the file belongs to two tensors. */
  lemma SpansAreDisjoint(file: seq<Byte>, g: Gguf, i: nat, j: nat, at: nat)
    requires Opens(file, g.directory, g.directoryEnd) && i < |g.directory.tensors| && j < |g.directory.tensors| && i != j
    requires AlignmentOf(g.directory.entries) > 0 && g.dataSection == AlignUp(g.directoryEnd, AlignmentOf(g.directory.entries))
    ensures !(g.SpanStart(g.directory.tensors[i]) <= at < g.SpanEnd(g.directory.tensors[i]) &&
              g.SpanStart(g.directory.tensors[j]) <= at < g.SpanEnd(g.directory.tensors[j]))
  {
    hide ParseDirectory, PackedBytes, AlignmentOf, AlignmentOk;
    var ts := g.directory.tensors;
    assert Disjoint(ts[i], ts[j]) || Disjoint(ts[j], ts[i]);
  }

  /** A view into a tensor; it never leaves the tensor. */
  method OpenTensorSpan(g: Gguf, tensor: nat, byteOffset: nat, byteLength: nat) returns (status: Status, fileOffset: nat)
    requires forall i :: 0 <= i < |g.directory.tensors| ==> g.SpanEnd(g.directory.tensors[i]) <= UINT64_MAX
    ensures status.Ok? <==> byteLength > 0 && tensor < |g.directory.tensors| && byteOffset + byteLength <= PackedBytes(g.directory.tensors[tensor])
    ensures status.Ok? ==> var t := g.directory.tensors[tensor];
                           g.SpanStart(t) <= fileOffset == g.SpanStart(t) + byteOffset && fileOffset + byteLength <= g.SpanEnd(t)
  {
    hide PackedBytes;
    fileOffset := 0;
    if byteLength == 0 {
      return InvalidArgument, 0;
    }
    if tensor >= |g.directory.tensors| {
      return TensorOwnershipMismatch, 0;
    }
    var t := g.directory.tensors[tensor];
    if byteOffset > UINT64_MAX - byteLength {
      assert g.SpanEnd(t) <= UINT64_MAX;
      return ArithmeticOverflow, 0;
    }
    if byteOffset + byteLength > PackedBytes(t) {
      return SpanOutOfRange, 0;
    }
    assert g.SpanEnd(t) <= UINT64_MAX;
    return Ok, g.SpanStart(t) + byteOffset;
  }
}
