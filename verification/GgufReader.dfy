/** The cursor that parses a directory, method by method against the parsing functions. */
module GgufReader {
  import opened Foundation
  import opened Utf8
  import opened GgufFormat
  import opened GgufDirectory

  class Reader {
    const data: seq<Byte>
    const fileSize: nat
    var offset: nat
    var maxConsumed: nat

    /** The cursor only moves forward: what it has consumed ends where it stands. */
    predicate Valid()
      reads this
    {
      maxConsumed == offset <= |data|
    }

    constructor (data: seq<Byte>, fileSize: nat)
      ensures Valid() && offset == 0 && this.data == data && this.fileSize == fileSize
    {
      this.data := data;
      this.fileSize := fileSize;
      offset, maxConsumed := 0, 0;
    }

    method TakeBytes(length: nat) returns (status: Status, bytes: seq<Byte>)
      requires Valid()
      modifies this
      ensures Valid()
      ensures status.Ok? <==> Take(data, old(offset), length).Some?
      ensures status.Ok? ==> Take(data, old(offset), length) == Some((bytes, offset))
      ensures !status.Ok? ==> offset == old(offset)
    {
      var end := offset + length;
      if end > |data| {
        return if |data| < fileSize then LimitExceeded else Truncated, [];
      }
      bytes := data[offset..end];
      offset := end;
      if end > maxConsumed {
        maxConsumed := end;
      }
      status := Ok;
    }

    /** A little-endian number of n bytes. */
    method ReadNumber(n: nat) returns (status: Status, value: nat)
      requires Valid()
      modifies this
      ensures Valid()
      ensures status.Ok? <==> Num(data, old(offset), n).Some?
      ensures status.Ok? ==> Num(data, old(offset), n) == Some((value, offset))
    {
      var bytes;
      status, bytes := TakeBytes(n);
      if !status.Ok? {
        return status, 0;
      }
      value := Assemble(bytes);
    }

    method ReadString() returns (status: Status, s: seq<Byte>)
      requires Valid()
      modifies this
      ensures Valid()
      ensures status.Ok? <==> Str(data, old(offset)).Some?
      ensures status.Ok? ==> Str(data, old(offset)) == Some((s, offset))
    {
      hide Num, WellFormed;
      var length;
      status, length := ReadNumber(8);
      if !status.Ok? {
        return status, [];
      }
      if length > MAX_STRING {
        return LimitExceeded, [];
      }
      status, s := TakeBytes(length);
      if !status.Ok? {
        return status, [];
      }
      var valid := IsValid(s);
      if !valid {
        return MalformedMetadata, [];
      }
    }

    method ReadScalar(kind: nat) returns (status: Status, value: Value)
      requires Valid()
      modifies this
      ensures Valid()
      ensures status.Ok? <==> ParseScalar(data, old(offset), kind).Some?
      ensures status.Ok? ==> ParseScalar(data, old(offset), kind) == Some((value, offset))
    {
      hide Num;
      value := Scalar(kind, 0);
      var width := ScalarWidth(kind);
      if width.None? {
        return UnsupportedMetadata, value;
      }
      var bits;
      status, bits := ReadNumber(width.value);
      if !status.Ok? {
        return status, value;
      }
      if kind == BOOL && bits > 1 {
        return MalformedMetadata, value;
      }
      value := Scalar(kind, bits);
    }

    /** The strings of a string array. */
    method ReadStrings(length: nat) returns (status: Status, items: seq<seq<Byte>>)
      requires Valid()
      modifies this
      ensures Valid()
      ensures status.Ok? <==> Strs(data, old(offset), length).Some?
      ensures status.Ok? ==> Strs(data, old(offset), length) == Some((items, offset))
    {
      hide Str;
      items := [];
      ghost var start := offset;
      for index := 0 to length
        invariant Valid() && Strs(data, start, index) == Some((items, offset))
      {
        var s;
        status, s := ReadString();
        if !status.Ok? {
          StrsFailOnPrefix(data, start, index + 1, length);
          return status, [];
        }
        items := items + [s];
      }
      status := Ok;
    }

    method ReadArray() returns (status: Status, value: Value)
      requires Valid()
      modifies this
      ensures Valid()
      ensures status.Ok? <==> ParseArray(data, old(offset)).Some?
      ensures status.Ok? ==> ParseArray(data, old(offset)) == Some((value, offset))
    {
      hide Num, Strs, Take;
      value := Strings([]);
      var element, length;
      status, element := ReadNumber(4);
      if !status.Ok? {
        return status, value;
      }
      status, length := ReadNumber(8);
      if !status.Ok? {
        return status, value;
      }
      if length > MAX_ARRAY {
        return LimitExceeded, value;
      }
      if element == STRING {
        var items;
        status, items := ReadStrings(length);
        value := Strings(items);
        return;
      }
      var width := ElementWidth(element);
      if width.None? {
        return UnsupportedMetadata, value;
      }
      var raw;
      status, raw := TakeBytes(length * width.value);
      value := Numbers(element, length, raw);
    }

    method ReadEntry() returns (status: Status, entry: Entry)
      requires Valid()
      modifies this
      ensures Valid()
      ensures status.Ok? <==> ParseEntry(data, old(offset)).Some?
      ensures status.Ok? ==> ParseEntry(data, old(offset)) == Some((entry, offset))
    {
      hide Num, Str, ParseArray, ParseScalar;
      entry := Entry([], Strings([]));
      var key, kind, value;
      status, key := ReadString();
      if !status.Ok? {
        return status, entry;
      }
      status, kind := ReadNumber(4);
      if !status.Ok? {
        return status, entry;
      }
      if kind == STRING {
        var text;
        status, text := ReadString();
        value := Text(text);
      } else if kind == ARRAY {
        status, value := ReadArray();
      } else {
        status, value := ReadScalar(kind);
      }
      if !status.Ok? {
        return status, entry;
      }
      if (key == ARCHITECTURE_KEY && kind != STRING) || (key == ALIGNMENT_KEY && kind != UINT32) {
        return MalformedMetadata, entry;
      }
      entry := Entry(key, value);
    }

    method ReadEntries(count: nat) returns (status: Status, entries: seq<Entry>)
      requires Valid()
      modifies this
      ensures Valid()
      ensures status.Ok? <==> ParseEntries(data, old(offset), count).Some?
      ensures status.Ok? ==> ParseEntries(data, old(offset), count) == Some((entries, offset))
    {
      hide ParseEntry, KeyIn;
      entries := [];
      ghost var start := offset;
      for index := 0 to count
        invariant Valid() && ParseEntries(data, start, index) == Some((entries, offset))
      {
        var entry;
        status, entry := ReadEntry();
        var duplicate := status.Ok? && KeyIn(entries, entry.key);
        if !status.Ok? || duplicate {
          EntriesFailOnPrefix(data, start, index + 1, count);
          return if duplicate then DuplicateMetadata else status, [];
        }
        entries := entries + [entry];
      }
      status := Ok;
    }

    /** The dimensions, with their product checked against the 64-bit range as it grows. */
    method ReadDims(rank: nat) returns (status: Status, dims: seq<nat>)
      requires Valid()
      modifies this
      ensures Valid()
      ensures status.Ok? <==> ParseDims(data, old(offset), rank).Some?
      ensures status.Ok? ==> ParseDims(data, old(offset), rank) == Some((dims, offset))
    {
      hide Num;
      dims := [];
      ghost var start := offset;
      var elementCount := 1;
      for index := 0 to rank
        invariant Valid() && ParseDims(data, start, index) == Some((dims, offset)) && elementCount == Product(dims)
      {
        var d;
        status, d := ReadNumber(8);
        if !status.Ok? || d == 0 || elementCount * d > UINT64_MAX {
          DimsFailOnPrefix(data, start, index + 1, rank);
          return if !status.Ok? then status else if d == 0 then MalformedTensor else ArithmeticOverflow, [];
        }
        elementCount := elementCount * d;
        dims := dims + [d];
      }
      status := Ok;
    }

    method ReadShape(name: seq<Byte>) returns (status: Status, t: Tensor)
      requires Valid()
      modifies this
      ensures Valid()
      ensures status.Ok? <==> ParseShape(data, old(offset), name).Some?
      ensures status.Ok? ==> ParseShape(data, old(offset), name) == Some((t, offset))
    {
      hide Num, ParseDims;
      t := Tensor(name, [], 0, 0);
      var rank, dims, typeId, offset;
      status, rank := ReadNumber(4);
      if !status.Ok? {
        return status, t;
      }
      if rank == 0 || rank > MAX_DIMS {
        return MalformedTensor, t;
      }
      status, dims := ReadDims(rank);
      if !status.Ok? {
        return status, t;
      }
      status, typeId := ReadNumber(4);
      if !status.Ok? {
        return status, t;
      }
      status, offset := ReadNumber(8);
      t := Tensor(name, dims, typeId, offset);
    }

    /** One descriptor. The source looks the type up before it reads the offset; either failure
        refuses the tensor. */
    method ReadTensor(alignment: nat) returns (status: Status, t: Tensor)
      requires Valid() && alignment > 0
      modifies this
      ensures Valid()
      ensures status.Ok? <==> ParseTensor(data, old(offset), alignment).Some?
      ensures status.Ok? ==> ParseTensor(data, old(offset), alignment) == Some((t, offset))
    {
      hide Str, ParseShape, LayoutOk;
      t := Tensor([], [], 0, 0);
      var name;
      status, name := ReadString();
      if !status.Ok? {
        return status, t;
      }
      status, t := ReadShape(name);
      if status.Ok? {
        status := CheckLayout(t, alignment);
      }
    }

    method ReadTensors(count: nat, alignment: nat) returns (status: Status, tensors: seq<Tensor>)
      requires Valid() && alignment > 0
      modifies this
      ensures Valid()
      ensures status.Ok? <==> ParseTensors(data, old(offset), alignment, count).Some?
      ensures status.Ok? ==> ParseTensors(data, old(offset), alignment, count) == Some((tensors, offset))
    {
      hide ParseTensor, NameIn;
      tensors := [];
      ghost var start := offset;
      for index := 0 to count
        invariant Valid() && ParseTensors(data, start, alignment, index) == Some((tensors, offset))
      {
        var t;
        status, t := ReadTensor(alignment);
        var duplicate := status.Ok? && NameIn(tensors, t.name);
        if !status.Ok? || duplicate {
          TensorsFailOnPrefix(data, start, alignment, index + 1, count);
          return if duplicate then DuplicateTensor else status, [];
        }
        tensors := tensors + [t];
      }
      status := Ok;
    }

    method ReadHeader() returns (status: Status, tensorCount: nat, metadataCount: nat)
      requires Valid() && offset == 0
      modifies this
      ensures Valid()
      ensures status.Ok? <==> ParseHeader(data).Some?
      ensures status.Ok? ==> ParseHeader(data) == Some(((tensorCount, metadataCount), offset))
    {
      hide Num;
      NumEnds(data, 0, 4);
      NumEnds(data, 4, 4);
      NumEnds(data, 8, 8);
      tensorCount, metadataCount := 0, 0;
      var magic, version;
      status, magic := ReadNumber(4);
      if !status.Ok? {
        return;
      }
      if magic != MAGIC {
        return BadMagic, 0, 0;
      }
      status, version := ReadNumber(4);
      if !status.Ok? {
        return;
      }
      if version != VERSION {
        return UnsupportedVersion, 0, 0;
      }
      status, tensorCount := ReadNumber(8);
      if !status.Ok? {
        return;
      }
      status, metadataCount := ReadNumber(8);
      if !status.Ok? {
        return;
      }
      if tensorCount == 0 || metadataCount == 0 {
        return MalformedMetadata, 0, 0;
      }
      if metadataCount > MAX_METADATA || tensorCount > MAX_TENSORS {
        return LimitExceeded, 0, 0;
      }
    }

    /** The whole directory; the cursor ends exactly behind it. */
    method ReadDirectory() returns (status: Status, d: Directory)
      requires Valid() && offset == 0
      modifies this
      ensures Valid()
      ensures status.Ok? <==> ParseDirectory(data).Some?
      ensures status.Ok? ==> ParseDirectory(data) == Some((d, offset))
    {
      hide ParseHeader, ParseEntries, ParseTensors, KeyIn, AlignmentOk, AlignmentOf;
      d := Directory([], []);
      var tensorCount, metadataCount, entries, tensors;
      status, tensorCount, metadataCount := ReadHeader();
      if !status.Ok? {
        return;
      }
      status, entries := ReadEntries(metadataCount);
      if !status.Ok? {
        return;
      }
      if !KeyIn(entries, ARCHITECTURE_KEY) {
        return MalformedMetadata, d;
      }
      var alignment := AlignmentOf(entries);
      if !AlignmentOk(alignment) {
        return InvalidAlignment, d;
      }
      AlignmentIsPositive(alignment);
      status, tensors := ReadTensors(tensorCount, alignment);
      d := Directory(entries, tensors);
    }
  }

  /** Little-endian bytes put together, the highest first. */
  method Assemble(bytes: seq<Byte>) returns (value: nat)
    ensures value == Number(bytes)
  {
    value := 0;
    assert bytes[|bytes|..] == [];
    for i := |bytes| downto 0
      invariant value == Number(bytes[i..])
    {
      assert bytes[i..][1..] == bytes[i + 1..];
      value := bytes[i] + 256 * value;
    }
    assert bytes[0..] == bytes;
  }

  method CheckLayout(t: Tensor, alignment: nat) returns (status: Status)
    requires alignment > 0
    ensures status.Ok? <==> LayoutOk(t, alignment)
  {
    var info := TypeInfoFor(t.typeId);
    if info.None? {
      return UnsupportedTensorType;
    }
    if t.offset % alignment != 0 {
      return InvalidAlignment;
    }
    if t.dims == [] || t.dims[0] % info.value.blockElements != 0 {
      return MalformedTensor;
    }
    if PackedBytes(t) > UINT64_MAX {
      return ArithmeticOverflow;
    }
    status := Ok;
  }

  lemma {:induction false} StrsFailOnPrefix(data: seq<Byte>, at: nat, n: nat, m: nat)
    requires n <= m && Strs(data, at, n).None?
    ensures Strs(data, at, m).None?
    decreases m
  {
    hide Str;
    if n < m {
      StrsFailOnPrefix(data, at, n, m - 1);
    }
  }

  lemma {:induction false} EntriesFailOnPrefix(data: seq<Byte>, at: nat, n: nat, m: nat)
    requires n <= m && ParseEntries(data, at, n).None?
    ensures ParseEntries(data, at, m).None?
    decreases m
  {
    hide ParseEntry;
    if n < m {
      EntriesFailOnPrefix(data, at, n, m - 1);
    }
  }

  lemma {:induction false} DimsFailOnPrefix(data: seq<Byte>, at: nat, n: nat, m: nat)
    requires n <= m && ParseDims(data, at, n).None?
    ensures ParseDims(data, at, m).None?
    decreases m
  {
    hide Num;
    if n < m {
      DimsFailOnPrefix(data, at, n, m - 1);
    }
  }

  lemma {:induction false} TensorsFailOnPrefix(data: seq<Byte>, at: nat, alignment: nat, n: nat, m: nat)
    requires n <= m && alignment > 0 && ParseTensors(data, at, alignment, n).None?
    ensures ParseTensors(data, at, alignment, m).None?
    decreases m
  {
    hide ParseTensor;
    if n < m {
      TensorsFailOnPrefix(data, at, alignment, n, m - 1);
    }
  }
}
