/** Per-channel shift registers stored flat, as the two convolutions keep them: `length` entries a
    channel, the newest last. */
module ShiftRegister {
  import opened Foundation
  import opened FlatIndex

  /** Every channel drops its oldest entry and takes its value of `row` as the newest. */
  function ShiftIn<F>(history: seq<F>, length: nat, row: seq<F>): (r: seq<F>)
    requires length > 0 && |history| == |row| * length
    ensures |r| == |history|
  {
    seq(|history|, i requires 0 <= i < |history| =>
      InTable(i, length, |row|);
      if i % length == length - 1 then row[i / length] else history[i + 1])
  }

  function ShiftInAll<F>(history: seq<F>, length: nat, rows: seq<seq<F>>, width: nat): (r: seq<F>)
    requires length > 0 && |history| == width * length
    requires forall t :: 0 <= t < |rows| ==> |rows[t]| == width
    ensures |r| == |history|
  {
    if rows == [] then history
    else ShiftIn(ShiftInAll(history, length, rows[..|rows| - 1], width), length, rows[|rows| - 1])
  }

  lemma ShiftInIndex<F>(history: seq<F>, length: nat, row: seq<F>, i: nat)
    requires length > 0 && |history| == |row| * length && i < |history|
    ensures i / length < |row|
    ensures i % length == length - 1 ==> ShiftIn(history, length, row)[i] == row[i / length]
    ensures i % length != length - 1 ==> i + 1 < |history| && (i + 1) / length == i / length
    ensures i % length != length - 1 ==> ShiftIn(history, length, row)[i] == history[i + 1]
  {
    InTable(i, length, |row|);
  }

  lemma ShiftInAt<F>(history: seq<F>, length: nat, row: seq<F>, channel: nat, j: nat)
    requires length > 0 && |history| == |row| * length && channel < |row| && j < length
    ensures ShiftIn(history, length, row)[At(channel, j, length, |row|)] ==
            if j == length - 1 then row[channel] else history[At(channel, j + 1, length, |row|)]
  {
    var i := At(channel, j, length, |row|);
    InTable(i, length, |row|);
  }

  /** What a register holds after any rows: the last `length` values of its channel, the initial
      entries standing in for those before the first row. */
  lemma {:induction false} RegisterHoldsHistory<F>(history: seq<F>, length: nat, rows: seq<seq<F>>, width: nat,
                                                   channel: nat, j: nat)
    requires length > 0 && |history| == width * length
    requires forall t :: 0 <= t < |rows| ==> |rows[t]| == width
    requires channel < width && j < length
    ensures ShiftInAll(history, length, rows, width)[At(channel, j, length, width)] ==
            if |rows| + j < length then history[At(channel, |rows| + j, length, width)]
            else rows[|rows| + j - length][channel]
    decreases |rows|
  {
    hide ShiftIn;
    if rows != [] {
      var last := |rows| - 1;
      ShiftInAt(ShiftInAll(history, length, rows[..last], width), length, rows[last], channel, j);
      if j < length - 1 {
        RegisterHoldsHistory(history, length, rows[..last], width, channel, j + 1);
      }
    }
  }

  /** One channel of a register shifted, the others as they were. */
  ghost predicate ChannelShifted<F>(before: seq<F>, after: seq<F>, length: nat, channel: nat, value: F)
    requires length > 0 && |after| == |before|
  {
    forall i {:trigger after[i]} :: 0 <= i < |after| ==>
      after[i] == if i / length != channel then before[i]
                  else if i % length == length - 1 || i + 1 >= |before| then value
                  else before[i + 1]
  }

  /** Shifts one channel in place: every entry moves one place down, the new value goes last. */
  method ShiftChannel<F>(register: array<F>, length: nat, channel: nat, width: nat, value: F)
    requires length > 0 && register.Length == width * length && channel < width
    modifies register
    ensures ChannelShifted(old(register[..]), register[..], length, channel, value)
  {
    ghost var before := register[..];
    MulStep(channel, width, length);
    var base := channel * length;
    for j := 1 to length
      invariant forall i :: base <= i < base + j - 1 ==> register[i] == before[i + 1]
      invariant forall i :: 0 <= i < register.Length && !(base <= i < base + j - 1) ==> register[i] == before[i]
    {
      register[base + j - 1] := register[base + j];
    }
    register[base + length - 1] := value;
    SegmentIsChannel(before, register[..], length, channel, value);
  }

  lemma SegmentIsChannel<F>(before: seq<F>, after: seq<F>, length: nat, channel: nat, value: F)
    requires length > 0 && |after| == |before| && channel * length + length <= |after|
    requires forall i :: channel * length <= i < channel * length + length - 1 ==> after[i] == before[i + 1]
    requires after[channel * length + length - 1] == value
    requires forall i :: 0 <= i < |after| && !(channel * length <= i < channel * length + length) ==> after[i] == before[i]
    ensures ChannelShifted(before, after, length, channel, value)
  {
    var base := channel * length;
    forall i | 0 <= i < |after|
      ensures i / length == channel <==> base <= i < base + length
      ensures i / length == channel ==> i % length == i - base
    {
      RowOf(i, length, channel);
    }
  }

  /** The register with its first n channels shifted. */
  ghost predicate ShiftedUpTo<F>(before: seq<F>, after: seq<F>, length: nat, row: seq<F>, n: nat)
    requires length > 0 && |before| == |row| * length && n <= |row|
  {
    |after| == |before| &&
    forall i {:trigger after[i]} :: 0 <= i < |after| ==> after[i] == if i / length < n then ShiftIn(before, length, row)[i] else before[i]
  }

  lemma ShiftNextChannel<F>(before: seq<F>, middle: seq<F>, after: seq<F>, length: nat, row: seq<F>, n: nat)
    requires length > 0 && |before| == |row| * length && n < |row| && |after| == |middle|
    requires ShiftedUpTo(before, middle, length, row, n) && ChannelShifted(middle, after, length, n, row[n])
    ensures ShiftedUpTo(before, after, length, row, n + 1)
  {
    hide ShiftIn;
    forall i | 0 <= i < |after|
      ensures after[i] == if i / length < n + 1 then ShiftIn(before, length, row)[i] else before[i]
    {
      ShiftInIndex(before, length, row, i);
      if i / length == n && i % length != length - 1 {
        assert middle[i + 1] == before[i + 1];
      }
    }
  }

  lemma ShiftedAll<F>(before: seq<F>, after: seq<F>, length: nat, row: seq<F>)
    requires length > 0 && |before| == |row| * length && ShiftedUpTo(before, after, length, row, |row|)
    ensures after == ShiftIn(before, length, row)
  {
    forall i | 0 <= i < |after| ensures after[i] == ShiftIn(before, length, row)[i] {
      InTable(i, length, |row|);
    }
  }
}
