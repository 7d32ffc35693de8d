/** The sampler's sort: bottom-up merging between two arrays, every index a 32-bit word that wraps. */
module MergeSort {
  import opened Foundation
  import opened FlatIndex
  import Selection

  const WRAP: nat := 0x1_0000_0000

  /** Ranks before: a lower score, or the same score and a lower id (kq_id_less_ascending). */
  predicate Less(scores: seq<real>, a: nat, b: nat)
    requires a < |scores| && b < |scores|
  {
    scores[a] < scores[b] || (scores[a] == scores[b] && a < b)
  }

  /** The stretch from `left` to `right` holds exactly the ids of that range, in ascending order. */
  ghost predicate SortedRun(scores: seq<real>, ids: seq<nat>, left: nat, right: nat) {
    && left <= right <= |ids| && right <= |scores|
    && (forall i :: left <= i < right ==> left <= ids[i] < right)
    && (forall i, j :: left <= i < j < right ==> Less(scores, ids[i], ids[j]))
  }

  /** All runs of `width` that start before `end` are sorted. */
  ghost predicate RunsBefore(scores: seq<real>, ids: seq<nat>, width: nat, count: nat, end: nat)
    requires width > 0
  {
    forall left: nat {:trigger left % width} :: left < end && left < count && left % width == 0 ==>
      SortedRun(scores, ids, left, Min(left + width, count))
  }

  // ----- what a sorted run is -----

  lemma LessIsTransitive(scores: seq<real>, a: nat, b: nat, c: nat)
    requires a < |scores| && b < |scores| && c < |scores| && Less(scores, a, b) && Less(scores, b, c)
    ensures Less(scores, a, c)
  {
  }

  lemma LessIsTotal(scores: seq<real>, a: nat, b: nat)
    requires a < |scores| && b < |scores| && a != b && !Less(scores, a, b)
    ensures Less(scores, b, a)
  {
  }

  /** Nothing else is sorted: there is one ascending arrangement of the ids below n. */
  lemma {:induction false} SortedIsUnique(scores: seq<real>, a: seq<nat>, b: seq<nat>)
    requires |a| == |b| && SortedRun(scores, a, 0, |a|) && SortedRun(scores, b, 0, |b|)
    ensures a == b
  {
    var i := 0;
    while i < |a|
      invariant i <= |a| && a[..i] == b[..i]
    {
      if a[i] != b[i] {
        if Less(scores, a[i], b[i]) {
          FirstDifference(scores, a, b, i);
        } else {
          LessIsTotal(scores, a[i], b[i]);
          FirstDifference(scores, b, a, i);
        }
      }
      assert a[..i + 1] == a[..i] + [a[i]];
      assert b[..i + 1] == b[..i] + [b[i]];
      i := i + 1;
    }
    assert a == a[..i] && b == b[..i];
  }

  /** Where two arrangements first differ, neither holds the lower id. */
  lemma FirstDifference(scores: seq<real>, a: seq<nat>, b: seq<nat>, i: nat)
    requires |a| == |b| && SortedRun(scores, a, 0, |a|) && SortedRun(scores, b, 0, |b|)
    requires i < |a| && a[..i] == b[..i]
    ensures !Less(scores, a[i], b[i])
  {
    forall j | 0 <= j < i ensures b[j] != a[i] {
      assert b[j] == b[..i][j] == a[..i][j] == a[j];
      assert Less(scores, a[j], a[i]);
    }
    AllPresent(scores, b, a[i]);
    var j :| 0 <= j < |b| && b[j] == a[i];
    assert j == i || Less(scores, b[i], b[j]);
  }

  /** Every id below n is in a sorted run of n. */
  lemma AllPresent(scores: seq<real>, ids: seq<nat>, id: nat)
    requires SortedRun(scores, ids, 0, |ids|) && id < |ids|
    ensures id in ids
  {
    forall i, j | 0 <= i < j < |ids| ensures ids[i] != ids[j] {
      assert Less(scores, ids[i], ids[j]);
    }
    Selection.AllBelowPresent(ids, |ids|);
  }

  // ----- 32-bit indices -----

  lemma {:induction false} Pow2Add(a: nat, b: nat)
    ensures Pow2(a + b) == Pow2(a) * Pow2(b)
  {
    if a > 0 {
      Pow2Add(a - 1, b);
      assert 2 * Pow2(a - 1) * Pow2(b) == 2 * (Pow2(a - 1) * Pow2(b));
    }
  }

  lemma MultipleRoom(left: nat, n: nat, q: nat)
    requires n > 0 && left % n == 0 && left < q * n
    ensures left + n <= q * n
  {
    var m := left / n;
    assert left == m * n;
    MulStep(q, m, n);
    MulStep(m, q, n);
  }

  /** A multiple of 2 * width below 2^32 leaves room for 2 * width, when width is a power of two. */
  lemma AlignedFits(left: nat, width: nat, k: nat)
    requires 0 < width == Pow2(k) && k <= 31 && left < WRAP && left % (2 * width) == 0
    ensures left + 2 * width <= WRAP
  {
    Pow2Add(31 - k, k + 1);
    assert Pow2(k + 1) == 2 * width;
    TwoToThe32();
    hide Pow2;
    MultipleRoom(left, 2 * width, Pow2(31 - k));
  }

  lemma TwoToThe32()
    ensures Pow2(32) == WRAP && Pow2(31) == WRAP / 2
  {
    assert Pow2(8) == 256;
    Pow2Add(8, 8);
    Pow2Add(16, 16);
  }

  lemma {:induction false} Pow2Mono(a: nat, b: nat)
    requires a <= b
    ensures 0 < Pow2(a) <= Pow2(b)
  {
    if a < b {
      Pow2Mono(a, b - 1);
    } else if b > 0 {
      Pow2Mono(a - 1, b - 1);
    }
  }

  // ----- the merge -----

  /** The state of a merge: what has been written is sorted and below everything that is left. */
  ghost predicate Merging(scores: seq<real>, current: seq<nat>, next: seq<nat>, left: nat, middle: nat, right: nat,
                          first: nat, second: nat, output: nat)
  {
    && left <= first <= middle <= second <= right <= |current| && right <= |scores| && right <= |next|
    && output == first + second - middle && left <= output
    && (forall i :: left <= i < output ==> left <= next[i] < right)
    && (forall i, j :: left <= i < j < output ==> Less(scores, next[i], next[j]))
    && (first < middle ==> current[first] < |scores| && forall i :: left <= i < output ==> Less(scores, next[i], current[first]))
    && (second < right ==> current[second] < |scores| && forall i :: left <= i < output ==> Less(scores, next[i], current[second]))
  }

  /** Taking the lower of the two heads keeps the state of the merge. */
  lemma TakeFirst(scores: seq<real>, current: seq<nat>, next: seq<nat>, left: nat, middle: nat, right: nat, first: nat, second: nat, output: nat)
    requires Merging(scores, current, next, left, middle, right, first, second, output) && first < middle
    requires SortedRun(scores, current, left, middle) && SortedRun(scores, current, middle, right)
    requires second < right ==> !Less(scores, current[second], current[first])
    ensures Merging(scores, current, next[output := current[first]], left, middle, right, first + 1, second, output + 1)
  {
    var x := current[first];
    hide Less;
    if second < right {
      LessIsTotal(scores, current[second], x);
      forall i | left <= i < output ensures Less(scores, next[i], current[second]) {
        LessIsTransitive(scores, next[i], x, current[second]);
      }
    }
    if first + 1 < middle {
      forall i | left <= i < output ensures Less(scores, next[i], current[first + 1]) {
        LessIsTransitive(scores, next[i], x, current[first + 1]);
      }
    }
  }

  lemma TakeSecond(scores: seq<real>, current: seq<nat>, next: seq<nat>, left: nat, middle: nat, right: nat, first: nat, second: nat, output: nat)
    requires Merging(scores, current, next, left, middle, right, first, second, output) && second < right
    requires SortedRun(scores, current, left, middle) && SortedRun(scores, current, middle, right)
    requires first < middle ==> Less(scores, current[second], current[first])
    ensures Merging(scores, current, next[output := current[second]], left, middle, right, first, second + 1, output + 1)
  {
    var x := current[second];
    hide Less;
    if first < middle {
      forall i | left <= i < output ensures Less(scores, next[i], current[first]) {
        LessIsTransitive(scores, next[i], x, current[first]);
      }
    }
    if second + 1 < right {
      forall i | left <= i < output ensures Less(scores, next[i], current[second + 1]) {
        LessIsTransitive(scores, next[i], x, current[second + 1]);
      }
    }
  }

  lemma MergeStarts(scores: seq<real>, current: seq<nat>, next: seq<nat>, left: nat, middle: nat, right: nat)
    requires SortedRun(scores, current, left, middle) && SortedRun(scores, current, middle, right) && |next| == |current|
    ensures left <= middle <= right
    ensures Merging(scores, current, next, left, middle, right, left, middle, left)
  {
  }

  lemma MergeEnds(scores: seq<real>, current: seq<nat>, next: seq<nat>, left: nat, middle: nat, right: nat, output: nat)
    requires Merging(scores, current, next, left, middle, right, middle, right, output)
    ensures SortedRun(scores, next, left, right)
  {
    hide Less;
  }

  /** Nothing has been written outside the merged stretch. */
  ghost predicate Outside(before: seq<nat>, after: seq<nat>, left: nat, right: nat) {
    |after| == |before| && forall i :: 0 <= i < |after| && !(left <= i < right) ==> after[i] == before[i]
  }

  /** Merges two adjacent runs into the other array. */
  method MergeRuns(scores: seq<real>, current: array<nat>, next: array<nat>, left: nat, middle: nat, right: nat)
    requires current != next && next.Length == current.Length
    requires SortedRun(scores, current[..], left, middle) && SortedRun(scores, current[..], middle, right)
    modifies next
    ensures SortedRun(scores, next[..], left, right)
    ensures Outside(old(next[..]), next[..], left, right)
  {
    hide Less, Merging, SortedRun;
    MergeStarts(scores, current[..], next[..], left, middle, right);
    var first: nat, second: nat, output: nat := left, middle, left;
    while first < middle && second < right
      invariant first <= middle && second <= right
      invariant Merging(scores, current[..], next[..], left, middle, right, first, second, output)
      invariant Outside(old(next[..]), next[..], left, right)
    {
      HeadsInRange(scores, current[..], next[..], left, middle, right, first, second, output);
      if Less(scores, current[second], current[first]) {
        TakeSecond(scores, current[..], next[..], left, middle, right, first, second, output);
        next[output] := current[second];
        second := second + 1;
      } else {
        TakeFirst(scores, current[..], next[..], left, middle, right, first, second, output);
        next[output] := current[first];
        first := first + 1;
      }
      output := output + 1;
    }
    while first < middle
      invariant first <= middle && second <= right && (first == middle || second == right)
      invariant Merging(scores, current[..], next[..], left, middle, right, first, second, output)
      invariant Outside(old(next[..]), next[..], left, right)
    {
      HeadsInRange(scores, current[..], next[..], left, middle, right, first, second, output);
      TakeFirst(scores, current[..], next[..], left, middle, right, first, second, output);
      next[output] := current[first];
      first := first + 1;
      output := output + 1;
    }
    while second < right
      invariant first == middle && second <= right
      invariant Merging(scores, current[..], next[..], left, middle, right, first, second, output)
      invariant Outside(old(next[..]), next[..], left, right)
    {
      HeadsInRange(scores, current[..], next[..], left, middle, right, first, second, output);
      TakeSecond(scores, current[..], next[..], left, middle, right, first, second, output);
      next[output] := current[second];
      second := second + 1;
      output := output + 1;
    }
    MergeEnds(scores, current[..], next[..], left, middle, right, output);
  }

  lemma HeadsInRange(scores: seq<real>, current: seq<nat>, next: seq<nat>, left: nat, middle: nat, right: nat, first: nat, second: nat, output: nat)
    requires Merging(scores, current, next, left, middle, right, first, second, output)
    ensures left <= first <= middle <= second <= right <= |current| && right <= |scores| && right <= |next|
    ensures first < middle || second < right ==> left <= output < right
    ensures first < middle ==> current[first] < |scores|
    ensures second < right ==> current[second] < |scores|
  {
  }

  // ----- one pass -----

  lemma AlignedStep(left: nat, width: nat)
    requires width > 0 && left % (2 * width) == 0
    ensures left % width == 0 && (left + width) % width == 0 && (left + 2 * width) % (2 * width) == 0
  {
    var n := left / (2 * width);
    assert left == n * (2 * width);
    assert left == (2 * n) * width;
    Divides(2 * n, 0, width);
    assert left + width == (2 * n + 1) * width;
    Divides(2 * n + 1, 0, width);
    assert left + 2 * width == (n + 1) * (2 * width);
    Divides(n + 1, 0, 2 * width);
  }

  /** Between two neighbouring multiples there is no third. */
  lemma NextAligned(left: nat, other: nat, width: nat)
    requires width > 0 && left % width == 0 && other % width == 0 && other < left + width
    ensures other <= left
  {
    assert left == left / width * width && other == other / width * width;
    MulStep(left / width, other / width, width);
    assert (left / width + 1) * width == left + width;
    MulStep(left / width + 1, other / width, width);
  }

  /** A sorted run does not depend on what lies outside it. */
  lemma SameRun(scores: seq<real>, a: seq<nat>, b: seq<nat>, left: nat, right: nat)
    requires SortedRun(scores, a, left, right) && |a| == |b| && a[left..right] == b[left..right]
    ensures SortedRun(scores, b, left, right)
  {
    forall i | left <= i < right ensures a[i] == b[i] {
      assert a[left..right][i - left] == b[left..right][i - left];
    }
  }

  /** One more pair of runs merged: everything before its end is in runs of double width. */
  lemma PassStep(scores: seq<real>, before: seq<nat>, after: seq<nat>, width: nat, count: nat, left: nat, right: nat)
    requires width > 0 && left < count && left % (2 * width) == 0 && right == Min(left + 2 * width, count) && |before| == |after| == count
    requires RunsBefore(scores, before, 2 * width, count, left) && before[..left] == after[..left]
    requires SortedRun(scores, after, left, right)
    ensures RunsBefore(scores, after, 2 * width, count, right)
  {
    hide SortedRun;
    forall other: nat {:trigger other % (2 * width)} | other < right && other < count && other % (2 * width) == 0
      ensures SortedRun(scores, after, other, Min(other + 2 * width, count))
    {
      PassStepAt(scores, before, after, 2 * width, count, left, right, other);
    }
  }

  lemma PassStepAt(scores: seq<real>, before: seq<nat>, after: seq<nat>, n: nat, count: nat, left: nat, right: nat, other: nat)
    requires n > 0 && left < count && left % n == 0 && right == Min(left + n, count) && |before| == |after| == count
    requires RunsBefore(scores, before, n, count, left) && before[..left] == after[..left]
    requires SortedRun(scores, after, left, right) && other < right && other % n == 0
    ensures SortedRun(scores, after, other, Min(other + n, count))
  {
    NextAligned(left, other, n);
    if other < left {
      RunEndsBefore(left, other, n);
      RunAt(scores, before, n, count, left, other);
      hide SortedRun, RunsBefore;
      RunIsPrefix(scores, before, after, other, Min(other + n, count), left);
    }
  }

  lemma RunEndsBefore(left: nat, other: nat, n: nat)
    requires n > 0 && left % n == 0 && other % n == 0 && other < left
    ensures other + n <= left
  {
    assert left == left / n * n && other == other / n * n;
    MulStep(left / n, other / n, n);
    assert other / n < left / n;
    MulStep(other / n, left / n, n);
  }

  lemma RunAt(scores: seq<real>, ids: seq<nat>, n: nat, count: nat, end: nat, left: nat)
    requires n > 0 && left < end && left < count && left % n == 0 && RunsBefore(scores, ids, n, count, end)
    ensures SortedRun(scores, ids, left, Min(left + n, count))
  {
  }

  lemma RunIsPrefix(scores: seq<real>, a: seq<nat>, b: seq<nat>, left: nat, right: nat, end: nat)
    requires SortedRun(scores, a, left, right) && |a| == |b| && right <= end <= |a| && a[..end] == b[..end]
    ensures SortedRun(scores, b, left, right)
  {
    assert a[..end][left..right] == a[left..right] && b[..end][left..right] == b[left..right];
    SameRun(scores, a, b, left, right);
  }

  /** The bounds of the next pair of runs, computed in 32-bit words: the first sum cannot wrap, and
      a wrap of the second is caught. */
  method PairBounds(left: nat, width: nat, ghost k: nat, count: nat) returns (middle: nat, right: nat)
    requires 0 < width == Pow2(k) && k <= 31 && left < count < WRAP && left % (2 * width) == 0
    ensures middle == Min(left + width, count) && right == Min(middle + width, count) == Min(left + 2 * width, count)
  {
    AlignedFits(left, width, k);
    Pow2Mono(k, 31);
    TwoToThe32();
    middle := (left + width) % WRAP;
    if middle > count {
      middle := count;
    }
    right := (middle + width) % WRAP;
    if right < middle || right > count {
      right := count;
    }
  }

  /** Merges all pairs of runs of one width. */
  method MergePass(scores: seq<real>, current: array<nat>, next: array<nat>, width: nat, ghost k: nat, count: nat)
    requires current != next && current.Length == next.Length == count < WRAP && count <= |scores|
    requires 0 < width == Pow2(k) && k <= 31 && RunsBefore(scores, current[..], width, count, count)
    modifies next
    ensures RunsBefore(scores, next[..], 2 * width, count, count)
  {
    hide SortedRun, Less, Pow2, RunsBefore;
    NothingBefore(scores, next[..], 2 * width, count);
    var left := 0;
    while left < count
      invariant left <= count && (left < count ==> left % (2 * width) == 0)
      invariant RunsBefore(scores, next[..], 2 * width, count, left)
    {
      ghost var before := next[..];
      var middle, right := PairBounds(left, width, k, count);
      PairIsSorted(scores, current[..], width, count, left, middle, right);
      MergeRuns(scores, current, next, left, middle, right);
      assert before[..left] == next[..left];
      PassStep(scores, before, next[..], width, count, left, right);
      AlignedStep(left, width);
      left := right;
    }
  }

  lemma NothingBefore(scores: seq<real>, ids: seq<nat>, width: nat, count: nat)
    requires width > 0
    ensures RunsBefore(scores, ids, width, count, 0)
  {
  }

  lemma PairIsSorted(scores: seq<real>, ids: seq<nat>, width: nat, count: nat, left: nat, middle: nat, right: nat)
    requires width > 0 && left < count && left % (2 * width) == 0 && |ids| == count <= |scores|
    requires middle == Min(left + width, count) && right == Min(middle + width, count)
    requires RunsBefore(scores, ids, width, count, count)
    ensures SortedRun(scores, ids, left, middle) && SortedRun(scores, ids, middle, right)
  {
    AlignedStep(left, width);
    hide Less;
    if middle < count {
      assert (left + width) % width == 0;
    }
  }

  lemma SinglesAreSorted(scores: seq<real>, ids: seq<nat>, count: nat)
    requires |ids| == count <= |scores| && forall i :: 0 <= i < count ==> ids[i] == i
    ensures RunsBefore(scores, ids, 1, count, count) && Pow2(0) == 1
  {
  }

  lemma WholeIsSorted(scores: seq<real>, ids: seq<nat>, width: nat, count: nat)
    requires |ids| == count <= |scores| && width >= count && width > 0 && RunsBefore(scores, ids, width, count, count)
    ensures SortedRun(scores, ids, 0, count)
  {
    hide Less;
    assert 0 % width == 0;
  }

  lemma Doubles(width: nat, k: nat, count: nat)
    requires width == Pow2(k) && k <= 31 && width <= count / 2 && count < WRAP
    ensures k + 1 <= 31 && Pow2(k + 1) == 2 * width
  {
    TwoToThe32();
    assert Pow2(k + 1) == 2 * width;
  }

  method CopyIds(from: array<nat>, to: array<nat>)
    requires from != to && from.Length == to.Length
    modifies to
    ensures to[..] == from[..]
  {
    for i := 0 to from.Length
      invariant to[..i] == from[..i]
    {
      to[i] := from[i];
    }
  }

  /** Sorts the ids below `count` by score, lower ids first among equal scores. */
  method SortIds(scores: seq<real>, order: array<nat>, temporary: array<nat>, count: nat)
    requires order != temporary && order.Length == temporary.Length == count <= |scores| && count < WRAP
    modifies order, temporary
    ensures SortedRun(scores, order[..], 0, count)
  {
    for index := 0 to count
      invariant forall i :: 0 <= i < index ==> order[i] == i
    {
      order[index] := index;
    }
    var current, next := order, temporary;
    var width := 1;
    ghost var k, runs := 0, 1;
    SinglesAreSorted(scores, current[..], count);
    hide SortedRun, Less, Pow2, RunsBefore;
    while width < count
      invariant {current, next} == {order, temporary} && current != next
      invariant runs == width == Pow2(k) > 0 && k <= 31
      invariant RunsBefore(scores, current[..], runs, count, count)
      decreases count - width
    {
      MergePass(scores, current, next, width, k, count);
      current, next := next, current;
      runs := 2 * width;
      if width > count / 2 {
        break;
      }
      Doubles(width, k, count);
      width := width * 2;
      k := k + 1;
    }
    WholeIsSorted(scores, current[..], runs, count);
    if current != order {
      CopyIds(current, order);
    }
  }
}
