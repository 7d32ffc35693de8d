/** Stretches of a block of scratch memory, carved off one behind the other by a moving cursor. */
module Regions {
  import opened Foundation

  datatype Region = Region(start: nat, size: nat) {
    function End(): nat { start + size }
  }

  /** A product behind a name, for proofs that hide it. */
  function Times(a: nat, b: nat): nat { a * b }

  // ----- sums -----

  function Sum(sizes: seq<nat>): nat {
    if sizes == [] then 0 else Sum(sizes[..|sizes| - 1]) + sizes[|sizes| - 1]
  }

  lemma {:induction false} SumAppend(a: seq<nat>, b: seq<nat>)
    ensures Sum(a + b) == Sum(a) + Sum(b)
  {
    if b == [] {
      assert a + b == a;
    } else {
      var last := |b| - 1;
      SumAppend(a, b[..last]);
      assert (a + b)[..|a + b| - 1] == a + b[..last];
    }
  }

  lemma SumOne(a: nat)
    ensures Sum([a]) == a
  {
    assert [a] == [] + [a];
  }

  lemma SumTwo(a: nat, b: nat)
    ensures Sum([a, b]) == a + b
  {
    SumOne(a);
    SumOne(b);
    SumAppend([a], [b]);
    assert [a, b] == [a] + [b];
  }

  lemma SumThree(a: nat, b: nat, c: nat)
    ensures Sum([a, b, c]) == a + b + c
  {
    SumTwo(a, b);
    SumOne(c);
    SumAppend([a, b], [c]);
    assert [a, b, c] == [a, b] + [c];
  }

  lemma SumFive(a: nat, b: nat, c: nat, d: nat, e: nat)
    ensures Sum([a, b, c, d, e]) == a + b + c + d + e
  {
    SumThree(a, b, c);
    SumTwo(d, e);
    SumAppend([a, b, c], [d, e]);
    assert [a, b, c, d, e] == [a, b, c] + [d, e];
  }

  lemma SumPrefix(counts: seq<nat>, n: nat)
    requires n <= |counts|
    ensures Sum(counts[..n]) <= Sum(counts)
  {
    SumAppend(counts[..n], counts[n..]);
    assert counts[..n] + counts[n..] == counts;
  }

  /** Counts of four-byte values as sizes in bytes. */
  function Words(counts: seq<nat>): (r: seq<nat>)
    ensures |r| == |counts| && forall i :: 0 <= i < |r| ==> r[i] == counts[i] * 4
  {
    seq(|counts|, i requires 0 <= i < |counts| => counts[i] * 4)
  }

  lemma {:induction false} SumWords(counts: seq<nat>)
    ensures Sum(Words(counts)) == 4 * Sum(counts)
  {
    if counts != [] {
      var last := |counts| - 1;
      SumWords(counts[..last]);
      assert Words(counts)[..last] == Words(counts[..last]);
    }
  }

  /** The total of a list of counts, refused when it leaves the 64-bit range on the way. */
  method Accumulate(counts: seq<nat>) returns (fits: bool, total: nat)
    ensures fits <==> Sum(counts) <= UINT64_MAX
    ensures fits ==> total == Sum(counts)
  {
    total := 0;
    for i := 0 to |counts|
      invariant total == Sum(counts[..i]) <= UINT64_MAX
    {
      assert counts[..i + 1][..i] == counts[..i];
      if counts[i] > UINT64_MAX - total {
        SumPrefix(counts, i + 1);
        return false, total;
      }
      total := total + counts[i];
    }
    assert counts[..|counts|] == counts;
    fits := true;
  }

  // ----- regions -----

  /** The regions that a cursor starting at `base` hands out. */
  function Carved(sizes: seq<nat>, base: nat): (r: seq<Region>)
    ensures |r| == |sizes|
  {
    if sizes == [] then []
    else
      var last := |sizes| - 1;
      Carved(sizes[..last], base) + [Region(base + Sum(sizes[..last]), sizes[last])]
  }

  ghost predicate Inside(regions: seq<Region>, from: nat, end: nat) {
    forall i :: 0 <= i < |regions| ==> from <= regions[i].start && regions[i].End() <= end
  }

  /** No byte is in two of the regions. */
  ghost predicate Apart(regions: seq<Region>) {
    forall i, j :: 0 <= i < j < |regions| ==> regions[i].End() <= regions[j].start || regions[j].End() <= regions[i].start
  }

  lemma {:induction false} CarvedIsSafe(sizes: seq<nat>, base: nat)
    ensures Inside(Carved(sizes, base), base, base + Sum(sizes)) && Apart(Carved(sizes, base))
    ensures forall i :: 0 <= i < |sizes| ==> Carved(sizes, base)[i].size == sizes[i]
  {
    if sizes != [] {
      CarvedIsSafe(sizes[..|sizes| - 1], base);
    }
  }

  /** Regions on both sides of a boundary. */
  lemma JoinedAreSafe(a: seq<Region>, b: seq<Region>, from: nat, middle: nat, end: nat)
    requires from <= middle <= end && Inside(a, from, middle) && Inside(b, middle, end) && Apart(a) && Apart(b)
    ensures Inside(a + b, from, end) && Apart(a + b)
  {
  }

  /** The take function of the engine, once for every buffer. */
  method Carve(base: nat, sizes: seq<nat>) returns (regions: seq<Region>, cursor: nat)
    ensures regions == Carved(sizes, base) && cursor == base + Sum(sizes)
  {
    regions, cursor := [], base;
    for i := 0 to |sizes|
      invariant regions == Carved(sizes[..i], base) && cursor == base + Sum(sizes[..i])
    {
      assert sizes[..i + 1][..i] == sizes[..i];
      regions := regions + [Region(cursor, sizes[i])];
      cursor := cursor + sizes[i];
    }
    assert sizes[..|sizes|] == sizes;
  }
}
