/** Inverse-CDF selection over exact probabilities: every random word picks one id, and the words
    that pick an id form one interval whose length is its share of all words, rounded. */
module Categorical {
  import opened Foundation
  import opened Totals

  const WORDS: nat := 0x1_0000_0000

  /** The ids before i, taken together. */
  function Before(p: seq<real>, i: nat): real
    requires i <= |p|
  {
    Total(p[..i])
  }

  lemma BeforeStep(p: seq<real>, i: nat)
    requires i < |p|
    ensures Before(p, i + 1) == Before(p, i) + p[i]
  {
    assert p[..i + 1][..i] == p[..i];
  }

  lemma BeforeAll(p: seq<real>)
    ensures Before(p, |p|) == Total(p)
  {
    assert p[..|p|] == p;
  }

  lemma {:induction false} BeforeGrows(p: seq<real>, i: nat, j: nat)
    requires NotNegative(p) && i <= j <= |p|
    ensures Before(p, i) <= Before(p, j)
    decreases j
  {
    hide Before;
    if i < j {
      BeforeGrows(p, i, j - 1);
      BeforeStep(p, j - 1);
    }
  }

  /** The word falls into the stretch of id i. */
  predicate Picks(p: seq<real>, word: nat, i: nat) {
    i < |p| && Before(p, i) <= word as real / WORDS as real * Total(p) < Before(p, i + 1)
  }

  /** No word picks two ids. */
  lemma PicksOnce(p: seq<real>, word: nat, i: nat, j: nat)
    requires NotNegative(p) && Picks(p, word, i) && Picks(p, word, j)
    ensures i == j
  {
    hide Before;
    if i < j {
      BeforeGrows(p, i + 1, j);
    } else if j < i {
      BeforeGrows(p, j + 1, i);
    }
  }

  lemma UniformRange(word: nat)
    requires word < WORDS
    ensures 0.0 <= word as real / WORDS as real < 1.0
  {
  }

  lemma ThresholdRange(uniform: real, total: real)
    requires 0.0 <= uniform < 1.0 && total > 0.0
    ensures 0.0 <= uniform * total < total
  {
    assert (1.0 - uniform) * total > 0.0;
  }

  /** Adds up the ids until the sum passes the threshold. The source keeps two fallbacks behind this
      scan, the last positive id and an error; below the total mass it always ends inside. */
  method Scan(p: seq<real>, threshold: real) returns (selected: nat)
    requires NotNegative(p) && 0.0 <= threshold < Total(p)
    ensures selected < |p| && p[selected] > 0.0 && Before(p, selected) <= threshold < Before(p, selected + 1)
  {
    hide Before;
    StartsAtZero(p);
    BeforeAll(p);
    var cumulative := 0.0;
    for index := 0 to |p|
      invariant cumulative == Before(p, index) <= threshold
    {
      BeforeStep(p, index);
      cumulative := cumulative + p[index];
      if p[index] > 0.0 && threshold < cumulative {
        return index;
      }
    }
    assert false;
  }

  /** Selects the id whose stretch the word falls into. The failures are exactly a negative
      probability and no mass at all. */
  method CategoricalWord(p: seq<real>, word: nat) returns (status: Status, selected: nat)
    requires word < WORDS && |p| <= UINT32_MAX
    ensures status.Ok? <==> NotNegative(p) && Total(p) > 0.0
    ensures status.Ok? ==> Picks(p, word, selected) && p[selected] > 0.0
  {
    if p == [] {
      return InvalidArgument, 0;
    }
    hide Before;
    var total := 0.0;
    var last := UINT32_MAX;
    StartsAtZero(p);
    for index := 0 to |p|
      invariant total == Before(p, index) && forall i :: 0 <= i < index ==> p[i] >= 0.0
      invariant total >= 0.0 && (last == UINT32_MAX ==> total == 0.0)
    {
      if p[index] < 0.0 {
        return NumericDomain, 0;
      }
      BeforeStep(p, index);
      if p[index] > 0.0 {
        total := total + p[index];
        last := index;
      }
    }
    BeforeAll(p);
    if total <= 0.0 || last == UINT32_MAX {
      return NumericDomain, 0;
    }
    UniformRange(word);
    var uniform := word as real / WORDS as real;
    ThresholdRange(uniform, total);
    selected := Scan(p, uniform * total);
    status := Ok;
  }

  lemma StartsAtZero(p: seq<real>)
    ensures Before(p, 0) == 0.0
  {
  }

  // ----- how many words pick an id -----

  function Ceiling(x: real): int { -((-x).Floor) }

  lemma CeilingIs(x: real, n: int)
    ensures x <= n as real <==> Ceiling(x) <= n
  {
  }

  /** Where the words of id i start and end, as reals. */
  function Start(p: seq<real>, i: nat): real
    requires i <= |p| && Total(p) > 0.0
  {
    Before(p, i) / Total(p) * WORDS as real
  }

  lemma ThresholdAgainst(word: nat, total: real, bound: real)
    requires total > 0.0
    ensures bound <= word as real / WORDS as real * total <==> bound / total * WORDS as real <= word as real
  {
    var u, b, n := word as real / WORDS as real, bound / total, WORDS as real;
    assert u * n == word as real && b * total == bound;
    if b <= u {
      assert (u - b) * total >= 0.0 && (u - b) * n >= 0.0;
    } else {
      assert (b - u) * total > 0.0 && (b - u) * n > 0.0;
    }
  }

  /** The words that pick id i are those from the ceiling of its start to the ceiling of its end. */
  lemma WordsOfId(p: seq<real>, word: nat, i: nat)
    requires NotNegative(p) && Total(p) > 0.0 && i < |p|
    ensures Picks(p, word, i) <==> Ceiling(Start(p, i)) <= word < Ceiling(Start(p, i + 1))
  {
    hide Before, Ceiling;
    ThresholdAgainst(word, Total(p), Before(p, i));
    ThresholdAgainst(word, Total(p), Before(p, i + 1));
    CeilingIs(Start(p, i), word);
    CeilingIs(Start(p, i + 1), word);
  }

  /** All words together: the intervals start at 0, end at 2^32, and each begins where the one
      before it ends; their lengths are the shares, rounded down or up. */
  lemma IntervalLength(p: seq<real>, i: nat)
    requires NotNegative(p) && Total(p) > 0.0 && i < |p|
    ensures Ceiling(Start(p, 0)) == 0 && Ceiling(Start(p, |p|)) == WORDS
    ensures var share := p[i] / Total(p) * WORDS as real;
            share.Floor <= Ceiling(Start(p, i + 1)) - Ceiling(Start(p, i)) <= Ceiling(share)
  {
    hide Before, Ceiling, NotNegative;
    StartsAtZero(p);
    BeforeAll(p);
    BeforeStep(p, i);
    StretchEnds(Total(p), WORDS as real);
    StretchAdds(Before(p, i), p[i], Total(p), WORDS as real);
    WholeCeilings();
    CeilingOfSum(Start(p, i), p[i] / Total(p) * WORDS as real);
  }

  lemma StretchEnds(total: real, n: real)
    requires total > 0.0
    ensures 0.0 / total * n == 0.0 && total / total * n == n
  {
    assert 0.0 / total == 0.0 && total / total == 1.0;
  }

  lemma StretchAdds(a: real, b: real, total: real, n: real)
    requires total > 0.0
    ensures (a + b) / total * n == a / total * n + b / total * n
  {
    SharesAdd(a, b, total);
    assert (a / total + b / total) * n == a / total * n + b / total * n;
  }

  lemma WholeCeilings()
    ensures Ceiling(0.0) == 0 && Ceiling(WORDS as real) == WORDS
  {
  }

  lemma CeilingOfSum(a: real, b: real)
    ensures b.Floor <= Ceiling(a + b) - Ceiling(a) <= Ceiling(b)
  {
  }
}
