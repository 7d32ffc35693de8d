/** When the router keeps the very ids that the engine's stable top k keeps: the exact condition. */
module MoeTies {
  import opened Foundation
  import opened Selection
  import opened MoeSelection

  /** The k-th highest probability. */
  function BoundaryValue(scores: seq<real>, k: nat): real
    requires 0 < k <= |scores|
  {
    TopKIsTopK(scores, |scores|, k);
    scores[TopK(scores, |scores|, k)[k - 1]]
  }

  /** The ids below n that reach a value. */
  ghost function AtLeast(scores: seq<real>, v: real, n: nat): set<nat>
    requires n <= |scores|
  {
    set id: nat | id < n && scores[id] >= v
  }

  /** An expert above the boundary value comes after k experts that reach it. */
  ghost predicate LateWinner(scores: seq<real>, k: nat)
    requires 0 < k <= |scores|
  {
    exists c: nat :: c < |scores| && WinsLate(scores, k, c)
  }

  ghost predicate WinsLate(scores: seq<real>, k: nat, c: nat)
    requires 0 < k <= |scores| && c < |scores|
  {
    scores[c] > BoundaryValue(scores, k) && |AtLeast(scores, BoundaryValue(scores, k), c)| >= k
  }

  /** The router and the stable top k agree on the ids exactly when no winner comes late. */
  lemma SameIdsExactlyWhen(scores: seq<real>, k: nat, ids: seq<nat>)
    requires 0 < k <= |scores| && IsSelection(scores, k, ids)
    ensures ids == TopK(scores, |scores|, k) <==> !LateWinner(scores, k)
  {
    hide LateWinner, WinsLate, TopK, Kept;
    if LateWinner(scores, k) {
      LateWinnerEvicts(scores, k, ids);
    } else {
      SameIdsWithoutLateWinner(scores, k, ids);
    }
  }

  // ----- a late winner evicts an id that the stable top k keeps -----

  lemma LateWinnerEvicts(scores: seq<real>, k: nat, ids: seq<nat>)
    requires 0 < k <= |scores| && IsSelection(scores, k, ids) && LateWinner(scores, k)
    ensures ids != TopK(scores, |scores|, k)
  {
    hide TopK, Kept, WinsLate, BoundaryValue;
    var c: nat :| c < |scores| && WinsLate(scores, k, c);
    var u := FirstAtBoundary(scores, k);
    BoundaryIsKept(scores, k, u);
    FirstIsEarlier(scores, k, c, u);
    WinnerEvicts(scores, k, c, u);
    StaysOut(scores, k, c + 1, |scores|, u);
    assert u in multiset(ids) <==> u in multiset(Kept(scores, k, |scores|));
  }

  /** The lowest id that holds the boundary value. */
  lemma FirstAtBoundary(scores: seq<real>, k: nat) returns (u: nat)
    requires 0 < k <= |scores|
    ensures u < |scores| && scores[u] == BoundaryValue(scores, k)
    ensures forall id :: 0 <= id < u ==> scores[id] != BoundaryValue(scores, k)
  {
    TopKIsTopK(scores, |scores|, k);
    ghost var last := TopK(scores, |scores|, k)[k - 1];
    u := 0;
    while scores[u] != BoundaryValue(scores, k)
      invariant u <= last && forall id :: 0 <= id < u ==> scores[id] != BoundaryValue(scores, k)
      decreases last - u
    {
      u := u + 1;
    }
  }

  lemma BoundaryIsKept(scores: seq<real>, k: nat, u: nat)
    requires 0 < k <= |scores| && u < |scores| && scores[u] == BoundaryValue(scores, k)
    requires forall id :: 0 <= id < u ==> scores[id] != BoundaryValue(scores, k)
    ensures u in TopK(scores, |scores|, k)
  {
    TopKIsTopK(scores, |scores|, k);
    var last := TopK(scores, |scores|, k)[k - 1];
    assert !Better(scores, last, u);
  }

  /** Fewer than k ids exceed the boundary, so one of the k that reach it before a late winner
      holds it. */
  lemma FirstIsEarlier(scores: seq<real>, k: nat, c: nat, u: nat)
    requires 0 < k <= |scores| && c < |scores| && WinsLate(scores, k, c)
    requires forall id :: 0 <= id < u && id < |scores| ==> scores[id] != BoundaryValue(scores, k)
    ensures u < c
  {
    hide TopK;
    TopKIsTopK(scores, |scores|, k);
    var top := TopK(scores, |scores|, k);
    if c <= u {
      RankedElements(scores, top);
      var reached := AtLeast(scores, BoundaryValue(scores, k), c);
      forall id | id in reached ensures id in Elements(top) - {top[k - 1]} {
        assert !Better(scores, top[k - 1], id);
      }
      SubsetSize(reached, Elements(top) - {top[k - 1]});
    }
  }

  /** Of the worst experts kept, the one with the lowest id is evicted. */
  lemma {:induction false} WorstIsLowestId(scores: seq<real>, ids: seq<nat>, n: nat)
    requires 0 < n <= |ids| && forall i :: 0 <= i < |ids| ==> ids[i] < |scores|
    ensures forall i :: 0 <= i < n && scores[ids[i]] == scores[ids[Worst(scores, ids, n)]] ==> ids[Worst(scores, ids, n)] <= ids[i]
  {
    if n > 1 {
      WorstIsLowest(scores, ids, n - 1);
      WorstIsLowestId(scores, ids, n - 1);
    }
  }

  lemma FewReach(scores: seq<real>, n: nat, ids: seq<nat>, i: nat, v: real)
    requires n <= |scores| && IsValueTop(scores, n, ids) && i < |ids| && scores[ids[i]] < v
    ensures |AtLeast(scores, v, n)| < |ids|
  {
    assert AtLeast(scores, v, n) <= Elements(ids) - {ids[i]};
    SubsetSize(AtLeast(scores, v, n), Elements(ids) - {ids[i]});
  }

  /** Once k ids reach a value, so do all that are kept. */
  lemma KeptReach(scores: seq<real>, k: nat, n: nat, v: real)
    requires 0 < k <= n <= |scores| && |AtLeast(scores, v, n)| >= k
    ensures forall i :: 0 <= i < k ==> scores[Kept(scores, k, n)[i]] >= v
  {
    hide Kept, IsValueTop;
    KeptIsValueTop(scores, k, n);
    var ids := Kept(scores, k, n);
    forall i | 0 <= i < k ensures scores[ids[i]] >= v {
      if scores[ids[i]] < v {
        FewReach(scores, n, ids, i, v);
      }
    }
  }

  lemma AtLeastIsFew(scores: seq<real>, v: real, n: nat)
    requires n <= |scores|
    ensures |AtLeast(scores, v, n)| <= n
  {
    SubsetSize(AtLeast(scores, v, n), Below(n));
  }

  lemma WinnerEvicts(scores: seq<real>, k: nat, c: nat, u: nat)
    requires 0 < k <= |scores| && c < |scores| && WinsLate(scores, k, c)
    requires u < |scores| && scores[u] == BoundaryValue(scores, k)
    requires forall id :: 0 <= id < u ==> scores[id] != BoundaryValue(scores, k)
    ensures k <= c && u !in Kept(scores, k, c + 1)
  {
    hide Kept, BoundaryValue, IsValueTop;
    var v := BoundaryValue(scores, k);
    AtLeastIsFew(scores, v, c);
    KeptReach(scores, k, c, v);
    KeptIsValueTop(scores, k, c);
    EvictsLowest(scores, c, Kept(scores, k, c), v, u);
    KeptStep(scores, k, c);
  }

  lemma KeptStep(scores: seq<real>, k: nat, n: nat)
    requires 0 < k <= n < |scores|
    ensures Kept(scores, k, n + 1) == Evict(scores, Kept(scores, k, n), n)
  {
  }

  lemma EvictsLowest(scores: seq<real>, c: nat, ids: seq<nat>, v: real, u: nat)
    requires c < |scores| && ids != [] && IsValueTop(scores, c, ids) && scores[c] > v
    requires forall i :: 0 <= i < |ids| ==> scores[ids[i]] >= v
    requires u < |scores| && scores[u] == v && forall id :: 0 <= id < u ==> scores[id] != v
    ensures u !in Evict(scores, ids, c)
  {
    WorstIsLowest(scores, ids, |ids|);
    WorstIsLowestId(scores, ids, |ids|);
    var worst := Worst(scores, ids, |ids|);
    forall i | 0 <= i < |ids| && ids[i] == u ensures i == worst {
      assert scores[ids[worst]] == v;
      assert ids[worst] == u;
    }
  }

  /** An id is offered once. */
  lemma {:induction false} StaysOut(scores: seq<real>, k: nat, n: nat, m: nat, u: nat)
    requires 0 < k <= n <= m <= |scores| && u < n && u !in Kept(scores, k, n)
    ensures u !in Kept(scores, k, m)
    decreases m
  {
    if n < m {
      StaysOut(scores, k, n, m - 1, u);
      KeptStep(scores, k, m - 1);
    }
  }

  // ----- without one, nothing outside the stable top k stays -----

  lemma SameIdsWithoutLateWinner(scores: seq<real>, k: nat, ids: seq<nat>)
    requires 0 < k <= |scores| && IsSelection(scores, k, ids) && !LateWinner(scores, k)
    ensures ids == TopK(scores, |scores|, k)
  {
    hide TopK, LateWinner, Kept, IsValueTop;
    SameValuesAsStableTopK(scores, k, ids);
    forall i | 0 <= i < k ensures ids[i] in TopK(scores, |scores|, k) {
      assert ids[i] in multiset(ids);
      assert i == k - 1 || Better(scores, ids[i], ids[k - 1]);
      KeptIsInTopK(scores, k, ids[i]);
    }
    SameElementsAsTopK(scores, k, ids);
  }

  lemma KeptIsInTopK(scores: seq<real>, k: nat, x: nat)
    requires 0 < k <= |scores| && !LateWinner(scores, k) && x in Kept(scores, k, |scores|)
    requires x < |scores| && scores[x] >= BoundaryValue(scores, k)
    ensures x in TopK(scores, |scores|, k)
  {
    hide TopK, Kept, BoundaryValue, LateWinner;
    if x !in TopK(scores, |scores|, k) {
      OutsiderIsLate(scores, k, x);
      LateIsRefused(scores, k, x);
    }
  }

  /** An id at the boundary left out by the stable top k comes after k ids that reach the boundary. */
  lemma OutsiderIsLate(scores: seq<real>, k: nat, x: nat)
    requires 0 < k <= |scores| && !LateWinner(scores, k) && x < |scores| && x !in TopK(scores, |scores|, k)
    requires scores[x] >= BoundaryValue(scores, k)
    ensures scores[x] == BoundaryValue(scores, k) && |AtLeast(scores, BoundaryValue(scores, k), x)| >= k
  {
    hide TopK, WinsLate;
    TopKIsTopK(scores, |scores|, k);
    var top := TopK(scores, |scores|, k);
    assert Better(scores, top[k - 1], x);
    var last := LatestId(top);
    if top[last] > x {
      LatestWins(scores, k, x, last);
    } else {
      forall i | 0 <= i < k ensures top[i] < x {
        assert top[i] in top;
      }
      TopReaches(scores, k, x, top);
    }
  }

  lemma LatestId(ids: seq<nat>) returns (last: nat)
    requires ids != []
    ensures last < |ids| && forall i :: 0 <= i < |ids| ==> ids[i] <= ids[last]
  {
    last := 0;
    for n := 1 to |ids|
      invariant last < |ids| && forall i :: 0 <= i < n ==> ids[i] <= ids[last]
    {
      if ids[n] > ids[last] {
        last := n;
      }
    }
  }

  /** k ranked ids below n reach the boundary. */
  lemma TopReaches(scores: seq<real>, k: nat, n: nat, ids: seq<nat>)
    requires 0 < k <= |scores| && n <= |scores| && |ids| == k && Ranked(scores, ids)
    requires forall i :: 0 <= i < k ==> ids[i] < n
    requires scores[ids[k - 1]] >= BoundaryValue(scores, k)
    ensures |AtLeast(scores, BoundaryValue(scores, k), n)| >= k
  {
    hide BoundaryValue;
    var v := BoundaryValue(scores, k);
    forall i | 0 <= i < k ensures scores[ids[i]] >= v {
      assert i == k - 1 || Better(scores, ids[i], ids[k - 1]);
    }
    RankedElements(scores, ids);
    SubsetSize(Elements(ids), AtLeast(scores, v, n));
  }

  /** If the latest id of the top k comes after an outsider at the boundary, it wins late. */
  lemma LatestWins(scores: seq<real>, k: nat, x: nat, last: nat)
    requires 0 < k <= |scores| && x < |scores| && x !in TopK(scores, |scores|, k)
    requires scores[x] == BoundaryValue(scores, k)
    requires IsTopK(scores, |scores|, k, TopK(scores, |scores|, k)) && last < k && x < TopK(scores, |scores|, k)[last]
    requires forall i :: 0 <= i < k ==> TopK(scores, |scores|, k)[i] <= TopK(scores, |scores|, k)[last]
    ensures WinsLate(scores, k, TopK(scores, |scores|, k)[last])
  {
    hide TopK, BoundaryValue, AtLeast;
    var top := TopK(scores, |scores|, k);
    BoundaryOf(scores, k);
    assert Better(scores, top[last], x);
    OthersReach(scores, k, x, top, last, BoundaryValue(scores, k));
  }

  lemma BoundaryOf(scores: seq<real>, k: nat)
    requires 0 < k <= |scores|
    ensures |TopK(scores, |scores|, k)| == k && scores[TopK(scores, |scores|, k)[k - 1]] == BoundaryValue(scores, k)
  {
    TopKIsTopK(scores, |scores|, k);
  }

  /** Below the latest of k ranked ids are the others, and an outsider that comes before it. */
  lemma OthersReach(scores: seq<real>, k: nat, x: nat, ids: seq<nat>, last: nat, v: real)
    requires |ids| == k && Ranked(scores, ids) && x !in ids && last < k && x < ids[last] < |scores| && scores[x] >= v
    requires scores[ids[k - 1]] >= v && forall i :: 0 <= i < k ==> ids[i] <= ids[last]
    ensures |AtLeast(scores, v, ids[last])| >= k
  {
    hide Elements, Ranked;
    RankedElements(scores, ids);
    var others := Elements(ids) - {ids[last]};
    forall id | id in others ensures id in AtLeast(scores, v, ids[last]) {
      var i :| 0 <= i < k && ids[i] == id;
      OtherReaches(scores, k, ids, last, v, i);
    }
    SubsetSize(others + {x}, AtLeast(scores, v, ids[last]));
  }

  lemma OtherReaches(scores: seq<real>, k: nat, ids: seq<nat>, last: nat, v: real, i: nat)
    requires |ids| == k && Ranked(scores, ids) && last < k && ids[last] < |scores| && i < k && ids[i] <= ids[last] && ids[i] != ids[last]
    requires scores[ids[k - 1]] >= v
    ensures ids[i] in AtLeast(scores, v, ids[last])
  {
    assert i == k - 1 || Better(scores, ids[i], ids[k - 1]);
  }

  /** An id at the boundary that comes after k ids that reach it is refused for good. */
  lemma LateIsRefused(scores: seq<real>, k: nat, x: nat)
    requires 0 < k <= |scores| && x < |scores|
    requires scores[x] == BoundaryValue(scores, k) && |AtLeast(scores, BoundaryValue(scores, k), x)| >= k
    ensures x !in Kept(scores, k, |scores|)
  {
    hide Kept, BoundaryValue;
    AtLeastIsFew(scores, BoundaryValue(scores, k), x);
    KeptReach(scores, k, x, BoundaryValue(scores, k));
    KeptStep(scores, k, x);
    var ids := Kept(scores, k, x);
    assert scores[ids[Worst(scores, ids, k)]] >= scores[x];
    StaysOut(scores, k, x + 1, |scores|, x);
  }
}
