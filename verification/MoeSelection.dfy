/** Expert selection in the router: replace-the-worst followed by an insertion sort, compared with
    the engine's stable top k. */
module MoeSelection {
  import opened Foundation
  import opened Selection

  /** Distinct ids below n such that nothing left out scores more than anything kept. */
  ghost predicate IsValueTop(scores: seq<real>, n: nat, ids: seq<nat>)
    requires n <= |scores|
  {
    && (forall i :: 0 <= i < |ids| ==> ids[i] < n)
    && (forall i, j :: 0 <= i < j < |ids| ==> ids[i] != ids[j])
    && (forall c, i :: 0 <= c < n && c !in ids && 0 <= i < |ids| ==> scores[c] <= scores[ids[i]])
  }

  /** The place of the lowest probability among the first n kept; among equals, of the lowest id. */
  function Worst(scores: seq<real>, ids: seq<nat>, n: nat): (w: nat)
    requires 0 < n <= |ids| && forall i :: 0 <= i < |ids| ==> ids[i] < |scores|
    ensures w < n
  {
    if n == 1 then 0
    else
      var w := Worst(scores, ids, n - 1);
      if scores[ids[n - 1]] < scores[ids[w]] || (scores[ids[n - 1]] == scores[ids[w]] && ids[n - 1] < ids[w])
      then n - 1 else w
  }

  lemma {:induction false} WorstIsLowest(scores: seq<real>, ids: seq<nat>, n: nat)
    requires 0 < n <= |ids| && forall i :: 0 <= i < |ids| ==> ids[i] < |scores|
    ensures forall i :: 0 <= i < n ==> scores[ids[Worst(scores, ids, n)]] <= scores[ids[i]]
  {
    if n > 1 {
      WorstIsLowest(scores, ids, n - 1);
    }
  }

  /** Candidate n evicts the worst id kept if it scores strictly more. */
  function Evict(scores: seq<real>, ids: seq<nat>, n: nat): seq<nat>
    requires n < |scores| && ids != [] && forall i :: 0 <= i < |ids| ==> ids[i] < |scores|
  {
    var worst := Worst(scores, ids, |ids|);
    if scores[n] > scores[ids[worst]] then ids[worst := n] else ids
  }

  /** The ids kept after the first n candidates: the first k, then one eviction attempt each. */
  function Kept(scores: seq<real>, k: nat, n: nat): (ids: seq<nat>)
    requires 0 < k <= n <= |scores|
    ensures |ids| == k && forall i :: 0 <= i < k ==> ids[i] < n
  {
    if n == k then seq(k, i => i) else Evict(scores, Kept(scores, k, n - 1), n - 1)
  }

  /** Nothing evicted scores more than anything kept. */
  lemma {:induction false} KeptIsValueTop(scores: seq<real>, k: nat, n: nat)
    requires 0 < k <= n <= |scores|
    ensures IsValueTop(scores, n, Kept(scores, k, n))
  {
    hide IsValueTop, Evict;
    if n == k {
      FirstIdsAreTop(scores, k, Kept(scores, k, n));
    } else {
      KeptIsValueTop(scores, k, n - 1);
      EvictKeepsTop(scores, n - 1, Kept(scores, k, n - 1));
    }
  }

  lemma EvictKeepsTop(scores: seq<real>, n: nat, ids: seq<nat>)
    requires n < |scores| && ids != [] && IsValueTop(scores, n, ids)
    ensures IsValueTop(scores, n + 1, Evict(scores, ids, n))
  {
    WorstIsLowest(scores, ids, |ids|);
    var worst := Worst(scores, ids, |ids|);
    if scores[n] > scores[ids[worst]] {
      EvictionKeepsTop(scores, n, ids, worst);
    } else {
      RefusalKeepsTop(scores, n, ids, worst);
    }
  }

  lemma FirstIdsAreTop(scores: seq<real>, k: nat, ids: seq<nat>)
    requires k <= |scores| && |ids| == k && forall c :: 0 <= c < k ==> ids[c] == c
    ensures IsValueTop(scores, k, ids)
  {
    forall c | 0 <= c < k ensures c in ids {
      assert ids[c] == c;
    }
  }

  lemma RefusalKeepsTop(scores: seq<real>, n: nat, ids: seq<nat>, worst: nat)
    requires n < |scores| && IsValueTop(scores, n, ids) && worst < |ids|
    requires forall i :: 0 <= i < |ids| ==> scores[ids[worst]] <= scores[ids[i]]
    requires scores[n] <= scores[ids[worst]]
    ensures IsValueTop(scores, n + 1, ids)
  {
    forall c, i | 0 <= c < n + 1 && c !in ids && 0 <= i < |ids|
      ensures scores[c] <= scores[ids[i]]
    {
      if c == n {
        assert scores[n] <= scores[ids[worst]] <= scores[ids[i]];
      }
    }
  }

  method WorstPosition(probabilities: seq<real>, topK: nat, selectedIds: array<nat>) returns (worst: nat)
    requires 0 < topK <= selectedIds.Length
    requires forall i :: 0 <= i < topK ==> selectedIds[i] < |probabilities|
    ensures worst == Worst(probabilities, selectedIds[..topK], topK)
  {
    worst := 0;
    for position := 1 to topK
      invariant worst == Worst(probabilities, selectedIds[..topK], position)
    {
      var candidateId := selectedIds[position];
      var worstId := selectedIds[worst];
      if probabilities[candidateId] < probabilities[worstId] ||
         (probabilities[candidateId] == probabilities[worstId] && candidateId < worstId) {
        worst := position;
      }
    }
  }

  /** First phase of the selection. */
  method CollectBest(probabilities: seq<real>, topK: nat, selectedIds: array<nat>)
    requires 0 < topK <= |probabilities| && topK <= selectedIds.Length
    modifies selectedIds
    ensures selectedIds[..topK] == Kept(probabilities, topK, |probabilities|)
  {
    for index := 0 to topK
      invariant forall i :: 0 <= i < index ==> selectedIds[i] == i
    {
      selectedIds[index] := index;
    }
    for index := topK to |probabilities|
      invariant selectedIds[..topK] == Kept(probabilities, topK, index)
    {
      var worst := WorstPosition(probabilities, topK, selectedIds);
      if probabilities[index] > probabilities[selectedIds[worst]] {
        ghost var before := selectedIds[..topK];
        var newcomer: nat := index;
        selectedIds[worst] := newcomer;
        assert selectedIds[..topK] == before[worst := newcomer];
      }
    }
  }

  lemma EvictionKeepsTop(scores: seq<real>, n: nat, ids: seq<nat>, worst: nat)
    requires n < |scores| && IsValueTop(scores, n, ids) && worst < |ids|
    requires forall i :: 0 <= i < |ids| ==> scores[ids[worst]] <= scores[ids[i]]
    requires scores[n] > scores[ids[worst]]
    ensures IsValueTop(scores, n + 1, ids[worst := n])
  {
    var r := ids[worst := n];
    forall c, i | 0 <= c < n + 1 && c !in r && 0 <= i < |r|
      ensures scores[c] <= scores[r[i]]
    {
      assert r[worst] == n;
      if c in ids {
        var j :| 0 <= j < |ids| && ids[j] == c;
        assert r[j] == c || j == worst;
      } else {
        assert scores[c] <= scores[ids[worst]];
      }
    }
  }

  /** Offering a new id with room for it inserts it, and nothing else changes. */
  lemma OfferToRanked(scores: seq<real>, ids: seq<nat>, c: nat)
    requires Ranked(scores, ids) && c < |scores| && c !in ids
    ensures Ranked(scores, Offer(scores, ids, c, |ids| + 1))
    ensures multiset(Offer(scores, ids, c, |ids| + 1)) == multiset(ids) + multiset{c}
  {
    InsertionRanked(scores, ids, c);
    OfferWithRoom(scores, ids, c);
    hide *;
    MultisetOfInsertion(ids, InsertPosition(scores, ids, c), c);
  }

  lemma MultisetOfInsertion(ids: seq<nat>, p: nat, c: nat)
    requires p <= |ids|
    ensures multiset(ids[..p] + [c] + ids[p..]) == multiset(ids) + multiset{c}
  {
    assert ids == ids[..p] + ids[p..];
  }

  /** The inner loop of the sort: every id that ranks after `value` moves one place right, and
      `value` takes the place this frees. */
  method InsertInOrder(probabilities: seq<real>, selectedIds: array<nat>, index: nat, value: nat, ghost ids: seq<nat>) returns (position: nat)
    requires |ids| == index < selectedIds.Length && value < |probabilities| && ids == selectedIds[..|ids|]
    requires forall i :: 0 <= i < |ids| ==> ids[i] < |probabilities| && ids[i] != value
    modifies selectedIds
    ensures position <= |ids|
    ensures selectedIds[..index + 1] == ids[..position] + [value] + ids[position..]
    ensures forall i :: |ids| < i < selectedIds.Length ==> selectedIds[i] == old(selectedIds[i])
    ensures forall i :: position <= i < |ids| ==> Better(probabilities, value, ids[i])
    ensures position > 0 ==> Better(probabilities, ids[position - 1], value)
  {
    hide Better;
    position := index;
    while position > 0
      invariant position <= |ids|
      invariant forall i :: 0 <= i < position ==> selectedIds[i] == ids[i]
      invariant forall i :: position < i <= |ids| ==> selectedIds[i] == ids[i - 1]
      invariant forall i :: |ids| < i < selectedIds.Length ==> selectedIds[i] == old(selectedIds[i])
      invariant forall i :: position <= i < |ids| ==> Better(probabilities, value, ids[i])
    {
      var previous := selectedIds[position - 1];
      if Better(probabilities, previous, value) {
        break;
      }
      BetterIsTotal(probabilities, previous, value);
      selectedIds[position] := previous;
      position := position - 1;
    }
    selectedIds[position] := value;
  }

  /** One round of the sort: the id at `index` goes left to its place. */
  method Settle(probabilities: seq<real>, selectedIds: array<nat>, index: nat)
    requires index < selectedIds.Length && selectedIds[index] < |probabilities|
    requires Ranked(probabilities, selectedIds[..index]) && selectedIds[index] !in selectedIds[..index]
    modifies selectedIds
    ensures selectedIds[..index + 1] == Offer(probabilities, old(selectedIds[..index]), old(selectedIds[index]), index + 1)
    ensures forall i :: index < i < selectedIds.Length ==> selectedIds[i] == old(selectedIds[i])
  {
    ghost var ids := selectedIds[..index];
    var value := selectedIds[index];
    assert forall i :: 0 <= i < |ids| ==> ids[i] < |probabilities| && ids[i] != value;
    hide *;
    var position := InsertInOrder(probabilities, selectedIds, index, value, ids);
    StopIsInsertPosition(probabilities, ids, value, position);
    OfferWithRoom(probabilities, ids, value);
  }

  lemma OfferWithRoom(scores: seq<real>, ids: seq<nat>, c: nat)
    requires c < |scores| && forall i :: 0 <= i < |ids| ==> ids[i] < |scores|
    ensures var p := InsertPosition(scores, ids, c); Offer(scores, ids, c, |ids| + 1) == ids[..p] + [c] + ids[p..]
  {
  }

  lemma StopIsInsertPosition(scores: seq<real>, ids: seq<nat>, c: nat, p: nat)
    requires c < |scores| && Ranked(scores, ids) && p <= |ids|
    requires forall i :: p <= i < |ids| ==> Better(scores, c, ids[i])
    requires p > 0 ==> Better(scores, ids[p - 1], c)
    ensures p == InsertPosition(scores, ids, c)
  {
    forall i | 0 <= i < p ensures !Better(scores, c, ids[i]) {
      assert i == p - 1 || Better(scores, ids[i], ids[p - 1]);
    }
    InsertPositionIs(scores, ids, c, p);
  }

  /** `ids` holds the elements of `kept`, the first `index` of them in rank order. */
  ghost predicate SortedUpTo(scores: seq<real>, kept: seq<nat>, ids: seq<nat>, index: nat) {
    && |ids| == |kept| && index <= |ids|
    && Ranked(scores, ids[..index])
    && multiset(ids[..index]) == multiset(kept[..index])
    && ids[index..] == kept[index..]
  }

  lemma SettleExtendsSorted(scores: seq<real>, kept: seq<nat>, ids: seq<nat>, after: seq<nat>, index: nat)
    requires SortedUpTo(scores, kept, ids, index) && index < |kept| && IsValueTop(scores, |scores|, kept)
    requires |after| == |ids| && after[index + 1..] == ids[index + 1..]
    requires after[..index + 1] == Offer(scores, ids[..index], ids[index], index + 1)
    ensures SortedUpTo(scores, kept, after, index + 1)
  {
    assert ids[index] == ids[index..][0] == kept[index];
    NewToPrefix(kept, ids[..index], index);
    OfferToRanked(scores, ids[..index], kept[index]);
    assert kept[..index + 1] == kept[..index] + [kept[index]];
    assert ids[index + 1..] == ids[index..][1..];
    assert kept[index + 1..] == kept[index..][1..];
  }

  lemma NewToPrefix(kept: seq<nat>, sorted: seq<nat>, index: nat)
    requires index < |kept| && multiset(sorted) == multiset(kept[..index])
    requires forall i, j :: 0 <= i < j < |kept| ==> kept[i] != kept[j]
    ensures kept[index] !in sorted
  {
    assert kept[index] !in kept[..index];
    assert kept[index] !in multiset(kept[..index]);
    assert forall c :: c in sorted <==> c in multiset(sorted);
  }

  /** Second phase: the kept ids, put in rank order. */
  method SortSelected(probabilities: seq<real>, topK: nat, selectedIds: array<nat>)
    requires 0 < topK <= selectedIds.Length && IsValueTop(probabilities, |probabilities|, selectedIds[..topK])
    modifies selectedIds
    ensures SortedUpTo(probabilities, old(selectedIds[..topK]), selectedIds[..topK], topK)
  {
    ghost var kept := selectedIds[..topK];
    RankedSingleton(probabilities, kept);
    for index := 1 to topK
      invariant SortedUpTo(probabilities, kept, selectedIds[..topK], index)
    {
      SettleNext(probabilities, topK, selectedIds, index, kept);
    }
  }

  lemma RankedSingleton(scores: seq<real>, kept: seq<nat>)
    requires |kept| > 0 && kept[0] < |scores|
    ensures SortedUpTo(scores, kept, kept, 1)
  {
  }

  method SettleNext(probabilities: seq<real>, topK: nat, selectedIds: array<nat>, index: nat, ghost kept: seq<nat>)
    requires index < topK <= selectedIds.Length && IsValueTop(probabilities, |probabilities|, kept)
    requires SortedUpTo(probabilities, kept, selectedIds[..topK], index)
    modifies selectedIds
    ensures SortedUpTo(probabilities, kept, selectedIds[..topK], index + 1)
  {
    ghost var ids := selectedIds[..topK];
    assert ids[..index] == selectedIds[..index];
    assert ids[index] == ids[index..][0] == kept[index];
    NewToPrefix(kept, ids[..index], index);
    Settle(probabilities, selectedIds, index);
    assert selectedIds[..topK][..index + 1] == selectedIds[..index + 1];
    SettleExtendsSorted(probabilities, kept, ids, selectedIds[..topK], index);
  }

  /** The whole selection: the kept ids hold the k highest probabilities, in rank order. */
  method SelectTopK(probabilities: seq<real>, topK: nat, selectedIds: array<nat>)
    requires 0 < topK <= |probabilities| && topK <= selectedIds.Length
    modifies selectedIds
    ensures IsSelection(probabilities, topK, selectedIds[..topK])
  {
    CollectBest(probabilities, topK, selectedIds);
    KeptIsValueTop(probabilities, topK, |probabilities|);
    SortSelected(probabilities, topK, selectedIds);
    ghost var ids, kept := selectedIds[..topK], Kept(probabilities, topK, |probabilities|);
    assert ids[..topK] == ids && kept[..topK] == kept;
  }

  /** The router's answer: the kept ids in rank order. */
  ghost predicate IsSelection(scores: seq<real>, k: nat, ids: seq<nat>)
    requires 0 < k <= |scores|
  {
    Ranked(scores, ids) && multiset(ids) == multiset(Kept(scores, k, |scores|))
  }

  lemma SelectionIsValueTop(scores: seq<real>, k: nat, ids: seq<nat>)
    requires 0 < k <= |scores| && IsSelection(scores, k, ids)
    ensures |ids| == k && IsValueTop(scores, |scores|, ids)
  {
    var kept := Kept(scores, k, |scores|);
    assert |ids| == |multiset(ids)| == |multiset(kept)| == |kept|;
    KeptIsValueTop(scores, k, |scores|);
    RankedKeepsTop(scores, kept, ids);
  }

  lemma RankedKeepsTop(scores: seq<real>, kept: seq<nat>, ids: seq<nat>)
    requires IsValueTop(scores, |scores|, kept) && Ranked(scores, ids) && multiset(ids) == multiset(kept)
    ensures IsValueTop(scores, |scores|, ids)
  {
    assert forall c :: c in ids <==> c in multiset(ids);
    assert forall c :: c in kept <==> c in multiset(kept);
    forall i, j | 0 <= i < j < |ids| ensures ids[i] != ids[j] {
      assert Better(scores, ids[i], ids[j]);
    }
    forall c, i | 0 <= c < |scores| && c !in ids && 0 <= i < |ids|
      ensures scores[c] <= scores[ids[i]]
    {
      assert ids[i] in kept;
    }
  }

  // ----- the comparison with the stable top k -----

  /** Ids that score more than rank i of `b` all sit among the first i of `b`. */
  lemma HigherIdsAreEarlier(scores: seq<real>, b: seq<nat>, i: nat, c: nat)
    requires IsValueTop(scores, |scores|, b) && Ranked(scores, b)
    requires i < |b| && c < |scores| && scores[c] > scores[b[i]]
    ensures c in b[..i]
  {
    assert c in b;
    var q :| 0 <= q < |b| && b[q] == c;
    assert q < i by {
      assert i < q ==> Better(scores, b[i], b[q]);
    }
    assert b[..i][q] == c;
  }

  /** The i-th value of one answer is at most the i-th value of any other: otherwise the first
      i + 1 ids of `a` would all have to sit among the first i of `b`. */
  lemma {:induction false} RankValueAtMost(scores: seq<real>, a: seq<nat>, b: seq<nat>, i: nat)
    requires IsValueTop(scores, |scores|, a) && Ranked(scores, a)
    requires IsValueTop(scores, |scores|, b) && Ranked(scores, b)
    requires |a| == |b| && i < |a|
    ensures scores[a[i]] <= scores[b[i]]
  {
    var head := a[..i + 1];
    RankedElements(scores, head);
    if forall j :: 0 <= j < |head| ==> head[j] in b[..i] {
      assert Elements(head) <= Elements(b[..i]);
      SubsetSize(Elements(head), Elements(b[..i]));
    } else {
      var j :| 0 <= j < |head| && head[j] !in b[..i];
      assert head[j] == a[j] && (j == i || Better(scores, a[j], a[i]));
      if scores[a[j]] > scores[b[i]] {
        HigherIdsAreEarlier(scores, b, i, a[j]);
      }
    }
  }

  lemma RankedElements(scores: seq<real>, ids: seq<nat>)
    requires Ranked(scores, ids)
    ensures |Elements(ids)| == |ids|
  {
    forall i, j | 0 <= i < j < |ids| ensures ids[i] != ids[j] {
      assert Better(scores, ids[i], ids[j]);
    }
  }

  lemma TopKIsValueTop(scores: seq<real>, k: nat)
    ensures IsValueTop(scores, |scores|, TopK(scores, |scores|, k))
  {
    var top := TopK(scores, |scores|, k);
    TopKIsTopK(scores, |scores|, k);
    forall i, j | 0 <= i < j < |top| ensures top[i] != top[j] {
      assert Better(scores, top[i], top[j]);
    }
    forall c, i | 0 <= c < |scores| && c !in top && 0 <= i < |top|
      ensures scores[c] <= scores[top[i]]
    {
      assert Better(scores, top[i], c);
    }
  }

  /** The router and the stable top k pick the same probabilities in the same order, whatever
      the ties. */
  lemma SameValuesAsStableTopK(scores: seq<real>, k: nat, ids: seq<nat>)
    requires 0 < k <= |scores| && IsSelection(scores, k, ids)
    ensures |ids| == k == |TopK(scores, |scores|, k)|
    ensures forall i :: 0 <= i < k ==> scores[ids[i]] == scores[TopK(scores, |scores|, k)[i]]
  {
    var top := TopK(scores, |scores|, k);
    TopKIsTopK(scores, |scores|, k);
    SelectionIsValueTop(scores, k, ids);
    TopKIsValueTop(scores, k);
    forall i | 0 <= i < k ensures scores[ids[i]] == scores[top[i]] {
      RankValueAtMost(scores, ids, top, i);
      RankValueAtMost(scores, top, ids, i);
    }
  }

  /** The value at the boundary is shared by an id inside and an id outside. */
  ghost predicate BoundaryTied(scores: seq<real>, k: nat)
    requires 0 < k <= |scores|
  {
    var top := TopK(scores, |scores|, k);
    |top| == k && exists c :: 0 <= c < |scores| && c !in top && scores[c] == scores[top[k - 1]]
  }

  lemma UntiedIdIsKept(scores: seq<real>, k: nat, id: nat)
    requires 0 < k <= |scores| && |TopK(scores, |scores|, k)| == k && !BoundaryTied(scores, k)
    requires id < |scores| && scores[id] >= scores[TopK(scores, |scores|, k)[k - 1]]
    ensures id in TopK(scores, |scores|, k)
  {
    TopKIsTopK(scores, |scores|, k);
    var top := TopK(scores, |scores|, k);
    assert id !in top ==> Better(scores, top[k - 1], id);
  }

  /** Unless the last value kept is tied with one left out, the ids agree as well. */
  lemma SameIdsAsStableTopK(scores: seq<real>, k: nat, ids: seq<nat>)
    requires 0 < k <= |scores| && IsSelection(scores, k, ids) && !BoundaryTied(scores, k)
    ensures ids == TopK(scores, |scores|, k)
  {
    hide TopK, BoundaryTied;
    SameValuesAsStableTopK(scores, k, ids);
    forall i | 0 <= i < k ensures ids[i] in TopK(scores, |scores|, k) {
      assert i == k - 1 || Better(scores, ids[i], ids[k - 1]);
      UntiedIdIsKept(scores, k, ids[i]);
    }
    SameElementsAsTopK(scores, k, ids);
  }

  /** A ranked list of k ids, all of them in the top k, is the top k. */
  lemma SameElementsAsTopK(scores: seq<real>, k: nat, ids: seq<nat>)
    requires k <= |scores| && |ids| == k && Ranked(scores, ids)
    requires forall i :: 0 <= i < k ==> ids[i] in TopK(scores, |scores|, k)
    ensures ids == TopK(scores, |scores|, k)
  {
    var top := TopK(scores, |scores|, k);
    TopKIsTopK(scores, |scores|, k);
    assert Elements(ids) <= Elements(top);
    RankedElements(scores, ids);
    RankedElements(scores, top);
    SubsetSize(Elements(ids), Elements(top));
    forall c, i | 0 <= c < |scores| && c !in ids && 0 <= i < k ensures Better(scores, ids[i], c) {
      assert c !in Elements(ids) && c !in top;
      assert ids[i] in top;
    }
    IsTheTopK(scores, |scores|, k, ids);
  }

  /** With a tie across the boundary the two can differ: of two equal experts the router evicts
      the lower id, the stable top k keeps it. */
  lemma TiedBoundaryDiffers()
    ensures IsSelection([1.0, 1.0, 2.0], 2, [2, 1])
    ensures TopK([1.0, 1.0, 2.0], 3, 2) == [2, 0]
    ensures BoundaryTied([1.0, 1.0, 2.0], 2)
  {
    RouterKeepsHigherId();
    StableKeepsLowerId();
    assert 1 !in TopK([1.0, 1.0, 2.0], 3, 2);
  }

  lemma RouterKeepsHigherId()
    ensures Kept([1.0, 1.0, 2.0], 2, 3) == [2, 1]
  {
    var scores := [1.0, 1.0, 2.0];
    var first := Kept(scores, 2, 2);
    assert first == [0, 1];
    assert Worst(scores, first, 1) == 0;
    assert Worst(scores, first, 2) == 0;
  }

  lemma StableKeepsLowerId()
    ensures TopK([1.0, 1.0, 2.0], 3, 2) == [2, 0]
  {
    var scores := [1.0, 1.0, 2.0];
    assert Better(scores, 2, 0) && Better(scores, 0, 1) && Better(scores, 2, 1);
    assert IsTopK(scores, 3, 2, [2, 0]);
    IsTheTopK(scores, 3, 2, [2, 0]);
  }
}
