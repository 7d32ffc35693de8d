/** The four selection algorithms of the engine against one specification of "top k". Scores are
    finite floats, so comparing them is comparing the reals they stand for. */
module Selection {
  import opened Foundation

  /** Ranks before: a higher score, or the same score and a lower id (kq_qsa_better). */
  predicate Better(scores: seq<real>, a: nat, b: nat)
    requires a < |scores| && b < |scores|
  {
    scores[a] > scores[b] || (scores[a] == scores[b] && a < b)
  }

  ghost predicate Ranked(scores: seq<real>, ids: seq<nat>) {
    && (forall i :: 0 <= i < |ids| ==> ids[i] < |scores|)
    && (forall i, j :: 0 <= i < j < |ids| ==> Better(scores, ids[i], ids[j]))
  }

  /** `ids` are the best min(k, n) of the ids below n, best first. */
  ghost predicate IsTopK(scores: seq<real>, n: nat, k: nat, ids: seq<nat>)
    requires n <= |scores|
  {
    && |ids| == Min(k, n)
    && Ranked(scores, ids)
    && (forall i :: 0 <= i < |ids| ==> ids[i] < n)
    && (forall c, i :: 0 <= c < n && c !in ids && 0 <= i < |ids| ==> Better(scores, ids[i], c))
  }

  /** There is only one answer: the ranking is a strict total order. */
  lemma {:induction false} TopKUnique(scores: seq<real>, n: nat, k: nat, a: seq<nat>, b: seq<nat>)
    requires n <= |scores| && IsTopK(scores, n, k, a) && IsTopK(scores, n, k, b)
    ensures a == b
  {
    var i := 0;
    while i < |a|
      invariant i <= |a| && a[..i] == b[..i]
    {
      if a[i] != b[i] {
        if Better(scores, a[i], b[i]) {
          AgreedPrefix(scores, n, k, a, b, i);
        } else {
          AgreedPrefix(scores, n, k, b, a, i);
        }
      }
      assert a[..i + 1] == a[..i] + [a[i]];
      assert b[..i + 1] == b[..i] + [b[i]];
      i := i + 1;
    }
    assert a == a[..i] && b == b[..i];
  }

  /** Where two answers first differ, neither can hold the better id. */
  lemma AgreedPrefix(scores: seq<real>, n: nat, k: nat, a: seq<nat>, b: seq<nat>, i: nat)
    requires n <= |scores| && IsTopK(scores, n, k, a) && IsTopK(scores, n, k, b)
    requires i < |a| && a[..i] == b[..i]
    ensures !Better(scores, a[i], b[i])
  {
    forall j | 0 <= j < i ensures b[j] != a[i] {
      assert b[j] == b[..i][j] == a[..i][j] == a[j];
      assert Better(scores, a[j], a[i]);
    }
    if a[i] in b {
      var j :| 0 <= j < |b| && b[j] == a[i];
      assert j == i || Better(scores, b[i], b[j]);
    } else {
      assert Better(scores, b[i], a[i]);
    }
  }

  // ----- bounded insertion (kq_qsa_select_blocks) -----

  /** The place of candidate `c` in a ranked list: before the first id it beats. */
  function InsertPosition(scores: seq<real>, ids: seq<nat>, c: nat): (p: nat)
    requires c < |scores| && forall i :: 0 <= i < |ids| ==> ids[i] < |scores|
    ensures p <= |ids|
    ensures forall i :: 0 <= i < p ==> !Better(scores, c, ids[i])
    ensures p < |ids| ==> Better(scores, c, ids[p])
  {
    if ids == [] || Better(scores, c, ids[0]) then 0
    else 1 + InsertPosition(scores, ids[1..], c)
  }

  /** One round: `c` goes to its place, and the list keeps at most `k` ids. */
  function Offer(scores: seq<real>, ids: seq<nat>, c: nat, k: nat): (r: seq<nat>)
    requires c < |scores| && forall i :: 0 <= i < |ids| ==> ids[i] < |scores|
    requires |ids| <= k
  {
    var p := InsertPosition(scores, ids, c);
    var longer := ids[..p] + [c] + ids[p..];
    longer[..Min(k, |longer|)]
  }

  /** The top `k` of the ids below `n`. */
  function TopK(scores: seq<real>, n: nat, k: nat): (ids: seq<nat>)
    requires n <= |scores|
    ensures |ids| <= k && forall i :: 0 <= i < |ids| ==> ids[i] < n
  {
    if n == 0 then [] else Offer(scores, TopK(scores, n - 1, k), n - 1, k)
  }

  lemma TopKStep(scores: seq<real>, n: nat, k: nat)
    requires n < |scores|
    ensures TopK(scores, n + 1, k) == Offer(scores, TopK(scores, n, k), n, k)
  {
  }

  lemma {:induction false} TopKIsTopK(scores: seq<real>, n: nat, k: nat)
    requires n <= |scores|
    ensures IsTopK(scores, n, k, TopK(scores, n, k))
  {
    if n > 0 {
      hide IsTopK;
      TopKIsTopK(scores, n - 1, k);
      OfferKeepsTopK(scores, n - 1, k, TopK(scores, n - 1, k));
    }
  }

  /** Whatever passes for the top k is what the function computes. */
  lemma IsTheTopK(scores: seq<real>, n: nat, k: nat, ids: seq<nat>)
    requires n <= |scores| && IsTopK(scores, n, k, ids)
    ensures ids == TopK(scores, n, k)
  {
    TopKIsTopK(scores, n, k);
    TopKUnique(scores, n, k, ids, TopK(scores, n, k));
  }

  /** Offering the next id to the top k of those before it gives the top k with it. */
  lemma OfferKeepsTopK(scores: seq<real>, n: nat, k: nat, ids: seq<nat>)
    requires n < |scores| && IsTopK(scores, n, k, ids)
    ensures IsTopK(scores, n + 1, k, Offer(scores, ids, n, k))
  {
    var p := InsertPosition(scores, ids, n);
    var r := Offer(scores, ids, n, k);
    var longer := ids[..p] + [n] + ids[p..];
    InsertionIsRanked(scores, n, k, ids);
    forall c, i | 0 <= c < n + 1 && c !in r && 0 <= i < |r|
      ensures Better(scores, r[i], c)
    {
      if c == n {
        assert longer[p] == n && r == longer[..|r|];
        assert i < p && !Better(scores, n, ids[i]);
      } else {
        NewcomerBeatsDropped(scores, n, k, ids, c);
        assert r[i] == if i < p then ids[i] else if i == p then n else ids[i - 1];
        DroppedIsWorse(scores, n, k, ids, c, i);
      }
    }
  }

  lemma BetterIsTotal(scores: seq<real>, a: nat, b: nat)
    requires a < |scores| && b < |scores| && a != b && !Better(scores, a, b)
    ensures Better(scores, b, a)
  {
  }

  lemma BetterIsTransitive(scores: seq<real>, a: nat, b: nat, c: nat)
    requires a < |scores| && b < |scores| && c < |scores| && Better(scores, a, b) && Better(scores, b, c)
    ensures Better(scores, a, c)
  {
  }

  /** A new id put at its place in a ranked list leaves the list ranked. */
  lemma InsertionRanked(scores: seq<real>, ids: seq<nat>, c: nat)
    requires Ranked(scores, ids) && c < |scores| && forall i :: 0 <= i < |ids| ==> ids[i] != c
    ensures var p := InsertPosition(scores, ids, c); Ranked(scores, ids[..p] + [c] + ids[p..])
  {
    hide Better;
    var p := InsertPosition(scores, ids, c);
    hide InsertPosition;
    var longer := ids[..p] + [c] + ids[p..];
    forall i, j | 0 <= i < j < |longer|
      ensures Better(scores, longer[i], longer[j])
    {
      if j == p {
        BetterIsTotal(scores, c, ids[i]);
      } else if i == p && p < j - 1 {
        BetterIsTransitive(scores, c, ids[p], ids[j - 1]);
      }
    }
  }

  lemma InsertionIsRanked(scores: seq<real>, n: nat, k: nat, ids: seq<nat>)
    requires n < |scores| && IsTopK(scores, n, k, ids)
    ensures Ranked(scores, Offer(scores, ids, n, k)) && |Offer(scores, ids, n, k)| == Min(k, n + 1)
    ensures forall i :: 0 <= i < |Offer(scores, ids, n, k)| ==> Offer(scores, ids, n, k)[i] < n + 1
  {
    InsertionRanked(scores, ids, n);
  }

  lemma NotFullHoldsAll(scores: seq<real>, n: nat, k: nat, ids: seq<nat>)
    requires n <= |scores| && IsTopK(scores, n, k, ids) && |ids| < k
    ensures forall c :: 0 <= c < n ==> c in ids
  {
    DistinctRanks(scores, ids);
    AllBelowPresent(ids, n);
  }

  /** A list that does not fill up its k places holds every id it was offered. */
  lemma RoomKeepsAll(scores: seq<real>, n: nat, k: nat, ids: seq<nat>)
    requires n < |scores| && IsTopK(scores, n, k, ids) && |ids| < k
    ensures forall c :: 0 <= c < n ==> c in Offer(scores, ids, n, k)
  {
    hide Better, InsertPosition;
    NotFullHoldsAll(scores, n, k, ids);
    hide IsTopK;
    var p := InsertPosition(scores, ids, n);
    var r := Offer(scores, ids, n, k);
    forall c | 0 <= c < n ensures c in r {
      assert c in ids;
      var j :| 0 <= j < |ids| && ids[j] == c;
      assert r[if j < p then j else j + 1] == c;
    }
  }

  /** If an older id is out after the round, the newcomer beats it whenever the newcomer is in. */
  lemma NewcomerBeatsDropped(scores: seq<real>, n: nat, k: nat, ids: seq<nat>, c: nat)
    requires n < |scores| && IsTopK(scores, n, k, ids)
    requires c < n && c !in Offer(scores, ids, n, k)
    ensures InsertPosition(scores, ids, n) < k ==> Better(scores, n, c)
  {
    var p := InsertPosition(scores, ids, n);
    var longer := ids[..p] + [n] + ids[p..];
    var r := Offer(scores, ids, n, k);
    if p < k {
      if p == |ids| {
        RoomKeepsAll(scores, n, k, ids);
      } else if c in ids {
        var j :| 0 <= j < |ids| && ids[j] == c;
        assert forall q :: 0 <= q < p ==> r[q] == longer[q] == ids[q];
        assert j == p || Better(scores, ids[p], ids[j]);
      } else {
        assert Better(scores, ids[p], c);
      }
    }
  }

  /** If an older id is out after the round, every older id still in ranks before it. */
  lemma DroppedIsWorse(scores: seq<real>, n: nat, k: nat, ids: seq<nat>, c: nat, i: nat)
    requires n < |scores| && IsTopK(scores, n, k, ids)
    requires i < |Offer(scores, ids, n, k)| && c < n && c !in Offer(scores, ids, n, k)
    ensures i != InsertPosition(scores, ids, n) ==> Better(scores, Offer(scores, ids, n, k)[i], c)
  {
    var p := InsertPosition(scores, ids, n);
    var longer := ids[..p] + [n] + ids[p..];
    var r := Offer(scores, ids, n, k);
    if i != p {
      var at := if i < p then i else i - 1;
      assert r[i] == ids[at];
      if c in ids {
        var j :| 0 <= j < |ids| && ids[j] == c;
        var moved := if j < p then j else j + 1;
        assert longer[moved] == c && r == longer[..|r|];
        assert |r| <= moved;
        assert at < j;
      }
    }
  }

  /** The naturals below n, as a set. */
  ghost function Below(n: nat): (r: set<nat>)
    ensures |r| == n && forall c: nat :: c in r <==> c < n
  {
    if n == 0 then {} else Below(n - 1) + {n - 1}
  }

  ghost function Elements(ids: seq<nat>): (r: set<nat>)
    ensures |r| <= |ids| && forall c :: c in r <==> c in ids
    ensures (forall i, j :: 0 <= i < j < |ids| ==> ids[i] != ids[j]) ==> |r| == |ids|
  {
    if ids == [] then {} else
      var last := |ids| - 1;
      assert ids == ids[..last] + [ids[last]];
      Elements(ids[..last]) + {ids[last]}
  }

  lemma {:induction false} SubsetSize(a: set<nat>, b: set<nat>)
    requires a <= b
    ensures |a| <= |b|
    ensures |a| == |b| ==> a == b
    decreases a
  {
    if a != {} {
      var x :| x in a;
      SubsetSize(a - {x}, b - {x});
    }
  }

  /** n distinct ids below n are all of them. */
  lemma AllBelowPresent(ids: seq<nat>, n: nat)
    requires |ids| == n && forall i :: 0 <= i < n ==> ids[i] < n
    requires forall i, j :: 0 <= i < j < n ==> ids[i] != ids[j]
    ensures forall c :: 0 <= c < n ==> c in ids
  {
    assert Elements(ids) <= Below(n);
    SubsetSize(Elements(ids), Below(n));
    forall c | 0 <= c < n ensures c in ids {
      assert c in Below(n);
    }
  }

  /** The ids below n that rank before c. */
  ghost function RankingBefore(scores: seq<real>, n: nat, c: nat): set<nat>
    requires c < n <= |scores|
  {
    set b | 0 <= b < n && Better(scores, b, c)
  }

  /** Who is among the top k: exactly the ids that fewer than k others rank before. */
  lemma InTopKExactly(scores: seq<real>, n: nat, k: nat, ids: seq<nat>, c: nat)
    requires n <= |scores| && IsTopK(scores, n, k, ids) && c < n
    ensures c in ids <==> |RankingBefore(scores, n, c)| < k
  {
    var before := RankingBefore(scores, n, c);
    if c in ids {
      var i :| 0 <= i < |ids| && ids[i] == c;
      BeforeAreEarlier(scores, n, k, ids, i);
      SubsetSize(before, Elements(ids[..i]));
    } else {
      NoneLeftOutBelow(scores, n, k, ids, c);
      DistinctRanks(scores, ids);
      assert Elements(ids) <= before;
      SubsetSize(Elements(ids), before);
    }
  }

  lemma DistinctRanks(scores: seq<real>, ids: seq<nat>)
    requires Ranked(scores, ids)
    ensures forall i, j :: 0 <= i < j < |ids| ==> ids[i] != ids[j]
  {
    forall i, j | 0 <= i < j < |ids| ensures ids[i] != ids[j] {
      assert Better(scores, ids[i], ids[j]);
    }
  }

  lemma BeforeAreEarlier(scores: seq<real>, n: nat, k: nat, ids: seq<nat>, i: nat)
    requires n <= |scores| && IsTopK(scores, n, k, ids) && i < |ids|
    ensures RankingBefore(scores, n, ids[i]) <= Elements(ids[..i])
  {
    forall b | b in RankingBefore(scores, n, ids[i]) ensures b in ids[..i] {
      RanksBeforeIsEarlier(scores, n, k, ids, i, b);
    }
  }

  lemma OutRanksBehind(scores: seq<real>, n: nat, k: nat, ids: seq<nat>, i: nat, b: nat)
    requires n <= |scores| && IsTopK(scores, n, k, ids) && i < |ids| && b < n
    ensures b in ids || Better(scores, ids[i], b)
  {
  }

  lemma RanksBeforeIsEarlier(scores: seq<real>, n: nat, k: nat, ids: seq<nat>, i: nat, b: nat)
    requires n <= |scores| && IsTopK(scores, n, k, ids) && i < |ids| && b < n && Better(scores, b, ids[i])
    ensures b in ids[..i]
  {
    OutRanksBehind(scores, n, k, ids, i, b);
    hide IsTopK;
    var j :| 0 <= j < |ids| && ids[j] == b;
    EarlierRanks(scores, n, k, ids, i, j);
    assert ids[..i][j] == b;
  }

  lemma EarlierRanks(scores: seq<real>, n: nat, k: nat, ids: seq<nat>, i: nat, j: nat)
    requires n <= |scores| && IsTopK(scores, n, k, ids) && i < |ids| && j < |ids|
    ensures ids[i] < n && ids[j] < n && (i < j ==> Better(scores, ids[i], ids[j]))
  {
  }

  /** A list that leaves an id out is full. */
  lemma NoneLeftOutBelow(scores: seq<real>, n: nat, k: nat, ids: seq<nat>, c: nat)
    requires n <= |scores| && IsTopK(scores, n, k, ids) && c < n && c !in ids
    ensures |ids| == k
  {
    DistinctRanks(scores, ids);
    if |ids| == n {
      AllBelowPresent(ids, n);
    }
  }

  /** Fewer than n ids leave one out. */
  lemma SomeBelowAbsent(ids: seq<nat>, n: nat)
    requires |ids| < n
    ensures exists c :: 0 <= c < n && c !in ids
  {
    if forall c :: 0 <= c < n ==> c in ids {
      assert Below(n) <= Elements(ids);
      SubsetSize(Below(n), Elements(ids));
    }
  }

  /** The inner loop of the insertion: shifts the tail one place and drops the candidate in. */
  method InsertAt(selected: array<nat>, position: nat, selectedCount: nat, limit: nat, candidate: nat)
    requires position <= selectedCount <= limit && position < limit
    requires Min(limit, selectedCount + 1) <= selected.Length
    modifies selected
    ensures var longer := old(selected[..position]) + [candidate] + old(selected[position..selectedCount]);
            selected[..Min(limit, selectedCount + 1)] == longer[..Min(limit, selectedCount + 1)]
    ensures forall i :: Min(limit, selectedCount + 1) <= i < selected.Length ==> selected[i] == old(selected[i])
  {
    var end := if selectedCount < limit then selectedCount else limit - 1;
    ghost var last := end;
    while end > position
      invariant position <= end <= last
      invariant forall i :: 0 <= i < end ==> selected[i] == old(selected[i])
      invariant forall i :: end < i <= last ==> selected[i] == old(selected[i - 1])
      invariant forall i :: last < i < selected.Length ==> selected[i] == old(selected[i])
    {
      selected[end] := selected[end - 1];
      end := end - 1;
    }
    selected[position] := candidate;
    InsertedIs(old(selected[..]), selected[..], position, selectedCount, last, candidate);
  }

  /** Shifted entry by entry is inserted. */
  lemma InsertedIs(before: seq<nat>, after: seq<nat>, position: nat, count: nat, last: nat, candidate: nat)
    requires |after| == |before| && position <= last < |after| && position <= count && last <= count <= |before|
    requires forall i :: 0 <= i < position ==> after[i] == before[i]
    requires after[position] == candidate
    requires forall i :: position < i <= last ==> after[i] == before[i - 1]
    ensures after[..last + 1] == (before[..position] + [candidate] + before[position..count])[..last + 1]
  {
  }

  /** The scan for the candidate's place. */
  method FindPosition(scores: seq<real>, selected: array<nat>, selectedCount: nat, candidate: nat) returns (position: nat)
    requires candidate < |scores| && selectedCount <= selected.Length && Ranked(scores, selected[..selectedCount])
    ensures position == InsertPosition(scores, selected[..selectedCount], candidate)
  {
    ghost var ids := selected[..selectedCount];
    position := 0;
    while position < selectedCount && !Better(scores, candidate, selected[position])
      invariant position <= selectedCount
      invariant forall i :: 0 <= i < position ==> !Better(scores, candidate, ids[i])
    {
      position := position + 1;
    }
    InsertPositionIs(scores, ids, candidate, position);
  }

  /** Keeps the best `limit` block ids in `selected`, best first, by insertion in place. */
  method SelectBlocks(scores: seq<real>, candidateCount: nat, limit: nat, selected: array<nat>)
    returns (selectedCount: nat)
    requires candidateCount <= |scores| && Min(limit, candidateCount) <= selected.Length
    modifies selected
    ensures selectedCount == Min(limit, candidateCount)
    ensures selected[..selectedCount] == TopK(scores, candidateCount, limit)
    ensures forall i :: selectedCount <= i < selected.Length ==> selected[i] == old(selected[i])
  {
    selectedCount := 0;
    for candidate := 0 to candidateCount
      invariant selectedCount == Min(limit, candidate)
      invariant selected[..selectedCount] == TopK(scores, candidate, limit)
      invariant forall i :: selectedCount <= i < selected.Length ==> selected[i] == old(selected[i])
    {
      selectedCount := Consider(scores, candidate, limit, selected, selectedCount);
    }
  }

  /** One round of the selection. */
  method Consider(scores: seq<real>, candidate: nat, limit: nat, selected: array<nat>, selectedBefore: nat)
    returns (selectedCount: nat)
    requires candidate < |scores| && selectedBefore == Min(limit, candidate)
    requires Min(limit, candidate + 1) <= selected.Length
    requires selected[..selectedBefore] == TopK(scores, candidate, limit)
    modifies selected
    ensures selectedCount == Min(limit, candidate + 1)
    ensures selected[..selectedCount] == TopK(scores, candidate + 1, limit)
    ensures forall i :: selectedCount <= i < selected.Length ==> selected[i] == old(selected[i])
  {
    hide TopK;
    TopKIsTopK(scores, candidate, limit);
    TopKStep(scores, candidate, limit);
    ghost var before := selected[..selectedBefore];
    var position := FindPosition(scores, selected, selectedBefore, candidate);
    selectedCount := selectedBefore;
    if position < limit {
      InsertAt(selected, position, selectedBefore, limit, candidate);
      if selectedBefore < limit {
        selectedCount := selectedBefore + 1;
      }
      assert before[..position] == old(selected[..position]) && before[position..] == old(selected[position..selectedBefore]);
    }
    assert selected[..selectedCount] == Offer(scores, before, candidate, limit);
  }

  /** The scan stops exactly at the insertion position. */
  lemma InsertPositionIs(scores: seq<real>, ids: seq<nat>, c: nat, p: nat)
    requires c < |scores| && Ranked(scores, ids) && p <= |ids|
    requires forall i :: 0 <= i < p ==> !Better(scores, c, ids[i])
    requires p < |ids| ==> Better(scores, c, ids[p])
    ensures p == InsertPosition(scores, ids, c)
  {
    var q := InsertPosition(scores, ids, c);
    assert q < |ids| ==> Better(scores, c, ids[q]);
  }

  // ----- repeated selection (kq_f32_stable_top_k) -----

  /** The best id not yet chosen, found by one scan of all candidates. */
  method BestRemaining(scores: seq<real>, indices: array<nat>, selected: nat) returns (bestIndex: nat, bestValue: real)
    requires selected < |scores| <= UINT32_MAX && selected <= indices.Length
    ensures bestIndex < |scores| && bestIndex !in indices[..selected] && bestValue == scores[bestIndex]
    ensures forall c :: 0 <= c < |scores| && c !in indices[..selected] && c != bestIndex ==> Better(scores, bestIndex, c)
  {
    ghost var chosen := indices[..selected];
    bestIndex, bestValue := UINT32_MAX, 0.0;
    for candidate := 0 to |scores|
      invariant bestIndex == UINT32_MAX || bestIndex < candidate
      invariant bestIndex == UINT32_MAX ==> forall c :: 0 <= c < candidate ==> c in chosen
      invariant bestIndex != UINT32_MAX ==> bestIndex !in chosen && bestValue == scores[bestIndex]
      invariant bestIndex != UINT32_MAX ==>
        forall c :: 0 <= c < candidate && c !in chosen && c != bestIndex ==> Better(scores, bestIndex, c)
    {
      var alreadySelected := false;
      var prior := 0;
      while prior < selected
        invariant prior <= selected && !alreadySelected
        invariant candidate !in chosen[..prior]
      {
        if indices[prior] == candidate {
          assert chosen[prior] == candidate;
          alreadySelected := true;
          break;
        }
        assert chosen[..prior + 1] == chosen[..prior] + [chosen[prior]];
        prior := prior + 1;
      }
      assert chosen[..selected] == chosen;
      if !alreadySelected && (bestIndex == UINT32_MAX || scores[candidate] > bestValue ||
                              (scores[candidate] == bestValue && candidate < bestIndex)) {
        bestIndex := candidate;
        bestValue := scores[candidate];
      }
    }
    SomeBelowAbsent(chosen, |scores|);
  }

  /** Selects the best remaining candidate k times. */
  method StableTopK(scores: seq<real>, k: nat, indices: array<nat>, values: array<real>) returns (status: Status)
    requires |scores| <= UINT32_MAX
    requires k <= indices.Length && k <= values.Length
    modifies indices, values
    ensures status.Ok? <==> 0 < k <= |scores|
    ensures status.Ok? ==> IsTopK(scores, |scores|, k, indices[..k])
    ensures status.Ok? ==> forall i :: 0 <= i < k ==> indices[i] < |scores| && values[i] == scores[indices[i]]
  {
    if k == 0 || k > |scores| {
      return InvalidArgument;
    }
    for selected := 0 to k
      invariant IsTopK(scores, |scores|, selected, indices[..selected])
      invariant forall i :: 0 <= i < selected ==> indices[i] < |scores| && values[i] == scores[indices[i]]
    {
      var bestIndex, bestValue := BestRemaining(scores, indices, selected);
      ghost var chosen := indices[..selected];
      indices[selected] := bestIndex;
      values[selected] := bestValue;
      assert indices[..selected + 1] == chosen + [bestIndex];
    }
    status := Ok;
  }

  // ----- greedy argmax (kq_model_exec_greedy_argmax_f32) -----

  /** Picks the highest logit, the lowest id on ties; `finite` is the isfinite test. */
  method GreedyArgmax(logits: seq<F32>, finite: F32 -> bool, value: F32 -> real)
    returns (status: Status, selected: nat)
    ensures status.Ok? <==> 0 < |logits| <= UINT32_MAX && forall i :: 0 <= i < |logits| ==> finite(logits[i])
    ensures status.Ok? ==> [selected] == TopK(Values(logits, value), |logits|, 1)
  {
    selected := 0;
    if |logits| == 0 || |logits| > UINT32_MAX {
      return InvalidArgument, 0;
    }
    ghost var scores := Values(logits, value);
    for index := 0 to |logits|
      invariant selected < |logits| && (index == 0 ==> selected == 0) && (index > 0 ==> selected < index)
      invariant scores == Values(logits, value)
      invariant forall i :: 0 <= i < index ==> finite(logits[i])
      invariant forall c :: 0 <= c < index && c != selected ==> Better(scores, selected, c)
    {
      if !finite(logits[index]) {
        return NumericDomain, 0;
      }
      assert scores[index] == value(logits[index]) && scores[selected] == value(logits[selected]);
      if index != 0 && value(logits[index]) > value(logits[selected]) {
        ghost var beaten := selected;
        forall c | 0 <= c < index ensures Better(scores, index, c) {
          assert c == beaten || Better(scores, beaten, c);
        }
        selected := index;
      }
    }
    status := Ok;
    assert IsTopK(scores, |logits|, 1, [selected]);
    IsTheTopK(scores, |logits|, 1, [selected]);
  }

  function Values(row: seq<F32>, value: F32 -> real): (r: seq<real>)
    ensures |r| == |row|
    ensures forall i :: 0 <= i < |row| ==> r[i] == value(row[i])
  {
    seq(|row|, i requires 0 <= i < |row| => value(row[i]))
  }
}
