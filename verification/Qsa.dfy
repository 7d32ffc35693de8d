/** Sparse attention over blocks: every token scores the complete blocks so far, keeps the best, and
    attends to them and to the incomplete tail. Rows already committed come from the caches, rows
    of the running call from pending buffers. */
module Qsa {
  import opened Foundation
  import opened Streaming
  import opened FlatIndex
  import opened Selection

  datatype QsaConfig = QsaConfig(kvWidth: nat, rawWidth: nat, blockSize: nat, tokenBudget: nat) {
    function BlockTopK(): nat
      requires blockSize > 0
    {
      tokenBudget / blockSize
    }

    function SelectedCapacity(): nat
      requires blockSize > 0
    {
      tokenBudget + blockSize - 1
    }

    /** The complete blocks among the positions up to this one. */
    function Complete(position: nat): nat
      requires blockSize > 0
    {
      (position + 1) / blockSize
    }

    /** The positions after the last complete block. */
    function Tail(position: nat): nat
      requires blockSize > 0
    {
      (position + 1) % blockSize
    }

    /** What the dimension check demands of the block geometry. */
    predicate Valid() {
      && blockSize > 0 && tokenBudget > 0 && tokenBudget % blockSize == 0
      && tokenBudget <= UINT32_MAX - (blockSize - 1)
    }
  }

  /** The projections of one token: query with gate, key, value, index query and raw index key. */
  datatype QsaProjected = QsaProjected(query: Row, key: Row, value: Row, indexQuery: Row, raw: Row)

  datatype QsaKernels = QsaKernels(
    finite: F32 -> bool,
    project: (Row, nat) -> Option<QsaProjected>,
    blockScore: (Row, seq<Row>, nat) -> Option<real>,
    attend: (Row, seq<Row>, seq<Row>) -> Option<Row>)

  /** The caches as far as they are filled: `length` rows each, stored flat. */
  datatype QsaView = QsaView(length: nat, keys: Row, values: Row, raw: Row)

  const FRESH_QSA: QsaView := QsaView(0, [], [], [])

  predicate QsaShaped(c: QsaConfig, view: QsaView) {
    |view.keys| == |view.values| == Cells(view.length, c.kvWidth) && |view.raw| == Cells(view.length, c.rawWidth)
  }

  function RowAt(flat: Row, width: nat, token: nat): (r: Row)
    requires Cells(token + 1, width) <= |flat|
    ensures |r| == width
  {
    flat[Cells(token, width)..Cells(token + 1, width)]
  }

  // ----- scoring, selecting, gathering -----

  function BlockTokens(size: nat, block: nat): (r: seq<nat>)
    ensures |r| == size && forall o :: 0 <= o < |r| ==> r[o] == block * size + o
  {
    seq(size, o => block * size + o)
  }

  function GatherBlocks(size: nat, blocks: seq<nat>): (r: seq<nat>)
    ensures |r| == |blocks| * size
  {
    if blocks == [] then []
    else
      MulStep(|blocks| - 1, |blocks|, size);
      GatherBlocks(size, blocks[..|blocks| - 1]) + BlockTokens(size, blocks[|blocks| - 1])
  }

  function TailTokens(size: nat, complete: nat, tail: nat): (r: seq<nat>)
    ensures |r| == tail && forall i :: 0 <= i < tail ==> r[i] == complete * size + i
  {
    seq(tail, i => complete * size + i)
  }

  /** The positions attended to: the selected blocks in rank order, then the whole tail. */
  function Gather(size: nat, blocks: seq<nat>, complete: nat, tail: nat): (r: seq<nat>)
    ensures |r| == |blocks| * size + tail
  {
    GatherBlocks(size, blocks) + TailTokens(size, complete, tail)
  }

  predicate InCache(flat: Row, width: nat, tokens: seq<nat>) {
    forall i :: 0 <= i < |tokens| ==> Cells(tokens[i] + 1, width) <= |flat|
  }

  function RowsAt(flat: Row, width: nat, tokens: seq<nat>): (r: seq<Row>)
    requires InCache(flat, width, tokens)
    ensures |r| == |tokens|
  {
    seq(|tokens|, i requires 0 <= i < |tokens| => RowAt(flat, width, tokens[i]))
  }

  /** The score of a block against the raw index keys; a block that is not complete has none. */
  function BlockScoreOf(c: QsaConfig, k: QsaKernels, indexQuery: Row, raw: Row): nat -> Option<real> {
    (block: nat) =>
      var tokens := BlockTokens(c.blockSize, block);
      if !InCache(raw, c.rawWidth, tokens) then None
      else k.blockScore(indexQuery, RowsAt(raw, c.rawWidth, tokens), block * c.blockSize)
  }

  function SelectedBlocks(c: QsaConfig, scores: seq<real>): seq<nat>
    requires c.blockSize > 0
  {
    TopK(scores, |scores|, Min(|scores|, c.BlockTopK()))
  }

  /** The positions that the token at `position` attends to, given the scores of its blocks. */
  function Attended(c: QsaConfig, scores: seq<real>, position: nat): seq<nat>
    requires c.blockSize > 0
  {
    Gather(c.blockSize, SelectedBlocks(c, scores), c.Complete(position), c.Tail(position))
  }

  predicate ProjectedShaped(c: QsaConfig, p: QsaProjected) {
    |p.key| == c.kvWidth && |p.value| == c.kvWidth && |p.raw| == c.rawWidth
  }

  /** The caches with one more token. */
  function Appended(view: QsaView, p: QsaProjected): QsaView {
    QsaView(view.length + 1, view.keys + p.key, view.values + p.value, view.raw + p.raw)
  }

  /** The positions a token attends to, from its index query and the raw index keys. */
  function TokensFor(c: QsaConfig, k: QsaKernels, indexQuery: Row, raw: Row, position: nat): Option<seq<nat>>
    requires c.blockSize > 0
  {
    match MapAll(BlockScoreOf(c, k, indexQuery, raw), Ids(c.Complete(position)))
    case None => None
    case Some(scores) => Some(Attended(c, scores, position))
  }

  /** The output of a token whose rows are already in the caches. */
  function AttendToken(c: QsaConfig, k: QsaKernels, view: QsaView, position: nat, p: QsaProjected): Option<Row>
    requires c.blockSize > 0
  {
    match TokensFor(c, k, p.indexQuery, view.raw, position)
    case None => None
    case Some(tokens) =>
      if |tokens| == 0 || |tokens| > c.SelectedCapacity() || !InCache(view.keys, c.kvWidth, tokens) || !InCache(view.values, c.kvWidth, tokens) then None
      else
        match k.attend(p.query, RowsAt(view.keys, c.kvWidth, tokens), RowsAt(view.values, c.kvWidth, tokens))
        case None => None
        case Some(output) => if AllFinite(k.finite, output) then Some(output) else None
  }

  function QsaToken(c: QsaConfig, k: QsaKernels, view: QsaView, input: Row): Option<(QsaView, Row)>
    requires c.blockSize > 0
  {
    match k.project(input, view.length)
    case None => None
    case Some(p) =>
      if !ProjectedShaped(c, p) then None
      else
        match AttendToken(c, k, Appended(view, p), view.length, p)
        case None => None
        case Some(output) => Some((Appended(view, p), output))
  }

  function QsaStep(c: QsaConfig, k: QsaKernels): Step<QsaView, Row, Row>
    requires c.blockSize > 0
  {
    (view: QsaView, input: Row) => QsaToken(c, k, view, input)
  }

  predicate FiniteView(finite: F32 -> bool, view: QsaView) {
    AllFinite(finite, view.keys) && AllFinite(finite, view.values) && AllFinite(finite, view.raw)
  }

  /** The whole call: the checks on input, caches and capacity, then the fold. */
  function QsaCall(c: QsaConfig, k: QsaKernels, capacity: nat, view: QsaView, hidden: seq<Row>): Option<(QsaView, seq<Row>)>
    requires c.blockSize > 0
  {
    if hidden == [] || view.length + |hidden| > capacity || !FiniteView(k.finite, view) ||
       (exists t :: 0 <= t < |hidden| && !AllFinite(k.finite, hidden[t])) then None
    else Run(QsaStep(c, k), view, hidden)
  }

  lemma {:induction false} LengthAdvances(c: QsaConfig, k: QsaKernels, view: QsaView, hidden: seq<Row>)
    requires c.blockSize > 0 && Run(QsaStep(c, k), view, hidden).Some?
    ensures Run(QsaStep(c, k), view, hidden).value.0.length == view.length + |hidden|
    ensures QsaShaped(c, view) ==> QsaShaped(c, Run(QsaStep(c, k), view, hidden).value.0)
  {
    hide AttendToken;
    if hidden != [] {
      LengthAdvances(c, k, view, hidden[..|hidden| - 1]);
    }
  }

  /** Two calls in a row do what one call does, whenever both succeed. */
  lemma QsaCallAppend(c: QsaConfig, k: QsaKernels, capacity: nat, view: QsaView, a: seq<Row>, b: seq<Row>)
    requires c.blockSize > 0 && QsaCall(c, k, capacity, view, a).Some?
    requires QsaCall(c, k, capacity, QsaCall(c, k, capacity, view, a).value.0, b).Some?
    ensures QsaCall(c, k, capacity, view, a + b) == Resume(QsaStep(c, k), QsaCall(c, k, capacity, view, a), b)
  {
    hide QsaToken, QsaShaped;
    LengthAdvances(c, k, view, a);
    RunAppend(QsaStep(c, k), view, a, b);
    forall t | 0 <= t < |a + b| ensures AllFinite(k.finite, (a + b)[t]) {
      assert (a + b)[t] == if t < |a| then a[t] else b[t - |a|];
    }
  }

  // ----- what is attended to -----

  /** Distinct ids below n. */
  ghost predicate DistinctBelow(ids: seq<nat>, n: nat) {
    && (forall i :: 0 <= i < |ids| ==> ids[i] < n)
    && (forall i, j :: 0 <= i < j < |ids| ==> ids[i] != ids[j])
  }

  lemma {:induction false} GatheredCell(size: nat, blocks: seq<nat>, i: nat)
    requires size > 0 && i < |blocks| * size
    ensures i / size < |blocks|
    ensures GatherBlocks(size, blocks)[i] == blocks[i / size] * size + i % size
  {
    InTable(i, size, |blocks|);
    var last := |blocks| - 1;
    RowOf(i, size, last);
    GatherLast(size, blocks, i);
    hide GatherBlocks;
    if i / size < last {
      MulStep(i / size, last, size);
      GatheredCell(size, blocks[..last], i);
    }
  }

  lemma GatherLast(size: nat, blocks: seq<nat>, i: nat)
    requires blocks != [] && i < |blocks| * size
    ensures GatherBlocks(size, blocks)[i] ==
            if i < (|blocks| - 1) * size then GatherBlocks(size, blocks[..|blocks| - 1])[i]
            else blocks[|blocks| - 1] * size + (i - (|blocks| - 1) * size)
  {
  }

  /** Gathered position i, by the part it lies in. */
  lemma GatherAt(size: nat, blocks: seq<nat>, complete: nat, tail: nat, i: nat)
    requires size > 0 && i < |blocks| * size + tail && DistinctBelow(blocks, complete)
    ensures i < |blocks| * size ==> i / size < |blocks|
    ensures i < |blocks| * size ==> Gather(size, blocks, complete, tail)[i] == blocks[i / size] * size + i % size < complete * size
    ensures i >= |blocks| * size ==> Gather(size, blocks, complete, tail)[i] == complete * size + (i - |blocks| * size)
  {
    var gathered := GatherBlocks(size, blocks);
    hide GatherBlocks;
    if i < |blocks| * size {
      GatheredCell(size, blocks, i);
      MulStep(blocks[i / size], complete, size);
    }
  }

  /** No gathered position comes twice. */
  lemma GatherDistinct(size: nat, blocks: seq<nat>, complete: nat, tail: nat, i: nat, j: nat)
    requires size > 0 && i < j < |blocks| * size + tail && DistinctBelow(blocks, complete)
    ensures Gather(size, blocks, complete, tail)[i] != Gather(size, blocks, complete, tail)[j]
  {
    GatherAt(size, blocks, complete, tail, i);
    GatherAt(size, blocks, complete, tail, j);
    hide Gather;
    if j < |blocks| * size {
      DistinctCells(size, blocks, i, j);
    }
  }

  lemma CellsDiffer(a: nat, o: nat, b: nat, p: nat, size: nat)
    requires o < size && p < size && (a != b || o != p)
    ensures a * size + o != b * size + p
  {
    Divides(a, o, size);
    Divides(b, p, size);
  }

  lemma DistinctCells(size: nat, blocks: seq<nat>, i: nat, j: nat)
    requires size > 0 && i < j && i / size < |blocks| && j / size < |blocks|
    requires forall a, b :: 0 <= a < b < |blocks| ==> blocks[a] != blocks[b]
    ensures blocks[i / size] * size + i % size != blocks[j / size] * size + j % size
  {
    RowsDiffer(size, i, j);
    var a, b, o, p := i / size, j / size, i % size, j % size;
    assert a != b ==> blocks[a] != blocks[b];
    CellsDiffer(blocks[a], o, blocks[b], p, size);
  }

  lemma RowsDiffer(size: nat, i: nat, j: nat)
    requires size > 0 && i != j
    ensures i / size != j / size || i % size != j % size
  {
    assert i == i / size * size + i % size && j == j / size * size + j % size;
  }

  lemma SelectedAreSound(c: QsaConfig, scores: seq<real>)
    requires c.Valid()
    ensures DistinctBelow(SelectedBlocks(c, scores), |scores|)
    ensures |SelectedBlocks(c, scores)| == Min(|scores|, c.BlockTopK())
  {
    var blocks := SelectedBlocks(c, scores);
    TopKIsTopK(scores, |scores|, Min(|scores|, c.BlockTopK()));
    hide TopK;
    forall i, j | 0 <= i < j < |blocks| ensures blocks[i] != blocks[j] {
      assert Better(scores, blocks[i], blocks[j]);
    }
  }

  lemma BudgetIsBlocks(c: QsaConfig, complete: nat, tail: nat)
    requires c.Valid() && tail < c.blockSize && (complete > 0 || tail > 0)
    ensures 0 < Min(complete, c.BlockTopK()) * c.blockSize + tail <= c.SelectedCapacity()
  {
    var k := c.BlockTopK();
    assert c.tokenBudget == k * c.blockSize + c.tokenBudget % c.blockSize;
    MulStep(Min(complete, k), k, c.blockSize);
    MulStep(0, k, c.blockSize);
    MulStep(0, Min(complete, k), c.blockSize);
  }

  lemma PositionSplits(c: QsaConfig, position: nat)
    requires c.blockSize > 0
    ensures position + 1 == c.Complete(position) * c.blockSize + c.Tail(position) && c.Tail(position) < c.blockSize
    ensures c.Complete(position) > 0 || c.Tail(position) > 0
  {
    var complete, tail := c.Complete(position), c.Tail(position);
    assert position + 1 == complete * c.blockSize + tail;
    MulStep(complete, 0, c.blockSize);
  }

  /** How many positions: the selected blocks' and the tail's. The count is never zero and never
      above the buffer, so the check on it cannot fire. */
  lemma AttendedCount(c: QsaConfig, scores: seq<real>, position: nat)
    requires c.Valid() && |scores| == c.Complete(position)
    ensures |Attended(c, scores, position)| == Min(c.Complete(position), c.BlockTopK()) * c.blockSize + c.Tail(position)
    ensures 0 < |Attended(c, scores, position)| <= c.SelectedCapacity()
  {
    hide SelectedBlocks, Gather, DistinctBelow;
    SelectedAreSound(c, scores);
    PositionSplits(c, position);
    BudgetIsBlocks(c, c.Complete(position), c.Tail(position));
    hide c.Complete, c.Tail, c.SelectedCapacity, c.BlockTopK;
  }

  lemma GatherCausal(size: nat, blocks: seq<nat>, complete: nat, tail: nat, i: nat)
    requires size > 0 && i < |blocks| * size + tail && DistinctBelow(blocks, complete)
    ensures Gather(size, blocks, complete, tail)[i] < complete * size + tail
  {
    GatherAt(size, blocks, complete, tail, i);
  }

  /** Every attended position is one that exists: at most the token's own. */
  lemma AttendedAreCausal(c: QsaConfig, scores: seq<real>, position: nat, i: nat)
    requires c.Valid() && |scores| == c.Complete(position) && i < |Attended(c, scores, position)|
    ensures Attended(c, scores, position)[i] <= position
  {
    hide SelectedBlocks, Gather, DistinctBelow;
    SelectedAreSound(c, scores);
    PositionSplits(c, position);
    hide c.Complete, c.Tail;
    GatherCausal(c.blockSize, SelectedBlocks(c, scores), c.Complete(position), c.Tail(position), i);
  }

  /** No position is attended to twice. */
  lemma AttendedAreDistinct(c: QsaConfig, scores: seq<real>, position: nat, i: nat, j: nat)
    requires c.Valid() && |scores| == c.Complete(position) && i < j < |Attended(c, scores, position)|
    ensures Attended(c, scores, position)[i] != Attended(c, scores, position)[j]
  {
    hide SelectedBlocks, Gather, DistinctBelow;
    SelectedAreSound(c, scores);
    GatherDistinct(c.blockSize, SelectedBlocks(c, scores), c.Complete(position), c.Tail(position), i, j);
  }

  lemma TailIsGathered(size: nat, blocks: seq<nat>, complete: nat, tail: nat, offset: nat)
    requires size > 0 && DistinctBelow(blocks, complete) && offset < tail
    ensures complete * size + offset in Gather(size, blocks, complete, tail)
  {
    var i := |blocks| * size + offset;
    GatherAt(size, blocks, complete, tail, i);
    hide Gather, DistinctBelow;
    assert Gather(size, blocks, complete, tail)[i] == complete * size + offset;
  }

  /** The whole incomplete tail is attended to, the token itself included. */
  lemma TailIsAttended(c: QsaConfig, scores: seq<real>, position: nat, token: nat)
    requires c.Valid() && |scores| == c.Complete(position)
    requires c.Complete(position) * c.blockSize <= token <= position
    ensures token in Attended(c, scores, position)
  {
    hide SelectedBlocks, Gather, DistinctBelow;
    SelectedAreSound(c, scores);
    PositionSplits(c, position);
    hide c.Complete, c.Tail;
    TailIsGathered(c.blockSize, SelectedBlocks(c, scores), c.Complete(position), c.Tail(position),
                   token - c.Complete(position) * c.blockSize);
  }

  lemma TokenOfBlock(size: nat, blocks: seq<nat>, complete: nat, tail: nat, token: nat, at: nat)
    requires size > 0 && DistinctBelow(blocks, complete) && at < |blocks| && blocks[at] == token / size
    ensures token in Gather(size, blocks, complete, tail)
  {
    var i := At(at, token % size, size, |blocks|);
    GatherAt(size, blocks, complete, tail, i);
    assert token == token / size * size + token % size;
    hide Gather, DistinctBelow;
    assert Gather(size, blocks, complete, tail)[i] == token;
  }

  /** A selection of all blocks covers every token of a complete block. */
  lemma AllBlocksCover(size: nat, blocks: seq<nat>, complete: nat, tail: nat, token: nat)
    requires size > 0 && DistinctBelow(blocks, complete) && |blocks| == complete && token < complete * size
    ensures token in Gather(size, blocks, complete, tail)
  {
    hide Gather;
    AllBelowPresent(blocks, complete);
    InTable(token, size, complete);
    var block := token / size;
    assert block in blocks;
    var at :| 0 <= at < |blocks| && blocks[at] == block;
    TokenOfBlock(size, blocks, complete, tail, token, at);
  }

  /** While there are no more blocks than the budget, every position so far is attended to. */
  lemma AllAttendedWithinBudget(c: QsaConfig, scores: seq<real>, position: nat, token: nat)
    requires c.Valid() && |scores| == c.Complete(position) <= c.BlockTopK() && token <= position
    ensures token in Attended(c, scores, position)
  {
    if token < c.Complete(position) * c.blockSize {
      hide SelectedBlocks, Gather, DistinctBelow, c.Complete, c.Tail;
      SelectedAreSound(c, scores);
      AllBlocksCover(c.blockSize, SelectedBlocks(c, scores), c.Complete(position), c.Tail(position), token);
    } else {
      TailIsAttended(c, scores, position, token);
    }
  }
}
