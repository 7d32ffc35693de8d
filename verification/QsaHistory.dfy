/** What sparse attention computes, seen from the whole sequence: which positions a token attends to,
    in which order, and that its output comes from the projections at those positions. */
module QsaHistory {
  import opened Foundation
  import opened Streaming
  import opened FlatIndex
  import opened Selection
  import opened Qsa

  /** The block that a position lies in. */
  function BlockOf(c: QsaConfig, token: nat): (block: nat)
    requires c.Valid()
    ensures block == token / c.blockSize
  {
    token / c.blockSize
  }

  // ----- which positions, and in which order -----

  /** The blocks that are kept: those that fewer than the limit of others rank before. */
  lemma SelectedExactly(c: QsaConfig, scores: seq<real>, block: nat)
    requires c.Valid() && block < |scores|
    ensures block in SelectedBlocks(c, scores) <==> |RankingBefore(scores, |scores|, block)| < c.BlockTopK()
  {
    hide Better, TopK, RankingBefore;
    SelectedIsTopK(c, scores);
    InTopKExactly(scores, |scores|, c.BlockTopK(), SelectedBlocks(c, scores), block);
  }

  lemma SelectedIsTopK(c: QsaConfig, scores: seq<real>)
    requires c.Valid()
    ensures IsTopK(scores, |scores|, c.BlockTopK(), SelectedBlocks(c, scores))
  {
    hide Better, TopK, Ranked;
    TopKIsTopK(scores, |scores|, Min(|scores|, c.BlockTopK()));
  }

  lemma Split(i: nat, n: nat, rows: nat) returns (row: nat, offset: nat)
    requires n > 0 && i < rows * n
    ensures i == row * n + offset && offset < n && row < rows
  {
    InTable(i, n, rows);
    row, offset := i / n, i % n;
  }

  lemma InOrder(a: nat, o: nat, b: nat, p: nat, n: nat)
    requires o < n && p < n && a * n + o < b * n + p
    ensures a < b || (a == b && o < p)
  {
    MulStep(b, a, n);
  }

  lemma GatheredHasBlock(size: nat, blocks: seq<nat>, complete: nat, tail: nat, i: nat)
    requires size > 0 && DistinctBelow(blocks, complete) && i < |blocks| * size + tail
    ensures Gather(size, blocks, complete, tail)[i] < complete * size ==> Gather(size, blocks, complete, tail)[i] / size in blocks
  {
    GatherAt(size, blocks, complete, tail, i);
    hide Gather, DistinctBelow;
    if i < |blocks| * size {
      var r, o := Split(i, size, |blocks|);
      Divides(r, o, size);
      Divides(blocks[r], o, size);
    }
  }

  /** A gathered position before the tail lies in a selected block. */
  lemma GatheredIsSelected(size: nat, blocks: seq<nat>, complete: nat, tail: nat, token: nat)
    requires size > 0 && DistinctBelow(blocks, complete) && token < complete * size
    ensures token in Gather(size, blocks, complete, tail) <==> token / size in blocks
  {
    hide Gather, DistinctBelow;
    if token in Gather(size, blocks, complete, tail) {
      var i :| 0 <= i < |blocks| * size + tail && Gather(size, blocks, complete, tail)[i] == token;
      GatheredHasBlock(size, blocks, complete, tail, i);
    }
    if token / size in blocks {
      var at :| 0 <= at < |blocks| && blocks[at] == token / size;
      TokenOfBlock(size, blocks, complete, tail, token, at);
    }
  }

  lemma AttendedIsSelected(c: QsaConfig, scores: seq<real>, position: nat, token: nat)
    requires c.Valid() && |scores| == c.Complete(position) && token < c.Complete(position) * c.blockSize
    ensures BlockOf(c, token) < |scores|
    ensures token in Attended(c, scores, position) <==> BlockOf(c, token) in SelectedBlocks(c, scores)
  {
    hide SelectedBlocks, Gather, DistinctBelow, c.Complete, c.Tail;
    InTable(token, c.blockSize, c.Complete(position));
    SelectedAreSound(c, scores);
    GatheredIsSelected(c.blockSize, SelectedBlocks(c, scores), c.Complete(position), c.Tail(position), token);
  }

  /** Exactly which positions a token attends to: those behind the last complete block, and those of
      the complete blocks that fewer than the limit of others rank before. */
  lemma AttendedExactly(c: QsaConfig, scores: seq<real>, position: nat, token: nat)
    requires c.Valid() && |scores| == c.Complete(position) && token <= position
    ensures token < c.Complete(position) * c.blockSize ==> BlockOf(c, token) < |scores|
    ensures token in Attended(c, scores, position) <==>
              token >= c.Complete(position) * c.blockSize ||
              |RankingBefore(scores, |scores|, BlockOf(c, token))| < c.BlockTopK()
  {
    hide SelectedBlocks, Attended, BlockOf, RankingBefore, c.Complete, c.Tail, c.BlockTopK;
    if token < c.Complete(position) * c.blockSize {
      AttendedIsSelected(c, scores, position, token);
      SelectedExactly(c, scores, BlockOf(c, token));
    } else {
      TailIsAttended(c, scores, position, token);
    }
  }

  /** Complete blocks are attended to until the budget is spent, and the tail on top of that. */
  lemma BudgetIsSpent(c: QsaConfig, scores: seq<real>, position: nat, tail: nat)
    requires c.Valid() && |scores| == c.Complete(position) && tail == (position + 1) % c.blockSize
    ensures tail <= position + 1 && |Attended(c, scores, position)| == Min(position + 1 - tail, c.tokenBudget) + tail
  {
    hide Attended;
    AttendedCount(c, scores, position);
    PositionSplits(c, position);
    WholeBudget(c);
    SmallerFirst(c.Complete(position), c.BlockTopK(), c.blockSize);
  }

  lemma WholeBudget(c: QsaConfig)
    requires c.Valid()
    ensures c.BlockTopK() * c.blockSize == c.tokenBudget
  {
  }

  lemma SmallerFirst(a: nat, b: nat, n: nat)
    ensures Min(a, b) * n == Min(a * n, b * n)
  {
    MulStep(a, b, n);
    MulStep(b, a, n);
  }

  /** Of two positions in complete blocks, one attended to and one not, the block of the first ranks
      before the block of the second. */
  lemma AttendedAreBest(c: QsaConfig, scores: seq<real>, position: nat, p: nat, q: nat)
    requires c.Valid() && |scores| == c.Complete(position)
    requires p < c.Complete(position) * c.blockSize && p in Attended(c, scores, position)
    requires q <= position && q !in Attended(c, scores, position)
    ensures BlockOf(c, p) < |scores| && BlockOf(c, q) < |scores|
    ensures Better(scores, BlockOf(c, p), BlockOf(c, q))
  {
    hide SelectedBlocks, Attended, BlockOf, Better, c.Complete, c.Tail;
    LeftOutIsComplete(c, scores, position, q);
    AttendedIsSelected(c, scores, position, p);
    AttendedIsSelected(c, scores, position, q);
    SelectedAreBest(c, scores, BlockOf(c, p), BlockOf(c, q));
  }

  /** A position that is not attended to lies in a complete block. */
  lemma LeftOutIsComplete(c: QsaConfig, scores: seq<real>, position: nat, token: nat)
    requires c.Valid() && |scores| == c.Complete(position)
    requires token <= position && token !in Attended(c, scores, position)
    ensures token < c.Complete(position) * c.blockSize
  {
    hide Attended, c.Complete, c.Tail;
    if token >= c.Complete(position) * c.blockSize {
      TailIsAttended(c, scores, position, token);
    }
  }

  /** A selected block ranks before every block left out. */
  lemma SelectedAreBest(c: QsaConfig, scores: seq<real>, kept: nat, left: nat)
    requires c.Valid() && kept < |scores| && left < |scores|
    requires kept in SelectedBlocks(c, scores) && left !in SelectedBlocks(c, scores)
    ensures Better(scores, kept, left)
  {
    SelectedIsTopK(c, scores);
    hide SelectedBlocks, Better;
    var i :| 0 <= i < |SelectedBlocks(c, scores)| && SelectedBlocks(c, scores)[i] == kept;
    OutRanksBehind(scores, |scores|, c.BlockTopK(), SelectedBlocks(c, scores), i, left);
  }

  /** The first places: offset o of the kept block of rank r. */
  lemma AttendedCell(c: QsaConfig, scores: seq<real>, position: nat, r: nat, o: nat, i: nat)
    requires c.Valid() && |scores| == c.Complete(position)
    requires r < |SelectedBlocks(c, scores)| && o < c.blockSize && i == r * c.blockSize + o
    ensures var blocks := SelectedBlocks(c, scores);
            && i < |Attended(c, scores, position)| && blocks[r] < |scores|
            && Attended(c, scores, position)[i] == blocks[r] * c.blockSize + o < |scores| * c.blockSize
            && BlockOf(c, Attended(c, scores, position)[i]) == blocks[r]
  {
    hide SelectedBlocks, Gather, BlockOf, c.Complete, c.Tail;
    var blocks := SelectedBlocks(c, scores);
    SelectedAreSound(c, scores);
    MulStep(r, |blocks|, c.blockSize);
    Divides(r, o, c.blockSize);
    GatherAt(c.blockSize, blocks, c.Complete(position), c.Tail(position), i);
    Divides(blocks[r], o, c.blockSize);
  }

  /** The last places: the tail. */
  lemma AttendedTail(c: QsaConfig, scores: seq<real>, position: nat, i: nat)
    requires c.Valid() && |scores| == c.Complete(position) && i < |Attended(c, scores, position)|
    requires i >= |SelectedBlocks(c, scores)| * c.blockSize
    ensures Attended(c, scores, position)[i] == |scores| * c.blockSize + (i - |SelectedBlocks(c, scores)| * c.blockSize)
  {
    hide SelectedBlocks, Gather, c.Complete, c.Tail;
    SelectedAreSound(c, scores);
    GatherAt(c.blockSize, SelectedBlocks(c, scores), c.Complete(position), c.Tail(position), i);
  }

  /** The order: the kept blocks by rank and each from its first position to its last, then the tail. */
  lemma AttendedInOrder(c: QsaConfig, scores: seq<real>, position: nat, i: nat, j: nat)
    requires c.Valid() && |scores| == c.Complete(position) && i < j < |Attended(c, scores, position)|
    ensures var p, q := Attended(c, scores, position)[i], Attended(c, scores, position)[j];
            || (p < q && (q >= |scores| * c.blockSize || BlockOf(c, p) == BlockOf(c, q)))
            || (BlockOf(c, p) < |scores| && BlockOf(c, q) < |scores| && Better(scores, BlockOf(c, p), BlockOf(c, q)))
  {
    hide SelectedBlocks, Attended, Better, BlockOf, c.Complete, c.Tail;
    var blocks := SelectedBlocks(c, scores);
    if j < |blocks| * c.blockSize {
      var a, o := Split(i, c.blockSize, |blocks|);
      var b, u := Split(j, c.blockSize, |blocks|);
      AttendedCell(c, scores, position, a, o, i);
      AttendedCell(c, scores, position, b, u, j);
      InOrder(a, o, b, u, c.blockSize);
      SelectedIsTopK(c, scores);
      EarlierRanks(scores, |scores|, c.BlockTopK(), blocks, a, b);
    } else {
      AttendedTail(c, scores, position, j);
      if i < |blocks| * c.blockSize {
        var a, o := Split(i, c.blockSize, |blocks|);
        AttendedCell(c, scores, position, a, o, i);
      } else {
        AttendedTail(c, scores, position, i);
      }
    }
  }

  // ----- the outputs -----

  /** The projections of all tokens, each at its own position. */
  function Projections(c: QsaConfig, k: QsaKernels, hidden: seq<Row>): (r: Option<seq<QsaProjected>>)
    ensures r.Some? ==> |r.value| == |hidden| && AllShaped(c, r.value)
    ensures r.Some? ==> forall t :: 0 <= t < |hidden| ==> k.project(hidden[t], t) == Some(r.value[t])
  {
    if hidden == [] then Some([])
    else
      var last := |hidden| - 1;
      match Projections(c, k, hidden[..last])
      case None => None
      case Some(before) =>
        match k.project(hidden[last], last)
        case None => None
        case Some(p) => if ProjectedShaped(c, p) then Some(before + [p]) else None
  }

  predicate AllShaped(c: QsaConfig, ps: seq<QsaProjected>) {
    forall i :: 0 <= i < |ps| ==> ProjectedShaped(c, ps[i])
  }

  /** The score of a block for an index query: against the raw index keys at its positions. */
  function ScoreAt(c: QsaConfig, k: QsaKernels, ps: seq<QsaProjected>, indexQuery: Row): nat -> Option<real> {
    (block: nat) =>
      var first := block * c.blockSize;
      if first + c.blockSize > |ps| then None
      else k.blockScore(indexQuery, seq(c.blockSize, o requires 0 <= o < c.blockSize => ps[first + o].raw), first)
  }

  predicate AllBelow(tokens: seq<nat>, n: nat) {
    forall i :: 0 <= i < |tokens| ==> tokens[i] < n
  }

  function KeysAt(ps: seq<QsaProjected>, tokens: seq<nat>): (r: seq<Row>)
    requires AllBelow(tokens, |ps|)
    ensures |r| == |tokens|
  {
    seq(|tokens|, i requires 0 <= i < |tokens| => ps[tokens[i]].key)
  }

  function ValuesAt(ps: seq<QsaProjected>, tokens: seq<nat>): (r: seq<Row>)
    requires AllBelow(tokens, |ps|)
    ensures |r| == |tokens|
  {
    seq(|tokens|, i requires 0 <= i < |tokens| => ps[tokens[i]].value)
  }

  lemma AttendedBelow(c: QsaConfig, scores: seq<real>, position: nat)
    requires c.Valid() && |scores| == c.Complete(position)
    ensures AllBelow(Attended(c, scores, position), position + 1)
  {
    hide Attended, c.Complete;
    forall i | 0 <= i < |Attended(c, scores, position)| ensures Attended(c, scores, position)[i] < position + 1 {
      AttendedAreCausal(c, scores, position, i);
    }
  }

  /** The output at position t: its query against the keys and values of the positions it attends to. */
  function AttentionOf(c: QsaConfig, k: QsaKernels, ps: seq<QsaProjected>): nat -> Option<Row>
    requires c.Valid()
  {
    (t: nat) =>
      if t >= |ps| then None
      else
        match MapAll(ScoreAt(c, k, ps, ps[t].indexQuery), Ids(c.Complete(t)))
        case None => None
        case Some(scores) =>
          AttendedBelow(c, scores, t);
          var tokens := Attended(c, scores, t);
          match k.attend(ps[t].query, KeysAt(ps, tokens), ValuesAt(ps, tokens))
          case None => None
          case Some(output) => if AllFinite(k.finite, output) then Some(output) else None
  }

  /** Later tokens do not matter. */
  lemma AttentionIsCausal(c: QsaConfig, k: QsaKernels, ps: seq<QsaProjected>, more: seq<QsaProjected>, t: nat)
    requires c.Valid() && t < |ps| && ps <= more
    ensures AttentionOf(c, k, more)(t) == AttentionOf(c, k, ps)(t)
  {
    hide Attended, c.Complete;
    ScoresAreCausal(c, k, ps, more, t);
    var scores := MapAll(ScoreAt(c, k, ps, ps[t].indexQuery), Ids(c.Complete(t)));
    if scores.Some? {
      AttendedBelow(c, scores.value, t);
      var tokens := Attended(c, scores.value, t);
      assert KeysAt(more, tokens) == KeysAt(ps, tokens);
      assert ValuesAt(more, tokens) == ValuesAt(ps, tokens);
    }
  }

  lemma ScoresAreCausal(c: QsaConfig, k: QsaKernels, ps: seq<QsaProjected>, more: seq<QsaProjected>, t: nat)
    requires c.Valid() && t < |ps| && ps <= more
    ensures MapAll(ScoreAt(c, k, more, more[t].indexQuery), Ids(c.Complete(t))) ==
            MapAll(ScoreAt(c, k, ps, ps[t].indexQuery), Ids(c.Complete(t)))
  {
    hide c.Complete;
    forall i | 0 <= i < c.Complete(t)
      ensures ScoreAt(c, k, more, more[t].indexQuery)(Ids(c.Complete(t))[i]) == ScoreAt(c, k, ps, ps[t].indexQuery)(Ids(c.Complete(t))[i])
    {
      BlockIsPast(c, t, i);
      var first := i * c.blockSize;
      assert seq(c.blockSize, o requires 0 <= o < c.blockSize => more[first + o].raw) ==
             seq(c.blockSize, o requires 0 <= o < c.blockSize => ps[first + o].raw);
    }
    MapAllSame(ScoreAt(c, k, more, more[t].indexQuery), ScoreAt(c, k, ps, ps[t].indexQuery), Ids(c.Complete(t)));
  }

  lemma BlockIsPast(c: QsaConfig, t: nat, block: nat)
    requires c.Valid() && block < c.Complete(t)
    ensures block * c.blockSize + c.blockSize <= t + 1
  {
    PositionSplits(c, t);
    MulStep(block, c.Complete(t), c.blockSize);
  }

  // ----- the caches hold the projections -----

  function Keys(ps: seq<QsaProjected>): (r: seq<Row>)
    ensures |r| == |ps| && forall i :: 0 <= i < |r| ==> r[i] == ps[i].key
  {
    seq(|ps|, i requires 0 <= i < |ps| => ps[i].key)
  }

  function Values(ps: seq<QsaProjected>): (r: seq<Row>)
    ensures |r| == |ps| && forall i :: 0 <= i < |r| ==> r[i] == ps[i].value
  {
    seq(|ps|, i requires 0 <= i < |ps| => ps[i].value)
  }

  function Raws(ps: seq<QsaProjected>): (r: seq<Row>)
    ensures |r| == |ps| && forall i :: 0 <= i < |r| ==> r[i] == ps[i].raw
  {
    seq(|ps|, i requires 0 <= i < |ps| => ps[i].raw)
  }

  /** The caches after all tokens: one row per token, in order. */
  function CachesOf(ps: seq<QsaProjected>): QsaView {
    QsaView(|ps|, Flatten(Keys(ps)), Flatten(Values(ps)), Flatten(Raws(ps)))
  }

  lemma CachesOneMore(ps: seq<QsaProjected>, p: QsaProjected)
    ensures CachesOf(ps + [p]) == Appended(CachesOf(ps), p)
  {
    FlattenOneMore(Keys(ps), p.key);
    FlattenOneMore(Values(ps), p.value);
    FlattenOneMore(Raws(ps), p.raw);
    assert Keys(ps + [p]) == Keys(ps) + [p.key];
    assert Values(ps + [p]) == Values(ps) + [p.value];
    assert Raws(ps + [p]) == Raws(ps) + [p.raw];
  }

  predicate AllWide(rows: seq<Row>, width: nat) {
    forall i :: 0 <= i < |rows| ==> |rows[i]| == width
  }

  lemma {:induction false} RowOfFlatten(rows: seq<Row>, width: nat, i: nat)
    requires AllWide(rows, width)
    ensures |Flatten(rows)| == Cells(|rows|, width)
    ensures i < |rows| ==> Cells(i + 1, width) <= |Flatten(rows)| && RowAt(Flatten(rows), width, i) == rows[i]
    decreases |rows|
  {
    if rows != [] {
      var last := |rows| - 1;
      RowOfFlatten(rows[..last], width, i);
      if i < last {
        CellsMono(i + 1, last, width);
      }
    }
  }

  lemma RowsOfFlatten(rows: seq<Row>, width: nat, tokens: seq<nat>)
    requires AllWide(rows, width) && AllBelow(tokens, |rows|)
    ensures InCache(Flatten(rows), width, tokens)
    ensures forall i :: 0 <= i < |tokens| ==> RowsAt(Flatten(rows), width, tokens)[i] == rows[tokens[i]]
  {
    hide RowAt, Flatten, AllWide;
    forall i | 0 <= i < |tokens|
      ensures Cells(tokens[i] + 1, width) <= |Flatten(rows)| && RowAt(Flatten(rows), width, tokens[i]) == rows[tokens[i]]
    {
      RowOfFlatten(rows, width, tokens[i]);
    }
  }

  lemma ShapedIsWide(c: QsaConfig, ps: seq<QsaProjected>)
    requires AllShaped(c, ps)
    ensures AllWide(Keys(ps), c.kvWidth) && AllWide(Values(ps), c.kvWidth) && AllWide(Raws(ps), c.rawWidth)
  {
  }

  /** Scoring against the cache is scoring against the projections. */
  lemma ScoresFromCache(c: QsaConfig, k: QsaKernels, ps: seq<QsaProjected>, t: nat)
    requires c.Valid() && AllShaped(c, ps) && |ps| == t + 1
    ensures MapAll(BlockScoreOf(c, k, ps[t].indexQuery, Flatten(Raws(ps))), Ids(c.Complete(t))) ==
            MapAll(ScoreAt(c, k, ps, ps[t].indexQuery), Ids(c.Complete(t)))
  {
    hide c.Complete, Flatten, Raws, RowAt, AllShaped, RowsAt;
    ShapedIsWide(c, ps);
    forall block | 0 <= block < c.Complete(t)
      ensures BlockScoreOf(c, k, ps[t].indexQuery, Flatten(Raws(ps)))(Ids(c.Complete(t))[block]) ==
              ScoreAt(c, k, ps, ps[t].indexQuery)(Ids(c.Complete(t))[block])
    {
      BlockIsPast(c, t, block);
      var tokens := BlockTokens(c.blockSize, block);
      RowsOfFlatten(Raws(ps), c.rawWidth, tokens);
      var first := block * c.blockSize;
      assert RowsAt(Flatten(Raws(ps)), c.rawWidth, tokens) == seq(c.blockSize, o requires 0 <= o < c.blockSize => ps[first + o].raw);
    }
    MapAllSame(BlockScoreOf(c, k, ps[t].indexQuery, Flatten(Raws(ps))), ScoreAt(c, k, ps, ps[t].indexQuery), Ids(c.Complete(t)));
  }

  lemma AttendFromCache(c: QsaConfig, k: QsaKernels, ps: seq<QsaProjected>, t: nat)
    requires c.Valid() && AllShaped(c, ps) && |ps| == t + 1
    ensures AttendToken(c, k, CachesOf(ps), t, ps[t]) == AttentionOf(c, k, ps)(t)
  {
    hide c.Complete, Flatten, Keys, Values, Raws, RowAt, Attended, AllShaped, RowsAt;
    ScoresFromCache(c, k, ps, t);
    ShapedIsWide(c, ps);
    var scores := MapAll(ScoreAt(c, k, ps, ps[t].indexQuery), Ids(c.Complete(t)));
    if scores.Some? {
      var tokens := Attended(c, scores.value, t);
      AttendedBelow(c, scores.value, t);
      AttendedCount(c, scores.value, t);
      RowsOfFlatten(Keys(ps), c.kvWidth, tokens);
      RowsOfFlatten(Values(ps), c.kvWidth, tokens);
      assert RowsAt(Flatten(Keys(ps)), c.kvWidth, tokens) == KeysAt(ps, tokens);
      assert RowsAt(Flatten(Values(ps)), c.kvWidth, tokens) == ValuesAt(ps, tokens);
    }
  }

  /** A stream from reset, over the whole sequence: it succeeds exactly when every token can be
      projected and every position attended from, and then its outputs are those of the positions and
      its caches hold the projections. */
  lemma {:induction false} AttentionOverHistory(c: QsaConfig, k: QsaKernels, hidden: seq<Row>)
    requires c.Valid()
    ensures Run(QsaStep(c, k), FRESH_QSA, hidden) ==
            match Projections(c, k, hidden)
            case None => None
            case Some(ps) =>
              match MapAll(AttentionOf(c, k, ps), Ids(|hidden|))
              case None => None
              case Some(outputs) => Some((CachesOf(ps), outputs))
  {
    hide QsaToken, AttentionOf, CachesOf, ProjectedShaped, MapAll;
    if hidden == [] {
      EmptyCaches();
      NothingToMap(AttentionOf(c, k, []));
    } else {
      var last := |hidden| - 1;
      AttentionOverHistory(c, k, hidden[..last]);
      var before := Projections(c, k, hidden[..last]);
      if before.Some? {
        StepOverHistory(c, k, before.value, hidden[last]);
        var p := k.project(hidden[last], last);
        if p.Some? && ProjectedShaped(c, p.value) {
          OutputsOneMore(c, k, before.value, p.value);
        }
      }
    }
  }

  lemma NothingToMap(f: nat -> Option<Row>)
    ensures MapAll(f, Ids(0)) == Some([])
  {
    assert Ids(0) == [];
  }

  /** The step after a sequence: the next token's output from the whole sequence. */
  lemma StepOverHistory(c: QsaConfig, k: QsaKernels, ps: seq<QsaProjected>, input: Row)
    requires c.Valid() && AllShaped(c, ps)
    ensures QsaToken(c, k, CachesOf(ps), input) ==
            match k.project(input, |ps|)
            case None => None
            case Some(p) =>
              if !ProjectedShaped(c, p) then None
              else
                match AttentionOf(c, k, ps + [p])(|ps|)
                case None => None
                case Some(output) => Some((CachesOf(ps + [p]), output))
  {
    hide AttendToken, AttentionOf, CachesOf, ProjectedShaped, Appended;
    CachesAreAsLong(ps);
    var p := k.project(input, |ps|);
    if p.Some? && ProjectedShaped(c, p.value) {
      CachesOneMore(ps, p.value);
      AttendFromCache(c, k, ps + [p.value], |ps|);
    }
  }

  lemma OutputsOneMore(c: QsaConfig, k: QsaKernels, ps: seq<QsaProjected>, p: QsaProjected)
    requires c.Valid()
    ensures MapAll(AttentionOf(c, k, ps + [p]), Ids(|ps| + 1)) ==
            match MapAll(AttentionOf(c, k, ps), Ids(|ps|))
            case None => None
            case Some(outputs) =>
              (match AttentionOf(c, k, ps + [p])(|ps|) case None => None case Some(output) => Some(outputs + [output]))
  {
    hide AttentionOf, MapAll;
    EarlierOutputs(c, k, ps, p);
    assert Ids(|ps| + 1) == Ids(|ps|) + [|ps|];
    MapAllOneMore<nat, Row>(AttentionOf(c, k, ps + [p]), Ids(|ps|), |ps|);
  }

  lemma EmptyCaches()
    ensures CachesOf([]) == FRESH_QSA
  {
    assert Keys([]) == [] && Values([]) == [] && Raws([]) == [];
  }

  lemma CachesAreAsLong(ps: seq<QsaProjected>)
    ensures CachesOf(ps).length == |ps|
  {
  }

  lemma EarlierOutputs(c: QsaConfig, k: QsaKernels, ps: seq<QsaProjected>, p: QsaProjected)
    requires c.Valid()
    ensures MapAll(AttentionOf(c, k, ps + [p]), Ids(|ps|)) == MapAll(AttentionOf(c, k, ps), Ids(|ps|))
  {
    hide AttentionOf;
    forall t | 0 <= t < |ps| ensures AttentionOf(c, k, ps + [p])(Ids(|ps|)[t]) == AttentionOf(c, k, ps)(Ids(|ps|)[t]) {
      AttentionIsCausal(c, k, ps, ps + [p], t);
    }
    MapAllSame(AttentionOf(c, k, ps + [p]), AttentionOf(c, k, ps), Ids(|ps|));
  }
}
