/** The sparse-attention operator on one slot: caches of fixed capacity, pending buffers for the
    running call, one commit at its end. */
module QsaState {
  import opened Foundation
  import opened Streaming
  import opened FlatIndex
  import opened Selection
  import opened Qsa

  // ----- reading committed and pending rows as one cache -----

  /** Reads the caches for committed tokens and the pending buffer for the others. */
  function ReadCombined(committed: Row, pending: Row, initial: nat, token: nat, width: nat, feature: nat): F32
    requires feature < width && Cells(initial, width) <= |committed|
    requires token >= initial ==> Cells(token - initial, width) + feature < |pending|
  {
    if token < initial then
      CellsMono(token + 1, initial, width);
      committed[Cells(token, width) + feature]
    else pending[Cells(token - initial, width) + feature]
  }

  /** The committed rows followed by the first n pending ones. */
  function Joined(committed: Row, pending: Row, initial: nat, width: nat, n: nat): (r: Row)
    requires Cells(initial, width) <= |committed| && Cells(n, width) <= |pending|
    ensures |r| == Cells(initial + n, width)
  {
    CellsAdd(initial, n, width);
    committed[..Cells(initial, width)] + pending[..Cells(n, width)]
  }

  /** The combined read is a read of the concatenation. */
  lemma ReadIsJoined(committed: Row, pending: Row, initial: nat, token: nat, width: nat, feature: nat, n: nat)
    requires feature < width && Cells(initial, width) <= |committed| && Cells(n, width) <= |pending| && token < initial + n
    ensures token >= initial ==> Cells(token - initial, width) + feature < |pending|
    ensures Cells(token, width) + feature < Cells(token + 1, width) <= Cells(initial + n, width)
    ensures ReadCombined(committed, pending, initial, token, width, feature) ==
            Joined(committed, pending, initial, width, n)[Cells(token, width) + feature]
  {
    CellsMono(token + 1, initial + n, width);
    if token < initial {
      CellsMono(token + 1, initial, width);
    } else {
      CellsMono(token - initial + 1, n, width);
      CellsAdd(initial, token - initial, width);
    }
  }

  /** Storing one more pending row appends it to the joined cache. */
  lemma JoinedGrows(committed: Row, before: Row, after: Row, initial: nat, width: nat, n: nat, row: Row)
    requires Cells(initial, width) <= |committed| && |before| == |after| && Cells(n + 1, width) <= |after| && |row| == width
    requires after[..Cells(n, width)] == before[..Cells(n, width)] && after[Cells(n, width)..Cells(n + 1, width)] == row
    ensures Joined(committed, after, initial, width, n + 1) == Joined(committed, before, initial, width, n) + row
  {
    assert after[..Cells(n + 1, width)] == after[..Cells(n, width)] + after[Cells(n, width)..Cells(n + 1, width)];
  }

  method ReadRow(committed: Row, pending: array<F32>, initial: nat, token: nat, width: nat, ghost n: nat) returns (row: Row)
    requires Cells(initial, width) <= |committed| && Cells(n, width) <= pending.Length && token < initial + n
    ensures Cells(token + 1, width) <= |Joined(committed, pending[..], initial, width, n)|
    ensures row == RowAt(Joined(committed, pending[..], initial, width, n), width, token)
  {
    ghost var joined := Joined(committed, pending[..], initial, width, n);
    CellsMono(token + 1, initial + n, width);
    row := [];
    for feature := 0 to width
      invariant row == joined[Cells(token, width)..Cells(token, width) + feature]
    {
      ReadIsJoined(committed, pending[..], initial, token, width, feature, n);
      row := row + [ReadCombined(committed, pending[..], initial, token, width, feature)];
    }
  }

  method ReadRows(committed: Row, pending: array<F32>, initial: nat, tokens: seq<nat>, width: nat, ghost n: nat)
    returns (rows: seq<Row>)
    requires Cells(initial, width) <= |committed| && Cells(n, width) <= pending.Length
    requires forall i :: 0 <= i < |tokens| ==> tokens[i] < initial + n
    ensures InCache(Joined(committed, pending[..], initial, width, n), width, tokens)
    ensures rows == RowsAt(Joined(committed, pending[..], initial, width, n), width, tokens)
  {
    ghost var joined := Joined(committed, pending[..], initial, width, n);
    hide Joined, RowAt;
    forall i | 0 <= i < |tokens| ensures Cells(tokens[i] + 1, width) <= |joined| {
      CellsMono(tokens[i] + 1, initial + n, width);
    }
    rows := [];
    for i := 0 to |tokens|
      invariant rows == RowsAt(joined, width, tokens)[..i]
    {
      var row := ReadRow(committed, pending, initial, tokens[i], width, n);
      rows := rows + [row];
    }
  }

  /** Copies a row into its place among the pending ones. */
  method StorePending(pending: array<F32>, token: nat, row: Row)
    requires Cells(token + 1, |row|) <= pending.Length
    modifies pending
    ensures pending[Cells(token, |row|)..Cells(token + 1, |row|)] == row
    ensures pending[..Cells(token, |row|)] == old(pending[..Cells(token, |row|)])
  {
    var base := Cells(token, |row|);
    for feature := 0 to |row|
      invariant pending[base..base + feature] == row[..feature]
      invariant pending[..base] == old(pending[..base])
    {
      pending[base + feature] := row[feature];
      assert row[..feature + 1] == row[..feature] + [row[feature]];
    }
  }

  // ----- one token -----

  /** Scores the complete blocks one by one. */
  method ScoreBlocks(c: QsaConfig, k: QsaKernels, indexQuery: Row, committed: Row, pending: array<F32>, initial: nat,
                     ghost n: nat, position: nat)
    returns (status: Status, scores: seq<real>)
    requires Cells(initial, c.rawWidth) <= |committed| && Cells(n, c.rawWidth) <= pending.Length
    requires c.blockSize > 0 && position + 1 == initial + n
    ensures var r := MapAll(BlockScoreOf(c, k, indexQuery, Joined(committed, pending[..], initial, c.rawWidth, n)),
                            Ids(c.Complete(position)));
            && (status.Ok? <==> r.Some?) && (status.Ok? ==> r == Some(scores))
  {
    ghost var f := BlockScoreOf(c, k, indexQuery, Joined(committed, pending[..], initial, c.rawWidth, n));
    hide Joined, RowsAt, InCache;
    PositionSplits(c, position);
    var complete := c.Complete(position);
    hide c.Complete;
    scores := [];
    for block := 0 to complete
      invariant |scores| == block && forall b :: 0 <= b < block ==> f(b) == Some(scores[b])
    {
      MulStep(block, complete, c.blockSize);
      var keys := ReadRows(committed, pending, initial, BlockTokens(c.blockSize, block), c.rawWidth, n);
      var score := k.blockScore(indexQuery, keys, block * c.blockSize);
      assert f(block) == score;
      if score.None? {
        assert f(Ids(complete)[block]).None?;
        return NumericDomain, [];
      }
      scores := scores + [score.value];
    }
    MapAllIs(f, Ids(complete), scores);
    status := Ok;
  }

  /** Writes out the tokens of the selected blocks and of the tail, in 32-bit arithmetic that
      cannot wrap: every position fits. */
  method GatherTokens(size: nat, selected: seq<nat>, complete: nat, tail: nat, selectedTokens: array<nat>) returns (count: nat)
    requires size > 0 && DistinctBelow(selected, complete) && complete * size + tail <= UINT32_MAX + 1
    requires |selected| * size + tail <= selectedTokens.Length
    modifies selectedTokens
    ensures count == |selected| * size + tail && selectedTokens[..count] == Gather(size, selected, complete, tail)
  {
    count := 0;
    for block := 0 to |selected|
      invariant count == block * size <= |selected| * size
      invariant selectedTokens[..count] == GatherBlocks(size, selected[..block])
    {
      count := GatherBlock(size, selected, block, complete, selectedTokens, count);
    }
    assert selected[..|selected|] == selected;
    ghost var gathered := selectedTokens[..count];
    for feature := 0 to tail
      invariant count == |selected| * size + feature
      invariant selectedTokens[..count] == gathered + TailTokens(size, complete, tail)[..feature]
    {
      selectedTokens[count] := (complete * size + feature) % (UINT32_MAX + 1);
      count := count + 1;
    }
  }

  method GatherBlock(size: nat, selected: seq<nat>, block: nat, complete: nat, selectedTokens: array<nat>, start: nat) returns (count: nat)
    requires size > 0 && block < |selected| && selected[block] < complete && complete * size <= UINT32_MAX + 1
    requires start == block * size && |selected| * size <= selectedTokens.Length
    requires start <= selectedTokens.Length && selectedTokens[..start] == GatherBlocks(size, selected[..block])
    modifies selectedTokens
    ensures count == (block + 1) * size <= |selected| * size
    ensures selectedTokens[..count] == GatherBlocks(size, selected[..block + 1])
  {
    hide GatherBlocks;
    count := start;
    MulStep(block, |selected|, size);
    MulStep(selected[block], complete, size);
    ghost var gathered := selectedTokens[..start];
    for offset := 0 to size
      invariant count == start + offset
      invariant selectedTokens[..count] == gathered + BlockTokens(size, selected[block])[..offset]
    {
      selectedTokens[count] := (selected[block] * size + offset) % (UINT32_MAX + 1);
      count := count + 1;
    }
    GatherNext(size, selected, block);
  }

  lemma GatherNext(size: nat, selected: seq<nat>, block: nat)
    requires block < |selected|
    ensures GatherBlocks(size, selected[..block + 1]) == GatherBlocks(size, selected[..block]) + BlockTokens(size, selected[block])
  {
    assert selected[..block + 1][..block] == selected[..block];
  }

  /** The selection of one token, from scores to positions. */
  method SelectTokens(c: QsaConfig, scores: seq<real>, position: nat) returns (status: Status, tokens: seq<nat>)
    requires c.Valid() && |scores| == c.Complete(position) && position <= UINT32_MAX
    ensures status.Ok? && tokens == Attended(c, scores, position)
    ensures 0 < |tokens| <= c.SelectedCapacity() && forall i :: 0 <= i < |tokens| ==> tokens[i] <= position
  {
    PositionSplits(c, position);
    AttendedCount(c, scores, position);
    SelectedAreSound(c, scores);
    BudgetIsBlocks(c, c.Complete(position), c.Tail(position));
    var complete, tail := c.Complete(position), c.Tail(position);
    var limit := Min(complete, c.BlockTopK());
    hide Gather, DistinctBelow, TopK, c.Complete, c.Tail, c.SelectedCapacity, c.BlockTopK;
    var selected := new nat[limit];
    var selectedCount := SelectBlocks(scores, complete, limit, selected);
    var selectedTokens := new nat[c.SelectedCapacity()];
    assert selected[..selectedCount] == SelectedBlocks(c, scores);
    var count := GatherTokens(c.blockSize, selected[..selectedCount], complete, tail, selectedTokens);
    if count == 0 || count > c.SelectedCapacity() {
      return InvalidQsaState, [];
    }
    forall i | 0 <= i < count ensures selectedTokens[..count][i] <= position {
      AttendedAreCausal(c, scores, position, i);
    }
    return Ok, selectedTokens[..count];
  }

  /** The caches of a state while a call runs on top of them. */
  datatype Caches = Caches(initial: nat, keys: Row, values: Row, raw: Row)

  predicate CachesFilled(c: QsaConfig, caches: Caches) {
    Cells(caches.initial, c.kvWidth) <= |caches.keys| && Cells(caches.initial, c.kvWidth) <= |caches.values| &&
    Cells(caches.initial, c.rawWidth) <= |caches.raw|
  }

  predicate Holds(c: QsaConfig, n: nat, keys: Row, values: Row, raw: Row) {
    Cells(n, c.kvWidth) <= |keys| && Cells(n, c.kvWidth) <= |values| && Cells(n, c.rawWidth) <= |raw|
  }

  /** The caches as they would be after committing the first n pending rows. */
  function Seen(c: QsaConfig, caches: Caches, n: nat, keys: Row, values: Row, raw: Row): (view: QsaView)
    requires CachesFilled(c, caches) && Holds(c, n, keys, values, raw)
    ensures view.length == caches.initial + n && QsaShaped(c, view)
  {
    QsaView(caches.initial + n, Joined(caches.keys, keys, caches.initial, c.kvWidth, n),
            Joined(caches.values, values, caches.initial, c.kvWidth, n), Joined(caches.raw, raw, caches.initial, c.rawWidth, n))
  }

  /** From the index query of a token to the positions it attends to: scores, selection, gather. */
  method ChooseTokens(c: QsaConfig, k: QsaKernels, indexQuery: Row, committed: Row, pending: array<F32>, initial: nat, n: nat)
    returns (status: Status, tokens: seq<nat>)
    requires c.Valid() && initial + n <= UINT32_MAX
    requires Cells(initial, c.rawWidth) <= |committed| && Cells(n + 1, c.rawWidth) <= pending.Length
    ensures var r := TokensFor(c, k, indexQuery, Joined(committed, pending[..], initial, c.rawWidth, n + 1), initial + n);
            && (status.Ok? <==> r.Some?) && (status.Ok? ==> r == Some(tokens))
    ensures status.Ok? ==> 0 < |tokens| <= c.SelectedCapacity() && forall i :: 0 <= i < |tokens| ==> tokens[i] < initial + (n + 1)
  {
    var position := initial + n;
    hide Joined, Attended, BlockScoreOf, Cells, c.Complete, c.Tail, c.SelectedCapacity;
    var scores;
    status, scores := ScoreBlocks(c, k, indexQuery, committed, pending, initial, n + 1, position);
    if !status.Ok? {
      return status, [];
    }
    status, tokens := SelectTokens(c, scores, position);
  }

  /** Attention of one token whose own rows are already pending. */
  method AttendPosition(c: QsaConfig, k: QsaKernels, caches: Caches, n: nat, p: QsaProjected,
                        keys: array<F32>, values: array<F32>, raw: array<F32>)
    returns (status: Status, output: Row)
    requires c.Valid() && CachesFilled(c, caches) && Holds(c, n + 1, keys[..], values[..], raw[..])
    requires caches.initial + n <= UINT32_MAX
    ensures var r := AttendToken(c, k, Seen(c, caches, n + 1, keys[..], values[..], raw[..]), caches.initial + n, p);
            && (status.Ok? <==> r.Some?) && (status.Ok? ==> r == Some(output))
  {
    hide Joined, TokensFor, RowsAt, InCache, AllFinite, Cells, c.Valid, c.SelectedCapacity;
    var tokens;
    status, tokens := ChooseTokens(c, k, p.indexQuery, caches.raw, raw, caches.initial, n);
    if !status.Ok? {
      return status, [];
    }
    var keyRows := ReadRows(caches.keys, keys, caches.initial, tokens, c.kvWidth, n + 1);
    var valueRows := ReadRows(caches.values, values, caches.initial, tokens, c.kvWidth, n + 1);
    var attended := k.attend(p.query, keyRows, valueRows);
    if attended.None? {
      return KernelFailed, [];
    }
    var finite := CheckFinite(k.finite, attended.value);
    if !finite {
      return NumericDomain, [];
    }
    return Ok, attended.value;
  }

  lemma SeenGrows(c: QsaConfig, caches: Caches, n: nat, p: QsaProjected,
                  keys: Row, values: Row, raw: Row, keys': Row, values': Row, raw': Row)
    requires CachesFilled(c, caches) && Holds(c, n, keys, values, raw) && Holds(c, n + 1, keys', values', raw')
    requires |keys'| == |keys| && |values'| == |values| && |raw'| == |raw| && ProjectedShaped(c, p)
    requires Cells(n + 1, c.kvWidth) <= |keys| && Cells(n + 1, c.kvWidth) <= |values| && Cells(n + 1, c.rawWidth) <= |raw|
    requires keys'[..Cells(n, c.kvWidth)] == keys[..Cells(n, c.kvWidth)] && keys'[Cells(n, c.kvWidth)..Cells(n + 1, c.kvWidth)] == p.key
    requires values'[..Cells(n, c.kvWidth)] == values[..Cells(n, c.kvWidth)] && values'[Cells(n, c.kvWidth)..Cells(n + 1, c.kvWidth)] == p.value
    requires raw'[..Cells(n, c.rawWidth)] == raw[..Cells(n, c.rawWidth)] && raw'[Cells(n, c.rawWidth)..Cells(n + 1, c.rawWidth)] == p.raw
    ensures Seen(c, caches, n + 1, keys', values', raw') == Appended(Seen(c, caches, n, keys, values, raw), p)
  {
    hide Joined;
    JoinedGrows(caches.keys, keys, keys', caches.initial, c.kvWidth, n, p.key);
    JoinedGrows(caches.values, values, values', caches.initial, c.kvWidth, n, p.value);
    JoinedGrows(caches.raw, raw, raw', caches.initial, c.rawWidth, n, p.raw);
  }

  /** Stores the rows of one token as pending: what is seen then is the caches with it appended. */
  method StoreToken(c: QsaConfig, caches: Caches, n: nat, p: QsaProjected, keys: array<F32>, values: array<F32>, raw: array<F32>)
    requires CachesFilled(c, caches) && ProjectedShaped(c, p)
    requires Holds(c, n, keys[..], values[..], raw[..]) && Holds(c, n + 1, keys[..], values[..], raw[..])
    requires keys != values && keys != raw && values != raw
    modifies keys, values, raw
    ensures Holds(c, n + 1, keys[..], values[..], raw[..])
    ensures Seen(c, caches, n + 1, keys[..], values[..], raw[..]) ==
            Appended(Seen(c, caches, n, old(keys[..]), old(values[..]), old(raw[..])), p)
  {
    hide Joined, Seen, Cells, Appended;
    StorePending(keys, n, p.key);
    StorePending(values, n, p.value);
    StorePending(raw, n, p.raw);
    SeenGrows(c, caches, n, p, old(keys[..]), old(values[..]), old(raw[..]), keys[..], values[..], raw[..]);
  }

  /** One token: project, store as pending, attend. */
  method ExecuteToken(c: QsaConfig, k: QsaKernels, caches: Caches, n: nat, input: Row,
                      keys: array<F32>, values: array<F32>, raw: array<F32>)
    returns (status: Status, output: Row)
    requires c.Valid() && CachesFilled(c, caches) && caches.initial + n <= UINT32_MAX
    requires Holds(c, n, keys[..], values[..], raw[..]) && Holds(c, n + 1, keys[..], values[..], raw[..])
    requires keys != values && keys != raw && values != raw
    modifies keys, values, raw
    ensures var r := QsaToken(c, k, Seen(c, caches, n, old(keys[..]), old(values[..]), old(raw[..])), input);
            && (status.Ok? <==> r.Some?)
            && (status.Ok? ==> r == Some((Seen(c, caches, n + 1, keys[..], values[..], raw[..]), output)))
  {
    hide AttendToken, Cells, Joined, Seen, CachesFilled, Holds, ProjectedShaped, QsaShaped, Appended;
    var projected := k.project(input, caches.initial + n);
    if projected.None? || !ProjectedShaped(c, projected.value) {
      return KernelFailed, [];
    }
    var p := projected.value;
    StoreToken(c, caches, n, p, keys, values, raw);
    status, output := AttendPosition(c, k, caches, n, p, keys, values, raw);
  }

  /** The token loop of a call. */
  method ExecuteTokens(c: QsaConfig, k: QsaKernels, caches: Caches, hidden: seq<Row>,
                       keys: array<F32>, values: array<F32>, raw: array<F32>)
    returns (status: Status, output: seq<Row>)
    requires c.Valid() && CachesFilled(c, caches) && caches.initial + |hidden| <= UINT32_MAX
    requires Holds(c, |hidden|, keys[..], values[..], raw[..])
    requires keys != values && keys != raw && values != raw
    modifies keys, values, raw
    ensures var r := Run(QsaStep(c, k), Seen(c, caches, 0, [], [], []), hidden);
            && (status.Ok? <==> r.Some?)
            && (status.Ok? ==> r == Some((Seen(c, caches, |hidden|, keys[..], values[..], raw[..]), output)))
  {
    hide QsaToken, CachesFilled;
    ghost var start := Seen(c, caches, 0, [], [], []);
    output := [];
    for n := 0 to |hidden|
      invariant Holds(c, n, keys[..], values[..], raw[..])
      invariant Run(QsaStep(c, k), start, hidden[..n]) == Some((Seen(c, caches, n, keys[..], values[..], raw[..]), output))
    {
      hide Seen;
      assert hidden[..n + 1][..n] == hidden[..n] && hidden[..n + 1][n] == hidden[n];
      HoldsLess(c, n + 1, |hidden|, keys[..], values[..], raw[..]);
      hide Holds;
      var row;
      status, row := ExecuteToken(c, k, caches, n, hidden[n], keys, values, raw);
      if !status.Ok? {
        RunFailsOnPrefix(QsaStep(c, k), start, hidden, n + 1);
        return status, [];
      }
      HoldsLess(c, n + 1, |hidden|, keys[..], values[..], raw[..]);
      output := output + [row];
    }
    assert hidden[..|hidden|] == hidden;
    status := Ok;
  }

  lemma HoldsLess(c: QsaConfig, n: nat, m: nat, keys: Row, values: Row, raw: Row)
    requires n <= m && Cells(m, c.kvWidth) <= |keys| && Cells(m, c.kvWidth) <= |values| && Cells(m, c.rawWidth) <= |raw|
    ensures Holds(c, n, keys, values, raw)
  {
    CellsMono(n, m, c.kvWidth);
    CellsMono(n, m, c.rawWidth);
  }

  /** The finiteness checks on input and caches. */
  method CheckInputs(finite: F32 -> bool, view: QsaView, hidden: seq<Row>) returns (status: Status)
    ensures status.Ok? <==> FiniteView(finite, view) && forall t :: 0 <= t < |hidden| ==> AllFinite(finite, hidden[t])
  {
    hide AllFinite;
    for t := 0 to |hidden|
      invariant forall u :: 0 <= u < t ==> AllFinite(finite, hidden[u])
    {
      var ok := CheckFinite(finite, hidden[t]);
      if !ok {
        return NumericDomain;
      }
    }
    var keysFinite := CheckFinite(finite, view.keys);
    var valuesFinite := CheckFinite(finite, view.values);
    var rawFinite := CheckFinite(finite, view.raw);
    if !keysFinite || !valuesFinite || !rawFinite {
      return NumericDomain;
    }
    status := Ok;
  }

  /** Copies the first `count` rows of a buffer into a cache at row `at`. */
  function Committed(cache: Row, rows: Row, at: nat): (r: Row)
    requires at + |rows| <= |cache|
    ensures |r| == |cache|
  {
    cache[..at] + rows + cache[at + |rows|..]
  }

  /** After the commit the filled part of the cache is the joined cache. */
  lemma CommitIsJoined(cache: Row, pending: Row, initial: nat, width: nat, n: nat, capacity: nat)
    requires |cache| == Cells(capacity, width) && |pending| == Cells(n, width) && initial + n <= capacity
    ensures Cells(initial, width) + |pending| == Cells(initial + n, width) <= |cache|
    ensures Committed(cache, pending, Cells(initial, width))[..Cells(initial + n, width)] == Joined(cache, pending, initial, width, n)
  {
    CellsAdd(initial, n, width);
    CellsMono(initial + n, capacity, width);
  }

  /** The state of one slot: caches of fixed capacity, filled up to `length` tokens. Rows past
      `length` are whatever earlier calls left there. */
  class QsaState {
    const capacity: nat
    var length: nat
    var keyCache: Row
    var valueCache: Row
    var rawCache: Row

    predicate Valid(c: QsaConfig)
      reads this
    {
      && length <= capacity <= UINT32_MAX
      && |keyCache| == Cells(capacity, c.kvWidth) && |valueCache| == Cells(capacity, c.kvWidth) && |rawCache| == Cells(capacity, c.rawWidth)
    }

    /** The filled part of the caches. */
    function View(c: QsaConfig): (view: QsaView)
      requires Valid(c)
      reads this
      ensures view.length == length && QsaShaped(c, view)
    {
      CellsMono(length, capacity, c.kvWidth);
      CellsMono(length, capacity, c.rawWidth);
      QsaView(length, keyCache[..Cells(length, c.kvWidth)], valueCache[..Cells(length, c.kvWidth)], rawCache[..Cells(length, c.rawWidth)])
    }

    constructor (c: QsaConfig, capacity: nat)
      requires capacity <= UINT32_MAX
      ensures Valid(c) && this.capacity == capacity && View(c) == FRESH_QSA
    {
      this.capacity := capacity;
      length := 0;
      keyCache := seq(Cells(capacity, c.kvWidth), _ => ZERO);
      valueCache := seq(Cells(capacity, c.kvWidth), _ => ZERO);
      rawCache := seq(Cells(capacity, c.rawWidth), _ => ZERO);
    }

    /** Forgets the rows without touching them. */
    method Reset(c: QsaConfig)
      requires Valid(c)
      modifies this
      ensures Valid(c) && View(c) == FRESH_QSA
    {
      length := 0;
    }

    /** Export and import, as the slot copy does them; import refuses values that are not finite
        and lengths above the capacity. */
    method CopyFrom(c: QsaConfig, finite: F32 -> bool, other: QsaState) returns (status: Status)
      requires Valid(c) && other.Valid(c)
      modifies this
      ensures Valid(c)
      ensures status.Ok? <==> old(other.length) <= capacity && FiniteView(finite, old(other.View(c)))
      ensures View(c) == if status.Ok? then old(other.View(c)) else old(View(c))
    {
      var view := other.View(c);
      if view.length > capacity {
        return InvalidArgument;
      }
      var keysFinite := CheckFinite(finite, view.keys);
      var valuesFinite := CheckFinite(finite, view.values);
      var rawFinite := CheckFinite(finite, view.raw);
      if !keysFinite || !valuesFinite || !rawFinite {
        return NumericDomain;
      }
      CellsMono(view.length, capacity, c.kvWidth);
      CellsMono(view.length, capacity, c.rawWidth);
      keyCache := Committed(keyCache, view.keys, 0);
      valueCache := Committed(valueCache, view.values, 0);
      rawCache := Committed(rawCache, view.raw, 0);
      length := view.length;
      status := Ok;
    }

    /** Runs the operator over all tokens against caches and pending rows, and commits the pending
        rows behind the cached ones at the end. */
    method Execute(c: QsaConfig, k: QsaKernels, hidden: seq<Row>) returns (status: Status, output: seq<Row>)
      requires c.Valid() && Valid(c)
      modifies this
      ensures Valid(c)
      ensures status.Ok? <==> QsaCall(c, k, capacity, old(View(c)), hidden).Some?
      ensures status.Ok? ==> Some((View(c), output)) == QsaCall(c, k, capacity, old(View(c)), hidden)
      ensures !status.Ok? ==> View(c) == old(View(c))
    {
      hide QsaToken, AllFinite;
      ghost var start := View(c);
      if hidden == [] || length + |hidden| > capacity {
        return LimitExceeded, [];
      }
      var view := View(c);
      status := CheckInputs(k.finite, view, hidden);
      if !status.Ok? {
        return status, [];
      }
      var keys := new F32[Cells(|hidden|, c.kvWidth)];
      var values := new F32[Cells(|hidden|, c.kvWidth)];
      var raw := new F32[Cells(|hidden|, c.rawWidth)];
      var caches := Caches(length, keyCache, valueCache, rawCache);
      SeenAtStart(c, this, caches);
      hide FiniteView, Seen;
      status, output := ExecuteTokens(c, k, caches, hidden, keys, values, raw);
      if !status.Ok? {
        return status, [];
      }
      Commit(c, caches, |hidden|, keys[..], values[..], raw[..]);
    }

    /** Copies the pending rows behind the cached ones. */
    method Commit(c: QsaConfig, ghost caches: Caches, n: nat, keys: Row, values: Row, raw: Row)
      requires Valid(c) && length + n <= capacity
      requires |keys| == |values| == Cells(n, c.kvWidth) && |raw| == Cells(n, c.rawWidth)
      requires caches == Caches(length, keyCache, valueCache, rawCache) && CachesFilled(c, caches)
      modifies this
      ensures Valid(c) && View(c) == Seen(c, caches, n, keys, values, raw)
    {
      CommitIsJoined(keyCache, keys, length, c.kvWidth, n, capacity);
      CommitIsJoined(valueCache, values, length, c.kvWidth, n, capacity);
      CommitIsJoined(rawCache, raw, length, c.rawWidth, n, capacity);
      hide Joined, Committed, Cells;
      keyCache := Committed(keyCache, keys, Cells(length, c.kvWidth));
      valueCache := Committed(valueCache, values, Cells(length, c.kvWidth));
      rawCache := Committed(rawCache, raw, Cells(length, c.rawWidth));
      length := length + n;
    }
  }

  lemma SeenAtStart(c: QsaConfig, state: QsaState, caches: Caches)
    requires state.Valid(c) && caches == Caches(state.length, state.keyCache, state.valueCache, state.rawCache)
    ensures CachesFilled(c, caches) && Seen(c, caches, 0, [], [], []) == state.View(c)
  {
    CellsMono(state.length, state.capacity, c.kvWidth);
    CellsMono(state.length, state.capacity, c.rawWidth);
  }
}
