/** Products of reals behind a name. Proofs hide the definition, so that the solver sees a product
    as a term and uses only the laws it is given. */
module RealProduct {

  function Mul(x: real, y: real): real { x * y }

  function Square(x: real): real { Mul(x, x) }

  lemma Commutes(x: real, y: real)
    ensures Mul(x, y) == Mul(y, x)
  {
  }

  lemma Associates(x: real, y: real, z: real)
    ensures Mul(Mul(x, y), z) == Mul(x, Mul(y, z))
  {
    assert x * y * z == x * (y * z);
  }

  lemma Distributes(c: real, x: real, y: real)
    ensures Mul(c, x + y) == Mul(c, x) + Mul(c, y)
    ensures Mul(c, x - y) == Mul(c, x) - Mul(c, y)
  {
  }

  lemma Units(x: real)
    ensures Mul(x, 1.0) == x && Mul(1.0, x) == x && Mul(x, 0.0) == 0.0 && Mul(0.0, x) == 0.0
  {
  }

  lemma NonNegative(x: real, y: real)
    requires x >= 0.0 && y >= 0.0
    ensures Mul(x, y) >= 0.0
  {
  }

  lemma SquareNonNegative(x: real)
    ensures Square(x) >= 0.0
  {
  }

  lemma Shrinks(factor: real, x: real)
    requires x >= 0.0 && 0.0 <= factor <= 1.0
    ensures 0.0 <= Mul(factor, x) <= x
  {
    hide Mul;
    NonNegative(factor, x);
    NonNegative(1.0 - factor, x);
    Commutes(1.0 - factor, x);
    Distributes(x, 1.0, factor);
    Units(x);
    Commutes(x, factor);
  }

  /** (xy)^2 = x^2 y^2 */
  lemma SquareOfProduct(x: real, y: real)
    ensures Square(Mul(x, y)) == Mul(Square(x), Square(y))
  {
    hide Mul;
    Associates(x, y, Mul(x, y));
    Commutes(y, Mul(x, y));
    Associates(x, y, y);
    Associates(x, x, Square(y));
  }

  /** (x + y)^2 = x^2 + 2xy + y^2 */
  lemma SquareOfSum(x: real, y: real)
    ensures Square(x + y) == Square(x) + 2.0 * Mul(x, y) + Square(y)
  {
    hide Mul;
    Distributes(x + y, x, y);
    Commutes(x + y, x);
    Commutes(x + y, y);
    Distributes(x, x, y);
    Distributes(y, x, y);
    Commutes(x, y);
  }
}

/** The recurrence over exact reals: the in-place loops compute the gated delta rule, and the state
    cannot grow by more than what is written into it. */
module GdnReal {
  import opened Foundation
  import opened Streaming
  import opened FlatIndex
  import opened RealProduct
  import opened ShiftRegister
  import opened Gdn

  const REAL: Arith<real> := Arith(0.0, (a: real, b: real) => a + b, (a: real, b: real) => a - b, (a: real, b: real) => Mul(a, b))

  /** Row i, column f of a head's state. */
  function Entry(d: GdnDims, state: seq<real>, i: nat, f: nat): real
    requires |state| == d.HeadSize() && i < d.keyDim && f < d.valueDim
  {
    state[At(i, f, d.valueDim, d.keyDim)]
  }

  /** Entry (i, j) of a(I - beta k k^T). */
  function Transition(h: Head<real>, i: nat, j: nat): real
    requires i < |h.key| && j < |h.key|
  {
    Mul(h.decay, (if i == j then 1.0 else 0.0) - Mul(Mul(h.beta, h.key[i]), h.key[j]))
  }

  /** The first n terms of entry (i, f) of the product a(I - beta k k^T) S. */
  function TransitionRow(d: GdnDims, h: Head<real>, state: seq<real>, i: nat, f: nat, n: nat): real
    requires HeadShaped(d, h) && |state| == d.HeadSize() && i < d.keyDim && f < d.valueDim && n <= d.keyDim
  {
    if n == 0 then 0.0
    else TransitionRow(d, h, state, i, f, n - 1) + Mul(Transition(h, i, n - 1), Entry(d, state, n - 1, f))
  }

  /** One more term of a column sum. */
  lemma ColumnDotStep(d: GdnDims, state: seq<real>, vector: seq<real>, f: nat, n: nat)
    requires |state| == d.HeadSize() && |vector| == d.keyDim && f < d.valueDim && 0 < n <= d.keyDim
    ensures ColumnDot(d, REAL, state, vector, f, n) ==
            ColumnDot(d, REAL, state, vector, f, n - 1) + Mul(Entry(d, state, n - 1, f), vector[n - 1])
  {
    hide Mul;
  }

  lemma TransitionTerm(a: real, b: real, k: real, q: real, s: real, e: real)
    ensures Mul(Mul(a, e - Mul(Mul(b, k), q)), s) == Mul(Mul(a, e), s) - Mul(Mul(a, Mul(b, k)), Mul(s, q))
  {
    hide Mul;
    var bk := Mul(b, k);
    Distributes(a, e, Mul(bk, q));
    Commutes(Mul(a, e - Mul(bk, q)), s);
    Distributes(s, Mul(a, e), Mul(a, Mul(bk, q)));
    Commutes(s, Mul(a, e));
    Commutes(s, Mul(a, Mul(bk, q)));
    Associates(a, bk, q);
    Associates(Mul(a, bk), q, s);
    Commutes(q, s);
  }

  lemma {:induction false} TransitionRowCloses(d: GdnDims, h: Head<real>, state: seq<real>, i: nat, f: nat, n: nat)
    requires HeadShaped(d, h) && |state| == d.HeadSize() && i < d.keyDim && f < d.valueDim && n <= d.keyDim
    ensures TransitionRow(d, h, state, i, f, n) ==
            (if i < n then Mul(h.decay, Entry(d, state, i, f)) else 0.0) -
            Mul(Mul(h.decay, Mul(h.beta, h.key[i])), ColumnDot(d, REAL, state, h.key, f, n))
  {
    hide Mul, Entry;
    var g := Mul(h.decay, Mul(h.beta, h.key[i]));
    if n == 0 {
      Units(g);
    } else {
      TransitionRowCloses(d, h, state, i, f, n - 1);
      ColumnDotStep(d, state, h.key, f, n);
      hide ColumnDot;
      var s, q, e := Entry(d, state, n - 1, f), h.key[n - 1], if i == n - 1 then 1.0 else 0.0;
      TransitionTerm(h.decay, h.beta, h.key[i], q, s, e);
      Distributes(g, ColumnDot(d, REAL, state, h.key, f, n - 1), Mul(s, q));
      Units(h.decay);
      Units(s);
    }
  }

  lemma {:induction false} DecayLeavesDot(d: GdnDims, state: seq<real>, decay: real, vector: seq<real>, f: nat, n: nat)
    requires |state| == d.HeadSize() && |vector| == d.keyDim && f < d.valueDim && n <= d.keyDim
    ensures ColumnDot(d, REAL, Decayed(REAL, state, decay), vector, f, n) == Mul(decay, ColumnDot(d, REAL, state, vector, f, n))
  {
    hide Mul, Entry, Decayed;
    if n == 0 {
      Units(decay);
    } else {
      DecayLeavesDot(d, state, decay, vector, f, n - 1);
      ColumnDotStep(d, state, vector, f, n);
      ColumnDotStep(d, Decayed(REAL, state, decay), vector, f, n);
      DecayedEntry(d, state, decay, n - 1, f);
      hide ColumnDot;
      var s := Entry(d, state, n - 1, f);
      Associates(decay, s, vector[n - 1]);
      Distributes(decay, ColumnDot(d, REAL, state, vector, f, n - 1), Mul(s, vector[n - 1]));
    }
  }

  lemma DecayedEntry(d: GdnDims, state: seq<real>, decay: real, i: nat, f: nat)
    requires |state| == d.HeadSize() && i < d.keyDim && f < d.valueDim
    ensures Entry(d, Decayed(REAL, state, decay), i, f) == Mul(decay, Entry(d, state, i, f))
  {
    hide Mul;
    Commutes(decay, Entry(d, state, i, f));
  }

  lemma DeltaEntry(d: GdnDims, decayed: seq<real>, h: Head<real>, f: nat)
    requires |decayed| == d.HeadSize() && HeadShaped(d, h) && f < d.valueDim
    ensures Delta(d, REAL, decayed, h)[f] == Mul(h.beta, h.value[f] - ColumnDot(d, REAL, decayed, h.key, f, d.keyDim))
  {
    hide ColumnDot, Mul;
    Commutes(h.beta, h.value[f] - ColumnDot(d, REAL, decayed, h.key, f, d.keyDim));
  }

  /** What a column loses to what is read back: beta (v - a k.s). */
  function Correction(d: GdnDims, state: seq<real>, h: Head<real>, f: nat): real
    requires HeadShaped(d, h) && |state| == d.HeadSize() && f < d.valueDim
  {
    Mul(h.beta, h.value[f] - Mul(h.decay, ColumnDot(d, REAL, state, h.key, f, d.keyDim)))
  }

  /** What the loops leave in one cell. */
  lemma HeadStateCell(d: GdnDims, state: seq<real>, h: Head<real>, i: nat, f: nat)
    requires HeadShaped(d, h) && |state| == d.HeadSize() && i < d.keyDim && f < d.valueDim
    ensures Entry(d, HeadState(d, REAL, state, h), i, f) ==
            Mul(h.decay, Entry(d, state, i, f)) + Mul(Correction(d, state, h, f), h.key[i])
  {
    hide Mul, ColumnDot, Decayed, Delta, Written;
    var decayed := Decayed(REAL, state, h.decay);
    DecayLeavesDot(d, state, h.decay, h.key, f, d.keyDim);
    DecayedEntry(d, state, h.decay, i, f);
    DeltaEntry(d, decayed, h, f);
    WrittenCell(d, REAL, decayed, h.key, Delta(d, REAL, decayed, h), i, f);
    Commutes(h.key[i], Correction(d, state, h, f));
  }

  /** The delta rule: S' = a(I - beta k k^T)S + beta k v^T, and the head's output is q^T S'. */
  lemma DeltaRule(d: GdnDims, state: seq<real>, h: Head<real>, i: nat, f: nat)
    requires HeadShaped(d, h) && |state| == d.HeadSize() && i < d.keyDim && f < d.valueDim
    ensures Entry(d, HeadState(d, REAL, state, h), i, f) ==
            TransitionRow(d, h, state, i, f, d.keyDim) + Mul(Mul(h.beta, h.key[i]), h.value[f])
    ensures HeadOutput(d, REAL, state, h)[f] == ColumnDot(d, REAL, HeadState(d, REAL, state, h), h.query, f, d.keyDim)
  {
    hide Mul, HeadState, TransitionRow, ColumnDot, Entry;
    HeadStateCell(d, state, h, i, f);
    TransitionRowCloses(d, h, state, i, f, d.keyDim);
    WriteTerm(h.decay, h.beta, h.key[i], h.value[f], ColumnDot(d, REAL, state, h.key, f, d.keyDim));
  }

  lemma WriteTerm(a: real, b: real, k: real, v: real, p: real)
    ensures Mul(Mul(b, v - Mul(a, p)), k) == Mul(Mul(b, k), v) - Mul(Mul(a, Mul(b, k)), p)
  {
    hide Mul;
    Commutes(Mul(b, v - Mul(a, p)), k);
    Associates(k, b, v - Mul(a, p));
    Commutes(k, b);
    Distributes(Mul(b, k), v, Mul(a, p));
    Associates(Mul(b, k), a, p);
    Commutes(Mul(b, k), a);
  }

  // ----- the state stays bounded -----

  function ColumnSquares(d: GdnDims, state: seq<real>, f: nat, n: nat): real
    requires |state| == d.HeadSize() && f < d.valueDim && n <= d.keyDim
  {
    if n == 0 then 0.0 else ColumnSquares(d, state, f, n - 1) + Square(Entry(d, state, n - 1, f))
  }

  lemma {:induction false} ColumnSquaresNonNegative(d: GdnDims, state: seq<real>, f: nat, n: nat)
    requires |state| == d.HeadSize() && f < d.valueDim && n <= d.keyDim
    ensures ColumnSquares(d, state, f, n) >= 0.0
  {
    hide Mul, Square;
    if n > 0 {
      ColumnSquaresNonNegative(d, state, f, n - 1);
      SquareNonNegative(Entry(d, state, n - 1, f));
    }
  }

  function Squares(vector: seq<real>, n: nat): real
    requires n <= |vector|
  {
    if n == 0 then 0.0 else Squares(vector, n - 1) + Square(vector[n - 1])
  }

  lemma {:induction false} SquaresNonNegative(vector: seq<real>, n: nat)
    requires n <= |vector|
    ensures Squares(vector, n) >= 0.0
  {
    hide Mul, Square;
    if n > 0 {
      SquaresNonNegative(vector, n - 1);
      SquareNonNegative(vector[n - 1]);
    }
  }

  /** |a s + c k|^2 = a^2 |s|^2 + 2 ac s.k + c^2 |k|^2 */
  lemma {:induction false} ExpandSquares(d: GdnDims, state: seq<real>, after: seq<real>, key: seq<real>, f: nat, a: real, c: real, n: nat)
    requires |state| == d.HeadSize() && |after| == d.HeadSize() && |key| == d.keyDim && f < d.valueDim && n <= d.keyDim
    requires forall i :: 0 <= i < n ==> Entry(d, after, i, f) == Mul(a, Entry(d, state, i, f)) + Mul(c, key[i])
    ensures ColumnSquares(d, after, f, n) ==
            Mul(Square(a), ColumnSquares(d, state, f, n)) + 2.0 * Mul(Mul(a, c), ColumnDot(d, REAL, state, key, f, n)) +
            Mul(Square(c), Squares(key, n))
  {
    hide Mul, Square, Entry;
    if n == 0 {
      Units(Square(a));
      Units(Mul(a, c));
      Units(Square(c));
    } else {
      ExpandSquares(d, state, after, key, f, a, c, n - 1);
      ColumnDotStep(d, state, key, f, n);
      assert Entry(d, after, n - 1, f) == Mul(a, Entry(d, state, n - 1, f)) + Mul(c, key[n - 1]);
      hide ColumnDot;
      var s, q := Entry(d, state, n - 1, f), key[n - 1];
      TwoTermSquare(a, s, c, q);
      Distributes(Square(a), ColumnSquares(d, state, f, n - 1), Square(s));
      Distributes(Mul(a, c), ColumnDot(d, REAL, state, key, f, n - 1), Mul(s, q));
      Distributes(Square(c), Squares(key, n - 1), Square(q));
    }
  }

  lemma TwoTermSquare(a: real, s: real, c: real, q: real)
    ensures Square(Mul(a, s) + Mul(c, q)) ==
            Mul(Square(a), Square(s)) + 2.0 * Mul(Mul(a, c), Mul(s, q)) + Mul(Square(c), Square(q))
  {
    hide Mul, Square;
    SquareOfSum(Mul(a, s), Mul(c, q));
    SquareOfProduct(a, s);
    SquareOfProduct(c, q);
    Associates(a, s, Mul(c, q));
    Associates(s, c, q);
    Commutes(s, c);
    Associates(c, s, q);
    Associates(a, c, Mul(s, q));
  }

  /** What sigmoid, non-positive log decay and normalisation give. */
  predicate Tame(h: Head<real>) {
    0.0 <= h.beta <= 1.0 && 0.0 < h.decay <= 1.0 && Squares(h.key, |h.key|) <= 1.0
  }

  /** One update of one column: |s'|^2 <= a^2 |s|^2 + beta v^2. */
  lemma ColumnBound(d: GdnDims, state: seq<real>, h: Head<real>, f: nat)
    requires HeadShaped(d, h) && |state| == d.HeadSize() && f < d.valueDim && Tame(h)
    ensures ColumnSquares(d, HeadState(d, REAL, state, h), f, d.keyDim) <=
            Mul(Square(h.decay), ColumnSquares(d, state, f, d.keyDim)) + Mul(h.beta, Square(h.value[f]))
  {
    hide Mul, Square, HeadState, Entry, ColumnDot, ColumnSquares, Squares;
    var c := Correction(d, state, h, f);
    var after := HeadState(d, REAL, state, h);
    forall i | 0 <= i < d.keyDim ensures Entry(d, after, i, f) == Mul(h.decay, Entry(d, state, i, f)) + Mul(c, h.key[i]) {
      HeadStateCell(d, state, h, i, f);
    }
    ExpandSquares(d, state, after, h.key, f, h.decay, c, d.keyDim);
    SquaresNonNegative(h.key, d.keyDim);
    var p := ColumnDot(d, REAL, state, h.key, f, d.keyDim);
    CrossTerms(h.beta, Mul(h.decay, p), h.value[f], Squares(h.key, d.keyDim));
    Associates(h.decay, c, p);
    Commutes(c, p);
    Associates(h.decay, p, c);
  }

  /** With c = b(v - x): 2xc + c^2 s <= b v^2 for b and s in [0, 1]. */
  lemma CrossTerms(b: real, x: real, v: real, s: real)
    requires 0.0 <= b <= 1.0 && 0.0 <= s <= 1.0
    ensures var c := Mul(b, v - x); 2.0 * Mul(x, c) + Mul(Square(c), s) <= Mul(b, Square(v))
  {
    hide Mul, Square;
    var e := v - x;
    var c := Mul(b, e);
    assert Mul(Square(c), s) <= Square(c) by {
      SquareNonNegative(c);
      Shrinks(s, Square(c));
      Commutes(s, Square(c));
    }
    assert Square(c) <= Mul(b, Square(e)) by {
      CorrectionSquare(b, e);
    }
    assert Mul(b, Square(x)) >= 0.0 by {
      SquareNonNegative(x);
      NonNegative(b, Square(x));
    }
    assert Mul(x, c) == Mul(b, Mul(x, e)) by {
      Associates(x, b, e);
      Commutes(x, b);
      Associates(b, x, e);
    }
    assert Mul(b, Square(v)) == Mul(b, Square(x)) + 2.0 * Mul(b, Mul(x, e)) + Mul(b, Square(e)) by {
      SquareOfSum(x, e);
      Distributes(b, Square(x) + 2.0 * Mul(x, e), Square(e));
      Distributes(b, Square(x), 2.0 * Mul(x, e));
      Distributes(b, Mul(x, e), Mul(x, e));
    }
  }

  lemma CorrectionSquare(b: real, e: real)
    requires 0.0 <= b <= 1.0
    ensures Square(Mul(b, e)) <= Mul(b, Square(e))
  {
    SquareOfProduct(b, e);
    SquareNonNegative(e);
    Associates(b, b, Square(e));
    assert Square(b) == Mul(b, b);
    hide Mul, Square;
    NonNegative(b, Square(e));
    Shrinks(b, Mul(b, Square(e)));
  }

  /** Dividing by the root of the square sum plus epsilon leaves a vector of norm at most one:
      `inverse` is that reciprocal root. */
  lemma ScaledIsAtMostOne(vector: seq<real>, inverse: real, epsilon: real)
    requires epsilon > 0.0 && Mul(Square(inverse), Squares(vector, |vector|) + epsilon) == 1.0
    ensures Squares(Scaled(vector, inverse), |vector|) <= 1.0
  {
    hide Mul, Square;
    ScaledSquares(vector, inverse, |vector|);
    SquareNonNegative(inverse);
    NonNegative(Square(inverse), epsilon);
    Distributes(Square(inverse), Squares(vector, |vector|), epsilon);
  }

  function Scaled(vector: seq<real>, factor: real): (r: seq<real>)
    ensures |r| == |vector|
  {
    seq(|vector|, i requires 0 <= i < |vector| => Mul(vector[i], factor))
  }

  lemma {:induction false} ScaledSquares(vector: seq<real>, factor: real, n: nat)
    requires n <= |vector|
    ensures Squares(Scaled(vector, factor), n) == Mul(Square(factor), Squares(vector, n))
  {
    hide Mul, Square;
    if n == 0 {
      Units(Square(factor));
    } else {
      ScaledSquares(vector, factor, n - 1);
      SquareOfProduct(vector[n - 1], factor);
      Commutes(Square(vector[n - 1]), Square(factor));
      Distributes(Square(factor), Squares(vector, n - 1), Square(vector[n - 1]));
    }
  }

  // ----- the bound over whole runs of the operator -----

  /** Updating one head leaves the others alone: each head's segment evolves by itself. */
  lemma {:induction false} HeadsAreIndependent<F>(d: GdnDims, ops: Arith<F>, state: seq<F>, heads: seq<Head<F>>, n: nat, h: nat)
    requires |state| == d.heads * d.HeadSize() && HeadsShaped(d, heads) && n <= d.heads && h < d.heads
    ensures Segment(d, StateAfter(d, ops, state, heads, n), h) ==
            if h < n then HeadState(d, ops, Segment(d, state, h), heads[h]) else Segment(d, state, h)
  {
    hide HeadState, HeadShaped, Segment, WithSegment;
    if n > 0 {
      HeadsAreIndependent(d, ops, state, heads, n - 1, h);
      HeadsAreIndependent(d, ops, state, heads, n - 1, n - 1);
      var before := StateAfter(d, ops, state, heads, n - 1);
      SegmentOfWith(d, before, n - 1, HeadState(d, ops, Segment(d, before, n - 1), heads[n - 1]), h);
    }
  }

  lemma SegmentOfWith<F>(d: GdnDims, state: seq<F>, g: nat, segment: seq<F>, h: nat)
    requires |state| == d.heads * d.HeadSize() && g < d.heads && h < d.heads && |segment| == d.HeadSize()
    ensures Segment(d, WithSegment(d, state, g, segment), h) == if h == g then segment else Segment(d, state, h)
  {
    var m := d.HeadSize();
    MulStep(g, d.heads, m);
    MulStep(h, d.heads, m);
    MulStep(g, h, m);
    MulStep(h, g, m);
    var at, from := g * m, h * m;
    var after := WithSegment(d, state, g, segment);
    assert after == state[..at] + segment + state[at + m..];
    assert Segment(d, after, h) == after[from..from + m] && Segment(d, state, h) == state[from..from + m];
    hide *;
    assert g == h ==> from == at;
    assert g != h ==> from + m <= at || at + m <= from;
    SliceOfReplaced(state, at, segment, from);
    if g != h && from == at {
      assert m == 0;
    }
  }

  lemma SliceOfReplaced<F>(state: seq<F>, at: nat, segment: seq<F>, from: nat)
    requires at + |segment| <= |state| && from + |segment| <= |state|
    requires from == at || from + |segment| <= at || at + |segment| <= from
    ensures (state[..at] + segment + state[at + |segment|..])[from..from + |segment|] ==
            if from == at then segment else state[from..from + |segment|]
  {
  }

  /** The kernels compute over the reals what they are named after: exact arithmetic, the sum of
      squares, the reciprocal square root, a sigmoid, the comparison with zero, and an exponential
      that is at most one where its argument is not positive. Projections, convolution and activation
      are arbitrary. */
  ghost predicate Exact(k: GdnKernels<real>) {
    && k.ops == REAL && k.one == 1.0 && k.epsilon > 0.0
    && (forall v: seq<real> :: k.squareSum(v).Some? ==> k.squareSum(v).value == Squares(v, |v|))
    && (forall x: real :: x > 0.0 ==> Mul(Square(k.inverseRoot(x)), x) == 1.0)
    && (forall x: real :: k.sigmoid(x).Some? ==> 0.0 <= k.sigmoid(x).value <= 1.0)
    && (forall x: real :: k.positive(x) <==> x > 0.0)
    && (forall x: real :: x <= 0.0 ==> 0.0 < k.exp(x) <= 1.0)
  }

  /** A normalised vector has norm at most one. */
  lemma NormalisedIsAtMostOne(k: GdnKernels<real>, vector: seq<real>)
    requires Exact(k) && Normalised(k, vector, k.one).Some?
    ensures Squares(Normalised(k, vector, k.one).value, |vector|) <= 1.0
  {
    hide Mul, Square, Squares;
    SquaresNonNegative(vector, |vector|);
    var inverse := k.inverseRoot(Squares(vector, |vector|) + k.epsilon);
    ScaledIsAtMostOne(vector, inverse, k.epsilon);
    forall i | 0 <= i < |vector| ensures Normalised(k, vector, k.one).value[i] == Scaled(vector, inverse)[i] {
      Units(Mul(vector[i], inverse));
    }
    assert Normalised(k, vector, k.one).value == Scaled(vector, inverse);
  }

  /** A normalised vector is the vector rescaled: its square norm is the square of the scale, times the
      share that the vector's own square norm has of that and epsilon, and it points along the vector. */
  lemma NormalisedLength(k: GdnKernels<real>, vector: seq<real>, scale: real)
    requires Exact(k) && Normalised(k, vector, scale).Some?
    ensures var r := Normalised(k, vector, scale).value; var norm := Squares(vector, |vector|);
            && |r| == |vector| && Mul(Squares(r, |r|), norm + k.epsilon) == Mul(Square(scale), norm)
            && forall i, j :: 0 <= i < |r| && 0 <= j < |r| ==> Mul(r[i], vector[j]) == Mul(r[j], vector[i])
  {
    hide Mul, Square, Squares;
    SquaresNonNegative(vector, |vector|);
    var r, norm := Normalised(k, vector, scale).value, Squares(vector, |vector|);
    var inverse := k.inverseRoot(norm + k.epsilon);
    var once := Scaled(vector, inverse);
    assert r == Scaled(once, scale);
    ScaledSquares(vector, inverse, |vector|);
    ScaledSquares(once, scale, |once|);
    ThreeFactors(Square(scale), Square(inverse), norm, norm + k.epsilon);
    forall i, j | 0 <= i < |r| && 0 <= j < |r| ensures Mul(r[i], vector[j]) == Mul(r[j], vector[i]) {
      SwapFactors(vector[i], inverse, scale, vector[j]);
    }
  }

  lemma ThreeFactors(s: real, i: real, n: real, e: real)
    requires Mul(i, e) == 1.0
    ensures Mul(Mul(s, Mul(i, n)), e) == Mul(s, n)
  {
    hide Mul;
    Associates(s, Mul(i, n), e);
    Associates(i, n, e);
    Commutes(n, e);
    Associates(i, e, n);
    Units(n);
  }

  lemma SwapFactors(x: real, i: real, s: real, y: real)
    ensures Mul(Mul(Mul(x, i), s), y) == Mul(Mul(Mul(y, i), s), x)
  {
    hide Mul;
    Associates(x, i, s);
    Associates(y, i, s);
    Associates(x, Mul(i, s), y);
    Associates(y, Mul(i, s), x);
    Commutes(Mul(i, s), y);
    Commutes(Mul(i, s), x);
    Commutes(x, Mul(y, Mul(i, s)));
    Associates(y, Mul(i, s), x);
  }

  /** The sigmoid, the check of the logarithm and the normalisation make every head tame. */
  lemma HeadIsTame(d: Dims, k: GdnKernels<real>, activated: seq<real>, beta: seq<real>, alpha: seq<real>, h: nat)
    requires Exact(k) && |activated| == d.channels && |beta| == |alpha| == d.heads && h < d.heads
    requires HeadOf(d, k, activated, beta, alpha)(h).Some?
    ensures var head := HeadOf(d, k, activated, beta, alpha)(h).value;
            HeadShaped(d, head) && Tame(head) && head.value == Piece(activated, ValueAt(d, h), d.valueDim)
  {
    hide Normalised, Squares, Mul, Square, QueryAt, KeyAt, ValueAt, Piece;
    NormalisedIsAtMostOne(k, Piece(activated, KeyAt(d, h), d.keyDim));
    GatesAreTame(k, h, beta[h], alpha[h]);
    hide Exact, DecayOf;
    var head := HeadOf(d, k, activated, beta, alpha)(h).value;
    assert head.key == Normalised(k, Piece(activated, KeyAt(d, h), d.keyDim), k.one).value;
  }

  lemma GatesAreTame(k: GdnKernels<real>, h: nat, beta: real, alpha: real)
    requires Exact(k) && k.sigmoid(beta).Some? && DecayOf(k, h, alpha).Some?
    ensures 0.0 <= k.sigmoid(beta).value <= 1.0 && 0.0 < DecayOf(k, h, alpha).value <= 1.0
  {
    hide Mul, Square, Squares;
    var log := k.logDecay(h, alpha).value;
    assert log <= 0.0;
  }

  lemma PreparedIsTame(d: Dims, k: GdnKernels<real>, conv: seq<real>, input: seq<real>, h: nat)
    requires |conv| == d.channels * KERNEL_SIZE && Exact(k)
    requires Prepared(d, k, conv, input).Some? && h < d.heads
    ensures HeadShaped(d, Prepared(d, k, conv, input).value.2[h]) && Tame(Prepared(d, k, conv, input).value.2[h])
  {
    hide HeadOf, ConvDotOf, ShiftIn, Exact;
    var projected := k.project(input).value;
    var convolved := MapAll(ConvDotOf(k, ShiftIn(conv, KERNEL_SIZE, projected.qkv)), Ids(d.channels)).value;
    var activated := Shaped(k.activate(convolved), d.channels).value;
    assert HeadOf(d, k, activated, projected.beta, projected.alpha)(Ids(d.heads)[h]) == Some(Prepared(d, k, conv, input).value.2[h]);
    HeadIsTame(d, k, activated, projected.beta, projected.alpha, h);
  }

  lemma HeadGrowth(d: GdnDims, segment: seq<real>, h: Head<real>, f: nat)
    requires HeadShaped(d, h) && |segment| == d.HeadSize() && f < d.valueDim && Tame(h)
    ensures ColumnSquares(d, HeadState(d, REAL, segment, h), f, d.keyDim) <= ColumnSquares(d, segment, f, d.keyDim) + Square(h.value[f])
  {
    hide Mul, ColumnSquares, HeadState, Squares;
    ColumnBound(d, segment, h, f);
    assert Square(h.decay) == Mul(h.decay, h.decay);
    hide Square;
    ColumnSquaresNonNegative(d, segment, f, d.keyDim);
    Shrinks(h.decay, h.decay);
    Shrinks(Square(h.decay), ColumnSquares(d, segment, f, d.keyDim));
    SquareNonNegative(h.value[f]);
    Shrinks(h.beta, Square(h.value[f]));
  }

  /** The entry of a head's value vector that a token writes. */
  function WrittenValue(d: Dims, k: GdnKernels<real>, view: GdnView<real>, input: seq<real>, h: nat, f: nat): real
    requires h < d.heads && f < d.valueDim && GdnToken(d, k, view, input).Some?
  {
    Prepared(d, k, view.conv, input).value.2[h].value[f]
  }

  /** One token of the operator, seen from one column of one head. */
  lemma TokenBound(d: Dims, k: GdnKernels<real>, view: GdnView<real>, input: seq<real>, h: nat, f: nat)
    requires Exact(k) && h < d.heads && f < d.valueDim && GdnToken(d, k, view, input).Some?
    ensures ViewShaped(d, view) && ViewShaped(d, GdnToken(d, k, view, input).value.0)
    ensures ColumnSquares(d, Segment(d, GdnToken(d, k, view, input).value.0.recurrent, h), f, d.keyDim) <=
            ColumnSquares(d, Segment(d, view.recurrent, h), f, d.keyDim) + Square(WrittenValue(d, k, view, input, h, f))
  {
    hide Prepared, StateAfter, CoreOutput, HeadState, Segment, ColumnSquares, Square, Tame;
    var heads := Prepared(d, k, view.conv, input).value.2;
    PreparedIsTame(d, k, view.conv, input, h);
    HeadsAreIndependent(d, k.ops, view.recurrent, heads, d.heads, h);
    HeadGrowth(d, Segment(d, view.recurrent, h), heads[h], f);
  }

  /** The squares of the values that a run writes into one column. */
  ghost function WrittenSquares(d: Dims, k: GdnKernels<real>, view: GdnView<real>, hidden: seq<seq<real>>, h: nat, f: nat): real
    requires h < d.heads && f < d.valueDim && Run(GdnStep(d, k), view, hidden).Some?
  {
    if hidden == [] then 0.0
    else
      var last := |hidden| - 1;
      WrittenSquares(d, k, view, hidden[..last], h, f) +
      Square(WrittenValue(d, k, Run(GdnStep(d, k), view, hidden[..last]).value.0, hidden[last], h, f))
  }

  /** Over any run, however long, a state column holds no more than it held and was given: its square
      norm grows by at most the squares of the values written into it. */
  lemma {:induction false} RunBound(d: Dims, k: GdnKernels<real>, view: GdnView<real>, hidden: seq<seq<real>>, h: nat, f: nat)
    requires Exact(k) && ViewShaped(d, view) && h < d.heads && f < d.valueDim
    requires Run(GdnStep(d, k), view, hidden).Some?
    ensures ViewShaped(d, Run(GdnStep(d, k), view, hidden).value.0)
    ensures ColumnSquares(d, Segment(d, Run(GdnStep(d, k), view, hidden).value.0.recurrent, h), f, d.keyDim) <=
            ColumnSquares(d, Segment(d, view.recurrent, h), f, d.keyDim) + WrittenSquares(d, k, view, hidden, h, f)
  {
    hide GdnToken, Exact, ColumnSquares, Segment, Square, Mul, WrittenValue;
    if hidden != [] {
      var last := |hidden| - 1;
      RunBound(d, k, view, hidden[..last], h, f);
      TokenBound(d, k, Run(GdnStep(d, k), view, hidden[..last]).value.0, hidden[last], h, f);
    }
  }
}
