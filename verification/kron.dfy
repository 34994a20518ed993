/**
  The operator builder: a 2x2 gate per qubit position, folded left to right with
  the Kronecker product into a `2^n x 2^n` operator, and the row-vector product
  `state · operator` that applies it.

  Every Kronecker product the simulator forms has a 2x2 gate (or, for the initial
  state, a 2-vector) as its right operand, so `KronGate` and `KronVec` are the
  Kronecker product specialised to that right operand.
 */
module Kron {
  import opened Bits

  /** A 2x2 gate matrix; `At(row, column)`. */
  datatype Mat2 = Mat2(m00: int, m01: int, m10: int, m11: int)
  {
    function At(x: Bit, y: Bit): (e: int) {
      if x == 0 then (if y == 0 then m00 else m01) else (if y == 0 then m10 else m11)
    }

    function ToMatrix(): (m: Matrix) {
      [[m00, m01], [m10, m11]]
    }
  }

  type Vector = seq<int>

  type Matrix = seq<seq<int>>

  predicate IsSquare(m: Matrix, d: nat) {
    |m| == d && forall r :: 0 <= r < d ==> |m[r]| == d
  }

  /** The Kronecker product `a ⊗ g` of a square matrix with a 2x2 gate. */
  function KronGate(a: Matrix, g: Mat2): (m: Matrix)
    requires IsSquare(a, |a|)
    ensures IsSquare(m, 2 * |a|)
  {
    seq(2 * |a|, r requires 0 <= r < 2 * |a| =>
      seq(2 * |a|, c requires 0 <= c < 2 * |a| => a[r / 2][c / 2] * g.At(r % 2, c % 2)))
  }

  /** `reduce(np.kron, gs)`: the left fold of the Kronecker product, seeded with `gs[0]`. */
  function Reduce(gs: seq<Mat2>): (m: Matrix)
    requires |gs| >= 1
    ensures |m| == Pow2(|gs|) && IsSquare(m, |m|)
    decreases |gs|
  {
    if |gs| == 1 then gs[0].ToMatrix()
    else KronGate(Reduce(gs[..|gs| - 1]), gs[|gs| - 1])
  }

  /** The Kronecker product `v ⊗ q` of a vector with a 2-vector. */
  function KronVec(v: Vector, q: Vector): (w: Vector)
    requires |q| == 2
    ensures |w| == 2 * |v|
  {
    seq(2 * |v|, k requires 0 <= k < 2 * |v| => v[k / 2] * q[k % 2])
  }

  /** `reduce(np.kron, vs)` over 2-vectors. */
  function ReduceVec(vs: seq<Vector>): (w: Vector)
    requires |vs| >= 1
    requires forall i :: 0 <= i < |vs| ==> |vs[i]| == 2
    ensures |w| == Pow2(|vs|)
    decreases |vs|
  {
    if |vs| == 1 then vs[0] else KronVec(ReduceVec(vs[..|vs| - 1]), vs[|vs| - 1])
  }

  /** Entry `(r, c)` of `a ⊗ g` is `a[r / 2][c / 2] * g[r % 2][c % 2]`. */
  lemma KronGateEntry(a: Matrix, g: Mat2, r: nat, c: nat)
    requires IsSquare(a, |a|) && r < 2 * |a| && c < 2 * |a|
    ensures r / 2 < |a| && c / 2 < |a|
    ensures KronGate(a, g)[r][c] == a[r / 2][c / 2] * g.At(r % 2, c % 2)
  {
  }

  /** The fold of two or more gates is the fold of all but the last, times the last. */
  lemma ReduceUnfold(gs: seq<Mat2>)
    requires |gs| >= 2
    ensures Reduce(gs) == KronGate(Reduce(gs[..|gs| - 1]), gs[|gs| - 1])
  {
  }

  /** One fold step: entry `(r, c)` is the previous operator's entry at the halved indices times the new gate's entry at the last qubit. */
  lemma ReduceStep(gs: seq<Mat2>, r: nat, c: nat)
    requires |gs| >= 2 && r < Pow2(|gs|) && c < Pow2(|gs|)
    ensures r / 2 < Pow2(|gs| - 1) && c / 2 < Pow2(|gs| - 1)
    ensures Reduce(gs)[r][c] == Reduce(gs[..|gs| - 1])[r / 2][c / 2] * gs[|gs| - 1].At(r % 2, c % 2)
  {
    ReduceUnfold(gs);
    KronGateEntry(Reduce(gs[..|gs| - 1]), gs[|gs| - 1], r, c);
  }

  // ---------------------------------------------------------------------------
  // Entry formula of the fold

  /**
    The product, over the first `k` positions `i`, of gate `i`'s entry at the row
    and column given by qubit `i` of the basis indices `r` and `c`.
   */
  function PositionProduct(gs: seq<Mat2>, r: nat, c: nat, k: nat): (prod: int)
    requires k <= |gs|
  {
    if k == 0 then 1
    else PositionProduct(gs, r, c, k - 1) * gs[k - 1].At(BitAt(|gs|, r, k - 1), BitAt(|gs|, c, k - 1))
  }

  lemma {:induction false} PositionProductPrefix(gs: seq<Mat2>, r: nat, c: nat, k: nat)
    requires 1 <= |gs| && k < |gs|
    ensures PositionProduct(gs[..|gs| - 1], r / 2, c / 2, k) == PositionProduct(gs, r, c, k)
  {
    if k > 0 {
      PositionProductPrefix(gs, r, c, k - 1);
      assert BitAt(|gs|, r, k - 1) == BitAt(|gs| - 1, r / 2, k - 1);
      assert BitAt(|gs|, c, k - 1) == BitAt(|gs| - 1, c / 2, k - 1);
    }
  }

  /**
    Entry `(r, c)` of the folded operator is the product over every qubit
    position `i` of `gs[i][bit_i(r)][bit_i(c)]`, qubit 0 being the most
    significant digit of the index.
   */
  lemma {:induction false} FoldEntry(gs: seq<Mat2>, r: nat, c: nat)
    requires |gs| >= 1 && r < Pow2(|gs|) && c < Pow2(|gs|)
    ensures Reduce(gs)[r][c] == PositionProduct(gs, r, c, |gs|)
    decreases |gs|
  {
    var n := |gs|;
    if n == 1 {
      assert r < 2 && c < 2;
      assert BitAt(1, r, 0) == r && BitAt(1, c, 0) == c;
    } else {
      var pre := gs[..n - 1];
      assert |pre| == n - 1;
      ReduceStep(gs, r, c);
      FoldEntry(pre, r / 2, c / 2);
      PositionProductPrefix(gs, r, c, n - 1);
      assert BitAt(n, r, n - 1) == r % 2 && BitAt(n, c, n - 1) == c % 2;
    }
  }

  // ---------------------------------------------------------------------------
  // Row-vector product

  /** `Σ_{row < k} v[row] * m[row][c]`. */
  function ColumnSum(v: Vector, m: Matrix, c: nat, k: nat): (sum: int)
    requires IsSquare(m, |v|) && c < |v| && k <= |v|
  {
    if k == 0 then 0 else ColumnSum(v, m, c, k - 1) + v[k - 1] * m[k - 1][c]
  }

  /** `np.dot(v, m)` with `v` a row vector: entry `c` is `Σ_r v[r] * m[r][c]`. */
  function Dot(v: Vector, m: Matrix): (w: Vector)
    requires IsSquare(m, |v|)
    ensures |w| == |v|
  {
    seq(|v|, c requires 0 <= c < |v| => ColumnSum(v, m, c, |v|))
  }

  /** Entry-wise sum of two `d x d` matrices (`O1 + O2`). */
  function MatAdd(a: Matrix, b: Matrix, d: nat): (m: Matrix)
    requires IsSquare(a, d) && IsSquare(b, d)
    ensures IsSquare(m, d)
  {
    seq(d, r requires 0 <= r < d => seq(d, c requires 0 <= c < d => a[r][c] + b[r][c]))
  }

  function VecAdd(v: Vector, w: Vector): (u: Vector)
    requires |v| == |w|
    ensures |u| == |v|
  {
    seq(|v|, k requires 0 <= k < |v| => v[k] + w[k])
  }

  /** `w` at row `p`, zero elsewhere: one non-zero entry of a sparse column. */
  function Spike(r: nat, p: nat, w: int): (e: int) {
    if r == p then w else 0
  }

  lemma {:induction false} ColumnSumSpikes(v: Vector, m: Matrix, c: nat, k: nat, p0: nat, w0: int, p1: nat, w1: int)
    requires IsSquare(m, |v|) && c < |v| && k <= |v|
    requires p0 != p1
    requires forall r :: 0 <= r < |v| ==> m[r][c] == Spike(r, p0, w0) + Spike(r, p1, w1)
    ensures ColumnSum(v, m, c, k) == (if p0 < k then v[p0] * w0 else 0) + (if p1 < k then v[p1] * w1 else 0)
  {
    if k > 0 {
      ColumnSumSpikes(v, m, c, k - 1, p0, w0, p1, w1);
      var r := k - 1;
      if r == p0 {
        assert m[r][c] == w0;
      } else if r == p1 {
        assert m[r][c] == w1;
      } else {
        assert m[r][c] == 0;
      }
    }
  }

  /**
    If column `c` of the operator holds `w0` at row `p0`, `w1` at row `p1` and
    zeros elsewhere, the product picks exactly those two amplitudes.
   */
  lemma DotTwoSpikes(v: Vector, m: Matrix, c: nat, p0: nat, w0: int, p1: nat, w1: int)
    requires IsSquare(m, |v|) && c < |v| && p0 < |v| && p1 < |v| && p0 != p1
    requires forall r :: 0 <= r < |v| ==> m[r][c] == Spike(r, p0, w0) + Spike(r, p1, w1)
    ensures Dot(v, m)[c] == v[p0] * w0 + v[p1] * w1
  {
    ColumnSumSpikes(v, m, c, |v|, p0, w0, p1, w1);
  }

  lemma {:induction false} ColumnSumOneSpike(v: Vector, m: Matrix, c: nat, k: nat, p: nat, w: int)
    requires IsSquare(m, |v|) && c < |v| && k <= |v|
    requires forall r :: 0 <= r < |v| ==> m[r][c] == Spike(r, p, w)
    ensures ColumnSum(v, m, c, k) == if p < k then v[p] * w else 0
  {
    if k > 0 {
      ColumnSumOneSpike(v, m, c, k - 1, p, w);
      if k - 1 == p {
        assert m[k - 1][c] == w;
      } else {
        assert m[k - 1][c] == 0;
      }
    }
  }

  /** A column that holds `w` at row `p` and zeros elsewhere picks `v[p] * w`. */
  lemma DotOneSpike(v: Vector, m: Matrix, c: nat, p: nat, w: int)
    requires IsSquare(m, |v|) && c < |v| && p < |v|
    requires forall r :: 0 <= r < |v| ==> m[r][c] == Spike(r, p, w)
    ensures Dot(v, m)[c] == v[p] * w
  {
    ColumnSumOneSpike(v, m, c, |v|, p, w);
  }

  lemma {:induction false} ColumnSumZero(v: Vector, m: Matrix, c: nat, k: nat)
    requires IsSquare(m, |v|) && c < |v| && k <= |v|
    requires forall r :: 0 <= r < |v| ==> m[r][c] == 0
    ensures ColumnSum(v, m, c, k) == 0
  {
    if k > 0 {
      ColumnSumZero(v, m, c, k - 1);
      assert m[k - 1][c] == 0;
    }
  }

  /** An all-zero column gives a zero amplitude. */
  lemma DotZeroColumn(v: Vector, m: Matrix, c: nat)
    requires IsSquare(m, |v|) && c < |v|
    requires forall r :: 0 <= r < |v| ==> m[r][c] == 0
    ensures Dot(v, m)[c] == 0
  {
    ColumnSumZero(v, m, c, |v|);
  }

  lemma {:induction false} ColumnSumAdd(v: Vector, a: Matrix, b: Matrix, c: nat, k: nat)
    requires IsSquare(a, |v|) && IsSquare(b, |v|) && c < |v| && k <= |v|
    ensures ColumnSum(v, MatAdd(a, b, |v|), c, k) == ColumnSum(v, a, c, k) + ColumnSum(v, b, c, k)
  {
    if k > 0 {
      ColumnSumAdd(v, a, b, c, k - 1);
      var s := MatAdd(a, b, |v|);
      assert s[k - 1][c] == a[k - 1][c] + b[k - 1][c];
      assert v[k - 1] * s[k - 1][c] == v[k - 1] * a[k - 1][c] + v[k - 1] * b[k - 1][c];
    }
  }

  /** The row-vector product distributes over the operator sum: `v·(A+B) = v·A + v·B`. */
  lemma DotAdd(v: Vector, a: Matrix, b: Matrix)
    requires IsSquare(a, |v|) && IsSquare(b, |v|)
    ensures Dot(v, MatAdd(a, b, |v|)) == VecAdd(Dot(v, a), Dot(v, b))
  {
    forall c | 0 <= c < |v|
      ensures Dot(v, MatAdd(a, b, |v|))[c] == VecAdd(Dot(v, a), Dot(v, b))[c]
    {
      ColumnSumAdd(v, a, b, c, |v|);
    }
  }
}
