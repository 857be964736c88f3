/** Measurement-error correction of a probability vector: `np.dot(M, v)` for
    a square operator M, applied once (counts simulator) or once per qubit
    operator in qubit order (density simulator). A column-stochastic operator
    only moves probability between basis states, so it keeps the total. */
module Correction {

  import opened Common
  import opened Bits
  import opened NoiseModel

  /** Entry j of v, and 0 past its end. */
  function At(v: seq<real>, j: nat): real
  {
    if j < |v| then v[j] else 0.0
  }

  /** sum_{j < k} f(i, j): part of row i of a grid of terms. */
  function RowTotal(f: (nat, nat) -> real, i: nat, k: nat): real
  {
    if k == 0 then 0.0 else RowTotal(f, i, k - 1) + f(i, k - 1)
  }

  /** sum_{i < k} f(i, j): part of column j of a grid of terms. */
  function ColumnTotal(f: (nat, nat) -> real, j: nat, k: nat): real
  {
    if k == 0 then 0.0 else ColumnTotal(f, j, k - 1) + f(k - 1, j)
  }

  /** Sum of rows 0..rows-1, each over columns 0..cols-1. */
  function ByRows(f: (nat, nat) -> real, rows: nat, cols: nat): real
  {
    if rows == 0 then 0.0 else ByRows(f, rows - 1, cols) + RowTotal(f, rows - 1, cols)
  }

  /** Sum of columns 0..cols-1, each over rows 0..rows-1. */
  function ByColumns(f: (nat, nat) -> real, rows: nat, cols: nat): real
  {
    if cols == 0 then 0.0 else ByColumns(f, rows, cols - 1) + ColumnTotal(f, cols - 1, rows)
  }

  /** The products M[i][j] * v[j] whose row sums make `np.dot(M, v)`. */
  function Terms(m: Operator, v: seq<real>): (nat, nat) -> real
  {
    (i: nat, j: nat) => Mul(m.entry(i, j), At(v, j))
  }

  /** `np.dot(M, v)`: entry i is sum_j M[i][j] * v[j]. A shape mismatch, which
      numpy rejects, is excluded by the precondition. */
  function Apply(m: Operator, v: seq<real>): (r: seq<real>)
    requires m.dim == |v|
    ensures |r| == |v|
  {
    seq(|v|, i requires 0 <= i < |v| => RowTotal(Terms(m, v), i, |v|))
  }

  /** Every column of M sums to 1: probability prepared in basis state j is
      redistributed, not created or lost. */
  ghost predicate ColumnStochastic(m: Operator)
  {
    forall j :: 0 <= j < m.dim ==> ColumnTotal(m.entry, j, m.dim) == 1.0
  }

  /** The density simulator's correction: each operator left-multiplies the
      vector in turn. */
  function ApplyAll(ops: seq<Operator>, v: seq<real>): (r: seq<real>)
    requires forall k :: 0 <= k < |ops| ==> ops[k].dim == |v|
    ensures |r| == |v|
    decreases |ops|
  {
    if ops == [] then v else ApplyAll(ops[1..], Apply(ops[0], v))
  }

  /** The loop `for M in meas(): probs = np.dot(M, probs)`. */
  method CorrectAll(ops: seq<Operator>, v: seq<real>) returns (probs: seq<real>)
    requires forall k :: 0 <= k < |ops| ==> ops[k].dim == |v|
    ensures probs == ApplyAll(ops, v)
  {
    probs := v;
    var k := 0;
    while k < |ops|
      invariant 0 <= k <= |ops|
      invariant |probs| == |v|
      invariant ApplyAll(ops[k..], probs) == ApplyAll(ops, v)
    {
      assert ops[k..][1..] == ops[k + 1..];
      probs := Apply(ops[k], probs);
      k := k + 1;
    }
  }

  // ---------------------------------------------------------------------
  // Identity

  lemma {:induction false} IdentityRow(v: seq<real>, i: nat, k: nat)
    requires k <= |v|
    ensures RowTotal(Terms(Identity(|v|), v), i, k) == if i < k then v[i] else 0.0
  {
    if k > 0 {
      IdentityRow(v, i, k - 1);
      var x := At(v, k - 1);
      assert Mul(1.0, x) == x && Mul(0.0, x) == 0.0;
    }
  }

  /** The identity operator leaves the vector alone. */
  lemma ApplyIdentity(v: seq<real>)
    ensures Apply(Identity(|v|), v) == v
  {
    forall i | 0 <= i < |v| ensures Apply(Identity(|v|), v)[i] == v[i] {
      IdentityRow(v, i, |v|);
    }
  }

  // ---------------------------------------------------------------------
  // Conservation of the total

  /** Adding one more row to every column adds that row's total. */
  lemma {:induction false} ColumnsGainRow(f: (nat, nat) -> real, rows: nat, cols: nat)
    ensures ByColumns(f, rows + 1, cols) == ByColumns(f, rows, cols) + RowTotal(f, rows, cols)
  {
    if cols > 0 {
      ColumnsGainRow(f, rows, cols - 1);
    }
  }

  /** A finite double sum can be taken in either order. */
  lemma {:induction false} SwapSums(f: (nat, nat) -> real, rows: nat, cols: nat)
    ensures ByRows(f, rows, cols) == ByColumns(f, rows, cols)
  {
    if rows > 0 {
      SwapSums(f, rows - 1, cols);
      ColumnsGainRow(f, rows - 1, cols);
    } else {
      NoRows(f, cols);
    }
  }

  lemma {:induction false} NoRows(f: (nat, nat) -> real, cols: nat)
    ensures ByColumns(f, 0, cols) == 0.0
  {
    if cols > 0 {
      NoRows(f, cols - 1);
    }
  }

  /** Column j of the terms is column j of M scaled by v[j]. */
  lemma {:induction false} ColumnOfTerms(m: Operator, v: seq<real>, j: nat, k: nat)
    ensures ColumnTotal(Terms(m, v), j, k) == Mul(ColumnTotal(m.entry, j, k), At(v, j))
  {
    if k > 0 {
      ColumnOfTerms(m, v, j, k - 1);
      var c, e, x := ColumnTotal(m.entry, j, k - 1), m.entry(k - 1, j), At(v, j);
      assert Mul(c, x) + Mul(e, x) == Mul(c + e, x);
    }
  }

  /** With column sums 1, the column-by-column total is the total of v. */
  lemma {:induction false} StochasticColumns(m: Operator, v: seq<real>, cols: nat)
    requires ColumnStochastic(m) && m.dim == |v| && cols <= |v|
    ensures ByColumns(Terms(m, v), |v|, cols) == Sum(v[..cols])
  {
    if cols > 0 {
      StochasticColumns(m, v, cols - 1);
      ColumnOfTerms(m, v, cols - 1, |v|);
      assert Mul(1.0, v[cols - 1]) == v[cols - 1];
      assert v[..cols][..cols - 1] == v[..cols - 1];
    }
  }

  /** The sum of a vector built entry by entry is the row-by-row sum. */
  lemma {:induction false} SumOfRows(m: Operator, v: seq<real>, rows: nat)
    requires m.dim == |v| && rows <= |v|
    ensures Sum(Apply(m, v)[..rows]) == ByRows(Terms(m, v), rows, |v|)
  {
    if rows > 0 {
      SumOfRows(m, v, rows - 1);
      assert Apply(m, v)[..rows][..rows - 1] == Apply(m, v)[..rows - 1];
    }
  }

  /** A column-stochastic operator preserves the total probability. */
  lemma ApplyPreservesTotal(m: Operator, v: seq<real>)
    requires m.dim == |v| && ColumnStochastic(m)
    ensures Sum(Apply(m, v)) == Sum(v)
  {
    SumOfRows(m, v, |v|);
    SwapSums(Terms(m, v), |v|, |v|);
    StochasticColumns(m, v, |v|);
    assert Apply(m, v)[..|v|] == Apply(m, v);
    assert v[..|v|] == v;
  }

  /** Correcting by a sequence of column-stochastic operators preserves the
      total probability. */
  lemma {:induction false} ApplyAllPreservesTotal(ops: seq<Operator>, v: seq<real>)
    requires forall k :: 0 <= k < |ops| ==> ops[k].dim == |v| && ColumnStochastic(ops[k])
    ensures Sum(ApplyAll(ops, v)) == Sum(v)
    decreases |ops|
  {
    if ops != [] {
      ApplyPreservesTotal(ops[0], v);
      ApplyAllPreservesTotal(ops[1..], Apply(ops[0], v));
    }
  }

  // ---------------------------------------------------------------------
  // The expanded measurement operators are column-stochastic

  /** Column j of a Kronecker product with a 2x2 factor b is column j/2 of a
      scaled by the sum of column j%2 of b. */
  lemma {:induction false} KronColumn(a: Operator, b: Operator, j: nat, k: nat)
    ensures ColumnTotal(KronTwo(a, b).entry, j, 2 * k) ==
      Mul(ColumnTotal(a.entry, j / 2, k), b.entry(0, j % 2) + b.entry(1, j % 2))
  {
    if k > 0 {
      KronColumn(a, b, j, k - 1);
      var c, x := ColumnTotal(a.entry, j / 2, k - 1), a.entry(k - 1, j / 2);
      var b0, b1 := b.entry(0, j % 2), b.entry(1, j % 2);
      assert (2 * k - 2) / 2 == k - 1 && (2 * k - 1) / 2 == k - 1;
      assert (2 * k - 2) % 2 == 0 && (2 * k - 1) % 2 == 1;
      assert KronTwo(a, b).entry(2 * k - 2, j) == Mul(x, b0);
      assert KronTwo(a, b).entry(2 * k - 1, j) == Mul(x, b1);
      assert Mul(c, b0 + b1) + Mul(x, b0) + Mul(x, b1) == Mul(c + x, b0 + b1);
    }
  }

  /** A 2x2 operator whose columns sum to 1. */
  predicate StochasticTwo(b: Operator)
  {
    b.dim == 2 && b.entry(0, 0) + b.entry(1, 0) == 1.0 && b.entry(0, 1) + b.entry(1, 1) == 1.0
  }

  /** Kronecker product with a column-stochastic 2x2 factor keeps
      column-stochasticity. */
  lemma KronStochastic(a: Operator, b: Operator)
    requires ColumnStochastic(a) && StochasticTwo(b)
    ensures ColumnStochastic(KronTwo(a, b))
  {
    forall j | 0 <= j < 2 * a.dim ensures ColumnTotal(KronTwo(a, b).entry, j, 2 * a.dim) == 1.0 {
      KronColumn(a, b, j, a.dim);
      assert ColumnTotal(a.entry, j / 2, a.dim) == 1.0;
      assert Mul(1.0, 1.0) == 1.0;
    }
  }

  /** A finite column-stochastic measurement matrix, as an operator. */
  lemma MatrixStochastic(m: Mat2)
    requires m.IsFinite() && m.ColumnStochastic()
    ensures StochasticTwo(ToOperator(m))
  {
  }

  /** Each operator `build_full_measurement_matrices` builds from
      column-stochastic matrices is column-stochastic. */
  lemma {:induction false} ExpandStochastic(ms: seq<Mat2>, q: nat, k: nat)
    requires q < |ms| && AllFinite(ms) && ms[q].ColumnStochastic()
    ensures ColumnStochastic(Expand(ms, q, k))
  {
    if k == 0 {
      var one := Expand(ms, q, 0);
      assert ColumnTotal(one.entry, 0, 1) == 1.0;
    } else {
      ExpandStochastic(ms, q, k - 1);
      if q == k - 1 {
        MatrixStochastic(ms[q]);
      }
      KronStochastic(Expand(ms, q, k - 1), Factor(ms, q, k - 1));
    }
  }

  /** Hence the density simulator's correction by `meas()` keeps the total
      probability of the engine's vector when every measurement matrix is
      column-stochastic, as the ones `from_array` rebuilds are. */
  lemma MeasCorrectionPreservesTotal(ms: seq<Mat2>, n: nat, v: seq<real>)
    requires |ms| >= n && AllFinite(ms)
    requires forall q :: 0 <= q < |ms| ==> ms[q].ColumnStochastic()
    requires |v| == Pow2(n)
    ensures Sum(ApplyAll(FullMeas(ms, n), v)) == Sum(v)
  {
    var ops := FullMeas(ms, n);
    forall k | 0 <= k < n ensures ColumnStochastic(ops[k]) {
      ExpandStochastic(ms, k, n);
    }
    ApplyAllPreservesTotal(ops, v);
  }
}
