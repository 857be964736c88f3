/** Metrics that compare two vectors or distributions: the degree angle
    between two vectors (guarded and unguarded copies), the zero-smoothing
    step of the Kullback-Leibler comparison, and the discrete one-sample
    Kolmogorov-Smirnov statistic. The square root, `arccos`, pi and the
    element-wise `kl_div` of the numeric libraries are parameters; the
    square root is only asked to be one. */
module Comparison {

  import opened Common

  /** `sqrt` is a square root on the non-negative reals. */
  ghost predicate IsSqrt(sqrt: real -> real)
  {
    forall x :: x >= 0.0 ==> sqrt(x) >= 0.0 && Mul(sqrt(x), sqrt(x)) == x
  }

  /** A square is non-negative, and positive unless its root is zero. */
  lemma SquareFacts(x: real)
    ensures Mul(x, x) >= 0.0
    ensures x != 0.0 ==> Mul(x, x) > 0.0
  {
    if x > 0.0 {
      MulPositive(x, x);
    } else if x < 0.0 {
      MulPositive(-x, -x);
      assert Mul(-x, -x) == Mul(x, x);
    }
  }

  /** `np.dot` of two vectors of the same length. */
  function Dot(a: seq<real>, b: seq<real>): real
    requires |a| == |b|
  {
    if a == [] then 0.0 else Dot(a[..|a| - 1], b[..|b| - 1]) + Mul(a[|a| - 1], b[|b| - 1])
  }

  /** The squared Euclidean norm, the sum of the squared entries. */
  function NormSq(a: seq<real>): (r: real)
    ensures r >= 0.0
  {
    if a == [] then 0.0
    else
      SquareFacts(a[|a| - 1]);
      NormSq(a[..|a| - 1]) + Mul(a[|a| - 1], a[|a| - 1])
  }

  predicate IsZeroVector(a: seq<real>)
  {
    forall i :: 0 <= i < |a| ==> a[i] == 0.0
  }

  /** The squared norm vanishes exactly on the zero vector. */
  lemma {:induction false} NormSqZeroIffZeroVector(a: seq<real>)
    ensures NormSq(a) == 0.0 <==> IsZeroVector(a)
  {
    if a != [] {
      var init, x := a[..|a| - 1], a[|a| - 1];
      NormSqZeroIffZeroVector(init);
      assert forall i :: 0 <= i < |init| ==> init[i] == a[i];
      SquareFacts(x);
      if NormSq(a) == 0.0 {
        assert x == 0.0;
        assert IsZeroVector(init);
      }
    }
  }

  lemma {:induction false} DotSelf(a: seq<real>)
    ensures Dot(a, a) == NormSq(a)
  {
    if a != [] {
      DotSelf(a[..|a| - 1]);
    }
  }

  /** `np.linalg.norm` through the square-root parameter. */
  function Norm(a: seq<real>, sqrt: real -> real): real
  {
    sqrt(NormSq(a))
  }

  /** A square root of x is zero exactly when x is. */
  lemma SqrtZero(sqrt: real -> real, x: real)
    requires IsSqrt(sqrt) && x >= 0.0
    ensures sqrt(x) == 0.0 <==> x == 0.0
  {
    SquareFacts(sqrt(x));
    if sqrt(x) == 0.0 {
      assert Mul(sqrt(x), sqrt(x)) == 0.0;
    }
  }

  /** `np.clip(x, -1, 1)`. */
  function Clip(x: real): (r: real)
    ensures -1.0 <= r <= 1.0
    ensures -1.0 <= x <= 1.0 ==> r == x
    ensures x < -1.0 ==> r == -1.0
    ensures x > 1.0 ==> r == 1.0
  {
    if x < -1.0 then -1.0 else if x > 1.0 then 1.0 else x
  }

  /** dot(a, b) / |a| / |b|: the cosine of the angle between a and b. */
  function Cosine(a: seq<real>, b: seq<real>, sqrt: real -> real): real
    requires |a| == |b|
    requires Norm(a, sqrt) != 0.0 && Norm(b, sqrt) != 0.0
  {
    Dot(a, b) / Norm(a, sqrt) / Norm(b, sqrt)
  }

  /** arccos of the clipped cosine, converted to degrees. */
  function Degrees(c: real, arccos: real -> real, pi: real): real
    requires pi != 0.0
  {
    Mul(arccos(Clip(c)), 180.0) / pi
  }

  /** The unguarded `get_vec_angle` of the utilities module: the cosine is
      clipped into [-1, 1] before `arccos`, so `arccos` only ever sees a
      value in its domain, and the result is in degrees. */
  function VecAngle(a: seq<real>, b: seq<real>, sqrt: real -> real, arccos: real -> real, pi: real): (r: real)
    requires |a| == |b| && pi != 0.0
    requires Norm(a, sqrt) != 0.0 && Norm(b, sqrt) != 0.0
    ensures exists c :: -1.0 <= c <= 1.0 && r == Mul(arccos(c), 180.0) / pi
  {
    var c := Clip(Cosine(a, b, sqrt));
    Mul(arccos(c), 180.0) / pi
  }

  /** The guarded `get_vec_angle` of the statistics module: no angle (Python's
      `None`, after a warning) exactly when either vector is all zeros,
      otherwise the clipped angle. */
  function GuardedVecAngle(a: seq<real>, b: seq<real>, sqrt: real -> real, arccos: real -> real, pi: real): (r: Option<real>)
    requires |a| == |b| && pi != 0.0
    requires IsSqrt(sqrt)
    ensures r.None? <==> IsZeroVector(a) || IsZeroVector(b)
    ensures r.Some? ==> Norm(a, sqrt) != 0.0 && Norm(b, sqrt) != 0.0 && r.value == VecAngle(a, b, sqrt, arccos, pi)
  {
    SqrtZero(sqrt, NormSq(a));
    SqrtZero(sqrt, NormSq(b));
    NormSqZeroIffZeroVector(a);
    NormSqZeroIffZeroVector(b);
    if Norm(a, sqrt) == 0.0 || Norm(b, sqrt) == 0.0 then None
    else Some(VecAngle(a, b, sqrt, arccos, pi))
  }

  lemma DivideSquare(s: real)
    requires s != 0.0
    ensures Mul(s, s) / s / s == 1.0
  {
    assert Mul(s, s) / s == s;
  }

  /** A non-zero vector makes cosine 1 with itself. */
  lemma CosineWithItself(a: seq<real>, sqrt: real -> real)
    requires IsSqrt(sqrt) && Norm(a, sqrt) != 0.0
    ensures Cosine(a, a, sqrt) == 1.0
  {
    DotSelf(a);
    DivideSquare(Norm(a, sqrt));
  }

  /** Orthogonal vectors make cosine 0. */
  lemma CosineOrthogonal(a: seq<real>, b: seq<real>, sqrt: real -> real)
    requires |a| == |b| && Norm(a, sqrt) != 0.0 && Norm(b, sqrt) != 0.0
    requires Dot(a, b) == 0.0
    ensures Cosine(a, b, sqrt) == 0.0
  {
  }

  /** With arccos(1) = 0 and arccos(0) = pi/2, the test vectors come out
      right: [0, 1] and [1, 0] are 90 degrees apart, [1, 0] is 0 degrees
      from itself, and two zero vectors give no angle. */
  lemma UnitVectorAngles(sqrt: real -> real, arccos: real -> real, pi: real)
    requires IsSqrt(sqrt) && pi > 0.0
    requires arccos(1.0) == 0.0 && arccos(0.0) == pi / 2.0
    ensures GuardedVecAngle([0.0, 1.0], [1.0, 0.0], sqrt, arccos, pi) == Some(90.0)
    ensures GuardedVecAngle([1.0, 0.0], [1.0, 0.0], sqrt, arccos, pi) == Some(0.0)
    ensures GuardedVecAngle([0.0, 0.0], [0.0, 0.0], sqrt, arccos, pi) == None
  {
    UnitVectors(sqrt);
    OrthogonalAngle(sqrt, arccos, pi);
    SameDirectionAngle(sqrt, arccos, pi);
    assert !IsZeroVector([1.0, 0.0]) by { assert [1.0, 0.0][0] != 0.0; }
    assert !IsZeroVector([0.0, 1.0]) by { assert [0.0, 1.0][1] != 0.0; }
  }

  /** The two unit vectors have norm 1 and are orthogonal. */
  lemma UnitVectors(sqrt: real -> real)
    requires IsSqrt(sqrt)
    ensures Norm([1.0, 0.0], sqrt) == 1.0 && Norm([0.0, 1.0], sqrt) == 1.0
    ensures Dot([0.0, 1.0], [1.0, 0.0]) == 0.0
  {
    var e0, e1 := [1.0, 0.0], [0.0, 1.0];
    assert e0[..1] == [1.0] && e1[..1] == [0.0];
    assert [1.0][..0] == [] && [0.0][..0] == [];
    assert Mul(1.0, 1.0) == 1.0 && Mul(0.0, 0.0) == 0.0 && Mul(0.0, 1.0) == 0.0 && Mul(1.0, 0.0) == 0.0;
    assert NormSq(e0) == 1.0;
    assert NormSq(e1) == 1.0;
    SquareFacts(sqrt(1.0));
    assert sqrt(1.0) == 1.0 by {
      if sqrt(1.0) < 1.0 {
        MulStrict(sqrt(1.0), 1.0, 1.0);
        if sqrt(1.0) > 0.0 { MulStrict(sqrt(1.0), 1.0, sqrt(1.0)); }
      } else if sqrt(1.0) > 1.0 {
        MulStrict(1.0, sqrt(1.0), sqrt(1.0));
        MulStrict(1.0, sqrt(1.0), 1.0);
      }
    }
  }

  lemma OrthogonalAngle(sqrt: real -> real, arccos: real -> real, pi: real)
    requires IsSqrt(sqrt) && pi > 0.0
    requires arccos(0.0) == pi / 2.0
    requires Norm([1.0, 0.0], sqrt) == 1.0 && Norm([0.0, 1.0], sqrt) == 1.0
    requires Dot([0.0, 1.0], [1.0, 0.0]) == 0.0
    ensures VecAngle([0.0, 1.0], [1.0, 0.0], sqrt, arccos, pi) == 90.0
  {
    CosineOrthogonal([0.0, 1.0], [1.0, 0.0], sqrt);
    assert Mul(pi / 2.0, 180.0) / pi == 90.0;
  }

  lemma SameDirectionAngle(sqrt: real -> real, arccos: real -> real, pi: real)
    requires IsSqrt(sqrt) && pi > 0.0
    requires arccos(1.0) == 0.0
    requires Norm([1.0, 0.0], sqrt) == 1.0
    ensures VecAngle([1.0, 0.0], [1.0, 0.0], sqrt, arccos, pi) == 0.0
  {
    CosineWithItself([1.0, 0.0], sqrt);
    assert Mul(0.0, 180.0) / pi == 0.0;
  }

  /** numpy's `count_nonzero`. */
  function CountNonzero(d: seq<real>): (r: nat)
    ensures r <= |d|
  {
    if d == [] then 0 else CountNonzero(d[..|d| - 1]) + (if d[|d| - 1] != 0.0 then 1 else 0)
  }

  /** Every zero entry becomes `eps` and every nonzero entry loses `delta`. */
  function SmoothWith(d: seq<real>, eps: real, delta: real): (r: seq<real>)
    ensures |r| == |d|
    ensures forall i :: 0 <= i < |d| ==> r[i] == if d[i] == 0.0 then eps else d[i] - delta
  {
    if d == [] then [] else SmoothWith(d[..|d| - 1], eps, delta) + [if d[|d| - 1] == 0.0 then eps else d[|d| - 1] - delta]
  }

  /** The smoothing step of `kl_dist_smoothing`: zeros become ε and the
      nonzero entries share the added mass, each losing zeros·ε/nonzeros.
      The division is only reached for a nonzero entry, so an all-zero
      distribution never divides. */
  function Smooth(d: seq<real>, eps: real): (r: seq<real>)
    ensures |r| == |d|
    ensures forall i :: 0 <= i < |d| && d[i] == 0.0 ==> r[i] == eps
  {
    SmoothWith(d, eps, Share(|d| - CountNonzero(d), CountNonzero(d), eps))
  }

  /** What each nonzero entry gives up: zeros·ε/nonzeros (never computed
      when there is no nonzero entry). */
  function Share(zeros: nat, nonzeros: nat, eps: real): real
  {
    if nonzeros == 0 then 0.0 else (zeros as real) * eps / (nonzeros as real)
  }

  /** The mass smoothing adds: ε for each zero entry, −δ for each nonzero one. */
  function SmoothGain(d: seq<real>, eps: real, delta: real): real
  {
    if d == [] then 0.0 else SmoothGain(d[..|d| - 1], eps, delta) + (if d[|d| - 1] == 0.0 then eps else -delta)
  }

  lemma {:induction false} SmoothWithSum(d: seq<real>, eps: real, delta: real)
    ensures Sum(SmoothWith(d, eps, delta)) == Sum(d) + SmoothGain(d, eps, delta)
  {
    if d != [] {
      var s := SmoothWith(d, eps, delta);
      assert s[..|s| - 1] == SmoothWith(d[..|d| - 1], eps, delta);
      SmoothWithSum(d[..|d| - 1], eps, delta);
    }
  }

  lemma AddOne(a: real, x: real)
    ensures Mul(a + 1.0, x) == Mul(a, x) + x
  {
  }

  /** The added mass is zeros·ε − nonzeros·δ. */
  lemma {:induction false} SmoothGainCounts(d: seq<real>, eps: real, delta: real, zeros: real, nonzeros: real)
    requires zeros == (|d| - CountNonzero(d)) as real && nonzeros == CountNonzero(d) as real
    ensures SmoothGain(d, eps, delta) == Mul(zeros, eps) - Mul(nonzeros, delta)
  {
    if d != [] {
      var init := d[..|d| - 1];
      var z0, n0 := (|init| - CountNonzero(init)) as real, CountNonzero(init) as real;
      SmoothGainCounts(init, eps, delta, z0, n0);
      if d[|d| - 1] == 0.0 {
        assert zeros == z0 + 1.0 && nonzeros == n0;
        AddOne(z0, eps);
      } else {
        assert zeros == z0 && nonzeros == n0 + 1.0;
        AddOne(n0, delta);
      }
    }
  }

  /** Smoothing a distribution with at least one nonzero entry keeps its total. */
  lemma SmoothPreservesTotal(d: seq<real>, eps: real)
    requires CountNonzero(d) >= 1
    ensures Sum(Smooth(d, eps)) == Sum(d)
  {
    var delta := Share(|d| - CountNonzero(d), CountNonzero(d), eps);
    assert Smooth(d, eps) == SmoothWith(d, eps, delta);
    SmoothWithSum(d, eps, delta);
    SmoothGainZero(d, eps);
  }

  /** With a nonzero entry the zeros gain exactly what the nonzeros give up. */
  lemma SmoothGainZero(d: seq<real>, eps: real)
    requires CountNonzero(d) >= 1
    ensures SmoothGain(d, eps, Share(|d| - CountNonzero(d), CountNonzero(d), eps)) == 0.0
  {
    var z, n := |d| - CountNonzero(d), CountNonzero(d);
    var delta := Share(z, n, eps);
    ShareBalances(z, n, eps);
    SmoothGainCounts(d, eps, delta, z as real, n as real);
    BalancedGain(SmoothGain(d, eps, delta), z as real, n as real, eps, delta);
  }

  /** The nonzero entries together give up exactly what the zeros gain. */
  lemma ShareBalances(zeros: nat, nonzeros: nat, eps: real)
    requires nonzeros > 0
    ensures Mul(nonzeros as real, Share(zeros, nonzeros, eps)) == Mul(zeros as real, eps)
  {
  }

  lemma BalancedGain(g: real, z: real, n: real, eps: real, delta: real)
    requires g == Mul(z, eps) - Mul(n, delta) && Mul(n, delta) == Mul(z, eps)
    ensures g == 0.0
  {
  }

  /** Every nonzero entry p becomes p − zeros·ε/nonzeros, and then there is
      at least one nonzero entry to divide by. */
  lemma SmoothNonzeroEntry(d: seq<real>, eps: real, i: nat)
    requires i < |d| && d[i] != 0.0
    ensures CountNonzero(d) >= 1
    ensures Smooth(d, eps)[i] == d[i] - Share(|d| - CountNonzero(d), CountNonzero(d), eps)
  {
    NonzeroCounted(d, i);
  }

  lemma {:induction false} NonzeroCounted(d: seq<real>, i: nat)
    requires i < |d| && d[i] != 0.0
    ensures CountNonzero(d) >= 1
  {
    if i < |d| - 1 {
      NonzeroCounted(d[..|d| - 1], i);
    }
  }

  /** An all-zero distribution becomes all ε. */
  lemma SmoothAllZero(d: seq<real>, eps: real)
    requires IsZeroVector(d)
    ensures Smooth(d, eps) == seq(|d|, _ => eps)
  {
  }

  /** numpy's broadcast of two one-dimensional shapes: equal lengths are
      combined entry by entry, a length-1 array is stretched to the other's
      length, and any other pair of lengths raises ValueError. */
  function BroadcastLength(a: nat, b: nat): Option<nat>
  {
    if a == b then Some(a) else if a == 1 then Some(b) else if b == 1 then Some(a) else None
  }

  /** The entry of an array of length `n` read at position `i` of the
      broadcast result. */
  function Stretched(n: nat, i: nat): nat
  {
    if n == 1 then 0 else i
  }

  lemma BroadcastFacts(a: nat, b: nat)
    ensures BroadcastLength(a, b).Some? <==> a == b || a == 1 || b == 1
    ensures BroadcastLength(a, b).Some? ==>
      var m := BroadcastLength(a, b).value;
      (a == 1 || m == a) && (b == 1 || m == b) && (m == 0 <==> a == 0 || b == 0)
    ensures BroadcastLength(a, b).Some? ==> forall i :: 0 <= i < BroadcastLength(a, b).value ==>
      Stretched(a, i) < a && Stretched(b, i) < b
  {
  }

  /** `kl_dist_smoothing`: the sum of the element-wise `kl_div` of the two
      smoothed distributions; `kl_div` broadcasts like every numpy ufunc, so
      a length-1 distribution is compared with each entry of the other and
      lengths that cannot be combined raise ValueError. */
  function KlDistSmoothing(d1: seq<real>, d2: seq<real>, eps: real, klDiv: (real, real) -> real): (r: Result<real>)
    ensures r.Success? <==> |d1| == |d2| || |d1| == 1 || |d2| == 1
    ensures r.Failure? ==> r.error == ValueError
  {
    BroadcastFacts(|d1|, |d2|);
    match BroadcastLength(|d1|, |d2|)
    case None => Failure(ValueError)
    case Some(m) =>
      var s1, s2 := Smooth(d1, eps), Smooth(d2, eps);
      Success(Sum(seq(m, i requires 0 <= i < m => klDiv(s1[Stretched(|d1|, i)], s2[Stretched(|d2|, i)]))))
  }

  /** A distribution compared with itself scores 0 when kl_div(x, x) = 0. */
  lemma KlDistSmoothingSelf(d: seq<real>, eps: real, klDiv: (real, real) -> real)
    requires forall x :: klDiv(x, x) == 0.0
    ensures KlDistSmoothing(d, d, eps, klDiv) == Success(0.0)
  {
    var s := Smooth(d, eps);
    assert seq(|d|, i requires 0 <= i < |d| => klDiv(s[Stretched(|d|, i)], s[Stretched(|d|, i)])) == seq(|d|, _ => 0.0);
    SumZeros(|d|);
  }

  /** Element-wise `kl_div` is never negative, so neither is the divergence. */
  lemma KlDistSmoothingNonnegative(d1: seq<real>, d2: seq<real>, eps: real, klDiv: (real, real) -> real)
    requires forall x, y :: klDiv(x, y) >= 0.0
    ensures KlDistSmoothing(d1, d2, eps, klDiv).Success? ==> KlDistSmoothing(d1, d2, eps, klDiv).value >= 0.0
  {
    BroadcastFacts(|d1|, |d2|);
    if BroadcastLength(|d1|, |d2|).Some? {
      var m := BroadcastLength(|d1|, |d2|).value;
      var s1, s2 := Smooth(d1, eps), Smooth(d2, eps);
      SumNonnegative(seq(m, i requires 0 <= i < m => klDiv(s1[Stretched(|d1|, i)], s2[Stretched(|d2|, i)])));
    }
  }

  /** The empirical CDF: entry i is the sum of the first i + 1 entries. */
  function Ecdf(d: seq<real>): (r: seq<real>)
    ensures |r| == |d|
    ensures forall i :: 0 <= i < |d| ==> r[i] == Sum(d[..i + 1])
  {
    seq(|d|, i requires 0 <= i < |d| => Sum(d[..i + 1]))
  }

  /** `ecdf1 - ecdf2` under numpy broadcasting: entry i is the difference of
      the two CDFs, a length-1 CDF standing for itself at every i. */
  function EcdfGap(d1: seq<real>, d2: seq<real>): (r: seq<real>)
    requires BroadcastLength(|d1|, |d2|).Some?
    ensures |r| == BroadcastLength(|d1|, |d2|).value
    ensures forall i :: 0 <= i < |r| ==>
      Stretched(|d1|, i) < |d1| && Stretched(|d2|, i) < |d2| &&
      r[i] == Sum(d1[..Stretched(|d1|, i) + 1]) - Sum(d2[..Stretched(|d2|, i) + 1])
  {
    BroadcastFacts(|d1|, |d2|);
    var e1, e2 := Ecdf(d1), Ecdf(d2);
    var m := BroadcastLength(|d1|, |d2|).value;
    seq(m, i requires 0 <= i < m => e1[Stretched(|d1|, i)] - e2[Stretched(|d2|, i)])
  }

  /** numpy's `.max()` of a non-empty array of absolute values. */
  function MaxAbs(s: seq<real>): (r: real)
    requires |s| > 0
    ensures forall i :: 0 <= i < |s| ==> Abs(s[i]) <= r
    ensures exists i :: 0 <= i < |s| && r == Abs(s[i])
    ensures r >= 0.0
  {
    if |s| == 1 then Abs(s[0])
    else
      var m := MaxAbs(s[..|s| - 1]);
      var last := Abs(s[|s| - 1]);
      assert forall i :: 0 <= i < |s| - 1 ==> s[i] == s[..|s| - 1][i];
      if m >= last then m else last
  }

  /** `discrete_one_samp_ks`: the statistic D = max_i |ecdf1_i − ecdf2_i| and
      the flag D < 1.36/√n. `math.sqrt` of a negative sample count raises
      ValueError and a zero count divides by zero; both happen before the
      ECDFs are formed. The subtraction broadcasts a length-1 ECDF against
      the other; lengths it cannot combine, and the maximum of an empty
      difference, raise ValueError. */
  function DiscreteOneSampKs(d1: seq<real>, d2: seq<real>, numSamples: int, sqrt: real -> real): (r: Result<(real, bool)>)
    requires IsSqrt(sqrt)
    ensures numSamples < 0 ==> r == Failure(ValueError)
    ensures numSamples == 0 ==> r == Failure(ZeroDivisionError)
    ensures r.Success? <==> numSamples > 0 && |d1| > 0 && |d2| > 0 && (|d1| == |d2| || |d1| == 1 || |d2| == 1)
    ensures numSamples > 0 && r.Failure? ==> r.error == ValueError
    ensures r.Success? ==> BroadcastLength(|d1|, |d2|).Some? && r.value.0 >= 0.0
    ensures r.Success? ==>
      BroadcastLength(|d1|, |d2|).Some? &&
      forall i :: 0 <= i < |EcdfGap(d1, d2)| ==> Abs(EcdfGap(d1, d2)[i]) <= r.value.0
    ensures r.Success? ==>
      BroadcastLength(|d1|, |d2|).Some? &&
      exists i :: 0 <= i < |EcdfGap(d1, d2)| && r.value.0 == Abs(EcdfGap(d1, d2)[i])
    ensures r.Success? ==> (r.value.1 <==> Mul(Mul(r.value.0, r.value.0), numSamples as real) < Mul(1.36, 1.36))
  {
    BroadcastFacts(|d1|, |d2|);
    if numSamples < 0 then Failure(ValueError)
    else if numSamples == 0 then Failure(ZeroDivisionError)
    else
      SqrtZero(sqrt, numSamples as real);
      var cutoff := 1.36 / sqrt(numSamples as real);
      if BroadcastLength(|d1|, |d2|).None? || BroadcastLength(|d1|, |d2|) == Some(0) then Failure(ValueError)
      else
        var maxDiff := MaxAbs(EcdfGap(d1, d2));
        KsCutoff(maxDiff, numSamples, sqrt);
        Success((maxDiff, maxDiff < cutoff))
  }

  /** For D >= 0 and n > 0 the cutoff test D < 1.36/√n is D·√n < 1.36, and
      also D²·n < 1.36². */
  lemma KsCutoff(d: real, numSamples: int, sqrt: real -> real)
    requires IsSqrt(sqrt) && numSamples > 0 && d >= 0.0
    ensures sqrt(numSamples as real) > 0.0
    ensures d < 1.36 / sqrt(numSamples as real) <==> Mul(d, sqrt(numSamples as real)) < 1.36
    ensures d < 1.36 / sqrt(numSamples as real) <==> Mul(Mul(d, d), numSamples as real) < Mul(1.36, 1.36)
  {
    var n := numSamples as real;
    var s := sqrt(n);
    SqrtZero(sqrt, n);
    var c := 1.36 / s;
    assert Mul(c, s) == 1.36;
    if d < c {
      MulStrict(d, c, s);
    } else if c < d {
      MulStrict(c, d, s);
    }
    var ds := Mul(d, s);
    assert Mul(ds, ds) == Mul(Mul(d, d), Mul(s, s));
    if ds < 1.36 {
      SquareMonotone(ds, 1.36);
    } else if 1.36 < ds {
      SquareMonotone(1.36, ds);
    }
  }

  lemma SquareMonotone(x: real, y: real)
    requires 0.0 <= x < y
    ensures Mul(x, x) < Mul(y, y)
  {
    MulStrict(x, y, y);
    if x > 0.0 {
      MulStrict(x, y, x);
      assert Mul(y, x) == Mul(x, y);
    } else {
      assert Mul(x, x) == 0.0 && Mul(x, y) == 0.0;
    }
  }

  /** The gaps between the empirical CDFs of the statistics tests'
      distributions. */
  lemma WorkedGaps()
    ensures EcdfGap([0.2, 0.4, 0.1, 0.3], [0.1, 0.3, 0.2, 0.4]) == [0.1, 0.2, 0.1, 0.0]
  {
    var d1, d2 := [0.2, 0.4, 0.1, 0.3], [0.1, 0.3, 0.2, 0.4];
    assert d1[..1] == [0.2] && d1[..2] == [0.2, 0.4] && d1[..3] == [0.2, 0.4, 0.1] && d1[..4] == d1;
    assert d2[..1] == [0.1] && d2[..2] == [0.1, 0.3] && d2[..3] == [0.1, 0.3, 0.2] && d2[..4] == d2;
    assert Sum(d1[..1]) == 0.2 && Sum(d2[..1]) == 0.1 by { assert [0.2][..0] == []; assert [0.1][..0] == []; }
    assert Sum(d1[..2]) == 0.6 && Sum(d2[..2]) == 0.4 by { assert d1[..2][..1] == [0.2]; assert d2[..2][..1] == [0.1]; }
    assert Sum(d1[..3]) == 0.7 && Sum(d2[..3]) == 0.6 by { assert d1[..3][..2] == [0.2, 0.4]; assert d2[..3][..2] == [0.1, 0.3]; }
    assert Sum(d1[..4]) == 1.0 && Sum(d2[..4]) == 1.0 by { assert d1[..3] == d1[..|d1| - 1]; assert d2[..3] == d2[..|d2| - 1]; }
  }

  /** The distributions of the statistics tests: D = 0.2, reached at the
      second entry. */
  lemma KsWorkedExample(sqrt: real -> real)
    requires IsSqrt(sqrt)
    ensures DiscreteOneSampKs([0.2, 0.4, 0.1, 0.3], [0.1, 0.3, 0.2, 0.4], 1000, sqrt).Success?
    ensures DiscreteOneSampKs([0.2, 0.4, 0.1, 0.3], [0.1, 0.3, 0.2, 0.4], 1000, sqrt).value.0 == 0.2
  {
    var d1, d2 := [0.2, 0.4, 0.1, 0.3], [0.1, 0.3, 0.2, 0.4];
    WorkedGaps();
    var gap := EcdfGap(d1, d2);
    assert Abs(gap[1]) == 0.2;
    assert forall k :: 0 <= k < 4 ==> Abs(gap[k]) <= 0.2;
    var r := DiscreteOneSampKs(d1, d2, 1000, sqrt);
    assert r.value.0 >= Abs(gap[1]);
    var k :| 0 <= k < 4 && r.value.0 == Abs(gap[k]);
  }

  /** A one-entry distribution is compared with every CDF entry of the
      other: [0.5] against [0.2, 0.3] has gaps [0.3, 0.0], so D = 0.3. */
  lemma KsBroadcastExample(sqrt: real -> real)
    requires IsSqrt(sqrt)
    ensures DiscreteOneSampKs([0.5], [0.2, 0.3], 1000, sqrt).Success?
    ensures DiscreteOneSampKs([0.5], [0.2, 0.3], 1000, sqrt).value.0 == 0.3
  {
    var d1, d2 := [0.5], [0.2, 0.3];
    var gap := EcdfGap(d1, d2);
    assert d1[..1] == d1 && d2[..1] == [0.2] && d2[..2] == d2;
    assert Sum(d1) == 0.5 by { assert d1[..0] == []; }
    assert Sum([0.2]) == 0.2 by { assert [0.2][..0] == []; }
    assert Sum(d2) == 0.5 by { assert d2[..1] == [0.2]; }
    assert gap == [0.3, 0.0];
    var r := DiscreteOneSampKs(d1, d2, 1000, sqrt);
    assert r.value.0 >= Abs(gap[0]);
    var k :| 0 <= k < 2 && r.value.0 == Abs(gap[k]);
  }
}
