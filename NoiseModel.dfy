/** The QuaC noise model: per-qubit T1/T2 times, optional 2x2 measurement
    error matrices and optional ZZ coupling rates; its flat-array encoding
    used by the optimisers; and the per-qubit expansion of each measurement
    matrix into a full-register operator, computed once and cached. */
module NoiseModel {

  import opened Common
  import opened Bits

  /** A 2x2 measurement matrix [[a, b], [c, d]]: column = prepared state,
      row = measured state in the layout the model's constructors build. */
  datatype Mat2 = Mat2(a: Ext, b: Ext, c: Ext, d: Ext)
  {
    /** numpy's `m[row][col]`. */
    function At(row: nat, col: nat): Ext
      requires row < 2 && col < 2
    {
      if row == 0 then (if col == 0 then a else b) else (if col == 0 then c else d)
    }

    /** Each column sums to one: b = 1 - d and c = 1 - a. */
    predicate ColumnStochastic()
    {
      c == a.OneMinus() && b == d.OneMinus()
    }

    predicate IsFinite()
    {
      a.Fin? && b.Fin? && c.Fin? && d.Fin?
    }
  }

  /** The four pieces of state a noise model is built from. */
  datatype NoiseParams = NoiseParams(
    t1s: seq<Ext>,
    t2s: seq<Ext>,
    meas: Option<seq<Mat2>>,
    zz: Option<map<(nat, nat), Ext>>)
  {
    /** `has_t1`: false exactly for a list that contains +inf and has a
        single distinct value. */
    predicate HasT1()
    {
      HasDecoherence(t1s)
    }

    predicate HasT2()
    {
      HasDecoherence(t2s)
    }

    predicate HasMeas()
    {
      meas.Some?
    }

    predicate HasZZ()
    {
      zz.Some?
    }
  }

  /** `not (float('inf') in times and len(set(times)) == 1)`. */
  predicate HasDecoherence(times: seq<Ext>)
  {
    !(PosInf in times && forall i, j :: 0 <= i < |times| && 0 <= j < |times| ==> times[i] == times[j])
  }

  /** A list of times reports no decoherence exactly when it is non-empty and
      every time is +inf; an empty list reports decoherence. */
  lemma NoDecoherenceIffAllInfinite(times: seq<Ext>)
    ensures !HasDecoherence(times) <==> |times| > 0 && forall i :: 0 <= i < |times| ==> times[i] == PosInf
  {
    if |times| > 0 && forall i :: 0 <= i < |times| ==> times[i] == PosInf {
      assert times[0] == PosInf;
    }
    if PosInf in times && forall i, j :: 0 <= i < |times| && 0 <= j < |times| ==> times[i] == times[j] {
      var k :| 0 <= k < |times| && times[k] == PosInf;
      forall i | 0 <= i < |times| ensures times[i] == PosInf {
        assert times[i] == times[k];
      }
    }
  }

  /** `get_noiseless_model(n)`: every T1 and T2 is +inf, no measurement
      error, no ZZ coupling. */
  function NoiselessParams(n: nat): (m: NoiseParams)
    ensures |m.t1s| == n && |m.t2s| == n
    ensures forall q :: 0 <= q < n ==> m.t1s[q] == PosInf && m.t2s[q] == PosInf
  {
    NoiseParams(seq(n, _ => PosInf), seq(n, _ => PosInf), None, None)
  }

  /** The noiseless model of at least one qubit reports none of the four
      noise kinds; with zero qubits `has_t1`/`has_t2` report true. */
  lemma NoiselessReportsNoNoise(n: nat)
    ensures n >= 1 ==> !NoiselessParams(n).HasT1() && !NoiselessParams(n).HasT2()
    ensures n == 0 ==> NoiselessParams(n).HasT1() && NoiselessParams(n).HasT2()
    ensures !NoiselessParams(n).HasMeas() && !NoiselessParams(n).HasZZ()
  {
    NoDecoherenceIffAllInfinite(NoiselessParams(n).t1s);
    NoDecoherenceIffAllInfinite(NoiselessParams(n).t2s);
  }

  // ---------------------------------------------------------------------
  // Qubit pairs in the order the encoding visits them

  /** Pairs (q1, x) with q1 < x < bound, in increasing x: the inner loop
      `for qubit2 in range(bound): if qubit1 < qubit2`. */
  function Row(q1: nat, bound: nat): seq<(nat, nat)>
  {
    if bound == 0 then []
    else Row(q1, bound - 1) + (if q1 < bound - 1 then [(q1, bound - 1)] else [])
  }

  /** The rows of the first `a` values of qubit1, each up to `n`. */
  function PairsUpTo(a: nat, n: nat): seq<(nat, nat)>
  {
    if a == 0 then [] else PairsUpTo(a - 1, n) + Row(a - 1, n)
  }

  /** All pairs q1 < q2 < n in lexicographic order: (0,1), (0,2), ... */
  function Pairs(n: nat): seq<(nat, nat)>
  {
    PairsUpTo(n, n)
  }

  predicate LexLess(p: (nat, nat), r: (nat, nat))
  {
    p.0 < r.0 || (p.0 == r.0 && p.1 < r.1)
  }

  predicate StrictlyLexSorted(ps: seq<(nat, nat)>)
  {
    forall i, j :: 0 <= i < j < |ps| ==> LexLess(ps[i], ps[j])
  }

  lemma {:induction false} RowFacts(q1: nat, bound: nat)
    ensures forall p :: p in Row(q1, bound) <==> p.0 == q1 && q1 < p.1 < bound
    ensures StrictlyLexSorted(Row(q1, bound))
  {
    if bound > 0 {
      RowFacts(q1, bound - 1);
    }
  }

  lemma {:induction false} PairsUpToFacts(a: nat, n: nat)
    ensures forall p :: p in PairsUpTo(a, n) <==> p.0 < a && p.0 < p.1 < n
    ensures StrictlyLexSorted(PairsUpTo(a, n))
  {
    if a > 0 {
      PairsUpToFacts(a - 1, n);
      RowFacts(a - 1, n);
      var u, v := PairsUpTo(a - 1, n), Row(a - 1, n);
      forall i, j | 0 <= i < j < |u + v|
        ensures LexLess((u + v)[i], (u + v)[j])
      {
        if j < |u| {
          assert (u + v)[i] == u[i] && (u + v)[j] == u[j];
        } else if i >= |u| {
          assert (u + v)[i] == v[i - |u|] && (u + v)[j] == v[j - |u|];
        } else {
          assert (u + v)[i] == u[i] && u[i] in u;
          assert (u + v)[j] == v[j - |u|] && v[j - |u|] in v;
        }
      }
    }
  }

  /** The pair order of the encoding lists each pair q1 < q2 < n exactly once,
      in strictly increasing lexicographic order. */
  lemma PairsFacts(n: nat)
    ensures forall p :: p in Pairs(n) <==> p.0 < p.1 < n
    ensures StrictlyLexSorted(Pairs(n))
  {
    PairsUpToFacts(n, n);
  }

  lemma {:induction false} PairsNonEmpty(n: nat)
    requires n >= 2
    ensures |Pairs(n)| >= 1
  {
    PairsFacts(n);
    assert (0, 1) in Pairs(n);
  }

  // ---------------------------------------------------------------------
  // The flat-array encoding

  /** `to_array` divides by, and `from_array` multiplies by, this factor. */
  const ArrayScale: real := 100000.0

  /** The diagonals [m.a, m.d] of each matrix, in qubit order. */
  function Diagonals(ms: seq<Mat2>): (r: seq<Ext>)
    ensures |r| == 2 * |ms|
  {
    if ms == [] then [] else Diagonals(ms[..|ms| - 1]) + [ms[|ms| - 1].a, ms[|ms| - 1].d]
  }

  lemma {:induction false} DiagonalsAt(ms: seq<Mat2>, q: nat)
    requires q < |ms|
    ensures Diagonals(ms)[2 * q] == ms[q].a && Diagonals(ms)[2 * q + 1] == ms[q].d
  {
    if q < |ms| - 1 {
      DiagonalsAt(ms[..|ms| - 1], q);
    }
  }

  /** The ZZ rates of `ps` in order; `KeyError` at the first pair without a
      rate. */
  function ZZValues(zz: map<(nat, nat), Ext>, ps: seq<(nat, nat)>): (r: Result<seq<Ext>>)
    ensures r.Success? <==> forall i :: 0 <= i < |ps| ==> ps[i] in zz
    ensures r.Success? ==> |r.value| == |ps| && forall i :: 0 <= i < |ps| ==> r.value[i] == zz[ps[i]]
    ensures r.Failure? ==> r.error == KeyError
  {
    if ps == [] then Success([])
    else match ZZValues(zz, ps[..|ps| - 1])
      case Failure(e) => Failure(e)
      case Success(vs) =>
        if ps[|ps| - 1] in zz then Success(vs + [zz[ps[|ps| - 1]]]) else Failure(KeyError)
  }

  /** The dictionary `from_array` fills: pair ps[i] gets vals[i]. */
  function ZZMap(ps: seq<(nat, nat)>, vals: seq<Ext>): (m: map<(nat, nat), Ext>)
    requires |ps| <= |vals|
    ensures forall p :: p in m <==> p in ps
  {
    if ps == [] then map[] else ZZMap(ps[..|ps| - 1], vals)[ps[|ps| - 1] := vals[|ps| - 1]]
  }

  lemma {:induction false} ZZMapAt(ps: seq<(nat, nat)>, vals: seq<Ext>, i: nat)
    requires |ps| <= |vals|
    requires StrictlyLexSorted(ps)
    requires i < |ps|
    ensures ZZMap(ps, vals)[ps[i]] == vals[i]
  {
    if i < |ps| - 1 {
      assert LexLess(ps[i], ps[|ps| - 1]);
      ZZMapAt(ps[..|ps| - 1], vals, i);
    }
  }

  function Shrunk(s: seq<Ext>): (r: seq<Ext>)
    ensures |r| == |s|
  {
    seq(|s|, i requires 0 <= i < |s| => s[i].Shrink(ArrayScale))
  }

  function Scaled(s: seq<Ext>): (r: seq<Ext>)
    ensures |r| == |s|
  {
    seq(|s|, i requires 0 <= i < |s| => s[i].Scale(ArrayScale))
  }

  /** `to_array`: T1s, T2s, then each measurement matrix's diagonal, then the
      ZZ rates of every pair q1 < q2 < n (n = number of T1 times) in
      lexicographic order, all divided by 100000. A missing pair raises
      `KeyError`. */
  function Encode(m: NoiseParams): (r: Result<seq<Ext>>)
    ensures r.Success? <==> (m.zz.Some? ==> forall p :: p in Pairs(|m.t1s|) ==> p in m.zz.value)
    ensures r.Success? ==> (|r.value| == |m.t1s| + |m.t2s|
      + (if m.meas.Some? then 2 * |m.meas.value| else 0)
      + (if m.zz.Some? then |Pairs(|m.t1s|)| else 0))
  {
    var measPart := if m.meas.Some? then Diagonals(m.meas.value) else [];
    var zzPart := if m.zz.Some? then ZZValues(m.zz.value, Pairs(|m.t1s|)) else Success([]);
    match zzPart
    case Failure(e) => Failure(e)
    case Success(zs) => Success(Shrunk(m.t1s + m.t2s + measPart + zs))
  }

  /** The matrix `from_array` rebuilds from a diagonal (d0, d1):
      [[d0, 1 - d1], [1 - d0, d1]]. */
  function FromDiagonal(d0: Ext, d1: Ext): (m: Mat2)
    ensures m.ColumnStochastic()
  {
    Mat2(d0, d1.OneMinus(), d0.OneMinus(), d1)
  }

  function DecodedMeas(s: seq<Ext>, n: nat): (ms: seq<Mat2>)
    requires |s| >= 4 * n
    ensures |ms| == n
  {
    seq(n, q requires 0 <= q < n => FromDiagonal(s[2 * n + 2 * q], s[2 * n + 2 * q + 1]))
  }

  /** `from_array(flat, n)`: multiply every entry by 100000; T1s are the
      first n entries and T2s the next n; an array of length exactly 2n has
      neither measurement nor ZZ data; otherwise entries 2n..4n are the
      measurement diagonals (`IndexError` if there are fewer); length 4n has
      no ZZ data; otherwise the ZZ rates of the pairs q1 < q2 < n follow from
      offset 4n (`IndexError` if there are fewer; extra entries are ignored). */
  function Decode(flat: seq<Ext>, n: nat): (r: Result<NoiseParams>)
    ensures r.Success? <==>
      |flat| == 2 * n || |flat| == 4 * n || |flat| >= 4 * n + |Pairs(n)|
    ensures r.Failure? ==> r.error == IndexError
    ensures r.Success? ==> |r.value.t1s| == n && |r.value.t2s| == n
    ensures r.Success? ==> (r.value.meas.Some? <==> |flat| != 2 * n)
    ensures r.Success? ==> (r.value.zz.Some? <==> |flat| != 2 * n && |flat| != 4 * n)
  {
    var s := Scaled(flat);
    if |flat| == 2 * n then
      Success(NoiseParams(s[..n], s[n..2 * n], None, None))
    else if |flat| < 4 * n then
      Failure(IndexError)
    else if |flat| == 4 * n then
      Success(NoiseParams(s[..n], s[n..2 * n], Some(DecodedMeas(s, n)), None))
    else if |flat| - 4 * n < |Pairs(n)| then
      Failure(IndexError)
    else
      Success(NoiseParams(s[..n], s[n..2 * n], Some(DecodedMeas(s, n)), Some(ZZMap(Pairs(n), s[4 * n..]))))
  }

  /** The models whose encoding decodes back to themselves: n T1s and n T2s;
      measurement matrices, if any, one per qubit, column-stochastic, and at
      least one qubit; ZZ rates, if any, exactly for the pairs q1 < q2 < n,
      together with measurement matrices and at least two qubits. */
  ghost predicate RoundTrips(m: NoiseParams, n: nat)
  {
    |m.t1s| == n && |m.t2s| == n &&
    (m.meas.Some? ==> (n >= 1 && |m.meas.value| == n &&
      forall q :: 0 <= q < n ==> m.meas.value[q].ColumnStochastic())) &&
    (m.zz.Some? ==> (m.meas.Some? && n >= 2 &&
      forall p :: p in m.zz.value <==> p in Pairs(n)))
  }

  lemma ShrinkScale(x: Ext)
    ensures x.Shrink(ArrayScale).Scale(ArrayScale) == x
  {
  }

  lemma ScaledShrunk(s: seq<Ext>)
    ensures Scaled(Shrunk(s)) == s
  {
    forall i | 0 <= i < |s| ensures Scaled(Shrunk(s))[i] == s[i] {
      ShrinkScale(s[i]);
    }
  }

  /** Round trip: `from_array(to_array(m), n)` reproduces m for every model
      satisfying `RoundTrips`. */
  lemma DecodeEncode(m: NoiseParams, n: nat)
    requires RoundTrips(m, n)
    ensures Encode(m).Success?
    ensures Decode(Encode(m).value, n) == Success(m)
  {
    var zs := EncodeLayout(m, n);
    var measPart := if m.meas.Some? then Diagonals(m.meas.value) else [];
    DecodeLayout(m, n, m.t1s + m.t2s + measPart + zs, zs);
  }

  /** What `to_array` produces for a model satisfying `RoundTrips`: the four
      blocks, shrunk, with the ZZ rates of every pair in order. */
  lemma EncodeLayout(m: NoiseParams, n: nat) returns (zs: seq<Ext>)
    requires RoundTrips(m, n)
    ensures Encode(m).Success?
    ensures m.zz.Some? ==> ZZValues(m.zz.value, Pairs(n)) == Success(zs)
    ensures m.zz.None? ==> zs == []
    ensures Encode(m).value == Shrunk(m.t1s + m.t2s + (if m.meas.Some? then Diagonals(m.meas.value) else []) + zs)
  {
    if m.zz.Some? {
      PairsFacts(n);
      zs := ZZValues(m.zz.value, Pairs(n)).value;
    } else {
      zs := [];
    }
  }

  /** Decoding the scaled-back layout rebuilds every block. */
  lemma DecodeLayout(m: NoiseParams, n: nat, flat: seq<Ext>, zs: seq<Ext>)
    requires RoundTrips(m, n)
    requires m.zz.Some? ==> ZZValues(m.zz.value, Pairs(n)) == Success(zs)
    requires m.zz.None? ==> zs == []
    requires flat == m.t1s + m.t2s + (if m.meas.Some? then Diagonals(m.meas.value) else []) + zs
    ensures Decode(Shrunk(flat), n) == Success(m)
  {
    ScaledShrunk(flat);
    var s := Scaled(Shrunk(flat));
    assert s == flat;
    assert s[..n] == m.t1s;
    assert s[n..2 * n] == m.t2s;
    if m.meas.Some? {
      DecodedMeasOfDiagonals(s, n, m.meas.value, m.t1s + m.t2s, zs);
    }
    if m.zz.Some? {
      PairsFacts(n);
      PairsNonEmpty(n);
      assert s[4 * n..] == zs;
      DecodedZZ(Pairs(n), m.zz.value);
    }
  }

  /** Rebuilding column-stochastic matrices from their diagonals gives them
      back. */
  lemma DecodedMeasOfDiagonals(s: seq<Ext>, n: nat, ms: seq<Mat2>, front: seq<Ext>, rest: seq<Ext>)
    requires |front| == 2 * n && |ms| == n
    requires s == front + Diagonals(ms) + rest
    requires forall q :: 0 <= q < n ==> ms[q].ColumnStochastic()
    ensures |s| >= 4 * n
    ensures DecodedMeas(s, n) == ms
  {
    forall q | 0 <= q < n ensures DecodedMeas(s, n)[q] == ms[q] {
      DiagonalsAt(ms, q);
      assert s[2 * n + 2 * q] == Diagonals(ms)[2 * q];
      assert s[2 * n + 2 * q + 1] == Diagonals(ms)[2 * q + 1];
    }
  }

  /** Filling a dictionary from the values listed for each of its keys, in a
      duplicate-free key order, gives it back. */
  lemma DecodedZZ(ps: seq<(nat, nat)>, z: map<(nat, nat), Ext>)
    requires StrictlyLexSorted(ps)
    requires forall p :: p in z <==> p in ps
    ensures ZZValues(z, ps).Success?
    ensures ZZMap(ps, ZZValues(z, ps).value) == z
  {
    assert forall i :: 0 <= i < |ps| ==> ps[i] in z;
    ZZMapOfValues(ps, ZZValues(z, ps).value, z);
  }

  /** The dictionary filled from the values of its own keys is itself. */
  lemma ZZMapOfValues(ps: seq<(nat, nat)>, vals: seq<Ext>, z: map<(nat, nat), Ext>)
    requires StrictlyLexSorted(ps)
    requires forall p :: p in z <==> p in ps
    requires |vals| == |ps|
    requires forall i :: 0 <= i < |ps| ==> ps[i] in z && vals[i] == z[ps[i]]
    ensures ZZMap(ps, vals) == z
  {
    var decoded := ZZMap(ps, vals);
    forall p | p in z ensures decoded[p] == z[p] {
      var i :| 0 <= i < |ps| && ps[i] == p;
      ZZMapAt(ps, vals, i);
    }
  }


  /** With ZZ rates but no measurement matrices the round trip breaks: two
      qubits, unit times and one rate encode to five entries, which decoding
      rejects with `IndexError` instead of rebuilding the model. */
  lemma ZZWithoutMeasDoesNotRoundTrip()
    ensures var m := NoiseParams([Fin(1.0), Fin(1.0)], [Fin(1.0), Fin(1.0)], None, Some(map[(0, 1) := Fin(5.0)]));
      Encode(m).Success? && |Encode(m).value| == 5 && Decode(Encode(m).value, 2) == Failure(IndexError)
  {
    assert Row(0, 1) == [];
    assert Row(0, 2) == [(0, 1)];
    assert Row(1, 2) == [];
    assert Pairs(2) == [(0, 1)];
  }

  // ---------------------------------------------------------------------
  // Expansion of a measurement matrix to the whole register

  /** A square real matrix of dimension `dim`; `entry(i, j)` matters for
      i, j < dim. */
  datatype Operator = Operator(dim: nat, entry: (nat, nat) -> real)

  /** `sparse.kron(a, b)` for a 2x2 right factor `b`. */
  function KronTwo(a: Operator, b: Operator): (r: Operator)
    ensures r.dim == 2 * a.dim
  {
    Operator(2 * a.dim, (i: nat, j: nat) => Mul(a.entry(i / 2, j / 2), b.entry(i % 2, j % 2)))
  }

  /** `sparse.eye(n)`. */
  function Identity(n: nat): (r: Operator)
    ensures r.dim == n
  {
    Operator(n, (i: nat, j: nat) => if i == j then 1.0 else 0.0)
  }

  /** A 2x2 measurement matrix as an operator (finite entries only). */
  function ToOperator(m: Mat2): (r: Operator)
    requires m.IsFinite()
    ensures r.dim == 2
  {
    Operator(2, (row: nat, col: nat) =>
      if row == 0 then (if col == 0 then m.a.v else m.b.v) else (if col == 0 then m.c.v else m.d.v))
  }

  predicate AllFinite(ms: seq<Mat2>)
  {
    forall q :: 0 <= q < |ms| ==> ms[q].IsFinite()
  }

  /** The factor of position `ind` in qubit q's product: M_q at q, I2 elsewhere. */
  function Factor(ms: seq<Mat2>, q: nat, ind: nat): (r: Operator)
    requires q < |ms| && AllFinite(ms)
    ensures r.dim == 2
  {
    if q == ind then ToOperator(ms[q]) else Identity(2)
  }

  /** The Kronecker product, from the 1x1 matrix [1], of the factors of positions 0..k-1. */
  function Expand(ms: seq<Mat2>, q: nat, k: nat): (r: Operator)
    requires q < |ms| && AllFinite(ms)
    ensures r.dim == Pow2(k)
  {
    if k == 0 then Operator(1, (i: nat, j: nat) => 1.0) else KronTwo(Expand(ms, q, k - 1), Factor(ms, q, k - 1))
  }

  /** One expanded operator per qubit of an n-qubit register. */
  function FullMeas(ms: seq<Mat2>, n: nat): (ops: seq<Operator>)
    requires |ms| >= n && AllFinite(ms)
    ensures |ops| == n
    ensures forall q :: 0 <= q < n ==> ops[q].dim == Pow2(n)
  {
    seq(n, q requires 0 <= q < n => Expand(ms, q, n))
  }

  /** Bits of i and j below `width` agree, except possibly at position `skip`. */
  predicate AgreeExcept(i: nat, j: nat, width: nat, skip: int)
  {
    forall b :: 0 <= b < width && b != skip ==> Bit(i, b) == Bit(j, b)
  }

  lemma AgreeShift(i: nat, j: nat, width: nat, skip: int)
    requires width >= 1
    ensures AgreeExcept(i, j, width, skip) <==>
      (skip == 0 || Bit(i, 0) == Bit(j, 0)) && AgreeExcept(i / 2, j / 2, width - 1, skip - 1)
  {
    if AgreeExcept(i, j, width, skip) {
      forall b | 0 <= b < width - 1 && b != skip - 1 ensures Bit(i / 2, b) == Bit(j / 2, b) {
        assert Bit(i, b + 1) == Bit(j, b + 1);
      }
    }
    if (skip == 0 || Bit(i, 0) == Bit(j, 0)) && AgreeExcept(i / 2, j / 2, width - 1, skip - 1) {
      forall b | 0 <= b < width && b != skip ensures Bit(i, b) == Bit(j, b) {
        if b > 0 {
          assert Bit(i / 2, b - 1) == Bit(j / 2, b - 1);
        }
      }
    }
  }

  /** Positions 0..k-1 all hold I2 (k <= q): the product is the identity. */
  lemma {:induction false} ExpandIdentity(ms: seq<Mat2>, q: nat, k: nat, i: nat, j: nat)
    requires q < |ms| && AllFinite(ms)
    requires k <= q
    ensures Expand(ms, q, k).entry(i, j) == if AgreeExcept(i, j, k, -1) then 1.0 else 0.0
  {
    if k > 0 {
      ExpandIdentity(ms, q, k - 1, i / 2, j / 2);
      AgreeShift(i, j, k, -1);
      assert Factor(ms, q, k - 1) == Identity(2);
      KronIdentityEntry(Expand(ms, q, k - 1), i, j);
    }
  }

  /** Closed form of qubit q's operator on k >= q+1 positions: entry (i, j) is
      M_q[bit k-1-q of i][bit k-1-q of j] when i and j agree on every other
      bit, and 0 otherwise. */
  lemma {:induction false} ExpandClosedForm(ms: seq<Mat2>, q: nat, k: nat, i: nat, j: nat)
    requires q < |ms| && AllFinite(ms)
    requires q < k
    ensures Expand(ms, q, k).entry(i, j) ==
      if AgreeExcept(i, j, k, k - 1 - q) then ms[q].At(Bit(i, k - 1 - q), Bit(j, k - 1 - q)).v else 0.0
  {
    if q == k - 1 {
      ExpandAtOwnPosition(ms, q, i, j);
    } else {
      AgreeShift(i, j, k, k - 1 - q);
      assert Factor(ms, q, k - 1) == Identity(2);
      KronIdentityEntry(Expand(ms, q, k - 1), i, j);
      ExpandClosedForm(ms, q, k - 1, i / 2, j / 2);
      assert Bit(i, k - 1 - q) == Bit(i / 2, k - 2 - q);
      assert Bit(j, k - 1 - q) == Bit(j / 2, k - 2 - q);
    }
  }

  /** A Kronecker step with I2 keeps entry (i/2, j/2) where the low bits of
      i and j agree, and is 0 elsewhere. */
  lemma KronIdentityEntry(a: Operator, i: nat, j: nat)
    ensures KronTwo(a, Identity(2)).entry(i, j) ==
      if Bit(i, 0) == Bit(j, 0) then a.entry(i / 2, j / 2) else 0.0
  {
    var x := a.entry(i / 2, j / 2);
    assert KronTwo(a, Identity(2)).entry(i, j) == Mul(x, Identity(2).entry(i % 2, j % 2));
    if i % 2 == j % 2 {
      assert Mul(x, 1.0) == x;
    } else {
      assert Mul(x, 0.0) == 0.0;
    }
  }

  /** The step that multiplies in M_q itself, after q identity factors. */
  lemma ExpandAtOwnPosition(ms: seq<Mat2>, q: nat, i: nat, j: nat)
    requires q < |ms| && AllFinite(ms)
    ensures Expand(ms, q, q + 1).entry(i, j) ==
      if AgreeExcept(i, j, q + 1, 0) then ms[q].At(Bit(i, 0), Bit(j, 0)).v else 0.0
  {
    var x := ms[q].At(Bit(i, 0), Bit(j, 0)).v;
    assert ToOperator(ms[q]).entry(i % 2, j % 2) == x;
    assert Factor(ms, q, q) == ToOperator(ms[q]);
    assert Expand(ms, q, q + 1).entry(i, j) == Mul(Expand(ms, q, q).entry(i / 2, j / 2), x);
    ExpandIdentity(ms, q, q, i / 2, j / 2);
    AgreeShift(i, j, q + 1, 0);
    assert Mul(1.0, x) == x && Mul(0.0, x) == 0.0;
  }

  /** The operator built for qubit q of an n-qubit register is 2^n x 2^n and
      acts on bit n-1-q of the basis-state index (qubit 0 is the leftmost
      Kronecker factor), leaving every other bit alone. */
  lemma MeasOperatorActsOnBit(ms: seq<Mat2>, q: nat, n: nat, i: nat, j: nat)
    requires q < n <= |ms| && AllFinite(ms)
    ensures Expand(ms, q, n).dim == Pow2(n)
    ensures Expand(ms, q, n).entry(i, j) ==
      if AgreeExcept(i, j, n, n - 1 - q) then ms[q].At(Bit(i, n - 1 - q), Bit(j, n - 1 - q)).v else 0.0
  {
    ExpandClosedForm(ms, q, n, i, j);
  }

  // ---------------------------------------------------------------------
  // The noise model object

  class QuacNoiseModel {
    const t1Times: seq<Ext>
    const t2Times: seq<Ext>
    const measMatrices: Option<seq<Mat2>>
    const zzRates: Option<map<(nat, nat), Ext>>
    /** The cache `meas()` fills on first use. */
    var fullMeasMatrices: seq<Operator>

    constructor(t1: seq<Ext>, t2: seq<Ext>, meas: Option<seq<Mat2>>, zz: Option<map<(nat, nat), Ext>>)
      ensures t1Times == t1 && t2Times == t2 && measMatrices == meas && zzRates == zz
      ensures fullMeasMatrices == []
    {
      t1Times := t1;
      t2Times := t2;
      measMatrices := meas;
      zzRates := zz;
      fullMeasMatrices := [];
    }

    /** `get_noiseless_model(n)`. */
    static method GetNoiselessModel(n: nat) returns (m: QuacNoiseModel)
      ensures fresh(m)
      ensures m.Params() == NoiselessParams(n) && m.fullMeasMatrices == []
    {
      m := new QuacNoiseModel(seq(n, _ => PosInf), seq(n, _ => PosInf), None, None);
    }

    function Params(): NoiseParams
    {
      NoiseParams(t1Times, t2Times, measMatrices, zzRates)
    }

    /** The cache is empty or holds what `build_full_measurement_matrices`
        builds from this model's matrices. */
    ghost predicate CacheValid()
      reads this
    {
      fullMeasMatrices == [] ||
      (measMatrices.Some? && |measMatrices.value| >= |t1Times| && AllFinite(measMatrices.value) &&
       fullMeasMatrices == FullMeas(measMatrices.value, |t1Times|))
    }

    /** `t1(q)`: `IndexError` past the end of the list. */
    function T1(q: nat): (r: Result<Ext>)
      ensures r.Success? <==> q < |t1Times|
      ensures r.Success? ==> r.value == t1Times[q]
    {
      if q < |t1Times| then Success(t1Times[q]) else Failure(IndexError)
    }

    /** `t2(q)`: `IndexError` past the end of the list. */
    function T2(q: nat): (r: Result<Ext>)
      ensures r.Success? <==> q < |t2Times|
      ensures r.Success? ==> r.value == t2Times[q]
    {
      if q < |t2Times| then Success(t2Times[q]) else Failure(IndexError)
    }

    /** `flip_prob(q, prep, meas)` = `meas_matrices[q][prep][meas]`: the row is
        indexed by `prep`. Without matrices Python raises `TypeError`; an index
        out of range raises `IndexError`. */
    function FlipProb(q: nat, prep: nat, meas: nat): (r: Result<Ext>)
      ensures measMatrices.None? ==> r == Failure(TypeError)
      ensures r.Success? <==> measMatrices.Some? && q < |measMatrices.value| && prep < 2 && meas < 2
      ensures r.Success? ==> r.value == measMatrices.value[q].At(prep, meas)
    {
      match measMatrices
      case None => Failure(TypeError)
      case Some(ms) =>
        if q < |ms| && prep < 2 && meas < 2 then Success(ms[q].At(prep, meas)) else Failure(IndexError)
    }

    /** `zz(q1, q2)`: with either argument missing, the set of pairs that have
        a rate; otherwise the rate of (q1, q2), `KeyError` if it has none.
        Without ZZ data Python raises on the `None` dictionary
        (`AttributeError` for `.keys()`, `TypeError` for indexing). */
    function ZZ(q1: Option<nat>, q2: Option<nat>): (r: Result<ZZAnswer>)
      ensures zzRates.None? ==> r.Failure?
      ensures zzRates.Some? && (q1.None? || q2.None?) ==> r == Success(DefinedPairs(zzRates.value.Keys))
      ensures zzRates.Some? && q1.Some? && q2.Some? ==>
        (r.Success? <==> (q1.value, q2.value) in zzRates.value) &&
        (r.Success? ==> r.value == Rate(zzRates.value[(q1.value, q2.value)]))
    {
      match zzRates
      case None => if q1.None? || q2.None? then Failure(AttributeError) else Failure(TypeError)
      case Some(z) =>
        if q1.None? || q2.None? then Success(DefinedPairs(z.Keys))
        else if (q1.value, q2.value) in z then Success(Rate(z[(q1.value, q2.value)]))
        else Failure(KeyError)
    }

    /** `to_array`, with the append loops of the source; the model itself is
        not changed. */
    method ToArray() returns (r: Result<seq<Ext>>)
      ensures r == Encode(Params())
    {
      var n := |t1Times|;
      var measPart: seq<Ext> := [];
      if measMatrices.Some? {
        measPart := MeasDiagonals(measMatrices.value);
      }
      var listForm := t1Times + t2Times + measPart;
      var zs: seq<Ext> := [];
      if zzRates.Some? {
        var rates := OrderedZZRates(zzRates.value, n);
        if rates.Failure? {
          return Failure(rates.error);
        }
        zs := rates.value;
      }
      r := Success(Shrunk(listForm + zs));
    }

    /** `build_full_measurement_matrices`: without matrices it returns n
        copies of `eye(n)` and caches nothing; otherwise it caches, for each
        qubit q, the Kronecker product of M_q at position q and I2 elsewhere. */
    method BuildFullMeasurementMatrices() returns (uncached: seq<Operator>)
      requires measMatrices.Some? ==> |measMatrices.value| >= |t1Times| && AllFinite(measMatrices.value)
      modifies this
      ensures measMatrices.None? ==>
        fullMeasMatrices == old(fullMeasMatrices) &&
        uncached == seq(|t1Times|, _ => Identity(|t1Times|))
      ensures measMatrices.Some? ==>
        fullMeasMatrices == FullMeas(measMatrices.value, |t1Times|) &&
        uncached == []
    {
      var n := |t1Times|;
      if measMatrices.None? {
        return seq(n, _ => Identity(n));
      }
      var ms := measMatrices.value;
      var fullMeas: seq<Operator> := [];
      var qubit := 0;
      while qubit < n
        invariant 0 <= qubit <= n
        invariant fullMeas == FullMeas(ms, n)[..qubit]
      {
        var expanded := Operator(1, (i: nat, j: nat) => 1.0);
        var ind := 0;
        while ind < n
          invariant 0 <= ind <= n
          invariant expanded == Expand(ms, qubit, ind)
        {
          if qubit == ind {
            expanded := KronTwo(expanded, ToOperator(ms[qubit]));
          } else {
            expanded := KronTwo(expanded, Identity(2));
          }
          ind := ind + 1;
        }
        fullMeas := fullMeas + [expanded];
        qubit := qubit + 1;
      }
      fullMeasMatrices := fullMeas;
      uncached := [];
    }

    /** `meas()`: build the cache only while it is empty, then return it; with
        no measurement matrices nothing is cached and `[]` comes back. */
    method Meas() returns (ops: seq<Operator>)
      requires measMatrices.Some? ==> |measMatrices.value| >= |t1Times| && AllFinite(measMatrices.value)
      modifies this
      ensures old(fullMeasMatrices) != [] ==> fullMeasMatrices == old(fullMeasMatrices)
      ensures old(fullMeasMatrices) == [] && measMatrices.None? ==> fullMeasMatrices == []
      ensures old(fullMeasMatrices) == [] && measMatrices.Some? ==>
        fullMeasMatrices == FullMeas(measMatrices.value, |t1Times|)
      ensures ops == fullMeasMatrices
    {
      if |fullMeasMatrices| == 0 {
        var _ := BuildFullMeasurementMatrices();
      }
      ops := fullMeasMatrices;
    }
  }

  /** The diagonal-appending loop of `to_array`. */
  method MeasDiagonals(ms: seq<Mat2>) returns (part: seq<Ext>)
    ensures part == Diagonals(ms)
  {
    part := [];
    var i := 0;
    while i < |ms|
      invariant 0 <= i <= |ms|
      invariant part == Diagonals(ms[..i])
    {
      assert ms[..i + 1][..i] == ms[..i];
      part := part + [ms[i].a, ms[i].d];
      i := i + 1;
    }
    assert ms[..i] == ms;
  }

  /** The nested ZZ loop of `to_array`: the rate of every pair q1 < q2 < n in
      lexicographic order, `KeyError` at the first pair without one. */
  method OrderedZZRates(z: map<(nat, nat), Ext>, n: nat) returns (r: Result<seq<Ext>>)
    ensures r == ZZValues(z, Pairs(n))
  {
    var zs: seq<Ext> := [];
    var qubit1 := 0;
    while qubit1 < n
      invariant 0 <= qubit1 <= n
      invariant ZZValues(z, PairsUpTo(qubit1, n)) == Success(zs)
    {
      var row := RowRates(z, qubit1, n, PairsUpTo(qubit1, n), zs);
      if row.Failure? {
        ghost var q2 :| qubit1 < q2 < n && (qubit1, q2) !in z;
        MissingPairFails(z, qubit1, q2, n);
        return row;
      }
      assert PairsUpTo(qubit1 + 1, n) == PairsUpTo(qubit1, n) + Row(qubit1, n);
      zs := row.value;
      qubit1 := qubit1 + 1;
    }
    r := Success(zs);
  }

  /** The inner loop of the ZZ part of `to_array`, over the partners q2 of
      qubit q1; `zs` holds the rates of the pairs `before` it. */
  method RowRates(z: map<(nat, nat), Ext>, q1: nat, n: nat, ghost before: seq<(nat, nat)>, zs: seq<Ext>)
    returns (r: Result<seq<Ext>>)
    requires ZZValues(z, before) == Success(zs)
    ensures r.Success? ==> r == ZZValues(z, before + Row(q1, n))
    ensures r.Failure? ==> r.error == KeyError && exists q2 :: q1 < q2 < n && (q1, q2) !in z
  {
    var acc := zs;
    var qubit2 := 0;
    assert before + Row(q1, 0) == before;
    while qubit2 < n
      invariant 0 <= qubit2 <= n
      invariant ZZValues(z, before + Row(q1, qubit2)) == Success(acc)
    {
      if q1 < qubit2 && (q1, qubit2) !in z {
        return Failure(KeyError);
      }
      RowRatesStep(z, q1, before, qubit2, acc);
      if q1 < qubit2 {
        acc := acc + [z[(q1, qubit2)]];
      }
      qubit2 := qubit2 + 1;
    }
    r := Success(acc);
  }

  /** One step of the inner loop of `to_array`: column q2 adds the rate of
      (q1, q2) when q1 < q2 and leaves the values alone otherwise. */
  lemma RowRatesStep(z: map<(nat, nat), Ext>, q1: nat, before: seq<(nat, nat)>, q2: nat, acc: seq<Ext>)
    requires ZZValues(z, before + Row(q1, q2)) == Success(acc)
    requires q1 < q2 ==> (q1, q2) in z
    ensures q1 < q2 ==> ZZValues(z, before + Row(q1, q2 + 1)) == Success(acc + [z[(q1, q2)]])
    ensures q1 >= q2 ==> ZZValues(z, before + Row(q1, q2 + 1)) == Success(acc)
  {
    RowStep(before, q1, q2);
    if q1 < q2 {
      ZZValuesSnoc(z, before + Row(q1, q2), (q1, q2));
    }
  }

  /** One more column of row q1: the pair (q1, b) joins the visited pairs
      exactly when q1 < b. */
  lemma RowStep(before: seq<(nat, nat)>, q1: nat, b: nat)
    ensures q1 < b ==> before + Row(q1, b + 1) == (before + Row(q1, b)) + [(q1, b)]
    ensures q1 >= b ==> before + Row(q1, b + 1) == before + Row(q1, b)
  {
  }

  /** Looking up one more pair extends a successful lookup by its rate, or
      fails with `KeyError`. */
  lemma ZZValuesSnoc(z: map<(nat, nat), Ext>, done: seq<(nat, nat)>, p: (nat, nat))
    requires ZZValues(z, done).Success?
    ensures p in z ==> ZZValues(z, done + [p]) == Success(ZZValues(z, done).value + [z[p]])
    ensures p !in z ==> ZZValues(z, done + [p]) == Failure(KeyError)
  {
    assert (done + [p])[..|done|] == done;
  }

  /** Recording one more pair extends the map by that pair's entry. */
  lemma ZZMapSnoc(done: seq<(nat, nat)>, p: (nat, nat), vals: seq<Ext>)
    requires |done| < |vals|
    ensures ZZMap(done + [p], vals) == ZZMap(done, vals)[p := vals[|done|]]
  {
    assert (done + [p])[..|done|] == done;
  }

  /** `from_array`, with the loops of the source and its `zz_ind` counter. */
  method FromArray(flat: seq<Ext>, n: nat) returns (r: Result<NoiseParams>)
    ensures r == Decode(flat, n)
  {
    var listArray := Scaled(flat);
    var t1Times := PySlice(listArray, 0, n);
    var t2Times := PySlice(listArray, n, 2 * n);
    if |flat| == 2 * n {
      return Success(NoiseParams(t1Times, t2Times, None, None));
    }
    var measDiagonals := PySlice(listArray, 2 * n, 4 * n);
    var measMatrices := RebuildMeasMatrices(measDiagonals, n);
    if measMatrices.Failure? {
      return Failure(measMatrices.error);
    }
    assert measMatrices.value == DecodedMeas(listArray, n);
    if |flat| == 4 * n {
      return Success(NoiseParams(t1Times, t2Times, Some(measMatrices.value), None));
    }
    var zz := RebuildZZ(listArray[4 * n..], n);
    if zz.Failure? {
      return Failure(zz.error);
    }
    r := Success(NoiseParams(t1Times, t2Times, Some(measMatrices.value), Some(zz.value)));
  }

  /** The measurement loop of `from_array`: matrix q is rebuilt from entries
      2q and 2q+1; `IndexError` when they run out. */
  method RebuildMeasMatrices(measDiagonals: seq<Ext>, n: nat) returns (r: Result<seq<Mat2>>)
    ensures r.Success? <==> |measDiagonals| >= 2 * n
    ensures r.Failure? ==> r.error == IndexError
    ensures r.Success? ==> (|r.value| == n &&
      forall q :: 0 <= q < n ==> r.value[q] == FromDiagonal(measDiagonals[2 * q], measDiagonals[2 * q + 1]))
  {
    var measMatrices: seq<Mat2> := [];
    var qubit := 0;
    while qubit < n
      invariant 0 <= qubit <= n
      invariant 2 * qubit <= |measDiagonals|
      invariant |measMatrices| == qubit
      invariant forall q :: 0 <= q < qubit ==>
        measMatrices[q] == FromDiagonal(measDiagonals[2 * q], measDiagonals[2 * q + 1])
    {
      var diagonal := PySlice(measDiagonals, 2 * qubit, 2 * qubit + 2);
      if |diagonal| < 2 {
        return Failure(IndexError);
      }
      measMatrices := measMatrices + [FromDiagonal(diagonal[0], diagonal[1])];
      qubit := qubit + 1;
    }
    r := Success(measMatrices);
  }

  /** The ZZ loop of `from_array`: pair number `zz_ind` in lexicographic
      order gets entry `zz_ind`; `IndexError` when the entries run out. */
  method RebuildZZ(zzCompressed: seq<Ext>, n: nat) returns (r: Result<map<(nat, nat), Ext>>)
    ensures r.Success? <==> |Pairs(n)| <= |zzCompressed|
    ensures r.Failure? ==> r.error == IndexError
    ensures r.Success? ==> r.value == ZZMap(Pairs(n), zzCompressed)
  {
    var zz: map<(nat, nat), Ext> := map[];
    var zzInd := 0;
    var qubit1 := 0;
    while qubit1 < n
      invariant 0 <= qubit1 <= n
      invariant zzInd == |PairsUpTo(qubit1, n)| <= |zzCompressed|
      invariant zz == ZZMap(PairsUpTo(qubit1, n), zzCompressed)
    {
      var row, ind := RebuildRow(zzCompressed, qubit1, n, PairsUpTo(qubit1, n), zz, zzInd);
      if row.Failure? {
        PairsPrefixLength(qubit1, n, n);
        return Failure(IndexError);
      }
      assert PairsUpTo(qubit1 + 1, n) == PairsUpTo(qubit1, n) + Row(qubit1, n);
      zz, zzInd := row.value, ind;
      qubit1 := qubit1 + 1;
    }
    r := Success(zz);
  }

  /** The inner loop of the ZZ part of `from_array`, over the partners q2
      of qubit q1; `zz` holds the entries of the pairs `before` it. */
  method RebuildRow(zzCompressed: seq<Ext>, q1: nat, n: nat, ghost before: seq<(nat, nat)>,
                    zz: map<(nat, nat), Ext>, zzInd: nat)
    returns (r: Result<map<(nat, nat), Ext>>, ind: nat)
    requires zzInd == |before| <= |zzCompressed| && zz == ZZMap(before, zzCompressed)
    ensures r.Success? ==> ind == |before + Row(q1, n)| <= |zzCompressed|
    ensures r.Success? ==> r.value == ZZMap(before + Row(q1, n), zzCompressed)
    ensures r.Failure? ==> r.error == IndexError && |before| + |Row(q1, n)| > |zzCompressed|
  {
    var acc := zz;
    ind := zzInd;
    var qubit2 := 0;
    assert before + Row(q1, 0) == before;
    while qubit2 < n
      invariant 0 <= qubit2 <= n
      invariant ind == |before + Row(q1, qubit2)| <= |zzCompressed|
      invariant acc == ZZMap(before + Row(q1, qubit2), zzCompressed)
    {
      RowStep(before, q1, qubit2);
      if q1 < qubit2 {
        if ind >= |zzCompressed| {
          RowLengthMonotone(q1, qubit2 + 1, n);
          return Failure(IndexError), ind;
        }
        ZZMapSnoc(before + Row(q1, qubit2), (q1, qubit2), zzCompressed);
        acc := acc[(q1, qubit2) := zzCompressed[ind]];
        ind := ind + 1;
      }
      qubit2 := qubit2 + 1;
    }
    r := Success(acc);
  }

  /** The pairs visited before and at (q1, bound - 1) are no more than all
      pairs. */
  lemma {:induction false} PairsPrefixLength(q1: nat, bound: nat, n: nat)
    requires q1 < n && bound <= n
    ensures |PairsUpTo(q1, n) + Row(q1, bound)| <= |Pairs(n)|
  {
    RowLengthMonotone(q1, bound, n);
    assert PairsUpTo(q1 + 1, n) == PairsUpTo(q1, n) + Row(q1, n);
    PairsUpToLengthMonotone(q1 + 1, n, n);
  }

  lemma {:induction false} RowLengthMonotone(q1: nat, b: nat, c: nat)
    requires b <= c
    ensures |Row(q1, b)| <= |Row(q1, c)|
  {
    if b < c {
      RowLengthMonotone(q1, b, c - 1);
    }
  }

  lemma {:induction false} PairsUpToLengthMonotone(a: nat, c: nat, n: nat)
    requires a <= c
    ensures |PairsUpTo(a, n)| <= |PairsUpTo(c, n)|
  {
    if a < c {
      PairsUpToLengthMonotone(a, c - 1, n);
    }
  }

  /** What `zz()` answers: the defined pairs, or one rate. */
  datatype ZZAnswer = DefinedPairs(pairs: set<(nat, nat)>) | Rate(rate: Ext)

  /** A pair q1 < q2 < n without a rate makes the whole lookup fail. */
  lemma MissingPairFails(z: map<(nat, nat), Ext>, q1: nat, q2: nat, n: nat)
    requires q1 < q2 < n && (q1, q2) !in z
    ensures ZZValues(z, Pairs(n)).Failure?
  {
    PairsFacts(n);
    var i :| 0 <= i < |Pairs(n)| && Pairs(n)[i] == (q1, q2);
  }

}
