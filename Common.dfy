/** Shared vocabulary of the model: results carrying the Python exception the
    source would raise, extended reals for the IEEE infinities the noise model
    relies on, the host SDK's backend properties, and sums over real vectors. */
module Common {

  datatype Option<+T> = None | Some(value: T)

  /** The Python exceptions (and the plugin's own exception classes) that the
      modelled code can raise. */
  datatype PyError =
    | IndexError
    | KeyError
    | ValueError
    | TypeError
    | AttributeError
    | ZeroDivisionError
    | UnboundLocalError
    | BackendPropertyError
    | QuacOptionsError(message: string)
    | QuacBackendError(message: string)

  datatype Result<+T> = Success(value: T) | Failure(error: PyError)

  /** A Python float restricted to the values the modelled code produces:
      finite reals and the two infinities (NaN is not modelled). */
  datatype Ext = Fin(v: real) | PosInf | NegInf
  {
    /** Multiplication by a positive constant, as IEEE arithmetic does it. */
    function Scale(c: real): (r: Ext)
      requires c > 0.0
      ensures Fin? <==> r.Fin?
      ensures PosInf? <==> r.PosInf?
    {
      match this
      case Fin(x) => Fin(x * c)
      case PosInf => PosInf
      case NegInf => NegInf
    }

    /** Division by a positive constant. */
    function Shrink(c: real): (r: Ext)
      requires c > 0.0
      ensures Fin? <==> r.Fin?
      ensures PosInf? <==> r.PosInf?
    {
      match this
      case Fin(x) => Fin(x / c)
      case PosInf => PosInf
      case NegInf => NegInf
    }

    /** The expression `1 - x`. */
    function OneMinus(): (r: Ext)
      ensures Fin? <==> r.Fin?
      ensures PosInf? <==> r.NegInf?
    {
      match this
      case Fin(x) => Fin(1.0 - x)
      case PosInf => NegInf
      case NegInf => PosInf
    }
  }

  /** The parts of a Qiskit `BackendProperties` object the plugin reads: gate
      lengths keyed by gate name and qubit tuple, and per-qubit T1/T2, all in
      seconds. A key that is absent makes the lookup raise
      `BackendPropertyError`. */
  datatype BackendProperties = BackendProperties(
    gateLength: map<(string, seq<nat>), real>,
    t1: map<nat, real>,
    t2: map<nat, real>)

  /** Seconds to nanoseconds, the `* 1e9` of the source. */
  const NanosPerSecond: real := 1000000000.0

  /** Sum of a real vector (Python's `sum`, numpy's `.sum()`). */
  function Sum(s: seq<real>): real
  {
    if s == [] then 0.0 else Sum(s[..|s| - 1]) + s[|s| - 1]
  }

  /** Sum of an integer vector. */
  function SumInt(s: seq<int>): int
  {
    if s == [] then 0 else SumInt(s[..|s| - 1]) + s[|s| - 1]
  }

  lemma {:induction false} SumAppend(a: seq<real>, b: seq<real>)
    ensures Sum(a + b) == Sum(a) + Sum(b)
  {
    if b == [] {
      assert a + b == a;
    } else {
      assert (a + b)[..|a + b| - 1] == a + b[..|b| - 1];
      SumAppend(a, b[..|b| - 1]);
    }
  }

  /** Adding `x` to one entry adds `x` to the total. */
  lemma {:induction false} SumAddAt(s: seq<real>, i: nat, x: real)
    requires i < |s|
    ensures Sum(s[i := s[i] + x]) == Sum(s) + x
  {
    var t := s[i := s[i] + x];
    assert s == s[..i] + [s[i]] + s[i + 1..];
    assert t == s[..i] + [s[i] + x] + s[i + 1..];
    SumAppend(s[..i] + [s[i]], s[i + 1..]);
    SumAppend(s[..i], [s[i]]);
    SumAppend(s[..i] + [s[i] + x], s[i + 1..]);
    SumAppend(s[..i], [s[i] + x]);
    assert Sum([s[i]]) == s[i] by { assert [s[i]][..0] == []; }
    assert Sum([s[i] + x]) == s[i] + x by { assert [s[i] + x][..0] == []; }
  }

  /** A vector of zeros sums to zero. */
  lemma {:induction false} SumNonnegative(s: seq<real>)
    requires forall i :: 0 <= i < |s| ==> s[i] >= 0.0
    ensures Sum(s) >= 0.0
  {
    if s != [] {
      SumNonnegative(s[..|s| - 1]);
    }
  }

  lemma {:induction false} SumZeros(n: nat)
    ensures Sum(seq(n, _ => 0.0)) == 0.0
  {
    if n > 0 {
      assert seq(n, _ => 0.0)[..n - 1] == seq(n - 1, _ => 0.0);
      SumZeros(n - 1);
    }
  }

  /** Python's `s[lo:hi]` for non-negative bounds: both bounds are clamped to
      the length, and an empty slice results when lo >= hi. */
  function PySlice<T>(s: seq<T>, lo: nat, hi: nat): (r: seq<T>)
    ensures lo <= hi <= |s| ==> r == s[lo..hi]
    ensures |r| == if lo >= |s| || hi <= lo then 0 else (if hi <= |s| then hi else |s|) - lo
    ensures forall k :: 0 <= k < |r| ==> r[k] == s[lo + k]
  {
    if lo >= |s| || hi <= lo then [] else if hi <= |s| then s[lo..hi] else s[lo..]
  }

  /** Real multiplication as a named function: facts stated about `Mul`
      terms are used by the solver as plain terms. */
  function Mul(x: real, y: real): real
  {
    x * y
  }

  lemma MulPositive(x: real, y: real)
    requires x > 0.0 && y > 0.0
    ensures Mul(x, y) > 0.0
  {
  }

  /** Multiplying by a positive constant keeps a strict order. */
  lemma MulStrict(x: real, y: real, c: real)
    requires c > 0.0 && x < y
    ensures Mul(x, c) < Mul(y, c)
  {
    MulPositive(y - x, c);
    assert Mul(y - x, c) == Mul(y, c) - Mul(x, c);
  }

  function Max(a: real, b: real): real
  {
    if a >= b then a else b
  }

  function Abs(x: real): real
  {
    if x >= 0.0 then x else -x
  }

  /** `s` contains `t` as a contiguous substring (Python's `t in s`). */
  predicate IsSubstring(t: string, s: string)
    decreases |s|
  {
    |t| <= |s| && (s[..|t|] == t || IsSubstring(t, s[1..]))
  }

  /** Decimal text of a natural number, as Python's `str(int)` writes it. */
  function NatToString(n: nat): (r: string)
    ensures |r| >= 1
    ensures forall k :: 0 <= k < |r| ==> '0' <= r[k] <= '9'
  {
    if n < 10 then [DecimalDigit(n)] else NatToString(n / 10) + [DecimalDigit(n % 10)]
  }

  function DecimalDigit(d: nat): char
    requires d < 10
  {
    ['0', '1', '2', '3', '4', '5', '6', '7', '8', '9'][d]
  }

  /** Distinct numbers have distinct decimal texts. */
  lemma {:induction false} NatToStringInjective(a: nat, b: nat)
    requires NatToString(a) == NatToString(b)
    ensures a == b
  {
    if a >= 10 && b >= 10 {
      var sa, sb := NatToString(a), NatToString(b);
      assert sa[..|sa| - 1] == NatToString(a / 10);
      assert sb[..|sb| - 1] == NatToString(b / 10);
      NatToStringInjective(a / 10, b / 10);
      DecimalDigitInjective(a % 10, b % 10);
    } else if a < 10 && b < 10 {
      DecimalDigitInjective(a, b);
    }
  }

  lemma DecimalDigitInjective(d: nat, e: nat)
    requires d < 10 && e < 10 && DecimalDigit(d) == DecimalDigit(e)
    ensures d == e
  {
  }
}
