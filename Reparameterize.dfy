/** Reparameterisation of the Lindblad noise parameters: the T1/T2
    dictionary packed into the flat array the optimiser works on and
    unpacked from it, the optimiser's bounds, and the divergence sums the
    objective minimises. The optimiser itself, the simulation of the
    circuits, the square root and the element-wise `kl_div` are
    parameters. */
module Reparameterize {

  import opened Common
  import Comparison
  import Dist

  /** A Lindblad dictionary: `str(qubit)` to its {"T1": .., "T2": ..}. */
  type Lindblad = map<string, map<string, real>>

  /** A guess dictionary in its iteration order. */
  type Guess = seq<(string, map<string, real>)>

  /** The entry the unpack loops write for one qubit. */
  function Times(t1: real, t2: real): map<string, real>
  {
    map["T1" := t1, "T2" := t2]
  }

  // ---------------------------------------------------------------------
  // Packing the guess
  // ---------------------------------------------------------------------

  /** The array after the first k guess entries were appended; an entry
      without "T1" or "T2" raises KeyError. */
  function PackPrefix(guess: Guess, k: nat): Result<seq<real>>
    requires k <= |guess|
  {
    if k == 0 then Success([])
    else match PackPrefix(guess, k - 1)
      case Failure(e) => Failure(e)
      case Success(arr) =>
        var entry := guess[k - 1].1;
        if "T1" !in entry || "T2" !in entry then Failure(KeyError)
        else Success(arr + [entry["T1"], entry["T2"]])
  }

  function Packed(guess: Guess): Result<seq<real>>
  {
    PackPrefix(guess, |guess|)
  }

  predicate HasTimes(entry: map<string, real>)
  {
    "T1" in entry && "T2" in entry
  }

  /** The packing loop of `optimize_lindblad`. */
  method PackGuess(guess: Guess) returns (r: Result<seq<real>>)
    ensures r == Packed(guess)
  {
    var arr: seq<real> := [];
    for k := 0 to |guess|
      invariant PackPrefix(guess, k) == Success(arr)
    {
      var entry := guess[k].1;
      if "T1" !in entry || "T2" !in entry {
        PackFailureSticks(guess, k + 1, |guess|);
        return Failure(KeyError);
      }
      arr := arr + [entry["T1"]];
      arr := arr + [entry["T2"]];
      assert arr == PackPrefix(guess, k + 1).value;
    }
    return Success(arr);
  }

  lemma {:induction false} PackFailureSticks(guess: Guess, k: nat, n: nat)
    requires k <= n <= |guess| && PackPrefix(guess, k).Failure?
    ensures PackPrefix(guess, n) == PackPrefix(guess, k)
  {
    if n > k {
      PackFailureSticks(guess, k, n - 1);
    }
  }

  /** Packing succeeds exactly when every entry has both times; then entry
      q's T1 and T2 sit at 2q and 2q + 1. */
  lemma {:induction false} PackPrefixMeaning(guess: Guess, k: nat)
    requires k <= |guess|
    ensures PackPrefix(guess, k).Success? <==> forall q :: 0 <= q < k ==> HasTimes(guess[q].1)
    ensures PackPrefix(guess, k).Success? ==>
      var arr := PackPrefix(guess, k).value;
      |arr| == 2 * k &&
      forall q :: 0 <= q < k ==> arr[2 * q] == guess[q].1["T1"] && arr[2 * q + 1] == guess[q].1["T2"]
  {
    if k > 0 {
      PackPrefixMeaning(guess, k - 1);
    }
  }

  // ---------------------------------------------------------------------
  // Unpacking an array
  // ---------------------------------------------------------------------

  /** The dictionary after the unpack loop handled qubits 0..k-1; reading
      past the end of the array raises IndexError. */
  function UnpackPrefix(a: seq<real>, k: nat): Result<Lindblad>
  {
    if k == 0 then Success(map[])
    else match UnpackPrefix(a, k - 1)
      case Failure(e) => Failure(e)
      case Success(m) =>
        if 2 * (k - 1) + 1 < |a| then Success(m[NatToString(k - 1) := Times(a[2 * (k - 1)], a[2 * (k - 1) + 1])])
        else Failure(IndexError)
  }

  /** The unpack loop of `lindblad_objective`, `lindblad_objective_scipy`
      and the end of `optimize_lindblad`, for `n` qubits. */
  method UnpackLindblad(a: seq<real>, n: nat) returns (r: Result<Lindblad>)
    ensures r == UnpackPrefix(a, n)
  {
    var formatted: Lindblad := map[];
    for q := 0 to n
      invariant UnpackPrefix(a, q) == Success(formatted)
    {
      if 2 * q + 1 >= |a| {
        UnpackFailureSticks(a, q + 1, n);
        return Failure(IndexError);
      }
      var entry: map<string, real> := map[];
      entry := entry["T1" := a[2 * q]];
      entry := entry["T2" := a[2 * q + 1]];
      formatted := formatted[NatToString(q) := entry];
    }
    return Success(formatted);
  }

  lemma {:induction false} UnpackFailureSticks(a: seq<real>, k: nat, n: nat)
    requires k <= n && UnpackPrefix(a, k).Failure?
    ensures UnpackPrefix(a, n) == UnpackPrefix(a, k)
  {
    if n > k {
      UnpackFailureSticks(a, k, n - 1);
    }
  }

  /** Unpacking n qubits succeeds exactly when the array has 2n entries or
      more. */
  lemma {:induction false} UnpackSucceeds(a: seq<real>, n: nat)
    ensures UnpackPrefix(a, n).Success? <==> 2 * n <= |a|
  {
    if n > 0 {
      UnpackSucceeds(a, n - 1);
    }
  }

  /** After unpacking, qubit q's key "q" holds T1 = a[2q] and T2 = a[2q + 1]. */
  lemma {:induction false} UnpackEntries(a: seq<real>, n: nat)
    requires UnpackPrefix(a, n).Success?
    ensures var m := UnpackPrefix(a, n).value;
      forall q :: 0 <= q < n ==> NatToString(q) in m && m[NatToString(q)] == Times(a[2 * q], a[2 * q + 1])
  {
    if n > 0 {
      UnpackEntries(a, n - 1);
      var m := UnpackPrefix(a, n - 1).value;
      var key := NatToString(n - 1);
      UnpackStep(a, n);
      forall q | 0 <= q < n - 1
        ensures NatToString(q) != key
      {
        if NatToString(q) == key {
          NatToStringInjective(q, n - 1);
        }
      }
    }
  }

  /** After unpacking, every key is "q" for some qubit q below n. */
  lemma {:induction false} UnpackKeys(a: seq<real>, n: nat)
    requires UnpackPrefix(a, n).Success?
    ensures forall key :: key in UnpackPrefix(a, n).value ==> exists q :: 0 <= q < n && key == NatToString(q)
  {
    if n > 0 {
      UnpackStep(a, n);
      UnpackKeys(a, n - 1);
      var m := UnpackPrefix(a, n - 1).value;
      forall key | key in UnpackPrefix(a, n).value
        ensures exists q :: 0 <= q < n && key == NatToString(q)
      {
        if key in m {
          var q :| 0 <= q < n - 1 && key == NatToString(q);
          assert 0 <= q < n;
        } else {
          assert key == NatToString(n - 1);
        }
      }
      assert forall key :: key in UnpackPrefix(a, n).value ==> exists q :: 0 <= q < n && key == NatToString(q);
    } else {
      assert UnpackPrefix(a, n).value == map[];
    }
  }

  lemma UnpackStep(a: seq<real>, n: nat)
    requires n > 0 && UnpackPrefix(a, n).Success?
    ensures UnpackPrefix(a, n - 1).Success? && 2 * (n - 1) + 1 < |a|
    ensures UnpackPrefix(a, n).value ==
      UnpackPrefix(a, n - 1).value[NatToString(n - 1) := Times(a[2 * (n - 1)], a[2 * (n - 1) + 1])]
  {
  }

  // ---------------------------------------------------------------------
  // optimize_lindblad
  // ---------------------------------------------------------------------

  /** The bounds handed to the optimiser: 2n lower bounds of 0 and 2n upper
      bounds of +inf. */
  function LindbladBounds(n: nat): (b: (seq<real>, seq<Ext>))
    ensures |b.0| == 2 * n && |b.1| == 2 * n
    ensures forall i :: 0 <= i < 2 * n ==> b.0[i] == 0.0 && b.1[i] == PosInf
  {
    (seq(2 * n, _ => 0.0), seq(2 * n, _ => PosInf))
  }

  /** A packed guess lies within the bounds exactly when none of its times
      is negative. */
  lemma GuessWithinBounds(guess: Guess)
    requires forall q :: 0 <= q < |guess| ==> HasTimes(guess[q].1)
    ensures Packed(guess).Success? && |Packed(guess).value| == 2 * |guess|
    ensures var arr, b := Packed(guess).value, LindbladBounds(|guess|);
      (forall i :: 0 <= i < |arr| ==> b.0[i] <= arr[i] && b.1[i] == PosInf) <==>
      (forall q :: 0 <= q < |guess| ==> HasTimes(guess[q].1) && guess[q].1["T1"] >= 0.0 && guess[q].1["T2"] >= 0.0)
  {
    PackPrefixMeaning(guess, |guess|);
    var arr := Packed(guess).value;
    if forall i :: 0 <= i < |arr| ==> 0.0 <= arr[i] {
      forall q | 0 <= q < |guess| ensures guess[q].1["T1"] >= 0.0 && guess[q].1["T2"] >= 0.0 {
        assert arr[2 * q] == guess[q].1["T1"];
        assert arr[2 * q + 1] == guess[q].1["T2"];
      }
    }
    if forall q :: 0 <= q < |guess| ==> guess[q].1["T1"] >= 0.0 && guess[q].1["T2"] >= 0.0 {
      forall i | 0 <= i < |arr| ensures 0.0 <= arr[i] {
        var q := i / 2;
        assert i == 2 * q || i == 2 * q + 1;
      }
    }
  }

  /** `optimize_lindblad` with the optimiser as a parameter: the guess is
      packed, the optimiser maps the packed guess to its result array, and
      that array is unpacked for the backend's `n` qubits. */
  method OptimizeLindblad(guess: Guess, n: nat, minimize: seq<real> -> seq<real>) returns (r: Result<Lindblad>)
    ensures Packed(guess).Failure? ==> r == Failure(Packed(guess).error)
    ensures Packed(guess).Success? ==> r == UnpackPrefix(minimize(Packed(guess).value), n)
  {
    var guessArray := PackGuess(guess);
    if guessArray.Failure? {
      return Failure(guessArray.error);
    }
    var bounds := LindbladBounds(n);
    var optimized := minimize(guessArray.value);
    r := UnpackLindblad(optimized, n);
  }

  /** The guess as a dictionary, later entries overriding earlier ones. */
  function DictOf(guess: Guess): Lindblad
  {
    if guess == [] then map[] else DictOf(guess[..|guess| - 1])[guess[|guess| - 1].0 := guess[|guess| - 1].1]
  }

  /** Packing and then unpacking gives the guess back when its keys are
      "0".."n-1" in order and each entry holds exactly T1 and T2. */
  lemma {:induction false} PackUnpack(guess: Guess, k: nat)
    requires k <= |guess|
    requires forall q :: 0 <= q < |guess| ==> guess[q].0 == NatToString(q) && guess[q].1.Keys == {"T1", "T2"}
    ensures Packed(guess).Success?
    ensures UnpackPrefix(Packed(guess).value, k) == Success(DictOf(guess[..k]))
  {
    PackPrefixMeaning(guess, |guess|);
    var arr := Packed(guess).value;
    if k > 0 {
      PackUnpack(guess, k - 1);
      TimesOfEntry(guess[k - 1].1);
      DictOfSnoc(guess, k);
    }
  }

  lemma TimesOfEntry(e: map<string, real>)
    requires e.Keys == {"T1", "T2"}
    ensures Times(e["T1"], e["T2"]) == e
  {
  }

  lemma DictOfSnoc(guess: Guess, k: nat)
    requires 0 < k <= |guess|
    ensures DictOf(guess[..k]) == DictOf(guess[..k - 1])[guess[k - 1].0 := guess[k - 1].1]
  {
    assert guess[..k][..k - 1] == guess[..k - 1];
  }

  /** With an optimiser that returns its starting point, `optimize_lindblad`
      returns the guess. */
  lemma OptimizeFixedPoint(guess: Guess, minimize: seq<real> -> seq<real>)
    requires forall q :: 0 <= q < |guess| ==> guess[q].0 == NatToString(q) && guess[q].1.Keys == {"T1", "T2"}
    requires forall x :: minimize(x) == x
    ensures Packed(guess).Success?
    ensures UnpackPrefix(minimize(Packed(guess).value), |guess|) == Success(DictOf(guess))
  {
    PackUnpack(guess, |guess|);
    assert guess[..|guess|] == guess;
  }

  // ---------------------------------------------------------------------
  // kl_div_sum and ks_div_sum
  // ---------------------------------------------------------------------

  function Reals(v: seq<int>): (r: seq<real>)
    ensures |r| == |v| && forall i :: 0 <= i < |v| ==> r[i] == v[i] as real
  {
    seq(|v|, i requires 0 <= i < |v| => v[i] as real)
  }

  /** A counts vector with some non-zero count: its norm is not zero, so the
      division does not produce NaN. */
  predicate HasMass(counts: Dist.Counts)
  {
    Dist.CountsList(counts).Success? ==> !Comparison.IsZeroVector(Reals(Dist.CountsList(counts).value))
  }

  /** `counts / np.linalg.norm(counts)`: each count over the Euclidean norm. */
  function Normalized(v: seq<int>, sqrt: real -> real): (r: seq<real>)
    requires Comparison.IsSqrt(sqrt) && !Comparison.IsZeroVector(Reals(v))
    ensures |r| == |v|
  {
    var x := Reals(v);
    NonzeroNorm(x, sqrt);
    var norm := Comparison.Norm(x, sqrt);
    seq(|v|, i requires 0 <= i < |v| => x[i] / norm)
  }

  lemma NonzeroNorm(x: seq<real>, sqrt: real -> real)
    requires Comparison.IsSqrt(sqrt) && !Comparison.IsZeroVector(x)
    ensures Comparison.Norm(x, sqrt) != 0.0
  {
    Comparison.NormSqZeroIffZeroVector(x);
    Comparison.SqrtZero(sqrt, Comparison.NormSq(x));
  }

  function ScaledDown(x: seq<real>, c: real): (r: seq<real>)
    requires c != 0.0
    ensures |r| == |x|
  {
    seq(|x|, i requires 0 <= i < |x| => x[i] / c)
  }

  lemma QuotientSquare(a: real, c: real)
    requires c != 0.0
    ensures Mul(c, c) != 0.0
    ensures Mul(a / c, a / c) == Mul(a, a) / Mul(c, c)
  {
    Comparison.SquareFacts(c);
    var q := a / c;
    assert a == Mul(q, c);
    assert Mul(a, a) == Mul(Mul(q, q), Mul(c, c));
  }

  lemma AddQuotients(x: real, y: real, d: real)
    requires d != 0.0
    ensures x / d + y / d == (x + y) / d
  {
  }

  /** Dividing every entry by c divides the squared norm by c². */
  lemma {:induction false} NormSqScaledDown(x: seq<real>, c: real)
    requires c != 0.0
    ensures Mul(c, c) != 0.0
    ensures Comparison.NormSq(ScaledDown(x, c)) == Comparison.NormSq(x) / Mul(c, c)
  {
    Comparison.SquareFacts(c);
    if x != [] {
      var y := ScaledDown(x, c);
      var init, last := x[..|x| - 1], x[|x| - 1];
      assert y[..|y| - 1] == ScaledDown(init, c);
      assert y[|y| - 1] == last / c;
      NormSqScaledDown(init, c);
      QuotientSquare(last, c);
      assert Comparison.NormSq(y) == Comparison.NormSq(init) / Mul(c, c) + Mul(last, last) / Mul(c, c);
      AddQuotients(Comparison.NormSq(init), Mul(last, last), Mul(c, c));
      assert Comparison.NormSq(x) == Comparison.NormSq(init) + Mul(last, last);
    }
  }

  /** The normalised vector has Euclidean norm 1: the counts are divided by
      their norm, not by their sum. */
  lemma NormalizedUnit(v: seq<int>, sqrt: real -> real)
    requires Comparison.IsSqrt(sqrt) && !Comparison.IsZeroVector(Reals(v))
    ensures Comparison.NormSq(Normalized(v, sqrt)) == 1.0
  {
    var x := Reals(v);
    NonzeroNorm(x, sqrt);
    var norm := Comparison.Norm(x, sqrt);
    assert Normalized(v, sqrt) == ScaledDown(x, norm);
    NormSqScaledDown(x, norm);
    assert Mul(norm, norm) == Comparison.NormSq(x);
  }

  /** The K-S term of one circuit: both counts dictionaries as lists,
      normalised, and the statistic of `discrete_one_samp_ks` with 8000
      samples, the reference first. */
  function KsTerm(sim: Dist.Counts, ref: Dist.Counts, sqrt: real -> real): Result<real>
    requires Comparison.IsSqrt(sqrt) && HasMass(sim) && HasMass(ref)
  {
    match Dist.CountsList(sim)
    case Failure(e) => Failure(e)
    case Success(s) =>
      match Dist.CountsList(ref)
      case Failure(e) => Failure(e)
      case Success(rl) =>
        match Comparison.DiscreteOneSampKs(Normalized(rl, sqrt), Normalized(s, sqrt), 8000, sqrt)
        case Failure(e) => Failure(e)
        case Success(d) => Success(d.0)
  }

  /** The K-L term of one circuit: `kl_dist_smoothing` of the normalised
      reference and simulation vectors with epsilon 1e-5. */
  function KlTerm(sim: Dist.Counts, ref: Dist.Counts, sqrt: real -> real, klDiv: (real, real) -> real): Result<real>
    requires Comparison.IsSqrt(sqrt) && HasMass(sim) && HasMass(ref)
  {
    match Dist.CountsList(sim)
    case Failure(e) => Failure(e)
    case Success(s) =>
      match Dist.CountsList(ref)
      case Failure(e) => Failure(e)
      case Success(rl) => Comparison.KlDistSmoothing(Normalized(rl, sqrt), Normalized(s, sqrt), 0.00001, klDiv)
  }

  /** A circuit's counts: the simulation's and the reference's. */
  type Circuit = (Dist.Counts, Dist.Counts)

  predicate AllHaveMass(circuits: seq<Circuit>)
  {
    forall i :: 0 <= i < |circuits| ==> HasMass(circuits[i].0) && HasMass(circuits[i].1)
  }

  /** The running total of per-circuit terms, as the loops accumulate it;
      the first failing term's error ends it. */
  function Total(terms: seq<Result<real>>): Result<real>
  {
    if terms == [] then Success(0.0)
    else match Total(terms[..|terms| - 1])
      case Failure(e) => Failure(e)
      case Success(t) =>
        match terms[|terms| - 1]
        case Failure(e) => Failure(e)
        case Success(d) => Success(t + d)
  }

  /** One pass of a divergence loop: term k is added, or its error ends the
      loop. */
  method AddTerm(ghost terms: seq<Result<real>>, k: nat, total: real, d: Result<real>)
    returns (total': real, err: Option<PyError>)
    requires k < |terms| && terms[k] == d && Total(terms[..k]) == Success(total)
    ensures err.None? ==> Total(terms[..k + 1]) == Success(total')
    ensures err.Some? ==> Total(terms) == Failure(err.value)
  {
    assert terms[..k + 1][..k] == terms[..k];
    if d.Failure? {
      TotalFailureSticks(terms, k + 1, |terms|);
      assert terms[..|terms|] == terms;
      return total, Some(d.error);
    }
    return total + d.value, None;
  }

  lemma {:induction false} TotalFailureSticks(terms: seq<Result<real>>, k: nat, n: nat)
    requires k <= n <= |terms| && Total(terms[..k]).Failure?
    ensures Total(terms[..n]) == Total(terms[..k])
  {
    if n > k {
      TotalFailureSticks(terms, k, n - 1);
      assert terms[..n][..n - 1] == terms[..n - 1];
    }
  }

  /** The values of successful terms (0 for a failing one). */
  function Values(terms: seq<Result<real>>): (vs: seq<real>)
    ensures |vs| == |terms|
  {
    seq(|terms|, i requires 0 <= i < |terms| => if terms[i].Success? then terms[i].value else 0.0)
  }

  /** The total exists exactly when every term does, and it is then the sum
      of the terms. */
  lemma {:induction false} TotalMeaning(terms: seq<Result<real>>)
    ensures Total(terms).Success? <==> forall i :: 0 <= i < |terms| ==> terms[i].Success?
    ensures Total(terms).Success? ==> Total(terms).value == Sum(Values(terms))
  {
    if terms != [] {
      var init := terms[..|terms| - 1];
      TotalMeaning(init);
      assert Values(terms)[..|terms| - 1] == Values(init);
    }
  }

  /** A total of terms that are never negative is never negative. */
  lemma {:induction false} TotalNonnegative(terms: seq<Result<real>>)
    requires forall i :: 0 <= i < |terms| ==> terms[i].Success? ==> terms[i].value >= 0.0
    ensures Total(terms).Success? ==> Total(terms).value >= 0.0
  {
    if terms != [] {
      TotalNonnegative(terms[..|terms| - 1]);
    }
  }

  /** A total of zero terms is zero. */
  lemma {:induction false} TotalZero(terms: seq<Result<real>>)
    requires forall i :: 0 <= i < |terms| ==> terms[i].Success? ==> terms[i].value == 0.0
    ensures Total(terms).Success? ==> Total(terms).value == 0.0
  {
    if terms != [] {
      TotalZero(terms[..|terms| - 1]);
    }
  }

  function KsTerms(circuits: seq<Circuit>, sqrt: real -> real): (ts: seq<Result<real>>)
    requires Comparison.IsSqrt(sqrt) && AllHaveMass(circuits)
    ensures |ts| == |circuits|
  {
    seq(|circuits|, i requires 0 <= i < |circuits| => KsTerm(circuits[i].0, circuits[i].1, sqrt))
  }

  /** `ks_div_sum`. */
  method KsDivSum(circuits: seq<Circuit>, sqrt: real -> real) returns (r: Result<real>)
    requires Comparison.IsSqrt(sqrt) && AllHaveMass(circuits)
    ensures r == Total(KsTerms(circuits, sqrt))
  {
    ghost var terms := KsTerms(circuits, sqrt);
    var total := 0.0;
    for k := 0 to |circuits|
      invariant Total(terms[..k]) == Success(total)
    {
      var d := KsTerm(circuits[k].0, circuits[k].1, sqrt);
      var err;
      total, err := AddTerm(terms, k, total, d);
      if err.Some? {
        return Failure(err.value);
      }
    }
    assert terms[..|circuits|] == terms;
    return Success(total);
  }

  /** A circuit's K-S term fails exactly when a counts dictionary cannot be
      turned into a list or the two lists differ in length; it is never
      negative. */
  lemma KsTermSucceeds(sim: Dist.Counts, ref: Dist.Counts, sqrt: real -> real)
    requires Comparison.IsSqrt(sqrt) && HasMass(sim) && HasMass(ref)
    ensures KsTerm(sim, ref, sqrt).Success? <==>
      Dist.CountsList(sim).Success? && Dist.CountsList(ref).Success? &&
      |Dist.CountsList(sim).value| == |Dist.CountsList(ref).value|
    ensures KsTerm(sim, ref, sqrt).Success? ==> KsTerm(sim, ref, sqrt).value >= 0.0
  {
    Dist.CountsListWide(sim);
    Dist.CountsListWide(ref);
  }

  /** A circuit's K-L term fails exactly when a counts dictionary cannot be
      turned into a list or the two lists differ in length (lists of at
      least two entries only broadcast when equal); it is never negative
      when element-wise `kl_div` is not. */
  lemma KlTermSucceeds(sim: Dist.Counts, ref: Dist.Counts, sqrt: real -> real, klDiv: (real, real) -> real)
    requires Comparison.IsSqrt(sqrt) && HasMass(sim) && HasMass(ref)
    requires forall x, y :: klDiv(x, y) >= 0.0
    ensures KlTerm(sim, ref, sqrt, klDiv).Success? <==>
      Dist.CountsList(sim).Success? && Dist.CountsList(ref).Success? &&
      |Dist.CountsList(sim).value| == |Dist.CountsList(ref).value|
    ensures KlTerm(sim, ref, sqrt, klDiv).Success? ==> KlTerm(sim, ref, sqrt, klDiv).value >= 0.0
  {
    Dist.CountsListWide(sim);
    Dist.CountsListWide(ref);
    if Dist.CountsList(sim).Success? && Dist.CountsList(ref).Success? {
      var s, rl := Dist.CountsList(sim).value, Dist.CountsList(ref).value;
      Comparison.KlDistSmoothingNonnegative(Normalized(rl, sqrt), Normalized(s, sqrt), 0.00001, klDiv);
    }
  }

  /** The K-S total is the sum of the circuits' terms and is never negative;
      it exists exactly when every term does. */
  lemma KsTotalMeaning(circuits: seq<Circuit>, sqrt: real -> real)
    requires Comparison.IsSqrt(sqrt) && AllHaveMass(circuits)
    ensures var ts := KsTerms(circuits, sqrt);
      (Total(ts).Success? <==> forall i :: 0 <= i < |ts| ==> ts[i].Success?) &&
      (Total(ts).Success? ==> Total(ts).value == Sum(Values(ts)) && Total(ts).value >= 0.0)
  {
    var ts := KsTerms(circuits, sqrt);
    TotalMeaning(ts);
    KsTermsNonnegative(circuits, sqrt);
    TotalNonnegative(ts);
  }

  lemma KsTermsNonnegative(circuits: seq<Circuit>, sqrt: real -> real)
    requires Comparison.IsSqrt(sqrt) && AllHaveMass(circuits)
    ensures forall i :: 0 <= i < |circuits| ==>
      KsTerms(circuits, sqrt)[i].Success? ==> KsTerms(circuits, sqrt)[i].value >= 0.0
  {
    forall i | 0 <= i < |circuits|
      ensures KsTerms(circuits, sqrt)[i].Success? ==> KsTerms(circuits, sqrt)[i].value >= 0.0
    {
      KsTermSucceeds(circuits[i].0, circuits[i].1, sqrt);
    }
  }

  function KlTerms(circuits: seq<Circuit>, sqrt: real -> real, klDiv: (real, real) -> real): (ts: seq<Result<real>>)
    requires Comparison.IsSqrt(sqrt) && AllHaveMass(circuits)
    ensures |ts| == |circuits|
  {
    seq(|circuits|, i requires 0 <= i < |circuits| => KlTerm(circuits[i].0, circuits[i].1, sqrt, klDiv))
  }

  /** `kl_div_sum`. */
  method KlDivSum(circuits: seq<Circuit>, sqrt: real -> real, klDiv: (real, real) -> real) returns (r: Result<real>)
    requires Comparison.IsSqrt(sqrt) && AllHaveMass(circuits)
    ensures r == Total(KlTerms(circuits, sqrt, klDiv))
  {
    ghost var terms := KlTerms(circuits, sqrt, klDiv);
    var total := 0.0;
    for k := 0 to |circuits|
      invariant Total(terms[..k]) == Success(total)
    {
      var d := KlTerm(circuits[k].0, circuits[k].1, sqrt, klDiv);
      var err;
      total, err := AddTerm(terms, k, total, d);
      if err.Some? {
        return Failure(err.value);
      }
    }
    assert terms[..|circuits|] == terms;
    return Success(total);
  }

  /** A circuit compared with itself scores 0 when kl_div(x, x) = 0, and
      the term fails only when the counts cannot be turned into a list. */
  lemma KlTermSelf(c: Dist.Counts, sqrt: real -> real, klDiv: (real, real) -> real)
    requires Comparison.IsSqrt(sqrt) && HasMass(c)
    requires forall x :: klDiv(x, x) == 0.0
    ensures KlTerm(c, c, sqrt, klDiv).Success? <==> Dist.CountsList(c).Success?
    ensures KlTerm(c, c, sqrt, klDiv).Success? ==> KlTerm(c, c, sqrt, klDiv).value == 0.0
  {
    if Dist.CountsList(c).Success? {
      var v := Normalized(Dist.CountsList(c).value, sqrt);
      Comparison.KlDistSmoothingSelf(v, 0.00001, klDiv);
    }
  }

  /** Comparing every circuit's counts with themselves gives a K-L total of
      0 (when kl_div(x, x) = 0). */
  lemma KlTotalSelf(circuits: seq<Circuit>, sqrt: real -> real, klDiv: (real, real) -> real)
    requires Comparison.IsSqrt(sqrt) && AllHaveMass(circuits)
    requires forall i :: 0 <= i < |circuits| ==> circuits[i].0 == circuits[i].1
    requires forall x :: klDiv(x, x) == 0.0
    ensures var t := Total(KlTerms(circuits, sqrt, klDiv));
      (t.Success? <==> forall i :: 0 <= i < |circuits| ==> Dist.CountsList(circuits[i].0).Success?) &&
      (t.Success? ==> t.value == 0.0)
  {
    var terms := KlTerms(circuits, sqrt, klDiv);
    forall i | 0 <= i < |terms|
      ensures terms[i].Success? <==> Dist.CountsList(circuits[i].0).Success?
      ensures terms[i].Success? ==> terms[i].value == 0.0
    {
      KlTermSelf(circuits[i].0, sqrt, klDiv);
    }
    TotalMeaning(terms);
    TotalZero(terms);
  }

  /** `lindblad_objective`: the array is unpacked for `n` qubits, the
      circuits are simulated with those times (a parameter giving each
      circuit's counts), and the K-S total against the reference is
      returned. */
  method LindbladObjective(a: seq<real>, n: nat, reference: seq<Dist.Counts>,
                           simulate: Lindblad -> seq<Dist.Counts>, sqrt: real -> real) returns (r: Result<real>)
    requires Comparison.IsSqrt(sqrt)
    requires forall l :: |simulate(l)| == |reference|
    requires forall l :: AllHaveMass(Zip(simulate(l), reference))
    ensures UnpackPrefix(a, n).Failure? ==> r == Failure(UnpackPrefix(a, n).error)
    ensures UnpackPrefix(a, n).Success? ==>
      r == Total(KsTerms(Zip(simulate(UnpackPrefix(a, n).value), reference), sqrt))
  {
    var formatted := UnpackLindblad(a, n);
    if formatted.Failure? {
      return Failure(formatted.error);
    }
    var simulation := simulate(formatted.value);
    r := KsDivSum(Zip(simulation, reference), sqrt);
  }

  function Zip(sim: seq<Dist.Counts>, ref: seq<Dist.Counts>): (r: seq<Circuit>)
    requires |sim| == |ref|
    ensures |r| == |sim| && forall i :: 0 <= i < |r| ==> r[i] == (sim[i], ref[i])
  {
    seq(|sim|, i requires 0 <= i < |sim| => (sim[i], ref[i]))
  }
}
