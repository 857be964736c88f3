/** The bit-string idioms the plugin uses to move between basis-state indices
    and register keys: `bin(k)[2:]`, `str.zfill`, `int(s, 2)`, slicing off the
    last bits and reversing a register. Each is modelled on strings as the
    source writes it, and the lemmas here connect it to arithmetic. */
module Bits {

  import opened Common

  function Pow2(n: nat): (r: nat)
    ensures r >= 1
  {
    if n == 0 then 1 else 2 * Pow2(n - 1)
  }

  /** Bit `p` of `k`, counting from the least significant bit. */
  function Bit(k: nat, p: nat): (b: nat)
    ensures b < 2
  {
    if p == 0 then k % 2 else Bit(k / 2, p - 1)
  }

  function BitChar(b: nat): char
  {
    if b == 0 then '0' else '1'
  }

  predicate IsBinaryChar(c: char)
  {
    c == '0' || c == '1'
  }

  predicate IsBinaryString(s: string)
  {
    forall i :: 0 <= i < |s| ==> IsBinaryChar(s[i])
  }

  /** Python's `bin(k)[2:]`: the binary digits of `k`, most significant
      first, without leading zeros ("0" for zero). */
  function BinDigits(k: nat): (s: string)
    ensures |s| >= 1
    ensures IsBinaryString(s)
  {
    if k < 2 then [BitChar(k)] else BinDigits(k / 2) + [BitChar(k % 2)]
  }

  /** Python's `str.zfill(w)` for a string without a sign. */
  function ZFill(s: string, w: nat): (r: string)
    ensures |r| == if |s| >= w then |s| else w
    ensures r[|r| - |s|..] == s
  {
    if |s| >= w then s else seq(w - |s|, _ => '0') + s
  }

  /** The value of a string of '0'/'1' read most significant first; Python's
      `int(s, 2)` when `s` is a non-empty binary string. */
  function BinValue(s: string): nat
  {
    if s == [] then 0 else 2 * BinValue(s[..|s| - 1]) + (if s[|s| - 1] == '1' then 1 else 0)
  }

  /** Python's `int(s, 2)` on the strings the plugin builds: an empty or
      non-binary string raises `ValueError` (the other spellings `int`
      accepts, such as a `0b` prefix, are not modelled). */
  function ParseBinary(s: string): (r: Option<nat>)
    ensures r.Some? <==> |s| > 0 && IsBinaryString(s)
  {
    if |s| > 0 && IsBinaryString(s) then Some(BinValue(s)) else None
  }

  /** Value of a register whose slot 0 is the least significant bit. */
  function LsbValue(reg: seq<nat>): nat
  {
    if reg == [] then 0 else reg[0] + 2 * LsbValue(reg[1..])
  }

  function Reverse<T>(s: seq<T>): (r: seq<T>)
    ensures |r| == |s|
  {
    if s == [] then [] else Reverse(s[1..]) + [s[0]]
  }

  lemma {:induction false} ReverseAt<T>(s: seq<T>, k: nat)
    requires k < |s|
    ensures Reverse(s)[k] == s[|s| - 1 - k]
  {
    if k < |s| - 1 {
      ReverseAt(s[1..], k);
    }
  }

  /** Concatenation shifts the left part: int(a + b, 2) == int(a, 2)·2^|b| + int(b, 2). */
  lemma {:induction false} BinValueAppend(a: string, b: string)
    ensures BinValue(a + b) == BinValue(a) * Pow2(|b|) + BinValue(b)
  {
    if b != [] {
      var b' := b[..|b| - 1];
      assert (a + b)[..|a + b| - 1] == a + b';
      assert (a + b)[|a + b| - 1] == b[|b| - 1];
      BinValueAppend(a, b');
      var x, p, v := BinValue(a), Pow2(|b'|), BinValue(b');
      var c := if b[|b| - 1] == '1' then 1 else 0;
      assert BinValue(a + b) == 2 * (x * p + v) + c;
      assert BinValue(b) == 2 * v + c;
      assert Pow2(|b|) == 2 * p;
      Regroup(x, p, v, c);
    } else {
      assert a + b == a;
    }
  }

  lemma {:induction false} BinValueBound(s: string)
    ensures BinValue(s) < Pow2(|s|)
  {
    if s != [] {
      BinValueBound(s[..|s| - 1]);
    }
  }

  lemma {:induction false} BinValueZeros(n: nat)
    ensures BinValue(seq(n, _ => '0')) == 0
  {
    if n > 0 {
      assert seq(n, _ => '0')[..n - 1] == seq(n - 1, _ => '0');
      BinValueZeros(n - 1);
    }
  }

  /** Zero-padding does not change the value. */
  lemma ZFillValue(s: string, w: nat)
    ensures BinValue(ZFill(s, w)) == BinValue(s)
  {
    if |s| < w {
      BinValueAppend(seq(w - |s|, _ => '0'), s);
      BinValueZeros(w - |s|);
    }
  }

  lemma ZFillBinary(s: string, w: nat)
    requires IsBinaryString(s)
    ensures IsBinaryString(ZFill(s, w))
  {
  }

  /** `bin` and `int(·, 2)` are inverse: int(bin(k)[2:], 2) == k. */
  lemma {:induction false} BinDigitsValue(k: nat)
    ensures BinValue(BinDigits(k)) == k
  {
    if k >= 2 {
      var s := BinDigits(k);
      assert s[..|s| - 1] == BinDigits(k / 2);
      BinDigitsValue(k / 2);
    }
  }

  /** `bin(k)[2:]` fits in `w` digits exactly when `k < 2^w` (for w >= 1). */
  lemma {:induction false} BinDigitsLength(k: nat, w: nat)
    requires w >= 1
    ensures |BinDigits(k)| <= w <==> k < Pow2(w)
  {
    if k >= 2 {
      if w == 1 {
        assert |BinDigits(k)| >= 2;
      } else {
        BinDigitsLength(k / 2, w - 1);
      }
    }
  }

  /** Character `q` of a binary string of length L is bit L-1-q of its value. */
  lemma {:induction false} CharIsBit(s: string, q: nat)
    requires IsBinaryString(s)
    requires q < |s|
    ensures s[q] == BitChar(Bit(BinValue(s), |s| - 1 - q))
  {
    var t := s[..|s| - 1];
    var c := if s[|s| - 1] == '1' then 1 else 0;
    assert (2 * BinValue(t) + c) / 2 == BinValue(t);
    if q < |s| - 1 {
      CharIsBit(t, q);
      assert t[q] == s[q];
    }
  }

  /** The padded basis-state string used by both simulators: for k < 2^n,
      character q of `bin(k)[2:].zfill(n)` is bit n-1-q of k. */
  lemma PaddedStateChar(k: nat, n: nat, q: nat)
    requires n >= 1 && k < Pow2(n) && q < n
    ensures |ZFill(BinDigits(k), n)| == n
    ensures ZFill(BinDigits(k), n)[q] == BitChar(Bit(k, n - 1 - q))
  {
    BinDigitsLength(k, n);
    var s := ZFill(BinDigits(k), n);
    ZFillBinary(BinDigits(k), n);
    ZFillValue(BinDigits(k), n);
    BinDigitsValue(k);
    CharIsBit(s, q);
  }

  lemma Regroup(x: int, p: int, v: int, c: int)
    ensures 2 * (x * p + v) + c == x * (2 * p) + (2 * v + c)
  {
  }

  lemma MulAtLeast(d: int, m: int)
    requires d >= 1 && m >= 1
    ensures d * m >= m
  {
  }

  /** Euclidean division is unique: x == q·m + r with 0 <= r < m fixes x % m. */
  lemma ModOfShifted(x: int, q: int, r: int, m: int)
    requires m >= 1 && 0 <= r < m && x == q * m + r
    ensures x % m == r
  {
    var q', r' := x / m, x % m;
    assert x == q' * m + r';
    if q > q' {
      MulAtLeast(q - q', m);
    } else if q' > q {
      MulAtLeast(q' - q, m);
    }
  }

  /** The last m characters of a binary string carry its value modulo 2^m. */
  lemma {:induction false} BinValueSuffix(s: string, m: nat)
    requires m <= |s|
    ensures BinValue(s[|s| - m..]) == BinValue(s) % Pow2(m)
  {
    var a, b := s[..|s| - m], s[|s| - m..];
    assert s == a + b;
    assert |b| == m;
    BinValueAppend(a, b);
    BinValueBound(b);
    var x, y, p := BinValue(a), BinValue(b), Pow2(m);
    ModOfShifted(BinValue(s), x, y, p);
  }

  /** Reversing a register before `int(·, 2)` makes slot 0 the least
      significant bit. */
  lemma {:induction false} ReversedRegisterValue(reg: string)
    ensures BinValue(Reverse(reg)) == LsbValue(Digits(reg))
  {
    if reg != [] {
      var r := Reverse(reg);
      assert r == Reverse(reg[1..]) + [reg[0]];
      assert r[..|r| - 1] == Reverse(reg[1..]);
      assert Digits(reg)[1..] == Digits(reg[1..]);
      ReversedRegisterValue(reg[1..]);
    }
  }

  /** The 0/1 values of a string's characters ('1' is 1, anything else 0). */
  function Digits(s: string): (d: seq<nat>)
    ensures |d| == |s|
  {
    seq(|s|, i requires 0 <= i < |s| => if s[i] == '1' then 1 else 0)
  }
}
