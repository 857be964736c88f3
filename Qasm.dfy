/** Text rewriting of OpenQASM programs: the transpiler that turns
    Qiskit-generated QASM into the dialect QuaC reads (unsupported lines
    dropped, implicit multiplications by pi made explicit, parameter
    expressions evaluated), and the TIMEQASM emitter that appends each
    scheduled instruction's start time to its line. The transpiler is
    written twice in the repository, identically. Python's `eval` of a
    parameter followed by `str` of its value, and `str` of a start time,
    are function parameters. */
module Qasm {

  import opened Common
  import opened Schedule

  // ---------------------------------------------------------------------
  // str.splitlines
  // ---------------------------------------------------------------------

  /** The characters `str.splitlines` treats as line boundaries. */
  predicate IsLineBreak(c: char)
  {
    var n := c as int;
    n == 10 || n == 13 || n == 11 || n == 12 || n == 28 || n == 29 || n == 30
    || n == 0x85 || n == 0x2028 || n == 0x2029
  }

  predicate NoBreaks(s: string)
  {
    forall k :: 0 <= k < |s| ==> !IsLineBreak(s[k])
  }

  /** Index of the first line boundary, or |s| when there is none. */
  function FirstBreak(s: string): (i: nat)
    ensures i <= |s|
    ensures NoBreaks(s[..i])
    ensures i < |s| ==> IsLineBreak(s[i])
  {
    if s == [] then 0
    else if IsLineBreak(s[0]) then 0
    else
      var j := FirstBreak(s[1..]);
      assert s[..1 + j] == [s[0]] + s[1..][..j];
      1 + j
  }

  /** `s.splitlines()`: the text between boundaries, where "\r\n" counts as
      one boundary and a final boundary opens no empty last line. */
  function SplitLines(s: string): seq<string>
    decreases |s|
  {
    if s == [] then []
    else
      var i := FirstBreak(s);
      if i == |s| then [s]
      else
        var skip := if s[i] == '\r' && i + 1 < |s| && s[i + 1] == '\n' then 2 else 1;
        [s[..i]] + SplitLines(s[i + skip..])
  }

  lemma {:induction false} SplitLinesNoBreaks(s: string)
    ensures forall k :: 0 <= k < |SplitLines(s)| ==> NoBreaks(SplitLines(s)[k])
    decreases |s|
  {
    if s != [] {
      var i := FirstBreak(s);
      if i < |s| {
        var skip := if s[i] == '\r' && i + 1 < |s| && s[i + 1] == '\n' then 2 else 1;
        SplitLinesNoBreaks(s[i + skip..]);
      }
    }
  }

  /** Every line followed by "\n", concatenated: the shape of both outputs. */
  function JoinLines(ls: seq<string>): string
  {
    if ls == [] then "" else JoinLines(ls[..|ls| - 1]) + ls[|ls| - 1] + "\n"
  }

  lemma JoinLinesSnoc(ls: seq<string>, x: string)
    ensures JoinLines(ls + [x]) == JoinLines(ls) + x + "\n"
  {
    assert (ls + [x])[..|ls|] == ls;
  }

  lemma {:induction false} JoinLinesCons(x: string, ls: seq<string>)
    ensures JoinLines([x] + ls) == x + "\n" + JoinLines(ls)
  {
    if ls == [] {
      assert ([x] + ls)[..0] == [];
    } else {
      assert ([x] + ls)[..|ls|] == [x] + ls[..|ls| - 1];
      JoinLinesCons(x, ls[..|ls| - 1]);
    }
  }

  /** Lines without boundaries, each ended by "\n", split back into themselves. */
  lemma {:induction false} SplitJoinLines(ls: seq<string>)
    requires forall k :: 0 <= k < |ls| ==> NoBreaks(ls[k])
    ensures SplitLines(JoinLines(ls)) == ls
  {
    if ls != [] {
      var x, rest := ls[0], ls[1..];
      assert ls == [x] + rest;
      JoinLinesCons(x, rest);
      var s := JoinLines(ls);
      assert s == x + "\n" + JoinLines(rest);
      SplitJoinLines(rest);
      BreakAfterLine(x, JoinLines(rest));
    }
  }

  lemma BreakAfterLine(x: string, t: string)
    requires NoBreaks(x)
    ensures FirstBreak(x + "\n" + t) == |x|
    ensures SplitLines(x + "\n" + t) == [x] + SplitLines(t)
  {
    var s := x + "\n" + t;
    FirstBreakOfLine(x, t);
    assert s[..|x|] == x;
    assert s[|x| + 1..] == t;
  }

  lemma {:induction false} FirstBreakOfLine(x: string, t: string)
    requires NoBreaks(x)
    ensures FirstBreak(x + "\n" + t) == |x|
  {
    var s := x + "\n" + t;
    if x != [] {
      assert s[1..] == x[1..] + "\n" + t;
      FirstBreakOfLine(x[1..], t);
    }
  }

  // ---------------------------------------------------------------------
  // Line filter
  // ---------------------------------------------------------------------

  /** `any(instruction in line for instruction in ["measure", "creg", "barrier", "id"])`. */
  predicate Dropped(line: string)
  {
    IsSubstring("measure", line) || IsSubstring("creg", line) || IsSubstring("barrier", line)
    || IsSubstring("id", line)
  }

  /** `t` occurs in `s` starting at index i. */
  predicate OccursAt(t: string, s: string, i: nat)
  {
    i + |t| <= |s| && s[i..i + |t|] == t
  }

  /** Python's `t in s` is an occurrence at some index. */
  lemma {:induction false} SubstringMeaning(t: string, s: string)
    ensures IsSubstring(t, s) ==> exists i: nat :: OccursAt(t, s, i)
    ensures (exists i: nat :: OccursAt(t, s, i)) ==> IsSubstring(t, s)
    decreases |s|
  {
    if IsSubstring(t, s) {
      if s[..|t|] == t {
        assert OccursAt(t, s, 0);
      } else {
        SubstringMeaning(t, s[1..]);
        var i: nat :| OccursAt(t, s[1..], i);
        assert s[1..][i..i + |t|] == s[i + 1..i + 1 + |t|];
        assert OccursAt(t, s, i + 1);
      }
    }
    if exists i: nat :: OccursAt(t, s, i) {
      var i: nat :| OccursAt(t, s, i);
      if i == 0 {
        assert s[..|t|] == t;
      } else {
        assert s[1..][i - 1..i - 1 + |t|] == s[i..i + |t|];
        assert OccursAt(t, s[1..], i - 1);
        SubstringMeaning(t, s[1..]);
        assert |t| <= |s|;
      }
    }
  }

  /** The lines the transpiler keeps, in input order. */
  function Kept(ls: seq<string>): (r: seq<string>)
    ensures |r| <= |ls|
  {
    if ls == [] then []
    else Kept(ls[..|ls| - 1]) + (if Dropped(ls[|ls| - 1]) then [] else [ls[|ls| - 1]])
  }

  /** A line is kept exactly when it is an input line that names none of the
      four words. */
  lemma {:induction false} KeptMeaning(ls: seq<string>, x: string)
    ensures x in Kept(ls) ==> x in ls && !Dropped(x)
    ensures x in ls && !Dropped(x) ==> x in Kept(ls)
  {
    if ls != [] {
      KeptMeaning(ls[..|ls| - 1], x);
      assert ls == ls[..|ls| - 1] + [ls[|ls| - 1]];
    }
  }

  /** A program that names none of the words keeps every line. */
  lemma {:induction false} KeptAll(ls: seq<string>)
    requires forall k :: 0 <= k < |ls| ==> !Dropped(ls[k])
    ensures Kept(ls) == ls
  {
    if ls != [] {
      KeptAll(ls[..|ls| - 1]);
    }
  }

  // ---------------------------------------------------------------------
  // Implicit multiplication by pi
  // ---------------------------------------------------------------------

  predicate IsDigit(c: char)
  {
    '0' <= c <= '9'
  }

  /** A match of the pattern `[0-9]pi` at index i. */
  predicate DigitPiAt(s: string, i: nat)
  {
    i + 3 <= |s| && IsDigit(s[i]) && s[i + 1] == 'p' && s[i + 2] == 'i'
  }

  /** `re.findall("[0-9]pi", s)`: the matches, scanned left to right
      without overlap. */
  function FindDigitPi(s: string): (ms: seq<string>)
    ensures forall k :: 0 <= k < |ms| ==> |ms[k]| == 3 && IsDigit(ms[k][0]) && ms[k][1..] == "pi"
    decreases |s|
  {
    if |s| < 3 then []
    else if DigitPiAt(s, 0) then [s[..3]] + FindDigitPi(s[3..])
    else FindDigitPi(s[1..])
  }

  /** Every match's digit is among the digits `findall` returns. */
  lemma {:induction false} FindDigitPiComplete(s: string, i: nat)
    requires DigitPiAt(s, i)
    ensures exists k :: 0 <= k < |FindDigitPi(s)| && FindDigitPi(s)[k][0] == s[i]
    decreases |s|
  {
    var ms := FindDigitPi(s);
    if DigitPiAt(s, 0) {
      if i == 0 {
        assert ms[0][0] == s[i];
      } else {
        assert i >= 3;
        assert DigitPiAt(s[3..], i - 3);
        FindDigitPiComplete(s[3..], i - 3);
        var k :| 0 <= k < |FindDigitPi(s[3..])| && FindDigitPi(s[3..])[k][0] == s[i];
        assert ms[k + 1] == FindDigitPi(s[3..])[k];
      }
    } else {
      assert i > 0;
      assert DigitPiAt(s[1..], i - 1);
      FindDigitPiComplete(s[1..], i - 1);
    }
  }

  /** `s.replace(pat, rep)`: every occurrence, scanned left to right
      without overlap, replaced. */
  function Replace(s: string, pat: string, rep: string): string
    requires |pat| > 0
    decreases |s|
  {
    if |s| < |pat| then s
    else if s[..|pat|] == pat then rep + Replace(s[|pat|..], pat, rep)
    else [s[0]] + Replace(s[1..], pat, rep)
  }

  /** `s` with "*" inserted after each digit of `ds` that starts a match of
      `[0-9]pi`. */
  function StarDigits(s: string, ds: set<char>): (r: string)
    ensures |r| >= |s|
    ensures |s| > 0 ==> r[0] == s[0]
  {
    if s == [] then []
    else if s[0] in ds && DigitPiAt(s, 0) then [s[0], '*'] + StarDigits(s[1..], ds)
    else [s[0]] + StarDigits(s[1..], ds)
  }

  /** Every "<digit>pi" becomes "<digit>*pi". */
  function StarPi(s: string): (r: string)
    ensures |s| > 0 ==> |r| > 0 && r[0] == s[0]
  {
    if s == [] then []
    else if DigitPiAt(s, 0) then [s[0], '*'] + StarPi(s[1..])
    else [s[0]] + StarPi(s[1..])
  }

  lemma {:induction false} StarDigitsNone(s: string)
    ensures StarDigits(s, {}) == s
  {
    if s != [] {
      StarDigitsNone(s[1..]);
    }
  }

  /** Replacing "dpi" by "d*pi" in a string already starred for `ds` stars d too. */
  lemma {:induction false} ReplaceStarsDigit(s: string, ds: set<char>, d: char)
    requires IsDigit(d) && forall c :: c in ds ==> IsDigit(c)
    ensures Replace(StarDigits(s, ds), [d, 'p', 'i'], [d, '*', 'p', 'i']) == StarDigits(s, ds + {d})
    decreases |s|
  {
    var pat, rep := [d, 'p', 'i'], [d, '*', 'p', 'i'];
    if s == [] {
    } else if s[0] in ds && DigitPiAt(s, 0) {
      ReplaceStarsDigit(s[1..], ds, d);
      StarredCase(s, ds, d);
      var y := StarDigits(s[1..], ds);
      ReplaceSkip(s[0], ['*'] + y, pat, rep);
      ReplaceSkip('*', y, pat, rep);
    } else if s[0] == d && DigitPiAt(s, 0) {
      ReplaceStarsDigit(s[3..], ds, d);
      MatchCase(s, ds, d);
      ReplaceHit(pat, StarDigits(s[3..], ds), rep);
    } else {
      ReplaceStarsDigit(s[1..], ds, d);
      PlainCase(s, ds, d);
      ReplaceSkip(s[0], StarDigits(s[1..], ds), pat, rep);
    }
  }

  /** Starring at a match whose digit is already starred. */
  lemma StarredCase(s: string, ds: set<char>, d: char)
    requires s != [] && s[0] in ds && DigitPiAt(s, 0)
    ensures StarDigits(s, ds) == [s[0]] + (['*'] + StarDigits(s[1..], ds))
    ensures StarDigits(s, ds + {d}) == [s[0]] + (['*'] + StarDigits(s[1..], ds + {d}))
  {
  }

  /** Starring at a match of the digit being added. */
  lemma MatchCase(s: string, ds: set<char>, d: char)
    requires forall c :: c in ds ==> IsDigit(c)
    requires s != [] && s[0] !in ds && s[0] == d && DigitPiAt(s, 0)
    ensures StarDigits(s, ds) == [d, 'p', 'i'] + StarDigits(s[3..], ds)
    ensures StarDigits(s, ds + {d}) == [d, '*', 'p', 'i'] + StarDigits(s[3..], ds + {d})
  {
    UnstarredMatch(s, ds);
    StarredMatch(s, ds + {d});
  }

  lemma UnstarredMatch(s: string, ds: set<char>)
    requires forall c :: c in ds ==> IsDigit(c)
    requires s != [] && s[0] !in ds && DigitPiAt(s, 0)
    ensures StarDigits(s, ds) == [s[0], 'p', 'i'] + StarDigits(s[3..], ds)
  {
    assert StarDigits(s, ds) == [s[0]] + StarDigits(s[1..], ds);
    StarDigitsAfterMatch(s, ds);
    ConsPrefix([s[0]], ['p', 'i'], StarDigits(s[3..], ds));
  }

  lemma StarredMatch(s: string, ds: set<char>)
    requires forall c :: c in ds ==> IsDigit(c)
    requires s != [] && s[0] in ds && DigitPiAt(s, 0)
    ensures StarDigits(s, ds) == [s[0], '*', 'p', 'i'] + StarDigits(s[3..], ds)
  {
    assert StarDigits(s, ds) == [s[0], '*'] + StarDigits(s[1..], ds);
    StarDigitsAfterMatch(s, ds);
    ConsPrefix([s[0], '*'], ['p', 'i'], StarDigits(s[3..], ds));
  }

  lemma ConsPrefix<T>(a: seq<T>, b: seq<T>, c: seq<T>)
    ensures a + (b + c) == (a + b) + c
  {
  }

  /** Starring elsewhere copies the character, and no match of d starts it. */
  lemma PlainCase(s: string, ds: set<char>, d: char)
    requires IsDigit(d) && forall c :: c in ds ==> IsDigit(c)
    requires s != [] && !(s[0] in ds && DigitPiAt(s, 0)) && !(s[0] == d && DigitPiAt(s, 0))
    ensures StarDigits(s, ds) == [s[0]] + StarDigits(s[1..], ds)
    ensures StarDigits(s, ds + {d}) == [s[0]] + StarDigits(s[1..], ds + {d})
    ensures var y := StarDigits(s[1..], ds); |y| < 2 || s[0] != d || y[0] != 'p' || y[1] != 'i'
  {
    if |s| >= 3 && s[1] == 'p' {
      StarDigitsSecond(s, ds);
    } else if |s| < 3 {
      StarDigitsShort(s[1..], ds);
    }
  }

  lemma StarDigitsShort(s: string, ds: set<char>)
    requires |s| < 3
    ensures StarDigits(s, ds) == s
  {
    if s != [] {
      StarDigitsShort(s[1..], ds);
    }
  }

  /** Past a match, the starred text continues with "pi" untouched. */
  lemma StarDigitsAfterMatch(s: string, ds: set<char>)
    requires DigitPiAt(s, 0) && forall c :: c in ds ==> IsDigit(c)
    ensures StarDigits(s[1..], ds) == ['p', 'i'] + StarDigits(s[3..], ds)
  {
    assert s[1..][1..] == s[2..];
    assert s[2..][1..] == s[3..];
  }

  /** The second character of the starred text is that of the original when
      the first character is not starred and is followed by a non-digit. */
  lemma StarDigitsSecond(s: string, ds: set<char>)
    requires |s| >= 3 && forall c :: c in ds ==> IsDigit(c)
    requires s[1] == 'p'
    ensures |StarDigits(s[1..], ds)| >= 2 && StarDigits(s[1..], ds)[1] == s[2]
  {
    assert s[1..][1..] == s[2..];
  }

  /** `str.replace` of a three-character pattern steps over a character
      that does not start a match. */
  lemma ReplaceSkip(c: char, y: string, pat: string, rep: string)
    requires |pat| == 3
    requires |y| < 2 || c != pat[0] || y[0] != pat[1] || y[1] != pat[2]
    ensures Replace([c] + y, pat, rep) == [c] + Replace(y, pat, rep)
  {
    assert ([c] + y)[1..] == y;
    if |y| >= 2 {
      assert ([c] + y)[..3] == [c, y[0], y[1]];
    }
  }

  /** `str.replace` replaces a match at the front. */
  lemma ReplaceHit(pat: string, t: string, rep: string)
    requires |pat| > 0
    ensures Replace(pat + t, pat, rep) == rep + Replace(t, pat, rep)
  {
    assert (pat + t)[..|pat|] == pat;
    assert (pat + t)[|pat|..] == t;
  }

  /** Starring the digits that actually start a match is starring them all. */
  lemma {:induction false} StarDigitsComplete(s: string, ds: set<char>)
    requires forall c :: c in ds ==> IsDigit(c)
    requires forall i: nat :: DigitPiAt(s, i) ==> s[i] in ds
    ensures StarDigits(s, ds) == StarPi(s)
  {
    if s != [] {
      forall i: nat | DigitPiAt(s[1..], i) ensures s[1..][i] in ds {
        assert DigitPiAt(s, i + 1);
      }
      StarDigitsComplete(s[1..], ds);
      assert DigitPiAt(s, 0) ==> s[0] in ds;
    }
  }

  /** The loop of the transpiler: for every match `m` of `[0-9]pi`,
      `line = line.replace(m, m[0] + '*pi')`. */
  method RewritePi(line: string) returns (r: string)
    ensures r == StarPi(line)
  {
    var matches := FindDigitPi(line);
    ghost var ds: set<char> := {};
    r := line;
    StarDigitsNone(line);
    for k := 0 to |matches|
      invariant forall c :: c in ds ==> IsDigit(c)
      invariant forall j :: 0 <= j < k ==> matches[j][0] in ds
      invariant r == StarDigits(line, ds)
    {
      var m := matches[k];
      assert m == [m[0], 'p', 'i'];
      assert [m[0]] + "*pi" == [m[0], '*', 'p', 'i'];
      ReplaceStarsDigit(line, ds, m[0]);
      r := Replace(r, m, [m[0]] + "*pi");
      ds := ds + {m[0]};
    }
    forall i: nat | DigitPiAt(line, i) ensures line[i] in ds {
      FindDigitPiComplete(line, i);
    }
    StarDigitsComplete(line, ds);
  }

  /** No "<digit>pi" is left after the rewrite. */
  lemma {:induction false} StarPiLeavesNoMatch(s: string, i: nat)
    ensures !DigitPiAt(StarPi(s), i)
    decreases |s|
  {
    var x := StarPi(s);
    if s != [] {
      var y := StarPi(s[1..]);
      if DigitPiAt(s, 0) {
        assert x == [s[0], '*'] + y;
        if i >= 2 {
          assert x[2..] == y;
          StarPiLeavesNoMatch(s[1..], i - 2);
          assert DigitPiAt(x, i) == DigitPiAt(y, i - 2);
        }
      } else {
        assert x == [s[0]] + y;
        if i >= 1 {
          StarPiLeavesNoMatch(s[1..], i - 1);
          assert DigitPiAt(x, i) == DigitPiAt(y, i - 1);
        } else {
          NoMatchAtFront(s);
        }
      }
    }
  }

  /** Starring keeps the first three characters of a text that has no
      match at its front, so no match appears there. */
  lemma NoMatchAtFront(s: string)
    requires !DigitPiAt(s, 0)
    ensures !DigitPiAt(StarPi(s), 0)
  {
    if |s| >= 3 && s[1] == 'p' {
      assert s[1..][1..] == s[2..];
      assert StarPi(s) == [s[0]] + StarPi(s[1..]);
      assert StarPi(s[1..]) == ['p'] + StarPi(s[2..]);
      assert StarPi(s)[2] == s[2];
    } else if |s| == 2 {
      assert StarPi(s) == [s[0]] + StarPi(s[1..]);
      assert StarPi(s[1..]) == [s[1]];
    }
  }

  /** A line without "<digit>pi" is left as it is. */
  lemma {:induction false} StarPiWithoutMatch(s: string)
    requires forall i: nat :: !DigitPiAt(s, i)
    ensures StarPi(s) == s
  {
    if s != [] {
      forall i: nat ensures !DigitPiAt(s[1..], i) {
        assert !DigitPiAt(s, i + 1);
      }
      StarPiWithoutMatch(s[1..]);
      assert !DigitPiAt(s, 0);
    }
  }

  /** Rewriting twice is rewriting once. */
  lemma StarPiIdempotent(s: string)
    ensures StarPi(StarPi(s)) == StarPi(s)
  {
    forall i: nat ensures !DigitPiAt(StarPi(s), i) {
      StarPiLeavesNoMatch(s, i);
    }
    StarPiWithoutMatch(StarPi(s));
  }

  /** `s` with every "*" removed. */
  function WithoutStars(s: string): (r: string)
  {
    if s == [] then [] else WithoutStars(s[..|s| - 1]) + (if s[|s| - 1] == '*' then [] else [s[|s| - 1]])
  }

  lemma {:induction false} WithoutStarsCons(c: char, s: string)
    ensures WithoutStars([c] + s) == (if c == '*' then [] else [c]) + WithoutStars(s)
  {
    if s != [] {
      assert ([c] + s)[..|s|] == [c] + s[..|s| - 1];
      WithoutStarsCons(c, s[..|s| - 1]);
    } else {
      assert ([c] + s)[..0] == [];
    }
  }

  /** The rewrite inserts stars and changes nothing else. */
  lemma {:induction false} StarPiOnlyInsertsStars(s: string)
    ensures WithoutStars(StarPi(s)) == WithoutStars(s)
  {
    if s != [] {
      StarPiOnlyInsertsStars(s[1..]);
      assert s == [s[0]] + s[1..];
      WithoutStarsCons(s[0], s[1..]);
      if DigitPiAt(s, 0) {
        assert StarPi(s) == [s[0]] + (['*'] + StarPi(s[1..]));
        WithoutStarsCons(s[0], ['*'] + StarPi(s[1..]));
        WithoutStarsCons('*', StarPi(s[1..]));
      } else {
        assert StarPi(s) == [s[0]] + StarPi(s[1..]);
        WithoutStarsCons(s[0], StarPi(s[1..]));
      }
    }
  }

  lemma {:induction false} StarPiNoBreaks(s: string)
    requires NoBreaks(s)
    ensures NoBreaks(StarPi(s))
  {
    if s != [] {
      StarPiNoBreaks(s[1..]);
    }
  }

  // ---------------------------------------------------------------------
  // The parameter group `\(.+\)`
  // ---------------------------------------------------------------------

  /** Index of the last `c` in `s`, or -1. */
  function LastIndex(s: string, c: char): (r: int)
    ensures -1 <= r < |s|
    ensures r >= 0 ==> s[r] == c
    ensures forall j :: r < j < |s| ==> s[j] != c
  {
    if s == [] then -1
    else if s[|s| - 1] == c then |s| - 1
    else LastIndex(s[..|s| - 1], c)
  }

  /** `re.findall("\(.+\)", line)` from index p on, for a line without "\n"
      (every line `splitlines` yields): a match starts at a "(" that has a
      ")" at least two places later, and `.+` is greedy, so it runs to the
      last ")" of the line; scanning resumes after it. */
  function FindGroups(line: string, p: nat): seq<string>
    decreases |line| - p
  {
    if p >= |line| then []
    else
      var q := LastIndex(line, ')');
      if line[p] == '(' && q >= p + 2 then [line[p..q + 1]] + FindGroups(line, q + 1)
      else FindGroups(line, p + 1)
  }

  /** The first "(" from index p on that has the line's last ")" at least
      two places later. */
  function GroupStart(line: string, p: nat): (r: Option<nat>)
    ensures r.Some? ==> p <= r.value < |line| && line[r.value] == '(' && LastIndex(line, ')') >= r.value + 2
    ensures r.Some? ==> forall j :: p <= j < r.value ==> !(line[j] == '(' && LastIndex(line, ')') >= j + 2)
    ensures r.None? ==> forall j :: p <= j < |line| ==> !(line[j] == '(' && LastIndex(line, ')') >= j + 2)
    decreases |line| - p
  {
    if p >= |line| then None
    else if line[p] == '(' && LastIndex(line, ')') >= p + 2 then Some(p)
    else GroupStart(line, p + 1)
  }

  lemma {:induction false} NoGroupPastClose(line: string, p: nat)
    requires p > LastIndex(line, ')')
    ensures FindGroups(line, p) == []
    decreases |line| - p
  {
    if p < |line| {
      NoGroupPastClose(line, p + 1);
    }
  }

  /** The regex finds at most one group per line: the one at the first
      eligible "(", reaching to the last ")". */
  lemma {:induction false} FindGroupsMeaning(line: string, p: nat)
    ensures GroupStart(line, p).None? ==> FindGroups(line, p) == []
    ensures GroupStart(line, p).Some? ==>
      FindGroups(line, p) == [line[GroupStart(line, p).value..LastIndex(line, ')') + 1]]
    decreases |line| - p
  {
    if p < |line| {
      var q := LastIndex(line, ')');
      if line[p] == '(' && q >= p + 2 {
        NoGroupPastClose(line, q + 1);
      } else {
        FindGroupsMeaning(line, p + 1);
      }
    }
  }

  /** The group text occurs in its line at its start only. */
  lemma GroupOccursOnce(line: string, p: nat, i: nat)
    requires GroupStart(line, 0) == Some(p)
    requires OccursAt(line[p..LastIndex(line, ')') + 1], line, i)
    ensures i == p
  {
    var q := LastIndex(line, ')');
    var g := line[p..q + 1];
    assert g[0] == '(' && g[|g| - 1] == ')';
    assert line[i] == '(' && line[i + |g| - 1] == ')';
  }

  /** `str.replace` of the span `s[p..q]`, when it occurs only there. */
  lemma ReplaceSpan(s: string, p: nat, q: nat, rep: string)
    requires p < q <= |s|
    requires forall i: nat :: OccursAt(s[p..q], s, i) ==> i == p
    ensures Replace(s, s[p..q], rep) == s[..p] + rep + s[q..]
  {
    assert |s[p..q]| == q - p;
    ReplaceOnce(s, s[p..q], rep, p);
  }

  /** `str.replace` of a text that occurs exactly once splices it. */
  lemma {:induction false} ReplaceOnce(s: string, pat: string, rep: string, p: nat)
    requires |pat| > 0 && OccursAt(pat, s, p)
    requires forall i: nat :: OccursAt(pat, s, i) ==> i == p
    ensures Replace(s, pat, rep) == s[..p] + rep + s[p + |pat|..]
    decreases p
  {
    if p == 0 {
      ReplaceAtFront(s, pat, rep);
      assert s[..p] == [];
    } else {
      OccursOnlyShift(pat, s, p);
      ReplaceOnce(s[1..], pat, rep, p - 1);
      ReplaceUnmatchedHead(s, pat, rep);
      assert Replace(s, pat, rep) == [s[0]] + (s[1..][..p - 1] + rep + s[1..][p - 1 + |pat|..]);
      SpliceCons(s, rep, p, |pat|);
    }
  }

  /** A text occurring only at p > 0 occurs in the tail only at p - 1. */
  lemma OccursOnlyShift(pat: string, s: string, p: nat)
    requires 0 < p && |pat| > 0 && OccursAt(pat, s, p)
    requires forall i: nat :: OccursAt(pat, s, i) ==> i == p
    ensures 0 < |s| && !OccursAt(pat, s, 0) && OccursAt(pat, s[1..], p - 1)
    ensures forall i: nat :: OccursAt(pat, s[1..], i) ==> i == p - 1
  {
    forall i: nat | OccursAt(pat, s[1..], i) ensures i == p - 1 {
      OccursShift(pat, s, 1, i);
    }
    OccursShift(pat, s, 1, p - 1);
  }

  /** `str.replace` copies a first character that does not start a match. */
  lemma ReplaceUnmatchedHead(s: string, pat: string, rep: string)
    requires 0 < |pat| <= |s| && !OccursAt(pat, s, 0)
    ensures Replace(s, pat, rep) == [s[0]] + Replace(s[1..], pat, rep)
  {
    assert s[0..|pat|] == s[..|pat|];
  }

  lemma SpliceCons(s: string, rep: string, p: nat, m: nat)
    requires 0 < p && p + m <= |s|
    ensures [s[0]] + (s[1..][..p - 1] + rep + s[1..][p - 1 + m..]) == s[..p] + rep + s[p + m..]
  {
    assert s[1..][..p - 1] == s[1..p];
    assert s[1..][p - 1 + m..] == s[p + m..];
    assert s[..p] == [s[0]] + s[1..p];
  }

  lemma ReplaceAtFront(s: string, pat: string, rep: string)
    requires |pat| > 0 && OccursAt(pat, s, 0)
    requires forall i: nat :: OccursAt(pat, s, i) ==> i == 0
    ensures Replace(s, pat, rep) == rep + s[|pat|..]
  {
    assert s[..|pat|] == pat;
    forall i: nat ensures !OccursAt(pat, s[|pat|..], i) {
      OccursShift(pat, s, |pat|, i);
    }
    ReplaceNowhere(s[|pat|..], pat, rep);
  }

  lemma OccursShift(pat: string, s: string, d: nat, i: nat)
    requires d <= |s|
    ensures OccursAt(pat, s[d..], i) <==> OccursAt(pat, s, i + d)
  {
    if i + d + |pat| <= |s| {
      assert s[d..][i..i + |pat|] == s[i + d..i + d + |pat|];
    }
  }

  /** `str.replace` of a text that does not occur changes nothing. */
  lemma {:induction false} ReplaceNowhere(s: string, pat: string, rep: string)
    requires |pat| > 0
    requires forall i: nat :: !OccursAt(pat, s, i)
    ensures Replace(s, pat, rep) == s
    decreases |s|
  {
    if |s| >= |pat| {
      assert !OccursAt(pat, s, 0);
      forall i: nat ensures !OccursAt(pat, s[1..], i) {
        OccursShift(pat, s, 1, i);
      }
      ReplaceNowhere(s[1..], pat, rep);
    }
  }

  // ---------------------------------------------------------------------
  // Parameter evaluation
  // ---------------------------------------------------------------------

  /** Index of the first `c` in `s`. */
  function IndexOf(s: string, c: char): (r: nat)
    requires c in s
    ensures r < |s| && s[r] == c && c !in s[..r]
  {
    if s[0] == c then 0
    else
      var r := 1 + IndexOf(s[1..], c);
      assert s[..r] == [s[0]] + s[1..][..r - 1];
      r
  }

  /** `s.split(c)`: the pieces between the separators, at least one. */
  function SplitOn(s: string, c: char): (r: seq<string>)
    ensures |r| >= 1
    decreases |s|
  {
    if c !in s then [s]
    else
      var i := IndexOf(s, c);
      [s[..i]] + SplitOn(s[i + 1..], c)
  }

  /** `sep.join(ps)`. */
  function Join(ps: seq<string>, sep: string): string
  {
    if ps == [] then ""
    else if |ps| == 1 then ps[0]
    else Join(ps[..|ps| - 1], sep) + sep + ps[|ps| - 1]
  }

  lemma {:induction false} JoinCons(x: string, ps: seq<string>, sep: string)
    requires ps != []
    ensures Join([x] + ps, sep) == x + sep + Join(ps, sep)
  {
    if |ps| == 1 {
      assert ([x] + ps)[..1] == [x];
    } else {
      var init, last := ps[..|ps| - 1], ps[|ps| - 1];
      assert ([x] + ps)[..|ps|] == [x] + init;
      assert Join([x] + ps, sep) == Join([x] + init, sep) + sep + last;
      JoinCons(x, init, sep);
      assert Join(ps, sep) == Join(init, sep) + sep + last;
    }
  }

  /** Splitting on a character and joining with it gives the text back. */
  lemma {:induction false} JoinSplit(s: string, c: char)
    ensures Join(SplitOn(s, c), [c]) == s
    decreases |s|
  {
    if c in s {
      var i := IndexOf(s, c);
      var rest := SplitOn(s[i + 1..], c);
      SplitOnCons(s, c);
      JoinSplit(s[i + 1..], c);
      JoinCons(s[..i], rest, [c]);
      SplitAround(s, i);
    }
  }

  lemma SplitOnCons(s: string, c: char)
    requires c in s
    ensures SplitOn(s, c) == [s[..IndexOf(s, c)]] + SplitOn(s[IndexOf(s, c) + 1..], c)
  {
  }

  lemma SplitAround(s: string, i: nat)
    requires i < |s|
    ensures s == s[..i] + [s[i]] + s[i + 1..]
  {
  }

  /** No piece of a split holds the separator. */
  lemma {:induction false} SplitOnPieces(s: string, c: char)
    ensures forall k :: 0 <= k < |SplitOn(s, c)| ==> c !in SplitOn(s, c)[k]
    decreases |s|
  {
    if c in s {
      var i := IndexOf(s, c);
      SplitOnCons(s, c);
      SplitOnPieces(s[i + 1..], c);
    }
  }

  /** The text of each evaluated parameter: `str(eval(p.replace("pi", "np.pi")))`. */
  function Values(params: seq<string>, ev: string -> string): (vs: seq<string>)
    ensures |vs| == |params|
  {
    seq(|params|, k requires 0 <= k < |params| => ev(Replace(params[k], "pi", "np.pi")))
  }

  /** The rewritten group: one value per comma-separated parameter. */
  function Evaluated(group: string, ev: string -> string): string
    requires |group| >= 2
  {
    "(" + Join(Values(SplitOn(group[1..|group| - 1], ','), ev), ",") + ")"
  }

  /** Each value followed by ",", as the loop accumulates them. */
  function Trailing(vs: seq<string>): string
  {
    if vs == [] then "" else Trailing(vs[..|vs| - 1]) + vs[|vs| - 1] + ","
  }

  lemma {:induction false} TrailingJoin(vs: seq<string>)
    requires vs != []
    ensures Trailing(vs) == Join(vs, ",") + ","
  {
    if |vs| > 1 {
      TrailingJoin(vs[..|vs| - 1]);
    }
  }

  /** The evaluation loop: "(" then each value and a comma, the last comma
      cut off, then ")". */
  method EvaluateParams(group: string, ev: string -> string) returns (r: string)
    requires |group| >= 2
    ensures r == Evaluated(group, ev)
  {
    var params := SplitOn(group[1..|group| - 1], ',');
    ghost var vs := Values(params, ev);
    var acc := "(";
    for k := 0 to |params|
      invariant acc == "(" + Trailing(vs[..k])
    {
      acc := acc + ev(Replace(params[k], "pi", "np.pi")) + ",";
      assert vs[..k + 1][..k] == vs[..k];
    }
    assert vs[..|params|] == vs;
    TrailingJoin(vs);
    r := acc[..|acc| - 1] + ")";
    assert acc[..|acc| - 1] == "(" + Join(vs, ",");
  }

  // ---------------------------------------------------------------------
  // The transpiler
  // ---------------------------------------------------------------------

  /** A kept line after the rewrite: pi made explicit, then the parameter
      group, when the regex finds exactly one, replaced by its values. */
  function RewriteLine(line: string, ev: string -> string): string
  {
    var l := StarPi(line);
    var gs := FindGroups(l, 0);
    if |gs| == 1 && |gs[0]| >= 2 then Replace(l, gs[0], Evaluated(gs[0], ev)) else l
  }

  /** A line without a group is only pi-rewritten. */
  lemma RewriteLineNoGroup(line: string, ev: string -> string)
    requires GroupStart(StarPi(line), 0).None?
    ensures RewriteLine(line, ev) == StarPi(line)
  {
    FindGroupsMeaning(StarPi(line), 0);
  }

  /** Otherwise the group, from the first eligible "(" at p to the last ")"
      at q, is spliced out for its values. */
  lemma RewriteLineSplice(line: string, ev: string -> string, p: nat, q: nat)
    requires GroupStart(StarPi(line), 0) == Some(p) && q == LastIndex(StarPi(line), ')')
    ensures p + 2 <= q < |StarPi(line)|
    ensures RewriteLine(line, ev) == StarPi(line)[..p] + Evaluated(StarPi(line)[p..q + 1], ev) + StarPi(line)[q + 1..]
  {
    var l := StarPi(line);
    FindGroupsMeaning(l, 0);
    var g := l[p..q + 1];
    RewriteLineGroup(line, ev, g);
    GroupSplice(l, Evaluated(g, ev), p, q);
  }

  lemma RewriteLineGroup(line: string, ev: string -> string, g: string)
    requires FindGroups(StarPi(line), 0) == [g] && |g| >= 2
    ensures RewriteLine(line, ev) == Replace(StarPi(line), g, Evaluated(g, ev))
  {
  }

  /** The one group of a line, replaced by any text, is spliced out. */
  lemma GroupSplice(l: string, e: string, p: nat, q: nat)
    requires GroupStart(l, 0) == Some(p) && q == LastIndex(l, ')')
    ensures p + 2 <= q < |l|
    ensures Replace(l, l[p..q + 1], e) == l[..p] + e + l[q + 1..]
  {
    var g := l[p..q + 1];
    forall i: nat | OccursAt(g, l, i) ensures i == p {
      GroupOccursOnce(l, p, i);
    }
    ReplaceSpan(l, p, q + 1, e);
  }

  /** The rewritten forms of the kept lines, in order. */
  function OutLines(ls: seq<string>, ev: string -> string): seq<string>
  {
    if ls == [] then []
    else OutLines(ls[..|ls| - 1], ev) + (if Dropped(ls[|ls| - 1]) then [] else [RewriteLine(ls[|ls| - 1], ev)])
  }

  /** Output line k is the rewrite of kept line k. */
  lemma {:induction false} OutLinesKept(ls: seq<string>, ev: string -> string)
    ensures |OutLines(ls, ev)| == |Kept(ls)|
    ensures forall k :: 0 <= k < |Kept(ls)| ==> OutLines(ls, ev)[k] == RewriteLine(Kept(ls)[k], ev)
  {
    if ls != [] {
      OutLinesKept(ls[..|ls| - 1], ev);
    }
  }

  /** `quac_qasm_transpiler` of the program text. */
  function Transpile(qasm: string, ev: string -> string): string
  {
    JoinLines(OutLines(SplitLines(qasm), ev))
  }

  method QuacQasmTranspiler(qiskitQasm: string, ev: string -> string) returns (quacQasm: string)
    ensures quacQasm == Transpile(qiskitQasm, ev)
  {
    var lines := SplitLines(qiskitQasm);
    quacQasm := "";
    for k := 0 to |lines|
      invariant quacQasm == JoinLines(OutLines(lines[..k], ev))
    {
      assert lines[..k + 1][..k] == lines[..k];
      var line := lines[k];
      if Dropped(line) {
        assert OutLines(lines[..k + 1], ev) == OutLines(lines[..k], ev);
        continue;
      }
      line := RewriteKeptLine(line, ev);
      quacQasm := quacQasm + line + "\n";
      assert OutLines(lines[..k + 1], ev) == OutLines(lines[..k], ev) + [line];
      JoinLinesSnoc(OutLines(lines[..k], ev), line);
    }
    assert lines[..|lines|] == lines;
  }

  /** The loop body for a kept line. */
  method RewriteKeptLine(line: string, ev: string -> string) returns (r: string)
    ensures r == RewriteLine(line, ev)
  {
    r := RewritePi(line);
    var groups := FindGroups(r, 0);
    if |groups| == 1 && |groups[0]| >= 2 {
      var evaluated := EvaluateParams(groups[0], ev);
      r := Replace(r, groups[0], evaluated);
    }
  }

  /** Every kept line, rewritten, comes out on a line of its own: splitting
      the output gives the rewritten kept lines in order (when the values
      `str` produces hold no line boundary). */
  lemma TranspileLines(qasm: string, ev: string -> string)
    requires forall x :: NoBreaks(ev(x))
    ensures SplitLines(Transpile(qasm, ev)) == OutLines(SplitLines(qasm), ev)
  {
    var ls := SplitLines(qasm);
    var out := OutLines(ls, ev);
    SplitLinesNoBreaks(qasm);
    OutLinesKept(ls, ev);
    forall k | 0 <= k < |out| ensures NoBreaks(out[k]) {
      var x := Kept(ls)[k];
      KeptMeaning(ls, x);
      RewriteLineNoBreaks(x, ev);
    }
    SplitJoinLines(out);
  }

  lemma RewriteLineNoBreaks(line: string, ev: string -> string)
    requires NoBreaks(line) && forall x :: NoBreaks(ev(x))
    ensures NoBreaks(RewriteLine(line, ev))
  {
    StarPiNoBreaks(line);
    var l := StarPi(line);
    if GroupStart(l, 0).Some? {
      var p, q := GroupStart(l, 0).value, LastIndex(l, ')');
      RewriteLineSplice(line, ev, p, q);
      GroupSpliceNoBreaks(l, p, q, ev);
    } else {
      RewriteLineNoGroup(line, ev);
    }
  }

  lemma GroupSpliceNoBreaks(l: string, p: nat, q: nat, ev: string -> string)
    requires NoBreaks(l) && forall x :: NoBreaks(ev(x))
    requires p + 1 <= q < |l|
    ensures NoBreaks(l[..p] + Evaluated(l[p..q + 1], ev) + l[q + 1..])
  {
    EvaluatedNoBreaks(l[p..q + 1], ev);
    SpliceNoBreaks(l, p, q + 1, Evaluated(l[p..q + 1], ev));
  }

  lemma SpliceNoBreaks(l: string, i: nat, j: nat, e: string)
    requires NoBreaks(l) && NoBreaks(e) && i <= j <= |l|
    ensures NoBreaks(l[..i] + e + l[j..])
  {
    SliceNoBreaks(l, 0, i);
    SliceNoBreaks(l, j, |l|);
    assert l[0..i] == l[..i] && l[j..|l|] == l[j..];
    ConcatNoBreaks(l[..i], e);
    ConcatNoBreaks(l[..i] + e, l[j..]);
  }

  lemma EvaluatedNoBreaks(g: string, ev: string -> string)
    requires |g| >= 2 && forall x :: NoBreaks(ev(x))
    ensures NoBreaks(Evaluated(g, ev))
  {
    var vs := Values(SplitOn(g[1..|g| - 1], ','), ev);
    forall k | 0 <= k < |vs| ensures NoBreaks(vs[k]) {
      assert vs[k] == ev(Replace(SplitOn(g[1..|g| - 1], ',')[k], "pi", "np.pi"));
    }
    JoinNoBreaks(vs, ",");
    ConcatNoBreaks("(", Join(vs, ","));
    ConcatNoBreaks("(" + Join(vs, ","), ")");
  }

  lemma ConcatNoBreaks(a: string, b: string)
    requires NoBreaks(a) && NoBreaks(b)
    ensures NoBreaks(a + b)
  {
    forall k | 0 <= k < |a + b| ensures !IsLineBreak((a + b)[k]) {
      if k >= |a| {
        assert (a + b)[k] == b[k - |a|];
      }
    }
  }

  lemma SliceNoBreaks(a: string, i: nat, j: nat)
    requires NoBreaks(a) && i <= j <= |a|
    ensures NoBreaks(a[i..j])
  {
    forall k | 0 <= k < j - i ensures !IsLineBreak(a[i..j][k]) {
      assert a[i..j][k] == a[i + k];
    }
  }

  lemma {:induction false} JoinNoBreaks(ps: seq<string>, sep: string)
    requires NoBreaks(sep) && forall k :: 0 <= k < |ps| ==> NoBreaks(ps[k])
    ensures NoBreaks(Join(ps, sep))
  {
    if |ps| > 1 {
      JoinNoBreaks(ps[..|ps| - 1], sep);
      ConcatNoBreaks(Join(ps[..|ps| - 1], sep), sep);
      ConcatNoBreaks(Join(ps[..|ps| - 1], sep) + sep, ps[|ps| - 1]);
    }
  }

  // ---------------------------------------------------------------------
  // TIMEQASM emission
  // ---------------------------------------------------------------------

  /** `s[:-1]`: the text without its last character ("" stays ""). */
  function DropLast(s: string): string
  {
    if s == [] then [] else s[..|s| - 1]
  }

  /** The header lines: the program's lines 1..start-1 after the
      "TIMEQASM 1.0;" line; joining none of them still writes one "\n",
      which reads back as an empty line. */
  function HeaderLines(lines: seq<string>, start: nat): seq<string>
  {
    var hs := PySlice(lines, 1, start);
    ["TIMEQASM 1.0;"] + (if hs == [] then [""] else hs)
  }

  /** The body line written for scheduled entry k. */
  function TimedLine(body: seq<string>, e: Scheduled, showTime: real -> string): Result<string>
  {
    match e.instr.id
    case None => Failure(AttributeError)
    case Some(id) => if id < |body| then Success(DropLast(body[id]) + " @" + showTime(e.time) + ";") else Failure(IndexError)
  }

  /** The body text for the first k scheduled entries; the first failing
      entry's error is the result. */
  function TimedLines(body: seq<string>, schedule: seq<Scheduled>, showTime: real -> string, k: nat): Result<seq<string>>
    requires k <= |schedule|
  {
    if k == 0 then Success([])
    else match TimedLines(body, schedule, showTime, k - 1)
      case Failure(e) => Failure(e)
      case Success(ls) =>
        match TimedLine(body, schedule[k - 1], showTime)
        case Failure(e) => Failure(e)
        case Success(l) => Success(ls + [l])
  }

  /** `quac_time_qasm_transpiler` given the transpiled program text, the
      number of quantum and classical registers and the list schedule. */
  function TimeQasm(qasm: string, nQregs: nat, nCregs: nat, schedule: seq<Scheduled>, showTime: real -> string)
    : Result<string>
  {
    var lines := SplitLines(qasm);
    var start := 2 + nQregs + nCregs;
    match TimedLines(PySlice(lines, start, |lines|), schedule, showTime, |schedule|)
    case Failure(e) => Failure(e)
    case Success(ls) => Success(JoinLines(HeaderLines(lines, start) + ls))
  }

  method QuacTimeQasmTranspiler(originalQasm: string, nQregs: nat, nCregs: nat, schedule: seq<Scheduled>,
                                showTime: real -> string) returns (r: Result<string>)
    ensures r == TimeQasm(originalQasm, nQregs, nCregs, schedule, showTime)
  {
    var lines := SplitLines(originalQasm);
    var start := 2 + nQregs + nCregs;
    var body := PySlice(lines, start, |lines|);
    var qasmModified := TimeQasmHeader(lines, start);
    ghost var head := HeaderLines(lines, start);
    ghost var written: seq<string> := [];
    assert head + written == head;
    for k := 0 to |schedule|
      invariant TimedLines(body, schedule, showTime, k) == Success(written)
      invariant qasmModified == JoinLines(head + written)
    {
      var err;
      qasmModified, err, written := AppendTimedLine(body, schedule, showTime, k, qasmModified, head, written);
      if err.Some? {
        return Failure(err.value);
      }
    }
    return Success(qasmModified);
  }

  /** The header: the version line, the program's lines 1..start-1 joined
      by "\n", and a closing "\n". */
  method TimeQasmHeader(lines: seq<string>, start: nat) returns (header: string)
    ensures header == JoinLines(HeaderLines(lines, start))
  {
    header := "TIMEQASM 1.0;\n";
    header := header + Join(PySlice(lines, 1, start), "\n");
    header := header + "\n";
    HeaderText(lines, start);
  }

  /** One pass of the emission loop: the line of `schedule[k]` is appended,
      or the error it raises ends the emission. */
  method AppendTimedLine(body: seq<string>, schedule: seq<Scheduled>, showTime: real -> string, k: nat,
                         text: string, ghost head: seq<string>, ghost written: seq<string>)
    returns (text': string, err: Option<PyError>, ghost written': seq<string>)
    requires k < |schedule|
    requires TimedLines(body, schedule, showTime, k) == Success(written)
    requires text == JoinLines(head + written)
    ensures err.None? ==> TimedLines(body, schedule, showTime, k + 1) == Success(written') &&
                          text' == JoinLines(head + written')
    ensures err.Some? ==> TimedLines(body, schedule, showTime, |schedule|) == Failure(err.value)
  {
    var e := schedule[k];
    if e.instr.id.None? || e.instr.id.value >= |body| {
      err := if e.instr.id.None? then Some(AttributeError) else Some(IndexError);
      assert TimedLine(body, e, showTime) == Failure(err.value);
      assert TimedLines(body, schedule, showTime, k + 1) == Failure(err.value);
      TimedFailureSticks(body, schedule, showTime, k + 1, |schedule|);
      return text, err, written;
    }
    var line := DropLast(body[e.instr.id.value]) + " @" + showTime(e.time) + ";";
    assert TimedLine(body, e, showTime) == Success(line);
    text' := text + line + "\n";
    JoinLinesAppend(head, written, line);
    written' := written + [line];
    err := None;
  }

  lemma JoinLinesAppend(head: seq<string>, written: seq<string>, line: string)
    ensures JoinLines(head + written) + line + "\n" == JoinLines(head + (written + [line]))
  {
    JoinLinesSnoc(head + written, line);
    assert head + written + [line] == head + (written + [line]);
  }

  /** The header text is the header lines, each ended by "\n". */
  lemma HeaderText(lines: seq<string>, start: nat)
    ensures "TIMEQASM 1.0;\n" + Join(PySlice(lines, 1, start), "\n") + "\n" == JoinLines(HeaderLines(lines, start))
  {
    var hs := PySlice(lines, 1, start);
    var t := if hs == [] then [""] else hs;
    JoinLinesCons("TIMEQASM 1.0;", t);
    if hs != [] {
      JoinJoinLines(hs);
    }
  }

  lemma {:induction false} JoinJoinLines(ls: seq<string>)
    requires ls != []
    ensures Join(ls, "\n") + "\n" == JoinLines(ls)
  {
    if |ls| > 1 {
      JoinJoinLines(ls[..|ls| - 1]);
    }
  }

  lemma {:induction false} TimedFailureSticks(body: seq<string>, schedule: seq<Scheduled>, showTime: real -> string,
                                              k: nat, n: nat)
    requires k <= n <= |schedule|
    requires TimedLines(body, schedule, showTime, k).Failure?
    ensures TimedLines(body, schedule, showTime, n) == TimedLines(body, schedule, showTime, k)
  {
    if n > k {
      TimedFailureSticks(body, schedule, showTime, k, n - 1);
    }
  }

  /** Emission succeeds exactly when every scheduled instruction carries an
      id that indexes a body line; then there is one timed line per entry,
      entry k's being body line `id` without its last character, " @", the
      start time and ";". */
  lemma {:induction false} TimedLinesMeaning(body: seq<string>, schedule: seq<Scheduled>, showTime: real -> string, k: nat)
    requires k <= |schedule|
    ensures TimedLines(body, schedule, showTime, k).Success? ==>
      forall j :: 0 <= j < k ==> schedule[j].instr.id.Some? && schedule[j].instr.id.value < |body|
    ensures (forall j :: 0 <= j < k ==> schedule[j].instr.id.Some? && schedule[j].instr.id.value < |body|) ==>
      TimedLines(body, schedule, showTime, k).Success?
    ensures TimedLines(body, schedule, showTime, k).Success? ==>
      |TimedLines(body, schedule, showTime, k).value| == k &&
      forall j :: 0 <= j < k ==>
        (TimedLines(body, schedule, showTime, k).value[j] ==
         DropLast(body[schedule[j].instr.id.value]) + " @" + showTime(schedule[j].time) + ";")
  {
    if k > 0 {
      TimedLinesMeaning(body, schedule, showTime, k - 1);
    }
  }

  /** The emitted program splits back into the header lines followed by one
      timed line per scheduled instruction (when `str` of a time holds no
      line boundary). */
  lemma TimeQasmLines(qasm: string, nQregs: nat, nCregs: nat, schedule: seq<Scheduled>, showTime: real -> string,
                      ls: seq<string>)
    requires forall t :: NoBreaks(showTime(t))
    requires TimedLines(PySlice(SplitLines(qasm), 2 + nQregs + nCregs, |SplitLines(qasm)|), schedule, showTime, |schedule|) == Success(ls)
    ensures TimeQasm(qasm, nQregs, nCregs, schedule, showTime).Success?
    ensures SplitLines(TimeQasm(qasm, nQregs, nCregs, schedule, showTime).value) == HeaderLines(SplitLines(qasm), 2 + nQregs + nCregs) + ls
    ensures |ls| == |schedule|
  {
    var lines := SplitLines(qasm);
    var start := 2 + nQregs + nCregs;
    var hl := HeaderLines(lines, start);
    TimeQasmText(qasm, nQregs, nCregs, schedule, showTime, ls);
    TimedLinesLength(PySlice(lines, start, |lines|), schedule, showTime, |schedule|);
    EmittedNoBreaks(lines, start, schedule, showTime, qasm, hl, ls);
    SplitJoinLines(hl + ls);
  }

  lemma TimeQasmText(qasm: string, nQregs: nat, nCregs: nat, schedule: seq<Scheduled>, showTime: real -> string,
                     ls: seq<string>)
    requires TimedLines(PySlice(SplitLines(qasm), 2 + nQregs + nCregs, |SplitLines(qasm)|), schedule, showTime, |schedule|) == Success(ls)
    ensures TimeQasm(qasm, nQregs, nCregs, schedule, showTime) == Success(JoinLines(HeaderLines(SplitLines(qasm), 2 + nQregs + nCregs) + ls))
  {
  }

  lemma {:induction false} TimedLinesLength(body: seq<string>, schedule: seq<Scheduled>, showTime: real -> string, k: nat)
    requires k <= |schedule|
    ensures TimedLines(body, schedule, showTime, k).Success? ==> |TimedLines(body, schedule, showTime, k).value| == k
  {
    if k > 0 {
      TimedLinesLength(body, schedule, showTime, k - 1);
    }
  }

  /** No emitted line holds a line boundary. */
  lemma EmittedNoBreaks(lines: seq<string>, start: nat, schedule: seq<Scheduled>, showTime: real -> string, qasm: string,
                        hl: seq<string>, ls: seq<string>)
    requires lines == SplitLines(qasm)
    requires forall t :: NoBreaks(showTime(t))
    requires hl == HeaderLines(lines, start)
    requires TimedLines(PySlice(lines, start, |lines|), schedule, showTime, |schedule|) == Success(ls)
    ensures forall j :: 0 <= j < |hl + ls| ==> NoBreaks((hl + ls)[j])
  {
    SplitLinesNoBreaks(qasm);
    HeaderNoBreaks(lines, start);
    BodyNoBreaks(lines, start, schedule, showTime);
    AllNoBreaks(hl, ls);
  }

  lemma HeaderNoBreaks(lines: seq<string>, start: nat)
    requires forall j :: 0 <= j < |lines| ==> NoBreaks(lines[j])
    ensures forall j :: 0 <= j < |HeaderLines(lines, start)| ==> NoBreaks(HeaderLines(lines, start)[j])
  {
    var hs := PySlice(lines, 1, start);
    forall j | 0 <= j < |hs| ensures NoBreaks(hs[j]) {
      assert hs[j] == lines[1 + j];
    }
    assert NoBreaks("TIMEQASM 1.0;");
    assert NoBreaks("");
    AllNoBreaks(["TIMEQASM 1.0;"], if hs == [] then [""] else hs);
  }

  lemma BodyNoBreaks(lines: seq<string>, start: nat, schedule: seq<Scheduled>, showTime: real -> string)
    requires forall j :: 0 <= j < |lines| ==> NoBreaks(lines[j])
    requires forall t :: NoBreaks(showTime(t))
    requires TimedLines(PySlice(lines, start, |lines|), schedule, showTime, |schedule|).Success?
    ensures var ls := TimedLines(PySlice(lines, start, |lines|), schedule, showTime, |schedule|).value;
      forall j :: 0 <= j < |ls| ==> NoBreaks(ls[j])
  {
    var body := PySlice(lines, start, |lines|);
    var ls := TimedLines(body, schedule, showTime, |schedule|).value;
    TimedLinesMeaning(body, schedule, showTime, |schedule|);
    forall j | 0 <= j < |ls| ensures NoBreaks(ls[j]) {
      var id := schedule[j].instr.id.value;
      assert body[id] == lines[start + id];
      TimedLineNoBreaks(body[id], showTime(schedule[j].time));
    }
  }

  lemma AllNoBreaks(a: seq<string>, b: seq<string>)
    requires forall j :: 0 <= j < |a| ==> NoBreaks(a[j])
    requires forall j :: 0 <= j < |b| ==> NoBreaks(b[j])
    ensures forall j :: 0 <= j < |a + b| ==> NoBreaks((a + b)[j])
  {
    forall j | 0 <= j < |a + b| ensures NoBreaks((a + b)[j]) {
      if j >= |a| {
        assert (a + b)[j] == b[j - |a|];
      }
    }
  }

  lemma TimedLineNoBreaks(line: string, time: string)
    requires NoBreaks(line) && NoBreaks(time)
    ensures NoBreaks(DropLast(line) + " @" + time + ";")
  {
    if line != [] {
      SliceNoBreaks(line, 0, |line| - 1);
      assert line[0..|line| - 1] == line[..|line| - 1];
    }
    ConcatNoBreaks(DropLast(line), " @");
    ConcatNoBreaks(DropLast(line) + " @", time);
    ConcatNoBreaks(DropLast(line) + " @" + time, ";");
  }
}
