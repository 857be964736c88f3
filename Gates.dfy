/** The special two-qubit gates QuaC supports and Qiskit does not: czx, cmz
    and cxz, chosen by a case-insensitive name, with the 4×4 identity for
    any other name. The unitaries have integer entries, so they are
    modelled as integer matrices. */
module Gates {

  /** A matrix as its rows. */
  type Matrix = seq<seq<int>>

  predicate Square4(m: Matrix)
  {
    |m| == 4 && forall i :: 0 <= i < 4 ==> |m[i]| == 4
  }

  function Identity4(): Matrix
  {
    [[1, 0, 0, 0],
     [0, 1, 0, 0],
     [0, 0, 1, 0],
     [0, 0, 0, 1]]
  }

  function Czx(): Matrix
  {
    [[1, 0, 0, 0],
     [0, 1, 0, 0],
     [0, 0, 0, -1],
     [0, 0, 1, 0]]
  }

  function Cmz(): Matrix
  {
    [[1, 0, 0, 0],
     [0, 1, 0, 0],
     [0, 0, -1, 0],
     [0, 0, 0, 1]]
  }

  function Cxz(): Matrix
  {
    [[1, 0, 0, 0],
     [0, 1, 0, 0],
     [0, 0, 0, 1],
     [0, 0, -1, 0]]
  }

  /** `str.lower` on the ASCII letters. */
  function LowerChar(c: char): char
  {
    if 'A' <= c <= 'Z' then (c as int + 32) as char else c
  }

  function Lower(s: string): (r: string)
    ensures |r| == |s|
  {
    seq(|s|, i requires 0 <= i < |s| => LowerChar(s[i]))
  }

  /** `SpecialQuacGates.get_gate_unitary`: a 4×4 operator, the identity
      exactly when the name is none of the three special gates. */
  function GetGateUnitary(name: string): (r: Matrix)
    ensures Square4(r)
    ensures r == Identity4() <==> Lower(name) != "czx" && Lower(name) != "cmz" && Lower(name) != "cxz"
  {
    if Lower(name) == "czx" then Czx()
    else if Lower(name) == "cmz" then Cmz()
    else if Lower(name) == "cxz" then Cxz()
    else Identity4()
  }

  function Transpose(m: Matrix): (t: Matrix)
    requires Square4(m)
    ensures Square4(t)
  {
    seq(4, i requires 0 <= i < 4 => seq(4, j requires 0 <= j < 4 => m[j][i]))
  }

  function Dot4(u: seq<int>, v: seq<int>): int
    requires |u| == 4 && |v| == 4
  {
    u[0] * v[0] + u[1] * v[1] + u[2] * v[2] + u[3] * v[3]
  }

  /** The product a·b, entry (i, j) the i-th row of a against the j-th
      column of b. */
  function MatMul(a: Matrix, b: Matrix): (p: Matrix)
    requires Square4(a) && Square4(b)
    ensures Square4(p)
  {
    var bt := Transpose(b);
    seq(4, i requires 0 <= i < 4 => seq(4, j requires 0 <= j < 4 => Dot4(a[i], bt[j])))
  }

  /** m·mᵀ = mᵀ·m = I: the matrix is its own transpose's inverse. */
  predicate Orthogonal(m: Matrix)
    requires Square4(m)
  {
    MatMul(m, Transpose(m)) == Identity4() && MatMul(Transpose(m), m) == Identity4()
  }

  /** Exactly one entry of the row is nonzero, and it is 1 or -1. */
  predicate SignedUnitRow(r: seq<int>)
  {
    exists j :: 0 <= j < |r| && (r[j] == 1 || r[j] == -1) && forall k :: 0 <= k < |r| && k != j ==> r[k] == 0
  }

  /** Exactly one ±1 in every row and in every column. */
  predicate SignedPermutation(m: Matrix)
    requires Square4(m)
  {
    (forall i :: 0 <= i < 4 ==> SignedUnitRow(m[i])) &&
    (forall i :: 0 <= i < 4 ==> SignedUnitRow(Transpose(m)[i]))
  }

  lemma SquareCases(x: int)
    ensures x * x == 0 <==> x == 0
    ensures x * x >= 0
    ensures x * x == 1 <==> x == 1 || x == -1
    ensures x * x >= 2 || x * x <= 1
  {
    if x >= 2 {
      assert x * x >= 2 * x;
    } else if x <= -2 {
      assert x * x >= -2 * x;
    }
  }

  /** An integer row of squared length 1 has a single nonzero entry, ±1. */
  lemma UnitIntegerRow(r: seq<int>)
    requires |r| == 4 && Dot4(r, r) == 1
    ensures SignedUnitRow(r)
  {
    SquareCases(r[0]);
    SquareCases(r[1]);
    SquareCases(r[2]);
    SquareCases(r[3]);
    if r[0] != 0 {
      assert forall k :: 0 <= k < 4 && k != 0 ==> r[k] == 0;
    } else if r[1] != 0 {
      assert forall k :: 0 <= k < 4 && k != 1 ==> r[k] == 0;
    } else if r[2] != 0 {
      assert forall k :: 0 <= k < 4 && k != 2 ==> r[k] == 0;
    } else {
      assert forall k :: 0 <= k < 4 && k != 3 ==> r[k] == 0;
    }
  }

  /** An orthogonal integer matrix is a signed permutation: each row and
      each column holds a single ±1. */
  lemma OrthogonalIsSignedPermutation(m: Matrix)
    requires Square4(m) && Orthogonal(m)
    ensures SignedPermutation(m)
  {
    var t := Transpose(m);
    forall i | 0 <= i < 4 ensures SignedUnitRow(m[i]) {
      assert MatMul(m, t)[i][i] == Dot4(m[i], Transpose(t)[i]) == 1;
      assert Transpose(t)[i] == m[i];
      UnitIntegerRow(m[i]);
    }
    forall i | 0 <= i < 4 ensures SignedUnitRow(t[i]) {
      assert MatMul(t, m)[i][i] == Dot4(t[i], Transpose(m)[i]) == 1;
      UnitIntegerRow(t[i]);
    }
  }

  /** Two 4×4 matrices agreeing entry by entry are equal. */
  lemma EqualByEntries(a: Matrix, b: Matrix)
    requires Square4(a) && Square4(b)
    requires forall i, j :: 0 <= i < 4 && 0 <= j < 4 ==> a[i][j] == b[i][j]
    ensures a == b
  {
    forall i | 0 <= i < 4 ensures a[i] == b[i] {
      assert a[i] == [a[i][0], a[i][1], a[i][2], a[i][3]];
    }
  }

  /** For a signed permutation given by where each row's ±1 sits, the product
      with the transpose is the identity when the positions are distinct. */
  lemma ProductWithTranspose(m: Matrix, pos: seq<int>)
    requires Square4(m) && |pos| == 4
    requires forall i :: 0 <= i < 4 ==> 0 <= pos[i] < 4 && (m[i][pos[i]] == 1 || m[i][pos[i]] == -1)
    requires forall i, k :: 0 <= i < 4 && 0 <= k < 4 && k != pos[i] ==> m[i][k] == 0
    requires forall i, j :: 0 <= i < j < 4 ==> pos[i] != pos[j]
    ensures MatMul(m, Transpose(m)) == Identity4()
  {
    var p := MatMul(m, Transpose(m));
    forall i, j | 0 <= i < 4 && 0 <= j < 4 ensures p[i][j] == Identity4()[i][j] {
      assert Transpose(Transpose(m))[j] == m[j];
      assert p[i][j] == Dot4(m[i], m[j]);
    }
    EqualByEntries(p, Identity4());
  }

  /** A matrix whose ±1 positions form an involution, and whose transpose
      has them at the same places, is orthogonal. */
  lemma InvolutionOrthogonal(m: Matrix, pos: seq<int>)
    requires Square4(m) && |pos| == 4
    requires forall i :: 0 <= i < 4 ==> 0 <= pos[i] < 4 && (m[i][pos[i]] == 1 || m[i][pos[i]] == -1)
    requires forall i, k :: 0 <= i < 4 && 0 <= k < 4 && k != pos[i] ==> m[i][k] == 0
    requires forall i :: 0 <= i < 4 ==> 0 <= pos[i] < 4 && pos[pos[i]] == i
    ensures Orthogonal(m)
  {
    var t := Transpose(m);
    forall i, j | 0 <= i < j < 4 ensures pos[i] != pos[j] {
      assert pos[pos[i]] == i && pos[pos[j]] == j;
    }
    ProductWithTranspose(m, pos);
    forall i, k | 0 <= i < 4 && 0 <= k < 4 && k != pos[i] ensures t[i][k] == 0 {
      assert t[i][k] == m[k][i];
      assert pos[k] != i;
    }
    ProductWithTranspose(t, pos);
    EqualByEntries(Transpose(t), m);
  }

  /** Every matrix the lookup returns is orthogonal, hence unitary. */
  lemma GetGateUnitaryOrthogonal(name: string)
    ensures Square4(GetGateUnitary(name)) && Orthogonal(GetGateUnitary(name))
  {
    var m := GetGateUnitary(name);
    if m == Czx() || m == Cxz() {
      InvolutionOrthogonal(m, [0, 1, 3, 2]);
    } else {
      InvolutionOrthogonal(m, [0, 1, 2, 3]);
    }
  }

  /** Every matrix the lookup returns is a signed permutation. */
  lemma GetGateUnitarySignedPermutation(name: string)
    ensures Square4(GetGateUnitary(name)) && SignedPermutation(GetGateUnitary(name))
  {
    GetGateUnitaryOrthogonal(name);
    OrthogonalIsSignedPermutation(GetGateUnitary(name));
  }

  /** cxz is czx's transpose, and therefore its inverse. */
  lemma CxzInvertsCzx()
    ensures Cxz() == Transpose(Czx())
    ensures MatMul(Czx(), Cxz()) == Identity4() && MatMul(Cxz(), Czx()) == Identity4()
  {
    EqualByEntries(Cxz(), Transpose(Czx()));
    ProductWithTranspose(Czx(), [0, 1, 3, 2]);
    ProductWithTranspose(Cxz(), [0, 1, 3, 2]);
    EqualByEntries(Czx(), Transpose(Cxz()));
  }

  /** cmz negates the third basis state and fixes the other three. */
  lemma CmzDiagonal()
    ensures forall i, j :: 0 <= i < 4 && 0 <= j < 4 ==>
      Cmz()[i][j] == (if i != j then 0 else if i == 2 then -1 else 1)
  {
  }

  /** On the first two basis states (control qubit clear) every gate acts as
      the identity: rows and columns 0 and 1 are those of I. */
  lemma ControlClearIsIdentity(name: string)
    ensures var m := GetGateUnitary(name);
      Square4(m) &&
      forall i, j :: 0 <= i < 4 && 0 <= j < 4 && (i < 2 || j < 2) ==> m[i][j] == Identity4()[i][j]
  {
  }

  /** The lower-cased name equals a three-letter gate name exactly when the
      name spells it in any mix of cases. */
  lemma LowerMatches(name: string, target: string)
    requires |target| == 3 && forall k :: 0 <= k < 3 ==> 'a' <= target[k] <= 'z'
    ensures Lower(name) == target <==>
      |name| == 3 && forall k :: 0 <= k < 3 ==> name[k] == target[k] || name[k] as int == target[k] as int - 32
  {
    if |name| == 3 && forall k :: 0 <= k < 3 ==> name[k] == target[k] || name[k] as int == target[k] as int - 32 {
      assert Lower(name) == target;
    }
  }

  /** Which matrix comes back depends only on the lower-cased name; the four
      answers are distinct, and the identity is returned exactly for the
      unrecognised names. */
  lemma GetGateUnitaryChoice(name: string)
    ensures GetGateUnitary(name) == Czx() <==> Lower(name) == "czx"
    ensures GetGateUnitary(name) == Cmz() <==> Lower(name) == "cmz"
    ensures GetGateUnitary(name) == Cxz() <==> Lower(name) == "cxz"
    ensures GetGateUnitary(name) == Identity4() <==> Lower(name) !in {"czx", "cmz", "cxz"}
  {
    assert Czx()[2][3] == -1 && Cmz()[2][3] == 0 && Cxz()[2][3] == 1 && Identity4()[2][3] == 0;
    assert Cmz()[2][2] == -1 && Identity4()[2][2] == 1;
  }

  /** Upper and lower case select the same gate. */
  lemma GetGateUnitaryIgnoresCase(a: string, b: string)
    requires Lower(a) == Lower(b)
    ensures GetGateUnitary(a) == GetGateUnitary(b)
  {
  }

  lemma UpperCaseNames()
    ensures GetGateUnitary("CZX") == Czx() && GetGateUnitary("cMz") == Cmz() && GetGateUnitary("CxZ") == Cxz()
    ensures GetGateUnitary("cz") == Identity4()
  {
    assert Lower("CZX") == "czx";
    assert Lower("cMz") == "cmz";
    assert Lower("CxZ") == "cxz";
    assert Lower("cz") == "cz";
  }
}
