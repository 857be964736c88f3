/** How the two simulators turn the engine's probability vector into Qiskit
    counts. Basis state k is written as `bin(k)[2:].zfill(n_qubits)`; the
    outcome of qubit q (character q of that string) goes to every classical
    slot `qubit_measurements[q]` lists, a later qubit overwriting an earlier
    one; the register, initially all '0', is reversed so that slot 0 becomes
    the least significant bit, and its value keys the frequency table. Keys
    are modelled as the integer that `hex()` would print. */
module ResultFormat {

  import opened Common
  import opened Bits
  import opened Sampling

  /** `qubit_measurements`: the classical slots each measured qubit is
      written to. */
  type SlotMap = map<nat, seq<nat>>

  predicate WritesSlot(meas: SlotMap, q: nat, s: nat)
  {
    q in meas && s in meas[q]
  }

  /** Content of slot s after qubits 0..q-1 have written their outcomes. */
  function SlotValue(outcome: string, meas: SlotMap, s: nat, q: nat): char
    requires q <= |outcome|
  {
    if q == 0 then '0'
    else if WritesSlot(meas, q - 1, s) then outcome[q - 1]
    else SlotValue(outcome, meas, s, q - 1)
  }

  /** The highest-numbered qubit below q that writes slot s. */
  function LastWriter(meas: SlotMap, s: nat, q: nat): (r: Option<nat>)
    ensures r.Some? ==> r.value < q && WritesSlot(meas, r.value, s)
    ensures r.Some? ==> forall p :: r.value < p < q ==> !WritesSlot(meas, p, s)
    ensures r.None? ==> forall p :: 0 <= p < q ==> !WritesSlot(meas, p, s)
  {
    if q == 0 then None
    else if WritesSlot(meas, q - 1, s) then Some(q - 1)
    else LastWriter(meas, s, q - 1)
  }

  /** Last writer wins: a slot holds the outcome of the highest-numbered
      qubit that writes it, and '0' when no qubit does. */
  lemma {:induction false} SlotValueIsLastWriter(outcome: string, meas: SlotMap, s: nat, q: nat)
    requires q <= |outcome|
    ensures SlotValue(outcome, meas, s, q) ==
      match LastWriter(meas, s, q) case None => '0' case Some(p) => outcome[p]
  {
    if q > 0 && !WritesSlot(meas, q - 1, s) {
      SlotValueIsLastWriter(outcome, meas, s, q - 1);
    }
  }

  /** Some listed slot is past the end of the register: the assignment
      raises `IndexError`. */
  predicate SlotOutOfRange(outcome: string, meas: SlotMap, memSlots: nat)
  {
    exists q :: 0 <= q < |outcome| && q in meas && BadSlots(meas[q], memSlots)
  }

  predicate BadSlots(slots: seq<nat>, memSlots: nat)
  {
    exists i :: 0 <= i < |slots| && slots[i] >= memSlots
  }

  /** The register once every qubit of the outcome has been written, before
      the reversal. */
  function Register(outcome: string, meas: SlotMap, memSlots: nat): (reg: string)
    ensures |reg| == memSlots
  {
    seq(memSlots, s requires 0 <= s < memSlots => SlotValue(outcome, meas, s, |outcome|))
  }

  /** The key basis state k is counted under: `IndexError` for a slot past
      the register, `ValueError` from `int('', 2)` when there are no slots,
      otherwise the register read with slot 0 least significant. */
  function StateKey(k: nat, n: nat, memSlots: nat, meas: SlotMap): Result<nat>
  {
    var outcome := ZFill(BinDigits(k), n);
    if SlotOutOfRange(outcome, meas, memSlots) then Failure(IndexError)
    else if memSlots == 0 then Failure(ValueError)
    else Success(LsbValue(Digits(Register(outcome, meas, memSlots))))
  }

  // ---------------------------------------------------------------------
  // The register loop, in place

  /** The `for qubit, outcome in enumerate(...)` loop: writes each measured
      qubit's outcome into its slots of a register that starts all '0'.
      Returns false where Python raises `IndexError`. */
  method WriteOutcomes(reg: array<char>, outcome: string, meas: SlotMap) returns (ok: bool)
    requires forall s :: 0 <= s < reg.Length ==> reg[s] == '0'
    modifies reg
    ensures ok <==> !SlotOutOfRange(outcome, meas, reg.Length)
    ensures ok ==> reg[..] == Register(outcome, meas, reg.Length)
  {
    var q := 0;
    while q < |outcome|
      invariant 0 <= q <= |outcome|
      invariant forall s :: 0 <= s < reg.Length ==> reg[s] == SlotValue(outcome, meas, s, q)
      invariant forall p :: 0 <= p < q && p in meas ==> !BadSlots(meas[p], reg.Length)
    {
      if q in meas {
        var slots := meas[q];
        var j := 0;
        while j < |slots|
          invariant 0 <= j <= |slots|
          invariant forall i :: 0 <= i < j ==> slots[i] < reg.Length
          invariant forall s :: 0 <= s < reg.Length ==>
            reg[s] == if s in slots[..j] then outcome[q] else SlotValue(outcome, meas, s, q)
        {
          if slots[j] >= reg.Length {
            return false;
          }
          assert slots[..j + 1] == slots[..j] + [slots[j]];
          reg[slots[j]] := outcome[q];
          j := j + 1;
        }
        assert slots[..j] == slots;
      }
      q := q + 1;
    }
    ok := true;
  }

  /** `classical_register.reverse()`. */
  method ReverseInPlace(a: array<char>)
    modifies a
    ensures a[..] == Reverse(old(a[..]))
  {
    var i := 0;
    while i < a.Length / 2
      invariant 0 <= i <= a.Length / 2
      invariant forall k :: 0 <= k < i ==> a[k] == old(a[a.Length - 1 - k]) && a[a.Length - 1 - k] == old(a[k])
      invariant forall k :: i <= k < a.Length - i ==> a[k] == old(a[k])
    {
      a[i], a[a.Length - 1 - i] := a[a.Length - 1 - i], a[i];
      i := i + 1;
    }
    forall k | 0 <= k < a.Length ensures a[k] == Reverse(old(a[..]))[k] {
      ReverseAt(old(a[..]), k);
    }
  }

  /** The register contains only '0' and '1'. */
  lemma {:induction false} RegisterBinary(outcome: string, meas: SlotMap, memSlots: nat)
    requires IsBinaryString(outcome)
    ensures IsBinaryString(Register(outcome, meas, memSlots))
  {
    forall s | 0 <= s < memSlots ensures IsBinaryChar(Register(outcome, meas, memSlots)[s]) {
      SlotValueIsLastWriter(outcome, meas, s, |outcome|);
    }
  }

  lemma ReverseBinary(s: string)
    requires IsBinaryString(s)
    ensures IsBinaryString(Reverse(s))
  {
    forall k | 0 <= k < |s| ensures IsBinaryChar(Reverse(s)[k]) {
      ReverseAt(s, k);
    }
  }

  /** One basis state's key, as both simulators compute it: pad, write the
      register, reverse it in place, join and parse as binary. */
  method RegisterKey(k: nat, n: nat, memSlots: nat, meas: SlotMap) returns (r: Result<nat>)
    ensures r == StateKey(k, n, memSlots, meas)
  {
    var outcome := ZFill(BinDigits(k), n);
    var reg := new char[memSlots](_ => '0');
    var ok := WriteOutcomes(reg, outcome, meas);
    if !ok {
      return Failure(IndexError);
    }
    ghost var written := reg[..];
    ReverseInPlace(reg);
    var parsed := ParseBinary(reg[..]);
    if parsed.None? {
      ZFillBinary(BinDigits(k), n);
      RegisterBinary(outcome, meas, memSlots);
      ReverseBinary(written);
      return Failure(ValueError);
    }
    ReversedRegisterValue(written);
    r := Success(parsed.value);
  }

  // ---------------------------------------------------------------------
  // What a key says about the basis state

  /** Bit s of a register read least significant first is slot s. */
  lemma {:induction false} LsbValueBit(d: seq<nat>, s: nat)
    requires s < |d|
    requires forall i :: 0 <= i < |d| ==> d[i] < 2
    ensures Bit(LsbValue(d), s) == d[s]
  {
    if s > 0 {
      LsbValueBit(d[1..], s - 1);
      assert (d[0] + 2 * LsbValue(d[1..])) / 2 == LsbValue(d[1..]);
    }
  }

  /** Slot s of the register holds the outcome of its last writer. */
  lemma RegisterSlotOf(outcome: string, meas: SlotMap, memSlots: nat, s: nat)
    requires s < memSlots
    ensures var w := LastWriter(meas, s, |outcome|);
      Register(outcome, meas, memSlots)[s] == if w.Some? then outcome[w.value] else '0'
  {
    SlotValueIsLastWriter(outcome, meas, s, |outcome|);
  }

  /** Slot s of basis state k's register, before the reversal, in terms
      of the padded state string. */
  lemma PaddedRegisterSlot(k: nat, n: nat, memSlots: nat, meas: SlotMap, s: nat)
    requires n >= 1 && k < Pow2(n) && s < memSlots
    ensures var w := LastWriter(meas, s, n);
      Register(ZFill(BinDigits(k), n), meas, memSlots)[s] == if w.Some? then ZFill(BinDigits(k), n)[w.value] else '0'
  {
    PaddedStateChar(k, n, 0);
    RegisterSlotOf(ZFill(BinDigits(k), n), meas, memSlots, s);
  }

  /** Slot s of basis state k's register, before the reversal: bit n-1-q of
      k for its last writer q, '0' when it has none. */
  lemma RegisterSlot(k: nat, n: nat, memSlots: nat, meas: SlotMap, s: nat)
    requires n >= 1 && k < Pow2(n) && s < memSlots
    ensures LastWriter(meas, s, n).None? ==> Register(ZFill(BinDigits(k), n), meas, memSlots)[s] == '0'
    ensures LastWriter(meas, s, n).Some? ==>
      Register(ZFill(BinDigits(k), n), meas, memSlots)[s] == BitChar(Bit(k, n - 1 - LastWriter(meas, s, n).value))
  {
    PaddedRegisterSlot(k, n, memSlots, meas, s);
    var w := LastWriter(meas, s, n);
    if w.Some? {
      PaddedStateChar(k, n, w.value);
    }
  }

  /** Bit s of a register's value, read slot 0 first, is slot s. */
  lemma RegisterValueBit(reg: string, s: nat)
    requires s < |reg|
    ensures Bit(LsbValue(Digits(reg)), s) == if reg[s] == '1' then 1 else 0
  {
    LsbValueBit(Digits(reg), s);
  }

  /** For a basis state k < 2^n, bit s of its key is bit n-1-q of k, where q
      is the last qubit written to slot s, and 0 when no qubit writes it. */
  lemma StateKeyBit(k: nat, n: nat, memSlots: nat, meas: SlotMap, s: nat)
    requires n >= 1 && k < Pow2(n) && s < memSlots
    requires StateKey(k, n, memSlots, meas).Success?
    ensures LastWriter(meas, s, n).None? ==> Bit(StateKey(k, n, memSlots, meas).value, s) == 0
    ensures LastWriter(meas, s, n).Some? ==>
      Bit(StateKey(k, n, memSlots, meas).value, s) == Bit(k, n - 1 - LastWriter(meas, s, n).value)
  {
    var reg := Register(ZFill(BinDigits(k), n), meas, memSlots);
    assert StateKey(k, n, memSlots, meas).value == LsbValue(Digits(reg));
    RegisterValueBit(reg, s);
    RegisterSlot(k, n, memSlots, meas, s);
  }

  /** The map that measures qubit q into slot q, for n qubits. */
  function DirectMap(n: nat): (meas: SlotMap)
    ensures forall q: nat :: q in meas <==> q < n
    ensures forall q: nat :: q in meas ==> meas[q] == [q]
  {
    map q: nat | q < n :: [q]
  }

  /** Under the direct map no listed slot is past the register. */
  lemma DirectMapInRange(outcome: string, n: nat)
    requires |outcome| == n
    ensures !SlotOutOfRange(outcome, DirectMap(n), n)
  {
    var meas := DirectMap(n);
    forall q | 0 <= q < n && q in meas ensures !BadSlots(meas[q], n) {
      assert meas[q] == [q];
    }
  }

  /** Under the direct map slot s is last written by qubit s. */
  lemma DirectMapLastWriter(n: nat, s: nat)
    requires s < n
    ensures LastWriter(DirectMap(n), s, n) == Some(s)
  {
    assert WritesSlot(DirectMap(n), s, s);
  }

  /** Under the direct map every basis state of n >= 1 qubits has a key. */
  lemma DirectMapKeyExists(k: nat, n: nat)
    requires n >= 1 && k < Pow2(n)
    ensures StateKey(k, n, n, DirectMap(n)).Success?
  {
    PaddedStateChar(k, n, 0);
    DirectMapInRange(ZFill(BinDigits(k), n), n);
  }

  /** With every qubit q measured into slot q, the key is k with its n bits
      in reverse order: Qiskit's slot-0-least-significant convention. */
  lemma DirectMappingReversesBits(k: nat, n: nat, s: nat)
    requires n >= 1 && k < Pow2(n) && s < n
    ensures StateKey(k, n, n, DirectMap(n)).Success?
    ensures Bit(StateKey(k, n, n, DirectMap(n)).value, s) == Bit(k, n - 1 - s)
  {
    DirectMapKeyExists(k, n);
    DirectMapLastWriter(n, s);
    StateKeyBit(k, n, n, DirectMap(n), s);
  }

  // ---------------------------------------------------------------------
  // Frequency tables

  /** A `defaultdict` turned into a dict: keys in first-insertion order and
      the amount stored under each. */
  datatype Tally<T> = Tally(keys: seq<nat>, amounts: seq<T>)

  /** Position of a key in the table. */
  function Find(keys: seq<nat>, key: nat): (r: Option<nat>)
    ensures r.Some? ==> r.value < |keys| && keys[r.value] == key
    ensures r.None? ==> key !in keys
  {
    if keys == [] then None
    else if keys[|keys| - 1] == key then Some(|keys| - 1)
    else Find(keys[..|keys| - 1], key)
  }

  predicate Distinct(keys: seq<nat>)
  {
    forall i, j :: 0 <= i < j < |keys| ==> keys[i] != keys[j]
  }

  /** `frequencies[key] += x`: a new key starts from 0. */
  function AddAmount(t: Tally<real>, key: nat, x: real): Tally<real>
    requires |t.keys| == |t.amounts|
  {
    match Find(t.keys, key)
    case Some(i) => Tally(t.keys, t.amounts[i := t.amounts[i] + x])
    case None => Tally(t.keys + [key], t.amounts + [x])
  }

  /** `frequencies[key] += 1`. */
  function AddShot(t: Tally<nat>, key: nat): Tally<nat>
    requires |t.keys| == |t.amounts|
  {
    match Find(t.keys, key)
    case Some(i) => Tally(t.keys, t.amounts[i := t.amounts[i] + 1])
    case None => Tally(t.keys + [key], t.amounts + [1])
  }

  /** Total weight of the entries whose key is `key`. */
  function WeightOf(ks: seq<nat>, ws: seq<real>, key: nat): real
    requires |ks| == |ws|
  {
    if ks == [] then 0.0
    else WeightOf(ks[..|ks| - 1], ws[..|ws| - 1], key) + (if ks[|ks| - 1] == key then ws[|ws| - 1] else 0.0)
  }

  /** Number of entries whose key is `key`. */
  function CountOf(ks: seq<nat>, key: nat): nat
  {
    if ks == [] then 0 else CountOf(ks[..|ks| - 1], key) + (if ks[|ks| - 1] == key then 1 else 0)
  }

  /** A table of weights for the keyed entries (ks, ws): each key present
      once, exactly the keys that occur, each holding the total weight of
      its entries. */
  ghost predicate WeightTable(t: Tally<real>, ks: seq<nat>, ws: seq<real>)
    requires |ks| == |ws|
  {
    |t.keys| == |t.amounts| && Distinct(t.keys) &&
    (forall i :: 0 <= i < |t.keys| ==> t.keys[i] in ks) &&
    (forall j :: 0 <= j < |ks| ==> ks[j] in t.keys) &&
    (forall i :: 0 <= i < |t.keys| ==> t.amounts[i] == WeightOf(ks, ws, t.keys[i]))
  }

  /** A table of counts for the keys ks, with the same three properties. */
  ghost predicate CountTable(t: Tally<nat>, ks: seq<nat>)
  {
    |t.keys| == |t.amounts| && Distinct(t.keys) &&
    (forall i :: 0 <= i < |t.keys| ==> t.keys[i] in ks) &&
    (forall j :: 0 <= j < |ks| ==> ks[j] in t.keys) &&
    (forall i :: 0 <= i < |t.keys| ==> t.amounts[i] == CountOf(ks, t.keys[i]))
  }

  lemma WeightOfSnoc(ks: seq<nat>, ws: seq<real>, key: nat, x: real, k: nat)
    requires |ks| == |ws|
    ensures WeightOf(ks + [key], ws + [x], k) == WeightOf(ks, ws, k) + (if key == k then x else 0.0)
  {
    assert (ks + [key])[..|ks|] == ks && (ws + [x])[..|ws|] == ws;
  }

  /** One more weighted entry keeps the table exact and adds its weight to
      the total. */
  lemma AddAmountStep(t: Tally<real>, ks: seq<nat>, ws: seq<real>, key: nat, x: real)
    requires |ks| == |ws| && WeightTable(t, ks, ws)
    ensures WeightTable(AddAmount(t, key, x), ks + [key], ws + [x])
    ensures Sum(AddAmount(t, key, x).amounts) == Sum(t.amounts) + x
  {
    match Find(t.keys, key)
    case Some(i) => AddToPresent(t, ks, ws, i, x);
    case None => AddAbsent(t, ks, ws, key, x);
  }

  lemma AddToPresent(t: Tally<real>, ks: seq<nat>, ws: seq<real>, i: nat, x: real)
    requires |ks| == |ws| && WeightTable(t, ks, ws) && i < |t.keys|
    ensures WeightTable(Tally(t.keys, t.amounts[i := t.amounts[i] + x]), ks + [t.keys[i]], ws + [x])
    ensures Sum(t.amounts[i := t.amounts[i] + x]) == Sum(t.amounts) + x
  {
    SumAddAt(t.amounts, i, x);
    var key := t.keys[i];
    var ks', ws' := ks + [key], ws + [x];
    var t' := Tally(t.keys, t.amounts[i := t.amounts[i] + x]);
    forall j | 0 <= j < |t.keys| ensures t'.amounts[j] == WeightOf(ks', ws', t.keys[j]) {
      WeightOfSnoc(ks, ws, key, x, t.keys[j]);
    }
    forall j | 0 <= j < |t.keys| ensures t.keys[j] in ks' {
      assert t.keys[j] in ks;
    }
    forall j | 0 <= j < |ks'| ensures ks'[j] in t.keys {
      if j < |ks| {
        assert ks'[j] == ks[j];
      }
    }
  }

  lemma AddAbsent(t: Tally<real>, ks: seq<nat>, ws: seq<real>, key: nat, x: real)
    requires |ks| == |ws| && WeightTable(t, ks, ws) && key !in t.keys
    ensures WeightTable(Tally(t.keys + [key], t.amounts + [x]), ks + [key], ws + [x])
    ensures Sum(t.amounts + [x]) == Sum(t.amounts) + x
  {
    SumAppend(t.amounts, [x]);
    assert Sum([x]) == x by { assert [x][..0] == []; }
    var ks', ws' := ks + [key], ws + [x];
    var t' := Tally(t.keys + [key], t.amounts + [x]);
    assert key !in ks;
    WeightOfAbsent(ks, ws, key);
    forall j | 0 <= j < |t'.keys| ensures t'.amounts[j] == WeightOf(ks', ws', t'.keys[j]) {
      WeightOfSnoc(ks, ws, key, x, t'.keys[j]);
    }
    forall j | 0 <= j < |t'.keys| ensures t'.keys[j] in ks' {
      if j < |t.keys| {
        assert t.keys[j] in ks;
      }
    }
    forall j | 0 <= j < |ks'| ensures ks'[j] in t'.keys {
      if j < |ks| {
        assert ks'[j] == ks[j];
      }
    }
  }

  lemma {:induction false} WeightOfAbsent(ks: seq<nat>, ws: seq<real>, key: nat)
    requires |ks| == |ws| && key !in ks
    ensures WeightOf(ks, ws, key) == 0.0
  {
    if ks != [] {
      WeightOfAbsent(ks[..|ks| - 1], ws[..|ws| - 1], key);
    }
  }

  lemma CountOfSnoc(ks: seq<nat>, key: nat, k: nat)
    ensures CountOf(ks + [key], k) == CountOf(ks, k) + (if key == k then 1 else 0)
  {
    assert (ks + [key])[..|ks|] == ks;
  }

  /** One more shot keeps the table exact and adds one to the total. */
  lemma AddShotStep(t: Tally<nat>, ks: seq<nat>, key: nat)
    requires CountTable(t, ks)
    ensures CountTable(AddShot(t, key), ks + [key])
    ensures SumInt(AddShot(t, key).amounts) == SumInt(t.amounts) + 1
  {
    match Find(t.keys, key)
    case Some(i) => ShotToPresent(t, ks, i);
    case None => ShotAbsent(t, ks, key);
  }

  lemma ShotToPresent(t: Tally<nat>, ks: seq<nat>, i: nat)
    requires CountTable(t, ks) && i < |t.keys|
    ensures CountTable(Tally(t.keys, t.amounts[i := t.amounts[i] + 1]), ks + [t.keys[i]])
    ensures SumInt(t.amounts[i := t.amounts[i] + 1]) == SumInt(t.amounts) + 1
  {
    SumIntAddAt(t.amounts, i, 1);
    var key := t.keys[i];
    var ks' := ks + [key];
    var t' := Tally(t.keys, t.amounts[i := t.amounts[i] + 1]);
    forall j | 0 <= j < |t.keys| ensures t'.amounts[j] == CountOf(ks', t.keys[j]) {
      CountOfSnoc(ks, key, t.keys[j]);
    }
    forall j | 0 <= j < |t.keys| ensures t.keys[j] in ks' {
      assert t.keys[j] in ks;
    }
    forall j | 0 <= j < |ks'| ensures ks'[j] in t.keys {
      if j < |ks| {
        assert ks'[j] == ks[j];
      }
    }
  }

  lemma ShotAbsent(t: Tally<nat>, ks: seq<nat>, key: nat)
    requires CountTable(t, ks) && key !in t.keys
    ensures CountTable(Tally(t.keys + [key], t.amounts + [1]), ks + [key])
    ensures SumInt(t.amounts + [1]) == SumInt(t.amounts) + 1
  {
    assert (t.amounts + [1])[..|t.amounts|] == t.amounts;
    var ks' := ks + [key];
    var t' := Tally(t.keys + [key], t.amounts + [1]);
    assert key !in ks;
    CountOfAbsent(ks, key);
    forall j | 0 <= j < |t'.keys| ensures t'.amounts[j] == CountOf(ks', t'.keys[j]) {
      CountOfSnoc(ks, key, t'.keys[j]);
    }
    forall j | 0 <= j < |t'.keys| ensures t'.keys[j] in ks' {
      if j < |t.keys| {
        assert t.keys[j] in ks;
      }
    }
    forall j | 0 <= j < |ks'| ensures ks'[j] in t'.keys {
      if j < |ks| {
        assert ks'[j] == ks[j];
      }
    }
  }

  lemma {:induction false} CountOfAbsent(ks: seq<nat>, key: nat)
    requires key !in ks
    ensures CountOf(ks, key) == 0
  {
    if ks != [] {
      CountOfAbsent(ks[..|ks| - 1], key);
    }
  }

  lemma {:induction false} SumIntAddAt(s: seq<nat>, i: nat, x: nat)
    requires i < |s|
    ensures SumInt(s[i := s[i] + x]) == SumInt(s) + x
  {
    var t := s[i := s[i] + x];
    if i < |s| - 1 {
      assert t[..|t| - 1] == s[..|s| - 1][i := s[i] + x];
      SumIntAddAt(s[..|s| - 1], i, x);
    } else {
      assert t[..|t| - 1] == s[..|s| - 1];
    }
  }

  /** Every key that occurs has a positive count. */
  lemma {:induction false} CountOfPresent(ks: seq<nat>, key: nat)
    requires key in ks
    ensures CountOf(ks, key) >= 1
  {
    if ks[|ks| - 1] != key {
      CountOfPresent(ks[..|ks| - 1], key);
    }
  }

  // ---------------------------------------------------------------------
  // The density simulator's table

  /** `StateKey` with the register layout fixed. */
  function KeyMap(n: nat, memSlots: nat, meas: SlotMap): nat -> Result<nat>
  {
    k => StateKey(k, n, memSlots, meas)
  }

  /** The keys of a list of basis states, or the error of the first state
      whose key cannot be formed. */
  function KeysOf<S>(states: seq<S>, key: S -> Result<nat>): (r: Result<seq<nat>>)
    ensures r.Success? <==> forall j :: 0 <= j < |states| ==> key(states[j]).Success?
    ensures r.Success? ==> |r.value| == |states|
    ensures r.Success? ==> forall j :: 0 <= j < |states| ==> r.value[j] == key(states[j]).value
  {
    if states == [] then Success([])
    else
      match KeysOf(states[..|states| - 1], key)
      case Failure(e) => Failure(e)
      case Success(ks) =>
        match key(states[|states| - 1])
        case Failure(e) => Failure(e)
        case Success(k) => Success(ks + [k])
  }

  function Indices(count: nat): (r: seq<nat>)
    ensures |r| == count && forall k :: 0 <= k < count ==> r[k] == k
  {
    seq(count, k requires 0 <= k < count => k)
  }

  /** The first k indices of a longer list of indices. */
  lemma IndicesPrefix(count: nat, k: nat)
    requires k <= count
    ensures Indices(count)[..k] == Indices(k)
  {
  }

  /** The density simulator's loop over every basis state: the probability
      of each state is added to its key. */
  method DensityCounts(probs: seq<real>, n: nat, memSlots: nat, meas: SlotMap) returns (r: Result<Tally<real>>)
    ensures r.Failure? <==> KeysOf(Indices(|probs|), KeyMap(n, memSlots, meas)).Failure?
    ensures r.Failure? ==> r.error == KeysOf(Indices(|probs|), KeyMap(n, memSlots, meas)).error
    ensures r.Success? ==> WeightTable(r.value, KeysOf(Indices(|probs|), KeyMap(n, memSlots, meas)).value, probs)
    ensures r.Success? ==> Sum(r.value.amounts) == Sum(probs)
  {
    var freq := Tally([], []);
    ghost var ks: seq<nat> := [];
    var state := 0;
    while state < |probs|
      invariant 0 <= state <= |probs|
      invariant KeysOf(Indices(state), KeyMap(n, memSlots, meas)) == Success(ks)
      invariant WeightTable(freq, ks, probs[..state])
      invariant Sum(freq.amounts) == Sum(probs[..state])
    {
      var next;
      next, ks := WeighState(freq, ks, probs, state, n, memSlots, meas);
      if next.Failure? {
        return Failure(next.error);
      }
      freq := next.value;
      state := state + 1;
    }
    assert probs[..state] == probs;
    r := Success(freq);
  }

  /** One pass of the density loop: key basis state `state` and add its
      probability under that key. */
  method WeighState(freq: Tally<real>, ghost ks: seq<nat>, probs: seq<real>, state: nat,
                    n: nat, memSlots: nat, meas: SlotMap)
    returns (r: Result<Tally<real>>, ghost ks': seq<nat>)
    requires state < |probs|
    requires KeysOf(Indices(state), KeyMap(n, memSlots, meas)) == Success(ks)
    requires WeightTable(freq, ks, probs[..state]) && Sum(freq.amounts) == Sum(probs[..state])
    ensures r.Failure? ==> KeysOf(Indices(|probs|), KeyMap(n, memSlots, meas)) == Failure(r.error)
    ensures r.Success? ==> KeysOf(Indices(state + 1), KeyMap(n, memSlots, meas)) == Success(ks')
    ensures r.Success? ==> WeightTable(r.value, ks', probs[..state + 1])
    ensures r.Success? ==> Sum(r.value.amounts) == Sum(probs[..state + 1])
  {
    ghost var keyOf := KeyMap(n, memSlots, meas);
    var key := RegisterKey(state, n, memSlots, meas);
    assert keyOf(state) == key;
    if key.Failure? {
      IndicesPrefix(|probs|, state);
      KeysOfFailureSticks(Indices(|probs|), state, keyOf);
      return Failure(key.error), ks;
    }
    IndicesPrefix(state + 1, state);
    KeysOfStep(Indices(state + 1), state, keyOf);
    AddWeightAt(freq, ks, probs, state, key.value);
    r, ks' := Success(AddAmount(freq, key.value, probs[state])), ks + [key.value];
  }

  /** The loop step of the density table, with the weights as a prefix of
      the whole vector. */
  lemma AddWeightAt(t: Tally<real>, ks: seq<nat>, ws: seq<real>, i: nat, key: nat)
    requires i < |ws| && |ks| == i
    requires WeightTable(t, ks, ws[..i]) && Sum(t.amounts) == Sum(ws[..i])
    ensures WeightTable(AddAmount(t, key, ws[i]), ks + [key], ws[..i + 1])
    ensures Sum(AddAmount(t, key, ws[i]).amounts) == Sum(ws[..i + 1])
  {
    assert ws[..i + 1] == ws[..i] + [ws[i]];
    AddAmountStep(t, ks, ws[..i], key, ws[i]);
    SumAppend(ws[..i], [ws[i]]);
    assert Sum([ws[i]]) == ws[i] by { assert [ws[i]][..0] == []; }
  }

  /** One more state with a key extends the list of keys. */
  lemma KeysOfStep<S>(states: seq<S>, j: nat, key: S -> Result<nat>)
    requires j < |states|
    requires KeysOf(states[..j], key).Success? && key(states[j]).Success?
    ensures KeysOf(states[..j + 1], key) == Success(KeysOf(states[..j], key).value + [key(states[j]).value])
  {
    assert states[..j + 1][..j] == states[..j];
  }

  /** The first state whose key fails decides the error of the whole list. */
  lemma {:induction false} KeysOfFailureSticks<S>(states: seq<S>, j: nat, key: S -> Result<nat>)
    requires j < |states|
    requires KeysOf(states[..j], key).Success?
    requires key(states[j]).Failure?
    ensures KeysOf(states, key) == Failure(key(states[j]).error)
    decreases |states|
  {
    if j < |states| - 1 {
      assert states[..|states| - 1][..j] == states[..j];
      KeysOfFailureSticks(states[..|states| - 1], j, key);
    } else {
      assert states[..|states| - 1] == states[..j];
    }
  }

  // ---------------------------------------------------------------------
  // The counts simulator's table

  /** The basis state each shot picks: `choose_index` (fallback 0) for that
      shot's draw. */
  /** The basis state one draw selects (`choose_index` never returns its
      fallback here, so the state is a valid index). */
  function ShotState(probs: seq<real>, draw: real): nat
  {
    ChosenInRangeFallbackZero(probs, draw);
    Chosen(probs, draw, 0) as nat
  }

  /** The key one draw is counted under. */
  function DrawKeyMap(probs: seq<real>, n: nat, memSlots: nat, meas: SlotMap): real -> Result<nat>
  {
    draw => StateKey(ShotState(probs, draw), n, memSlots, meas)
  }

  /** One shot: `choose_index(probabilities)` and the key of the basis
      state it selects. */
  method ShotKey(probs: seq<real>, draw: real, n: nat, memSlots: nat, meas: SlotMap) returns (key: Result<nat>)
    ensures key == DrawKeyMap(probs, n, memSlots, meas)(draw)
  {
    var i := ChooseIndex(probs, draw, 0);
    ChosenInRangeFallbackZero(probs, draw);
    key := RegisterKey(i, n, memSlots, meas);
  }

  /** The counts simulator's shot loop: one `choose_index` per draw, its
      basis state mapped to a key, and the key's count incremented. */
  method ShotCounts(probs: seq<real>, draws: seq<real>, n: nat, memSlots: nat, meas: SlotMap) returns (r: Result<Tally<nat>>)
    ensures r.Failure? <==> KeysOf(draws, DrawKeyMap(probs, n, memSlots, meas)).Failure?
    ensures r.Failure? ==> r.error == KeysOf(draws, DrawKeyMap(probs, n, memSlots, meas)).error
    ensures r.Success? ==> CountTable(r.value, KeysOf(draws, DrawKeyMap(probs, n, memSlots, meas)).value)
    ensures r.Success? ==> SumInt(r.value.amounts) == |draws|
  {
    ghost var keyOf := DrawKeyMap(probs, n, memSlots, meas);
    var freq := Tally([], []);
    ghost var ks: seq<nat> := [];
    var shot := 0;
    while shot < |draws|
      invariant 0 <= shot <= |draws|
      invariant KeysOf(draws[..shot], keyOf) == Success(ks)
      invariant CountTable(freq, ks)
      invariant SumInt(freq.amounts) == shot
    {
      var next;
      next, ks := CountShot(freq, ks, probs, draws, shot, n, memSlots, meas);
      if next.Failure? {
        return Failure(next.error);
      }
      freq := next.value;
      shot := shot + 1;
    }
    assert draws[..shot] == draws;
    r := Success(freq);
  }

  /** One pass of the shot loop: draw, key, count. */
  method CountShot(freq: Tally<nat>, ghost ks: seq<nat>, probs: seq<real>, draws: seq<real>, shot: nat,
                   n: nat, memSlots: nat, meas: SlotMap)
    returns (r: Result<Tally<nat>>, ghost ks': seq<nat>)
    requires shot < |draws|
    requires KeysOf(draws[..shot], DrawKeyMap(probs, n, memSlots, meas)) == Success(ks)
    requires CountTable(freq, ks) && SumInt(freq.amounts) == shot
    ensures r.Failure? ==> KeysOf(draws, DrawKeyMap(probs, n, memSlots, meas)) == Failure(r.error)
    ensures r.Success? ==> KeysOf(draws[..shot + 1], DrawKeyMap(probs, n, memSlots, meas)) == Success(ks')
    ensures r.Success? ==> CountTable(r.value, ks') && SumInt(r.value.amounts) == shot + 1
  {
    ghost var keyOf := DrawKeyMap(probs, n, memSlots, meas);
    var key := ShotKey(probs, draws[shot], n, memSlots, meas);
    if key.Failure? {
      KeysOfFailureSticks(draws, shot, keyOf);
      return Failure(key.error), ks;
    }
    CountShotAt(freq, ks, draws, shot, keyOf);
    r, ks' := Success(AddShot(freq, key.value)), ks + [key.value];
  }

  /** The loop step of the counts table: one more state with a key. */
  lemma CountShotAt<S>(t: Tally<nat>, ks: seq<nat>, states: seq<S>, j: nat, key: S -> Result<nat>)
    requires j < |states|
    requires KeysOf(states[..j], key) == Success(ks) && key(states[j]).Success?
    requires CountTable(t, ks) && SumInt(t.amounts) == j
    ensures KeysOf(states[..j + 1], key) == Success(ks + [key(states[j]).value])
    ensures CountTable(AddShot(t, key(states[j]).value), ks + [key(states[j]).value])
    ensures SumInt(AddShot(t, key(states[j]).value).amounts) == j + 1
  {
    KeysOfStep(states, j, key);
    AddShotStep(t, ks, key(states[j]).value);
  }

  /** Only keys that were drawn appear, each with a positive count. */
  lemma CountsPositive(t: Tally<nat>, ks: seq<nat>)
    requires CountTable(t, ks)
    ensures forall i :: 0 <= i < |t.amounts| ==> t.amounts[i] >= 1
  {
    forall i | 0 <= i < |t.amounts| ensures t.amounts[i] >= 1 {
      CountOfPresent(ks, t.keys[i]);
    }
  }
}
