/** Benchmarking circuits as instruction lists: the T1 calibration circuits
    that let QuaC calibrate several qubits in parallel, and the identity
    padding that makes time pass on every qubit not used by an
    instruction. Qubits are numbered across the quantum registers in order;
    classical bits likewise. */
module Benchmarking {

  import opened Common

  /** A register, by its size. */
  datatype Register = Register(size: nat)

  /** One instruction: its name, the qubits it acts on and the classical
      bits it writes. */
  datatype Op = Op(name: string, qargs: seq<nat>, cargs: seq<nat>)

  datatype Circuit = Circuit(name: string, qregs: seq<Register>, cregs: seq<Register>, ops: seq<Op>)

  // ---------------------------------------------------------------------
  // quac_t1_circuits
  // ---------------------------------------------------------------------

  /** The largest listed qubit. */
  function MaxOf(qubits: seq<nat>): (m: nat)
    requires qubits != []
    ensures forall j :: 0 <= j < |qubits| ==> qubits[j] <= m
    ensures m in qubits
  {
    if |qubits| == 1 then qubits[0]
    else
      var m := MaxOf(qubits[..|qubits| - 1]);
      assert forall j :: 0 <= j < |qubits| - 1 ==> qubits[..|qubits| - 1][j] == qubits[j];
      if qubits[|qubits| - 1] > m then qubits[|qubits| - 1] else m
  }

  /** One single-qubit gate per listed qubit, in list order. */
  function Layer(name: string, qubits: seq<nat>): (r: seq<Op>)
    ensures |r| == |qubits|
  {
    seq(|qubits|, j requires 0 <= j < |qubits| => Op(name, [qubits[j]], []))
  }

  /** `rounds` layers of identity gates. */
  function IdRounds(qubits: seq<nat>, rounds: nat): seq<Op>
  {
    if rounds == 0 then [] else IdRounds(qubits, rounds - 1) + Layer("id", qubits)
  }

  /** Qubit q measured into classical bit q, per listed qubit. */
  function Measures(qubits: seq<nat>): (r: seq<Op>)
    ensures |r| == |qubits|
  {
    seq(|qubits|, j requires 0 <= j < |qubits| => Op("measure", [qubits[j]], [qubits[j]]))
  }

  function Range(n: nat): (r: seq<nat>)
    ensures |r| == n && forall i :: 0 <= i < n ==> r[i] == i
  {
    seq(n, i requires 0 <= i < n => i)
  }

  /** `range(circ_length)` is empty for a non-positive length. */
  function Rounds(circLength: int): nat
  {
    if circLength > 0 then circLength else 0
  }

  /** The instructions of a T1 circuit: X on every listed qubit, the
      identity rounds, the measurements, and a barrier over the whole
      quantum register. */
  function T1Ops(qubits: seq<nat>, circLength: int): seq<Op>
    requires qubits != []
  {
    Layer("x", qubits) + IdRounds(qubits, Rounds(circLength)) + Measures(qubits) +
    [Op("barrier", Range(MaxOf(qubits) + 1), [])]
  }

  function T1Name(i: nat): string
  {
    "t1circuit_" + NatToString(i) + "_0"
  }

  function T1Circuit(i: nat, circLength: int, qubits: seq<nat>): Circuit
    requires qubits != []
  {
    Circuit(T1Name(i), [Register(MaxOf(qubits) + 1)], [Register(|qubits|)], T1Ops(qubits, circLength))
  }

  /** Every listed qubit also indexes the classical register of size
      `len(qubits)` its measurement writes into. */
  predicate ClbitsFit(qubits: seq<nat>)
  {
    forall j :: 0 <= j < |qubits| ==> qubits[j] < |qubits|
  }

  /** `quac_t1_circuits`: `max` of no qubits raises ValueError; a qubit
      beyond the classical register raises IndexError when the first
      circuit measures it. */
  function T1Circuits(numGates: seq<int>, gateTime: real, qubits: seq<nat>): Result<(seq<Circuit>, seq<real>)>
  {
    if qubits == [] then Failure(ValueError)
    else if numGates != [] && !ClbitsFit(qubits) then Failure(IndexError)
    else Success((seq(|numGates|, i requires 0 <= i < |numGates| => T1Circuit(i, numGates[i], qubits)),
                  seq(|numGates|, i requires 0 <= i < |numGates| => Mul(gateTime, numGates[i] as real))))
  }

  method QuacT1Circuits(numGates: seq<int>, gateTime: real, qubits: seq<nat>) returns (r: Result<(seq<Circuit>, seq<real>)>)
    ensures r == T1Circuits(numGates, gateTime, qubits)
  {
    var gateTimes := seq(|numGates|, i requires 0 <= i < |numGates| => Mul(gateTime, numGates[i] as real));
    if |qubits| == 0 {
      return Failure(ValueError);
    }
    var t1Circs: seq<Circuit> := [];
    for i := 0 to |numGates|
      invariant i > 0 ==> ClbitsFit(qubits)
      invariant t1Circs == seq(i, k requires 0 <= k < i => T1Circuit(k, numGates[k], qubits))
    {
      var c := BuildT1Circuit(i, numGates[i], qubits);
      if c.Failure? {
        return Failure(c.error);
      }
      t1Circs := t1Circs + [c.value];
    }
    return Success((t1Circs, gateTimes));
  }

  /** One circuit of the loop, built gate by gate. */
  method BuildT1Circuit(i: nat, circLength: int, qubits: seq<nat>) returns (r: Result<Circuit>)
    requires qubits != []
    ensures ClbitsFit(qubits) ==> r == Success(T1Circuit(i, circLength, qubits))
    ensures !ClbitsFit(qubits) ==> r == Failure(IndexError)
  {
    var top := MaxOf(qubits);
    var xs := GateLayer("x", qubits);
    var ids: seq<Op> := [];
    for ind := 0 to Rounds(circLength)
      invariant ids == IdRounds(qubits, ind)
    {
      var round := GateLayer("id", qubits);
      ids := ids + round;
    }
    var ms := MeasureAll(qubits);
    if ms.Failure? {
      return Failure(ms.error);
    }
    var ops := xs + ids + ms.value + [Op("barrier", Range(top + 1), [])];
    return Success(Circuit(T1Name(i), [Register(top + 1)], [Register(|qubits|)], ops));
  }

  /** A layer of one single-qubit gate on every listed qubit. */
  method GateLayer(name: string, qubits: seq<nat>) returns (layer: seq<Op>)
    ensures layer == Layer(name, qubits)
  {
    layer := [];
    for j := 0 to |qubits|
      invariant layer == Layer(name, qubits[..j])
    {
      layer := layer + [Op(name, [qubits[j]], [])];
      LayerSnoc(name, qubits, j);
    }
    assert qubits[..|qubits|] == qubits;
  }

  /** The measurements, failing at the first qubit beyond the classical
      register. */
  method MeasureAll(qubits: seq<nat>) returns (r: Result<seq<Op>>)
    ensures ClbitsFit(qubits) ==> r == Success(Measures(qubits))
    ensures !ClbitsFit(qubits) ==> r == Failure(IndexError)
  {
    var ms: seq<Op> := [];
    for j := 0 to |qubits|
      invariant forall k :: 0 <= k < j ==> qubits[k] < |qubits|
      invariant ms == Measures(qubits[..j])
    {
      if qubits[j] >= |qubits| {
        return Failure(IndexError);
      }
      ms := ms + [Op("measure", [qubits[j]], [qubits[j]])];
      MeasuresSnoc(qubits, j);
    }
    assert qubits[..|qubits|] == qubits;
    return Success(ms);
  }

  lemma LayerSnoc(name: string, qubits: seq<nat>, j: nat)
    requires j < |qubits|
    ensures Layer(name, qubits[..j + 1]) == Layer(name, qubits[..j]) + [Op(name, [qubits[j]], [])]
  {
  }

  lemma MeasuresSnoc(qubits: seq<nat>, j: nat)
    requires j < |qubits|
    ensures Measures(qubits[..j + 1]) == Measures(qubits[..j]) + [Op("measure", [qubits[j]], [qubits[j]])]
  {
  }

  /** Round r of the identity rounds holds `id` on qubit j at r·|qubits| + j. */
  lemma {:induction false} IdRoundsAt(qubits: seq<nat>, rounds: nat, r: nat, j: nat)
    requires r < rounds && j < |qubits|
    ensures |IdRounds(qubits, rounds)| == rounds * |qubits|
    ensures r * |qubits| + j < rounds * |qubits|
    ensures IdRounds(qubits, rounds)[r * |qubits| + j] == Op("id", [qubits[j]], [])
  {
    var n := |qubits|;
    var prev := IdRounds(qubits, rounds - 1);
    IdRoundsLength(qubits, rounds - 1);
    IdRoundsLength(qubits, rounds);
    MulStep(rounds - 1, n);
    if r < rounds - 1 {
      IdRoundsAt(qubits, rounds - 1, r, j);
    } else {
      assert r * n == |prev|;
    }
  }

  lemma MulStep(a: nat, n: nat)
    ensures (a + 1) * n == a * n + n
  {
  }

  lemma {:induction false} IdRoundsLength(qubits: seq<nat>, rounds: nat)
    ensures |IdRounds(qubits, rounds)| == rounds * |qubits|
  {
    if rounds > 0 {
      IdRoundsLength(qubits, rounds - 1);
    }
  }

  /** The layout of a T1 circuit: X on the listed qubits, then the rounds
      of identities on them (round r holds `id` on qubit j at r·|qubits| + j,
      by IdRoundsAt), then their measurements into the classical bit of the
      same number, then one barrier across the whole register. */
  lemma T1Layout(qubits: seq<nat>, circLength: int)
    requires qubits != []
    ensures var ops, n, k := T1Ops(qubits, circLength), |qubits|, Rounds(circLength) * |qubits|;
      |ops| == 2 * n + k + 1 &&
      ops[..n] == Layer("x", qubits) &&
      ops[n..n + k] == IdRounds(qubits, Rounds(circLength)) &&
      ops[n + k..2 * n + k] == Measures(qubits) &&
      ops[2 * n + k] == Op("barrier", Range(MaxOf(qubits) + 1), [])
  {
    IdRoundsLength(qubits, Rounds(circLength));
    Slices(Layer("x", qubits), IdRounds(qubits, Rounds(circLength)), Measures(qubits),
           Op("barrier", Range(MaxOf(qubits) + 1), []));
  }

  lemma Slices<T>(a: seq<T>, b: seq<T>, c: seq<T>, d: T)
    ensures var s := a + b + c + [d];
      |s| == |a| + |b| + |c| + 1 && s[..|a|] == a && s[|a|..|a| + |b|] == b &&
      s[|a| + |b|..|a| + |b| + |c|] == c && s[|a| + |b| + |c|] == d
  {
    var s := a + b + c + [d];
    assert s[..|a|] == a;
    assert s[|a|..|a| + |b|] == b;
    assert s[|a| + |b|..|a| + |b| + |c|] == c;
  }

  /** The T1 circuits have pairwise distinct names. */
  lemma T1NamesDistinct(i: nat, k: nat)
    requires T1Name(i) == T1Name(k)
    ensures i == k
  {
    var a, b := NatToString(i), NatToString(k);
    var p := "t1circuit_";
    assert |T1Name(i)| == |p| + |a| + 2;
    assert |a| == |b|;
    assert T1Name(i)[|p|..|p| + |a|] == a;
    assert T1Name(k)[|p|..|p| + |b|] == b;
    NatToStringInjective(i, k);
  }

  /** The calibration circuits exist exactly when some qubit is listed and,
      unless no circuit is asked for, every listed qubit fits the classical
      register; there is then one circuit and one gate time per entry, and
      no two circuits share a name. */
  lemma T1CircuitsMeaning(numGates: seq<int>, gateTime: real, qubits: seq<nat>)
    ensures T1Circuits(numGates, gateTime, qubits).Success? <==> qubits != [] && (numGates == [] || ClbitsFit(qubits))
    ensures T1Circuits(numGates, gateTime, qubits).Success? ==>
      var cs := T1Circuits(numGates, gateTime, qubits).value.0;
      |cs| == |numGates| == |T1Circuits(numGates, gateTime, qubits).value.1| &&
      forall i, k :: 0 <= i < k < |cs| ==> cs[i].name != cs[k].name
  {
    var r := T1Circuits(numGates, gateTime, qubits);
    if r.Success? {
      var cs := r.value.0;
      forall i, k | 0 <= i < k < |cs| ensures cs[i].name != cs[k].name {
        assert cs[i].name == T1Name(i);
        assert cs[k].name == T1Name(k);
        if T1Name(i) == T1Name(k) {
          T1NamesDistinct(i, k);
        }
      }
    }
  }

  // ---------------------------------------------------------------------
  // add_parallel_id
  // ---------------------------------------------------------------------

  /** Measurements and barriers get no padding. */
  predicate Skipped(op: Op)
  {
    op.name == "measure" || op.name == "barrier"
  }

  /** `id` on every qubit below n outside `qargs`, in ascending order. */
  function IdsOutside(qargs: seq<nat>, n: nat): seq<Op>
  {
    if n == 0 then []
    else IdsOutside(qargs, n - 1) + (if n - 1 in qargs then [] else [Op("id", [n - 1], [])])
  }

  function Padding(op: Op, n: nat): seq<Op>
  {
    if Skipped(op) then [] else IdsOutside(op.qargs, n)
  }

  /** Every instruction followed by its padding. */
  function Padded(ops: seq<Op>, n: nat): seq<Op>
  {
    if ops == [] then [] else Padded(ops[..|ops| - 1], n) + [ops[|ops| - 1]] + Padding(ops[|ops| - 1], n)
  }

  /** The circuit's qubit count: the sum of its quantum registers' sizes. */
  function NumQubits(regs: seq<Register>): nat
  {
    if regs == [] then 0 else NumQubits(regs[..|regs| - 1]) + regs[|regs| - 1].size
  }

  /** `add_parallel_id`; the new circuit's automatic name is a parameter. */
  method AddParallelId(circuit: Circuit, name: string) returns (padded: Circuit)
    ensures padded == Circuit(name, circuit.qregs, circuit.cregs, Padded(circuit.ops, NumQubits(circuit.qregs)))
  {
    var qregs: seq<Register> := [];
    for k := 0 to |circuit.qregs|
      invariant qregs == circuit.qregs[..k]
    {
      qregs := qregs + [circuit.qregs[k]];
    }
    var cregs: seq<Register> := [];
    for k := 0 to |circuit.cregs|
      invariant cregs == circuit.cregs[..k]
    {
      cregs := cregs + [circuit.cregs[k]];
    }
    assert circuit.qregs[..|circuit.qregs|] == circuit.qregs;
    assert circuit.cregs[..|circuit.cregs|] == circuit.cregs;
    var n := NumQubits(circuit.qregs);
    var ops: seq<Op> := [];
    for k := 0 to |circuit.ops|
      invariant ops == Padded(circuit.ops[..k], n)
    {
      var node := circuit.ops[k];
      assert circuit.ops[..k + 1][..k] == circuit.ops[..k];
      ops := ops + [node];
      if Skipped(node) {
        continue;
      }
      var ids := PadAround(node.qargs, n);
      ops := ops + ids;
    }
    assert circuit.ops[..|circuit.ops|] == circuit.ops;
    return Circuit(name, qregs, cregs, ops);
  }

  /** The padding loop of one instruction. */
  method PadAround(qargs: seq<nat>, n: nat) returns (ids: seq<Op>)
    ensures ids == IdsOutside(qargs, n)
  {
    ids := [];
    for q := 0 to n
      invariant ids == IdsOutside(qargs, q)
    {
      if q !in qargs {
        ids := ids + [Op("id", [q], [])];
      }
    }
  }

  /** The padding of an instruction is single-qubit `id`s on exactly the
      qubits below n outside its qargs, each once (in ascending order). */
  lemma {:induction false} IdsOutsideMeaning(qargs: seq<nat>, n: nat)
    ensures var ids := IdsOutside(qargs, n);
      (forall i :: 0 <= i < |ids| ==>
         ids[i].name == "id" && |ids[i].qargs| == 1 && ids[i].cargs == [] &&
         ids[i].qargs[0] < n && ids[i].qargs[0] !in qargs) &&
      (forall i, j :: 0 <= i < j < |ids| ==> ids[i].qargs[0] < ids[j].qargs[0]) &&
      (forall q :: 0 <= q < n && q !in qargs ==> Op("id", [q], []) in ids)
  {
    if n > 0 {
      IdsOutsideMeaning(qargs, n - 1);
    }
  }

  /** With padding, each qubit of the circuit is used exactly once by an
      instruction that is not a measurement or barrier and the identities
      after it, so time passes on every qubit alike. */
  lemma PaddingCoversEachQubitOnce(op: Op, n: nat, q: nat)
    requires !Skipped(op) && q < n
    ensures var pad := Padding(op, n);
      (q in op.qargs ==> forall i :: 0 <= i < |pad| ==> q !in pad[i].qargs) &&
      (q !in op.qargs ==> exists i :: 0 <= i < |pad| && pad[i] == Op("id", [q], []) &&
                            forall j :: 0 <= j < |pad| && j != i ==> q !in pad[j].qargs)
  {
    var pad := Padding(op, n);
    IdsOutsideMeaning(op.qargs, n);
    if q in op.qargs {
      forall i | 0 <= i < |pad| ensures q !in pad[i].qargs {
        assert pad[i].qargs == [pad[i].qargs[0]];
      }
    } else {
      var i :| 0 <= i < |pad| && pad[i] == Op("id", [q], []);
      forall j | 0 <= j < |pad| && j != i ensures q !in pad[j].qargs {
        assert pad[j].qargs == [pad[j].qargs[0]];
        if j < i {
          assert pad[j].qargs[0] < pad[i].qargs[0];
        } else {
          assert pad[i].qargs[0] < pad[j].qargs[0];
        }
      }
    }
  }

  /** Where instruction k lands in the padded list. */
  function Start(ops: seq<Op>, n: nat, k: nat): nat
    requires k <= |ops|
  {
    |Padded(ops[..k], n)|
  }

  lemma {:induction false} PaddedPrefix(ops: seq<Op>, n: nat, k: nat)
    requires k <= |ops|
    ensures Padded(ops[..k], n) <= Padded(ops, n)
    decreases |ops| - k
  {
    if k < |ops| {
      var init := ops[..|ops| - 1];
      assert init[..k] == ops[..k];
      PaddedPrefix(init, n, k);
    } else {
      assert ops[..k] == ops;
    }
  }

  /** Every instruction is copied once, in order: instruction k sits at
      Start(k), its padding fills the places up to Start(k + 1), and the
      padded list ends after the last instruction's padding. */
  lemma PaddedLayout(ops: seq<Op>, n: nat, k: nat)
    requires k < |ops|
    ensures Start(ops, n, k + 1) == Start(ops, n, k) + 1 + |Padding(ops[k], n)|
    ensures Start(ops, n, k + 1) <= |Padded(ops, n)|
    ensures Padded(ops, n)[Start(ops, n, k)] == ops[k]
    ensures Padded(ops, n)[Start(ops, n, k) + 1..Start(ops, n, k + 1)] == Padding(ops[k], n)
  {
    PaddedSnoc(ops, n, k);
    PaddedPrefix(ops, n, k + 1);
    PlacedIn(Padded(ops[..k + 1], n), Padded(ops, n), Padded(ops[..k], n), ops[k], Padding(ops[k], n));
  }

  lemma PaddedSnoc(ops: seq<Op>, n: nat, k: nat)
    requires k < |ops|
    ensures Padded(ops[..k + 1], n) == Padded(ops[..k], n) + [ops[k]] + Padding(ops[k], n)
  {
    assert ops[..k + 1][..k] == ops[..k];
  }

  /** Where a piece of a prefix sits in the whole sequence. */
  lemma PlacedIn<T>(upto: seq<T>, whole: seq<T>, before: seq<T>, x: T, pad: seq<T>)
    requires upto == before + [x] + pad && upto <= whole
    ensures |upto| == |before| + 1 + |pad| <= |whole|
    ensures whole[|before|] == x && whole[|before| + 1..|upto|] == pad
  {
    assert whole[..|upto|] == upto;
    assert upto[|before| + 1..|upto|] == pad;
  }

  lemma PaddedLength(ops: seq<Op>, n: nat)
    ensures Start(ops, n, |ops|) == |Padded(ops, n)|
  {
    assert ops[..|ops|] == ops;
  }

  /** A circuit of measurements and barriers only is copied unchanged. */
  lemma {:induction false} PaddedOnlySkipped(ops: seq<Op>, n: nat)
    requires forall i :: 0 <= i < |ops| ==> Skipped(ops[i])
    ensures Padded(ops, n) == ops
  {
    if ops != [] {
      PaddedOnlySkipped(ops[..|ops| - 1], n);
      assert ops == ops[..|ops| - 1] + [ops[|ops| - 1]];
    }
  }
}
