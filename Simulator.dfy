/** The QuaC simulation adapter: how a Qobj experiment becomes a sequence of
    calls into the QuaC engine. The engine itself is not modelled; the calls
    the adapter makes on it are recorded in order, as an append-only log. */
module Simulator {

  import opened Common
  import opened Schedule

  /** The part of a backend configuration the adapter carries along. */
  datatype BackendConfiguration = BackendConfiguration(backendName: string, nQubits: nat)

  /** The configuration used when no hardware is specified. */
  const GenericConfiguration: BackendConfiguration := BackendConfiguration("generic_quac", 2)

  /** The injected `run_config` parameters. Each stands for both "absent" and
      "falsy" (an empty dict or list, or 0), which the adapter treats alike:
      `lindblad` maps `str(qubit)` to its "T1"/"T2" times in ns. */
  datatype RunConfig = RunConfig(
    lindblad: map<string, map<string, real>>,
    gateTimes: seq<real>,
    simulationLength: real,
    timeStep: real)

  /** One `add_gate` call on the QuaC circuit: engine gate name, qubits, time
      and the named angle arguments in the order they are passed. */
  datatype GateCall = GateCall(
    gate: string,
    qubit1: nat,
    qubit2: Option<nat>,
    time: real,
    angles: seq<(string, real)>)

  /** The calls made on the QuaC instance. */
  datatype EngineCall =
    | CreateQubits(numQubits: nat)
    | AddLindbladEmission(qubit: nat, rate: real)
    | AddLindbladDephasing(qubit: nat, rate: real)
    | CreateDensityMatrix
    | StartCircuitAt(circuit: seq<GateCall>)
    | Run(simulationLength: real, dt: real)

  const NoNoiseModelMessage: string := "No hardware specs and no user-defined noise model provided"
  const NotEnoughGateTimesMessage: string := "Not enough gate times specified!"

  /** Length in ns a gate takes when no hardware properties exist. */
  const DefaultGateLength: real := 100.0

  /** Time step in ns used when none is given. */
  const DefaultTimeStep: real := 10.0

  // ---------------------------------------------------------------------
  // The gate translation table

  /** Instructions the adapter never sends to the engine. */
  predicate Skipped(instr: Instruction)
  {
    instr.name == "measure" || instr.name == "barrier"
  }

  /** Qubits the engine call reads from the instruction. */
  function QubitCount(name: string): nat
  {
    if name == "cx" || name == "cz" then 2 else 1
  }

  /** Parameters the engine call reads from the instruction. */
  function AngleCount(name: string): nat
  {
    if name == "u1" then 1
    else if name == "u2" then 2
    else if name == "u3" then 3
    else if name == "rx" || name == "ry" || name == "rz" then 1
    else 0
  }

  /** The `add_gate` call for one instruction at `time`; an instruction with
      too few qubits or parameters makes the indexing raise `IndexError`. */
  function Translate(instr: Instruction, time: real): (r: Result<GateCall>)
    ensures r.Success? <==> |instr.qubits| >= QubitCount(instr.name) && |instr.params| >= AngleCount(instr.name)
    ensures r.Failure? ==> r.error == IndexError
    ensures r.Success? ==> r.value.time == time && r.value.qubit1 == instr.qubits[0]
    ensures r.Success? ==> (r.value.qubit2.Some? <==> QubitCount(instr.name) == 2)
    ensures r.Success? && r.value.qubit2.Some? ==> r.value.qubit2.value == instr.qubits[1]
    ensures r.Success? ==> |r.value.angles| == AngleCount(instr.name)
    ensures r.Success? ==> forall k :: 0 <= k < |r.value.angles| ==> r.value.angles[k].1 == instr.params[k]
    ensures r.Success? && !Skipped(instr) ==> r.value.gate != "measure" && r.value.gate != "barrier"
  {
    var name := instr.name;
    var qs := instr.qubits;
    var ps := instr.params;
    if |qs| < QubitCount(name) || |ps| < AngleCount(name) then Failure(IndexError)
    else if name == "cx" then Success(GateCall("cnot", qs[0], Some(qs[1]), time, []))
    else if name == "cz" then Success(GateCall("cz", qs[0], Some(qs[1]), time, []))
    else if name == "u1" then Success(GateCall("u1", qs[0], None, time, [("lam", ps[0])]))
    else if name == "u2" then Success(GateCall("u2", qs[0], None, time, [("phi", ps[0]), ("lam", ps[1])]))
    else if name == "u3" then
      Success(GateCall("u3", qs[0], None, time, [("theta", ps[0]), ("phi", ps[1]), ("lam", ps[2])]))
    else if name == "rx" || name == "ry" || name == "rz" then
      Success(GateCall(name, qs[0], None, time, [("theta", ps[0])]))
    else if name == "id" then Success(GateCall("i", qs[0], None, time, []))
    else Success(GateCall(name, qs[0], None, time, []))
  }

  // ---------------------------------------------------------------------
  // Specification of the gate loop

  /** A gate's length in ns: the hardware `gate_length` × 1e9, or 100 when
      there are no properties (`AttributeError`); a gate the properties do not
      list makes the lookup raise `BackendPropertyError`. */
  function LengthOf(props: Option<BackendProperties>, instr: Instruction): Result<real>
  {
    if props.None? then Success(DefaultGateLength)
    else if (instr.name, instr.qubits) in props.value.gateLength
    then Success(props.value.gateLength[(instr.name, instr.qubits)] * NanosPerSecond)
    else Failure(BackendPropertyError)
  }

  /** `LengthOf` with 0 for a failed lookup, for stating sums. */
  function LengthValue(props: Option<BackendProperties>, instr: Instruction): real
  {
    match LengthOf(props, instr)
    case Success(l) => l
    case Failure(_) => 0.0
  }

  /** The loop's variables after some iterations: gates added so far,
      `total_circuit_time`, and `gate_time` (None while still unbound). */
  datatype CircuitBuild = CircuitBuild(gates: seq<GateCall>, total: real, gateTime: Option<real>)

  /** The iteration for instruction `i`. */
  function BuildStep(b: CircuitBuild, instrs: seq<Instruction>, i: nat, gateTimes: seq<real>,
                     props: Option<BackendProperties>): Result<CircuitBuild>
    requires i < |instrs|
  {
    var instr := instrs[i];
    if Skipped(instr) then Success(b)
    else if gateTimes != [] then
      if i < |gateTimes| then AddGate(b.gates, b.total, instr, gateTimes[i])
      else Failure(QuacBackendError(NotEnoughGateTimesMessage))
    else match LengthOf(props, instr)
      case Failure(e) => Failure(e)
      case Success(length) =>
        if i == 0 then AddGate(b.gates, b.total + length, instr, 1.0)
        else if b.gateTime.None? then Failure(UnboundLocalError)
        else AddGate(b.gates, b.total + length, instr, b.gateTime.value + length)
  }

  function AddGate(gates: seq<GateCall>, total: real, instr: Instruction, time: real): Result<CircuitBuild>
  {
    match Translate(instr, time)
    case Failure(e) => Failure(e)
    case Success(g) => Success(CircuitBuild(gates + [g], total, Some(time)))
  }

  /** The loop's state after the first `k` instructions. */
  function CircuitAfter(instrs: seq<Instruction>, gateTimes: seq<real>, props: Option<BackendProperties>,
                        k: nat): Result<CircuitBuild>
    requires k <= |instrs|
  {
    if k == 0 then Success(CircuitBuild([], 0.0, None))
    else match CircuitAfter(instrs, gateTimes, props, k - 1)
      case Failure(e) => Failure(e)
      case Success(b) => BuildStep(b, instrs, k - 1, gateTimes, props)
  }

  /** Indices, in program order, of the first `k` instructions that are sent
      to the engine. */
  function Kept(instrs: seq<Instruction>, k: nat): (r: seq<nat>)
    requires k <= |instrs|
    ensures forall j :: 0 <= j < |r| ==> r[j] < k
  {
    if k == 0 then []
    else Kept(instrs, k - 1) + (if Skipped(instrs[k - 1]) then [] else [k - 1])
  }

  /** The kept indices are exactly the sent instructions, in increasing order. */
  lemma KeptAreTheSentInstructions(instrs: seq<Instruction>, k: nat)
    requires k <= |instrs|
    ensures var kept := Kept(instrs, k);
      (forall j :: 0 <= j < |kept| ==> !Skipped(instrs[kept[j]])) &&
      (forall j1, j2 :: 0 <= j1 < j2 < |kept| ==> kept[j1] < kept[j2]) &&
      (forall i :: 0 <= i < k && !Skipped(instrs[i]) ==> i in kept)
  {
    KeptAreSent(instrs, k);
    KeptIncreasing(instrs, k);
    KeptComplete(instrs, k);
  }

  lemma {:induction false} KeptAreSent(instrs: seq<Instruction>, k: nat)
    requires k <= |instrs|
    ensures forall j :: 0 <= j < |Kept(instrs, k)| ==> !Skipped(instrs[Kept(instrs, k)[j]])
  {
    if k > 0 {
      KeptAreSent(instrs, k - 1);
    }
  }

  lemma {:induction false} KeptIncreasing(instrs: seq<Instruction>, k: nat)
    requires k <= |instrs|
    ensures forall j1, j2 :: 0 <= j1 < j2 < |Kept(instrs, k)| ==> Kept(instrs, k)[j1] < Kept(instrs, k)[j2]
  {
    if k > 0 {
      KeptIncreasing(instrs, k - 1);
    }
  }

  lemma {:induction false} KeptComplete(instrs: seq<Instruction>, k: nat)
    requires k <= |instrs|
    ensures forall i :: 0 <= i < k && !Skipped(instrs[i]) ==> i in Kept(instrs, k)
  {
    if k > 0 {
      KeptComplete(instrs, k - 1);
    }
  }

  /** The lengths of the kept instructions, in the same order. */
  function KeptLengths(instrs: seq<Instruction>, props: Option<BackendProperties>, k: nat): seq<real>
    requires k <= |instrs|
  {
    if k == 0 then []
    else KeptLengths(instrs, props, k - 1) + (if Skipped(instrs[k - 1]) then [] else [LengthValue(props, instrs[k - 1])])
  }

  /** Entry j of `KeptLengths` is the length of the j-th sent instruction. */
  lemma {:induction false} KeptLengthsAreLengths(instrs: seq<Instruction>, props: Option<BackendProperties>, k: nat)
    requires k <= |instrs|
    ensures LengthsOf(instrs, props, Kept(instrs, k), KeptLengths(instrs, props, k))
  {
    if k > 0 {
      KeptLengthsAreLengths(instrs, props, k - 1);
      if !Skipped(instrs[k - 1]) {
        LengthsOfSnoc(instrs, props, Kept(instrs, k - 1), KeptLengths(instrs, props, k - 1), k - 1);
      }
    }
  }

  predicate LengthsOf(instrs: seq<Instruction>, props: Option<BackendProperties>, kept: seq<nat>, lengths: seq<real>)
  {
    |lengths| == |kept| &&
    forall j :: 0 <= j < |kept| ==> kept[j] < |instrs| && lengths[j] == LengthValue(props, instrs[kept[j]])
  }

  lemma LengthsOfSnoc(instrs: seq<Instruction>, props: Option<BackendProperties>, kept: seq<nat>, lengths: seq<real>,
                      x: nat)
    requires LengthsOf(instrs, props, kept, lengths) && x < |instrs|
    ensures LengthsOf(instrs, props, kept + [x], lengths + [LengthValue(props, instrs[x])])
  {
  }

  // ---------------------------------------------------------------------
  // The gate loop

  /** The loop of `run_experiment` that builds the QuaC circuit. */
  method BuildCircuit(instrs: seq<Instruction>, gateTimes: seq<real>, props: Option<BackendProperties>)
    returns (r: Result<CircuitBuild>)
    ensures r == CircuitAfter(instrs, gateTimes, props, |instrs|)
  {
    var build := CircuitBuild([], 0.0, None);
    var timeIndex := 0;
    while timeIndex < |instrs|
      invariant timeIndex <= |instrs|
      invariant CircuitAfter(instrs, gateTimes, props, timeIndex) == Success(build)
    {
      var next := AddInstruction(build, instrs, timeIndex, gateTimes, props);
      if next.Failure? {
        CircuitFailureSticks(instrs, gateTimes, props, timeIndex + 1, |instrs|);
        return Failure(next.error);
      }
      build := next.value;
      timeIndex := timeIndex + 1;
    }
    return Success(build);
  }

  /** One pass of the gate loop, on the loop variables `gates`,
      `total_circuit_time` and `gate_time` held in `b`. */
  method AddInstruction(b: CircuitBuild, instrs: seq<Instruction>, timeIndex: nat, gateTimes: seq<real>,
                        props: Option<BackendProperties>)
    returns (r: Result<CircuitBuild>)
    requires timeIndex < |instrs|
    ensures r == BuildStep(b, instrs, timeIndex, gateTimes, props)
  {
    var instruction := instrs[timeIndex];
    if instruction.name == "measure" || instruction.name == "barrier" {
      return Success(b);
    }
    var total := b.total;
    var time: real;
    if gateTimes != [] {
      if timeIndex >= |gateTimes| {
        return Failure(QuacBackendError(NotEnoughGateTimesMessage));
      }
      time := gateTimes[timeIndex];
    } else {
      var length := LengthOf(props, instruction);
      if length.Failure? {
        return Failure(length.error);
      }
      total := total + length.value;
      if timeIndex == 0 {
        time := 1.0;
      } else if b.gateTime.None? {
        return Failure(UnboundLocalError);
      } else {
        time := b.gateTime.value + length.value;
      }
    }
    var gate := Translate(instruction, time);
    if gate.Failure? {
      return Failure(gate.error);
    }
    return Success(CircuitBuild(b.gates + [gate.value], total, Some(time)));
  }

  // ---------------------------------------------------------------------
  // Properties of the gate loop

  lemma {:induction false} CircuitFailureSticks(instrs: seq<Instruction>, gateTimes: seq<real>,
                                                props: Option<BackendProperties>, k: nat, m: nat)
    requires k <= m <= |instrs|
    requires CircuitAfter(instrs, gateTimes, props, k).Failure?
    ensures CircuitAfter(instrs, gateTimes, props, m) == CircuitAfter(instrs, gateTimes, props, k)
  {
    if m > k {
      CircuitFailureSticks(instrs, gateTimes, props, k, m - 1);
    }
  }

  /** Exactly the instructions other than measure and barrier are sent, in
      program order, each through the translation table; so no engine call is
      a measure or a barrier. */
  lemma {:induction false} GatesAreKeptInstructions(instrs: seq<Instruction>, gateTimes: seq<real>,
                                                    props: Option<BackendProperties>, k: nat)
    requires k <= |instrs|
    requires CircuitAfter(instrs, gateTimes, props, k).Success?
    ensures TranslatedFrom(instrs, Kept(instrs, k), CircuitAfter(instrs, gateTimes, props, k).value.gates)
  {
    if k > 0 {
      GatesAreKeptInstructions(instrs, gateTimes, props, k - 1);
      var prev := CircuitAfter(instrs, gateTimes, props, k - 1).value;
      StepAppendsTranslation(prev, instrs, k - 1, gateTimes, props);
      if !Skipped(instrs[k - 1]) {
        var gates := CircuitAfter(instrs, gateTimes, props, k).value.gates;
        TranslatedSnoc(instrs, Kept(instrs, k - 1), prev.gates, k - 1, gates[|gates| - 1]);
        assert gates == prev.gates + [gates[|gates| - 1]];
      }
    }
  }

  /** `gates[j]` is the translation of instruction `kept[j]`, never a measure
      or barrier. */
  predicate TranslatedFrom(instrs: seq<Instruction>, kept: seq<nat>, gates: seq<GateCall>)
  {
    |gates| == |kept| &&
    forall j :: 0 <= j < |gates| ==>
      kept[j] < |instrs| &&
      Translate(instrs[kept[j]], gates[j].time) == Success(gates[j]) &&
      gates[j].gate != "measure" && gates[j].gate != "barrier"
  }

  lemma TranslatedSnoc(instrs: seq<Instruction>, kept: seq<nat>, gates: seq<GateCall>, x: nat, g: GateCall)
    requires TranslatedFrom(instrs, kept, gates)
    requires x < |instrs| && !Skipped(instrs[x]) && Translate(instrs[x], g.time) == Success(g)
    ensures TranslatedFrom(instrs, kept + [x], gates + [g])
  {
  }

  /** One iteration leaves the gates alone for a skipped instruction and
      otherwise appends that instruction's translation. */
  lemma StepAppendsTranslation(b: CircuitBuild, instrs: seq<Instruction>, i: nat, gateTimes: seq<real>,
                               props: Option<BackendProperties>)
    requires i < |instrs|
    requires BuildStep(b, instrs, i, gateTimes, props).Success?
    ensures var gates := BuildStep(b, instrs, i, gateTimes, props).value.gates;
      if Skipped(instrs[i]) then gates == b.gates
      else exists g :: gates == b.gates + [g] && Translate(instrs[i], g.time) == Success(g)
  {
    if !Skipped(instrs[i]) {
      var g := BuildStep(b, instrs, i, gateTimes, props).value.gates[|b.gates|];
      assert Translate(instrs[i], g.time) == Success(g);
    }
  }

  /** With `gate_times`, a gate's time is the entry at its ORIGINAL position
      (skipped instructions still use up a slot), and the total circuit time
      stays 0. */
  lemma {:induction false} ExplicitGateTimes(instrs: seq<Instruction>, gateTimes: seq<real>,
                                             props: Option<BackendProperties>, k: nat)
    requires k <= |instrs| && gateTimes != []
    requires CircuitAfter(instrs, gateTimes, props, k).Success?
    ensures var b := CircuitAfter(instrs, gateTimes, props, k).value;
      b.total == 0.0 && |b.gates| == |Kept(instrs, k)| &&
      forall j :: 0 <= j < |b.gates| ==>
        Kept(instrs, k)[j] < |gateTimes| && b.gates[j].time == gateTimes[Kept(instrs, k)[j]]
  {
    if k > 0 {
      ExplicitGateTimes(instrs, gateTimes, props, k - 1);
    }
  }

  /** Every instruction can be translated (enough qubits and parameters). */
  predicate Translatable(instrs: seq<Instruction>)
  {
    forall i :: 0 <= i < |instrs| ==>
      |instrs[i].qubits| >= QubitCount(instrs[i].name) && |instrs[i].params| >= AngleCount(instrs[i].name)
  }

  /** With `gate_times` and translatable instructions, the loop fails exactly
      when a sent instruction's position is past the end of `gate_times`,
      and then with "Not enough gate times specified!". */
  lemma {:induction false} NotEnoughGateTimes(instrs: seq<Instruction>, gateTimes: seq<real>,
                                              props: Option<BackendProperties>, k: nat)
    requires k <= |instrs| && gateTimes != [] && Translatable(instrs)
    ensures CircuitAfter(instrs, gateTimes, props, k).Success? <==> GateTimesCover(instrs, gateTimes, k)
    ensures CircuitAfter(instrs, gateTimes, props, k).Failure? ==>
      CircuitAfter(instrs, gateTimes, props, k).error == QuacBackendError(NotEnoughGateTimesMessage)
  {
    if k > 0 {
      NotEnoughGateTimes(instrs, gateTimes, props, k - 1);
      CoverStep(instrs, gateTimes, k);
      if CircuitAfter(instrs, gateTimes, props, k - 1).Success? {
        ExplicitStep(CircuitAfter(instrs, gateTimes, props, k - 1).value, instrs, k - 1, gateTimes, props);
      }
    }
  }

  /** Every sent instruction among the first `k` has an entry in `gate_times`. */
  predicate GateTimesCover(instrs: seq<Instruction>, gateTimes: seq<real>, k: nat)
    requires k <= |instrs|
  {
    forall i :: 0 <= i < k && !Skipped(instrs[i]) ==> i < |gateTimes|
  }

  lemma CoverStep(instrs: seq<Instruction>, gateTimes: seq<real>, k: nat)
    requires 0 < k <= |instrs|
    ensures GateTimesCover(instrs, gateTimes, k) <==>
      GateTimesCover(instrs, gateTimes, k - 1) && (Skipped(instrs[k - 1]) || k - 1 < |gateTimes|)
  {
  }

  /** One iteration with `gate_times`: it fails only for a sent instruction
      past the end of `gate_times`. */
  lemma ExplicitStep(b: CircuitBuild, instrs: seq<Instruction>, i: nat, gateTimes: seq<real>,
                     props: Option<BackendProperties>)
    requires i < |instrs| && gateTimes != [] && Translatable(instrs)
    ensures BuildStep(b, instrs, i, gateTimes, props).Success? <==> Skipped(instrs[i]) || i < |gateTimes|
    ensures BuildStep(b, instrs, i, gateTimes, props).Failure? ==>
      BuildStep(b, instrs, i, gateTimes, props).error == QuacBackendError(NotEnoughGateTimesMessage)
  {
  }

  /** Gate times that start at 1 and then step by each gate's own length. */
  predicate StepsByLength(gates: seq<GateCall>, lengths: seq<real>)
  {
    |gates| == |lengths| &&
    (gates != [] ==> gates[0].time == 1.0) &&
    forall j :: 0 < j < |gates| ==> gates[j].time == gates[j - 1].time + lengths[j]
  }

  lemma StepsByLengthSnoc(gates: seq<GateCall>, lengths: seq<real>, g: GateCall, length: real)
    requires StepsByLength(gates, lengths)
    requires gates == [] ==> g.time == 1.0
    requires gates != [] ==> g.time == gates[|gates| - 1].time + length
    ensures StepsByLength(gates + [g], lengths + [length])
  {
  }

  /** Without `gate_times`: the total is the sum of the sent gates' lengths;
      the first sent gate is instruction 0, at time 1; every later one is at
      the previous gate's time plus its OWN length. */
  predicate Chained(instrs: seq<Instruction>, props: Option<BackendProperties>, k: nat, b: CircuitBuild)
    requires k <= |instrs|
  {
    ChainedOver(KeptLengths(instrs, props, k), b) &&
    (b.gates != [] ==> !Skipped(instrs[0]))
  }

  /** The loop variables agree with the given lengths of the sent gates. */
  predicate ChainedOver(lengths: seq<real>, b: CircuitBuild)
  {
    b.total == Sum(lengths) &&
    StepsByLength(b.gates, lengths) &&
    (b.gates == [] <==> b.gateTime.None?) &&
    (b.gates != [] ==> b.gateTime == Some(b.gates[|b.gates| - 1].time))
  }

  lemma {:induction false} ChainedGateTimes(instrs: seq<Instruction>, props: Option<BackendProperties>, k: nat)
    requires k <= |instrs|
    requires CircuitAfter(instrs, [], props, k).Success?
    ensures Chained(instrs, props, k, CircuitAfter(instrs, [], props, k).value)
  {
    if k > 0 {
      ChainedGateTimes(instrs, props, k - 1);
      ChainStep(instrs, props, k - 1, CircuitAfter(instrs, [], props, k - 1).value);
    }
  }

  lemma ChainStep(instrs: seq<Instruction>, props: Option<BackendProperties>, k: nat, prev: CircuitBuild)
    requires k < |instrs|
    requires Chained(instrs, props, k, prev)
    requires BuildStep(prev, instrs, k, [], props).Success?
    ensures Chained(instrs, props, k + 1, BuildStep(prev, instrs, k, [], props).value)
  {
    if Skipped(instrs[k]) {
      assert KeptLengths(instrs, props, k + 1) == KeptLengths(instrs, props, k);
    } else {
      var g := ChainedStepShape(prev, instrs, k, props);
      ChainAppend(instrs, props, k, prev, g);
    }
  }

  lemma ChainAppend(instrs: seq<Instruction>, props: Option<BackendProperties>, k: nat, prev: CircuitBuild, g: GateCall)
    requires k < |instrs| && !Skipped(instrs[k])
    requires Chained(instrs, props, k, prev)
    requires k == 0 ==> g.time == 1.0
    requires k > 0 ==> prev.gateTime.Some? && g.time == prev.gateTime.value + LengthValue(props, instrs[k])
    ensures Chained(instrs, props, k + 1,
                    CircuitBuild(prev.gates + [g], prev.total + LengthValue(props, instrs[k]), Some(g.time)))
  {
    var length := LengthValue(props, instrs[k]);
    var lengths := KeptLengths(instrs, props, k);
    assert KeptLengths(instrs, props, k + 1) == lengths + [length];
    assert k == 0 ==> prev.gateTime.None? by {
      if k == 0 {
        assert lengths == [];
      }
    }
    ChainSnoc(lengths, prev, g, length);
  }

  /** Appending one gate keeps the total and the time chain. */
  lemma ChainSnoc(lengths: seq<real>, prev: CircuitBuild, g: GateCall, length: real)
    requires ChainedOver(lengths, prev)
    requires prev.gateTime.None? ==> g.time == 1.0
    requires prev.gateTime.Some? ==> g.time == prev.gateTime.value + length
    ensures ChainedOver(lengths + [length], CircuitBuild(prev.gates + [g], prev.total + length, Some(g.time)))
  {
    ChainAppendTotal(lengths, prev.total, length);
    StepsByLengthSnoc(prev.gates, lengths, g, length);
  }

  lemma ChainAppendTotal(lengths: seq<real>, total: real, length: real)
    requires total == Sum(lengths)
    ensures total + length == Sum(lengths + [length])
  {
    assert (lengths + [length])[..|lengths|] == lengths;
  }

  /** The one gate a sent instruction appends without `gate_times`. */
  lemma ChainedStepShape(prev: CircuitBuild, instrs: seq<Instruction>, k: nat, props: Option<BackendProperties>)
    returns (g: GateCall)
    requires k < |instrs| && !Skipped(instrs[k])
    requires BuildStep(prev, instrs, k, [], props).Success?
    ensures BuildStep(prev, instrs, k, [], props).value ==
      CircuitBuild(prev.gates + [g], prev.total + LengthValue(props, instrs[k]), Some(g.time))
    ensures k == 0 ==> g.time == 1.0
    ensures k > 0 ==> prev.gateTime.Some? && g.time == prev.gateTime.value + LengthValue(props, instrs[k])
  {
    var length := LengthOf(props, instrs[k]).value;
    var time := if k == 0 then 1.0 else prev.gateTime.value + length;
    g := Translate(instrs[k], time).value;
  }

  /** Without `gate_times`, an experiment whose first instruction is a
      measure or barrier fails at the first gate it sends: `gate_time` is read
      before it was ever assigned. */
  lemma LeadingSkipLeavesGateTimeUnbound(instrs: seq<Instruction>, props: Option<BackendProperties>, f: nat)
    requires 0 < f < |instrs| && !Skipped(instrs[f]) && LengthOf(props, instrs[f]).Success?
    requires forall i :: 0 <= i < f ==> Skipped(instrs[i])
    ensures CircuitAfter(instrs, [], props, |instrs|) == Failure(UnboundLocalError)
  {
    UnboundBeforeFirstGate(instrs, props, f, f);
    CircuitFailureSticks(instrs, [], props, f + 1, |instrs|);
  }

  lemma {:induction false} UnboundBeforeFirstGate(instrs: seq<Instruction>, props: Option<BackendProperties>,
                                                  f: nat, k: nat)
    requires k <= f < |instrs|
    requires forall i :: 0 <= i < f ==> Skipped(instrs[i])
    ensures CircuitAfter(instrs, [], props, k) == Success(CircuitBuild([], 0.0, None))
  {
    if k > 0 {
      UnboundBeforeFirstGate(instrs, props, f, k - 1);
    }
  }

  // ---------------------------------------------------------------------
  // Lindblad noise

  /** A qubit's (T1, T2) in ns: from the hardware properties × 1e9 when
      hardware is specified and no `lindblad` is given, otherwise from
      `lindblad[str(q)]`. */
  function QubitTimes(hardwareSpecified: bool, props: Option<BackendProperties>,
                      lindblad: map<string, map<string, real>>, q: nat): Result<(real, real)>
  {
    if hardwareSpecified && |lindblad| == 0 then
      if props.None? then Failure(AttributeError)
      else if q !in props.value.t1 || q !in props.value.t2 then Failure(BackendPropertyError)
      else Success((props.value.t1[q] * NanosPerSecond, props.value.t2[q] * NanosPerSecond))
    else
      var key := NatToString(q);
      if key !in lindblad || "T1" !in lindblad[key] || "T2" !in lindblad[key] then Failure(KeyError)
      else Success((lindblad[key]["T1"], lindblad[key]["T2"]))
  }

  /** The emission and dephasing rates the engine receives: 1/T1 and 1/T2. */
  function QubitRates(hardwareSpecified: bool, props: Option<BackendProperties>,
                      lindblad: map<string, map<string, real>>, q: nat): (r: Result<(real, real)>)
    ensures r.Success? <==>
      (QubitTimes(hardwareSpecified, props, lindblad, q).Success? &&
       QubitTimes(hardwareSpecified, props, lindblad, q).value.0 != 0.0 &&
       QubitTimes(hardwareSpecified, props, lindblad, q).value.1 != 0.0)
    ensures r.Success? ==>
      Mul(r.value.0, QubitTimes(hardwareSpecified, props, lindblad, q).value.0) == 1.0 &&
      Mul(r.value.1, QubitTimes(hardwareSpecified, props, lindblad, q).value.1) == 1.0
    ensures r.Failure? && QubitTimes(hardwareSpecified, props, lindblad, q).Success? ==>
      r.error == ZeroDivisionError
  {
    match QubitTimes(hardwareSpecified, props, lindblad, q)
    case Failure(e) => Failure(e)
    case Success(times) =>
      if times.0 == 0.0 || times.1 == 0.0 then Failure(ZeroDivisionError)
      else Success((1.0 / times.0, 1.0 / times.1))
  }

  /** A given `lindblad` dict is the only source of T1/T2: the hardware
      properties are never consulted. */
  lemma LindbladOverridesHardware(hardwareSpecified: bool, props1: Option<BackendProperties>,
                                  props2: Option<BackendProperties>, lindblad: map<string, map<string, real>>, q: nat)
    requires |lindblad| > 0
    ensures QubitRates(hardwareSpecified, props1, lindblad, q) == QubitRates(hardwareSpecified, props2, lindblad, q)
  {
  }

  /** The emission/dephasing calls for qubits 0..n-1, two per qubit. */
  predicate NoiseLog(calls: seq<EngineCall>, hardwareSpecified: bool, props: Option<BackendProperties>,
                     lindblad: map<string, map<string, real>>, n: nat)
  {
    |calls| == 2 * n &&
    forall q :: 0 <= q < n ==>
      QubitRates(hardwareSpecified, props, lindblad, q).Success? &&
      calls[2 * q] == AddLindbladEmission(q, QubitRates(hardwareSpecified, props, lindblad, q).value.0) &&
      calls[2 * q + 1] == AddLindbladDephasing(q, QubitRates(hardwareSpecified, props, lindblad, q).value.1)
  }

  /** The noise loop of `run_experiment`: qubit by qubit, an emission rate
      then a dephasing rate; the first qubit whose times cannot be found or
      are 0 stops it with that error. */
  method AddLindbladNoise(hardwareSpecified: bool, props: Option<BackendProperties>,
                          lindblad: map<string, map<string, real>>, n: nat)
    returns (r: Result<seq<EngineCall>>)
    ensures r.Success? <==> forall q :: 0 <= q < n ==> QubitRates(hardwareSpecified, props, lindblad, q).Success?
    ensures r.Success? ==> NoiseLog(r.value, hardwareSpecified, props, lindblad, n)
    ensures r.Failure? ==>
      exists q :: 0 <= q < n && FirstNoiseFailure(hardwareSpecified, props, lindblad, q) &&
                  r.error == QubitRates(hardwareSpecified, props, lindblad, q).error
  {
    var calls: seq<EngineCall> := [];
    var qubitIndex := 0;
    while qubitIndex < n
      invariant qubitIndex <= n
      invariant NoiseLog(calls, hardwareSpecified, props, lindblad, qubitIndex)
    {
      var rates := QubitRates(hardwareSpecified, props, lindblad, qubitIndex);
      if rates.Failure? {
        assert FirstNoiseFailure(hardwareSpecified, props, lindblad, qubitIndex);
        return Failure(rates.error);
      }
      calls := calls + [AddLindbladEmission(qubitIndex, rates.value.0), AddLindbladDephasing(qubitIndex, rates.value.1)];
      qubitIndex := qubitIndex + 1;
    }
    return Success(calls);
  }

  /** Qubit `q` is the first whose rates cannot be computed. */
  predicate FirstNoiseFailure(hardwareSpecified: bool, props: Option<BackendProperties>,
                              lindblad: map<string, map<string, real>>, q: nat)
  {
    QubitRates(hardwareSpecified, props, lindblad, q).Failure? &&
    forall p :: 0 <= p < q ==> QubitRates(hardwareSpecified, props, lindblad, p).Success?
  }

  // ---------------------------------------------------------------------
  // Run length and time step

  /** `simulation_length`: the given value, else the total circuit time
      without `gate_times`, else one past the last gate time. */
  function SimulationLength(config: RunConfig, total: real): real
  {
    if config.simulationLength != 0.0 then config.simulationLength
    else if config.gateTimes == [] then total
    else config.gateTimes[|config.gateTimes| - 1] + 1.0
  }

  /** `dt`: the given time step, else 10 ns. */
  function TimeStep(config: RunConfig): (dt: real)
    ensures config.timeStep != 0.0 ==> dt == config.timeStep
    ensures config.timeStep == 0.0 ==> dt == DefaultTimeStep
  {
    if config.timeStep != 0.0 then config.timeStep else DefaultTimeStep
  }

  predicate NonDecreasing(s: seq<real>)
  {
    forall i, j :: 0 <= i <= j < |s| ==> s[i] <= s[j]
  }

  /** With nondecreasing `gate_times` and no explicit length, the default run
      length ends strictly after every gate. */
  lemma GatesEndBeforeSimulation(instrs: seq<Instruction>, config: RunConfig, props: Option<BackendProperties>)
    requires config.gateTimes != [] && config.simulationLength == 0.0 && NonDecreasing(config.gateTimes)
    requires CircuitAfter(instrs, config.gateTimes, props, |instrs|).Success?
    ensures var b := CircuitAfter(instrs, config.gateTimes, props, |instrs|).value;
      forall j :: 0 <= j < |b.gates| ==> b.gates[j].time < SimulationLength(config, b.total)
  {
    ExplicitGateTimes(instrs, config.gateTimes, props, |instrs|);
  }

  /** The full log of `run_experiment` once the circuit `b` is built. */
  predicate ExperimentLog(log: seq<EngineCall>, hardwareSpecified: bool, props: Option<BackendProperties>,
                          config: RunConfig, n: nat, b: CircuitBuild)
  {
    |log| == 2 * n + 4 &&
    log[0] == CreateQubits(n) &&
    NoiseLog(log[1..2 * n + 1], hardwareSpecified, props, config.lindblad, n) &&
    log[2 * n + 1] == CreateDensityMatrix &&
    log[2 * n + 2] == StartCircuitAt(b.gates) &&
    log[2 * n + 3] == Run(SimulationLength(config, b.total), TimeStep(config))
  }

  // ---------------------------------------------------------------------
  // The backend

  class QuacSimulator {
    const hardwareSpecified: bool
    const configuration: BackendConfiguration
    const properties: Option<BackendProperties>

    /** Hardware counts as specified only when both the configuration and the
        properties are given; otherwise the generic configuration is used and
        there are no properties. */
    constructor(hardwareConf: Option<BackendConfiguration>, hardwareProps: Option<BackendProperties>)
      ensures hardwareSpecified <==> hardwareConf.Some? && hardwareProps.Some?
      ensures hardwareSpecified ==> configuration == hardwareConf.value && properties == hardwareProps
      ensures !hardwareSpecified ==> configuration == GenericConfiguration && properties == None
      ensures Valid()
    {
      if hardwareConf.Some? && hardwareProps.Some? {
        hardwareSpecified := true;
        configuration := hardwareConf.value;
        properties := hardwareProps;
      } else {
        hardwareSpecified := false;
        configuration := GenericConfiguration;
        properties := None;
      }
    }

    /** Properties exist exactly when hardware is specified. */
    predicate Valid()
    {
      hardwareSpecified <==> properties.Some?
    }

    /** `run_experiment`: refuse to run without any noise source, build the
        circuit, add the Lindblad terms for every qubit, then start the
        circuit and run for the simulation length with the time step. */
    method RunExperiment(instrs: seq<Instruction>, nQubits: nat, config: RunConfig)
      returns (r: Result<seq<EngineCall>>)
      ensures !hardwareSpecified && |config.lindblad| == 0 ==> r == Failure(QuacOptionsError(NoNoiseModelMessage))
      ensures ((hardwareSpecified || |config.lindblad| > 0) &&
               CircuitAfter(instrs, config.gateTimes, properties, |instrs|).Failure?) ==>
        r == Failure(CircuitAfter(instrs, config.gateTimes, properties, |instrs|).error)
      ensures r.Success? <==>
        ((hardwareSpecified || |config.lindblad| > 0) &&
         CircuitAfter(instrs, config.gateTimes, properties, |instrs|).Success? &&
         forall q :: 0 <= q < nQubits ==> QubitRates(hardwareSpecified, properties, config.lindblad, q).Success?)
      ensures r.Success? ==> ExperimentLog(r.value, hardwareSpecified, properties, config, nQubits,
                                           CircuitAfter(instrs, config.gateTimes, properties, |instrs|).value)
    {
      if !hardwareSpecified && |config.lindblad| == 0 {
        return Failure(QuacOptionsError(NoNoiseModelMessage));
      }
      var circuit := BuildCircuit(instrs, config.gateTimes, properties);
      if circuit.Failure? {
        return Failure(circuit.error);
      }
      var noise := AddLindbladNoise(hardwareSpecified, properties, config.lindblad, nQubits);
      if noise.Failure? {
        return Failure(noise.error);
      }
      var log := [CreateQubits(nQubits)] + noise.value +
        [CreateDensityMatrix, StartCircuitAt(circuit.value.gates),
         Run(SimulationLength(config, circuit.value.total), TimeStep(config))];
      assert log[1..2 * nQubits + 1] == noise.value;
      return Success(log);
    }
  }
}
