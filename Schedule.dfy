/** List scheduling of a Qobj experiment's instructions onto per-qubit
    timelines (two variants that differ only in how a gate's length is looked
    up), and the debugging scheduler that spaces instructions 500 ns apart. */
module Schedule {

  import opened Common

  /** A Qobj instruction. `id` is unset until the list scheduler writes the
      instruction's program index into it. */
  datatype Instruction = Instruction(
    name: string,
    qubits: seq<nat>,
    memory: seq<nat>,
    params: seq<real>,
    id: Option<nat>)

  /** An (instruction, start time) pair of the scheduler's output. */
  datatype Scheduled = Scheduled(instr: Instruction, time: real)

  /** Every per-qubit "next free time" counter starts here, never at 0. */
  const InitialTime: real := 1.0

  /** Fixed length the older variant forces on every `u1` gate. */
  const U1Length: real := 10.0

  /** Spacing of the debugging scheduler. */
  const NoScheduleSpacing: real := 500.0

  /** The instruction names a qubit list the counters can index, and at least
      one qubit (Python's `max` of an empty list raises). */
  predicate WellTargeted(instr: Instruction, nQubits: nat)
  {
    |instr.qubits| > 0 && forall j :: 0 <= j < |instr.qubits| ==> instr.qubits[j] < nQubits
  }

  predicate AllWellTargeted(instrs: seq<Instruction>, nQubits: nat)
  {
    forall k :: 0 <= k < |instrs| ==> WellTargeted(instrs[k], nQubits)
  }

  /** `hardware_props.gate_length(...)` (or `gate_property(..., "gate_length")[0]`)
      in seconds, None when the lookup raises: properties absent
      (`AttributeError`) or no entry for the gate (`BackendPropertyError`). */
  function LookupGateLength(props: Option<BackendProperties>, instr: Instruction): Option<real>
  {
    if props.Some? && (instr.name, instr.qubits) in props.value.gateLength
    then Some(props.value.gateLength[(instr.name, instr.qubits)])
    else None
  }

  /** Gate length in ns of the `quac_qiskit` scheduler: the hardware length,
      0 when the lookup raises, and always 10 for `u1`. */
  function LegacyGateLength(props: Option<BackendProperties>, instr: Instruction): real
  {
    if instr.name == "u1" then U1Length
    else match LookupGateLength(props, instr)
      case Some(seconds) => seconds * NanosPerSecond
      case None => 0.0
  }

  /** Gate length in ns of the provider's scheduler: no `u1` override. */
  function PropertyGateLength(props: Option<BackendProperties>, instr: Instruction): real
  {
    match LookupGateLength(props, instr)
    case Some(seconds) => seconds * NanosPerSecond
    case None => 0.0
  }

  // ---------------------------------------------------------------------
  // Specification of the list scheduler

  /** The largest counter among `qs` (the `max([...])` of the source). */
  function MaxCounter(c: seq<real>, qs: seq<nat>): real
    requires |qs| > 0
    requires forall j :: 0 <= j < |qs| ==> qs[j] < |c|
  {
    if |qs| == 1 then c[qs[0]]
    else Max(MaxCounter(c, qs[..|qs| - 1]), c[qs[|qs| - 1]])
  }

  /** The counters after the touched qubits `qs` advance to `v`. */
  function Advance(c: seq<real>, qs: seq<nat>, v: real): seq<real>
  {
    seq(|c|, q requires 0 <= q < |c| => if q in qs then v else c[q])
  }

  /** The per-qubit counters after the first k instructions. */
  function Counters(instrs: seq<Instruction>, nQubits: nat, lengths: seq<real>, k: nat): (c: seq<real>)
    requires k <= |instrs| == |lengths|
    requires AllWellTargeted(instrs, nQubits)
    ensures |c| == nQubits
  {
    if k == 0 then seq(nQubits, _ => InitialTime)
    else
      var prev := Counters(instrs, nQubits, lengths, k - 1);
      Advance(prev, instrs[k - 1].qubits, MaxCounter(prev, instrs[k - 1].qubits) + lengths[k - 1])
  }

  /** Start time of instruction k: the largest counter among its qubits. */
  function StartTime(instrs: seq<Instruction>, nQubits: nat, lengths: seq<real>, k: nat): real
    requires k < |instrs| == |lengths|
    requires AllWellTargeted(instrs, nQubits)
  {
    MaxCounter(Counters(instrs, nQubits, lengths, k), instrs[k].qubits)
  }

  /** The schedule in program order, before the final sort: instruction k
      carries id k and its start time. */
  function ProgramOrder(instrs: seq<Instruction>, nQubits: nat, lengths: seq<real>): (s: seq<Scheduled>)
    requires |instrs| == |lengths|
    requires AllWellTargeted(instrs, nQubits)
    ensures |s| == |instrs|
  {
    seq(|instrs|, k requires 0 <= k < |instrs| =>
      Scheduled(instrs[k].(id := Some(k)), StartTime(instrs, nQubits, lengths, k)))
  }

  function IdOf(e: Scheduled): int
  {
    match e.instr.id
    case Some(i) => i
    case None => -1
  }

  /** Nondecreasing start times, ties in program order (ids increasing). */
  predicate StablySorted(r: seq<Scheduled>)
  {
    forall a, b :: 0 <= a < b < |r| ==>
      r[a].time <= r[b].time && (r[a].time == r[b].time ==> IdOf(r[a]) < IdOf(r[b]))
  }

  /** `r` is what a stable sort by start time makes of `s`, whose entries
      carry their positions as ids. */
  predicate IsStableSortOf(r: seq<Scheduled>, s: seq<Scheduled>)
  {
    |r| == |s| && multiset(r) == multiset(s) && StablySorted(r)
  }

  // ---------------------------------------------------------------------
  // The algorithm

  /** The stable sort by start time at the end of both schedulers
      (`instruction_time_order.sort(key=lambda pair: pair[1])`), written as
      an insertion sort: each entry goes after every entry whose time is not
      larger. */
  method SortByTime(s: seq<Scheduled>) returns (r: seq<Scheduled>)
    requires forall k :: 0 <= k < |s| ==> IdOf(s[k]) == k
    ensures IsStableSortOf(r, s)
  {
    r := [];
    var i := 0;
    while i < |s|
      invariant 0 <= i <= |s|
      invariant |r| == i
      invariant multiset(r) == multiset(s[..i])
      invariant StablySorted(r)
      invariant forall e :: e in r ==> 0 <= IdOf(e) < i
    {
      var x := s[i];
      var j := InsertionPoint(r, x.time);
      InsertKeepsStablySorted(r, j, x);
      InsertElements(r, j, x);
      assert s[..i + 1] == s[..i] + [x];
      r := r[..j] + [x] + r[j..];
      i := i + 1;
    }
    assert s[..i] == s;
  }

  /** Inserting `x` at `j` adds one copy of `x` and keeps every other entry. */
  lemma InsertElements(r: seq<Scheduled>, j: nat, x: Scheduled)
    requires j <= |r|
    ensures multiset(r[..j] + [x] + r[j..]) == multiset(r) + multiset{x}
    ensures forall k :: 0 <= k < |r| + 1 ==> (r[..j] + [x] + r[j..])[k] == x || (r[..j] + [x] + r[j..])[k] in r
  {
    assert r == r[..j] + r[j..];
    var t := r[..j] + [x] + r[j..];
    forall k | 0 <= k < |t|
      ensures t[k] == x || t[k] in r
    {
      if k < j { assert t[k] == r[k]; } else if k > j { assert t[k] == r[k - 1]; }
    }
  }

  /** The first position whose start time is larger than `t` (the end when
      there is none), found by scanning a list sorted by start time. */
  method InsertionPoint(r: seq<Scheduled>, t: real) returns (j: nat)
    requires StablySorted(r)
    ensures j <= |r|
    ensures forall k :: 0 <= k < j ==> r[k].time <= t
    ensures forall k :: j <= k < |r| ==> r[k].time > t
  {
    j := 0;
    while j < |r| && r[j].time <= t
      invariant 0 <= j <= |r|
      invariant forall k :: 0 <= k < j ==> r[k].time <= t
    {
      j := j + 1;
    }
  }

  /** Inserting an entry with a larger id than all others after every entry
      whose time is not larger keeps the list stably sorted. */
  lemma InsertKeepsStablySorted(r: seq<Scheduled>, j: nat, x: Scheduled)
    requires StablySorted(r)
    requires j <= |r|
    requires forall k :: 0 <= k < j ==> r[k].time <= x.time
    requires forall k :: j <= k < |r| ==> r[k].time > x.time
    requires forall k :: 0 <= k < |r| ==> IdOf(r[k]) < IdOf(x)
    ensures StablySorted(r[..j] + [x] + r[j..])
  {
    var t := r[..j] + [x] + r[j..];
    forall a, b | 0 <= a < b < |t|
      ensures t[a].time <= t[b].time && (t[a].time == t[b].time ==> IdOf(t[a]) < IdOf(t[b]))
    {
      if b < j {
        assert t[a] == r[a] && t[b] == r[b];
      } else if b == j {
        assert t[a] == r[a] && t[b] == x;
      } else if a < j {
        assert t[a] == r[a] && t[b] == r[b - 1];
      } else if a == j {
        assert t[a] == x && t[b] == r[b - 1];
      } else {
        assert t[a] == r[a - 1] && t[b] == r[b - 1];
      }
    }
  }

  /** The loop shared by both list schedulers: one counter per qubit starting
      at 1; each instruction gets id = its index and starts at the largest
      counter of its qubits, which then all advance to start + length; the
      result is stably sorted by start time. `lengths[k]` is instruction k's
      gate length as the variant computes it. */
  method ListScheduleCore(instrs: seq<Instruction>, nQubits: nat, lengths: seq<real>)
    returns (order: seq<Scheduled>)
    requires |instrs| == |lengths|
    requires AllWellTargeted(instrs, nQubits)
    ensures IsStableSortOf(order, ProgramOrder(instrs, nQubits, lengths))
  {
    var schedulingTimes := new real[nQubits](_ => InitialTime);
    var timeOrder: seq<Scheduled> := [];
    var index := 0;
    while index < |instrs|
      invariant 0 <= index <= |instrs|
      invariant schedulingTimes[..] == Counters(instrs, nQubits, lengths, index)
      invariant timeOrder == ProgramOrder(instrs, nQubits, lengths)[..index]
    {
      var entry := ScheduleNext(schedulingTimes, instrs, nQubits, lengths, index);
      assert ProgramOrder(instrs, nQubits, lengths)[..index + 1] ==
        ProgramOrder(instrs, nQubits, lengths)[..index] + [entry];
      timeOrder := timeOrder + [entry];
      index := index + 1;
    }
    assert timeOrder == ProgramOrder(instrs, nQubits, lengths);
    order := SortByTime(timeOrder);
  }

  /** One pass of the scheduling loop: instruction `index` gets its id and
      start time, and the counters of its qubits advance. */
  method ScheduleNext(schedulingTimes: array<real>, instrs: seq<Instruction>, nQubits: nat, lengths: seq<real>,
                      index: nat)
    returns (entry: Scheduled)
    requires index < |instrs| == |lengths|
    requires AllWellTargeted(instrs, nQubits)
    requires schedulingTimes[..] == Counters(instrs, nQubits, lengths, index)
    modifies schedulingTimes
    ensures schedulingTimes[..] == Counters(instrs, nQubits, lengths, index + 1)
    ensures entry == ProgramOrder(instrs, nQubits, lengths)[index]
  {
    var instruction := instrs[index].(id := Some(index));
    var start := LatestCounter(schedulingTimes, instruction.qubits);
    AdvanceCounters(schedulingTimes, instruction.qubits, start + lengths[index]);
    entry := Scheduled(instruction, start);
  }

  /** The start time of an instruction: the largest counter of its qubits. */
  method LatestCounter(schedulingTimes: array<real>, qs: seq<nat>) returns (start: real)
    requires |qs| > 0
    requires forall j :: 0 <= j < |qs| ==> qs[j] < schedulingTimes.Length
    ensures start == MaxCounter(schedulingTimes[..], qs)
  {
    start := schedulingTimes[qs[0]];
    var j := 1;
    while j < |qs|
      invariant 1 <= j <= |qs|
      invariant start == MaxCounter(schedulingTimes[..], qs[..j])
    {
      assert qs[..j + 1][..j] == qs[..j];
      start := Max(start, schedulingTimes[qs[j]]);
      j := j + 1;
    }
    assert qs[..j] == qs;
  }

  /** Every qubit in `qs` becomes busy until `v`; the others are unchanged. */
  method AdvanceCounters(schedulingTimes: array<real>, qs: seq<nat>, v: real)
    requires forall j :: 0 <= j < |qs| ==> qs[j] < schedulingTimes.Length
    modifies schedulingTimes
    ensures schedulingTimes[..] == Advance(old(schedulingTimes[..]), qs, v)
  {
    var j := 0;
    while j < |qs|
      invariant 0 <= j <= |qs|
      invariant schedulingTimes[..] == Advance(old(schedulingTimes[..]), qs[..j], v)
    {
      assert qs[..j + 1] == qs[..j] + [qs[j]];
      schedulingTimes[qs[j]] := v;
      j := j + 1;
    }
    assert qs[..j] == qs;
  }

  /** `list_schedule_experiment` of the `quac_qiskit` package: gate lengths
      from `gate_length`, 0 on a failed lookup, 10 for every `u1`. */
  method ListScheduleExperiment(instrs: seq<Instruction>, nQubits: nat, props: Option<BackendProperties>)
    returns (order: seq<Scheduled>)
    requires AllWellTargeted(instrs, nQubits)
    ensures IsStableSortOf(order, ProgramOrder(instrs, nQubits, LegacyLengths(instrs, props)))
  {
    order := ListScheduleCore(instrs, nQubits, LegacyLengths(instrs, props));
  }

  /** `list_schedule_experiment` of the provider's utilities: gate lengths
      from `gate_property(..., "gate_length")[0]`, 0 on a failed lookup. */
  method ListScheduleGateProperty(instrs: seq<Instruction>, nQubits: nat, props: Option<BackendProperties>)
    returns (order: seq<Scheduled>)
    requires AllWellTargeted(instrs, nQubits)
    ensures IsStableSortOf(order, ProgramOrder(instrs, nQubits, PropertyLengths(instrs, props)))
  {
    order := ListScheduleCore(instrs, nQubits, PropertyLengths(instrs, props));
  }

  function LegacyLengths(instrs: seq<Instruction>, props: Option<BackendProperties>): (ls: seq<real>)
    ensures |ls| == |instrs|
  {
    seq(|instrs|, k requires 0 <= k < |instrs| => LegacyGateLength(props, instrs[k]))
  }

  function PropertyLengths(instrs: seq<Instruction>, props: Option<BackendProperties>): (ls: seq<real>)
    ensures |ls| == |instrs|
  {
    seq(|instrs|, k requires 0 <= k < |instrs| => PropertyGateLength(props, instrs[k]))
  }

  /** The two variants agree except on `u1`, which the older one pins to 10;
      a failed lookup gives 0, and a found length is converted to ns. */
  lemma GateLengthVariants(props: Option<BackendProperties>, instr: Instruction)
    ensures instr.name == "u1" ==> LegacyGateLength(props, instr) == U1Length
    ensures instr.name != "u1" ==> LegacyGateLength(props, instr) == PropertyGateLength(props, instr)
    ensures LookupGateLength(props, instr).None? ==> PropertyGateLength(props, instr) == 0.0
    ensures props.None? ==> LookupGateLength(props, instr).None?
    ensures LookupGateLength(props, instr).Some? ==>
      PropertyGateLength(props, instr) == LookupGateLength(props, instr).value * NanosPerSecond
  {
  }

  /** `no_schedule_experiment`: instruction k at time 1 + 500·k, in program
      order, whatever its qubits; ids are left untouched. */
  method NoScheduleExperiment(instrs: seq<Instruction>) returns (order: seq<Scheduled>)
    ensures |order| == |instrs|
    ensures forall k :: 0 <= k < |instrs| ==>
      order[k] == Scheduled(instrs[k], InitialTime + NoScheduleSpacing * k as real)
  {
    var applicationTime := InitialTime;
    order := [];
    var index := 0;
    while index < |instrs|
      invariant 0 <= index <= |instrs|
      invariant |order| == index
      invariant applicationTime == InitialTime + NoScheduleSpacing * index as real
      invariant forall k :: 0 <= k < index ==>
        order[k] == Scheduled(instrs[k], InitialTime + NoScheduleSpacing * k as real)
    {
      order := order + [Scheduled(instrs[index], applicationTime)];
      applicationTime := applicationTime + NoScheduleSpacing;
      index := index + 1;
    }
  }

  // ---------------------------------------------------------------------
  // Properties of the schedule

  lemma {:induction false} MaxCounterBounds(c: seq<real>, qs: seq<nat>)
    requires |qs| > 0
    requires forall j :: 0 <= j < |qs| ==> qs[j] < |c|
    ensures forall j :: 0 <= j < |qs| ==> c[qs[j]] <= MaxCounter(c, qs)
    ensures exists j :: 0 <= j < |qs| && c[qs[j]] == MaxCounter(c, qs)
  {
    if |qs| > 1 {
      MaxCounterBounds(c, qs[..|qs| - 1]);
      var j :| 0 <= j < |qs| - 1 && c[qs[..|qs| - 1][j]] == MaxCounter(c, qs[..|qs| - 1]);
      if MaxCounter(c, qs) == c[qs[|qs| - 1]] {
        assert c[qs[|qs| - 1]] == MaxCounter(c, qs);
      } else {
        assert c[qs[j]] == MaxCounter(c, qs);
      }
    } else {
      assert c[qs[0]] == MaxCounter(c, qs);
    }
  }

  /** An instruction starts exactly at the largest counter of the qubits it
      touches. */
  lemma StartIsMaxOfCounters(instrs: seq<Instruction>, nQubits: nat, lengths: seq<real>, k: nat)
    requires k < |instrs| == |lengths|
    requires AllWellTargeted(instrs, nQubits)
    ensures forall j :: 0 <= j < |instrs[k].qubits| ==>
      Counters(instrs, nQubits, lengths, k)[instrs[k].qubits[j]] <= StartTime(instrs, nQubits, lengths, k)
    ensures exists j :: (0 <= j < |instrs[k].qubits| &&
      Counters(instrs, nQubits, lengths, k)[instrs[k].qubits[j]] == StartTime(instrs, nQubits, lengths, k))
  {
    MaxCounterBounds(Counters(instrs, nQubits, lengths, k), instrs[k].qubits);
  }

  /** After instruction k every qubit it touches is busy until start + length,
      and every other counter is unchanged. */
  lemma CountersAfterInstruction(instrs: seq<Instruction>, nQubits: nat, lengths: seq<real>, k: nat, q: nat)
    requires k < |instrs| == |lengths|
    requires AllWellTargeted(instrs, nQubits)
    requires q < nQubits
    ensures Counters(instrs, nQubits, lengths, k + 1)[q] ==
      if q in instrs[k].qubits then StartTime(instrs, nQubits, lengths, k) + lengths[k]
      else Counters(instrs, nQubits, lengths, k)[q]
  {
  }

  predicate NonNegative(lengths: seq<real>)
  {
    forall k :: 0 <= k < |lengths| ==> lengths[k] >= 0.0
  }

  /** With non-negative gate lengths the counters never decrease. */
  lemma {:induction false} CountersMonotone(instrs: seq<Instruction>, nQubits: nat, lengths: seq<real>, k: nat, m: nat, q: nat)
    requires k <= m <= |instrs| == |lengths|
    requires AllWellTargeted(instrs, nQubits)
    requires NonNegative(lengths)
    requires q < nQubits
    ensures Counters(instrs, nQubits, lengths, k)[q] <= Counters(instrs, nQubits, lengths, m)[q]
  {
    if k < m {
      CountersMonotone(instrs, nQubits, lengths, k, m - 1, q);
      var prev := Counters(instrs, nQubits, lengths, m - 1);
      var qs := instrs[m - 1].qubits;
      if q in qs {
        MaxCounterBounds(prev, qs);
        var j :| 0 <= j < |qs| && qs[j] == q;
      }
    }
  }

  /** With non-negative gate lengths no instruction starts before time 1. */
  lemma StartsNoEarlierThanOne(instrs: seq<Instruction>, nQubits: nat, lengths: seq<real>, k: nat)
    requires k < |instrs| == |lengths|
    requires AllWellTargeted(instrs, nQubits)
    requires NonNegative(lengths)
    ensures StartTime(instrs, nQubits, lengths, k) >= InitialTime
  {
    var q := instrs[k].qubits[0];
    CountersMonotone(instrs, nQubits, lengths, 0, k, q);
    MaxCounterBounds(Counters(instrs, nQubits, lengths, k), instrs[k].qubits);
  }

  /** Occupancy invariant: when two instructions share a qubit, the later one
      in program order starts no earlier than the end of the earlier one. */
  lemma NoOverlapOnSharedQubit(instrs: seq<Instruction>, nQubits: nat, lengths: seq<real>, a: nat, b: nat, q: nat)
    requires a < b < |instrs| == |lengths|
    requires AllWellTargeted(instrs, nQubits)
    requires NonNegative(lengths)
    requires q in instrs[a].qubits && q in instrs[b].qubits
    ensures StartTime(instrs, nQubits, lengths, b) >= StartTime(instrs, nQubits, lengths, a) + lengths[a]
  {
    var ja :| 0 <= ja < |instrs[a].qubits| && instrs[a].qubits[ja] == q;
    CountersAfterInstruction(instrs, nQubits, lengths, a, q);
    CountersMonotone(instrs, nQubits, lengths, a + 1, b, q);
    var jb :| 0 <= jb < |instrs[b].qubits| && instrs[b].qubits[jb] == q;
    StartIsMaxOfCounters(instrs, nQubits, lengths, b);
  }

  /** Every input instruction appears exactly once in the output, carrying
      its program index as id; the output is as long as the input. */
  lemma ScheduleKeepsEveryInstruction(instrs: seq<Instruction>, nQubits: nat, lengths: seq<real>,
                                      order: seq<Scheduled>, k: nat)
    requires |instrs| == |lengths|
    requires AllWellTargeted(instrs, nQubits)
    requires IsStableSortOf(order, ProgramOrder(instrs, nQubits, lengths))
    requires k < |instrs|
    ensures |order| == |instrs|
    ensures multiset(order)[Scheduled(instrs[k].(id := Some(k)), StartTime(instrs, nQubits, lengths, k))] == 1
  {
    var p := ProgramOrder(instrs, nQubits, lengths);
    var e := p[k];
    assert p == p[..k] + [e] + p[k + 1..];
    forall j | 0 <= j < |p| && j != k
      ensures p[j] != e
    {
      assert IdOf(p[j]) == j;
    }
    assert e !in p[..k] by {
      forall j | 0 <= j < k ensures p[..k][j] != e { assert p[..k][j] == p[j]; }
    }
    assert e !in p[k + 1..] by {
      forall j | k + 1 <= j < |p| ensures p[j] != e { assert IdOf(p[j]) == j; }
    }
    assert multiset(p) == multiset(p[..k]) + multiset([e]) + multiset(p[k + 1..]);
  }

  /** A hand-made example: durations h = 50 ns and cx = 300 ns,
      measures free; H(q0), CX(q0,q1), M(q0), M(q1) start at 1, 51, 351, 351. */
  lemma WorkedExample()
    ensures var instrs := [
        Instruction("h", [0], [], [], None),
        Instruction("cx", [0, 1], [], [], None),
        Instruction("measure", [0], [0], [], None),
        Instruction("measure", [1], [1], [], None)];
      var lengths := [50.0, 300.0, 0.0, 0.0];
      AllWellTargeted(instrs, 2) &&
      StartTime(instrs, 2, lengths, 0) == 1.0 &&
      StartTime(instrs, 2, lengths, 1) == 51.0 &&
      StartTime(instrs, 2, lengths, 2) == 351.0 &&
      StartTime(instrs, 2, lengths, 3) == 351.0
  {
    var instrs := [
        Instruction("h", [0], [], [], None),
        Instruction("cx", [0, 1], [], [], None),
        Instruction("measure", [0], [0], [], None),
        Instruction("measure", [1], [1], [], None)];
    var lengths := [50.0, 300.0, 0.0, 0.0];
    assert AllWellTargeted(instrs, 2);
    assert Counters(instrs, 2, lengths, 0) == [1.0, 1.0];
    assert Counters(instrs, 2, lengths, 1) == [51.0, 1.0];
    assert Counters(instrs, 2, lengths, 2) == [351.0, 351.0];
    assert Counters(instrs, 2, lengths, 3) == [351.0, 351.0];
  }
}
