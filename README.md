# QuaC-qiskit core, modelled in Dafny

QuaC-qiskit is a Qiskit provider that runs Qiskit circuits on QuaC, a native
open-quantum-system simulator. This project models the plugin's own bookkeeping, the
part between the Qiskit object model and the engine, and proves what that
bookkeeping promises. The modules follow the plugin's structure:

- `Common`: Python's `Result`/`Option` outcomes and exception kinds. It also holds
  extended reals (`+inf` is a noiseless T1/T2), sums, slicing and decimal printing.
- `Bits`: `bin`, `zfill`, `int(s, 2)` and register reversal, with the arithmetic
  that links bit strings to integers.
- `Schedule`: both list schedulers, one with the `u1` override and one with
  `gate_property`, plus `no_schedule_experiment`. Each keeps an array of per-qubit
  "next free time" counters and stable-sorts the result by start time.
- `NoiseModel`: the `QuacNoiseModel` class. It covers the `has_*` predicates,
  getters, `get_noiseless_model`, the flat-array `to_array`/`from_array` encoding
  with its round-trip law, the per-qubit Kronecker expansion of the measurement
  matrices, and the lazily filled `meas()` cache.
- `Sampling`: the three `choose_index` variants (fallback 0 or -1), proved against
  the first cumulative interval that holds the draw.
- `Correction`: the left multiplications by measurement-error matrices.
- `ResultFormat`: the qubit-to-classical-slot register, its reversal into Qiskit's
  key, the density simulator's probability table and the counts simulator's
  per-shot tally.
- `Jobs`: `_run_job` of the density and counts simulators. This covers the choice of
  noise model, one entry per experiment, and the shot total.
- `Simulator`: `QuacSimulator` construction and `run_experiment`. This covers option
  validation, gate times, the gate translation table, Lindblad rates, and the
  simulation-length and time-step defaults. The engine is an append-only log of
  calls.
- `Dist`: `counts_to_list`, `counts_to_dist`, `aggregate_counts_results` and both
  `qiskit_statevector_to_probabilities`, the second with `meas_mappings`.
- `Comparison`: the vector angle (guarded and unguarded), K-L zero smoothing and
  the discrete one-sample K-S statistic.
- `Qasm`: the QASM line filter and rewriter (`quac_qasm_transpiler`) and the
  TIMEQASM emitter.
- `Reparameterize`: T1/T2 interleaved pack/unpack, bounds, and the K-L/K-S sums.
- `Benchmarking`: `quac_t1_circuits` and `add_parallel_id` over instruction lists.
- `Gates`: the special two-qubit gates as integer 4×4 matrices.
- `Provider`: the provider's once-only engine latch, its backend list, `backends`
  and `get_backend`.

Probabilities, times and rates are `real`. `sqrt`, `arccos`, `pi`, `kl_div`, `eval`
and the printing of floats are passed in as function parameters. A random draw is
a parameter in [0, 1).

## Model

| member | source | states |
|---|---|---|
| Schedule.GateLengthVariants | quac_qiskit/simulators/schedule.py:26-34 | a `u1` gate always takes 10 ns in the older scheduler, which otherwise agrees with the provider's (qiskit/providers/quac/utils/schedule.py:27-33); a failed lookup (no properties, no entry) gives 0, a found length is scaled by 1e9 |
| Schedule.Counters | quac_qiskit/simulators/schedule.py:20 | there is one counter per qubit of the experiment |
| Schedule.ProgramOrder | quac_qiskit/simulators/schedule.py:24-40 | the unsorted schedule has one entry per instruction, entry k carrying id k and its start time |
| Schedule.LatestCounter | quac_qiskit/simulators/schedule.py:31 | the start time is the maximum of the counters of the instruction's qubits |
| Schedule.AdvanceCounters | quac_qiskit/simulators/schedule.py:36-38 | every touched qubit's counter becomes start + length, untouched counters are unchanged |
| Schedule.ScheduleNext | quac_qiskit/simulators/schedule.py:24-40 | one loop pass turns the counters after k instructions into those after k+1 and emits entry k of the program-order schedule, with `id` set to k |
| Schedule.SortByTime | quac_qiskit/simulators/schedule.py:42 | the result is a permutation of its input in nondecreasing start time with ties in program order (a stable sort) |
| Schedule.InsertionPoint | quac_qiskit/simulators/schedule.py:42 | the insertion position of the sort puts the entry after every entry with time not larger and before every later one |
| Schedule.InsertKeepsStablySorted | quac_qiskit/simulators/schedule.py:42 | inserting a later-program entry at that position keeps the list stably sorted |
| Schedule.InsertElements | quac_qiskit/simulators/schedule.py:42 | an insertion adds exactly one copy of the new entry and keeps every other entry |
| Schedule.ListScheduleCore | quac_qiskit/simulators/schedule.py:20-42 | the output is a stable sort by start time of the program-order schedule |
| Schedule.ListScheduleExperiment | quac_qiskit/simulators/schedule.py:11-47 | the older scheduler's output, with its gate lengths, is the stable sort of the program-order schedule |
| Schedule.ListScheduleGateProperty | qiskit/providers/quac/utils/schedule.py:13-45 | the provider's scheduler's output, with `gate_property` lengths and no `u1` override, is the stable sort of the program-order schedule |
| Schedule.LegacyLengths | quac_qiskit/simulators/schedule.py:26-34 | one length per instruction |
| Schedule.PropertyLengths | qiskit/providers/quac/utils/schedule.py:27-33 | one length per instruction |
| Schedule.NoScheduleExperiment | quac_qiskit/simulators/schedule.py:50-67 | instruction k is scheduled at 1 + 500·k, in program order, whatever its qubits |
| Schedule.MaxCounterBounds | quac_qiskit/simulators/schedule.py:31 | the maximum bounds every touched counter and equals one of them |
| Schedule.StartIsMaxOfCounters | quac_qiskit/simulators/schedule.py:31 | an instruction's start time is at least each of its qubits' counters and equal to one of them |
| Schedule.CountersAfterInstruction | quac_qiskit/simulators/schedule.py:36-38 | after instruction k, a touched qubit's counter is start + length and any other qubit's counter is unchanged |
| Schedule.CountersMonotone | quac_qiskit/simulators/schedule.py:36-38 | with nonnegative lengths, counters never decrease |
| Schedule.StartsNoEarlierThanOne | quac_qiskit/simulators/schedule.py:20 | with nonnegative lengths, no instruction starts before time 1 |
| Schedule.NoOverlapOnSharedQubit | quac_qiskit/simulators/schedule.py:31-40 | of two instructions sharing a qubit, the later one starts no earlier than the earlier one's start plus its length |
| Schedule.ScheduleKeepsEveryInstruction | quac_qiskit/simulators/schedule.py:25-42 | the output holds each instruction exactly once, with id = program index and its start time |
| Schedule.WorkedExample | quac_qiskit/simulators/schedule.py:20-40 | a hand-made example: with h = 50 ns, cx = 300 ns and free measures, h, cx, measure, measure start at 1, 51, 351, 351, so both measures share the final time |
| NoiseModel.NoDecoherenceIffAllInfinite | qiskit/providers/quac/models/noise_model.py:63-75 | `has_t1`/`has_t2` are false exactly for a non-empty list whose entries are all infinite; an empty list reports true |
| NoiseModel.NoiselessParams | qiskit/providers/quac/models/noise_model.py:138-145 | the noiseless model has n infinite T1 and n infinite T2 times |
| NoiseModel.NoiselessReportsNoNoise | qiskit/providers/quac/models/noise_model.py:63-89 | the noiseless model with n ≥ 1 reports no T1, T2, measurement or ZZ noise (with n = 0 the T1/T2 checks report true) |
| NoiseModel.RowFacts | qiskit/providers/quac/models/noise_model.py:312-314 | one inner loop visits exactly the pairs (q1, q2) with q1 < q2 < n, in increasing order |
| NoiseModel.PairsUpToFacts | qiskit/providers/quac/models/noise_model.py:312-314 | the first a outer iterations visit exactly the pairs with q1 < a and q1 < q2 < n, in lexicographic order |
| NoiseModel.PairsFacts | qiskit/providers/quac/models/noise_model.py:312-315 | the double loop visits exactly the pairs q1 < q2 < n, in strictly increasing lexicographic order |
| NoiseModel.PairsNonEmpty | qiskit/providers/quac/models/noise_model.py:312-315 | with two or more qubits there is at least one pair |
| NoiseModel.Diagonals | qiskit/providers/quac/models/noise_model.py:306-308 | two diagonal entries per measurement matrix |
| NoiseModel.DiagonalsAt | qiskit/providers/quac/models/noise_model.py:307-308 | entries 2q and 2q+1 are M_q[0][0] and M_q[1][1] |
| NoiseModel.ZZValues | qiskit/providers/quac/models/noise_model.py:310-315 | the ZZ block is the rates of the pairs in loop order; a missing pair raises `KeyError` |
| NoiseModel.ZZMap | qiskit/providers/quac/models/noise_model.py:284-291 | the rebuilt dictionary has exactly the visited pairs as keys |
| NoiseModel.ZZMapAt | qiskit/providers/quac/models/noise_model.py:288-291 | the i-th visited pair receives the i-th compressed value |
| NoiseModel.Shrunk | qiskit/providers/quac/models/noise_model.py:317 | dividing by 100000 keeps the length |
| NoiseModel.Scaled | qiskit/providers/quac/models/noise_model.py:261 | multiplying by 100000 keeps the length |
| NoiseModel.Encode | qiskit/providers/quac/models/noise_model.py:295-317 | `to_array` succeeds iff every needed ZZ pair is present, and its length is 2n + 2·(number of matrices) + (number of pairs) |
| NoiseModel.FromDiagonal | qiskit/providers/quac/models/noise_model.py:274-278 | the matrix rebuilt from [d0, d1] as [[d0, 1−d1], [1−d0, d1]] is column-stochastic |
| NoiseModel.DecodedMeas | qiskit/providers/quac/models/noise_model.py:271-278 | n matrices are rebuilt |
| NoiseModel.Decode | qiskit/providers/quac/models/noise_model.py:252-293 | `from_array` succeeds iff the length is 2n, 4n or at least 4n + n(n−1)/2 (else `IndexError`); meas is present iff the length is not 2n, ZZ iff neither 2n nor 4n |
| NoiseModel.ShrinkScale | qiskit/providers/quac/models/noise_model.py:261-317 | scaling up by 100000 undoes scaling down (exact over the reals) |
| NoiseModel.ScaledShrunk | qiskit/providers/quac/models/noise_model.py:261-317 | the same for whole lists |
| NoiseModel.DecodeEncode | qiskit/providers/quac/models/noise_model.py:252-317 | `from_array(to_array(m), n)` gives back m when m has n T1 and T2 times, column-stochastic matrices, all n(n−1)/2 pairs and no other keys, and ZZ only together with meas |
| NoiseModel.EncodeLayout | qiskit/providers/quac/models/noise_model.py:300-317 | `to_array` is t1s ++ t2s ++ diagonals ++ ZZ block, all divided by 100000 |
| NoiseModel.DecodeLayout | qiskit/providers/quac/models/noise_model.py:261-293 | decoding that layout gives the model back |
| NoiseModel.DecodedMeasOfDiagonals | qiskit/providers/quac/models/noise_model.py:271-278 | column-stochastic matrices are rebuilt exactly from their diagonals |
| NoiseModel.DecodedZZ | qiskit/providers/quac/models/noise_model.py:284-315 | rebuilding the dictionary from its own ZZ block gives it back |
| NoiseModel.ZZMapOfValues | qiskit/providers/quac/models/noise_model.py:284-291 | the rebuilt dictionary maps each pair to its value |
| NoiseModel.ZZWithoutMeasDoesNotRoundTrip | qiskit/providers/quac/models/noise_model.py:267-293 | a two-qubit model with ZZ but no measurement matrices encodes to 5 entries, which `from_array` cannot decode (`IndexError`) |
| NoiseModel.KronTwo | qiskit/providers/quac/models/noise_model.py:334-340 | the Kronecker product with a 2×2 factor doubles the dimension |
| NoiseModel.Identity | qiskit/providers/quac/models/noise_model.py:328 | the identity has the requested dimension |
| NoiseModel.ToOperator | qiskit/providers/quac/models/noise_model.py:335 | a measurement matrix is a 2×2 operator |
| NoiseModel.Factor | qiskit/providers/quac/models/noise_model.py:333-340 | every factor is 2×2 |
| NoiseModel.Expand | qiskit/providers/quac/models/noise_model.py:331-340 | after k factors the product has dimension 2^k |
| NoiseModel.FullMeas | qiskit/providers/quac/models/noise_model.py:330-341 | one operator per qubit, each 2^n × 2^n |
| NoiseModel.AgreeShift | qiskit/providers/quac/models/noise_model.py:331-340 | two indices agree outside one bit iff their lowest bits agree (unless skipped) and their halves agree outside the next bit |
| NoiseModel.ExpandIdentity | qiskit/providers/quac/models/noise_model.py:337-340 | before qubit q's own factor, the product is the identity |
| NoiseModel.ExpandClosedForm | qiskit/providers/quac/models/noise_model.py:330-341 | entry (i, j) of the product after k > q factors is M_q[bit][bit] at bit k−1−q when i and j agree on every other bit, else 0 |
| NoiseModel.KronIdentityEntry | qiskit/providers/quac/models/noise_model.py:338-340 | a Kronecker product with I₂ keeps the entry of the halved indices when the lowest bits agree, else 0 |
| NoiseModel.ExpandAtOwnPosition | qiskit/providers/quac/models/noise_model.py:333-336 | right after qubit q's own factor the entry is M_q on the lowest bit |
| NoiseModel.MeasOperatorActsOnBit | qiskit/providers/quac/models/noise_model.py:330-341 | qubit q's operator acts as M_q on bit n−1−q of the state index and as the identity on every other bit (qubit 0's factor is leftmost) |
| NoiseModel.QuacNoiseModel.constructor | qiskit/providers/quac/models/noise_model.py:32-36 | the fields hold the arguments and the expansion cache starts empty |
| NoiseModel.QuacNoiseModel.T1 | qiskit/providers/quac/models/noise_model.py:91-97 | `t1(q)` is T1 time q, and `IndexError` when q is out of range |
| NoiseModel.QuacNoiseModel.T2 | qiskit/providers/quac/models/noise_model.py:99-105 | `t2(q)` is T2 time q, and `IndexError` when q is out of range |
| NoiseModel.QuacNoiseModel.FlipProb | qiskit/providers/quac/models/noise_model.py:116-125 | `flip_prob(q, prep, meas)` is M_q[prep][meas] (row = prep), `TypeError` without matrices, `IndexError` out of range |
| NoiseModel.QuacNoiseModel.ZZ | qiskit/providers/quac/models/noise_model.py:127-136 | with an argument missing it returns the defined pairs, otherwise the pair's rate, or `KeyError` for an undefined pair |
| NoiseModel.QuacNoiseModel.ToArray | qiskit/providers/quac/models/noise_model.py:295-317 | the append loops compute exactly `Encode` of the model, which is left unchanged |
| NoiseModel.QuacNoiseModel.BuildFullMeasurementMatrices | qiskit/providers/quac/models/noise_model.py:319-343 | without matrices it returns n identities of size n and caches nothing; otherwise it caches `FullMeas` and returns nothing |
| NoiseModel.QuacNoiseModel.Meas | qiskit/providers/quac/models/noise_model.py:107-114 | the cache is built only when empty, and the cache is returned (empty when there are no matrices) |
| NoiseModel.MeasDiagonals | qiskit/providers/quac/models/noise_model.py:306-308 | the loop appends exactly the diagonals |
| NoiseModel.OrderedZZRates | qiskit/providers/quac/models/noise_model.py:310-315 | the nested loops compute exactly the ZZ block, or `KeyError` |
| NoiseModel.RowRates | qiskit/providers/quac/models/noise_model.py:313-315 | one inner loop appends the rates of row q1, or fails with `KeyError` on a missing pair of that row |
| NoiseModel.RowRatesStep | qiskit/providers/quac/models/noise_model.py:314-315 | one inner iteration appends the pair's rate exactly when q1 < q2 |
| NoiseModel.RowStep | qiskit/providers/quac/models/noise_model.py:313-314 | extending a row by one column appends (q1, b) exactly when q1 < b |
| NoiseModel.ZZValuesSnoc | qiskit/providers/quac/models/noise_model.py:315 | appending a pair appends its rate, or fails with `KeyError` |
| NoiseModel.ZZMapSnoc | qiskit/providers/quac/models/noise_model.py:290-291 | one more pair stores the next compressed value |
| NoiseModel.FromArray | qiskit/providers/quac/models/noise_model.py:252-293 | the loops compute exactly `Decode` |
| NoiseModel.RebuildMeasMatrices | qiskit/providers/quac/models/noise_model.py:271-278 | matrix q is rebuilt from diagonal entries 2q and 2q+1; too few entries raise `IndexError` |
| NoiseModel.RebuildZZ | qiskit/providers/quac/models/noise_model.py:284-291 | the dictionary maps the k-th pair to the k-th compressed value; too few values raise `IndexError` |
| NoiseModel.RebuildRow | qiskit/providers/quac/models/noise_model.py:288-291 | one outer iteration stores row q1 and advances `zz_ind` by the row's length, or raises `IndexError` |
| NoiseModel.PairsPrefixLength | qiskit/providers/quac/models/noise_model.py:287-291 | `zz_ind` never passes the total number of pairs |
| NoiseModel.RowLengthMonotone | qiskit/providers/quac/models/noise_model.py:288-289 | a longer row has at least as many pairs |
| NoiseModel.PairsUpToLengthMonotone | qiskit/providers/quac/models/noise_model.py:287-289 | more outer iterations visit at least as many pairs |
| NoiseModel.MissingPairFails | qiskit/providers/quac/models/noise_model.py:315 | a missing pair q1 < q2 < n makes `to_array` raise `KeyError` |
| Sampling.FirstCoveringFrom | qiskit/providers/quac/utils/math.py:23-27 | the loop's answer is the first index i with prefix(i) ≤ draw < prefix(i+1), or none when no interval holds the draw |
| Sampling.ChooseIndex | qiskit/providers/quac/utils/math.py:11-30 | the running-sum loop returns the first covering index, else the fallback (0 here and in quac_qiskit/stat/util.py, −1 in qiskit/providers/quac/utils/prob.py) |
| Sampling.ZeroProbabilityNeverCovers | qiskit/providers/quac/utils/math.py:24-25 | an index of probability 0 never satisfies the interval test |
| Sampling.ZeroProbabilityNeverChosen | quac_qiskit/stat/util.py:22-29 | an index of probability 0 is only returned as the fallback |
| Sampling.ChosenInRangeFallbackZero | qiskit/providers/quac/utils/math.py:23-30 | with fallback 0 the result is a valid index of a non-empty list, and 0 for an empty one |
| Sampling.ChosenFallbackMinusOne | qiskit/providers/quac/utils/prob.py:22-28 | with fallback −1 the result lies in [−1, len), and is −1 exactly when no interval holds the draw |
| Sampling.CoveredWhenInRange | qiskit/providers/quac/utils/math.py:23-27 | with nonnegative probabilities, a draw in [0, total) is always covered by some interval |
| Correction.Apply | quac_qiskit/simulators/quac_density_simulator.py:66 | a left-multiplication keeps the vector's length |
| Correction.ApplyAll | quac_qiskit/simulators/quac_density_simulator.py:65-66 | applying the operators in qubit order keeps the vector's length |
| Correction.CorrectAll | quac_qiskit/simulators/quac_density_simulator.py:63-66 | the loop left-multiplies the vector by each operator of `meas()` in turn, i.e. computes `ApplyAll` |
| Correction.IdentityRow | qiskit/providers/quac/models/noise_model.py:328 | row i of the identity picks entry i |
| Correction.ApplyIdentity | qiskit/providers/quac/models/noise_model.py:328 | the identity leaves the vector unchanged |
| Correction.ColumnsGainRow | quac_qiskit/simulators/quac_density_simulator.py:66 | summing by columns over one more row adds that row's total |
| Correction.SwapSums | quac_qiskit/simulators/quac_density_simulator.py:66 | the sum of a finite table by rows equals its sum by columns |
| Correction.NoRows | quac_qiskit/simulators/quac_density_simulator.py:66 | an empty table sums to 0 |
| Correction.ColumnOfTerms | quac_qiskit/simulators/quac_density_simulator.py:66 | column j of the product terms is the column total of the matrix times v[j] |
| Correction.StochasticColumns | quac_qiskit/simulators/quac_density_simulator.py:66 | for a column-stochastic matrix each column of the terms sums to v[j] |
| Correction.SumOfRows | quac_qiskit/simulators/quac_density_simulator.py:66 | the product's total is the sum of the terms by rows |
| Correction.ApplyPreservesTotal | quac_qiskit/simulators/quac_density_simulator.py:66 | a column-stochastic matrix preserves the vector's total |
| Correction.ApplyAllPreservesTotal | quac_qiskit/simulators/quac_density_simulator.py:65-66 | a sequence of column-stochastic operators preserves the total |
| Correction.KronColumn | qiskit/providers/quac/models/noise_model.py:334-340 | a column total of a Kronecker product factors into the two column totals |
| Correction.KronStochastic | qiskit/providers/quac/models/noise_model.py:334-340 | the Kronecker product of column-stochastic factors is column-stochastic |
| Correction.MatrixStochastic | qiskit/providers/quac/models/noise_model.py:25-28 | a column-stochastic measurement matrix is a column-stochastic 2×2 operator |
| Correction.ExpandStochastic | qiskit/providers/quac/models/noise_model.py:330-340 | every partial Kronecker product of a column-stochastic M_q is column-stochastic |
| Correction.MeasCorrectionPreservesTotal | quac_qiskit/simulators/quac_density_simulator.py:63-66 | correcting a 2^n vector by all of `meas()` preserves its total when every M_q is column-stochastic |
| ResultFormat.LastWriter | quac_qiskit/simulators/quac_density_simulator.py:75-79 | the last qubit (in loop order) listing a slot is found, or none lists it |
| ResultFormat.SlotValueIsLastWriter | quac_qiskit/simulators/quac_density_simulator.py:73-79 | a slot holds the outcome of the highest-indexed qubit that writes it, or "0" |
| ResultFormat.Register | quac_qiskit/simulators/quac_density_simulator.py:73-79 | the register has `memory_slots` characters |
| ResultFormat.WriteOutcomes | quac_qiskit/simulators/quac_density_simulator.py:73-79 | writing into a zeroed register succeeds iff every listed slot is in range (else `IndexError`), and then the register is `Register` |
| ResultFormat.ReverseInPlace | quac_qiskit/simulators/quac_density_simulator.py:81 | `reverse()` leaves the reversal of the old contents |
| ResultFormat.RegisterBinary | quac_qiskit/simulators/quac_density_simulator.py:73-79 | a register filled from a binary outcome is binary |
| ResultFormat.ReverseBinary | quac_qiskit/simulators/quac_density_simulator.py:81 | reversal keeps a string binary |
| ResultFormat.RegisterKey | quac_qiskit/simulators/quac_density_simulator.py:70-82 | the key loop computes `StateKey`: pad, write slots, reverse, parse |
| ResultFormat.LsbValueBit | quac_qiskit/simulators/quac_density_simulator.py:81-82 | after the reversal, slot s is bit s of the key's value (Σ reg[s]·2^s) |
| ResultFormat.RegisterSlotOf | quac_qiskit/simulators/quac_density_simulator.py:75-79 | slot s of the register is the last writer's outcome, or "0" |
| ResultFormat.PaddedRegisterSlot | quac_qiskit/simulators/quac_density_simulator.py:70-79 | the same for the zero-padded binary form of a state index |
| ResultFormat.RegisterSlot | quac_qiskit/simulators/quac_density_simulator.py:70-79 | slot s holds bit n−1−q of the state index, q its last writer, or "0" when unwritten |
| ResultFormat.RegisterValueBit | quac_qiskit/simulators/quac_density_simulator.py:81-82 | bit s of the key's value is register character s |
| ResultFormat.StateKeyBit | quac_qiskit/simulators/quac_density_simulator.py:69-82 | bit s of a state's key is bit n−1−q of the state, q the slot's last writer, and 0 when no qubit writes the slot |
| ResultFormat.DirectMap | qiskit/providers/quac/simulators/quac_counts_simulator.py:73-75 | the direct mapping sends each qubit q < n to slot q only |
| ResultFormat.DirectMapInRange | qiskit/providers/quac/simulators/quac_counts_simulator.py:73-75 | the direct mapping writes only slots in range |
| ResultFormat.DirectMapLastWriter | qiskit/providers/quac/simulators/quac_counts_simulator.py:73-75 | under it slot s is written last by qubit s |
| ResultFormat.DirectMapKeyExists | qiskit/providers/quac/simulators/quac_counts_simulator.py:67-78 | under it every state has a key |
| ResultFormat.DirectMappingReversesBits | quac_qiskit/simulators/quac_density_simulator.py:68-82 | under it bit s of the key is bit n−1−s of the state: the key is the state with its bits reversed |
| ResultFormat.Find | quac_qiskit/simulators/quac_density_simulator.py:84 | a dictionary lookup finds the key's position, or reports it absent |
| ResultFormat.WeightOfSnoc | quac_qiskit/simulators/quac_density_simulator.py:84 | one more state adds its probability to its own key only |
| ResultFormat.AddAmountStep | quac_qiskit/simulators/quac_density_simulator.py:84 | `frequencies[key] += prob` keeps the table equal to the per-key sums and adds prob to the total |
| ResultFormat.AddToPresent | quac_qiskit/simulators/quac_density_simulator.py:84 | the same when the key is present |
| ResultFormat.AddAbsent | quac_qiskit/simulators/quac_density_simulator.py:84 | the same when the key is new (a `defaultdict` entry starting at 0) |
| ResultFormat.WeightOfAbsent | quac_qiskit/simulators/quac_density_simulator.py:84 | a key no state maps to has weight 0 |
| ResultFormat.CountOfSnoc | qiskit/providers/quac/simulators/quac_counts_simulator.py:80 | one more shot counts for its own key only |
| ResultFormat.AddShotStep | qiskit/providers/quac/simulators/quac_counts_simulator.py:80 | `frequencies[key] += 1` keeps the table equal to the per-key shot counts and adds 1 to the total |
| ResultFormat.ShotToPresent | qiskit/providers/quac/simulators/quac_counts_simulator.py:80 | the same when the key is present |
| ResultFormat.ShotAbsent | qiskit/providers/quac/simulators/quac_counts_simulator.py:80 | the same when the key is new |
| ResultFormat.CountOfAbsent | qiskit/providers/quac/simulators/quac_counts_simulator.py:80 | an unsampled key has count 0 |
| ResultFormat.SumIntAddAt | qiskit/providers/quac/simulators/quac_counts_simulator.py:80 | incrementing one entry adds to the total |
| ResultFormat.CountOfPresent | qiskit/providers/quac/simulators/quac_counts_simulator.py:80 | a sampled key has count at least 1 |
| ResultFormat.KeysOf | quac_qiskit/simulators/quac_density_simulator.py:69-82 | the keys of all states succeed iff each does, one per state in order |
| ResultFormat.Indices | quac_qiskit/simulators/quac_density_simulator.py:69 | `range(count)` |
| ResultFormat.IndicesPrefix | quac_qiskit/simulators/quac_density_simulator.py:69 | a prefix of `range(count)` is a shorter range |
| ResultFormat.DensityCounts | quac_qiskit/simulators/quac_density_simulator.py:58-84 | the table holds, per key, the sum of the probabilities of the states with that key (a key is present even when its probability is 0), its total equals the vector's total, and the first failing state's error is raised |
| ResultFormat.WeighState | quac_qiskit/simulators/quac_density_simulator.py:69-84 | one pass adds state's probability to its key, keeping the table and its total in step |
| ResultFormat.AddWeightAt | quac_qiskit/simulators/quac_density_simulator.py:84 | adding the next probability extends the table to one more state |
| ResultFormat.KeysOfStep | quac_qiskit/simulators/quac_density_simulator.py:69-82 | one more successful state appends its key |
| ResultFormat.KeysOfFailureSticks | quac_qiskit/simulators/quac_density_simulator.py:69-82 | the first failing state's error ends the loop |
| ResultFormat.ShotKey | qiskit/providers/quac/simulators/quac_counts_simulator.py:67-78 | one shot's key is the key of the index `choose_index` picks for its draw |
| ResultFormat.ShotCounts | qiskit/providers/quac/simulators/quac_counts_simulator.py:56-80 | the table counts, per key, the shots whose draw leads to that key; the counts sum to the number of shots; an error of a shot is raised |
| ResultFormat.CountShot | qiskit/providers/quac/simulators/quac_counts_simulator.py:65-80 | one shot adds 1 to its key's count |
| ResultFormat.CountShotAt | qiskit/providers/quac/simulators/quac_counts_simulator.py:80 | one more successful shot extends the table to one more draw |
| ResultFormat.CountsPositive | qiskit/providers/quac/simulators/quac_counts_simulator.py:56-85 | only sampled keys appear, each with a positive count |
| Jobs.Selected | quac_qiskit/simulators/quac_density_simulator.py:50-52 | a job uses the backend's noise model unless one is injected through `run_config` |
| Jobs.DensityExperiment | quac_qiskit/simulators/quac_density_simulator.py:56-94 | one experiment's entry carries its name, the shot count and the density counts of the measurement-corrected probabilities; it fails iff some state has no register key |
| Jobs.EntriesSnoc | quac_qiskit/simulators/quac_density_simulator.py:86-94 | appending one more entry keeps the results aligned with the experiments |
| Jobs.DensityExperiments | quac_qiskit/simulators/quac_density_simulator.py:54-94 | the results hold one entry per experiment, in order, each as `DensityExperiment` describes; an error comes from some experiment |
| Jobs.RunDensityJob | quac_qiskit/simulators/quac_density_simulator.py:37-107 | the density job runs every experiment with the selected noise model |
| Jobs.CountsExperiment | qiskit/providers/quac/simulators/quac_counts_simulator.py:52-90 | one experiment's entry tallies the register keys of its shots over the (optionally error-multiplied) probabilities; it fails iff some shot has no key |
| Jobs.CountsEntriesSnoc | qiskit/providers/quac/simulators/quac_counts_simulator.py:82-90 | appending one more entry keeps the results aligned with the experiments |
| Jobs.RunCountsJob | qiskit/providers/quac/simulators/quac_counts_simulator.py:39-103 | the results hold one entry per experiment, in order, each as `CountsExperiment` describes; an error comes from some experiment |
| Simulator.QuacSimulator.constructor | qiskit/providers/quac/simulators/quac_simulator.py:26-43 | the hardware is specified iff both a configuration and properties are given; otherwise the generic configuration and no properties are used |
| Simulator.Translate | qiskit/providers/quac/simulators/quac_simulator.py:139-180 | each gate name becomes its QuaC call with the right qubits and angles (`cx`→`cnot`, `id`→`i`, one or two qubits, up to three angles); a missing qubit or angle is an `IndexError` |
| Simulator.Kept | qiskit/providers/quac/simulators/quac_simulator.py:115-119 | the instructions sent to QuaC are indices below k |
| Simulator.KeptAreTheSentInstructions | qiskit/providers/quac/simulators/quac_simulator.py:115-119 | exactly the instructions other than `measure` and `barrier` are sent, in program order |
| Simulator.KeptAreSent | qiskit/providers/quac/simulators/quac_simulator.py:117-119 | no `measure` or `barrier` is sent |
| Simulator.KeptIncreasing | qiskit/providers/quac/simulators/quac_simulator.py:115 | sent instructions keep program order |
| Simulator.KeptComplete | qiskit/providers/quac/simulators/quac_simulator.py:115-119 | every other instruction is sent |
| Simulator.KeptLengthsAreLengths | qiskit/providers/quac/simulators/quac_simulator.py:128-136 | the lengths accumulated are the gate lengths of the sent instructions |
| Simulator.LengthsOfSnoc | qiskit/providers/quac/simulators/quac_simulator.py:136 | one more sent instruction adds its own length |
| Simulator.BuildCircuit | qiskit/providers/quac/simulators/quac_simulator.py:114-180 | the gate loop computes the circuit the step function describes over all instructions |
| Simulator.AddInstruction | qiskit/providers/quac/simulators/quac_simulator.py:116-180 | one loop pass skips, looks up a time, or fails as the step function describes |
| Simulator.CircuitFailureSticks | qiskit/providers/quac/simulators/quac_simulator.py:122-137 | an exception ends the loop: later instructions do not change the outcome |
| Simulator.GatesAreKeptInstructions | qiskit/providers/quac/simulators/quac_simulator.py:139-180 | the gates added are the translations of the sent instructions, in order |
| Simulator.TranslatedSnoc | qiskit/providers/quac/simulators/quac_simulator.py:139-180 | adding one more translated gate keeps that correspondence |
| Simulator.StepAppendsTranslation | qiskit/providers/quac/simulators/quac_simulator.py:116-180 | a pass adds nothing for a skipped instruction and one translated gate otherwise |
| Simulator.ExplicitGateTimes | qiskit/providers/quac/simulators/quac_simulator.py:122-126 | with `gate_times` given, the circuit time stays 0 and the j-th sent gate runs at `gate_times[i]`, i its instruction index |
| Simulator.NotEnoughGateTimes | qiskit/providers/quac/simulators/quac_simulator.py:122-126 | with `gate_times` given, building succeeds iff every sent instruction's index is within the list, and fails with "Not enough gate times specified!" otherwise |
| Simulator.CoverStep | qiskit/providers/quac/simulators/quac_simulator.py:123-126 | the coverage condition grows one instruction at a time |
| Simulator.ExplicitStep | qiskit/providers/quac/simulators/quac_simulator.py:123-126 | one pass with `gate_times` succeeds iff the instruction is skipped or its index is within the list |
| Simulator.StepsByLengthSnoc | qiskit/providers/quac/simulators/quac_simulator.py:137 | the next gate runs one gate length after the previous one |
| Simulator.ChainedGateTimes | qiskit/providers/quac/simulators/quac_simulator.py:127-137 | without `gate_times`, the first gate runs at 1, each later gate its own length after the previous one, the circuit time is the sum of the lengths, and gates exist only when instruction 0 is sent |
| Simulator.ChainStep | qiskit/providers/quac/simulators/quac_simulator.py:127-137 | one pass keeps that chain |
| Simulator.ChainAppend | qiskit/providers/quac/simulators/quac_simulator.py:136-137 | one more gate extends the chain |
| Simulator.ChainSnoc | qiskit/providers/quac/simulators/quac_simulator.py:136-137 | the chain extended by one length |
| Simulator.ChainAppendTotal | qiskit/providers/quac/simulators/quac_simulator.py:136 | the running total stays the sum of the lengths |
| Simulator.ChainedStepShape | qiskit/providers/quac/simulators/quac_simulator.py:127-180 | a successful pass adds one gate at 1 (first instruction) or at the previous time plus the length |
| Simulator.LeadingSkipLeavesGateTimeUnbound | qiskit/providers/quac/simulators/quac_simulator.py:117-137 | when the first instruction is a `measure` or `barrier` and no `gate_times` are given, the next gate reads an unset `gate_time`: an `UnboundLocalError` |
| Simulator.UnboundBeforeFirstGate | qiskit/providers/quac/simulators/quac_simulator.py:115-119 | leading skipped instructions change nothing |
| Simulator.QubitRates | qiskit/providers/quac/simulators/quac_simulator.py:186-198 | QuaC receives 1/T1 and 1/T2, from the hardware (in ns) or the `lindblad` dictionary; a zero time is a `ZeroDivisionError` |
| Simulator.LindbladOverridesHardware | qiskit/providers/quac/simulators/quac_simulator.py:188-194 | a non-empty `lindblad` dictionary overrides the hardware properties |
| Simulator.AddLindbladNoise | qiskit/providers/quac/simulators/quac_simulator.py:186-198 | the noise loop adds emission then dephasing for every qubit in order, and raises the first qubit's error |
| Simulator.TimeStep | qiskit/providers/quac/simulators/quac_simulator.py:207-210 | a falsy `time_step` becomes 10 ns |
| Simulator.GatesEndBeforeSimulation | qiskit/providers/quac/simulators/quac_simulator.py:200-205 | with nondecreasing `gate_times` and no `simulation_length`, every gate starts before the simulation ends |
| Simulator.QuacSimulator.RunExperiment | qiskit/providers/quac/simulators/quac_simulator.py:89-217 | an experiment without hardware or `lindblad` is a `QuacOptionsError`; a circuit error is raised as is; otherwise the engine receives, in order, the qubits, each qubit's emission and dephasing, the density matrix, the circuit and a run of the default or given length and time step; success iff every qubit's rates exist |
| Dist.RemoveSpaces | qiskit/providers/quac/format/dist.py:18-21 | removing spaces never lengthens a key |
| Dist.RemoveSpacesNoSpaces | qiskit/providers/quac/format/dist.py:21 | a key without spaces is unchanged |
| Dist.CountsPrefix | qiskit/providers/quac/format/dist.py:19-22 | after k entries the list still has 2^width slots |
| Dist.CountsToList | qiskit/providers/quac/format/dist.py:12-23 | the loop computes `CountsList`: zeros of size 2^(first key's width), each entry stored at its key's binary value |
| Dist.StoreCount | qiskit/providers/quac/format/dist.py:20-22 | one pass stores an entry at its index or raises the entry's error (`ValueError` for a non-binary key, `IndexError` for a too wide one) |
| Dist.CountsFailureSticks | qiskit/providers/quac/format/dist.py:20-22 | an exception ends the loop |
| Dist.CountsPrefixSuccess | qiskit/providers/quac/format/dist.py:20-22 | the loop succeeds iff every key (spaces removed) is a binary number below 2^width |
| Dist.CountsPrefixSlot | qiskit/providers/quac/format/dist.py:19-22 | slot j holds the count of the last entry whose key is j, or 0 |
| Dist.LastCountOfUniqueKey | qiskit/providers/quac/format/dist.py:22 | when one entry is the last with key j, slot j holds its count |
| Dist.CountsListMeaning | qiskit/providers/quac/format/dist.py:12-23 | an empty dictionary is an `IndexError`; otherwise success iff every key fits the first key's width, and then slot j holds the count of key j or 0 |
| Dist.CountsListWide | qiskit/providers/quac/format/dist.py:18-22 | a list that `counts_to_list` returns has at least two entries, since `int(s, 2)` needs at least one binary digit |
| Dist.CountsListFullExample | test/formatting_test.py:21-28 | {00:3, 01:5, 10:12, 11:18} becomes [3, 5, 12, 18] |
| Dist.CountsListAbsentExample | test/formatting_test.py:30-35 | {01:5, 10:12, 11:18} becomes [0, 5, 12, 18] |
| Dist.Normalize | qiskit/providers/quac/format/dist.py:37 | dividing by the sum keeps the length, and fails (`ZeroDivisionError`) iff the list is non-empty with sum 0 |
| Dist.Ratios | qiskit/providers/quac/format/dist.py:37 | one ratio per element |
| Dist.RatiosAt | qiskit/providers/quac/format/dist.py:37 | each ratio times the total gives back its element |
| Dist.SumRatios | qiskit/providers/quac/format/dist.py:37 | the ratios sum to the sum divided by the total |
| Dist.NormalizeProportional | qiskit/providers/quac/format/dist.py:37 | each normalised entry times the sum is the original count |
| Dist.NormalizeSumsToOne | qiskit/providers/quac/format/dist.py:37 | a normalised list sums to 1 |
| Dist.CountsToDist | qiskit/providers/quac/format/dist.py:26-38 | the function computes `CountsDist`: `counts_to_list` followed by division by the sum |
| Dist.CountsDistSumsToOne | qiskit/providers/quac/format/dist.py:26-38 | a distribution sums to 1, and fails with `ZeroDivisionError` exactly when all counts are 0 |
| Dist.ZeroTableKeys | qiskit/providers/quac/format/dist.py:85-87 | the initial table has exactly the given keys |
| Dist.AggregateCountsResults | qiskit/providers/quac/format/dist.py:78-93 | the loops compute `Aggregate`: a zero table over the keys, then every entry of every dictionary added in |
| Dist.ZeroTableOf | qiskit/providers/quac/format/dist.py:85-87 | the first loop builds the zero table |
| Dist.AddCounts | qiskit/providers/quac/format/dist.py:90-91 | the inner loop adds one dictionary's entries, or raises `KeyError` |
| Dist.AddEntriesAppend | qiskit/providers/quac/format/dist.py:89-91 | adding two lists of entries is adding one then the other |
| Dist.AggregateFailureSticks | qiskit/providers/quac/format/dist.py:89-91 | a `KeyError` ends the loops |
| Dist.FlattenGrows | qiskit/providers/quac/format/dist.py:89-90 | the entries visited so far are a prefix of all entries |
| Dist.AddEntriesFailureSticks | qiskit/providers/quac/format/dist.py:90-91 | a `KeyError` ends the inner loop |
| Dist.AddEntriesMeaning | qiskit/providers/quac/format/dist.py:90-91 | adding succeeds iff every key is in the table; the keys stay the same and each key gains the total of its counts |
| Dist.TotalAppend | qiskit/providers/quac/format/dist.py:91 | the total of a key over two lists is the sum of the totals |
| Dist.TotalFlatten | qiskit/providers/quac/format/dist.py:89-91 | the total over the flattened dictionaries is the sum of the per-dictionary totals |
| Dist.AggregateMeaning | qiskit/providers/quac/format/dist.py:78-93 | success iff every counted key is among `keys`; then the result has exactly `keys` and each holds the total of its counts over all dictionaries; otherwise `KeyError` |
| Dist.AddEntriesKeyError | qiskit/providers/quac/format/dist.py:91 | the only error is `KeyError` |
| Dist.AggregateExample | test/formatting_test.py:77-85 | the three dictionaries aggregate to {00:31, 01:87, 10:33, 11:43} |
| Dist.FloorLog2 | qiskit/providers/quac/format/dist.py:53 | `int(math.log2(n))` is the k with 2^k ≤ n < 2^(k+1) |
| Dist.PaddedState | qiskit/providers/quac/format/dist.py:56 | `bin(i)[2:].zfill(n)` has the digits' length, or n when longer |
| Dist.LastChars | qiskit/providers/quac/format/dist.py:56 | `s[-m:]` is the whole string for m = 0 or m ≥ len, else m characters |
| Dist.PaddedStateBinary | qiskit/providers/quac/format/dist.py:56 | the padded string is binary and denotes i |
| Dist.PaddedStateShortest | qiskit/providers/quac/format/dist.py:56 | the padded string of 0 is the shortest |
| Dist.ScatterPrefix | qiskit/providers/quac/format/dist.py:55-62 | after k states the list still has its size |
| Dist.ScatterFailureSticks | qiskit/providers/quac/format/dist.py:55-62 | an exception ends the loop |
| Dist.ScatterSuccess | qiskit/providers/quac/format/dist.py:55-62 | the loop succeeds iff every state's target index is computed and in range |
| Dist.ScatterStep | qiskit/providers/quac/format/dist.py:62 | one state adds its probability at its target |
| Dist.ScatterMass | qiskit/providers/quac/format/dist.py:55-62 | the entries sum to the probabilities seen |
| Dist.ScatterEntry | qiskit/providers/quac/format/dist.py:55-62 | entry j is the mass of the states sent to j |
| Dist.AccumulateAt | qiskit/providers/quac/format/dist.py:62 | `filtered_probs[ind] += prob` is one scatter step |
| Dist.SuffixStateIndex | qiskit/providers/quac/format/dist.py:56-61 | the index loop computes `SuffixIndex` |
| Dist.SuffixIndexMeaning | qiskit/providers/quac/format/dist.py:56-61 | the index exists iff 1 ≤ non_ancilla ≤ the padded width, and is i mod 2^non_ancilla: the non-ancilla (least significant) bits |
| Dist.SuffixOfBinary | qiskit/providers/quac/format/dist.py:56 | a suffix of a binary string is binary |
| Dist.SuffixTargets | qiskit/providers/quac/format/dist.py:55-61 | one target per state |
| Dist.SuffixTargetsAt | qiskit/providers/quac/format/dist.py:55-61 | target i is state i's index |
| Dist.QiskitStatevectorToProbabilities | qiskit/providers/quac/format/dist.py:42-64 | the loop computes `FoldedProbabilities` |
| Dist.FoldAll | qiskit/providers/quac/format/dist.py:55-62 | the loop over all states computes the scatter |
| Dist.FoldState | qiskit/providers/quac/format/dist.py:56-62 | one pass adds a state's probability or raises the error that ends the loop |
| Dist.MassAtResidue | qiskit/providers/quac/format/dist.py:56-62 | when each state goes to i mod M, entry j is the mass of states ≡ j mod M |
| Dist.FoldedProbabilitiesMeaning | qiskit/providers/quac/format/dist.py:42-64 | success iff the vector is non-empty and 1 ≤ non_ancilla (≤ log2 len unless it is 1); then the 2^non_ancilla entries keep the total mass and entry j is the mass of the states whose low bits are j |
| Dist.SuffixTargetsResidue | qiskit/providers/quac/format/dist.py:56-61 | in range, state i goes to i mod 2^non_ancilla |
| Dist.SuffixTargetsFirst | qiskit/providers/quac/format/dist.py:56-61 | out of range, state 0 already fails |
| Dist.ResidueScatter | qiskit/providers/quac/format/dist.py:55-62 | scattering by residue succeeds, keeps the total and fills entry j with the residue class mass |
| Dist.ScatterSummary | qiskit/providers/quac/format/dist.py:55-62 | a successful scatter keeps the total and entry j is the mass sent to j |
| Dist.PlacePrefix | qiskit/providers/quac/utils/formatting.py:78-80 | the mapped state keeps non_ancilla slots |
| Dist.PlaceFailureSticks | qiskit/providers/quac/utils/formatting.py:79-80 | an exception ends the placing loop |
| Dist.JoinSlots | qiskit/providers/quac/utils/formatting.py:81 | a join of filled slots has one character per slot |
| Dist.MappedStateIndex | qiskit/providers/quac/utils/formatting.py:76-82 | the index computation for one state computes `MeasIndex` |
| Dist.PlaceQubits | qiskit/providers/quac/utils/formatting.py:78-80 | the placing loop computes `PlacePrefix` |
| Dist.PlacePrefixSuccess | qiskit/providers/quac/utils/formatting.py:79-80 | placing succeeds iff every qubit has a character, a mapping and a slot in range |
| Dist.PlacePrefixFilled | qiskit/providers/quac/utils/formatting.py:78-80 | a slot is filled iff some qubit maps to it, and then with a binary character |
| Dist.PlacePrefixWrites | qiskit/providers/quac/utils/formatting.py:80 | a slot holds the character of the last qubit mapped to it |
| Dist.JoinSlotsMeaning | qiskit/providers/quac/utils/formatting.py:81 | `''.join` succeeds iff no slot kept the integer 0, and then spells the slots |
| Dist.ReversedSuffix | qiskit/providers/quac/utils/formatting.py:76-77 | the reversed suffix has non_ancilla binary characters |
| Dist.MeasIndexSuccess | qiskit/providers/quac/utils/formatting.py:75-82 | the index exists iff non_ancilla is in range and the mapping maps every qubit into, and covers, the slots; it is then below 2^non_ancilla |
| Dist.MeasIndexBound | qiskit/providers/quac/utils/formatting.py:82-83 | the index fits the output list |
| Dist.ReversedSuffixBit | qiskit/providers/quac/utils/formatting.py:76-77 | character q of the reversed suffix is bit q of the state |
| Dist.PaddedCharFromEnd | qiskit/providers/quac/utils/formatting.py:76 | character q from the end of the padded state is bit q |
| Dist.MeasStateSlot | qiskit/providers/quac/utils/formatting.py:79-80 | an injective mapping puts qubit q's character in slot `meas_mappings[q]` |
| Dist.MeasStateChar | qiskit/providers/quac/utils/formatting.py:76-80 | that character is bit q of the state |
| Dist.MeasStateBinary | qiskit/providers/quac/utils/formatting.py:76-81 | the mapped state is a binary string of non_ancilla characters |
| Dist.MeasIndexBit | qiskit/providers/quac/utils/formatting.py:76-82 | for an injective mapping, bit (non_ancilla−1−meas_mappings[q]) of the index is bit q of the state |
| Dist.MeasTargetsAt | qiskit/providers/quac/utils/formatting.py:75-82 | target i is state i's mapped index |
| Dist.MeasTargets | qiskit/providers/quac/utils/formatting.py:75-82 | one target per state |
| Dist.MappedStatevectorToProbabilities | qiskit/providers/quac/utils/formatting.py:62-85 | the function computes `MappedProbabilities` |
| Dist.MapAll | qiskit/providers/quac/utils/formatting.py:75-83 | the loop over all states computes the scatter |
| Dist.MapState | qiskit/providers/quac/utils/formatting.py:76-83 | one pass adds a state's probability or raises the error that ends the loop |
| Dist.MappedProbabilitiesMeaning | qiskit/providers/quac/utils/formatting.py:62-85 | success iff the vector is non-empty, non_ancilla is in range and the mapping maps and covers the slots; then the output keeps the total mass and entry j is the mass of the states mapped to j |
| Dist.MeasTargetsFit | qiskit/providers/quac/utils/formatting.py:75-82 | under those conditions every state has an index in range |
| Dist.MeasTargetsFirst | qiskit/providers/quac/utils/formatting.py:75-82 | when state 0 has an index, the conditions hold |
| Bits.Pow2 | quac_qiskit/simulators/quac_density_simulator.py:69 | 2^n is at least 1 |
| Bits.Bit | quac_qiskit/simulators/quac_density_simulator.py:70 | a bit of a number is 0 or 1 |
| Bits.BinDigits | quac_qiskit/simulators/quac_density_simulator.py:70 | `bin(k)[2:]` is a non-empty binary string |
| Bits.ZFill | quac_qiskit/simulators/quac_density_simulator.py:72 | `zfill(w)` pads to width w (or keeps a longer string) and ends with the original |
| Bits.ParseBinary | quac_qiskit/simulators/quac_density_simulator.py:82 | `int(s, 2)` succeeds iff s is a non-empty binary string |
| Bits.Reverse | quac_qiskit/simulators/quac_density_simulator.py:81 | `reverse()` keeps the length |
| Bits.ReverseAt | quac_qiskit/simulators/quac_density_simulator.py:81 | element k of the reversal is element len−1−k of the original |
| Bits.BinValueAppend | quac_qiskit/simulators/quac_density_simulator.py:82 | the value of a concatenation shifts the first part by the second's width |
| Bits.BinValueBound | quac_qiskit/simulators/quac_density_simulator.py:82 | a binary string of width w denotes a value below 2^w |
| Bits.BinValueZeros | quac_qiskit/simulators/quac_density_simulator.py:73-82 | an all-"0" register denotes 0 |
| Bits.ZFillValue | quac_qiskit/simulators/quac_density_simulator.py:72 | zero padding keeps the value |
| Bits.ZFillBinary | quac_qiskit/simulators/quac_density_simulator.py:72 | zero padding keeps a string binary |
| Bits.BinDigitsValue | quac_qiskit/simulators/quac_density_simulator.py:70 | `bin(k)[2:]` denotes k: `int(bin(k)[2:], 2) == k` |
| Bits.BinDigitsLength | quac_qiskit/simulators/quac_density_simulator.py:70-72 | k has at most w binary digits iff k < 2^w, so `zfill(w)` does not widen it |
| Bits.CharIsBit | quac_qiskit/simulators/quac_density_simulator.py:70-75 | character q of a binary string is bit len−1−q of its value (most significant first) |
| Bits.PaddedStateChar | quac_qiskit/simulators/quac_density_simulator.py:70-75 | for k < 2^n, character q of the padded state is bit n−1−q of k |
| Bits.BinValueSuffix | qiskit/providers/quac/format/dist.py:56 | the last m characters of a binary string denote its value mod 2^m |
| Bits.ReversedRegisterValue | quac_qiskit/simulators/quac_density_simulator.py:81-82 | the value of a reversed register reads the original least significant digit first |
| Bits.Digits | quac_qiskit/simulators/quac_density_simulator.py:82 | one digit per character |
| Common.SumAppend | qiskit/providers/quac/format/dist.py:37 | `sum` over a concatenation is the sum of the parts |
| Common.SumAddAt | quac_qiskit/simulators/quac_density_simulator.py:84 | adding x to one entry adds x to the sum |
| Common.SumZeros | qiskit/providers/quac/format/dist.py:51 | a zero list sums to 0 |
| Common.SumNonnegative | quac_qiskit/stat/comparison.py:47 | a sum of nonnegative terms is nonnegative |
| Common.PySlice | qiskit/providers/quac/models/noise_model.py:264-265 | Python slicing `s[lo:hi]` clips to the list and is empty when hi ≤ lo |
| Common.MulPositive | qiskit/providers/quac/utils/math.py:39 | a product of positives is positive |
| Common.MulStrict | qiskit/providers/quac/utils/math.py:39 | multiplying by a positive keeps strict order |
| Common.NatToString | qiskit/providers/quac/simulators/quac_simulator.py:193 | `str(n)` is a non-empty string of decimal digits |
| Common.NatToStringInjective | qiskit/providers/quac/simulators/quac_simulator.py:193 | `str` of distinct qubit indices are distinct keys |
| Common.DecimalDigitInjective | qiskit/providers/quac/simulators/quac_simulator.py:193 | distinct digits print differently |
| Comparison.SquareFacts | quac_qiskit/stat/comparison.py:19 | a square is nonnegative, and positive for a nonzero number |
| Comparison.NormSq | quac_qiskit/stat/comparison.py:19 | a squared norm is nonnegative |
| Comparison.NormSqZeroIffZeroVector | quac_qiskit/stat/comparison.py:19 | the norm is 0 exactly for the zero vector |
| Comparison.DotSelf | quac_qiskit/stat/comparison.py:23-25 | a vector's dot product with itself is its squared norm |
| Comparison.SqrtZero | quac_qiskit/stat/comparison.py:19 | for a square root, the root is 0 iff its argument is |
| Comparison.Clip | quac_qiskit/stat/comparison.py:26 | `np.clip(x, -1, 1)` lies in [−1, 1], is x inside and the nearer bound outside |
| Comparison.VecAngle | quac_qiskit/stat/comparison.py:23-28 | the angle is arccos of a clipped cosine, in degrees |
| Comparison.GuardedVecAngle | quac_qiskit/stat/comparison.py:12-28 | the function returns `None` exactly for a zero vector, and otherwise the angle |
| Comparison.DivideSquare | quac_qiskit/stat/comparison.py:24-25 | dividing a square by its root twice gives 1 |
| Comparison.CosineWithItself | quac_qiskit/stat/comparison.py:23-25 | a vector's cosine with itself is 1 |
| Comparison.CosineOrthogonal | quac_qiskit/stat/comparison.py:23-25 | orthogonal vectors have cosine 0 |
| Comparison.UnitVectorAngles | test/stat_test.py:16-20 | ([0,1],[1,0]) gives 90, ([1,0],[1,0]) gives 0, and ([0,0],[0,0]) gives `None` |
| Comparison.UnitVectors | test/stat_test.py:16-18 | the unit vectors have norm 1 and are orthogonal |
| Comparison.OrthogonalAngle | test/stat_test.py:17 | the angle between [0,1] and [1,0] is 90 degrees |
| Comparison.SameDirectionAngle | test/stat_test.py:18 | the angle between [1,0] and itself is 0 degrees |
| Comparison.CountNonzero | quac_qiskit/stat/comparison.py:43 | `np.count_nonzero` is at most the length |
| Comparison.SmoothWith | quac_qiskit/stat/comparison.py:45-46 | a zero entry becomes epsilon and every other entry loses the same share |
| Comparison.Smooth | quac_qiskit/stat/comparison.py:43-46 | smoothing keeps the length and replaces zeros by epsilon |
| Comparison.SmoothWithSum | quac_qiskit/stat/comparison.py:45-46 | the smoothed sum is the old sum plus epsilon per zero minus the share per nonzero |
| Comparison.SmoothGainCounts | quac_qiskit/stat/comparison.py:43-46 | that change is zeros·ε − nonzeros·share |
| Comparison.SmoothPreservesTotal | quac_qiskit/stat/comparison.py:42-46 | smoothing a distribution with a nonzero entry keeps its total mass |
| Comparison.SmoothGainZero | quac_qiskit/stat/comparison.py:44-46 | the share zeros·ε/nonzeros makes the change 0 |
| Comparison.ShareBalances | quac_qiskit/stat/comparison.py:45 | nonzeros times the share is zeros times ε |
| Comparison.SmoothNonzeroEntry | quac_qiskit/stat/comparison.py:45 | a nonzero entry loses exactly the share |
| Comparison.NonzeroCounted | quac_qiskit/stat/comparison.py:43 | a nonzero entry is counted |
| Comparison.SmoothAllZero | quac_qiskit/stat/comparison.py:44-45 | an all-zero distribution becomes all ε (the share is never computed) |
| Comparison.BroadcastFacts | quac_qiskit/stat/comparison.py:47 | numpy combines two 1-D lengths iff they are equal or one is 1; the combined length is the longer one and every stretched index is in range |
| Comparison.KlDistSmoothing | quac_qiskit/stat/comparison.py:31-48 | the divergence exists iff the lengths are equal or one of them is 1 (numpy broadcasting), and otherwise is a `ValueError` |
| Comparison.KlDistSmoothingNonnegative | quac_qiskit/stat/comparison.py:31-48 | the smoothed divergence is nonnegative whenever element-wise `kl_div` is |
| Comparison.KlDistSmoothingSelf | quac_qiskit/stat/comparison.py:31-48 | a distribution's divergence from itself is 0 whenever `kl_div(x, x)` is 0 |
| Comparison.Ecdf | quac_qiskit/stat/comparison.py:61-62 | entry i of the empirical CDF is the sum of the first i+1 entries |
| Comparison.EcdfGap | quac_qiskit/stat/comparison.py:61-63 | the gap has the broadcast length, and entry i is the difference of the two CDFs at i, a length-1 CDF standing for every index |
| Comparison.MaxAbs | quac_qiskit/stat/comparison.py:63 | `np.absolute(...).max()` bounds every entry and is attained |
| Comparison.DiscreteOneSampKs | quac_qiskit/stat/comparison.py:51-64 | the statistic is the largest CDF gap; the verdict is D < 1.36/√n; errors for n < 0 (`ValueError`), n = 0 (`ZeroDivisionError`), and empty distributions or lengths that numpy cannot broadcast (`ValueError`); success exactly otherwise |
| Comparison.KsCutoff | quac_qiskit/stat/comparison.py:60-64 | D < 1.36/√n iff D²·n < 1.36² |
| Comparison.SquareMonotone | quac_qiskit/stat/comparison.py:64 | squaring is increasing on nonnegatives |
| Comparison.WorkedGaps | test/stat_test.py:30-33 | the CDF gaps of the test's distributions are [0.1, 0.2, 0.1, 0] |
| Comparison.KsWorkedExample | test/stat_test.py:29-36 | for those distributions and 1000 samples the statistic is 0.2, the largest CDF difference |
| Comparison.KsBroadcastExample | quac_qiskit/stat/comparison.py:61-64 | a one-entry distribution broadcasts against a two-entry one: [0.5] against [0.2, 0.3] gives the statistic 0.3 |
| Qasm.FirstBreak | qiskit/providers/quac/format/qasm.py:51 | the first line break, or the end: no break before it |
| Qasm.SplitLinesNoBreaks | qiskit/providers/quac/format/qasm.py:51 | `splitlines()` yields lines without line breaks |
| Qasm.JoinLinesSnoc | qiskit/providers/quac/format/qasm.py:77 | appending `line + "\n"` extends the text by one line |
| Qasm.JoinLinesCons | qiskit/providers/quac/format/qasm.py:77 | the text of a line followed by more lines |
| Qasm.SplitJoinLines | qiskit/providers/quac/format/qasm.py:51-77 | lines without breaks, each followed by "\n", split back into the same lines |
| Qasm.BreakAfterLine | qiskit/providers/quac/format/qasm.py:51 | a line followed by "\n" is split off as the first line |
| Qasm.FirstBreakOfLine | qiskit/providers/quac/format/qasm.py:51 | the first break after a break-free line is at its end |
| Qasm.SubstringMeaning | qiskit/providers/quac/format/qasm.py:53 | Python's `in` on strings holds iff the pattern occurs at some position |
| Qasm.Kept | qiskit/providers/quac/format/qasm.py:51-54 | filtering never adds lines |
| Qasm.KeptMeaning | qiskit/providers/quac/format/qasm.py:53-54 | a line survives iff it mentions none of "measure", "creg", "barrier", "id" |
| Qasm.KeptAll | qiskit/providers/quac/format/qasm.py:53-54 | when no line is dropped every line is kept, in order |
| Qasm.FindDigitPi | qiskit/providers/quac/format/qasm.py:57 | `re.findall("[0-9]pi")` yields three-character matches, a digit then "pi" |
| Qasm.FindDigitPiComplete | qiskit/providers/quac/format/qasm.py:57 | every occurrence's digit is among the matches |
| Qasm.StarDigits | qiskit/providers/quac/format/qasm.py:57-58 | rewriting never shortens a line and keeps its first character |
| Qasm.StarPi | qiskit/providers/quac/format/qasm.py:57-58 | the rewritten line starts as the line does |
| Qasm.StarDigitsNone | qiskit/providers/quac/format/qasm.py:57-58 | with no digits rewritten the line is unchanged |
| Qasm.ReplaceStarsDigit | qiskit/providers/quac/format/qasm.py:58 | one `replace(d + "pi", d + "*pi")` stars every occurrence of that digit |
| Qasm.StarredCase | qiskit/providers/quac/format/qasm.py:58 | an already starred occurrence stays starred |
| Qasm.MatchCase | qiskit/providers/quac/format/qasm.py:58 | an occurrence of the replaced digit gains its star |
| Qasm.UnstarredMatch | qiskit/providers/quac/format/qasm.py:58 | an unstarred occurrence keeps "d pi" |
| Qasm.StarredMatch | qiskit/providers/quac/format/qasm.py:58 | a starred occurrence is "d*pi" |
| Qasm.PlainCase | qiskit/providers/quac/format/qasm.py:58 | any other character is copied, and is not the start of a new match |
| Qasm.StarDigitsShort | qiskit/providers/quac/format/qasm.py:57-58 | lines under three characters are unchanged |
| Qasm.StarDigitsAfterMatch | qiskit/providers/quac/format/qasm.py:58 | after a match's digit the "pi" is copied |
| Qasm.StarDigitsSecond | qiskit/providers/quac/format/qasm.py:58 | the second character survives rewriting |
| Qasm.ReplaceSkip | qiskit/providers/quac/format/qasm.py:58 | `str.replace` copies a character that starts no match |
| Qasm.ReplaceHit | qiskit/providers/quac/format/qasm.py:58 | `str.replace` substitutes a match at the front and continues after it |
| Qasm.StarDigitsComplete | qiskit/providers/quac/format/qasm.py:57-58 | once every matched digit is processed the line is fully starred |
| Qasm.RewritePi | qiskit/providers/quac/format/qasm.py:57-58 | the loop over `findall` matches stars every "⟨digit⟩pi" |
| Qasm.StarPiLeavesNoMatch | qiskit/providers/quac/format/qasm.py:57-58 | afterwards no "⟨digit⟩pi" remains |
| Qasm.NoMatchAtFront | qiskit/providers/quac/format/qasm.py:57-58 | rewriting creates no match at the front |
| Qasm.StarPiWithoutMatch | qiskit/providers/quac/format/qasm.py:57-58 | a line without matches is unchanged |
| Qasm.StarPiIdempotent | qiskit/providers/quac/format/qasm.py:57-58 | rewriting twice is rewriting once |
| Qasm.WithoutStarsCons | qiskit/providers/quac/format/qasm.py:58 | removing stars character by character |
| Qasm.StarPiOnlyInsertsStars | qiskit/providers/quac/format/qasm.py:58 | the rewrite only inserts "*" characters |
| Qasm.StarPiNoBreaks | qiskit/providers/quac/format/qasm.py:58 | the rewrite adds no line break |
| Qasm.LastIndex | qiskit/providers/quac/format/qasm.py:61 | the last position of a character, or −1 |
| Qasm.GroupStart | qiskit/providers/quac/format/qasm.py:61 | the greedy match `\(.+\)` starts at the first "(" with a ")" at least two positions later |
| Qasm.NoGroupPastClose | qiskit/providers/quac/format/qasm.py:61 | no group starts after the last ")" |
| Qasm.FindGroupsMeaning | qiskit/providers/quac/format/qasm.py:61 | `findall` yields nothing, or the one span from that "(" to the last ")" |
| Qasm.GroupOccursOnce | qiskit/providers/quac/format/qasm.py:61-74 | the group occurs in the line only at its start |
| Qasm.ReplaceSpan | qiskit/providers/quac/format/qasm.py:74 | replacing a span that occurs only once substitutes just that span |
| Qasm.ReplaceOnce | qiskit/providers/quac/format/qasm.py:74 | `str.replace` of a pattern occurring exactly once splices the replacement in |
| Qasm.OccursOnlyShift | qiskit/providers/quac/format/qasm.py:74 | a unique occurrence after the front stays unique in the tail |
| Qasm.ReplaceUnmatchedHead | qiskit/providers/quac/format/qasm.py:74 | `str.replace` copies an unmatched first character |
| Qasm.SpliceCons | qiskit/providers/quac/format/qasm.py:74 | splicing after the first character |
| Qasm.ReplaceAtFront | qiskit/providers/quac/format/qasm.py:74 | a unique match at the front is replaced once |
| Qasm.OccursShift | qiskit/providers/quac/format/qasm.py:74 | occurrences in a suffix are occurrences shifted by its offset |
| Qasm.ReplaceNowhere | qiskit/providers/quac/format/qasm.py:74 | `str.replace` of an absent pattern changes nothing |
| Qasm.IndexOf | qiskit/providers/quac/format/qasm.py:70 | the first position of a character |
| Qasm.SplitOn | qiskit/providers/quac/format/qasm.py:70 | `split(",")` yields at least one piece |
| Qasm.JoinCons | qiskit/providers/quac/format/qasm.py:70-73 | joining a piece in front of more pieces |
| Qasm.JoinSplit | qiskit/providers/quac/format/qasm.py:70 | joining the pieces of `split(c)` with c gives the string back |
| Qasm.SplitOnCons | qiskit/providers/quac/format/qasm.py:70 | splitting takes the text before the first separator, then splits the rest |
| Qasm.SplitAround | qiskit/providers/quac/format/qasm.py:70 | a string is its parts before, at and after a position |
| Qasm.SplitOnPieces | qiskit/providers/quac/format/qasm.py:70 | no piece contains the separator |
| Qasm.Values | qiskit/providers/quac/format/qasm.py:70-72 | one evaluated value per parameter |
| Qasm.TrailingJoin | qiskit/providers/quac/format/qasm.py:72-73 | each value followed by "," is the comma join plus a trailing comma, which `[:-1]` removes |
| Qasm.EvaluateParams | qiskit/providers/quac/format/qasm.py:69-73 | the parameter loop builds "(" + the evaluated parameters joined by "," + ")" |
| Qasm.RewriteLineNoGroup | qiskit/providers/quac/format/qasm.py:61-66 | a line without a parameter group is emitted as starred |
| Qasm.RewriteLineSplice | qiskit/providers/quac/format/qasm.py:61-74 | a line with a group has exactly that group replaced by its evaluated form |
| Qasm.RewriteLineGroup | qiskit/providers/quac/format/qasm.py:61-74 | a line with one group has it replaced by `str.replace` |
| Qasm.GroupSplice | qiskit/providers/quac/format/qasm.py:74 | replacing the group splices the new text at the group's position |
| Qasm.OutLinesKept | qiskit/providers/quac/format/qasm.py:51-77 | the output has one rewritten line per kept line, in order |
| Qasm.QuacQasmTranspiler | qiskit/providers/quac/format/qasm.py:44-79 | the loop computes `Transpile`: every kept line rewritten, each followed by "\n" |
| Qasm.RewriteKeptLine | qiskit/providers/quac/format/qasm.py:56-77 | the body of the loop computes the rewritten line |
| Qasm.TranspileLines | qiskit/providers/quac/format/qasm.py:44-79 | the output's lines are exactly the rewritten kept lines of the input |
| Qasm.RewriteLineNoBreaks | qiskit/providers/quac/format/qasm.py:56-74 | rewriting a line adds no line break |
| Qasm.GroupSpliceNoBreaks | qiskit/providers/quac/format/qasm.py:74 | splicing in evaluated parameters adds no line break |
| Qasm.SpliceNoBreaks | qiskit/providers/quac/format/qasm.py:74 | splicing break-free text adds no line break |
| Qasm.EvaluatedNoBreaks | qiskit/providers/quac/format/qasm.py:69-73 | the evaluated group has no line break |
| Qasm.ConcatNoBreaks | qiskit/providers/quac/format/qasm.py:77 | concatenating break-free texts |
| Qasm.SliceNoBreaks | qiskit/providers/quac/format/qasm.py:74 | a slice of break-free text |
| Qasm.JoinNoBreaks | qiskit/providers/quac/format/qasm.py:29 | a join with a break-free separator |
| Qasm.QuacTimeQasmTranspiler | qiskit/providers/quac/format/qasm.py:12-41 | the function computes `TimeQasm`: the "TIMEQASM 1.0;" header, then one timed line per scheduled instruction |
| Qasm.TimeQasmHeader | qiskit/providers/quac/format/qasm.py:28-30 | the header is "TIMEQASM 1.0;" followed by the original lines 1..start−1 |
| Qasm.AppendTimedLine | qiskit/providers/quac/format/qasm.py:37-39 | one pass appends the instruction's body line minus its last character, " @", the time and ";", or raises when the instruction has no id or the id is past the body |
| Qasm.JoinLinesAppend | qiskit/providers/quac/format/qasm.py:39 | appending a line with its "\n" |
| Qasm.HeaderText | qiskit/providers/quac/format/qasm.py:28-30 | the header string is the text of the header lines |
| Qasm.JoinJoinLines | qiskit/providers/quac/format/qasm.py:29-30 | `"\n".join` plus "\n" is the text of the lines |
| Qasm.TimedFailureSticks | qiskit/providers/quac/format/qasm.py:37-39 | an exception ends the loop |
| Qasm.TimedLinesMeaning | qiskit/providers/quac/format/qasm.py:37-39 | the loop succeeds iff every scheduled instruction has an id inside the body; line j is then body[id] without its last character, " @", the time and ";" |
| Qasm.TimeQasmLines | qiskit/providers/quac/format/qasm.py:12-41 | the output's lines are the header lines followed by one timed line per scheduled instruction |
| Qasm.TimeQasmText | qiskit/providers/quac/format/qasm.py:24-41 | the output text is the header lines and the timed lines, each followed by "\n" |
| Qasm.TimedLinesLength | qiskit/providers/quac/format/qasm.py:37-39 | one line per scheduled instruction |
| Qasm.EmittedNoBreaks | qiskit/providers/quac/format/qasm.py:28-39 | no emitted line contains a line break |
| Qasm.HeaderNoBreaks | qiskit/providers/quac/format/qasm.py:28-30 | header lines have no break |
| Qasm.BodyNoBreaks | qiskit/providers/quac/format/qasm.py:37-39 | timed lines have no break |
| Qasm.AllNoBreaks | qiskit/providers/quac/format/qasm.py:28-39 | concatenated break-free lines |
| Qasm.TimedLineNoBreaks | qiskit/providers/quac/format/qasm.py:39 | a timed line has no break |
| Reparameterize.PackGuess | qiskit/providers/quac/optimization/reparameterize.py:112-116 | the loop computes `Packed`: T1 and T2 of each guess entry in dictionary order |
| Reparameterize.PackFailureSticks | qiskit/providers/quac/optimization/reparameterize.py:113-115 | a `KeyError` ends the loop |
| Reparameterize.PackPrefixMeaning | qiskit/providers/quac/optimization/reparameterize.py:112-116 | packing succeeds iff every entry has "T1" and "T2"; entry q's times then sit at 2q and 2q+1 |
| Reparameterize.UnpackLindblad | qiskit/providers/quac/optimization/reparameterize.py:146-149 | the loop computes `UnpackPrefix`: array pairs into `{str(q): {"T1", "T2"}}` |
| Reparameterize.UnpackFailureSticks | qiskit/providers/quac/optimization/reparameterize.py:146-149 | an `IndexError` ends the loop |
| Reparameterize.UnpackSucceeds | qiskit/providers/quac/optimization/reparameterize.py:146-149 | unpacking n qubits succeeds iff the array has at least 2n entries |
| Reparameterize.UnpackEntries | qiskit/providers/quac/optimization/reparameterize.py:146-149 | qubit q's entry is T1 = a[2q], T2 = a[2q+1] |
| Reparameterize.UnpackKeys | qiskit/providers/quac/optimization/reparameterize.py:146-147 | the only keys are `str(q)` for the qubits |
| Reparameterize.UnpackStep | qiskit/providers/quac/optimization/reparameterize.py:147-149 | one more qubit adds its own entry |
| Reparameterize.LindbladBounds | qiskit/providers/quac/optimization/reparameterize.py:120-122 | 2n lower bounds 0 and 2n upper bounds `inf` |
| Reparameterize.GuessWithinBounds | qiskit/providers/quac/optimization/reparameterize.py:112-122 | the packed guess lies within the bounds iff every time is nonnegative |
| Reparameterize.OptimizeLindblad | qiskit/providers/quac/optimization/reparameterize.py:101-151 | the result is the minimiser's output unpacked, or the packing error |
| Reparameterize.PackUnpack | qiskit/providers/quac/optimization/reparameterize.py:112-149 | for a guess keyed "0".."n−1" in order, unpacking the packed array gives the guess back |
| Reparameterize.TimesOfEntry | qiskit/providers/quac/optimization/reparameterize.py:147-149 | an entry with exactly T1 and T2 is rebuilt unchanged |
| Reparameterize.DictOfSnoc | qiskit/providers/quac/optimization/reparameterize.py:113 | the guess dictionary grows one entry at a time |
| Reparameterize.OptimizeFixedPoint | qiskit/providers/quac/optimization/reparameterize.py:112-149 | with an identity minimiser the optimiser returns the guess |
| Reparameterize.Reals | qiskit/providers/quac/optimization/reparameterize.py:24 | `np.array` of counts as floats, entry by entry |
| Reparameterize.Normalized | qiskit/providers/quac/optimization/reparameterize.py:25-27 | dividing by the Euclidean norm keeps the length |
| Reparameterize.NonzeroNorm | qiskit/providers/quac/optimization/reparameterize.py:25 | a nonzero vector has a nonzero norm |
| Reparameterize.ScaledDown | qiskit/providers/quac/optimization/reparameterize.py:25 | division by a scalar keeps the length |
| Reparameterize.QuotientSquare | qiskit/providers/quac/optimization/reparameterize.py:25 | a squared quotient is the quotient of squares |
| Reparameterize.AddQuotients | qiskit/providers/quac/optimization/reparameterize.py:25 | quotients with a common denominator add |
| Reparameterize.NormSqScaledDown | qiskit/providers/quac/optimization/reparameterize.py:25 | dividing by c divides the squared norm by c² |
| Reparameterize.NormalizedUnit | qiskit/providers/quac/optimization/reparameterize.py:25-27 | the "normalised" counts are a unit vector (squared norm 1), not a distribution summing to 1 |
| Reparameterize.AddTerm | qiskit/providers/quac/optimization/reparameterize.py:49 | one pass adds the circuit's distance or raises the error that ends the loop |
| Reparameterize.TotalFailureSticks | qiskit/providers/quac/optimization/reparameterize.py:43-49 | an exception ends the loop |
| Reparameterize.Values | qiskit/providers/quac/optimization/reparameterize.py:49 | one value per term |
| Reparameterize.TotalMeaning | qiskit/providers/quac/optimization/reparameterize.py:42-51 | the sum succeeds iff every term does, and is the sum of the terms |
| Reparameterize.TotalNonnegative | qiskit/providers/quac/optimization/reparameterize.py:42-51 | a sum of nonnegative terms is nonnegative |
| Reparameterize.TotalZero | qiskit/providers/quac/optimization/reparameterize.py:22-31 | a sum of zero terms is 0 |
| Reparameterize.KsTerms | qiskit/providers/quac/optimization/reparameterize.py:43-49 | one term per circuit |
| Reparameterize.KsDivSum | qiskit/providers/quac/optimization/reparameterize.py:34-51 | the loop computes the sum of the per-circuit K-S statistics (8000 samples) |
| Reparameterize.KsTermSucceeds | qiskit/providers/quac/optimization/reparameterize.py:44-49 | a circuit's term exists iff both count lists exist with equal lengths (count lists have at least two entries, so numpy never broadcasts them), and it is nonnegative |
| Reparameterize.KlTermSucceeds | qiskit/providers/quac/optimization/reparameterize.py:23-29 | a circuit's K-L term exists iff both count lists exist with equal lengths, and it is nonnegative when element-wise `kl_div` is |
| Reparameterize.KsTotalMeaning | qiskit/providers/quac/optimization/reparameterize.py:34-51 | `ks_div_sum` succeeds iff every circuit's term does, and is their nonnegative sum |
| Reparameterize.KsTermsNonnegative | qiskit/providers/quac/optimization/reparameterize.py:49 | every term is nonnegative |
| Reparameterize.KlTerms | qiskit/providers/quac/optimization/reparameterize.py:23-29 | one term per circuit |
| Reparameterize.KlDivSum | qiskit/providers/quac/optimization/reparameterize.py:14-31 | the loop computes the sum of the per-circuit smoothed K-L divergences |
| Reparameterize.KlTermSelf | qiskit/providers/quac/optimization/reparameterize.py:24-29 | a result compared with itself contributes 0 |
| Reparameterize.KlTotalSelf | qiskit/providers/quac/optimization/reparameterize.py:14-31 | when simulation and reference agree the total divergence is 0 |
| Reparameterize.LindbladObjective | qiskit/providers/quac/optimization/reparameterize.py:54-75 | the objective unpacks the array (or raises its error) and returns `ks_div_sum` of the simulation against the reference |
| Reparameterize.Zip | qiskit/providers/quac/optimization/reparameterize.py:43-47 | circuit i pairs its simulated and reference counts |
| Benchmarking.MaxOf | qiskit/providers/quac/utils/benchmarking.py:27 | `max(qubits)` bounds every listed qubit and is one of them |
| Benchmarking.Layer | qiskit/providers/quac/utils/benchmarking.py:35-36 | one gate per listed qubit |
| Benchmarking.Measures | qiskit/providers/quac/utils/benchmarking.py:42-43 | one measurement per listed qubit |
| Benchmarking.Range | qiskit/providers/quac/utils/benchmarking.py:45 | the barrier spans qubits 0..max |
| Benchmarking.QuacT1Circuits | qiskit/providers/quac/utils/benchmarking.py:13-48 | the function computes `T1Circuits`: `ValueError` for no qubits, `IndexError` when a qubit exceeds the classical register, otherwise one circuit per entry of `num_gates` and gate times `gate_time`·n |
| Benchmarking.BuildT1Circuit | qiskit/providers/quac/utils/benchmarking.py:30-46 | one circuit: X on every qubit, the identity rounds, the measurements and a barrier, or `IndexError` from a measurement |
| Benchmarking.GateLayer | qiskit/providers/quac/utils/benchmarking.py:35-36 | the X loop adds one X per qubit, in order |
| Benchmarking.MeasureAll | qiskit/providers/quac/utils/benchmarking.py:42-43 | the measurement loop measures qubit q into classical bit q, or raises `IndexError` |
| Benchmarking.LayerSnoc | qiskit/providers/quac/utils/benchmarking.py:35-36 | one more qubit adds its gate |
| Benchmarking.MeasuresSnoc | qiskit/providers/quac/utils/benchmarking.py:42-43 | one more qubit adds its measurement |
| Benchmarking.IdRoundsAt | qiskit/providers/quac/utils/benchmarking.py:38-40 | the identity at position r·n + j is on qubit j of round r |
| Benchmarking.MulStep | qiskit/providers/quac/utils/benchmarking.py:38 | one more round adds n identities |
| Benchmarking.IdRoundsLength | qiskit/providers/quac/utils/benchmarking.py:38-40 | there are rounds·n identities |
| Benchmarking.T1Layout | qiskit/providers/quac/utils/benchmarking.py:32-45 | the circuit's instructions are the X layer, the identity rounds, the measurements and the barrier, in that order |
| Benchmarking.Slices | qiskit/providers/quac/utils/benchmarking.py:32-45 | the four parts of the instruction list are where they belong |
| Benchmarking.T1NamesDistinct | qiskit/providers/quac/utils/benchmarking.py:33 | distinct indices give distinct names |
| Benchmarking.T1CircuitsMeaning | qiskit/providers/quac/utils/benchmarking.py:13-48 | success iff some qubit is given and (no circuit is built or every qubit fits the classical register); one circuit and one time per `num_gates` entry, with distinct names |
| Benchmarking.AddParallelId | qiskit/providers/quac/utils/benchmarking.py:51-78 | the padded circuit keeps the registers and follows every instruction other than `measure` and `barrier` by identities on all other qubits |
| Benchmarking.PadAround | qiskit/providers/quac/utils/benchmarking.py:75-76 | the padding loop adds an identity on every qubit outside the instruction |
| Benchmarking.IdsOutsideMeaning | qiskit/providers/quac/utils/benchmarking.py:75-76 | the padding consists of single-qubit identities on in-range qubits not used by the instruction, in ascending order, one on each such qubit |
| Benchmarking.PaddingCoversEachQubitOnce | qiskit/providers/quac/utils/benchmarking.py:70-76 | after a gate, every qubit is busy exactly once: either in the gate or in one padding identity |
| Benchmarking.PaddedPrefix | qiskit/providers/quac/utils/benchmarking.py:68-76 | the output built so far is a prefix of the final output |
| Benchmarking.PaddedLayout | qiskit/providers/quac/utils/benchmarking.py:70-76 | instruction k sits at its start position, followed by exactly its padding |
| Benchmarking.PaddedSnoc | qiskit/providers/quac/utils/benchmarking.py:68-76 | one more instruction appends itself and its padding |
| Benchmarking.PlacedIn | qiskit/providers/quac/utils/benchmarking.py:70-76 | an instruction and its padding sit in the final output where the prefix put them |
| Benchmarking.PaddedLength | qiskit/providers/quac/utils/benchmarking.py:68-76 | the start positions account for the whole output |
| Benchmarking.PaddedOnlySkipped | qiskit/providers/quac/utils/benchmarking.py:71-72 | a circuit of measurements and barriers is copied unchanged |
| Gates.Lower | quac_qiskit/models/quac_gates.py:22 | `str.lower` keeps the length |
| Gates.GetGateUnitary | quac_qiskit/models/quac_gates.py:12-48 | the operator is 4×4, and it is the identity exactly when the lowered name is none of czx, cmz, cxz |
| Gates.Transpose | quac_qiskit/models/quac_gates.py:22-48 | the transpose of a 4×4 matrix is 4×4 |
| Gates.MatMul | quac_qiskit/models/quac_gates.py:22-48 | the product of 4×4 matrices is 4×4 |
| Gates.SquareCases | quac_qiskit/models/quac_gates.py:23-47 | an integer square is 0 only for 0, 1 only for ±1, and otherwise at least 2 |
| Gates.UnitIntegerRow | quac_qiskit/models/quac_gates.py:23-47 | an integer row of norm 1 has one entry ±1 and the rest 0 |
| Gates.OrthogonalIsSignedPermutation | quac_qiskit/models/quac_gates.py:23-47 | an orthogonal integer matrix is a signed permutation |
| Gates.EqualByEntries | quac_qiskit/models/quac_gates.py:23-47 | 4×4 matrices with the same entries are equal |
| Gates.ProductWithTranspose | quac_qiskit/models/quac_gates.py:23-47 | a matrix with one ±1 per row, in distinct columns, times its transpose is the identity |
| Gates.InvolutionOrthogonal | quac_qiskit/models/quac_gates.py:23-47 | such a matrix whose column choice is an involution is orthogonal |
| Gates.GetGateUnitaryOrthogonal | quac_qiskit/models/quac_gates.py:12-48 | every returned operator is a real orthogonal (so unitary) 4×4 matrix |
| Gates.GetGateUnitarySignedPermutation | quac_qiskit/models/quac_gates.py:12-48 | every returned operator is a signed permutation |
| Gates.CxzInvertsCzx | quac_qiskit/models/quac_gates.py:22-42 | cxz is the transpose, and the inverse, of czx |
| Gates.CmzDiagonal | quac_qiskit/models/quac_gates.py:30-35 | cmz is diagonal with −1 only at position 2 |
| Gates.ControlClearIsIdentity | quac_qiskit/models/quac_gates.py:22-48 | every gate acts as the identity when the control qubit is clear (upper-left block identity, off-diagonal blocks 0) |
| Gates.LowerMatches | quac_qiskit/models/quac_gates.py:22 | a name lowers to a lower-case three-letter target iff each letter is that letter or its upper-case form |
| Gates.GetGateUnitaryChoice | quac_qiskit/models/quac_gates.py:22-48 | czx, cmz and cxz are returned exactly for those names in any case, and the identity for every other name |
| Gates.GetGateUnitaryIgnoresCase | quac_qiskit/models/quac_gates.py:22-36 | names that lower to the same string give the same operator |
| Gates.UpperCaseNames | quac_qiskit/models/quac_gates.py:22-48 | "CZX", "cMz" and "CxZ" select their gates; "cz" gives the identity |
| Provider.ContainsMeaning | qiskit/providers/quac/quac_provider.py:74 | Python's `in` on strings holds iff the name occurs at some position of the backend name |
| Provider.ContainsEmpty | qiskit/providers/quac/quac_provider.py:72-74 | the empty string occurs in every name |
| Provider.Backend.constructor | qiskit/providers/quac/simulators/quac_simulator.py:26-43 | a new simulator keeps its configuration and kind and starts without measurement error |
| Provider.Describe | qiskit/providers/quac/quac_provider.py:34-60 | one description per backend |
| Provider.DescribeAppend | qiskit/providers/quac/quac_provider.py:46-60 | describing an appended list appends the descriptions |
| Provider.EngineLatch.constructor | qiskit/providers/quac/quac_provider.py:22 | the class starts with the engine not yet initialised and no initialise call made |
| Provider.QuacProvider.constructor | qiskit/providers/quac/quac_provider.py:24-62 | a provider holds the backend list it was built with, at least the two generic ones |
| Provider.QuacProvider.Backends | qiskit/providers/quac/quac_provider.py:64-74 | with no name or an empty one the whole list comes back; otherwise exactly the backends whose name contains the given one, in order |
| Provider.QuacProvider.GetBackend | qiskit/providers/quac/quac_provider.py:76-118 | no name: the first backend, switched to measurement error when asked; a generic name: a fresh generic simulator of that kind; otherwise the first backend of exactly that name with its measurement-error flag set to the request, or "nonexistent backend"; no other backend changes |
| Provider.FirstNamed | qiskit/providers/quac/quac_provider.py:108-110 | a found index is in range |
| Provider.FirstNamedMeaning | qiskit/providers/quac/quac_provider.py:108-118 | no match iff no backend has the name; a match is the first backend with the name |
| Provider.MatchingMeaning | qiskit/providers/quac/quac_provider.py:74 | the filter keeps exactly the listed backends whose name contains the query and never grows the list |
| Provider.MatchingAppend | qiskit/providers/quac/quac_provider.py:74 | filtering distributes over concatenation, so order is kept |
| Provider.MatchingEmpty | qiskit/providers/quac/quac_provider.py:72-74 | filtering by the empty name keeps every backend, agreeing with the no-name branch |
| Provider.KeptMeaning | qiskit/providers/quac/quac_provider.py:44-45 | the hardware kept is exactly the listed hardware whose name contains neither "qasm" nor "pulse" |
| Provider.PairsAt | qiskit/providers/quac/quac_provider.py:46-49 | each hardware backend contributes a counts simulator then a density simulator, at positions 2k and 2k+1 |
| Provider.PairsLength | qiskit/providers/quac/quac_provider.py:44-60 | two simulators per hardware backend |
| Provider.LayoutShape | qiskit/providers/quac/quac_provider.py:34-60 | the list starts with the generic density and counts simulators, then the kept fake pairs, then one counts/density pair per user backend, in order |
| Provider.EnterLatch | qiskit/providers/quac/quac_provider.py:26-29 | the engine is initialised once, on the first provider only, and the flag is set afterwards |
| Provider.CreateProvider | qiskit/providers/quac/quac_provider.py:24-62 | initialises the engine at most once; fails with the collision error iff a user backend shares a fake backend's name; otherwise the list has the documented layout of fresh simulators without measurement error |
| Provider.BuildBackends | qiskit/providers/quac/quac_provider.py:34-60 | collision error iff some user name collides with a fake name; otherwise the documented layout |
| Provider.FakeSimulators | qiskit/providers/quac/quac_provider.py:43-49 | exactly the pairs of the kept fake backends, in order |
| Provider.UserSimulators | qiskit/providers/quac/quac_provider.py:51-60 | collision error iff some user backend's name is a fake backend's name; otherwise one pair per user backend, in order |
| Provider.AddFake | qiskit/providers/quac/quac_provider.py:44-49 | one loop step appends a pair iff the fake backend is kept, and keeps the earlier entries |
| Provider.AddHardware | qiskit/providers/quac/quac_provider.py:46-60 | one step appends the counts then the density simulator of the backend |

## Left out

- The native QuaC engine (`quac.Instance`, `Circuit`, `run`, `get_bitstring_probs`) is a foreign library. Its probability vector is an input, and the calls made to it are an append-only log.
- `_run_experiment` of the density and counts simulators is not part of this model. Its `(instance, qubit-to-slots map)` result is taken as given.
- `from_backend` and `from_calibration_results` of the noise model depend on Qiskit backend properties and calibration fitters. Only the column-stochastic 2×2 matrix built from two diagonal entries is modelled.
- Randomness: `random.random()` is an explicit draw parameter, so the statistical sampling tests are not stated.
- Transcendental numerics: `sqrt`, `arccos`, `pi`, `kl_div` (with its `log`) and `eval` of QASM parameters are parameters. Only `sqrt` is constrained, to be the non-negative square root. Numeric reference values from the tests that depend on them are not stated.
- Floating point: all arithmetic is exact over `real`. Rounding, NaN and `inf` arithmetic inside numpy are not modelled. `+inf` appears only as the extended value of a noiseless T1/T2.
- Reparameterize.KsDivSum: requires every counts vector to be non-zero. numpy would produce NaN after dividing by a zero norm.
- Reparameterize.KlDivSum: requires every counts vector to be non-zero. numpy would produce NaN after dividing by a zero norm.
- Comparison.VecAngle: the unguarded `get_vec_angle` of the utilities module requires non-zero norms. numpy would divide by zero and produce NaN.
- Matrix and vector size mismatches in measurement-error correction are preconditions, not modelled errors. The 1-D broadcasts in `discrete_one_samp_ks` and `kl_dist_smoothing` are modelled, with their `ValueError`.
- `scipy.optimize.minimize`, `execute` and the simulation inside the objective are parameters. Only the packing and unpacking around them, the bounds and the divergence sums are modelled. The `print` in `lindblad_objective_scipy` and the commented-out nevergrad code are left out.
- Timing (`time.perf_counter`), job ids, result headers, `backend_version` and the executor/future plumbing are not modelled.
- Register keys are the integers that `hex()` prints, not the hexadecimal text.
- `run_config` options that Python treats as falsy (`0`, `""`, `None`, an empty dict) are collapsed into an absent option.
- The statevector probabilities are given as the squared magnitudes. `statevector_to_probabilities` itself is not modelled.
- `math.log2` of the vector length is modelled as the floor of the base-2 logarithm. The two agree on the power-of-two lengths the source produces.
- `int(s, 2)` is modelled on strings of '0' and '1' only. Python's other spellings (signs, underscores, a `0b` prefix) are not.
- Negative Python indices are modelled only where the source uses them (`[-1]`, the last character).
- `transpile`, `assemble` and `QuantumCircuit.qasm()` are Qiskit calls. Their QASM text output is an input string.
- The QASM rewrite splits the text at every boundary `str.splitlines` recognises (\n, \r, \r\n, \v, \f, \x1c-\x1e, \x85, \u2028, \u2029) and rejoins the lines with "\n", as the source does.
- The ZZ coupling dictionary's key list is modelled as a set of qubit pairs. Python's dict insertion order is not modelled.
- The DAG's topological order in `add_parallel_id` is taken as the given operation order. The source pads with identities in the iteration order of a set of `Qubit` objects, which is unspecified. The model fixes ascending qubit index as one representative order. The fresh circuit's name is a parameter, and register names are not modelled.
- Schedule.LatestCounter: requires an instruction to act on at least one qubit, as do Schedule.MaxCounter and the scheduler through `WellTargeted`. Python's `max` of an empty list raises `ValueError`, which the model does not reproduce.
- NoiseModel.QuacNoiseModel.BuildFullMeasurementMatrices: requires at least one matrix per qubit. Python raises `IndexError` for a shorter list, which the model does not reproduce.
- Dist.Aggregate: returns a map, so the insertion order of `keys` in the returned dictionary is not modelled.
- Benchmarking.QuacT1Circuits: a measure on a qubit outside the classical register is modelled as an IndexError.
- `str.lower` is modelled on ASCII letters only.
- The special gates are integer matrices. The complex dtype of Qiskit's `Operator` is not modelled.
- `setup_measurement_error` and `remove_measurement_error` are not shown in the source. They are modelled as setting and clearing a flag on the backend.
- `get_generic_configuration` and the `kwargs` passed to it are not modelled. Generic simulators carry the configuration name "generic_quac".
- Provider.QuacProvider.GetBackend: the `name is "generic_..."` identity test is modelled as string equality.
- The aliasing between the list that `backends()` returns and the provider's own list is not modelled.
- The fake provider's backends are a parameter. `quac.initialize()` is modelled as a call counter on the latch.
- `formatting.py` duplicates `quac_qasm_transpiler` and `counts_to_list` from `format/qasm.py` and `format/dist.py`. Each is modelled once.
- The superseded wrapper `qiskit/providers/quac/quac_density_simulator.py`, `density_interface.py`, `refine.py` and `objective.py` are not part of this model.
