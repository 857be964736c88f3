/** The simulators' `_run_job`: which noise model is used, the measurement
    correction applied to each probability vector, and the result list with
    one frequency table per experiment. */
module Jobs {

  import opened Common
  import opened Bits
  import opened NoiseModel
  import opened Correction
  import opened ResultFormat

  /** What the engine hands back for one experiment: its name, the
      probability vector of the final state and the qubit-to-slot map. */
  datatype EngineOutput = EngineOutput(name: string, probs: seq<real>, meas: SlotMap)

  /** One entry of the result list. */
  datatype ExperimentResult<T> = ExperimentResult(name: string, shots: nat, counts: Tally<T>)

  /** The model's measurement matrices, if any, can be expanded for a
      vector of this length. */
  predicate MeasReady(m: QuacNoiseModel, len: nat)
  {
    m.measMatrices.Some? ==>
      |m.measMatrices.value| >= |m.t1Times| && AllFinite(m.measMatrices.value) && len == Pow2(|m.t1Times|)
  }

  /** The probability vector after the density simulator's correction. */
  function Corrected(m: QuacNoiseModel, v: seq<real>): seq<real>
    requires MeasReady(m, |v|)
  {
    if m.measMatrices.Some? then ApplyAll(FullMeas(m.measMatrices.value, |m.t1Times|), v) else v
  }

  /** A result entry for `exp` whose table is exact for the vector `probs`. */
  ghost predicate DensityEntry(res: ExperimentResult<real>, exp: EngineOutput, probs: seq<real>,
                               n: nat, memSlots: nat, shots: nat)
  {
    var keys := KeysOf(Indices(|probs|), KeyMap(n, memSlots, exp.meas));
    res.name == exp.name && res.shots == shots && keys.Success? &&
    WeightTable(res.counts, keys.value, probs) && Sum(res.counts.amounts) == Sum(probs)
  }

  /** One experiment of the density simulator's `_run_job`. */
  method DensityExperiment(model: QuacNoiseModel, exp: EngineOutput, n: nat, memSlots: nat, shots: nat)
    returns (r: Result<ExperimentResult<real>>)
    requires model.CacheValid() && MeasReady(model, |exp.probs|)
    modifies model
    ensures model.CacheValid()
    ensures r.Failure? <==> KeysOf(Indices(|exp.probs|), KeyMap(n, memSlots, exp.meas)).Failure?
    ensures r.Success? ==> DensityEntry(r.value, exp, Corrected(model, exp.probs), n, memSlots, shots)
  {
    var probs := exp.probs;
    if model.Params().HasMeas() {
      var ops := model.Meas();
      probs := CorrectAll(ops, probs);
    }
    var table := DensityCounts(probs, n, memSlots, exp.meas);
    if table.Failure? {
      return Failure(table.error);
    }
    r := Success(ExperimentResult(exp.name, shots, table.value));
  }

  /** The model the density simulator uses: the injected one when given,
      else the backend's. */
  function Selected(backendModel: QuacNoiseModel, injected: Option<QuacNoiseModel>): (m: QuacNoiseModel)
    ensures injected.None? ==> m == backendModel
  {
    if injected.Some? then injected.value else backendModel
  }

  /** Appending the next experiment's entry keeps every earlier entry. */
  lemma EntriesSnoc(results: seq<ExperimentResult<real>>, entry: ExperimentResult<real>,
                    experiments: seq<EngineOutput>, model: QuacNoiseModel, n: nat, memSlots: nat, shots: nat)
    requires |results| < |experiments|
    requires forall e :: 0 <= e < |experiments| ==> MeasReady(model, |experiments[e].probs|)
    requires forall i :: 0 <= i < |results| ==>
      DensityEntry(results[i], experiments[i], Corrected(model, experiments[i].probs), n, memSlots, shots)
    requires DensityEntry(entry, experiments[|results|], Corrected(model, experiments[|results|].probs), n, memSlots, shots)
    ensures forall i :: 0 <= i < |results| + 1 ==>
      DensityEntry((results + [entry])[i], experiments[i], Corrected(model, experiments[i].probs), n, memSlots, shots)
  {
    forall i | 0 <= i < |results| + 1
      ensures DensityEntry((results + [entry])[i], experiments[i], Corrected(model, experiments[i].probs), n, memSlots, shots)
    {
      if i < |results| {
        assert (results + [entry])[i] == results[i];
      } else {
        assert (results + [entry])[i] == entry;
      }
    }
  }

  /** The density simulator's per-experiment loop with the model fixed: one
      probability table per experiment, in order, stopping at the first
      experiment whose keys cannot be formed. */
  method DensityExperiments(model: QuacNoiseModel, experiments: seq<EngineOutput>, n: nat, memSlots: nat, shots: nat)
    returns (r: Result<seq<ExperimentResult<real>>>)
    requires model.CacheValid()
    requires forall e :: 0 <= e < |experiments| ==> MeasReady(model, |experiments[e].probs|)
    modifies model
    ensures r.Failure? ==>
      exists e :: 0 <= e < |experiments| && KeysOf(Indices(|experiments[e].probs|), KeyMap(n, memSlots, experiments[e].meas)).Failure?
    ensures r.Success? ==> |r.value| == |experiments|
    ensures r.Success? ==> forall e :: 0 <= e < |experiments| ==>
      DensityEntry(r.value[e], experiments[e], Corrected(model, experiments[e].probs), n, memSlots, shots)
  {
    var results: seq<ExperimentResult<real>> := [];
    var e := 0;
    while e < |experiments|
      invariant 0 <= e <= |experiments|
      invariant model.CacheValid()
      invariant |results| == e
      invariant forall i :: 0 <= i < e ==>
        DensityEntry(results[i], experiments[i], Corrected(model, experiments[i].probs), n, memSlots, shots)
    {
      var entry := DensityExperiment(model, experiments[e], n, memSlots, shots);
      if entry.Failure? {
        return Failure(entry.error);
      }
      EntriesSnoc(results, entry.value, experiments, model, n, memSlots, shots);
      results := results + [entry.value];
      e := e + 1;
    }
    r := Success(results);
  }

  /** The density simulator's `_run_job`: the selected noise model, the
      measurement correction when that model has measurement matrices, then
      one probability table per experiment. */
  method RunDensityJob(backendModel: QuacNoiseModel, injected: Option<QuacNoiseModel>,
                       experiments: seq<EngineOutput>, n: nat, memSlots: nat, shots: nat)
    returns (r: Result<seq<ExperimentResult<real>>>)
    requires Selected(backendModel, injected).CacheValid()
    requires forall e :: 0 <= e < |experiments| ==> MeasReady(Selected(backendModel, injected), |experiments[e].probs|)
    modifies Selected(backendModel, injected)
    ensures r.Failure? ==>
      exists e :: 0 <= e < |experiments| && KeysOf(Indices(|experiments[e].probs|), KeyMap(n, memSlots, experiments[e].meas)).Failure?
    ensures r.Success? ==> |r.value| == |experiments|
    ensures r.Success? ==> forall e :: 0 <= e < |experiments| ==>
      DensityEntry(r.value[e], experiments[e], Corrected(Selected(backendModel, injected), experiments[e].probs),
                   n, memSlots, shots)
  {
    var model := backendModel;
    if injected.Some? {
      model := injected.value;
    }
    r := DensityExperiments(model, experiments, n, memSlots, shots);
  }

  /** A result entry for `exp` whose counts are exact for the shots drawn
      from `probs`. */
  ghost predicate CountsEntry(res: ExperimentResult<nat>, exp: EngineOutput, probs: seq<real>, draws: seq<real>,
                              n: nat, memSlots: nat, shots: nat)
  {
    var keys := KeysOf(draws, DrawKeyMap(probs, n, memSlots, exp.meas));
    res.name == exp.name && res.shots == shots && keys.Success? &&
    CountTable(res.counts, keys.value) && SumInt(res.counts.amounts) == shots
  }

  /** The vector the counts simulator samples from. */
  function CountsInput(exp: EngineOutput, measError: Option<Operator>): seq<real>
    requires measError.Some? ==> measError.value.dim == |exp.probs|
  {
    if measError.Some? then Apply(measError.value, exp.probs) else exp.probs
  }

  /** One experiment of the counts simulator's `_run_job`. */
  method CountsExperiment(exp: EngineOutput, draws: seq<real>, measError: Option<Operator>,
                          n: nat, memSlots: nat, shots: nat)
    returns (r: Result<ExperimentResult<nat>>)
    requires |draws| == shots
    requires measError.Some? ==> measError.value.dim == |exp.probs|
    ensures r.Failure? <==> KeysOf(draws, DrawKeyMap(CountsInput(exp, measError), n, memSlots, exp.meas)).Failure?
    ensures r.Success? ==> CountsEntry(r.value, exp, CountsInput(exp, measError), draws, n, memSlots, shots)
  {
    var probs := exp.probs;
    if measError.Some? {
      probs := Apply(measError.value, probs);
    }
    var table := ShotCounts(probs, draws, n, memSlots, exp.meas);
    if table.Failure? {
      return Failure(table.error);
    }
    r := Success(ExperimentResult(exp.name, shots, table.value));
  }

  /** Appending the next experiment's entry keeps every earlier entry. */
  lemma CountsEntriesSnoc(results: seq<ExperimentResult<nat>>, entry: ExperimentResult<nat>,
                          experiments: seq<EngineOutput>, draws: seq<seq<real>>, measError: Option<Operator>,
                          n: nat, memSlots: nat, shots: nat)
    requires |results| < |experiments| == |draws|
    requires measError.Some? ==> forall e :: 0 <= e < |experiments| ==> measError.value.dim == |experiments[e].probs|
    requires forall i :: 0 <= i < |results| ==>
      CountsEntry(results[i], experiments[i], CountsInput(experiments[i], measError), draws[i], n, memSlots, shots)
    requires CountsEntry(entry, experiments[|results|], CountsInput(experiments[|results|], measError), draws[|results|],
                         n, memSlots, shots)
    ensures forall i :: 0 <= i < |results| + 1 ==>
      CountsEntry((results + [entry])[i], experiments[i], CountsInput(experiments[i], measError), draws[i], n, memSlots, shots)
  {
    forall i | 0 <= i < |results| + 1
      ensures CountsEntry((results + [entry])[i], experiments[i], CountsInput(experiments[i], measError), draws[i],
                          n, memSlots, shots)
    {
      if i < |results| {
        assert (results + [entry])[i] == results[i];
      } else {
        assert (results + [entry])[i] == entry;
      }
    }
  }

  /** The counts simulator's `_run_job`: `draws[e]` holds the `shots`
      random numbers experiment e consumes; when measurement error is on,
      the vector is left-multiplied once by the backend's error matrix. */
  method RunCountsJob(experiments: seq<EngineOutput>, draws: seq<seq<real>>, measError: Option<Operator>,
                      n: nat, memSlots: nat, shots: nat)
    returns (r: Result<seq<ExperimentResult<nat>>>)
    requires |draws| == |experiments|
    requires forall e :: 0 <= e < |draws| ==> |draws[e]| == shots
    requires measError.Some? ==> forall e :: 0 <= e < |experiments| ==> measError.value.dim == |experiments[e].probs|
    ensures r.Failure? ==>
      exists e :: 0 <= e < |experiments| && KeysOf(draws[e], DrawKeyMap(CountsInput(experiments[e], measError), n, memSlots, experiments[e].meas)).Failure?
    ensures r.Success? ==> |r.value| == |experiments|
    ensures r.Success? ==> forall e :: 0 <= e < |experiments| ==>
      CountsEntry(r.value[e], experiments[e], CountsInput(experiments[e], measError), draws[e], n, memSlots, shots)
  {
    var results: seq<ExperimentResult<nat>> := [];
    var e := 0;
    while e < |experiments|
      invariant 0 <= e <= |experiments|
      invariant |results| == e
      invariant forall i :: 0 <= i < e ==>
        CountsEntry(results[i], experiments[i], CountsInput(experiments[i], measError), draws[i], n, memSlots, shots)
    {
      var entry := CountsExperiment(experiments[e], draws[e], measError, n, memSlots, shots);
      if entry.Failure? {
        return Failure(entry.error);
      }
      CountsEntriesSnoc(results, entry.value, experiments, draws, measError, n, memSlots, shots);
      results := results + [entry.value];
      e := e + 1;
    }
    r := Success(results);
  }
}
