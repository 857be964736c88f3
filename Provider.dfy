/** The QuaC provider: the one-time engine initialisation, the list of QuaC
    backends it builds (two generic simulators, a counts/density pair per
    usable fake hardware backend, a pair per user backend), the substring
    search over that list and the exact-name lookup that also switches
    measurement error on or off. */
module Provider {

  import opened Common

  /** The `backend_name` of the generic QuaC configuration. */
  const GenericName: string := "generic_quac"

  const CollisionMessage: string := "User backend name collides with IBMQ backend name"
  const NonexistentMessage: string := "nonexistent backend"

  datatype Kind = Density | Counts

  /** A hardware backend handed to the provider: its own name, the
      `backend_name` of its configuration, and whether it has properties. */
  datatype HardwareBackend = HardwareBackend(name: string, configName: string, hasProperties: bool)

  /** A QuaC simulator built on hardware takes the hardware's configuration
      only when the properties are there too, the generic one otherwise. */
  function ConfigNameOf(hw: HardwareBackend): string
  {
    if hw.hasProperties then hw.configName else GenericName
  }

  function Suffix(kind: Kind): string
  {
    match kind
    case Density => "_density_simulator"
    case Counts => "_counts_simulator"
  }

  /** Python's `sub in s` on strings. */
  function Contains(s: string, sub: string): bool
    decreases |s|
  {
    |sub| <= |s| && (s[..|sub|] == sub || (s != [] && Contains(s[1..], sub)))
  }

  /** `sub` occurs in `s` starting at position i. */
  predicate OccursAt(s: string, sub: string, i: int)
  {
    0 <= i <= |s| - |sub| && s[i..i + |sub|] == sub
  }

  /** `sub in s` holds exactly when `sub` occurs at some position of `s`. */
  lemma {:induction false} ContainsMeaning(s: string, sub: string)
    ensures Contains(s, sub) <==> exists i :: OccursAt(s, sub, i)
    decreases |s|
  {
    if |sub| <= |s| && s[..|sub|] == sub {
      assert OccursAt(s, sub, 0);
    } else if |sub| <= |s| && s != [] {
      ContainsMeaning(s[1..], sub);
      if exists i :: OccursAt(s, sub, i) {
        var i :| OccursAt(s, sub, i);
        assert s[..|sub|] == s[0..0 + |sub|];
        assert OccursAt(s[1..], sub, i - 1);
      }
      if Contains(s[1..], sub) {
        var i :| OccursAt(s[1..], sub, i);
        assert OccursAt(s, sub, i + 1);
      }
    }
  }

  /** The empty string is in every string. */
  lemma ContainsEmpty(s: string)
    ensures Contains(s, "")
  {
    assert s[..0] == "";
  }

  /** A QuaC backend: the configuration name and kind fix its name; whether
      it simulates measurement error is switched by the provider. */
  class Backend {
    const configName: string
    const kind: Kind
    var measurementError: bool

    constructor(configName: string, kind: Kind)
      ensures this.configName == configName && this.kind == kind && !measurementError
    {
      this.configName := configName;
      this.kind := kind;
      measurementError := false;
    }

    /** `name()`: the configuration's backend name and the kind's suffix. */
    function Name(): string
    {
      configName + Suffix(kind)
    }
  }

  /** Each backend as its configuration name and kind. */
  function Describe(bs: seq<Backend>): (d: seq<(string, Kind)>)
    ensures |d| == |bs|
  {
    seq(|bs|, i requires 0 <= i < |bs| => (bs[i].configName, bs[i].kind))
  }

  lemma DescribeAppend(a: seq<Backend>, b: seq<Backend>)
    ensures Describe(a + b) == Describe(a) + Describe(b)
  {
    assert forall i :: 0 <= i < |a + b| ==> Describe(a + b)[i] == (Describe(a) + Describe(b))[i];
  }

  // ---------------------------------------------------------------------
  // The backend list

  /** Fake backends used for QuaC: those named with neither "qasm" nor
      "pulse". */
  predicate Usable(hw: HardwareBackend)
  {
    !Contains(hw.name, "qasm") && !Contains(hw.name, "pulse")
  }

  function Kept(hws: seq<HardwareBackend>): seq<HardwareBackend>
  {
    if hws == [] then []
    else Kept(hws[..|hws| - 1]) + (if Usable(hws[|hws| - 1]) then [hws[|hws| - 1]] else [])
  }

  /** A counts simulator then a density simulator per hardware backend. */
  function Pairs(hws: seq<HardwareBackend>): seq<(string, Kind)>
  {
    if hws == [] then []
    else Pairs(hws[..|hws| - 1]) + [(ConfigNameOf(hws[|hws| - 1]), Counts), (ConfigNameOf(hws[|hws| - 1]), Density)]
  }

  function Names(hws: seq<HardwareBackend>): seq<string>
  {
    seq(|hws|, i requires 0 <= i < |hws| => hws[i].name)
  }

  /** The backend list: the generic density and counts simulators, then the
      pairs for the usable fake backends, then those for the user's. */
  function Layout(fakes: seq<HardwareBackend>, users: seq<HardwareBackend>): seq<(string, Kind)>
  {
    [(GenericName, Density), (GenericName, Counts)] + Pairs(Kept(fakes)) + Pairs(users)
  }

  /** A user backend collides when its name is that of some fake backend,
      usable or not. */
  predicate Collides(fakes: seq<HardwareBackend>, users: seq<HardwareBackend>)
  {
    exists k :: 0 <= k < |users| && users[k].name in Names(fakes)
  }

  /** `QuacProvider.provider_instantiated` as an explicit latch, with the
      number of engine initialisations it has let through. */
  class EngineLatch {
    var instantiated: bool
    var initializeCalls: nat

    constructor()
      ensures !instantiated && initializeCalls == 0 && Valid()
    {
      instantiated := false;
      initializeCalls := 0;
    }

    /** The engine has been initialised exactly when the latch is set, and
        never more than once. */
    predicate Valid()
      reads this
    {
      initializeCalls == (if instantiated then 1 else 0)
    }
  }

  class QuacProvider {
    const backends: seq<Backend>

    predicate Valid()
    {
      |backends| >= 2
    }

    constructor(backends: seq<Backend>)
      requires |backends| >= 2
      ensures this.backends == backends && Valid()
    {
      this.backends := backends;
    }

    /** `backends(name)`: every backend when no name (or the empty name) is
        given, otherwise those whose name contains it, in list order. */
    method Backends(name: Option<string>) returns (r: seq<Backend>)
      ensures name.None? || name.value == [] ==> r == backends
      ensures name.Some? ==> r == Matching(backends, name.value)
    {
      if name.None? || name.value == [] {
        if name.Some? {
          MatchingEmpty(backends);
        }
        return backends;
      }
      return Matching(backends, name.value);
    }

    /** `get_backend(name, meas)`. With no name, the first backend, switched
        to measurement error when `meas` is set (and otherwise left as it
        is); for the two generic simulator names, a fresh generic
        simulator; otherwise the first backend of exactly that name,
        switched to measurement error exactly when `meas` is set, or
        QuacBackendError when there is none. No other backend changes. */
    method GetBackend(name: Option<string>, meas: bool) returns (r: Result<Backend>)
      requires Valid()
      modifies backends
      ensures name.None? || name.value == [] ==>
        r == Success(backends[0]) && backends[0].measurementError == (meas || old(backends[0].measurementError))
      ensures name == Some("generic_density_simulator") || name == Some("generic_counts_simulator") ==>
        r.Success? && fresh(r.value) && r.value.configName == GenericName &&
        r.value.kind == (if name.value == "generic_density_simulator" then Density else Counts)
      ensures name.Some? && name.value != [] && name.value != "generic_density_simulator" &&
              name.value != "generic_counts_simulator" ==>
        (FirstNamed(backends, name.value).None? ==> r == Failure(QuacBackendError(NonexistentMessage))) &&
        (FirstNamed(backends, name.value).Some? ==>
           r == Success(backends[FirstNamed(backends, name.value).value]) &&
           r.value.measurementError == meas)
      ensures forall b :: b in backends && (r.Failure? || b != r.value) ==> b.measurementError == old(b.measurementError)
    {
      if name.None? || name.value == [] {
        if meas {
          backends[0].measurementError := true;
        }
        return Success(backends[0]);
      } else if name.value == "generic_density_simulator" {
        var b := new Backend(GenericName, Density);
        return Success(b);
      } else if name.value == "generic_counts_simulator" {
        var b := new Backend(GenericName, Counts);
        return Success(b);
      }
      var first := FirstNamed(backends, name.value);
      if first.None? {
        return Failure(QuacBackendError(NonexistentMessage));
      }
      var chosen := backends[first.value];
      chosen.measurementError := meas;
      return Success(chosen);
    }
  }

  /** The backends whose name contains `name`, in list order. */
  function Matching(bs: seq<Backend>, name: string): seq<Backend>
  {
    if bs == [] then []
    else Matching(bs[..|bs| - 1], name) + (if Contains(bs[|bs| - 1].Name(), name) then [bs[|bs| - 1]] else [])
  }

  /** The index of the first backend named exactly `name`. */
  function FirstNamed(bs: seq<Backend>, name: string): (r: Option<nat>)
    ensures r.Some? ==> r.value < |bs|
  {
    if bs == [] then None
    else if bs[0].Name() == name then Some(0)
    else match FirstNamed(bs[1..], name)
      case None => None
      case Some(i) => Some(i + 1)
  }

  /** FirstNamed finds the earliest exact match, and finds none only when
      no backend has that name. */
  lemma {:induction false} FirstNamedMeaning(bs: seq<Backend>, name: string)
    ensures FirstNamed(bs, name).None? <==> forall i :: 0 <= i < |bs| ==> bs[i].Name() != name
    ensures FirstNamed(bs, name).Some? ==>
      var i := FirstNamed(bs, name).value;
      i < |bs| && bs[i].Name() == name && forall j :: 0 <= j < i ==> bs[j].Name() != name
  {
    if bs != [] && bs[0].Name() != name {
      FirstNamedMeaning(bs[1..], name);
      assert forall i :: 1 <= i < |bs| ==> bs[1..][i - 1] == bs[i];
    }
  }

  /** The search keeps exactly the backends whose name contains `name`. */
  lemma {:induction false} MatchingMeaning(bs: seq<Backend>, name: string)
    ensures |Matching(bs, name)| <= |bs|
    ensures forall b :: b in Matching(bs, name) <==> b in bs && Contains(b.Name(), name)
  {
    if bs != [] {
      var init := bs[..|bs| - 1];
      MatchingMeaning(init, name);
      assert bs == init + [bs[|bs| - 1]];
    }
  }

  /** The search keeps list order: searching a concatenation concatenates
      the searches. */
  lemma {:induction false} MatchingAppend(a: seq<Backend>, b: seq<Backend>, name: string)
    ensures Matching(a + b, name) == Matching(a, name) + Matching(b, name)
    decreases |b|
  {
    if b != [] {
      var init := b[..|b| - 1];
      assert (a + b)[..|a + b| - 1] == a + init;
      MatchingAppend(a, init, name);
    } else {
      assert a + b == a;
    }
  }

  /** Every backend matches the empty name. */
  lemma {:induction false} MatchingEmpty(bs: seq<Backend>)
    ensures Matching(bs, "") == bs
  {
    if bs != [] {
      MatchingEmpty(bs[..|bs| - 1]);
      ContainsEmpty(bs[|bs| - 1].Name());
      assert bs == bs[..|bs| - 1] + [bs[|bs| - 1]];
    }
  }

  lemma KeptMeaning(hws: seq<HardwareBackend>)
    ensures forall hw :: hw in Kept(hws) <==> hw in hws && Usable(hw)
  {
    if hws != [] {
      KeptMeaning(hws[..|hws| - 1]);
      assert hws == hws[..|hws| - 1] + [hws[|hws| - 1]];
    }
  }

  /** The k-th hardware backend contributes the counts simulator at 2k and
      the density simulator at 2k + 1. */
  lemma {:induction false} PairsAt(hws: seq<HardwareBackend>, k: nat)
    requires k < |hws|
    ensures |Pairs(hws)| == 2 * |hws|
    ensures Pairs(hws)[2 * k] == (ConfigNameOf(hws[k]), Counts)
    ensures Pairs(hws)[2 * k + 1] == (ConfigNameOf(hws[k]), Density)
  {
    var init := hws[..|hws| - 1];
    PairsLength(init);
    if k < |hws| - 1 {
      PairsAt(init, k);
    }
  }

  lemma {:induction false} PairsLength(hws: seq<HardwareBackend>)
    ensures |Pairs(hws)| == 2 * |hws|
  {
    if hws != [] {
      PairsLength(hws[..|hws| - 1]);
    }
  }

  /** The list starts with the generic density simulator, then the generic
      counts simulator; the k-th user backend contributes its counts
      simulator and then its density simulator after all fake pairs. */
  lemma LayoutShape(fakes: seq<HardwareBackend>, users: seq<HardwareBackend>, k: nat)
    requires k < |users|
    ensures var l, u := Layout(fakes, users), 2 + 2 * |Kept(fakes)|;
      |l| == u + 2 * |users| &&
      l[0] == (GenericName, Density) && l[1] == (GenericName, Counts) &&
      l[u + 2 * k] == (ConfigNameOf(users[k]), Counts) &&
      l[u + 2 * k + 1] == (ConfigNameOf(users[k]), Density)
  {
    PairsLength(Kept(fakes));
    PairsAt(users, k);
  }

  /** The latch step of `QuacProvider(...)`: initialise the engine unless
      the latch is already set, then set it. */
  method EnterLatch(latch: EngineLatch)
    requires latch.Valid()
    modifies latch
    ensures latch.instantiated && latch.Valid()
    ensures latch.initializeCalls == old(latch.initializeCalls) + (if old(latch.instantiated) then 0 else 1)
  {
    if !latch.instantiated {
      latch.initializeCalls := latch.initializeCalls + 1;
    }
    latch.instantiated := true;
  }

  /** `QuacProvider(user_def_backends)`: the latch step, then the backend
      list; a user backend named like a fake backend raises QuacBackendError
      (after the latch is set). */
  method CreateProvider(latch: EngineLatch, fakes: seq<HardwareBackend>, users: seq<HardwareBackend>)
    returns (r: Result<QuacProvider>)
    requires latch.Valid()
    modifies latch
    ensures latch.instantiated && latch.Valid()
    ensures latch.initializeCalls == old(latch.initializeCalls) + (if old(latch.instantiated) then 0 else 1)
    ensures r.Failure? <==> Collides(fakes, users)
    ensures r.Failure? ==> r.error == QuacBackendError(CollisionMessage)
    ensures r.Success? ==>
      (fresh(r.value) && r.value.Valid() && Describe(r.value.backends) == Layout(fakes, users) &&
       forall i :: 0 <= i < |r.value.backends| ==> fresh(r.value.backends[i]) && !r.value.backends[i].measurementError)
  {
    EnterLatch(latch);
    var bs := BuildBackends(fakes, users);
    if bs.Failure? {
      return Failure(bs.error);
    }
    var provider := new QuacProvider(bs.value);
    r := Success(provider);
  }

  /** The backend list of the constructor, or the collision error. */
  method BuildBackends(fakes: seq<HardwareBackend>, users: seq<HardwareBackend>) returns (r: Result<seq<Backend>>)
    ensures r.Failure? <==> Collides(fakes, users)
    ensures r.Failure? ==> r.error == QuacBackendError(CollisionMessage)
    ensures r.Success? ==>
      (|r.value| >= 2 && Describe(r.value) == Layout(fakes, users) &&
       forall i :: 0 <= i < |r.value| ==> fresh(r.value[i]) && !r.value[i].measurementError)
  {
    var density := new Backend(GenericName, Density);
    var counts := new Backend(GenericName, Counts);
    var fakeBackends := FakeSimulators(fakes);
    var userBackends := UserSimulators(fakes, users);
    if userBackends.Failure? {
      return Failure(userBackends.error);
    }
    var generic := [density, counts];
    DescribeAppend(generic, fakeBackends);
    DescribeAppend(generic + fakeBackends, userBackends.value);
    assert Describe(generic) == [(GenericName, Density), (GenericName, Counts)];
    var bs := generic + fakeBackends + userBackends.value;
    forall i | 0 <= i < |bs| ensures fresh(bs[i]) && !bs[i].measurementError {
      if i >= |generic| + |fakeBackends| {
        assert bs[i] == userBackends.value[i - |generic| - |fakeBackends|];
      } else if i >= |generic| {
        assert bs[i] == fakeBackends[i - |generic|];
      }
    }
    return Success(bs);
  }

  /** The loop over the fake backends. */
  method FakeSimulators(fakes: seq<HardwareBackend>) returns (bs: seq<Backend>)
    ensures Describe(bs) == Pairs(Kept(fakes))
    ensures forall i :: 0 <= i < |bs| ==> fresh(bs[i]) && !bs[i].measurementError
  {
    bs := [];
    for k := 0 to |fakes|
      invariant Describe(bs) == Pairs(Kept(fakes[..k]))
      invariant forall i :: 0 <= i < |bs| ==> fresh(bs[i]) && !bs[i].measurementError
    {
      bs := AddFake(bs, fakes, k);
    }
    assert fakes[..|fakes|] == fakes;
  }

  /** The loop over the user backends, stopping at the first collision. */
  method UserSimulators(fakes: seq<HardwareBackend>, users: seq<HardwareBackend>) returns (r: Result<seq<Backend>>)
    ensures r.Failure? <==> Collides(fakes, users)
    ensures r.Failure? ==> r.error == QuacBackendError(CollisionMessage)
    ensures r.Success? ==>
      (Describe(r.value) == Pairs(users) &&
       forall i :: 0 <= i < |r.value| ==> fresh(r.value[i]) && !r.value[i].measurementError)
  {
    var bs: seq<Backend> := [];
    for k := 0 to |users|
      invariant !Collides(fakes, users[..k])
      invariant Describe(bs) == Pairs(users[..k])
      invariant forall i :: 0 <= i < |bs| ==> fresh(bs[i]) && !bs[i].measurementError
    {
      if users[k].name in Names(fakes) {
        assert 0 <= k < |users| && users[k].name in Names(fakes);
        return Failure(QuacBackendError(CollisionMessage));
      }
      bs := AddHardware(bs, users[k], users, k);
      assert !Collides(fakes, users[..k + 1]) by {
        assert forall j :: 0 <= j < k ==> users[..k + 1][j] == users[..k][j];
      }
    }
    assert users[..|users|] == users;
    return Success(bs);
  }

  /** One step of the fake-backend loop: a usable fake backend adds its
      counts and density simulators. */
  method AddFake(bs: seq<Backend>, fakes: seq<HardwareBackend>, k: nat) returns (bs': seq<Backend>)
    requires k < |fakes|
    ensures Pairs(Kept(fakes[..k + 1])) == Pairs(Kept(fakes[..k])) +
      (if Usable(fakes[k]) then [(ConfigNameOf(fakes[k]), Counts), (ConfigNameOf(fakes[k]), Density)] else [])
    ensures Describe(bs') == Describe(bs) +
      (if Usable(fakes[k]) then [(ConfigNameOf(fakes[k]), Counts), (ConfigNameOf(fakes[k]), Density)] else [])
    ensures forall i :: 0 <= i < |bs| ==> bs'[i] == bs[i]
    ensures forall i :: |bs| <= i < |bs'| ==> fresh(bs'[i]) && !bs'[i].measurementError
  {
    var fake := fakes[k];
    assert fakes[..k + 1][..k] == fakes[..k];
    if Contains(fake.name, "qasm") || Contains(fake.name, "pulse") {
      assert Kept(fakes[..k + 1]) == Kept(fakes[..k]);
      return bs;
    }
    var kept := Kept(fakes[..k]);
    assert Kept(fakes[..k + 1]) == kept + [fake];
    assert (kept + [fake])[..|kept|] == kept;
    var c := new Backend(ConfigNameOf(fake), Counts);
    var d := new Backend(ConfigNameOf(fake), Density);
    bs' := bs + [c, d];
    assert Describe(bs') == Describe(bs) + [(ConfigNameOf(fake), Counts), (ConfigNameOf(fake), Density)];
  }

  /** Appending a hardware backend's pair of simulators. */
  method AddHardware(bs: seq<Backend>, hw: HardwareBackend, ghost hws: seq<HardwareBackend>, ghost k: nat)
    returns (bs': seq<Backend>)
    requires k < |hws| && hws[k] == hw
    ensures Describe(bs') == Describe(bs) + [(ConfigNameOf(hw), Counts), (ConfigNameOf(hw), Density)]
    ensures Pairs(hws[..k + 1]) == Pairs(hws[..k]) + [(ConfigNameOf(hw), Counts), (ConfigNameOf(hw), Density)]
    ensures |bs'| == |bs| + 2 && bs'[..|bs|] == bs
    ensures fresh(bs'[|bs|]) && fresh(bs'[|bs| + 1]) && !bs'[|bs|].measurementError && !bs'[|bs| + 1].measurementError
  {
    assert hws[..k + 1][..k] == hws[..k];
    var c := new Backend(ConfigNameOf(hw), Counts);
    var d := new Backend(ConfigNameOf(hw), Density);
    bs' := bs + [c, d];
    assert Describe(bs') == Describe(bs) + [(ConfigNameOf(hw), Counts), (ConfigNameOf(hw), Density)];
  }
}
