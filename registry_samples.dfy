/**
 * The sample services of the repository's tests and demo program, and the
 * outcome of each test scenario, derived from the model.  A service's
 * interfaces are the ones that extend IService; its Init is the list of
 * Get<T>(mustBeUsable) calls it makes, and whether it then throws.
 */
module RegistrySamples {
  import opened Wrappers
  import opened RegistryModel
  import opened RegistryProps
  import opened ServiceRepo

  const SampleNamespace := "Arvarga.Utils.ServiceRepo.Test.Sample."
  const ISimpleOne := SampleNamespace + "ISimpleOneService"
  const ISimpleTwo := SampleNamespace + "ISimpleTwoService"
  const ICompoundThree := SampleNamespace + "ICompoundThreeService"
  const ICompoundFour := SampleNamespace + "ICompoundFourService"
  const IThrowsInInit := SampleNamespace + "IThrowsInInitService"
  const IAggregate := "Arvarga.Utils.ServiceRepo.IAggregateService"

  /** Init does nothing. */
  const SimpleOne := Service("SimpleOneService", [ISimpleOne], [], [], false)
  const SimpleTwo := Service("SimpleTwoService", [ISimpleTwo], [], [], false)
  /** Init stores references to its peers, without needing them initialised. */
  const CompoundThree := Service("CompoundThreeService", [ICompoundThree], [],
                                 [GetCall(ISimpleOne, false), GetCall(ISimpleTwo, false)], false)
  /** Init uses SimpleOne right away, so it asks for it initialised. */
  const CompoundFour := Service("CompoundFourService", [ICompoundFour], [],
                                [GetCall(ISimpleOne, true), GetCall(ISimpleTwo, false)], false)
  /** Init throws. */
  const ThrowsInInit := Service("ThrowsInInitService", [IThrowsInInit], [], [], true)
  /** An aggregate of the first three services; its own Init does nothing. */
  const OneToThree := Service("ServicesOneToThreeAggregate", [IAggregate], [SimpleOne, SimpleTwo, CompoundThree], [], false)

  lemma InterfaceNamesDistinct()
    ensures ISimpleOne != ISimpleTwo && ICompoundThree != ICompoundFour && ICompoundFour != IThrowsInInit
    ensures |ISimpleOne| == |ISimpleTwo| == 55 && |ICompoundThree| == 59 && |ICompoundFour| == 58 && |IAggregate| == 43
  {
    assert ISimpleOne[45] == 'O' && ISimpleTwo[45] == 'T';
    assert ICompoundFour[39] == 'C' && IThrowsInInit[39] == 'T';
  }

  function Fresh(s: Service): ServiceInfo { ServiceInfo(s, false) }

  // ---------------------------------------------------------------------------
  // Registering three plain services
  // ---------------------------------------------------------------------------

  /** Registering three plain services with distinct new interfaces appends their keys and entries in order. */
  lemma RegisterThree(r0: Repo, a: Service, b: Service, c: Service)
    requires WellFormed(r0) && Sequential(r0)
    requires |a.interfaces| == 1 && |b.interfaces| == 1 && |c.interfaces| == 1
    requires a.children == [] && b.children == [] && c.children == []
    requires a.interfaces != b.interfaces && a.interfaces != c.interfaces && b.interfaces != c.interfaces
    requires a.interfaces[0] !in r0.dict && b.interfaces[0] !in r0.dict && c.interfaces[0] !in r0.dict
    ensures var r := RegisterAll(r0, [a, b, c]);
            Sequential(r) && r.state == SomeAdded &&
            r.keys == r0.keys + [a.interfaces[0], b.interfaces[0], c.interfaces[0]] &&
            r.entries == r0.entries + [Fresh(a), Fresh(b), Fresh(c)]
  {
    PlainThree(r0, a, b, c);
    RegisterPlain(r0, [a, b, c]);
    AppendedThree(r0, RegisterAll(r0, [a, b, c]), a, b, c);
  }

  lemma PlainThree(r0: Repo, a: Service, b: Service, c: Service)
    requires |a.interfaces| == 1 && |b.interfaces| == 1 && |c.interfaces| == 1
    requires a.children == [] && b.children == [] && c.children == []
    requires a.interfaces != b.interfaces && a.interfaces != c.interfaces && b.interfaces != c.interfaces
    requires a.interfaces[0] !in r0.dict && b.interfaces[0] !in r0.dict && c.interfaces[0] !in r0.dict
    ensures PlainFrom(r0, [a, b, c])
  {
  }

  lemma AppendedThree(r0: Repo, r: Repo, a: Service, b: Service, c: Service)
    requires |a.interfaces| == 1 && |b.interfaces| == 1 && |c.interfaces| == 1
    requires |r0.keys| == |r0.entries| && AppendedPlain(r0, [a, b, c], r)
    requires r.keys[..|r0.keys|] == r0.keys && r.entries[..|r0.entries|] == r0.entries
    ensures r.keys == r0.keys + [a.interfaces[0], b.interfaces[0], c.interfaces[0]]
    ensures r.entries == r0.entries + [Fresh(a), Fresh(b), Fresh(c)]
  {
    var l := [a, b, c];
    var n := |r0.keys|;
    assert l[0] == a && l[1] == b && l[2] == c;
    assert r.keys == r.keys[..n] + [r.keys[n], r.keys[n + 1], r.keys[n + 2]];
    assert r.entries == r.entries[..n] + [r.entries[n], r.entries[n + 1], r.entries[n + 2]];
  }

  /** Registering an aggregate of three plain services: the aggregate is filed first, then its children. */
  lemma RegisterAggregateOfThree(r0: Repo, g: Service, a: Service, b: Service, c: Service)
    requires WellFormed(r0) && Sequential(r0) && g.children == [a, b, c] && |g.interfaces| == 1
    requires |a.interfaces| == 1 && |b.interfaces| == 1 && |c.interfaces| == 1
    requires a.children == [] && b.children == [] && c.children == []
    requires a.interfaces != b.interfaces && a.interfaces != c.interfaces && b.interfaces != c.interfaces
    requires g.interfaces[0] != a.interfaces[0] && g.interfaces[0] != b.interfaces[0] && g.interfaces[0] != c.interfaces[0]
    requires g.interfaces[0] !in r0.dict && a.interfaces[0] !in r0.dict && b.interfaces[0] !in r0.dict && c.interfaces[0] !in r0.dict
    ensures var r := RegisterAll(r0, [g]);
            Sequential(r) && r.state == SomeAdded &&
            r.keys == r0.keys + [g.interfaces[0]] + [a.interfaces[0], b.interfaces[0], c.interfaces[0]] &&
            r.entries == r0.entries + [Fresh(g)] + [Fresh(a), Fresh(b), Fresh(c)]
  {
    FileOne(r0, g);
    RegisterAggregateUnfold(r0, g, a, b, c);
    RegisterThree(File(r0, g), a, b, c);
  }

  lemma RegisterAggregateUnfold(r0: Repo, g: Service, a: Service, b: Service, c: Service)
    requires WellFormed(r0) && g.children == [a, b, c]
    ensures RegisterAll(r0, [g]) == RegisterAll(File(r0, g), [a, b, c])
  {
    assert RegisterAll(r0, [g]) == Register(r0, g);
  }

  /** Every Get<T> the script makes names one of `keys`. */
  ghost predicate LooksUpOnly(script: seq<GetCall>, keys: set<string>) {
    forall g :: g in script ==> g.key in keys
  }

  /** A script whose every lookup names an initialised entry passes. */
  lemma ScriptOfInited(r: Repo, script: seq<GetCall>, keys: set<string>)
    requires WellFormed(r) && r.state.Started() && LooksUpOnly(script, keys)
    requires forall k :: k in keys ==> k in r.dict && r.entries[r.dict[k]].initedFlag
    ensures RunScript(r, script) == Pass
  {
    forall j | 0 <= j < |script|
      ensures Lookup(r, script[j].key, script[j].mustBeUsable).Success?
    {
      assert script[j] in script;
    }
  }

  /**
   * Three plain services whose first two have no lookups and whose third
   * looks up only the first two: all three initialise, in order.
   */
  lemma ThreeInOrder(a: Service, b: Service, c: Service)
    requires |a.interfaces| == 1 && |b.interfaces| == 1 && |c.interfaces| == 1
    requires a.children == [] && b.children == [] && c.children == []
    requires a.interfaces != b.interfaces && a.interfaces != c.interfaces && b.interfaces != c.interfaces
    requires a.script == [] && !a.throws && b.script == [] && !b.throws && !c.throws
    requires LooksUpOnly(c.script, {a.interfaces[0], b.interfaces[0]})
    ensures var res := InitWithServicesSpec(EmptyRepo, [a, b, c]);
            res.outcome == Pass &&
            Lookup(res.repo, a.interfaces[0], true) == Success(a) &&
            Lookup(res.repo, b.interfaces[0], true) == Success(b) &&
            Lookup(res.repo, c.interfaces[0], true) == Success(c)
  {
    var r := RegisterAll(EmptyRepo, [a, b, c]);
    RegisterThree(EmptyRepo, a, b, c);
    assert EmptyRepo.keys + [a.interfaces[0], b.interfaces[0], c.interfaces[0]] == [a.interfaces[0], b.interfaces[0], c.interfaces[0]];
    assert EmptyRepo.entries + [Fresh(a), Fresh(b), Fresh(c)] == [Fresh(a), Fresh(b), Fresh(c)];
    ThreeInOrderInit(r, a, b, c);
  }

  lemma ThreeInOrderInit(r: Repo, a: Service, b: Service, c: Service)
    requires |a.interfaces| == 1 && |b.interfaces| == 1 && |c.interfaces| == 1
    requires WellFormed(r) && Sequential(r) && r.state == SomeAdded
    requires r.keys == [a.interfaces[0], b.interfaces[0], c.interfaces[0]] && r.entries == [Fresh(a), Fresh(b), Fresh(c)]
    requires a.script == [] && !a.throws && b.script == [] && !b.throws && !c.throws
    requires LooksUpOnly(c.script, {a.interfaces[0], b.interfaces[0]})
    ensures var res := InitAll(r);
            res.outcome == Pass &&
            Lookup(res.repo, a.interfaces[0], true) == Success(a) &&
            Lookup(res.repo, b.interfaces[0], true) == Success(b) &&
            Lookup(res.repo, c.interfaces[0], true) == Success(c)
  {
    ThreeEachPasses(r, a, b, c);
    InitInOrder(r);
    var f := InitAll(r).repo;
    assert Lookup(f, r.keys[0], true) == Success(r.entries[0].service);
    assert Lookup(f, r.keys[1], true) == Success(r.entries[1].service);
    assert Lookup(f, r.keys[2], true) == Success(r.entries[2].service);
  }

  /** Each Init of the three-service registry passes once the entries before it are initialised. */
  lemma ThreeEachPasses(r: Repo, a: Service, b: Service, c: Service)
    requires |a.interfaces| == 1 && |b.interfaces| == 1 && |c.interfaces| == 1
    requires WellFormed(r) && Sequential(r)
    requires r.keys == [a.interfaces[0], b.interfaces[0], c.interfaces[0]] && r.entries == [Fresh(a), Fresh(b), Fresh(c)]
    requires a.script == [] && !a.throws && b.script == [] && !b.throws && !c.throws
    requires LooksUpOnly(c.script, {a.interfaces[0], b.interfaces[0]})
    ensures forall j :: 0 <= j < |r.keys| ==>
              RunInit(MarkInited(r.(state := InitCallsStarted), 0, j), r.entries[j].service) == Pass
  {
    var s := r.(state := InitCallsStarted);
    forall j | 0 <= j < 3
      ensures RunInit(MarkInited(s, 0, j), r.entries[j].service) == Pass
    {
      if j == 2 {
        var m := MarkInited(s, 0, j);
        assert m.dict[m.keys[0]] == 0 && m.dict[m.keys[1]] == 1;
        ScriptOfInited(m, c.script, {a.interfaces[0], b.interfaces[0]});
      }
    }
  }

  /**
   * Three plain services whose first asks, first of all, for the second
   * one initialised: its Init fails, the other two initialise, and the pass
   * reports the first one's failure.
   */
  lemma FirstNeedsLater(c: Service, a: Service, b: Service)
    requires |a.interfaces| == 1 && |b.interfaces| == 1 && |c.interfaces| == 1
    requires a.children == [] && b.children == [] && c.children == []
    requires a.interfaces != b.interfaces && a.interfaces != c.interfaces && b.interfaces != c.interfaces
    requires a.script == [] && !a.throws && b.script == [] && !b.throws
    requires c.script != [] && c.script[0] == GetCall(a.interfaces[0], true)
    ensures var res := InitWithServicesSpec(EmptyRepo, [c, a, b]);
            res.outcome == Fail(InitFailed(c.name, NotYetInitialized(a.interfaces[0]))) &&
            res.repo.state == InitCallsComplete &&
            Lookup(res.repo, c.interfaces[0], true) == Failure(NotYetInitialized(c.interfaces[0])) &&
            Lookup(res.repo, a.interfaces[0], true) == Success(a) &&
            Lookup(res.repo, b.interfaces[0], true) == Success(b)
  {
    var r := RegisterAll(EmptyRepo, [c, a, b]);
    RegisterThree(EmptyRepo, c, a, b);
    assert EmptyRepo.keys + [c.interfaces[0], a.interfaces[0], b.interfaces[0]] == [c.interfaces[0], a.interfaces[0], b.interfaces[0]];
    assert EmptyRepo.entries + [Fresh(c), Fresh(a), Fresh(b)] == [Fresh(c), Fresh(a), Fresh(b)];
    FirstNeedsLaterInit(r, c, a, b);
  }

  lemma FirstNeedsLaterInit(r: Repo, c: Service, a: Service, b: Service)
    requires |a.interfaces| == 1 && |b.interfaces| == 1 && |c.interfaces| == 1
    requires WellFormed(r) && Sequential(r) && r.state == SomeAdded
    requires r.keys == [c.interfaces[0], a.interfaces[0], b.interfaces[0]] && r.entries == [Fresh(c), Fresh(a), Fresh(b)]
    requires a.script == [] && !a.throws && b.script == [] && !b.throws
    requires c.script != [] && c.script[0] == GetCall(a.interfaces[0], true)
    ensures var res := InitAll(r);
            res.outcome == Fail(InitFailed(c.name, NotYetInitialized(a.interfaces[0]))) &&
            res.repo.state == InitCallsComplete &&
            Lookup(res.repo, c.interfaces[0], true) == Failure(NotYetInitialized(c.interfaces[0])) &&
            Lookup(res.repo, a.interfaces[0], true) == Success(a) &&
            Lookup(res.repo, b.interfaces[0], true) == Success(b)
  {
    var s := r.(state := InitCallsStarted);
    assert s.dict[s.keys[0]] == 0 && s.dict[s.keys[1]] == 1 && s.dict[s.keys[2]] == 2;
    assert RunScript(s, c.script) == Fail(NotYetInitialized(a.interfaces[0]));
    InitFirstFails(r);
  }

  /** A single plain service without lookups: its own throw decides the outcome; other keys are not found. */
  lemma SingleService(a: Service, k: string)
    requires |a.interfaces| == 1 && a.children == [] && a.script == []
    ensures var res := InitWithServicesSpec(EmptyRepo, [a]);
            res.outcome == (if a.throws then Fail(InitFailed(a.name, Thrown)) else Pass) &&
            Lookup(res.repo, k, false) == if k == a.interfaces[0] then Success(a) else Failure(NotFound(k))
  {
    RegisterOnePlain(EmptyRepo, a);
    assert RegisterAll(EmptyRepo, [a]) == Register(EmptyRepo, a);
    SingleServiceInit(RegisterAll(EmptyRepo, [a]), a, k);
  }

  lemma SingleServiceInit(r: Repo, a: Service, k: string)
    requires |a.interfaces| == 1 && a.script == []
    requires WellFormed(r) && Sequential(r) && r.state == SomeAdded && r.keys == [a.interfaces[0]] && r.entries == [Fresh(a)]
    ensures var res := InitAll(r);
            res.outcome == (if a.throws then Fail(InitFailed(a.name, Thrown)) else Pass) &&
            Lookup(res.repo, k, false) == if k == a.interfaces[0] then Success(a) else Failure(NotFound(k))
  {
    var s := r.(state := InitCallsStarted);
    assert s.dict[s.keys[0]] == 0;
    if a.throws {
      WalkFail(s, 0, None);
    } else {
      InitInOrder(r);
    }
    assert InitAll(r).repo.keys == [a.interfaces[0]];
  }

  /**
   * An aggregate without lookups of three plain services as in ThreeInOrder:
   * the aggregate and all three children initialise, in that order.
   */
  lemma AggregateInOrder(g: Service, a: Service, b: Service, c: Service)
    requires g.children == [a, b, c] && |g.interfaces| == 1 && g.script == [] && !g.throws
    requires |a.interfaces| == 1 && |b.interfaces| == 1 && |c.interfaces| == 1
    requires a.children == [] && b.children == [] && c.children == []
    requires a.interfaces != b.interfaces && a.interfaces != c.interfaces && b.interfaces != c.interfaces
    requires g.interfaces[0] != a.interfaces[0] && g.interfaces[0] != b.interfaces[0] && g.interfaces[0] != c.interfaces[0]
    requires a.script == [] && !a.throws && b.script == [] && !b.throws && !c.throws
    requires LooksUpOnly(c.script, {a.interfaces[0], b.interfaces[0]})
    ensures var res := InitWithServicesSpec(EmptyRepo, [g]);
            res.outcome == Pass &&
            Lookup(res.repo, a.interfaces[0], true) == Success(a) &&
            Lookup(res.repo, b.interfaces[0], true) == Success(b) &&
            Lookup(res.repo, c.interfaces[0], true) == Success(c)
  {
    var r := RegisterAll(EmptyRepo, [g]);
    RegisterAggregateOfThree(EmptyRepo, g, a, b, c);
    AggregateInOrderInit(r, g, a, b, c);
  }

  lemma AggregateInOrderInit(r: Repo, g: Service, a: Service, b: Service, c: Service)
    requires |g.interfaces| == 1 && g.script == [] && !g.throws
    requires |a.interfaces| == 1 && |b.interfaces| == 1 && |c.interfaces| == 1
    requires WellFormed(r) && Sequential(r) && r.state == SomeAdded
    requires r.keys == [] + [g.interfaces[0]] + [a.interfaces[0], b.interfaces[0], c.interfaces[0]]
    requires r.entries == [] + [Fresh(g)] + [Fresh(a), Fresh(b), Fresh(c)]
    requires a.script == [] && !a.throws && b.script == [] && !b.throws && !c.throws
    requires LooksUpOnly(c.script, {a.interfaces[0], b.interfaces[0]})
    ensures var res := InitAll(r);
            res.outcome == Pass &&
            Lookup(res.repo, a.interfaces[0], true) == Success(a) &&
            Lookup(res.repo, b.interfaces[0], true) == Success(b) &&
            Lookup(res.repo, c.interfaces[0], true) == Success(c)
  {
    assert r.keys == [g.interfaces[0], a.interfaces[0], b.interfaces[0], c.interfaces[0]];
    assert r.entries == [Fresh(g), Fresh(a), Fresh(b), Fresh(c)];
    AggregateEachPasses(r, g, a, b, c);
    InitInOrder(r);
    var f := InitAll(r).repo;
    assert Lookup(f, r.keys[1], true) == Success(r.entries[1].service);
    assert Lookup(f, r.keys[2], true) == Success(r.entries[2].service);
    assert Lookup(f, r.keys[3], true) == Success(r.entries[3].service);
  }

  /** Each Init of the aggregate registry passes once the entries before it are initialised. */
  lemma AggregateEachPasses(r: Repo, g: Service, a: Service, b: Service, c: Service)
    requires |g.interfaces| == 1 && g.script == [] && !g.throws
    requires |a.interfaces| == 1 && |b.interfaces| == 1 && |c.interfaces| == 1
    requires WellFormed(r) && Sequential(r)
    requires r.keys == [g.interfaces[0], a.interfaces[0], b.interfaces[0], c.interfaces[0]]
    requires r.entries == [Fresh(g), Fresh(a), Fresh(b), Fresh(c)]
    requires a.script == [] && !a.throws && b.script == [] && !b.throws && !c.throws
    requires LooksUpOnly(c.script, {a.interfaces[0], b.interfaces[0]})
    ensures forall j :: 0 <= j < |r.keys| ==>
              RunInit(MarkInited(r.(state := InitCallsStarted), 0, j), r.entries[j].service) == Pass
  {
    var s := r.(state := InitCallsStarted);
    forall j | 0 <= j < 4
      ensures RunInit(MarkInited(s, 0, j), r.entries[j].service) == Pass
    {
      if j == 3 {
        var m := MarkInited(s, 0, j);
        assert m.dict[m.keys[1]] == 1 && m.dict[m.keys[2]] == 2;
        ScriptOfInited(m, c.script, {a.interfaces[0], b.interfaces[0]});
      }
    }
  }

  // ---------------------------------------------------------------------------
  // The test scenarios
  // ---------------------------------------------------------------------------

  /** TestServiceCreation_Simple: all three initialise, and each is retrievable, initialised, under its interface. */
  lemma SimpleScenario()
    ensures var res := InitWithServicesSpec(EmptyRepo, [SimpleOne, SimpleTwo, CompoundThree]);
            res.outcome == Pass &&
            Lookup(res.repo, ISimpleOne, true) == Success(SimpleOne) &&
            Lookup(res.repo, ISimpleTwo, true) == Success(SimpleTwo) &&
            Lookup(res.repo, ICompoundThree, true) == Success(CompoundThree)
  {
    InterfaceNamesDistinct();
    ThreeInOrder(SimpleOne, SimpleTwo, CompoundThree);
  }

  /** TestServiceCreation_WithDependencies: CompoundFour's initialised lookup of SimpleOne succeeds, since SimpleOne comes first. */
  lemma WithDependenciesScenario()
    ensures var res := InitWithServicesSpec(EmptyRepo, [SimpleOne, SimpleTwo, CompoundFour]);
            res.outcome == Pass &&
            Lookup(res.repo, ISimpleOne, true) == Success(SimpleOne) &&
            Lookup(res.repo, ISimpleTwo, true) == Success(SimpleTwo) &&
            Lookup(res.repo, ICompoundFour, true) == Success(CompoundFour)
  {
    InterfaceNamesDistinct();
    ThreeInOrder(SimpleOne, SimpleTwo, CompoundFour);
  }

  /**
   * TestServiceCreation_WithDependenciesReverseOrder: CompoundFour comes
   * first and its initialised lookup of SimpleOne fails; the other two are
   * still initialised, and the pass reports CompoundFour's failure.
   */
  lemma ReverseOrderScenario()
    ensures var res := InitWithServicesSpec(EmptyRepo, [CompoundFour, SimpleOne, SimpleTwo]);
            res.outcome == Fail(InitFailed("CompoundFourService", NotYetInitialized(ISimpleOne))) &&
            res.repo.state == InitCallsComplete &&
            Lookup(res.repo, ICompoundFour, true) == Failure(NotYetInitialized(ICompoundFour)) &&
            Lookup(res.repo, ISimpleOne, true) == Success(SimpleOne) &&
            Lookup(res.repo, ISimpleTwo, true) == Success(SimpleTwo)
  {
    InterfaceNamesDistinct();
    FirstNeedsLater(CompoundFour, SimpleOne, SimpleTwo);
  }

  /** TestServiceCreation_MissingService: a service that was never added is not found. */
  lemma MissingServiceScenario()
    ensures var res := InitWithServicesSpec(EmptyRepo, [SimpleOne]);
            res.outcome == Pass &&
            Lookup(res.repo, ISimpleOne, false) == Success(SimpleOne) &&
            Lookup(res.repo, ISimpleTwo, false) == Failure(NotFound(ISimpleTwo))
  {
    InterfaceNamesDistinct();
    SingleService(SimpleOne, ISimpleOne);
    SingleService(SimpleOne, ISimpleTwo);
  }

  /** TestServiceCreation_ExceptionFromInit: the exception thrown by Init is what the pass reports. */
  lemma ExceptionFromInitScenario()
    ensures InitWithServicesSpec(EmptyRepo, [ThrowsInInit]).outcome == Fail(InitFailed("ThrowsInInitService", Thrown))
  {
    SingleService(ThrowsInInit, IThrowsInInit);
  }

  /**
   * Registering the aggregate gives the same lookups as registering its three
   * children, under every key except the aggregate's own IAggregateService.
   */
  lemma AggregateSameLookups(k: string)
    requires k != IAggregate
    ensures At(RegisterAll(EmptyRepo, [OneToThree]), k) == At(RegisterAll(EmptyRepo, [SimpleOne, SimpleTwo, CompoundThree]), k)
  {
    assert RegisterAll(EmptyRepo, [OneToThree]) == Register(EmptyRepo, OneToThree);
    AggregateTransparent(EmptyRepo, OneToThree, k);
  }

  /** TestServiceCreation_Aggregate: initialising the aggregate makes all three children usable. */
  lemma AggregateScenario()
    ensures var res := InitWithServicesSpec(EmptyRepo, [OneToThree]);
            res.outcome == Pass &&
            Lookup(res.repo, ISimpleOne, true) == Success(SimpleOne) &&
            Lookup(res.repo, ISimpleTwo, true) == Success(SimpleTwo) &&
            Lookup(res.repo, ICompoundThree, true) == Success(CompoundThree)
  {
    InterfaceNamesDistinct();
    AggregateInOrder(OneToThree, SimpleOne, SimpleTwo, CompoundThree);
  }

  lemma RegisterAllThree(r: Repo, a: Service, b: Service, c: Service)
    requires WellFormed(r)
    ensures RegisterAll(r, [a, b, c]) == Register(Register(Register(r, a), b), c)
  {
    assert [a, b, c][1..] == [b, c] && [b, c][1..] == [c];
    var r1 := Register(r, a);
    var r2 := Register(r1, b);
    assert RegisterAll(r2, [c]) == RegisterAll(Register(r2, c), []);
  }

  /** TestServiceCreation_AddOneByOne: three Adds, then InitServices, on a new repository object. */
  method AddOneByOneScenario() returns (added: seq<Outcome<Error>>, inited: Outcome<Error>, found: seq<Result<Service, Error>>)
    ensures added == [Pass, Pass, Pass] && inited == Pass
    ensures found == [Success(SimpleOne), Success(SimpleTwo), Success(CompoundThree)]
  {
    var repo := new ServiceRepository();
    var r1 := repo.Add(SimpleOne);
    var r2 := repo.Add(SimpleTwo);
    var r3 := repo.Add(CompoundThree);
    added := [r1, r2, r3];
    RegisterAllThree(EmptyRepo, SimpleOne, SimpleTwo, CompoundThree);
    SimpleScenario();
    inited := repo.InitServices();
    found := [repo.Get(ISimpleOne, true), repo.Get(ISimpleTwo, true), repo.Get(ICompoundThree, true)];
  }
}
