/**
 * The repository object.  Its fields are those of the source class; every
 * method is proved to leave the object in the state the value-level model
 * of RegistryModel prescribes, and to return the error the source throws.
 */
module ServiceRepo {
  import opened Wrappers
  import opened RegistryModel

  class ServiceRepository {
    var state: InitializeState
    var dict: map<string, nat>
    /** The dictionary's enumeration order: keys in order of first insertion. */
    var keys: seq<string>
    /** The ServiceInfo records the dictionary's values refer to. */
    var entries: seq<ServiceInfo>

    function Model(): Repo
      reads this
    {
      Repo(state, dict, keys, entries)
    }

    ghost predicate Valid()
      reads this
    {
      WellFormed(Model())
    }

    constructor ()
      ensures Valid() && Model() == EmptyRepo
    {
      state := NotInitialized;
      dict := map[];
      keys := [];
      entries := [];
    }

    /** Add: refused once the init pass has started; otherwise files `s` and, for an aggregate, its children. */
    method Add(s: Service) returns (res: Outcome<Error>)
      requires Valid()
      modifies this
      ensures Valid()
      ensures old(state).Started() ==> res == Fail(RegistryClosed) && Model() == old(Model())
      ensures !old(state).Started() ==> res == Pass && Model() == Register(old(Model()), s)
      decreases s, 1
    {
      if state.Started() {
        return Fail(RegistryClosed);
      }
      ghost var r0 := Model();
      var id := |entries|;
      entries := entries + [ServiceInfo(s, false)];
      FileInterfaces(s.interfaces, id);
      state := SomeAdded;
      assert Model() == File(r0, s);
      if s.IsAggregate() {
        res := AddServices(s.children);
        assert res == Pass;
      } else {
        res := Pass;
      }
    }

    /** The dictionary part of Add: every interface name now maps to entry `id`; new names join the order. */
    method FileInterfaces(ifaces: seq<string>, id: nat)
      modifies this
      ensures (dict, keys) == FileUnder(old(dict), old(keys), ifaces, id)
      ensures state == old(state) && entries == old(entries)
    {
      var d: map<string, nat>, ks: seq<string> := dict, keys;
      var i := 0;
      while i < |ifaces|
        invariant 0 <= i <= |ifaces|
        invariant unchanged(this)
        invariant FileUnder(d, ks, ifaces[i..], id) == FileUnder(old(dict), old(keys), ifaces, id)
      {
        var k := ifaces[i];
        FileUnderStep(d, ks, ifaces, i, id);
        ks := if k in d then ks else ks + [k];
        d := d[k := id];
        i := i + 1;
      }
      assert ifaces[i..] == [] && FileUnder(d, ks, [], id) == (d, ks);
      dict, keys := d, ks;
    }

    /** AddServices: Add each service in the order given; the first refusal propagates. */
    method AddServices(l: seq<Service>) returns (res: Outcome<Error>)
      requires Valid()
      modifies this
      ensures Valid()
      ensures l != [] && old(state).Started() ==> res == Fail(RegistryClosed) && Model() == old(Model())
      ensures l == [] || !old(state).Started() ==> res == Pass && Model() == RegisterAll(old(Model()), l)
      decreases l, 0
    {
      ghost var r0 := Model();
      var i := 0;
      res := Pass;
      while i < |l|
        invariant 0 <= i <= |l| && Valid() && res == Pass
        invariant i > 0 ==> state == SomeAdded && !r0.state.Started()
        invariant RegisterAll(Model(), l[i..]) == RegisterAll(r0, l)
        invariant i == 0 ==> Model() == r0
      {
        ghost var m := Model();
        assert l[i..][1..] == l[i + 1..];
        assert RegisterAll(m, l[i..]) == RegisterAll(Register(m, l[i]), l[i + 1..]);
        res := Add(l[i]);
        if res.Fail? {
          assert i == 0 && Model() == r0;
          return;
        }
        assert Model() == Register(m, l[i]);
        i := i + 1;
      }
    }

    /**
     * AddServiceInstanceFromDll: `loaded` is what instantiating the named type
     * yields, cast to IService; a non-service (None) is silently dropped.
     */
    method AddServiceInstanceFromDll(loaded: Option<Service>) returns (res: Outcome<Error>)
      requires Valid()
      modifies this
      ensures Valid()
      ensures loaded.None? ==> res == Pass && Model() == old(Model())
      ensures loaded.Some? && old(state).Started() ==> res == Fail(RegistryClosed) && Model() == old(Model())
      ensures loaded.Some? && !old(state).Started() ==> res == Pass && Model() == Register(old(Model()), loaded.value)
    {
      res := Pass;
      if loaded.Some? {
        res := Add(loaded.value);
      }
    }

    /** Get<T>(mustBeUsable): the service filed under `key`, or the error the source throws. */
    function Get(key: string, mustBeUsable: bool): (res: Result<Service, Error>)
      reads this
      requires Valid()
      ensures !state.Started() ==> res == Failure(NotReady)
      ensures state.Started() && key !in dict ==> res == Failure(NotFound(key))
      ensures state.Started() && key in dict && mustBeUsable && !entries[dict[key]].initedFlag ==>
                res == Failure(NotYetInitialized(key))
      ensures res.Success? <==> state.Started() && key in dict && (mustBeUsable ==> entries[dict[key]].initedFlag)
      ensures res.Success? ==> res.value == entries[dict[key]].service
    {
      Lookup(Model(), key, mustBeUsable)
    }

    /**
     * InitServices: one-shot.  Enters InitCallsStarted before any Init runs,
     * walks the dictionary's values in enumeration order, keeps going after a
     * failure, enters InitCallsComplete and only then reports the first error.
     */
    method InitServices() returns (res: Outcome<Error>)
      requires Valid()
      modifies this
      ensures Valid()
      ensures Model() == InitAll(old(Model())).repo
      ensures res == InitAll(old(Model())).outcome
    {
      if state.Started() {
        return Fail(AlreadyInitialized);
      }
      state := InitCallsStarted;
      ghost var w0 := Walk(Model(), 0, None);
      var first: Option<Error> := None;
      var i := 0;
      while i < |keys|
        invariant Valid() && 0 <= i <= |keys|
        invariant Walk(Model(), i, first).repo == w0.repo
        invariant Walk(Model(), i, first).firstError == w0.firstError
      {
        var e := dict[keys[i]];
        var info := entries[e];
        if !info.initedFlag {
          // the service's Init, looking up its peers in this repository
          var o := RunInit(Model(), info.service);
          if o.Pass? {
            entries := entries[e := info.(initedFlag := true)];
          } else if first.None? {
            first := Some(InitFailed(info.service.name, o.error));
          }
        }
        i := i + 1;
      }
      state := InitCallsComplete;
      res := if first.None? then Pass else Fail(first.value);
    }

    /** InitWithServices: clear the dictionary (not the state), add `l`, then run the init pass. */
    method InitWithServices(l: seq<Service>) returns (res: Outcome<Error>)
      requires Valid()
      modifies this
      ensures Valid()
      ensures Model() == InitWithServicesSpec(old(Model()), l).repo
      ensures res == InitWithServicesSpec(old(Model()), l).outcome
    {
      dict, keys, entries := map[], [], [];
      res := AddServices(l);
      if res.Pass? {
        res := InitServices();
      }
    }
  }
}
