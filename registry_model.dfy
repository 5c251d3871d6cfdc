/**
 * The service registry as a value: its lifecycle state, the dictionary from
 * interface name to registry entry, the dictionary's enumeration order, and
 * the entries themselves.  The entries live in an arena indexed by the
 * dictionary's values, so one entry filed under several interface names is
 * shared by all of them, as the source shares one ServiceInfo object.
 */
module RegistryModel {
  import opened Wrappers

  /** The lifecycle; each state is later than the one before it. */
  datatype InitializeState = NotInitialized | SomeAdded | InitCallsStarted | InitCallsComplete
  {
    function Rank(): nat {
      match this
      case NotInitialized => 0
      case SomeAdded => 1
      case InitCallsStarted => 2
      case InitCallsComplete => 3
    }

    /** At or beyond InitCallsStarted: registration closed, lookups allowed. */
    predicate Started() {
      Rank() >= 2
    }
  }

  /** One lookup a service's Init performs: Get of `key`, with or without the mustBeUsable demand. */
  datatype GetCall = GetCall(key: string, mustBeUsable: bool)

  /**
   * A service: its type name (diagnostics only), the interface names it is
   * filed under, its child services (non-empty only for an aggregate), and
   * the scripted behaviour of its Init: the lookups it makes, in order, and
   * whether it throws once they have all succeeded.
   */
  datatype Service = Service(
    name: string,
    interfaces: seq<string>,
    children: seq<Service>,
    script: seq<GetCall>,
    throws: bool)
  {
    predicate IsAggregate() {
      children != []
    }
  }

  /** A registry entry: the service and whether its Init has completed. */
  datatype ServiceInfo = ServiceInfo(service: Service, initedFlag: bool)

  datatype Error =
    | RegistryClosed                            // Add after InitCallsStarted
    | NotReady                                  // Get before InitCallsStarted
    | NotFound(key: string)                     // Get of an unregistered interface
    | NotYetInitialized(key: string)            // Get with mustBeUsable of an entry not yet initialised
    | AlreadyInitialized                        // a second InitServices
    | Thrown                                    // a service's own Init threw
    | InitFailed(serviceName: string, cause: Error)  // the first failure of an InitServices pass

  datatype Repo = Repo(
    state: InitializeState,
    dict: map<string, nat>,
    keys: seq<string>,
    entries: seq<ServiceInfo>)

  const EmptyRepo := Repo(NotInitialized, map[], [], [])

  /** `keys` lists the dictionary's keys, each once. */
  ghost predicate KeysMatch(dict: map<string, nat>, keys: seq<string>) {
    && (forall i, j :: 0 <= i < j < |keys| ==> keys[i] != keys[j])
    && (forall k :: k in dict <==> k in keys)
  }

  ghost predicate WellFormed(r: Repo) {
    && KeysMatch(r.dict, r.keys)
    && (forall k :: k in r.dict ==> r.dict[k] < |r.entries|)
  }

  /** The entry filed under `k`, if any. */
  function At(r: Repo, k: string): Option<ServiceInfo>
    requires WellFormed(r)
  {
    if k in r.dict then Some(r.entries[r.dict[k]]) else None
  }

  // ---------------------------------------------------------------------------
  // Registration
  // ---------------------------------------------------------------------------

  /**
   * The dictionary writes of one Add: every interface name is mapped to entry
   * `id`, overwriting an earlier mapping; a key seen for the first time is
   * appended to the enumeration order, an overwritten one keeps its place.
   */
  function FileUnder(dict: map<string, nat>, keys: seq<string>, ifaces: seq<string>, id: nat)
    : (res: (map<string, nat>, seq<string>))
    ensures res.0.Keys == dict.Keys + set k | k in ifaces
    ensures forall k :: k in ifaces ==> res.0[k] == id
    ensures forall k :: k in dict && k !in ifaces ==> res.0[k] == dict[k]
    ensures |keys| <= |res.1| && res.1[..|keys|] == keys
    ensures forall j :: |keys| <= j < |res.1| ==> res.1[j] in ifaces && res.1[j] !in dict
    decreases ifaces
  {
    if ifaces == [] then (dict, keys)
    else
      var k := ifaces[0];
      var keys' := if k in dict then keys else keys + [k];
      var res := FileUnder(dict[k := id], keys', ifaces[1..], id);
      assert (set x | x in ifaces) == {k} + set x | x in ifaces[1..];
      assert res.1[..|keys|] == res.1[..|keys'|][..|keys|];
      res
  }

  /** One step of filing: the interface name at `i`, then the rest. */
  lemma FileUnderStep(dict: map<string, nat>, keys: seq<string>, ifaces: seq<string>, i: nat, id: nat)
    requires i < |ifaces|
    ensures FileUnder(dict, keys, ifaces[i..], id)
         == FileUnder(dict[ifaces[i] := id], if ifaces[i] in dict then keys else keys + [ifaces[i]], ifaces[i + 1..], id)
  {
    assert ifaces[i..][0] == ifaces[i] && ifaces[i..][1..] == ifaces[i + 1..];
  }

  /** Filing keeps the enumeration order a duplicate-free listing of the dictionary's keys. */
  lemma {:induction false} FileUnderKeysMatch(dict: map<string, nat>, keys: seq<string>, ifaces: seq<string>, id: nat)
    requires KeysMatch(dict, keys)
    ensures KeysMatch(FileUnder(dict, keys, ifaces, id).0, FileUnder(dict, keys, ifaces, id).1)
    decreases ifaces
  {
    if ifaces != [] {
      var k := ifaces[0];
      var keys' := if k in dict then keys else keys + [k];
      assert KeysMatch(dict[k := id], keys');
      FileUnderKeysMatch(dict[k := id], keys', ifaces[1..], id);
    }
  }

  /** The non-recursive part of Add: one fresh, uninitialised entry filed under all of `s`'s interfaces. */
  function File(r: Repo, s: Service): (r': Repo)
    requires WellFormed(r)
    ensures WellFormed(r')
    ensures r'.state == SomeAdded
    ensures r'.entries == r.entries + [ServiceInfo(s, false)]
    ensures |r.keys| <= |r'.keys| && r'.keys[..|r.keys|] == r.keys
    ensures forall k :: At(r', k) == if k in s.interfaces then Some(ServiceInfo(s, false)) else At(r, k)
    ensures forall k :: k in s.interfaces ==> k in r'.dict && r'.dict[k] == |r.entries|
  {
    FileUnderKeysMatch(r.dict, r.keys, s.interfaces, |r.entries|);
    var (d, ks) := FileUnder(r.dict, r.keys, s.interfaces, |r.entries|);
    Repo(SomeAdded, d, ks, r.entries + [ServiceInfo(s, false)])
  }

  /** Add without its state check: file `s`, then add its children in order, depth first. */
  function Register(r: Repo, s: Service): (r': Repo)
    requires WellFormed(r)
    ensures WellFormed(r') && r'.state == SomeAdded
    ensures |r.entries| < |r'.entries| && r'.entries[..|r.entries|] == r.entries
    ensures |r.keys| <= |r'.keys| && r'.keys[..|r.keys|] == r.keys
    decreases s
  {
    RegisterAll(File(r, s), s.children)
  }

  /** AddServices without the state check: Register each service of `l` in order. */
  function RegisterAll(r: Repo, l: seq<Service>): (r': Repo)
    requires WellFormed(r)
    ensures WellFormed(r')
    ensures l == [] ==> r' == r
    ensures l != [] ==> r'.state == SomeAdded
    ensures |r.entries| <= |r'.entries| && r'.entries[..|r.entries|] == r.entries
    ensures |r.keys| <= |r'.keys| && r'.keys[..|r.keys|] == r.keys
    decreases l
  {
    if l == [] then r else RegisterAll(Register(r, l[0]), l[1..])
  }

  // ---------------------------------------------------------------------------
  // Lookup and the scripted Init callbacks
  // ---------------------------------------------------------------------------

  /** Get<T>(mustBeUsable) for the interface named `key`. */
  function Lookup(r: Repo, key: string, mustBeUsable: bool): (res: Result<Service, Error>)
    requires WellFormed(r)
    ensures !r.state.Started() ==> res == Failure(NotReady)
    ensures r.state.Started() && key !in r.dict ==> res == Failure(NotFound(key))
    ensures r.state.Started() && key in r.dict && mustBeUsable && !r.entries[r.dict[key]].initedFlag ==>
              res == Failure(NotYetInitialized(key))
    ensures res.Success? <==>
              r.state.Started() && key in r.dict && (mustBeUsable ==> r.entries[r.dict[key]].initedFlag)
    ensures res.Success? ==> res.value == r.entries[r.dict[key]].service
  {
    if !r.state.Started() then Failure(NotReady)
    else if key !in r.dict then Failure(NotFound(key))
    else
      var info := r.entries[r.dict[key]];
      if mustBeUsable && !info.initedFlag then Failure(NotYetInitialized(key))
      else Success(info.service)
  }

  /** The lookups of a script, in order; the first one that fails makes the whole script fail with its error. */
  function RunScript(r: Repo, script: seq<GetCall>): (o: Outcome<Error>)
    requires WellFormed(r)
    ensures o.Pass? <==> forall j :: 0 <= j < |script| ==> Lookup(r, script[j].key, script[j].mustBeUsable).Success?
    ensures o.Fail? ==> exists j :: 0 <= j < |script|
                          && (forall j' :: 0 <= j' < j ==> Lookup(r, script[j'].key, script[j'].mustBeUsable).Success?)
                          && Lookup(r, script[j].key, script[j].mustBeUsable) == Failure(o.error)
    decreases script
  {
    if script == [] then Pass
    else
      match Lookup(r, script[0].key, script[0].mustBeUsable)
      case Failure(e) => Fail(e)
      case Success(_) =>
        var o := RunScript(r, script[1..]);
        assert forall j :: 1 <= j < |script| ==> script[j] == script[1..][j - 1];
        o
  }

  /** The effect of calling `s`'s Init with the registry `r`: its lookups, then its own throw. */
  function RunInit(r: Repo, s: Service): (o: Outcome<Error>)
    requires WellFormed(r)
    ensures o.Pass? <==> RunScript(r, s.script).Pass? && !s.throws
    ensures RunScript(r, s.script).Fail? ==> o == RunScript(r, s.script)
    ensures RunScript(r, s.script).Pass? && s.throws ==> o == Fail(Thrown)
  {
    match RunScript(r, s.script)
    case Fail(e) => Fail(e)
    case Pass => if s.throws then Fail(Thrown) else Pass
  }

  // ---------------------------------------------------------------------------
  // The initialisation pass
  // ---------------------------------------------------------------------------

  /** One Init invocation of the pass: the entry it belonged to and how it ended. */
  datatype Call = Call(entry: nat, outcome: Outcome<Error>)

  datatype WalkResult = WalkResult(repo: Repo, firstError: Option<Error>, calls: seq<Call>)

  datatype InitResult = InitResult(repo: Repo, outcome: Outcome<Error>, calls: seq<Call>)

  /** `r'` differs from `r` at most in the initialised flags of its entries. */
  ghost predicate OnlyFlagsChanged(r: Repo, r': Repo) {
    && r'.state == r.state && r'.dict == r.dict && r'.keys == r.keys
    && |r'.entries| == |r.entries|
    && (forall e :: 0 <= e < |r.entries| ==> r'.entries[e].service == r.entries[e].service)
  }

  /**
   * The foreach loop of InitServices from key position `i` on, with `first`
   * the error kept so far: an entry already initialised is skipped; otherwise
   * its Init runs against the current registry, success sets its flag, and a
   * failure is remembered only if none was before.
   */
  function Walk(r: Repo, i: nat, first: Option<Error>): (w: WalkResult)
    requires WellFormed(r) && i <= |r.keys|
    ensures WellFormed(w.repo) && OnlyFlagsChanged(r, w.repo)
    ensures forall e :: 0 <= e < |r.entries| && r.entries[e].initedFlag ==> w.repo.entries[e].initedFlag
    decreases |r.keys| - i
  {
    if i == |r.keys| then WalkResult(r, first, [])
    else
      var e := r.dict[r.keys[i]];
      var info := r.entries[e];
      if info.initedFlag then Walk(r, i + 1, first)
      else
        var o := RunInit(r, info.service);
        var r' := if o.Pass? then r.(entries := r.entries[e := info.(initedFlag := true)]) else r;
        var first' := if first.None? && o.Fail? then Some(InitFailed(info.service.name, o.error)) else first;
        var w := Walk(r', i + 1, first');
        w.(calls := [Call(e, o)] + w.calls)
  }

  /** InitServices: one-shot; the state is InitCallsStarted during the walk and InitCallsComplete after it. */
  function InitAll(r: Repo): (res: InitResult)
    requires WellFormed(r)
    ensures WellFormed(res.repo)
    ensures r.state.Started() ==> res == InitResult(r, Fail(AlreadyInitialized), [])
    ensures !r.state.Started() ==> res.repo.state == InitCallsComplete
    ensures !r.state.Started() ==> OnlyFlagsChanged(r.(state := InitCallsComplete), res.repo)
  {
    if r.state.Started() then InitResult(r, Fail(AlreadyInitialized), [])
    else
      var w := Walk(r.(state := InitCallsStarted), 0, None);
      InitResult(w.repo.(state := InitCallsComplete),
                 match w.firstError case None => Pass case Some(e) => Fail(e),
                 w.calls)
  }

  /** The registry after Clear of the dictionary; the lifecycle state is kept. */
  function Cleared(r: Repo): (c: Repo)
    ensures WellFormed(c) && c.state == r.state
    ensures forall k, mustBeUsable :: r.state.Started() ==> Lookup(c, k, mustBeUsable) == Failure(NotFound(k))
    ensures forall k :: At(c, k) == None
  {
    r.(dict := map[], keys := [], entries := [])
  }

  /** InitWithServices: clear the dictionary, AddServices(l), then InitServices. */
  function InitWithServicesSpec(r: Repo, l: seq<Service>): (res: InitResult)
    ensures WellFormed(res.repo)
    ensures r.state.Started() ==> res.repo == Cleared(r) && res.calls == []
    ensures r.state.Started() ==> res.outcome == if l == [] then Fail(AlreadyInitialized) else Fail(RegistryClosed)
    ensures !r.state.Started() ==> res == InitAll(RegisterAll(Cleared(r), l))
  {
    var c := Cleared(r);
    if l != [] && c.state.Started() then InitResult(c, Fail(RegistryClosed), [])
    else InitAll(RegisterAll(c, l))
  }
}
