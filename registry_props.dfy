/**
 * What the registry promises, proved about the value-level model: the order
 * in which Add files an aggregate and its children, "last registration wins",
 * aggregate transparency, and the guarantees of the initialisation pass.
 */
module RegistryProps {
  import opened Wrappers
  import opened RegistryModel

  // ---------------------------------------------------------------------------
  // Registration order
  // ---------------------------------------------------------------------------

  /** The services one Add of `s` files, in filing order: `s` itself, then its children's, depth first. */
  function Preorder(s: Service): seq<Service>
    decreases s
  {
    [s] + PreorderList(s.children)
  }

  function PreorderList(l: seq<Service>): seq<Service>
    decreases l
  {
    if l == [] then [] else Preorder(l[0]) + PreorderList(l[1..])
  }

  /** File each service of a flat list, one after the other, with no recursion into children. */
  function FileSeq(r: Repo, l: seq<Service>): (r': Repo)
    requires WellFormed(r)
    ensures WellFormed(r')
    decreases l
  {
    if l == [] then r else FileSeq(File(r, l[0]), l[1..])
  }

  lemma {:induction false} FileSeqAppend(r: Repo, a: seq<Service>, b: seq<Service>)
    requires WellFormed(r)
    ensures FileSeq(r, a + b) == FileSeq(FileSeq(r, a), b)
    decreases a
  {
    if a == [] {
      assert a + b == b;
    } else {
      var r1 := File(r, a[0]);
      calc {
        FileSeq(r, a + b);
        { assert (a + b)[0] == a[0] && (a + b)[1..] == a[1..] + b; }
        FileSeq(r1, a[1..] + b);
        { FileSeqAppend(r1, a[1..], b); }
        FileSeq(FileSeq(r1, a[1..]), b);
      }
    }
  }

  /** Add of an aggregate files the aggregate first, then its children in list order, depth first. */
  lemma {:induction false} RegisterIsPreorder(r: Repo, s: Service)
    requires WellFormed(r)
    ensures Register(r, s) == FileSeq(r, Preorder(s))
    decreases s
  {
    RegisterAllIsPreorder(File(r, s), s.children);
    assert Preorder(s)[0] == s;
    assert Preorder(s)[1..] == PreorderList(s.children);
  }

  lemma {:induction false} RegisterAllIsPreorder(r: Repo, l: seq<Service>)
    requires WellFormed(r)
    ensures RegisterAll(r, l) == FileSeq(r, PreorderList(l))
    decreases l
  {
    if l != [] {
      RegisterIsPreorder(r, l[0]);
      RegisterAllIsPreorder(Register(r, l[0]), l[1..]);
      FileSeqAppend(r, Preorder(l[0]), PreorderList(l[1..]));
    }
  }

  /** The last service of `l` that implements `k`, if any. */
  function LastProvider(l: seq<Service>, k: string): (p: Option<Service>)
    ensures p.None? <==> forall j :: 0 <= j < |l| ==> k !in l[j].interfaces
    ensures p.Some? ==> exists j :: 0 <= j < |l| && l[j] == p.value && k in l[j].interfaces
                                    && forall j' :: j < j' < |l| ==> k !in l[j'].interfaces
    decreases l
  {
    if l == [] then None
    else
      var rest := LastProvider(l[1..], k);
      assert forall j :: 1 <= j < |l| ==> l[j] == l[1..][j - 1];
      if rest.Some? then rest
      else if k in l[0].interfaces then Some(l[0])
      else None
  }

  /** Last registration wins: after filing `l`, key `k` holds a fresh entry of the last service implementing it. */
  lemma {:induction false} FileSeqAt(r: Repo, l: seq<Service>, k: string)
    requires WellFormed(r)
    ensures At(FileSeq(r, l), k) == match LastProvider(l, k)
                                    case Some(p) => Some(ServiceInfo(p, false))
                                    case None => At(r, k)
    decreases l
  {
    if l != [] {
      FileSeqAt(File(r, l[0]), l[1..], k);
    }
  }

  /** AddServices(l): every key holds the last service implementing it in the depth-first expansion of `l`. */
  lemma RegisterAllAt(r: Repo, l: seq<Service>, k: string)
    requires WellFormed(r)
    ensures At(RegisterAll(r, l), k) == match LastProvider(PreorderList(l), k)
                                        case Some(p) => Some(ServiceInfo(p, false))
                                        case None => At(r, k)
  {
    RegisterAllIsPreorder(r, l);
    FileSeqAt(r, PreorderList(l), k);
  }

  /**
   * Aggregate transparency: apart from the aggregate's own interfaces, adding
   * an aggregate leaves every key exactly as adding its children would.
   */
  lemma AggregateTransparent(r: Repo, a: Service, k: string)
    requires WellFormed(r) && k !in a.interfaces
    ensures At(Register(r, a), k) == At(RegisterAll(r, a.children), k)
  {
    RegisterIsPreorder(r, a);
    RegisterAllIsPreorder(r, a.children);
    FileSeqAt(r, Preorder(a), k);
    FileSeqAt(r, PreorderList(a.children), k);
    assert Preorder(a)[1..] == PreorderList(a.children);
  }

  // ---------------------------------------------------------------------------
  // The initialisation pass
  // ---------------------------------------------------------------------------

  ghost predicate CallsIn(r: Repo, calls: seq<Call>) {
    forall j :: 0 <= j < |calls| ==> calls[j].entry < |r.entries|
  }

  /** The error InitServices keeps: the first failing Init, tagged with its service's name. */
  function FirstFailure(r: Repo, calls: seq<Call>): (f: Option<Error>)
    requires CallsIn(r, calls)
    ensures f.None? <==> forall j :: 0 <= j < |calls| ==> calls[j].outcome.Pass?
    ensures f.Some? ==> exists j :: 0 <= j < |calls| && calls[j].outcome.Fail?
                           && (forall j' :: 0 <= j' < j ==> calls[j'].outcome.Pass?)
                           && f == Some(InitFailed(r.entries[calls[j].entry].service.name, calls[j].outcome.error))
    decreases calls
  {
    if calls == [] then None
    else if calls[0].outcome.Fail? then
      Some(InitFailed(r.entries[calls[0].entry].service.name, calls[0].outcome.error))
    else
      var f := FirstFailure(r, calls[1..]);
      assert forall j :: 1 <= j < |calls| ==> calls[j] == calls[1..][j - 1];
      f
  }

  lemma {:induction false} FirstFailureIgnoresFlags(r: Repo, r': Repo, calls: seq<Call>)
    requires |r'.entries| == |r.entries| && CallsIn(r, calls)
    requires forall e :: 0 <= e < |r.entries| ==> r'.entries[e].service == r.entries[e].service
    ensures CallsIn(r', calls) && FirstFailure(r', calls) == FirstFailure(r, calls)
    decreases calls
  {
    if calls != [] {
      FirstFailureIgnoresFlags(r, r', calls[1..]);
    }
  }

  /**
   * The walk at an entry not yet initialised: its Init runs against `r`, and
   * the walk goes on from the next key with `r'` and `first'`, after one call.
   */
  lemma WalkStep(r: Repo, i: nat, first: Option<Error>) returns (r': Repo, first': Option<Error>, o: Outcome<Error>)
    requires WellFormed(r) && i < |r.keys| && !r.entries[r.dict[r.keys[i]]].initedFlag
    ensures var e := r.dict[r.keys[i]];
            var info := r.entries[e];
            && o == RunInit(r, info.service)
            && r' == (if o.Pass? then r.(entries := r.entries[e := info.(initedFlag := true)]) else r)
            && first' == (if first.None? && o.Fail? then Some(InitFailed(info.service.name, o.error)) else first)
    ensures WellFormed(r') && OnlyFlagsChanged(r, r') && i < |r'.keys|
    ensures forall x :: 0 <= x < |r.entries| && x != r.dict[r.keys[i]] ==> r'.entries[x] == r.entries[x]
    ensures var w := Walk(r', i + 1, first');
            Walk(r, i, first) == w.(calls := [Call(r.dict[r.keys[i]], o)] + w.calls)
  {
    var e := r.dict[r.keys[i]];
    var info := r.entries[e];
    o := RunInit(r, info.service);
    r' := if o.Pass? then r.(entries := r.entries[e := info.(initedFlag := true)]) else r;
    first' := if first.None? && o.Fail? then Some(InitFailed(info.service.name, o.error)) else first;
    WalkUnfold(r, i, first);
  }

  /** One unfolding of Walk at an entry not yet initialised. */
  lemma WalkUnfold(r: Repo, i: nat, first: Option<Error>)
    requires WellFormed(r) && i < |r.keys| && !r.entries[r.dict[r.keys[i]]].initedFlag
    ensures var e := r.dict[r.keys[i]];
            var info := r.entries[e];
            var o := RunInit(r, info.service);
            var r' := if o.Pass? then r.(entries := r.entries[e := info.(initedFlag := true)]) else r;
            var first' := if first.None? && o.Fail? then Some(InitFailed(info.service.name, o.error)) else first;
            WellFormed(r') && i + 1 <= |r'.keys| &&
            Walk(r, i, first) == Walk(r', i + 1, first').(calls := [Call(e, o)] + Walk(r', i + 1, first').calls)
  {
  }

  /** The pass calls Init only on entries not initialised when it reaches them (so never on one initialised before). */
  lemma {:induction false} WalkSkipsInited(r: Repo, i: nat, first: Option<Error>)
    requires WellFormed(r) && i <= |r.keys|
    ensures CallsIn(r, Walk(r, i, first).calls)
    ensures forall j :: 0 <= j < |Walk(r, i, first).calls| ==> !r.entries[Walk(r, i, first).calls[j].entry].initedFlag
    decreases |r.keys| - i
  {
    if i < |r.keys| {
      var e := r.dict[r.keys[i]];
      var info := r.entries[e];
      if info.initedFlag {
        WalkSkipsInited(r, i + 1, first);
      } else {
        var r', first', o := WalkStep(r, i, first);
        WalkSkipsInited(r', i + 1, first');
      }
    }
  }

  /** No entry has a call recorded after one of its calls succeeded. */
  ghost predicate SucceedsAtMostOnce(calls: seq<Call>) {
    forall j, j' :: 0 <= j < j' < |calls| && calls[j].entry == calls[j'].entry ==> calls[j].outcome.Fail?
  }

  /** A multi-key entry whose Init succeeded is never called again: at most one successful Init per entry. */
  lemma {:induction false} WalkSucceedsOnce(r: Repo, i: nat, first: Option<Error>)
    requires WellFormed(r) && i <= |r.keys|
    ensures SucceedsAtMostOnce(Walk(r, i, first).calls)
    decreases |r.keys| - i
  {
    if i < |r.keys| {
      var e := r.dict[r.keys[i]];
      var info := r.entries[e];
      if info.initedFlag {
        assert Walk(r, i, first) == Walk(r, i + 1, first);
        WalkSucceedsOnce(r, i + 1, first);
      } else {
        var r', first', o := WalkStep(r, i, first);
        WalkSucceedsOnce(r', i + 1, first');
        WalkSkipsInited(r', i + 1, first');
        var rest := Walk(r', i + 1, first').calls;
        assert o.Pass? ==> r'.entries[e].initedFlag;
        SucceedsOnceStep(Call(e, o), rest);
      }
    }
  }

  /** A first call that succeeded on an entry the later calls never touch keeps "at most one success". */
  lemma SucceedsOnceStep(c: Call, rest: seq<Call>)
    requires SucceedsAtMostOnce(rest)
    requires c.outcome.Pass? ==> forall j :: 0 <= j < |rest| ==> rest[j].entry != c.entry
    ensures SucceedsAtMostOnce([c] + rest)
  {
    var calls := [c] + rest;
    forall j, j' | 0 <= j < j' < |calls| && calls[j].entry == calls[j'].entry
      ensures calls[j].outcome.Fail?
    {
      assert calls[j'] == rest[j' - 1];
      if j > 0 {
        assert calls[j] == rest[j - 1];
      }
    }
  }

  /** After the pass an entry is initialised exactly when it was before, or one of its Init calls succeeded. */
  lemma {:induction false} WalkFlags(r: Repo, i: nat, first: Option<Error>)
    requires WellFormed(r) && i <= |r.keys|
    ensures var w := Walk(r, i, first);
      forall e :: 0 <= e < |r.entries| ==>
        (w.repo.entries[e].initedFlag <==> r.entries[e].initedFlag || Call(e, Pass) in w.calls)
    decreases |r.keys| - i
  {
    if i < |r.keys| {
      var e := r.dict[r.keys[i]];
      var info := r.entries[e];
      if info.initedFlag {
        WalkFlags(r, i + 1, first);
      } else {
        var r', first', o := WalkStep(r, i, first);
        WalkFlags(r', i + 1, first');
        var w := Walk(r, i, first);
        var rest := Walk(r', i + 1, first').calls;
        assert w.calls == [Call(e, o)] + rest;
        forall e2 | 0 <= e2 < |r.entries|
          ensures w.repo.entries[e2].initedFlag <==> r.entries[e2].initedFlag || Call(e2, Pass) in w.calls
        {
          assert Call(e2, Pass) in w.calls <==> (e2 == e && o == Pass) || Call(e2, Pass) in rest;
        }
      }
    }
  }

  ghost predicate Attempted(calls: seq<Call>, e: nat) {
    exists j :: 0 <= j < |calls| && calls[j].entry == e
  }

  /** Every entry at a key position from `i` on is initialised in `r` or has a recorded call. */
  ghost predicate AllAttempted(r: Repo, i: nat, calls: seq<Call>)
    requires WellFormed(r)
  {
    forall p :: i <= p < |r.keys| ==> r.entries[r.dict[r.keys[p]]].initedFlag || Attempted(calls, r.dict[r.keys[p]])
  }

  /** The pass does not stop on failure: every entry at a remaining key is initialised already or has its Init called. */
  lemma {:induction false} WalkAttemptsAll(r: Repo, i: nat, first: Option<Error>)
    requires WellFormed(r) && i <= |r.keys|
    ensures AllAttempted(r, i, Walk(r, i, first).calls)
    decreases |r.keys| - i
  {
    if i < |r.keys| {
      var e := r.dict[r.keys[i]];
      var info := r.entries[e];
      if info.initedFlag {
        assert Walk(r, i, first) == Walk(r, i + 1, first);
        WalkAttemptsAll(r, i + 1, first);
      } else {
        var r', first', o := WalkStep(r, i, first);
        WalkAttemptsAll(r', i + 1, first');
        AttemptedStep(r, r', i, e, o, Walk(r', i + 1, first').calls);
      }
    }
  }

  lemma AttemptedStep(r: Repo, r': Repo, i: nat, e: nat, o: Outcome<Error>, rest: seq<Call>)
    requires WellFormed(r) && WellFormed(r') && OnlyFlagsChanged(r, r') && i < |r.keys| && r.dict[r.keys[i]] == e
    requires forall x :: 0 <= x < |r.entries| && x != e ==> r'.entries[x] == r.entries[x]
    requires AllAttempted(r', i + 1, rest)
    ensures AllAttempted(r, i, [Call(e, o)] + rest)
  {
    var calls := [Call(e, o)] + rest;
    forall p | i <= p < |r.keys|
      ensures r.entries[r.dict[r.keys[p]]].initedFlag || Attempted(calls, r.dict[r.keys[p]])
    {
      var ep := r.dict[r.keys[p]];
      if ep == e {
        assert calls[0].entry == e;
      } else if !r.entries[ep].initedFlag {
        assert p != i && r'.entries[ep] == r.entries[ep];
        assert Attempted(rest, ep);
        var j :| 0 <= j < |rest| && rest[j].entry == ep;
        assert calls[j + 1] == rest[j];
      }
    }
  }

  /** Only the first error is kept: the pass reports the first failing Init, or the error it was handed. */
  lemma {:induction false} WalkFirstError(r: Repo, i: nat, first: Option<Error>)
    requires WellFormed(r) && i <= |r.keys|
    ensures CallsIn(r, Walk(r, i, first).calls)
    ensures Walk(r, i, first).firstError == if first.Some? then first else FirstFailure(r, Walk(r, i, first).calls)
    decreases |r.keys| - i
  {
    if i < |r.keys| {
      var e := r.dict[r.keys[i]];
      if r.entries[e].initedFlag {
        assert Walk(r, i, first) == Walk(r, i + 1, first);
        WalkFirstError(r, i + 1, first);
      } else {
        var r', first', o := WalkStep(r, i, first);
        WalkFirstError(r', i + 1, first');
        FirstErrorStep(r, r', e, o, first, first', Walk(r', i + 1, first'), Walk(r, i, first));
      }
    }
  }

  /** One step of the pass keeps "the error kept is the one handed in, or the first failure". */
  lemma FirstErrorStep(r: Repo, r': Repo, e: nat, o: Outcome<Error>, first: Option<Error>, first': Option<Error>,
                       w': WalkResult, w: WalkResult)
    requires |r'.entries| == |r.entries| && e < |r.entries| && CallsIn(r', w'.calls)
    requires forall x :: 0 <= x < |r.entries| ==> r'.entries[x].service == r.entries[x].service
    requires first' == if first.None? && o.Fail? then Some(InitFailed(r.entries[e].service.name, o.error)) else first
    requires w'.firstError == if first'.Some? then first' else FirstFailure(r', w'.calls)
    requires w == w'.(calls := [Call(e, o)] + w'.calls)
    ensures CallsIn(r, w.calls)
    ensures w.firstError == if first.Some? then first else FirstFailure(r, w.calls)
  {
    assert w.calls[1..] == w'.calls;
    FirstFailureIgnoresFlags(r', r, w'.calls);
  }

  /** While the pass runs the state is InitCallsStarted, so no lookup from inside an Init fails for readiness. */
  lemma {:induction false} WalkNeverNotReady(r: Repo, i: nat, first: Option<Error>)
    requires WellFormed(r) && i <= |r.keys| && r.state == InitCallsStarted
    ensures forall j :: 0 <= j < |Walk(r, i, first).calls| ==> Walk(r, i, first).calls[j].outcome != Fail(NotReady)
    decreases |r.keys| - i
  {
    if i < |r.keys| {
      var e := r.dict[r.keys[i]];
      var info := r.entries[e];
      if info.initedFlag {
        WalkNeverNotReady(r, i + 1, first);
      } else {
        var r', first', o := WalkStep(r, i, first);
        WalkNeverNotReady(r', i + 1, first');
        if o.Fail? && RunScript(r, info.service.script).Fail? {
          var s := info.service.script;
          var j :| 0 <= j < |s| && Lookup(r, s[j].key, s[j].mustBeUsable) == Failure(o.error);
        }
        assert Walk(r, i, first).calls == [Call(e, o)] + Walk(r', i + 1, first').calls;
      }
    }
  }

  /** The registry with the flag update of one recorded Init call applied: a passing call marks its entry initialised. */
  function Mark(r: Repo, c: Call): (r': Repo)
    requires WellFormed(r)
    ensures WellFormed(r') && OnlyFlagsChanged(r, r')
    ensures forall x :: 0 <= x < |r.entries| ==>
              (r'.entries[x].initedFlag <==> r.entries[x].initedFlag || (x == c.entry && c.outcome.Pass?))
  {
    if c.outcome.Pass? && c.entry < |r.entries| then
      r.(entries := r.entries[c.entry := r.entries[c.entry].(initedFlag := true)])
    else r
  }

  /** The registry with the flag updates of `calls` applied in order. */
  function Replay(r: Repo, calls: seq<Call>): (r': Repo)
    requires WellFormed(r)
    ensures WellFormed(r') && OnlyFlagsChanged(r, r')
    decreases calls
  {
    if calls == [] then r else Replay(Mark(r, calls[0]), calls[1..])
  }

  /** Replaying a prefix of `[c] + rest` is replaying `c`, then the shorter prefix of `rest`. */
  lemma ReplayCons(r: Repo, c: Call, rest: seq<Call>, j: nat)
    requires WellFormed(r) && j <= |rest|
    ensures Replay(r, ([c] + rest)[..j + 1]) == Replay(Mark(r, c), rest[..j])
  {
    var cs := ([c] + rest)[..j + 1];
    assert cs[0] == c && cs[1..] == rest[..j];
  }

  /** Call j belongs to the entry at key position ps[j]; the positions increase from `i` on. */
  ghost predicate PositionsAt(r: Repo, i: nat, calls: seq<Call>, ps: seq<nat>)
    requires WellFormed(r)
  {
    && |ps| == |calls|
    && (forall j :: 0 <= j < |ps| ==> i <= ps[j] < |r.keys|)
    && (forall j, j' :: 0 <= j < j' < |ps| ==> ps[j] < ps[j'])
    && (forall j :: 0 <= j < |ps| ==> calls[j].entry == r.dict[r.keys[ps[j]]])
  }

  /** Each call's entry is uninitialised when it is called, and its Init sees the flags of the calls before it. */
  ghost predicate SeesPrefix(r: Repo, calls: seq<Call>)
    requires WellFormed(r) && CallsIn(r, calls)
  {
    forall j :: 0 <= j < |calls| ==>
      && !Replay(r, calls[..j]).entries[calls[j].entry].initedFlag
      && calls[j].outcome == RunInit(Replay(r, calls[..j]), r.entries[calls[j].entry].service)
  }

  /** Key position `p` lies strictly between call positions ps[j-1] and ps[j] (with the ends open). */
  ghost predicate InGap(ps: seq<nat>, j: nat, p: nat) {
    j <= |ps| && (j == 0 || ps[j - 1] < p) && (j == |ps| || p < ps[j])
  }

  /** Every key position passed over between calls j-1 and j holds an entry initialised at that moment. */
  ghost predicate SkipsAt(r: Repo, i: nat, calls: seq<Call>, ps: seq<nat>)
    requires WellFormed(r) && |ps| == |calls|
  {
    forall j: nat, p: nat :: i <= p < |r.keys| && InGap(ps, j, p) ==>
      Replay(r, calls[..j]).entries[r.dict[r.keys[p]]].initedFlag
  }

  /**
   * The order of the pass, for any registry: the Init calls happen at
   * increasing key positions `ps` of the dictionary's enumeration order; call
   * j belongs to the entry under key position ps[j], which is not initialised
   * at that moment, and its Init runs against the registry with exactly the
   * flags set by the calls before it; every key position the walk passes
   * between two calls holds an entry already initialised at that moment; and
   * the final registry is the starting one with every call's flag update.
   */
  lemma {:induction false} WalkOrder(r: Repo, i: nat, first: Option<Error>) returns (ps: seq<nat>)
    requires WellFormed(r) && i <= |r.keys|
    ensures var w := Walk(r, i, first);
      && PositionsAt(r, i, w.calls, ps) && CallsIn(r, w.calls)
      && SeesPrefix(r, w.calls)
      && SkipsAt(r, i, w.calls, ps)
      && w.repo == Replay(r, w.calls)
    decreases |r.keys| - i
  {
    if i == |r.keys| {
      ps := [];
      return;
    }
    var e := r.dict[r.keys[i]];
    var w := Walk(r, i, first);
    if r.entries[e].initedFlag {
      assert w == Walk(r, i + 1, first);
      ps := WalkOrder(r, i + 1, first);
      SkipStep(r, i, w.calls, ps);
    } else {
      var r', first', o := WalkStep(r, i, first);
      var w' := Walk(r', i + 1, first');
      var ps' := WalkOrder(r', i + 1, first');
      var c := Call(e, o);
      assert Mark(r, c) == r';
      ps := [i] + ps';
      assert w.calls == [c] + w'.calls;
      SeesStep(r, r', c, w'.calls);
      PositionsCallStep(r, r', i, c, w'.calls, ps');
      SkipsCallStep(r, r', i, c, w'.calls, ps');
      assert w.calls[1..] == w'.calls;
    }
  }

  lemma SkipStep(r: Repo, i: nat, calls: seq<Call>, ps: seq<nat>)
    requires WellFormed(r) && i < |r.keys| && r.entries[r.dict[r.keys[i]]].initedFlag
    requires PositionsAt(r, i + 1, calls, ps) && SkipsAt(r, i + 1, calls, ps)
    ensures PositionsAt(r, i, calls, ps) && SkipsAt(r, i, calls, ps)
  {
    assert calls[..0] == [];
    forall j: nat, p: nat | i <= p < |r.keys| && InGap(ps, j, p)
      ensures Replay(r, calls[..j]).entries[r.dict[r.keys[p]]].initedFlag
    {
      if p == i {
        assert j == 0;
      }
    }
  }

  lemma SeesStep(r: Repo, r': Repo, c: Call, rest: seq<Call>)
    requires WellFormed(r) && c.entry < |r.entries| && !r.entries[c.entry].initedFlag
    requires c.outcome == RunInit(r, r.entries[c.entry].service) && r' == Mark(r, c)
    requires CallsIn(r', rest) && SeesPrefix(r', rest)
    ensures CallsIn(r, [c] + rest) && SeesPrefix(r, [c] + rest)
  {
    var calls := [c] + rest;
    assert calls[..0] == [];
    forall j | 0 <= j < |calls|
      ensures !Replay(r, calls[..j]).entries[calls[j].entry].initedFlag
      ensures calls[j].outcome == RunInit(Replay(r, calls[..j]), r.entries[calls[j].entry].service)
    {
      if j > 0 {
        assert calls[j] == rest[j - 1];
        ReplayCons(r, c, rest, j - 1);
      }
    }
  }

  lemma PositionsCallStep(r: Repo, r': Repo, i: nat, c: Call, rest: seq<Call>, ps': seq<nat>)
    requires WellFormed(r) && i < |r.keys| && r.dict[r.keys[i]] == c.entry && r' == Mark(r, c)
    requires PositionsAt(r', i + 1, rest, ps')
    ensures PositionsAt(r, i, [c] + rest, [i] + ps')
  {
  }

  lemma SkipsCallStep(r: Repo, r': Repo, i: nat, c: Call, rest: seq<Call>, ps': seq<nat>)
    requires WellFormed(r) && i < |r.keys| && r.dict[r.keys[i]] == c.entry && r' == Mark(r, c)
    requires |ps'| == |rest| && (forall j :: 0 <= j < |ps'| ==> i < ps'[j]) && SkipsAt(r', i + 1, rest, ps')
    ensures SkipsAt(r, i, [c] + rest, [i] + ps')
  {
    var calls, ps := [c] + rest, [i] + ps';
    forall j: nat, p: nat | i <= p < |r.keys| && InGap(ps, j, p)
      ensures Replay(r, calls[..j]).entries[r.dict[r.keys[p]]].initedFlag
    {
      assert j > 0 && InGap(ps', j - 1, p);
      SkipOne(r, r', i, c, rest, ps', j - 1, p);
    }
  }

  lemma SkipOne(r: Repo, r': Repo, i: nat, c: Call, rest: seq<Call>, ps': seq<nat>, k: nat, p: nat)
    requires WellFormed(r) && i < |r.keys| && r' == Mark(r, c)
    requires |ps'| == |rest| && SkipsAt(r', i + 1, rest, ps')
    requires i < p < |r.keys| && InGap(ps', k, p)
    ensures Replay(r, ([c] + rest)[..k + 1]).entries[r.dict[r.keys[p]]].initedFlag
  {
    ReplayCons(r, c, rest, k);
    assert r'.dict == r.dict && r'.keys == r.keys;
  }

  /** An entry is initialised after a replay exactly when it was before, or one of the replayed calls on it passed. */
  lemma {:induction false} ReplayFlag(r: Repo, calls: seq<Call>, e: nat)
    requires WellFormed(r) && e < |r.entries|
    ensures Replay(r, calls).entries[e].initedFlag <==> r.entries[e].initedFlag || Call(e, Pass) in calls
    decreases calls
  {
    if calls != [] {
      ReplayFlag(Mark(r, calls[0]), calls[1..], e);
      assert Call(e, Pass) in calls <==> calls[0] == Call(e, Pass) || Call(e, Pass) in calls[1..];
    }
  }

  /**
   * A failing entry stays uninitialised and is retried at its next key: if
   * call j fails and its entry is also filed under a later key position q,
   * the same entry is called again, at a position no later than q.
   */
  lemma FailedRetried(r: Repo, i: nat, calls: seq<Call>, ps: seq<nat>, j: nat, q: nat)
    requires WellFormed(r) && PositionsAt(r, i, calls, ps) && CallsIn(r, calls)
    requires SeesPrefix(r, calls) && SkipsAt(r, i, calls, ps)
    requires j < |calls| && calls[j].outcome.Fail?
    requires ps[j] < q < |r.keys| && r.dict[r.keys[q]] == calls[j].entry
    ensures exists j' :: j < j' < |calls| && calls[j'].entry == calls[j].entry && ps[j'] <= q
  {
    var e := calls[j].entry;
    var g := NextCallFrom(ps, j, q);
    if g < |ps| && ps[g] == q {
      assert calls[g].entry == e;
    } else {
      assert Replay(r, calls[..g]).entries[r.dict[r.keys[q]]].initedFlag;
      var t := PassBetween(r, calls, e, j, g);
      assert calls[t].entry == e && ps[t] < q;
    }
  }

  /** The first call index after j whose position is at or beyond q, or the end; q lies in the gap before it unless it is q. */
  lemma NextCallFrom(ps: seq<nat>, j: nat, q: nat) returns (g: nat)
    requires j < |ps| && ps[j] < q
    ensures j < g <= |ps| && (forall t :: j < t < g ==> ps[t] < q)
    ensures (g < |ps| && ps[g] == q) || InGap(ps, g, q)
  {
    g := j + 1;
    while g < |ps| && ps[g] < q
      invariant j < g <= |ps|
      invariant forall t :: j < t < g ==> ps[t] < q
    {
      g := g + 1;
    }
  }

  /** An entry uninitialised before a failing call j and initialised after call g-1 had a passing call in between. */
  lemma PassBetween(r: Repo, calls: seq<Call>, e: nat, j: nat, g: nat) returns (t: nat)
    requires WellFormed(r) && e < |r.entries| && j < g <= |calls|
    requires calls[j].entry == e && calls[j].outcome.Fail?
    requires !Replay(r, calls[..j]).entries[e].initedFlag && Replay(r, calls[..g]).entries[e].initedFlag
    ensures j < t < g && calls[t] == Call(e, Pass)
  {
    ReplayFlag(r, calls[..g], e);
    ReplayFlag(r, calls[..j], e);
    t :| 0 <= t < g && calls[..g][t] == Call(e, Pass);
  }

  /** How many key positions from `i` on hold entry `e`. */
  function KeyCount(dict: map<string, nat>, keys: seq<string>, i: nat, e: nat): (n: nat)
    requires KeysMatch(dict, keys) && i <= |keys|
    ensures n <= |keys| - i
    decreases |keys| - i
  {
    if i == |keys| then 0
    else (if dict[keys[i]] == e then 1 else 0) + KeyCount(dict, keys, i + 1, e)
  }

  /** How many recorded calls belong to entry `e`. */
  function CallCount(calls: seq<Call>, e: nat): (n: nat)
    ensures n <= |calls|
    decreases calls
  {
    if calls == [] then 0 else (if calls[0].entry == e then 1 else 0) + CallCount(calls[1..], e)
  }

  /**
   * A failing entry stays uninitialised and is retried at each of its keys:
   * an entry that ends the pass uninitialised has its Init called once for
   * every key position it is filed under.
   */
  lemma {:induction false} WalkRetriesFailed(r: Repo, i: nat, first: Option<Error>)
    requires WellFormed(r) && i <= |r.keys|
    ensures var w := Walk(r, i, first);
      forall e :: 0 <= e < |r.entries| && !w.repo.entries[e].initedFlag ==> CallCount(w.calls, e) == KeyCount(r.dict, r.keys, i, e)
    decreases |r.keys| - i
  {
    if i < |r.keys| {
      var ei := r.dict[r.keys[i]];
      var info := r.entries[ei];
      if info.initedFlag {
        assert Walk(r, i, first) == Walk(r, i + 1, first);
        WalkRetriesFailed(r, i + 1, first);
        RetrySkip(r, i, Walk(r, i, first));
      } else {
        var r', first', o := WalkStep(r, i, first);
        WalkRetriesFailed(r', i + 1, first');
        RetryStep(r, i, o, Walk(r', i + 1, first'), Walk(r, i, first));
      }
    }
  }

  /** Passing over key position `i`, whose entry is initialised, keeps the same property. */
  lemma RetrySkip(r: Repo, i: nat, w: WalkResult)
    requires WellFormed(r) && i < |r.keys| && |w.repo.entries| == |r.entries|
    requires w.repo.entries[r.dict[r.keys[i]]].initedFlag
    requires forall e :: 0 <= e < |r.entries| && !w.repo.entries[e].initedFlag ==>
               CallCount(w.calls, e) == KeyCount(r.dict, r.keys, i + 1, e)
    ensures forall e :: 0 <= e < |r.entries| && !w.repo.entries[e].initedFlag ==>
              CallCount(w.calls, e) == KeyCount(r.dict, r.keys, i, e)
  {
  }

  /** One call at key position `i` keeps "an entry left uninitialised was called at each of its keys". */
  lemma RetryStep(r: Repo, i: nat, o: Outcome<Error>, w': WalkResult, w: WalkResult)
    requires WellFormed(r) && i < |r.keys| && |w.repo.entries| == |r.entries|
    requires w == w'.(calls := [Call(r.dict[r.keys[i]], o)] + w'.calls)
    requires forall e :: 0 <= e < |r.entries| && !w'.repo.entries[e].initedFlag ==>
               CallCount(w'.calls, e) == KeyCount(r.dict, r.keys, i + 1, e)
    ensures forall e :: 0 <= e < |r.entries| && !w.repo.entries[e].initedFlag ==>
              CallCount(w.calls, e) == KeyCount(r.dict, r.keys, i, e)
  {
    assert w.calls[1..] == w'.calls;
  }

  /**
   * InitServices on a registry not yet started: it ends in InitCallsComplete
   * whatever happened; the Init of an entry already initialised is never
   * called; a successful entry is called once; every entry ends initialised
   * exactly when it was already or one of its calls succeeded; every entry
   * not yet initialised is attempted; no lookup from a callback fails for
   * readiness; and the outcome is the first failure, or Pass when there is none.
   * The calls follow the dictionary's enumeration order (positions `ps`):
   * each runs against the registry in InitCallsStarted with exactly the flags
   * of the calls before it, every key passed over holds an entry initialised
   * by then, and an entry left uninitialised was called once per key it is
   * filed under.
   */
  lemma InitAllContract(r: Repo) returns (ps: seq<nat>)
    requires WellFormed(r) && !r.state.Started()
    ensures var res := InitAll(r);
      && res.repo.state == InitCallsComplete
      && CallsIn(r, res.calls)
      && (forall j :: 0 <= j < |res.calls| ==> !r.entries[res.calls[j].entry].initedFlag)
      && SucceedsAtMostOnce(res.calls)
      && (forall e :: 0 <= e < |r.entries| ==>
            (res.repo.entries[e].initedFlag <==> r.entries[e].initedFlag || Call(e, Pass) in res.calls))
      && AllAttempted(r, 0, res.calls)
      && (forall j :: 0 <= j < |res.calls| ==> res.calls[j].outcome != Fail(NotReady))
      && res.outcome == match FirstFailure(r, res.calls) case None => Pass case Some(e) => Fail(e)
    ensures var s, res := r.(state := InitCallsStarted), InitAll(r);
      && PositionsAt(s, 0, res.calls, ps) && CallsIn(s, res.calls)
      && SeesPrefix(s, res.calls)
      && SkipsAt(s, 0, res.calls, ps)
      && (forall e :: 0 <= e < |r.entries| && !res.repo.entries[e].initedFlag ==>
            CallCount(res.calls, e) == KeyCount(r.dict, r.keys, 0, e))
  {
    var s := r.(state := InitCallsStarted);
    WalkSkipsInited(s, 0, None);
    WalkSucceedsOnce(s, 0, None);
    WalkFlags(s, 0, None);
    WalkAttemptsAll(s, 0, None);
    WalkFirstError(s, 0, None);
    WalkNeverNotReady(s, 0, None);
    FirstFailureIgnoresFlags(s, r, Walk(s, 0, None).calls);
    ps := WalkOrder(s, 0, None);
    WalkRetriesFailed(s, 0, None);
  }

  /** A second InitServices is refused and changes nothing: the first pass's initialisations stand. */
  lemma InitTwice(r: Repo)
    requires WellFormed(r) && !r.state.Started()
    ensures InitAll(InitAll(r).repo) == InitResult(InitAll(r).repo, Fail(AlreadyInitialized), [])
  {
  }

  /** Adding two plain single-interface services to an empty registry. */
  lemma RegisterTwo(a: Service, b: Service)
    requires |a.interfaces| == 1 && |b.interfaces| == 1 && a.interfaces[0] != b.interfaces[0]
    requires a.children == [] && b.children == []
    ensures RegisterAll(EmptyRepo, [a, b]) ==
      Repo(SomeAdded, map[a.interfaces[0] := 0, b.interfaces[0] := 1], [a.interfaces[0], b.interfaces[0]],
           [ServiceInfo(a, false), ServiceInfo(b, false)])
  {
    RegisterTwoFrom(EmptyRepo, a, b);
  }

  lemma RegisterTwoFrom(e: Repo, a: Service, b: Service)
    requires e.dict == map[] && e.keys == [] && e.entries == []
    requires |a.interfaces| == 1 && |b.interfaces| == 1 && a.interfaces[0] != b.interfaces[0]
    requires a.children == [] && b.children == []
    ensures WellFormed(e) && RegisterAll(e, [a, b]) ==
      Repo(SomeAdded, map[a.interfaces[0] := 0, b.interfaces[0] := 1], [a.interfaces[0], b.interfaces[0]],
           [ServiceInfo(a, false), ServiceInfo(b, false)])
  {
    assert Sequential(e);
    RegisterOnePlain(e, a);
    var ra := Register(e, a);
    RegisterOnePlain(ra, b);
    RegisterAllPair(e, a, b);
    PairShape(e, ra, Register(ra, b), a, b);
  }

  /** The field arithmetic of two appending registrations on an empty registry. */
  lemma PairShape(e: Repo, ra: Repo, rb: Repo, a: Service, b: Service)
    requires e.dict == map[] && e.keys == [] && e.entries == []
    requires |a.interfaces| == 1 && |b.interfaces| == 1
    requires ra.keys == e.keys + [a.interfaces[0]] && ra.entries == e.entries + [ServiceInfo(a, false)]
    requires ra.dict == e.dict[a.interfaces[0] := |e.entries|]
    requires rb.state == SomeAdded && rb.keys == ra.keys + [b.interfaces[0]]
    requires rb.entries == ra.entries + [ServiceInfo(b, false)] && rb.dict == ra.dict[b.interfaces[0] := |ra.entries|]
    ensures rb == Repo(SomeAdded, map[a.interfaces[0] := 0, b.interfaces[0] := 1], [a.interfaces[0], b.interfaces[0]],
                       [ServiceInfo(a, false), ServiceInfo(b, false)])
  {
  }

  lemma RegisterAllPair(r: Repo, a: Service, b: Service)
    requires WellFormed(r)
    ensures RegisterAll(r, [a, b]) == Register(Register(r, a), b)
  {
    assert [a, b][1..] == [b];
    var ra := Register(r, a);
    assert RegisterAll(r, [a, b]) == RegisterAll(ra, [b]);
    assert [b][1..] == [];
  }

  /**
   * Order matters for mustBeUsable: a service whose Init demands an
   * initialised peer fails if the peer is registered after it...
   */
  lemma PeerRegisteredAfterFails(nameA: string, nameB: string, kA: string, kB: string)
    requires kA != kB
    ensures var a := Service(nameA, [kA], [], [GetCall(kB, true)], false);
            var b := Service(nameB, [kB], [], [], false);
            InitWithServicesSpec(EmptyRepo, [a, b]).outcome == Fail(InitFailed(nameA, NotYetInitialized(kB)))
  {
    var a := Service(nameA, [kA], [], [GetCall(kB, true)], false);
    var b := Service(nameB, [kB], [], [], false);
    RegisterTwo(a, b);
    TwoFail(RegisterAll(EmptyRepo, [a, b]), a, b, kB);
  }

  /** Initialising a registry of a service that needs a later peer initialised, then that peer. */
  lemma TwoFail(r: Repo, a: Service, b: Service, kB: string)
    requires WellFormed(r) && r.state == SomeAdded && |r.keys| == 2 && |r.entries| == 2
    requires r.dict[r.keys[0]] == 0 && r.dict[r.keys[1]] == 1 && r.keys[1] == kB
    requires r.entries == [ServiceInfo(a, false), ServiceInfo(b, false)]
    requires a.script == [GetCall(kB, true)]
    ensures InitAll(r).outcome == Fail(InitFailed(a.name, NotYetInitialized(kB)))
  {
    var s := r.(state := InitCallsStarted);
    assert RunScript(s, a.script) == Fail(NotYetInitialized(kB));
    WalkFail(s, 0, None);
    WalkFirstError(s, 1, Some(InitFailed(a.name, NotYetInitialized(kB))));
  }

  /** ... and succeeds if the peer is registered first. */
  lemma PeerRegisteredFirstSucceeds(nameA: string, nameB: string, kA: string, kB: string)
    requires kA != kB
    ensures var a := Service(nameA, [kA], [], [GetCall(kB, true)], false);
            var b := Service(nameB, [kB], [], [], false);
            InitWithServicesSpec(EmptyRepo, [b, a]).outcome == Pass
  {
    var a := Service(nameA, [kA], [], [GetCall(kB, true)], false);
    var b := Service(nameB, [kB], [], [], false);
    RegisterTwo(b, a);
    TwoPass(RegisterAll(EmptyRepo, [b, a]), a, b, kB);
  }

  /** Initialising a registry of a plain service and a service that needs it initialised, in that order. */
  lemma TwoPass(r: Repo, a: Service, b: Service, kB: string)
    requires WellFormed(r) && r.state == SomeAdded && |r.keys| == 2 && |r.entries| == 2
    requires r.dict[r.keys[0]] == 0 && r.dict[r.keys[1]] == 1 && r.keys[0] == kB
    requires r.entries == [ServiceInfo(b, false), ServiceInfo(a, false)]
    requires b.script == [] && !b.throws && a.script == [GetCall(kB, true)] && !a.throws
    ensures InitAll(r).outcome == Pass
  {
    var s := r.(state := InitCallsStarted);
    var s1 := s.(entries := [ServiceInfo(b, true), ServiceInfo(a, false)]);
    FirstOfTwoPasses(s, s1, b);
    SecondOfTwoPasses(s1, a, kB);
  }

  /** The walk's first step over a two-entry registry whose first service has no lookups. */
  lemma FirstOfTwoPasses(s: Repo, s1: Repo, b: Service)
    requires WellFormed(s) && |s.keys| == 2 && s.dict[s.keys[0]] == 0 && |s.entries| == 2
    requires s.entries[0] == ServiceInfo(b, false) && b.script == [] && !b.throws
    requires s1 == s.(entries := s.entries[0 := ServiceInfo(b, true)])
    ensures WellFormed(s1) && Walk(s, 0, None).firstError == Walk(s1, 1, None).firstError
  {
    assert RunInit(s, b) == Pass;
  }

  /** The walk's second step: a lookup of an initialised peer succeeds. */
  lemma SecondOfTwoPasses(s1: Repo, a: Service, kB: string)
    requires WellFormed(s1) && |s1.keys| == 2 && s1.state == InitCallsStarted
    requires s1.dict[s1.keys[1]] == 1 && s1.entries[1] == ServiceInfo(a, false)
    requires kB in s1.dict && s1.entries[s1.dict[kB]].initedFlag
    requires a.script == [GetCall(kB, true)] && !a.throws
    ensures Walk(s1, 1, None).firstError == None
  {
    assert RunScript(s1, a.script) == Pass;
    var s2 := s1.(entries := s1.entries[1 := ServiceInfo(a, true)]);
    assert Walk(s1, 1, None).firstError == Walk(s2, 2, None).firstError;
  }

  // ---------------------------------------------------------------------------
  // Plain registries: one interface per service, no aggregates, no overwrites
  // ---------------------------------------------------------------------------

  /** Key `i` of the enumeration order refers to entry `i`. */
  ghost predicate Sequential(r: Repo) {
    |r.keys| == |r.entries| && forall i :: 0 <= i < |r.keys| ==> r.keys[i] in r.dict && r.dict[r.keys[i]] == i
  }

  /** Every service of `l` is a non-aggregate with one interface, new to `r` and distinct from the others'. */
  ghost predicate PlainFrom(r: Repo, l: seq<Service>) {
    forall i :: 0 <= i < |l| ==>
      |l[i].interfaces| == 1 && l[i].children == [] && l[i].interfaces[0] !in r.dict &&
      forall j :: i < j < |l| ==> l[i].interfaces != l[j].interfaces
  }

  /** Adding one plain service with a new interface appends its key and its entry. */
  lemma RegisterOnePlain(r: Repo, s: Service)
    requires WellFormed(r) && Sequential(r)
    requires |s.interfaces| == 1 && s.children == [] && s.interfaces[0] !in r.dict
    ensures var r1 := Register(r, s);
            Sequential(r1) && r1.state == SomeAdded &&
            r1.keys == r.keys + [s.interfaces[0]] && r1.entries == r.entries + [ServiceInfo(s, false)] &&
            r1.dict == r.dict[s.interfaces[0] := |r.entries|]
  {
    FileOne(r, s);
    assert Register(r, s) == File(r, s);
  }

  /** Filing a service with one new interface (an aggregate's own filing included) appends its key and its entry. */
  lemma FileOne(r: Repo, s: Service)
    requires WellFormed(r) && Sequential(r)
    requires |s.interfaces| == 1 && s.interfaces[0] !in r.dict
    ensures var r1 := File(r, s);
            Sequential(r1) && r1.state == SomeAdded &&
            r1.keys == r.keys + [s.interfaces[0]] && r1.entries == r.entries + [ServiceInfo(s, false)] &&
            r1.dict == r.dict[s.interfaces[0] := |r.entries|]
  {
    var k := s.interfaces[0];
    assert s.interfaces[1..] == [];
    var r1 := File(r, s);
    assert FileUnder(r.dict, r.keys, s.interfaces, |r.entries|) == FileUnder(r.dict[k := |r.entries|], r.keys + [k], [], |r.entries|);
    assert r1.keys == r.keys + [k] && r1.dict == r.dict[k := |r.entries|];
    forall i | 0 <= i < |r1.keys|
      ensures r1.keys[i] in r1.dict && r1.dict[r1.keys[i]] == i
    {
      if i < |r.keys| {
        assert r1.keys[i] == r.keys[i] && r.keys[i] != k;
      }
    }
  }

  /** `r'` is `r` with one key and one uninitialised entry per service of `l` appended, in order. */
  ghost predicate AppendedPlain(r: Repo, l: seq<Service>, r': Repo) {
    Sequential(r') && |r'.keys| == |r.keys| + |l| && |r.keys| <= |r'.entries| &&
    forall i :: 0 <= i < |l| ==>
      |l[i].interfaces| == 1 && r'.keys[|r.keys| + i] == l[i].interfaces[0] && r'.entries[|r.keys| + i] == ServiceInfo(l[i], false)
  }

  /** Registering plain services appends one key and one entry per service, in the order given. */
  lemma {:induction false} RegisterPlain(r: Repo, l: seq<Service>)
    requires WellFormed(r) && Sequential(r) && PlainFrom(r, l)
    ensures AppendedPlain(r, l, RegisterAll(r, l))
    decreases l
  {
    if l != [] {
      var s := l[0];
      RegisterOnePlain(r, s);
      var r1 := Register(r, s);
      var tl := l[1..];
      PlainFromStep(r, r1, l);
      RegisterPlain(r1, tl);
      AppendedPlainStep(r, r1, RegisterAll(r1, tl), l);
    }
  }

  /** The rest of a plain list is plain with respect to the registry after its first service. */
  lemma PlainFromStep(r: Repo, r1: Repo, l: seq<Service>)
    requires l != [] && PlainFrom(r, l) && r1.dict == r.dict[l[0].interfaces[0] := |r.entries|]
    ensures PlainFrom(r1, l[1..])
  {
    var tl := l[1..];
    forall i | 0 <= i < |tl|
      ensures tl[i].interfaces[0] !in r1.dict
    {
      assert tl[i] == l[i + 1];
      assert l[0].interfaces == [l[0].interfaces[0]] && tl[i].interfaces == [tl[i].interfaces[0]];
    }
  }

  /** The bookkeeping of RegisterPlain's step. */
  lemma AppendedPlainStep(r: Repo, r1: Repo, r': Repo, l: seq<Service>)
    requires l != [] && |l[0].interfaces| == 1 && |r.keys| == |r.entries|
    requires r1.keys == r.keys + [l[0].interfaces[0]] && r1.entries == r.entries + [ServiceInfo(l[0], false)]
    requires AppendedPlain(r1, l[1..], r')
    requires r'.keys[..|r1.keys|] == r1.keys && r'.entries[..|r1.entries|] == r1.entries
    ensures AppendedPlain(r, l, r')
  {
    assert r'.keys[|r.keys|] == r'.keys[..|r1.keys|][|r.keys|];
    assert r'.entries[|r.keys|] == r'.entries[..|r1.entries|][|r.keys|];
    forall i | 1 <= i < |l|
      ensures |l[i].interfaces| == 1 && r'.keys[|r.keys| + i] == l[i].interfaces[0] && r'.entries[|r.keys| + i] == ServiceInfo(l[i], false)
    {
      assert l[1..][i - 1] == l[i];
    }
  }

  /** One step of the walk whose Init succeeds: the entry is marked initialised and the walk moves on. */
  lemma WalkPass(r: Repo, i: nat, first: Option<Error>)
    requires WellFormed(r) && i < |r.keys|
    requires !r.entries[r.dict[r.keys[i]]].initedFlag && RunInit(r, r.entries[r.dict[r.keys[i]]].service) == Pass
    ensures var e := r.dict[r.keys[i]];
            var r' := r.(entries := r.entries[e := r.entries[e].(initedFlag := true)]);
            WellFormed(r') &&
            Walk(r, i, first).repo == Walk(r', i + 1, first).repo &&
            Walk(r, i, first).firstError == Walk(r', i + 1, first).firstError
  {
  }

  /** One step of the walk whose Init fails: nothing changes, and the error is kept if it is the first. */
  lemma WalkFail(r: Repo, i: nat, first: Option<Error>)
    requires WellFormed(r) && i < |r.keys|
    requires !r.entries[r.dict[r.keys[i]]].initedFlag && RunInit(r, r.entries[r.dict[r.keys[i]]].service).Fail?
    ensures var info := r.entries[r.dict[r.keys[i]]];
            var first' := if first.None? then Some(InitFailed(info.service.name, RunInit(r, info.service).error)) else first;
            Walk(r, i, first).repo == Walk(r, i + 1, first').repo &&
            Walk(r, i, first).firstError == Walk(r, i + 1, first').firstError
  {
  }

  /** `r` with the entries lo..hi-1 marked initialised. */
  function MarkInited(r: Repo, lo: nat, hi: nat): (r': Repo)
    requires WellFormed(r)
    ensures WellFormed(r') && OnlyFlagsChanged(r, r')
    ensures forall e :: 0 <= e < |r.entries| ==>
              r'.entries[e].initedFlag == (r.entries[e].initedFlag || lo <= e < hi)
  {
    r.(entries := seq(|r.entries|, e requires 0 <= e < |r.entries| =>
                        if lo <= e < hi then r.entries[e].(initedFlag := true) else r.entries[e]))
  }

  lemma MarkNone(r: Repo, n: nat)
    requires WellFormed(r)
    ensures MarkInited(r, n, n) == r
  {
    assert MarkInited(r, n, n).entries == r.entries;
  }

  /**
   * A walk over a registry whose entries from `lo` on are uninitialised and
   * each of whose Inits succeeds once its predecessors are initialised:
   * every entry gets initialised in key order and no error is recorded.
   */
  lemma {:induction false} WalkInOrder(r: Repo, lo: nat, i: nat, first: Option<Error>)
    requires WellFormed(r) && Sequential(r) && lo <= i <= |r.keys|
    requires forall e :: lo <= e < |r.entries| ==> !r.entries[e].initedFlag
    requires forall j :: i <= j < |r.keys| ==> RunInit(MarkInited(r, lo, j), r.entries[j].service) == Pass
    ensures Walk(MarkInited(r, lo, i), i, first).repo == MarkInited(r, lo, |r.keys|)
    ensures Walk(MarkInited(r, lo, i), i, first).firstError == first
    decreases |r.keys| - i
  {
    var m := MarkInited(r, lo, i);
    if i < |r.keys| {
      assert m.dict[m.keys[i]] == i;
      var m' := m.(entries := m.entries[i := m.entries[i].(initedFlag := true)]);
      assert m' == MarkInited(r, lo, i + 1);
      assert Walk(m, i, first) == Walk(m', i + 1, first).(calls := [Call(i, Pass)] + Walk(m', i + 1, first).calls);
      WalkInOrder(r, lo, i + 1, first);
    }
  }

  /** InitServices over a plain, fresh registry whose every Init succeeds once its predecessors are initialised. */
  lemma InitInOrder(r: Repo)
    requires WellFormed(r) && Sequential(r) && !r.state.Started()
    requires forall e :: 0 <= e < |r.entries| ==> !r.entries[e].initedFlag
    requires forall j :: 0 <= j < |r.keys| ==>
               RunInit(MarkInited(r.(state := InitCallsStarted), 0, j), r.entries[j].service) == Pass
    ensures InitAll(r).outcome == Pass
    ensures InitAll(r).repo == MarkInited(r, 0, |r.keys|).(state := InitCallsComplete)
    ensures forall j :: 0 <= j < |r.keys| ==> Lookup(InitAll(r).repo, r.keys[j], true) == Success(r.entries[j].service)
  {
    var s := r.(state := InitCallsStarted);
    MarkNone(s, 0);
    WalkInOrder(s, 0, 0, None);
    var f := InitAll(r).repo;
    forall j | 0 <= j < |r.keys|
      ensures Lookup(f, r.keys[j], true) == Success(r.entries[j].service)
    {
      assert f.dict[f.keys[j]] == j;
    }
  }

  /**
   * InitServices over a plain, fresh registry whose first Init fails and
   * whose others succeed: the others are still initialised, the first stays
   * uninitialised, and its failure is the one reported.
   */
  lemma InitFirstFails(r: Repo)
    requires WellFormed(r) && Sequential(r) && !r.state.Started() && |r.keys| > 0
    requires forall e :: 0 <= e < |r.entries| ==> !r.entries[e].initedFlag
    requires RunInit(r.(state := InitCallsStarted), r.entries[0].service).Fail?
    requires forall j :: 1 <= j < |r.keys| ==>
               RunInit(MarkInited(r.(state := InitCallsStarted), 1, j), r.entries[j].service) == Pass
    ensures InitAll(r).outcome ==
              Fail(InitFailed(r.entries[0].service.name, RunInit(r.(state := InitCallsStarted), r.entries[0].service).error))
    ensures InitAll(r).repo == MarkInited(r, 1, |r.keys|).(state := InitCallsComplete)
  {
    var s := r.(state := InitCallsStarted);
    var err := InitFailed(r.entries[0].service.name, RunInit(s, r.entries[0].service).error);
    assert s.dict[s.keys[0]] == 0;
    WalkFail(s, 0, None);
    MarkNone(s, 1);
    WalkInOrder(s, 1, 1, Some(err));
  }
}
