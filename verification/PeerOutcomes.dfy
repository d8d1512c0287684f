/** Exactly when applying a network map succeeds, and which error or panic it ends with
    otherwise, decided from the store, the map and the environment before the call. */
module PeerOutcomes {
  import opened Prelude
  import opened PeerModel
  import opened PeerEngine

  /** What happens when a connection for this entry has to be made. */
  function Fault(env: Env, p: Remote): Outcome {
    if !AllParse(env, p.ips) then BadPrefix
    else if !env.createOk(p.key) then CreateFailed
    else if p.ips == [] then NoAddress
    else Ok
  }

  /** Entry `i` is the first one for a key outside `known`. */
  predicate IsNew(known: set<string>, ps: seq<Remote>, i: nat)
    requires i < |ps|
  {
    ps[i].key !in known && forall j :: 0 <= j < i ==> ps[j].key != ps[i].key
  }

  /** Entry `i` is the first one that disagrees with the stored peer of its key. */
  predicate IsStale(e: Engine, ps: seq<Remote>, env: Env, i: nat)
    requires i < |ps|
  {
    IsModified(e, ps[i], env)
    && forall j :: 0 <= j < i && ps[j].key == ps[i].key ==> !IsModified(e, ps[j], env)
  }

  function AddFaults(known: set<string>, ps: seq<Remote>, env: Env): seq<Outcome> {
    seq(|ps|, i requires 0 <= i < |ps| => if IsNew(known, ps, i) then Fault(env, ps[i]) else Ok)
  }

  function ModifyFaults(e: Engine, ps: seq<Remote>, env: Env): seq<Outcome> {
    seq(|ps|, i requires 0 <= i < |ps| => if IsStale(e, ps, env, i) then Fault(env, ps[i]) else Ok)
  }

  /** The first outcome that is not Ok, if there is one. */
  function First(os: seq<Outcome>): Outcome {
    if os == [] then Ok
    else
      var o := First(os[..|os| - 1]);
      if o != Ok then o else os[|os| - 1]
  }

  lemma {:induction false} FirstOk(os: seq<Outcome>)
    ensures First(os) == Ok <==> forall i :: 0 <= i < |os| ==> os[i] == Ok
  {
    if os != [] {
      FirstOk(os[..|os| - 1]);
      assert forall i :: 0 <= i < |os| - 1 ==> os[..|os| - 1][i] == os[i];
    }
  }

  predicate FailsFirst(os: seq<Outcome>, i: nat, o: Outcome) {
    i < |os| && os[i] == o && forall j :: 0 <= j < i ==> os[j] == Ok
  }

  lemma {:induction false} FirstIs(os: seq<Outcome>, o: Outcome)
    requires o != Ok
    ensures First(os) == o <==> exists i :: FailsFirst(os, i, o)
  {
    if os != [] {
      var front, last := os[..|os| - 1], |os| - 1;
      FirstIs(front, o);
      FirstOk(front);
      forall i | 0 <= i < last ensures FailsFirst(front, i, o) <==> FailsFirst(os, i, o) {
        assert forall j :: 0 <= j <= i ==> front[j] == os[j];
      }
      if First(front) == Ok {
        assert FailsFirst(os, last, o) <==> os[last] == o;
      } else {
        assert !FailsFirst(os, last, o) by {
          var j :| 0 <= j < |front| && front[j] != Ok;
          assert os[j] != Ok;
        }
      }
    }
  }

  lemma {:induction false} FirstConcat(a: seq<Outcome>, b: seq<Outcome>)
    ensures First(a + b) == if First(a) != Ok then First(a) else First(b)
  {
    if b == [] {
      assert a + b == a;
    } else {
      FirstConcat(a, b[..|b| - 1]);
      assert (a + b)[..|a + b| - 1] == a + b[..|b| - 1];
    }
  }

  // ------------------------------------------------------------------- the passes

  lemma AddFaultsSnoc(known: set<string>, front: seq<Remote>, p: Remote, env: Env)
    ensures AddFaults(known, front + [p], env)
         == AddFaults(known, front, env) + [if p.key !in known && p.key !in Keys(front) then Fault(env, p) else Ok]
  {
    var ps := front + [p];
    forall i | 0 <= i < |front| ensures IsNew(known, ps, i) <==> IsNew(known, front, i) {
      assert forall j :: 0 <= j <= i ==> ps[j] == front[j];
    }
    assert IsNew(known, ps, |front|) <==> p.key !in known && p.key !in Keys(front) by {
      if p.key in Keys(front) {
        var q :| q in front && q.key == p.key;
        var j :| 0 <= j < |front| && front[j] == q;
        assert ps[j].key == p.key;
      }
      assert forall j :: 0 <= j < |front| ==> ps[j] == front[j] && front[j] in front;
    }
  }

  lemma FirstSnoc(os: seq<Outcome>, o: Outcome)
    ensures First(os + [o]) == if First(os) != Ok then First(os) else o
  {
    assert (os + [o])[..|os|] == os;
  }

  lemma AddNewPeerOutcome(e: Engine, p: Remote, env: Env)
    requires Numbered(e)
    ensures var (e', o) := AddNewPeer(e, p, env);
      && o == (if p.key in e.mgr.store then Ok else Fault(env, p))
      && (o == Ok ==> e'.mgr.store.Keys == e.mgr.store.Keys + {p.key})
  {
    AddNewPeerEffect(e, p, env);
  }

  /** The pass over new peers ends with the fault of the first entry that needs a connection and
      cannot get one. */
  lemma {:induction false} AddOutcome(e: Engine, ps: seq<Remote>, env: Env)
    requires Numbered(e)
    ensures var (e', o) := AddNewPeers(e, ps, env);
      && o == First(AddFaults(e.mgr.store.Keys, ps, env))
      && (o == Ok ==> e'.mgr.store.Keys == e.mgr.store.Keys + Keys(ps))
  {
    if ps == [] {
      assert Keys(ps) == {};
    } else {
      var front, p := ps[..|ps| - 1], ps[|ps| - 1];
      var known := e.mgr.store.Keys;
      assert ps == front + [p];
      AddOutcome(e, front, env);
      AddNewPeersEffect(e, front, env);
      AddFaultsSnoc(known, front, p, env);
      FirstSnoc(AddFaults(known, front, env), if p.key !in known && p.key !in Keys(front) then Fault(env, p) else Ok);
      assert Keys(ps) == Keys(front) + {p.key};
      AddNewPeerOutcome(AddNewPeers(e, front, env).0, p, env);
    }
  }

  lemma LastFails(e: Engine, front: seq<Remote>, p: Remote, env: Env, o: Outcome)
    requires Numbered(e) && First(AddFaults(e.mgr.store.Keys, front, env)) == Ok && o != Ok
    requires o == if p.key !in e.mgr.store && p.key !in Keys(front) then Fault(env, p) else Ok
    ensures AddNewPeers(e, front + [p], env) == (AddNewPeers(e, front, env).0, o)
    ensures AddNewPeers(e, front, env).1 == Ok
    ensures AddNewPeers(e, front, env).0.mgr.store.Keys == e.mgr.store.Keys + Keys(front)
  {
    AddOutcome(e, front, env);
    AddNewPeersEffect(e, front, env);
    AddNewPeerOutcome(AddNewPeers(e, front, env).0, p, env);
    AddNewPeerEffect(AddNewPeers(e, front, env).0, p, env);
    assert (front + [p])[..|front|] == front;
  }

  /** The pass stops at the first fault. */
  lemma {:induction false} AddStops(e: Engine, front: seq<Remote>, more: seq<Remote>, env: Env)
    requires AddNewPeers(e, front, env).1 != Ok
    ensures AddNewPeers(e, front + more, env) == AddNewPeers(e, front, env)
  {
    if more == [] {
      assert front + more == front;
    } else {
      AddStops(e, front, more[..|more| - 1], env);
      assert (front + more)[..|front + more| - 1] == front + more[..|more| - 1];
    }
  }

  lemma AddFaultsPrefix(known: set<string>, ps: seq<Remote>, env: Env, n: nat)
    requires n <= |ps|
    ensures AddFaults(known, ps[..n], env) == AddFaults(known, ps, env)[..n]
  {
    forall i | 0 <= i < n ensures IsNew(known, ps[..n], i) <==> IsNew(known, ps, i) {
      assert forall j :: 0 <= j <= i ==> ps[..n][j] == ps[j];
    }
  }

  /** When the pass fails at entry `n`, exactly the entries before it have been added. */
  lemma AddFailure(e: Engine, ps: seq<Remote>, env: Env, n: nat, o: Outcome)
    requires Numbered(e) && o != Ok && FailsFirst(AddFaults(e.mgr.store.Keys, ps, env), n, o)
    ensures n < |ps| && ps[n].key !in e.mgr.store && ps[n].key !in Keys(ps[..n])
    ensures AddNewPeers(e, ps, env) == (AddNewPeers(e, ps[..n], env).0, o)
    ensures AddNewPeers(e, ps[..n], env).1 == Ok
    ensures AddNewPeers(e, ps, env).0.mgr.store.Keys == e.mgr.store.Keys + Keys(ps[..n])
  {
    var known, front, p := e.mgr.store.Keys, ps[..n], ps[n];
    assert ps[..n + 1] == front + [p];
    AddFaultsPrefix(known, ps, env, n);
    AddFaultsPrefix(known, ps, env, n + 1);
    AddFaultsSnoc(known, front, p, env);
    FirstOk(AddFaults(known, front, env));
    assert AddFaults(known, ps, env)[..n + 1][n] == o;
    LastFails(e, front, p, env, o);
    AddStops(e, ps[..n + 1], ps[n + 1..], env);
    assert ps[..n + 1] + ps[n + 1..] == ps;
  }

  lemma ModifyFaultsSnoc(e: Engine, front: seq<Remote>, p: Remote, env: Env)
    ensures ModifyFaults(e, front + [p], env)
         == ModifyFaults(e, front, env)
            + [if IsModified(e, p, env) && p.key !in Keys(ModifiedPeers(e, front, env)) then Fault(env, p) else Ok]
  {
    var ps := front + [p];
    ModifiedMembers(e, front, env);
    forall i | 0 <= i < |front| ensures IsStale(e, ps, env, i) <==> IsStale(e, front, env, i) {
      assert forall j :: 0 <= j <= i ==> ps[j] == front[j];
    }
    assert IsStale(e, ps, env, |front|)
           <==> IsModified(e, p, env) && p.key !in Keys(ModifiedPeers(e, front, env)) by {
      if p.key in Keys(ModifiedPeers(e, front, env)) {
        var q :| q in ModifiedPeers(e, front, env) && q.key == p.key;
        var j :| 0 <= j < |front| && front[j] == q;
        assert ps[j] == q;
      }
      assert forall j :: 0 <= j < |front| ==> ps[j] == front[j] && front[j] in front;
    }
  }

  lemma {:induction false} ModifiedFold(e: Engine, ps: seq<Remote>, env: Env, known: set<string>)
    requires known !! Keys(ModifiedPeers(e, ps, env))
    ensures First(AddFaults(known, ModifiedPeers(e, ps, env), env)) == First(ModifyFaults(e, ps, env))
  {
    if ps != [] {
      var front, p := ps[..|ps| - 1], ps[|ps| - 1];
      var mf := ModifiedPeers(e, front, env);
      assert ps == front + [p];
      assert Keys(mf + [p]) == Keys(mf) + {p.key};
      ModifiedFold(e, front, env, known);
      ModifyFaultsSnoc(e, front, p, env);
      var o := if IsModified(e, p, env) && p.key !in Keys(mf) then Fault(env, p) else Ok;
      FirstSnoc(ModifyFaults(e, front, env), o);
      if IsModified(e, p, env) {
        AddFaultsSnoc(known, mf, p, env);
        FirstSnoc(AddFaults(known, mf, env), o);
      }
    }
  }

  lemma ModifyOutcome(e: Engine, ps: seq<Remote>, env: Env)
    requires Numbered(e)
    ensures var (e', o) := ModifyPeers(e, ps, env);
      && o == First(ModifyFaults(e, ps, env))
      && Numbered(e')
      && (o == Ok ==> e'.mgr.store.Keys == e.mgr.store.Keys)
  {
    var modified := ModifiedPeers(e, ps, env);
    var e1 := RemoveKeys(e, Keys(modified));
    RemoveKeysEffect(e, Keys(modified));
    AddOutcome(e1, modified, env);
    AddNewPeersEffect(e1, modified, env);
    ModifiedFold(e, ps, env, e1.mgr.store.Keys);
    ModifiedMembers(e, ps, env);
  }

  /** When the pass over changed peers fails, all of them have lost their connection and exactly those
      before the failing one have got a new one: the failing peer, stored before, is gone. */
  lemma FailedModifyLoses(e: Engine, ps: seq<Remote>, env: Env) returns (n: nat)
    requires Numbered(e) && ModifyPeers(e, ps, env).1 != Ok
    ensures var modified := ModifiedPeers(e, ps, env); var (e', o) := ModifyPeers(e, ps, env);
      && n < |modified| && Fault(env, modified[n]) == o
      && e'.mgr.store.Keys == (e.mgr.store.Keys - Keys(modified)) + Keys(modified[..n])
      && modified[n].key in e.mgr.store && modified[n].key !in e'.mgr.store
  {
    var modified := ModifiedPeers(e, ps, env);
    var e1, o := RemoveKeys(e, Keys(modified)), ModifyPeers(e, ps, env).1;
    RemoveKeysEffect(e, Keys(modified));
    AddOutcome(e1, modified, env);
    FirstIs(AddFaults(e1.mgr.store.Keys, modified, env), o);
    n :| FailsFirst(AddFaults(e1.mgr.store.Keys, modified, env), n, o);
    AddFailure(e1, modified, env, n, o);
    ModifiedMembers(e, ps, env);
    assert modified[n] in modified;
  }

  /** In particular an entry that does not parse removes the peer that is stored under its key. */
  lemma BadPrefixDropsPeer(e: Engine, p: Remote, env: Env)
    requires Numbered(e) && p.key in e.mgr.store && !AllParse(env, p.ips)
    ensures Reconcile(e, [p], env).1 == BadPrefix && p.key !in Reconcile(e, [p], env).0.mgr.store
  {
    var e1 := RemovePeers(e, [p]);
    assert Keys([p]) == {p.key} by { assert p in [p]; }
    RemoveKeysEffect(e, e.mgr.store.Keys - Keys([p]));
    assert IsModified(e1, p, env);
    assert [p][..0] == [];
    assert ModifiedPeers(e1, [p], env) == [p];
    RemoveKeysEffect(e1, {p.key});
    assert AddNewPeers(RemoveKeys(e1, {p.key}), [p], env) == (RemoveKeys(e1, {p.key}), BadPrefix);
  }

  // -------------------------------------------------------------------- the theorems

  /** Every fault that reconciling would meet, in the order in which it would meet them. */
  function Faults(e: Engine, ps: seq<Remote>, env: Env): seq<Outcome> {
    ModifyFaults(e, ps, env) + AddFaults(e.mgr.store.Keys, ps, env)
  }

  lemma ReconcileOutcome(e: Engine, ps: seq<Remote>, env: Env)
    requires Numbered(e)
    ensures Reconcile(e, ps, env).1 == First(Faults(e, ps, env))
  {
    var e1 := RemovePeers(e, ps);
    RemoveKeysEffect(e, e.mgr.store.Keys - Keys(ps));
    forall i | 0 <= i < |ps| ensures ps[i].key in Keys(ps) {
      assert ps[i] in ps;
    }
    assert ModifyFaults(e1, ps, env) == ModifyFaults(e, ps, env) by {
      forall i | 0 <= i < |ps| ensures IsModified(e1, ps[i], env) <==> IsModified(e, ps[i], env) {
      }
    }
    assert AddFaults(e1.mgr.store.Keys, ps, env) == AddFaults(e.mgr.store.Keys, ps, env) by {
      forall i | 0 <= i < |ps| ensures IsNew(e1.mgr.store.Keys, ps, i) <==> IsNew(e.mgr.store.Keys, ps, i) {
      }
    }
    ModifyOutcome(e1, ps, env);
    var (e2, o) := ModifyPeers(e1, ps, env);
    AddOutcome(e2, ps, env);
    FirstConcat(ModifyFaults(e, ps, env), AddFaults(e.mgr.store.Keys, ps, env));
  }

  /** A connection can be made for this entry. */
  predicate Buildable(env: Env, p: Remote) {
    AllParse(env, p.ips) && env.createOk(p.key) && p.ips != []
  }

  /** Reconciling succeeds exactly when a connection can be made for each entry that needs one:
      the first of a key that is not stored, the first that disagrees with a stored peer. */
  lemma ReconcileOkIff(e: Engine, ps: seq<Remote>, env: Env)
    requires Numbered(e)
    ensures Reconcile(e, ps, env).1 == Ok <==>
            forall i :: 0 <= i < |ps| && (IsNew(e.mgr.store.Keys, ps, i) || IsStale(e, ps, env, i)) ==> Buildable(env, ps[i])
  {
    ReconcileOutcome(e, ps, env);
    var known := e.mgr.store.Keys;
    FirstConcat(ModifyFaults(e, ps, env), AddFaults(known, ps, env));
    FirstOk(ModifyFaults(e, ps, env));
    FirstOk(AddFaults(known, ps, env));
    forall i | 0 <= i < |ps|
      ensures ModifyFaults(e, ps, env)[i] == Ok && AddFaults(known, ps, env)[i] == Ok
              <==> (IsNew(known, ps, i) || IsStale(e, ps, env, i) ==> Buildable(env, ps[i]))
    {
    }
  }

  /** The panic on an empty address list: exactly when the first fault met is an entry whose
      prefixes all parse, whose connection is created, and which has no allowed IPs. */
  lemma ReconcilePanicsIff(e: Engine, ps: seq<Remote>, env: Env)
    requires Numbered(e)
    ensures Reconcile(e, ps, env).1 == NoAddress <==> exists i :: FailsFirst(Faults(e, ps, env), i, NoAddress)
  {
    ReconcileOutcome(e, ps, env);
    FirstIs(Faults(e, ps, env), NoAddress);
  }

  /** The outcome of a whole update: a stale or emptying map succeeds, any other ends as
      reconciling with the entries other than our own does. */
  lemma UpdateOutcome(e: Engine, nm: NetworkMap, own: string, env: Env)
    requires Numbered(e)
    ensures UpdateNetworkMap(e, nm, own, env).1 ==
            if nm.serial < e.serial || nm.remotesEmpty then Ok else First(Faults(e, Others(nm.remotes, own), env))
  {
    if nm.serial >= e.serial && !nm.remotesEmpty {
      var e1 := e.(mgr := SetGroups(RemoteFlag(e.mgr, nm.lazyEnabled), nm.groups));
      var ps := Others(nm.remotes, own);
      assert e1.mgr.store == e.mgr.store;
      PrepareNumbered(e, nm);
      assert ModifyFaults(e1, ps, env) == ModifyFaults(e, ps, env);
      ReconcileOutcome(e1, ps, env);
    }
  }

  lemma PrepareNumbered(e: Engine, nm: NetworkMap)
    requires Numbered(e)
    ensures Numbered(e.(mgr := SetGroups(RemoteFlag(e.mgr, nm.lazyEnabled), nm.groups)))
  {
  }

  lemma UpdateOkIff(e: Engine, nm: NetworkMap, own: string, env: Env)
    requires Numbered(e)
    ensures UpdateNetworkMap(e, nm, own, env).1 == Ok <==>
            var ps := Others(nm.remotes, own);
            nm.serial < e.serial || nm.remotesEmpty
            || forall i :: 0 <= i < |ps| && (IsNew(e.mgr.store.Keys, ps, i) || IsStale(e, ps, env, i)) ==> Buildable(env, ps[i])
  {
    UpdateOutcome(e, nm, own, env);
    ReconcileOutcome(e, Others(nm.remotes, own), env);
    ReconcileOkIff(e, Others(nm.remotes, own), env);
  }

  /** With distinct keys an update that has anything to do succeeds exactly when every entry that
      is not stored unchanged is buildable. */
  lemma ReconcileOkDistinct(e: Engine, ps: seq<Remote>, env: Env)
    requires Numbered(e) && forall i, j :: 0 <= i < j < |ps| ==> ps[i].key != ps[j].key
    ensures Reconcile(e, ps, env).1 == Ok <==>
            forall p :: p in ps ==> Buildable(env, p) || (p.key in e.mgr.store && Matches(env, e.mgr.store[p.key], p))
  {
    ReconcileOkIff(e, ps, env);
    forall i | 0 <= i < |ps|
      ensures IsNew(e.mgr.store.Keys, ps, i) || IsStale(e, ps, env, i)
              <==> !(ps[i].key in e.mgr.store && Matches(env, e.mgr.store[ps[i].key], ps[i]))
    {
    }
    if Reconcile(e, ps, env).1 == Ok {
      forall p | p in ps ensures Buildable(env, p) || (p.key in e.mgr.store && Matches(env, e.mgr.store[p.key], p)) {
        var i :| 0 <= i < |ps| && ps[i] == p;
      }
    } else {
      var i :| 0 <= i < |ps| && (IsNew(e.mgr.store.Keys, ps, i) || IsStale(e, ps, env, i)) && !Buildable(env, ps[i]);
      assert ps[i] in ps;
    }
  }

  // ------------------------------------------------------------------ the exclude list

  /** The peers that list the bare address of a forwarding rule among their allowed IPs. */
  function Excluded(addresses: seq<string>, ps: seq<Remote>): set<string> {
    set p, a | p in ps && a in addresses && a in p.ips :: p.key
  }

  method ToExcludedLazyPeers(addresses: seq<string>, ps: seq<Remote>) returns (excluded: set<string>)
    ensures excluded == Excluded(addresses, ps)
  {
    excluded := {};
    for i := 0 to |addresses|
      invariant excluded == Excluded(addresses[..i], ps)
    {
      var a := addresses[i];
      ghost var before := excluded;
      for j := 0 to |ps|
        invariant excluded == before + Excluded([a], ps[..j])
      {
        var p := ps[j];
        ghost var seen := excluded;
        for k := 0 to |p.ips|
          invariant excluded == seen + (if a in p.ips[..k] then {p.key} else {})
        {
          if p.ips[k] != a {
            continue;
          }
          excluded := excluded + {p.key};
        }
        assert p.ips[..|p.ips|] == p.ips;
        ExcludedSnoc(a, ps[..j], p);
        assert ps[..j + 1] == ps[..j] + [p];
      }
      assert ps[..|ps|] == ps;
      assert addresses[..i + 1] == addresses[..i] + [a];
      ExcludedMore(addresses[..i], a, ps);
    }
    assert addresses[..|addresses|] == addresses;
  }

  lemma ExcludedSnoc(a: string, ps: seq<Remote>, p: Remote)
    ensures Excluded([a], ps + [p]) == Excluded([a], ps) + (if a in p.ips then {p.key} else {})
  {
    assert a in [a] && p in ps + [p];
    forall q | q in ps ensures q in ps + [p] {
    }
  }

  lemma ExcludedMore(addresses: seq<string>, a: string, ps: seq<Remote>)
    ensures Excluded(addresses + [a], ps) == Excluded(addresses, ps) + Excluded([a], ps)
  {
    assert a in [a] && a in addresses + [a];
    forall b | b in addresses ensures b in addresses + [a] {
    }
  }

  /** Allowed IPs are prefixes and rule addresses are not, so after an accepted map with distinct
      keys the code never excludes anybody. */
  lemma NobodyExcluded(e: Engine, ps: seq<Remote>, env: Env, addresses: seq<string>)
    requires Numbered(e) && Reconcile(e, ps, env).1 == Ok
    requires forall i, j :: 0 <= i < j < |ps| ==> ps[i].key != ps[j].key
    requires forall a :: a in addresses ==> env.parse(a).None?
    ensures Excluded(addresses, ps) == {}
  {
    ReconcileDistinct(e, ps, env);
    forall p, a | p in ps && a in addresses ensures a !in p.ips {
      assert Matches(env, Reconcile(e, ps, env).0.mgr.store[p.key], p);
    }
  }

  /** The panic is reached by the first map that lists a peer without allowed IPs. */
  lemma EmptyAddressListPanics(e: Engine, p: Remote, env: Env)
    requires Numbered(e) && p.key !in e.mgr.store && p.ips == [] && env.createOk(p.key)
    ensures Reconcile(e, [p], env).1 == NoAddress
  {
    ReconcilePanicsIff(e, [p], env);
    assert IsNew(e.mgr.store.Keys, [p], 0);
    assert FailsFirst(Faults(e, [p], env), 1, NoAddress);
  }

  // ------------------------------------------------------------------------ witnesses

  const EMPTY_ENGINE: Engine := Engine(0, true, Mgr(map[], {}, None, false, false), 0)

  /** One key listed twice with different versions. */
  const TWICE: seq<Remote> := [Remote("k", "1", ["x"]), Remote("k", "2", ["x"])]

  /** A map that lists a key twice is accepted and, applied again, replaces the connection. */
  lemma RepeatedKeyFlaps(env: Env)
    requires env.parse("x").Some? && env.createOk("k")
    ensures var e1 := Reconcile(EMPTY_ENGINE, TWICE, env).0;
      Reconcile(EMPTY_ENGINE, TWICE, env).1 == Ok && Reconcile(e1, TWICE, env).0 != e1
  {
    ReconcileOkIff(EMPTY_ENGINE, TWICE, env);
    assert Buildable(env, TWICE[0]);
    assert TWICE[0].key == TWICE[1].key;
    ReapplyIff(EMPTY_ENGINE, TWICE, env);
    assert !Agree(env, TWICE[0], TWICE[1]);
  }
}
