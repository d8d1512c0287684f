/** Whole runs of the engine under its message lock: syncs, signal messages, the lazy manager's
    events, Start and Stop, in any order. */
module PeerRuns {
  import opened Prelude
  import opened PeerModel
  import opened PeerEngine
  import PL = PeerLazy

  datatype Input =
    | Start(enabledLocally: bool, rosenpass: bool)
    | Sync(map_: NetworkMap, accepted: bool, env: Env)
    | Signal(key: string, goIdle: bool)
    | PeerActivity(id: ConnId)
    | PeersInactive(keys: set<string>)
    | Stop

  const FRESH: Engine := Engine(0, false, Mgr(map[], {}, None, false, false), 0)

  function Step(e: Engine, own: string, i: Input): (Engine, Outcome) {
    match i
    case Start(enabledLocally, rosenpass) =>
      (e.(running := true, mgr := StartMgr(Mgr(e.mgr.store, e.mgr.requested, None, enabledLocally, rosenpass))), Ok)
    case Sync(nm, accepted, env) =>
      if !e.running || !accepted then (e, Rejected) else UpdateNetworkMap(e, nm, own, env)
    case Signal(key, goIdle) =>
      if !e.running || key !in e.mgr.store then (e, Rejected)
      else if goIdle then (e.(mgr := DeactivatePeer(e.mgr, e.mgr.store[key].id)), Ok)
      else (e.(mgr := ActivatePeer(e.mgr, key)), Ok)
    case PeerActivity(id) => (e.(mgr := OnActivity(e.mgr, id)), Ok)
    case PeersInactive(keys) => (e.(mgr := OnInactivity(e.mgr, keys)), Ok)
    case Stop =>
      (e.(running := false, mgr := RemovePeerConns(CloseMgr(e.mgr), e.mgr.store.Keys)), Ok)
  }

  function Run(e: Engine, own: string, inputs: seq<Input>): Engine {
    if inputs == [] then e
    else Step(Run(e, own, inputs[..|inputs| - 1]), own, inputs[|inputs| - 1]).0
  }

  /** Start comes before anything else happened or after a Stop. */
  predicate Disciplined(e: Engine, own: string, inputs: seq<Input>) {
    inputs == [] ||
    var front, i := inputs[..|inputs| - 1], inputs[|inputs| - 1];
    Disciplined(e, own, front) && (i.Start? ==> !Run(e, own, front).running)
  }

  predicate Inv(e: Engine) {
    && Numbered(e)
    && PL.Held(e.mgr)
    && (!e.running ==> e.mgr.store == map[] && e.mgr.lazy == None)
  }

  // --------------------------------------------------------------- sub-steps keep it

  lemma {:induction false} AddNewPeersHeld(e: Engine, ps: seq<Remote>, env: Env)
    requires PL.Held(e.mgr)
    ensures PL.Held(AddNewPeers(e, ps, env).0.mgr)
  {
    if ps != [] {
      AddNewPeersHeld(e, ps[..|ps| - 1], env);
      var (e1, o) := AddNewPeers(e, ps[..|ps| - 1], env);
      AddNewPeerHeld(e1, ps[|ps| - 1], env);
    }
  }

  lemma AddNewPeerHeld(e: Engine, p: Remote, env: Env)
    requires PL.Held(e.mgr)
    ensures PL.Held(AddNewPeer(e, p, env).0.mgr)
  {
    if p.key !in e.mgr.store && AllParse(env, p.ips) {
      PL.AddHeld(e.mgr, Conn(ConnId(p.key, e.next), p.version, ParseAll(env, p.ips)), env);
    }
  }

  lemma ReconcileHeld(e: Engine, ps: seq<Remote>, env: Env)
    requires PL.Held(e.mgr)
    ensures PL.Held(Reconcile(e, ps, env).0.mgr)
  {
    PL.RemoveHeld(e.mgr, e.mgr.store.Keys - Keys(ps));
    var e1 := RemovePeers(e, ps);
    var modified := ModifiedPeers(e1, ps, env);
    PL.RemoveHeld(e1.mgr, Keys(modified));
    AddNewPeersHeld(RemoveKeys(e1, Keys(modified)), modified, env);
    AddNewPeersHeld(ModifyPeers(e1, ps, env).0, ps, env);
  }

  lemma PrepareKeeps(e: Engine, nm: NetworkMap)
    requires Numbered(e) && PL.Held(e.mgr)
    ensures var e1 := e.(mgr := SetGroups(RemoteFlag(e.mgr, nm.lazyEnabled), nm.groups));
      && Numbered(e1) && PL.Held(e1.mgr) && e1.mgr.store == e.mgr.store
  {
    PL.FlagHeld(e.mgr, nm.lazyEnabled);
  }

  lemma ExcludeKeeps(e: Engine, keys: set<string>, serial: nat)
    requires Numbered(e) && PL.Held(e.mgr)
    ensures var e1 := e.(mgr := SetExcludeList(e.mgr, keys), serial := serial);
      && Numbered(e1) && PL.Held(e1.mgr) && e1.mgr.store == e.mgr.store
  {
    PL.ExcludeHeld(e.mgr, keys);
  }

  // ----------------------------------------------------------------- one network map

  /** After an accepted map that returns no error the stored peers are exactly the map's peers
      without our own key, or none when the map says so; a stale map changes nothing; a failing
      map leaves the serial alone. */
  lemma UpdateConverges(e: Engine, nm: NetworkMap, own: string, env: Env)
    requires Numbered(e) && PL.Held(e.mgr)
    ensures var (e', o) := UpdateNetworkMap(e, nm, own, env);
      && Numbered(e') && PL.Held(e'.mgr) && e'.running == e.running && o != AlreadyExists
      && (nm.serial < e.serial ==> e' == e)
      && (o != Ok ==> e'.serial == e.serial)
      && (o == Ok && nm.serial >= e.serial ==>
            && e'.serial == nm.serial
            && e'.mgr.store.Keys == (if nm.remotesEmpty then {} else Keys(nm.remotes) - {own})
            && (forall k :: k in e'.mgr.store ==> BuiltFrom(env, e'.mgr.store[k], nm.remotes, k)))
  {
    if e.serial <= nm.serial {
      PrepareKeeps(e, nm);
      var e1 := e.(mgr := SetGroups(RemoteFlag(e.mgr, nm.lazyEnabled), nm.groups));
      var ps := Others(nm.remotes, own);
      if nm.remotesEmpty {
        RemoveKeysEffect(e1, e1.mgr.store.Keys);
        PL.RemoveHeld(e1.mgr, e1.mgr.store.Keys);
        ExcludeKeeps(RemoveKeys(e1, e1.mgr.store.Keys), nm.excluded, nm.serial);
      } else {
        ReconcileConverges(e1, ps, env);
        ReconcileHeld(e1, ps, env);
        var (e2, o) := Reconcile(e1, ps, env);
        ExcludeKeeps(e2, nm.excluded, nm.serial);
        OthersKeys(nm.remotes, own);
        forall k | k in e2.mgr.store ensures BuiltFrom(env, e2.mgr.store[k], nm.remotes, k) {
          assert BuiltFrom(env, e2.mgr.store[k], ps, k);
        }
      }
    }
  }

  lemma OthersKeys(ps: seq<Remote>, own: string)
    ensures Keys(Others(ps, own)) == Keys(ps) - {own}
    ensures forall p :: p in Others(ps, own) ==> p in ps
  {
    OthersMembers(ps, own);
    forall k | k in Keys(ps) - {own} ensures k in Keys(Others(ps, own)) {
      var p :| p in ps && p.key == k;
      assert p in Others(ps, own);
    }
  }

  lemma FlagTwice(m: Mgr, enabled: bool, groups: seq<seq<string>>, m': Mgr)
    requires m'.lazy.Some? <==> RemoteFlag(m, enabled).lazy.Some?
    requires m'.enabledLocally == m.enabledLocally && m'.rosenpass == m.rosenpass
    requires m'.lazy.Some? ==> m'.lazy.value.groups == groups
    ensures SetGroups(RemoteFlag(m', enabled), groups) == m'
  {
  }

  lemma ExcludeTwice(m: Mgr, keys: set<string>)
    ensures var m1 := SetExcludeList(m, keys); SetExcludeList(m1, keys) == m1
  {
    if m.lazy.Some? {
      var m1 := SetExcludeList(m, keys);
      var excludes := map k | k in keys && k in m.store :: m.store[k].id;
      var l1 := m1.lazy.value;
      assert l1.excludes == excludes;
      assert excludes.Keys - l1.excludes.Keys == {} && l1.excludes.Keys - excludes.Keys == {};
      assert Ids(m1.store, {}) == {};
      assert Exclude(l1, excludes).managed == l1.managed;
    }
  }

  /** The lazy manager's presence and groups survive reconciliation. */
  lemma {:induction false} AddNewPeersLazy(e: Engine, ps: seq<Remote>, env: Env)
    ensures LazyKept(e.mgr, AddNewPeers(e, ps, env).0.mgr)
  {
    if ps != [] {
      AddNewPeersLazy(e, ps[..|ps| - 1], env);
    }
  }

  predicate LazyKept(m: Mgr, m': Mgr) {
    && m'.enabledLocally == m.enabledLocally && m'.rosenpass == m.rosenpass
    && (m'.lazy.Some? <==> m.lazy.Some?)
    && (m.lazy.Some? ==> m'.lazy.value.groups == m.lazy.value.groups)
  }

  lemma ReconcileLazy(e: Engine, ps: seq<Remote>, env: Env)
    ensures LazyKept(e.mgr, Reconcile(e, ps, env).0.mgr)
  {
    var e1 := RemovePeers(e, ps);
    var modified := ModifiedPeers(e1, ps, env);
    AddNewPeersLazy(RemoveKeys(e1, Keys(modified)), modified, env);
    AddNewPeersLazy(ModifyPeers(e1, ps, env).0, ps, env);
  }

  /** Receiving the same map twice is receiving it once: no connection is created, closed,
      opened or re-registered by the second copy. */
  lemma UpdateIdempotent(e: Engine, nm: NetworkMap, own: string, env: Env)
    requires Numbered(e) && PL.Held(e.mgr) && nm.serial >= e.serial
    requires UpdateNetworkMap(e, nm, own, env).1 == Ok
    requires nm.remotesEmpty || Consistent(env, Others(nm.remotes, own))
    ensures var e' := UpdateNetworkMap(e, nm, own, env).0;
      UpdateNetworkMap(e', nm, own, env) == (e', Ok)
  {
    var ps := Others(nm.remotes, own);
    PrepareKeeps(e, nm);
    var e1 := e.(mgr := SetGroups(RemoteFlag(e.mgr, nm.lazyEnabled), nm.groups));
    var e2 := if nm.remotesEmpty then RemoveKeys(e1, e1.mgr.store.Keys) else Reconcile(e1, ps, env).0;
    var e' := UpdateNetworkMap(e, nm, own, env).0;
    assert e' == e2.(mgr := SetExcludeList(e2.mgr, nm.excluded), serial := nm.serial);
    ReconcileLazy(e1, ps, env);
    FlagTwice(e.mgr, nm.lazyEnabled, nm.groups, e'.mgr);
    ExcludeTwice(e2.mgr, nm.excluded);
    if nm.remotesEmpty {
      assert e'.mgr.store == map[];
      assert e'.mgr.store.Keys == {};
      RemoveNothing(e');
    } else {
      SettledStore(e1, e2, e', ps, env);
    }
  }

  lemma SettledStore(e1: Engine, e2: Engine, e': Engine, ps: seq<Remote>, env: Env)
    requires Numbered(e1) && Reconcile(e1, ps, env) == (e2, Ok) && Consistent(env, ps)
    requires e'.mgr.store == e2.mgr.store
    ensures Reconcile(e', ps, env) == (e', Ok)
  {
    ReconcileConverges(e1, ps, env);
    forall p | p in ps ensures Matches(env, e'.mgr.store[p.key], p) {
      assert p.key in Keys(ps);
      assert BuiltFrom(env, e2.mgr.store[p.key], ps, p.key);
      var q :| q in ps && q.key == p.key && Matches(env, e2.mgr.store[p.key], q);
      ConsistentPair(env, ps, p, q);
    }
    ReconcileIsQuiet(e', ps, env);
  }

  /** When entries for one key disagree, a second pass never leaves the store alone. */
  lemma StoreFlaps(e: Engine, ps: seq<Remote>, env: Env)
    requires Numbered(e) && e.mgr.store.Keys == Keys(ps) && !Consistent(env, ps)
    ensures Reconcile(e, ps, env).0.mgr.store != e.mgr.store
  {
    var i, j :| 0 <= i < j < |ps| && !Agree(env, ps[i], ps[j]);
    assert ps[i] in ps && ps[i].key in Keys(ps);
    var c := e.mgr.store[ps[i].key];
    var p := if Matches(env, c, ps[i]) then ps[j] else ps[i];
    ReplacedWhenStale(e, ps, p, env);
  }

  /** A second copy of an accepted map changes nothing at all if and only if the map empties the
      store or its entries for one key agree. */
  lemma UpdateIdempotentIff(e: Engine, nm: NetworkMap, own: string, env: Env)
    requires Numbered(e) && PL.Held(e.mgr) && nm.serial >= e.serial
    requires UpdateNetworkMap(e, nm, own, env).1 == Ok
    ensures var e' := UpdateNetworkMap(e, nm, own, env).0;
      UpdateNetworkMap(e', nm, own, env).0 == e' <==> nm.remotesEmpty || Consistent(env, Others(nm.remotes, own))
  {
    var ps := Others(nm.remotes, own);
    if nm.remotesEmpty || Consistent(env, ps) {
      UpdateIdempotent(e, nm, own, env);
    } else {
      var e' := UpdateNetworkMap(e, nm, own, env).0;
      UpdateConverges(e, nm, own, env);
      OthersKeys(nm.remotes, own);
      UpdateFlaps(e', nm, own, env);
    }
  }

  lemma UpdateFlaps(e: Engine, nm: NetworkMap, own: string, env: Env)
    requires Numbered(e) && PL.Held(e.mgr) && nm.serial >= e.serial && !nm.remotesEmpty
    requires e.mgr.store.Keys == Keys(Others(nm.remotes, own)) && !Consistent(env, Others(nm.remotes, own))
    ensures UpdateNetworkMap(e, nm, own, env).0 != e
  {
    PrepareKeeps(e, nm);
    var e1 := e.(mgr := SetGroups(RemoteFlag(e.mgr, nm.lazyEnabled), nm.groups));
    StoreFlaps(e1, Others(nm.remotes, own), env);
    assert UpdateNetworkMap(e, nm, own, env).0.mgr.store == Reconcile(e1, Others(nm.remotes, own), env).0.mgr.store;
  }

  // ------------------------------------------------------------------------ every run

  /** Each input keeps the invariant and never lowers the serial. */
  lemma StepInv(e: Engine, own: string, i: Input)
    requires Inv(e) && (i.Start? ==> !e.running)
    ensures var (e', o) := Step(e, own, i);
      && Inv(e') && e.serial <= e'.serial
      && (o != Ok ==> e'.serial == e.serial)
      && (i.Sync? && i.map_.serial < e.serial ==> e' == e)
      && (!e.running && !i.Start? ==> e' == e)
  {
    match i {
      case Start(_, _) =>
      case Sync(nm, accepted, env) =>
        if e.running && accepted { UpdateConverges(e, nm, own, env); }
      case Signal(key, goIdle) =>
        if e.running && key in e.mgr.store {
          PL.DeactivateHeld(e.mgr, e.mgr.store[key].id);
          PL.WakeHeld(e.mgr, key);
        }
      case PeerActivity(id) => PL.WakeHeld(e.mgr, id.key);
      case PeersInactive(keys) =>
        if e.mgr.lazy.Some? {
          PL.IdleHeld(e.mgr, TimedOut(e.mgr.lazy.value, keys), OnInactivity(e.mgr, keys));
        }
      case Stop =>
        StopEffect(e);
    }
  }

  lemma StopEffect(e: Engine)
    requires Inv(e)
    ensures var e' := e.(running := false, mgr := RemovePeerConns(CloseMgr(e.mgr), e.mgr.store.Keys));
      Inv(e') && (!e.running ==> e' == e)
  {
    var m := CloseMgr(e.mgr);
    assert m.store - m.store.Keys == map[];
    if !e.running {
      assert e.mgr.store.Keys == {};
      assert Ids(e.mgr.store, {}) == {};
      assert m == e.mgr;
    }
  }

  /** Over every disciplined run: each stored peer is open-requested or lazily managed (all are
      requested while there is no lazy manager), and a stopped engine stores no peer. */
  lemma {:induction false} RunInv(own: string, inputs: seq<Input>)
    requires Disciplined(FRESH, own, inputs)
    ensures Inv(Run(FRESH, own, inputs))
  {
    if inputs != [] {
      RunInv(own, inputs[..|inputs| - 1]);
      StepInv(Run(FRESH, own, inputs[..|inputs| - 1]), own, inputs[|inputs| - 1]);
    }
  }

  /** The serial never decreases along a run. */
  lemma {:induction false} SerialMonotone(own: string, inputs: seq<Input>, n: nat)
    requires Disciplined(FRESH, own, inputs) && n <= |inputs|
    ensures Run(FRESH, own, inputs[..n]).serial <= Run(FRESH, own, inputs).serial
  {
    if n == |inputs| {
      assert inputs[..n] == inputs;
    } else {
      var front := inputs[..|inputs| - 1];
      SerialMonotone(own, front, n);
      assert front[..n] == inputs[..n];
      RunInv(own, front);
      StepInv(Run(FRESH, own, front), own, inputs[|inputs| - 1]);
    }
  }

  /** After Stop nothing but a new Start changes the engine: it stays empty. */
  lemma {:induction false} StoppedStaysEmpty(e: Engine, own: string, inputs: seq<Input>)
    requires Inv(e) && !e.running
    requires forall i :: 0 <= i < |inputs| ==> !inputs[i].Start?
    ensures Run(e, own, inputs) == e && e.mgr.store == map[]
  {
    if inputs != [] {
      var front := inputs[..|inputs| - 1];
      assert forall i :: 0 <= i < |front| ==> !front[i].Start? by {
        assert forall i :: 0 <= i < |front| ==> front[i] == inputs[i];
      }
      StoppedStaysEmpty(e, own, front);
      StepInv(e, own, inputs[|inputs| - 1]);
    }
  }
}
