/** The peer store, the connection manager and the engine as objects. Every method performs
    the corresponding transition of PeerModel, PeerEngine or PeerRuns. */
module PeerObjects {
  import opened Prelude
  import opened PeerModel
  import opened NetLists
  import PE = PeerEngine
  import PR = PeerRuns

  /** Stored connections; `requested` holds the identities whose opening was requested. */
  class Store {
    var peerConns: map<string, Conn>
    var requested: set<ConnId>

    constructor ()
      ensures peerConns == map[] && requested == {}
    {
      peerConns, requested := map[], {};
    }

    method AddPeerConn(key: string, c: Conn) returns (added: bool)
      modifies this`peerConns
      ensures added == (key !in old(peerConns))
      ensures peerConns == if added then old(peerConns)[key := c] else old(peerConns)
    {
      if key in peerConns {
        return false;
      }
      peerConns := peerConns[key := c];
      added := true;
    }

    method Remove(key: string) returns (c: Option<Conn>)
      modifies this`peerConns
      ensures c == (if key in old(peerConns) then Some(old(peerConns)[key]) else None)
      ensures peerConns == old(peerConns) - {key}
    {
      if key !in peerConns {
        assert old(peerConns) - {key} == peerConns;
        return None;
      }
      c := Some(peerConns[key]);
      peerConns := peerConns - {key};
    }

    /** The stored keys in some order. */
    method PeersPubKey() returns (keys: seq<string>)
      ensures forall k :: k in keys <==> k in peerConns
      ensures forall i, j :: 0 <= i < j < |keys| ==> keys[i] != keys[j]
    {
      keys := [];
      var rest := peerConns.Keys;
      while rest != {}
        invariant rest <= peerConns.Keys
        invariant forall k :: k in keys <==> k in peerConns && k !in rest
        invariant forall i, j :: 0 <= i < j < |keys| ==> keys[i] != keys[j]
      {
        var k :| k in rest;
        keys := keys + [k];
        rest := rest - {k};
      }
    }

    method PeerConnOpen(key: string)
      modifies this`requested
      ensures requested == old(requested) + Ids(peerConns, {key})
    {
      if key in peerConns {
        requested := requested + {peerConns[key].id};
        assert Ids(peerConns, {key}) == {peerConns[key].id};
      }
    }

    method PeerConnClose(key: string)
      modifies this`requested
      ensures requested == old(requested) - Ids(peerConns, {key})
    {
      if key in peerConns {
        requested := requested - {peerConns[key].id};
        assert Ids(peerConns, {key}) == {peerConns[key].id};
      }
    }
  }

  lemma IdsSplit(store: map<string, Conn>, a: set<string>, k: string)
    ensures Ids(store, a + {k}) == Ids(store, a) + Ids(store, {k})
  {
  }

  class ConnMgr {
    const store: Store
    const enabledLocally: bool
    const rosenpass: bool
    var lazyConnMgr: Option<Lazy>

    constructor (store: Store, enabledLocally: bool, rosenpass: bool)
      ensures this.store == store && this.enabledLocally == enabledLocally && this.rosenpass == rosenpass
      ensures lazyConnMgr == None
    {
      this.store, this.enabledLocally, this.rosenpass := store, enabledLocally, rosenpass;
      lazyConnMgr := None;
    }

    function State(): Mgr
      reads this, store
    {
      Mgr(store.peerConns, store.requested, lazyConnMgr, enabledLocally, rosenpass)
    }

    method Start()
      modifies this
      ensures State() == StartMgr(old(State()))
    {
      if lazyConnMgr.Some? || !enabledLocally || rosenpass {
        return;
      }
      lazyConnMgr := Some(NO_PEERS);
    }

    method UpdatedRemoteFeatureFlag(enabled: bool)
      modifies this, store`requested
      ensures State() == RemoteFlag(old(State()), enabled)
    {
      if enabledLocally {
        return;
      }
      if enabled {
        if lazyConnMgr.Some? || rosenpass {
          return;
        }
        lazyConnMgr := Some(NO_PEERS);
        AddPeersToLazyConnManager();
      } else {
        if lazyConnMgr.None? {
          return;
        }
        CloseManager();
      }
    }

    /** Registers every stored peer with the new manager as an active one. */
    method AddPeersToLazyConnManager()
      requires lazyConnMgr == Some(NO_PEERS)
      modifies this
      ensures lazyConnMgr == Some(TakeOver(store.peerConns))
    {
      var peers := store.PeersPubKey();
      var managed: map<string, Entry> := map[];
      for i := 0 to |peers|
        invariant forall k :: k in managed <==> k in peers[..i]
        invariant forall k :: k in managed ==> k in store.peerConns && managed[k] == Entry(store.peerConns[k].id, Inactivity)
        invariant lazyConnMgr == old(lazyConnMgr)
      {
        managed := managed[peers[i] := Entry(store.peerConns[peers[i]].id, Inactivity)];
      }
      assert peers[..|peers|] == peers;
      assert managed == TakeOver(store.peerConns).managed;
      lazyConnMgr := Some(lazyConnMgr.value.(managed := managed));
    }

    /** Drops the lazy manager and opens every stored peer. */
    method CloseManager()
      requires lazyConnMgr.Some?
      modifies this, store`requested
      ensures lazyConnMgr == None
      ensures store.requested == old(store.requested) + Ids(store.peerConns, store.peerConns.Keys)
    {
      lazyConnMgr := None;
      var peers := store.PeersPubKey();
      ghost var done: set<string> := {};
      assert Ids(store.peerConns, {}) == {};
      for i := 0 to |peers|
        invariant forall k :: k in done <==> k in peers[..i]
        invariant store.requested == old(store.requested) + Ids(store.peerConns, done)
        invariant lazyConnMgr == None
      {
        store.PeerConnOpen(peers[i]);
        IdsSplit(store.peerConns, done, peers[i]);
        done := done + {peers[i]};
      }
      assert peers[..|peers|] == peers;
      assert done == store.peerConns.Keys;
    }

    method UpdateRouteHAMap(groups: seq<seq<string>>)
      modifies this
      ensures State() == SetGroups(old(State()), groups)
    {
      if lazyConnMgr.None? {
        return;
      }
      lazyConnMgr := Some(lazyConnMgr.value.(groups := groups));
    }

    method SetExcludeList(peerIDs: set<string>)
      modifies this, store`requested
      ensures State() == PeerModel.SetExcludeList(old(State()), peerIDs)
    {
      if lazyConnMgr.None? {
        return;
      }
      var l := lazyConnMgr.value;
      var excluded: map<string, ConnId> := map[];
      var rest := peerIDs;
      while rest != {}
        invariant rest <= peerIDs
        invariant forall k :: k in excluded <==> k in peerIDs && k !in rest && k in store.peerConns
        invariant forall k :: k in excluded ==> excluded[k] == store.peerConns[k].id
        invariant lazyConnMgr == old(lazyConnMgr) && store.requested == old(store.requested)
      {
        var k :| k in rest;
        if k in store.peerConns {
          excluded := excluded[k := store.peerConns[k].id];
        }
        rest := rest - {k};
      }
      assert excluded == map k | k in peerIDs && k in store.peerConns :: store.peerConns[k].id;
      lazyConnMgr := Some(Exclude(l, excluded));
      OpenAll(excluded.Keys - l.excludes.Keys);
    }

    method OpenAll(keys: set<string>)
      modifies store`requested
      ensures store.requested == old(store.requested) + Ids(store.peerConns, keys)
    {
      var rest := keys;
      assert Ids(store.peerConns, {}) == {};
      assert keys - rest == {};
      while rest != {}
        invariant rest <= keys
        invariant store.requested == old(store.requested) + Ids(store.peerConns, keys - rest)
      {
        var k :| k in rest;
        store.PeerConnOpen(k);
        IdsSplit(store.peerConns, keys - rest, k);
        assert keys - (rest - {k}) == (keys - rest) + {k};
        rest := rest - {k};
      }
      assert keys - rest == keys;
    }

    method AddPeerConn(c: Conn, env: Env) returns (exists_: bool)
      modifies this, store
      ensures exists_ == (c.id.key in old(store.peerConns))
      ensures State() == PeerModel.AddPeerConn(old(State()), c, env)
    {
      var key := c.id.key;
      var added := store.AddPeerConn(key, c);
      if !added {
        return true;
      }
      exists_ := false;
      assert Ids(store.peerConns, {key}) == {c.id};
      if lazyConnMgr.None? || !env.supported(c.version) || key in lazyConnMgr.value.excludes {
        store.PeerConnOpen(key);
      } else if key in lazyConnMgr.value.managed {
        return;
      } else if !env.monitorOk(key) {
        store.PeerConnOpen(key);
      } else {
        var l := lazyConnMgr.value;
        l := l.(managed := l.managed[key := Entry(c.id, Activity)]);
        if GroupActive(l, key) {
          l := Activated(l, {key});
          store.PeerConnOpen(key);
        }
        lazyConnMgr := Some(l);
      }
    }

    method RemovePeerConn(key: string)
      modifies this, store
      ensures State() == RemovePeerConns(old(State()), {key})
    {
      var c := store.Remove(key);
      if c.None? {
        RemoveAbsentPeer(old(State()), key);
        assert store.peerConns == old(store.peerConns);
        return;
      }
      store.requested := store.requested - {c.value.id};
      assert Ids(old(store.peerConns), {key}) == {c.value.id};
      if lazyConnMgr.Some? {
        assert {key} * old(store.peerConns).Keys == {key};
        lazyConnMgr := Some(lazyConnMgr.value.(managed := lazyConnMgr.value.managed - {key}));
      }
    }

    method ActivatePeer(key: string)
      modifies this, store`requested
      ensures State() == PeerModel.ActivatePeer(old(State()), key)
    {
      if lazyConnMgr.None? || key !in store.peerConns || !Idle(lazyConnMgr.value, key) {
        return;
      }
      var keys := Activation(lazyConnMgr.value, key);
      lazyConnMgr := Some(Activated(lazyConnMgr.value, keys));
      OpenAll(keys);
    }

    method DeactivatePeer(id: ConnId)
      modifies this, store`requested
      ensures State() == PeerModel.DeactivatePeer(old(State()), id)
    {
      if lazyConnMgr.None? || !Refers(lazyConnMgr.value, id)
         || lazyConnMgr.value.managed[id.key].watcher != Inactivity {
        return;
      }
      store.PeerConnClose(id.key);
      assert Ids(store.peerConns, {id.key}) ==
             if id.key in store.peerConns then {store.peerConns[id.key].id} else {};
      lazyConnMgr := Some(SetIdle(lazyConnMgr.value, {id.key}));
    }

    method Close()
      modifies this
      ensures State() == CloseMgr(old(State()))
    {
      if lazyConnMgr.None? {
        return;
      }
      lazyConnMgr := None;
    }
  }

  lemma RemoveAbsentPeer(m: Mgr, key: string)
    requires key !in m.store
    ensures RemovePeerConns(m, {key}) == m
  {
    assert m.store - {key} == m.store;
    assert Ids(m.store, {key}) == {};
    assert {key} * m.store.Keys == {};
    if m.lazy.Some? {
      assert m.lazy.value.managed - {} == m.lazy.value.managed;
    }
  }

  lemma RemoveInSteps(m: Mgr, a: set<string>, key: string)
    ensures RemovePeerConns(RemovePeerConns(m, a), {key}) == RemovePeerConns(m, a + {key})
  {
    var m1 := RemovePeerConns(m, a);
    assert m1.store - {key} == m.store - (a + {key});
    assert m.requested - Ids(m.store, a) - Ids(m1.store, {key}) == m.requested - Ids(m.store, a + {key}) by {
      IdsSplit(m.store, a, key);
      if key in a { assert Ids(m.store, {key}) <= Ids(m.store, a); }
    }
    if m.lazy.Some? {
      var managed := m.lazy.value.managed;
      assert managed - (a * m.store.Keys) - ({key} * m1.store.Keys) == managed - ((a + {key}) * m.store.Keys);
    }
  }

  class Engine {
    const own: string
    const store: Store
    var connMgr: ConnMgr
    var networkSerial: nat
    var running: bool
    var next: nat

    predicate Valid()
      reads this
    {
      connMgr.store == store
    }

    function State(): PE.Engine
      reads this, connMgr, store, connMgr.store
    {
      PE.Engine(networkSerial, running, connMgr.State(), next)
    }

    constructor (own: string)
      ensures this.own == own && Valid() && State() == PR.FRESH
      ensures fresh(connMgr) && fresh(store)
    {
      this.own := own;
      var s := new Store();
      store := s;
      connMgr := new ConnMgr(s, false, false);
      networkSerial, running, next := 0, false, 0;
    }

    /** Starts with a new connection manager over the same store. */
    method Start(enabledLocally: bool, rosenpass: bool)
      requires Valid()
      modifies this
      ensures Valid() && fresh(connMgr)
      ensures State() == PR.Step(old(State()), own, PR.Start(enabledLocally, rosenpass)).0
    {
      running := true;
      connMgr := new ConnMgr(store, enabledLocally, rosenpass);
      connMgr.Start();
    }

    method RemovePeer(key: string)
      requires Valid()
      modifies connMgr, store
      ensures Valid() && State() == PE.RemoveKeys(old(State()), {key})
    {
      connMgr.RemovePeerConn(key);
    }

    method RemoveAll(keys: seq<string>)
      requires Valid()
      modifies connMgr, store
      ensures Valid() && State() == PE.RemoveKeys(old(State()), set k | k in keys)
    {
      ghost var done: set<string> := {};
      PE.RemoveNothing(State());
      for i := 0 to |keys|
        invariant Valid()
        invariant forall k :: k in done <==> k in keys[..i]
        invariant State() == PE.RemoveKeys(old(State()), done)
      {
        RemovePeer(keys[i]);
        RemoveInSteps(old(connMgr.State()), done, keys[i]);
        done := done + {keys[i]};
      }
      assert keys[..|keys|] == keys;
      assert done == set k | k in keys;
    }

    method RemoveAllPeers()
      requires Valid()
      modifies connMgr, store
      ensures Valid() && State() == PE.RemoveKeys(old(State()), old(store.peerConns.Keys))
    {
      var keys := store.PeersPubKey();
      RemoveAll(keys);
      assert (set k | k in keys) == old(store.peerConns.Keys);
    }

    method KeysOf(ps: seq<Remote>) returns (keys: seq<string>)
      ensures (set k | k in keys) == PE.Keys(ps)
    {
      keys := [];
      for i := 0 to |ps|
        invariant |keys| == i && forall j :: 0 <= j < i ==> keys[j] == ps[j].key
      {
        keys := keys + [ps[i].key];
      }
      forall k | k in PE.Keys(ps) ensures k in keys {
        var p :| p in ps && p.key == k;
        var j :| 0 <= j < |ps| && ps[j] == p;
        assert keys[j] == k;
      }
    }

    method RemovePeers(ps: seq<Remote>)
      requires Valid()
      modifies connMgr, store
      ensures Valid() && State() == PE.RemovePeers(old(State()), ps)
    {
      var newPeers := KeysOf(ps);
      var current := store.PeersPubKey();
      var toRemove := SliceDiff(current, newPeers);
      RemoveAll(toRemove);
      assert forall k :: k in newPeers <==> k in (set x | x in newPeers);
      assert (set k | k in toRemove) == old(store.peerConns.Keys) - PE.Keys(ps);
    }

    method ParsePrefixes(ips: seq<string>, env: Env) returns (r: Option<seq<Prefix>>)
      ensures r == if PE.AllParse(env, ips) then Some(PE.ParseAll(env, ips)) else None
    {
      var out := [];
      for i := 0 to |ips|
        invariant PE.AllParse(env, ips[..i]) && out == PE.ParseAll(env, ips[..i])
      {
        var p := env.parse(ips[i]);
        if p.None? {
          return None;
        }
        out := out + [p.value];
        assert out == PE.ParseAll(env, ips[..i + 1]);
      }
      assert ips[..|ips|] == ips;
      r := Some(out);
    }

    method AddNewPeer(p: Remote, env: Env) returns (o: PE.Outcome)
      requires Valid()
      modifies this`next, connMgr, store
      ensures Valid()
      ensures State() == PE.AddNewPeer(old(State()), p, env).0 && o == PE.AddNewPeer(old(State()), p, env).1
    {
      if p.key in store.peerConns {
        return PE.Ok;
      }
      var ips := ParsePrefixes(p.ips, env);
      if ips.None? {
        return PE.BadPrefix;
      }
      if !env.createOk(p.key) {
        return PE.CreateFailed;
      }
      if |p.ips| == 0 {
        return PE.NoAddress;
      }
      var c := Conn(ConnId(p.key, next), p.version, ips.value);
      next := next + 1;
      var already := connMgr.AddPeerConn(c, env);
      o := if already then PE.AlreadyExists else PE.Ok;
    }

    method AddNewPeers(ps: seq<Remote>, env: Env) returns (o: PE.Outcome)
      requires Valid()
      modifies this`next, connMgr, store
      ensures Valid()
      ensures State() == PE.AddNewPeers(old(State()), ps, env).0 && o == PE.AddNewPeers(old(State()), ps, env).1
    {
      var i := 0;
      o := PE.Ok;
      while i < |ps|
        invariant 0 <= i <= |ps| && Valid()
        invariant PE.AddNewPeers(old(State()), ps[..i], env) == (State(), o)
        invariant o == PE.Ok
      {
        o := AddNewPeer(ps[i], env);
        assert ps[..i + 1][..i] == ps[..i];
        i := i + 1;
        if o != PE.Ok {
          AddStops(old(State()), ps, i, env);
          return;
        }
      }
      assert ps[..i] == ps;
    }

    /** The entries that differ from the stored peer of the same key. */
    method FindModified(ps: seq<Remote>, env: Env) returns (modified: seq<Remote>)
      ensures modified == PE.ModifiedPeers(State(), ps, env)
    {
      modified := [];
      for i := 0 to |ps|
        invariant modified == PE.ModifiedPeers(State(), ps[..i], env)
      {
        assert ps[..i + 1][..i] == ps[..i];
        var p := ps[i];
        if p.key in connMgr.store.peerConns {
          var c := connMgr.store.peerConns[p.key];
          var same, _ := CompareNetIPLists(env, c.ips, p.ips);
          if c.version != p.version || !same {
            modified := modified + [p];
          }
        }
      }
      assert ps[..|ps|] == ps;
    }

    method ModifyPeers(ps: seq<Remote>, env: Env) returns (o: PE.Outcome)
      requires Valid()
      modifies this`next, connMgr, store
      ensures Valid()
      ensures State() == PE.ModifyPeers(old(State()), ps, env).0 && o == PE.ModifyPeers(old(State()), ps, env).1
    {
      var modified := FindModified(ps, env);
      var keys := KeysOf(modified);
      RemoveAll(keys);
      o := AddNewPeers(modified, env);
    }

    method ReconcilePeers(ps: seq<Remote>, env: Env) returns (o: PE.Outcome)
      requires Valid()
      modifies this`next, connMgr, store
      ensures Valid()
      ensures State() == PE.Reconcile(old(State()), ps, env).0 && o == PE.Reconcile(old(State()), ps, env).1
    {
      RemovePeers(ps);
      o := ModifyPeers(ps, env);
      if o != PE.Ok {
        return;
      }
      o := AddNewPeers(ps, env);
    }

    method WithoutOwn(remotes: seq<Remote>) returns (ps: seq<Remote>)
      ensures ps == PE.Others(remotes, own)
    {
      ps := [];
      for i := 0 to |remotes|
        invariant ps == PE.Others(remotes[..i], own)
      {
        assert remotes[..i + 1][..i] == remotes[..i];
        if remotes[i].key != own {
          ps := ps + [remotes[i]];
        }
      }
      assert remotes[..|remotes|] == remotes;
    }

    method UpdateNetworkMap(nm: PE.NetworkMap, env: Env) returns (o: PE.Outcome)
      requires Valid()
      modifies this, connMgr, store
      ensures Valid() && connMgr == old(connMgr)
      ensures State() == PE.UpdateNetworkMap(old(State()), nm, own, env).0
      ensures o == PE.UpdateNetworkMap(old(State()), nm, own, env).1
    {
      if networkSerial > nm.serial {
        return PE.Ok;
      }
      connMgr.UpdatedRemoteFeatureFlag(nm.lazyEnabled);
      connMgr.UpdateRouteHAMap(nm.groups);
      var ps := WithoutOwn(nm.remotes);
      if nm.remotesEmpty {
        RemoveAllPeers();
        o := PE.Ok;
      } else {
        o := ReconcilePeers(ps, env);
        if o != PE.Ok {
          return;
        }
      }
      connMgr.SetExcludeList(nm.excluded);
      networkSerial := nm.serial;
    }

    /** Applies a sync message unless the context is cancelled or the message is refused earlier. */
    method HandleSync(nm: PE.NetworkMap, accepted: bool, env: Env) returns (o: PE.Outcome)
      requires Valid()
      modifies this, connMgr, store
      ensures Valid()
      ensures State() == PR.Step(old(State()), own, PR.Sync(nm, accepted, env)).0
      ensures o == PR.Step(old(State()), own, PR.Sync(nm, accepted, env)).1
    {
      if !running || !accepted {
        return PE.Rejected;
      }
      o := UpdateNetworkMap(nm, env);
    }

    method OnSignal(key: string, goIdle: bool) returns (o: PE.Outcome)
      requires Valid()
      modifies connMgr, store
      ensures Valid()
      ensures State() == PR.Step(old(State()), own, PR.Signal(key, goIdle)).0
      ensures o == PR.Step(old(State()), own, PR.Signal(key, goIdle)).1
    {
      if !running || key !in store.peerConns {
        return PE.Rejected;
      }
      if goIdle {
        connMgr.DeactivatePeer(store.peerConns[key].id);
      } else {
        connMgr.ActivatePeer(key);
      }
      o := PE.Ok;
    }

    method Stop()
      requires Valid()
      modifies this`running, connMgr, store
      ensures Valid() && State() == PR.Step(old(State()), own, PR.Stop).0
    {
      connMgr.Close();
      RemoveAllPeers();
      running := false;
    }
  }

  /** Once an entry fails, the rest of the list is not looked at. */
  lemma {:induction false} AddStops(e: PE.Engine, ps: seq<Remote>, i: nat, env: Env)
    requires i <= |ps| && PE.AddNewPeers(e, ps[..i], env).1 != PE.Ok
    ensures PE.AddNewPeers(e, ps, env) == PE.AddNewPeers(e, ps[..i], env)
  {
    if i == |ps| {
      assert ps[..i] == ps;
    } else {
      assert ps[..|ps| - 1][..i] == ps[..i];
      AddStops(e, ps[..|ps| - 1], i, env);
    }
  }
}
