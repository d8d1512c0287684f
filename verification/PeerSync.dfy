/** What each input of the engine does beyond the set of stored peers: the lazy manager, its groups
    and exclude list after a network map, the effect of signals, start and stop, and that no
    connection stays open without its peer. */
module PeerSync {
  import opened Prelude
  import opened PeerModel
  import opened PeerEngine
  import opened PeerRuns
  import opened PeerStatus
  import PL = PeerLazy

  // ------------------------------------------------------------------- after a network map

  /** A lazy manager is there after an accepted map exactly when it is enabled locally and was there,
      or the map enables it and it was there or Rosenpass is off. It then has the groups of the map,
      and excludes exactly the stored peers that the map excludes, under their current connections. */
  lemma UpdateSettles(e: Engine, nm: NetworkMap, own: string, env: Env)
    requires PL.Held(e.mgr) && nm.serial >= e.serial && UpdateNetworkMap(e, nm, own, env).1 == Ok
    ensures var m, m' := e.mgr, UpdateNetworkMap(e, nm, own, env).0.mgr;
      && (m'.lazy.Some? <==> if m.enabledLocally then m.lazy.Some? else nm.lazyEnabled && (m.lazy.Some? || !m.rosenpass))
      && (m'.lazy.Some? ==>
            && m'.lazy.value.groups == nm.groups
            && m'.lazy.value.excludes == map k | k in nm.excluded && k in m'.store :: m'.store[k].id)
      && m'.enabledLocally == m.enabledLocally && m'.rosenpass == m.rosenpass
  {
    var m1 := SetGroups(RemoteFlag(e.mgr, nm.lazyEnabled), nm.groups);
    var e1 := e.(mgr := m1);
    FlagEffect(e.mgr, nm.lazyEnabled, "");
    if !nm.remotesEmpty {
      ReconcileLazy(e1, Others(nm.remotes, own), env);
    }
  }

  /** Every peer on the exclude list of an accepted map that is new on it is open afterwards. */
  lemma NewlyExcludedOpen(e: Engine, nm: NetworkMap, own: string, env: Env, k: string)
    requires Numbered(e) && PL.Held(e.mgr) && nm.serial >= e.serial && UpdateNetworkMap(e, nm, own, env).1 == Ok
    requires k in nm.excluded && k in UpdateNetworkMap(e, nm, own, env).0.mgr.store
    requires e.mgr.lazy.Some? && k !in e.mgr.lazy.value.excludes && (e.mgr.enabledLocally || nm.lazyEnabled)
    ensures StatusOf(UpdateNetworkMap(e, nm, own, env).0.mgr, k).open
  {
    var e1 := e.(mgr := SetGroups(RemoteFlag(e.mgr, nm.lazyEnabled), nm.groups));
    PrepareKeeps(e, nm);
    var ps := Others(nm.remotes, own);
    var e2 := if nm.remotesEmpty then RemoveKeys(e1, e1.mgr.store.Keys) else Reconcile(e1, ps, env).0;
    if nm.remotesEmpty {
      PL.RemoveHeld(e1.mgr, e1.mgr.store.Keys);
    } else {
      ReconcileHeld(e1, ps, env);
      ReconcileExcludes(e1, ps, env);
    }
    ExcludeEffect(e2.mgr, nm.excluded, k);
  }

  /** A map that fails has already set the flag and the groups, but the exclude list stays: that of the
      lazy manager that was there, or an empty one. */
  lemma FailedUpdateKeepsExcludes(e: Engine, nm: NetworkMap, own: string, env: Env)
    requires PL.Held(e.mgr) && UpdateNetworkMap(e, nm, own, env).1 != Ok
    ensures var m, m' := e.mgr, UpdateNetworkMap(e, nm, own, env).0.mgr;
      && (m'.lazy.Some? <==> if m.enabledLocally then m.lazy.Some? else nm.lazyEnabled && (m.lazy.Some? || !m.rosenpass))
      && (m'.lazy.Some? ==>
            && m'.lazy.value.groups == nm.groups
            && m'.lazy.value.excludes == if m.lazy.Some? then m.lazy.value.excludes else map[])
  {
    var e1 := e.(mgr := SetGroups(RemoteFlag(e.mgr, nm.lazyEnabled), nm.groups));
    var ps := Others(nm.remotes, own);
    FlagEffect(e.mgr, nm.lazyEnabled, "");
    ReconcileLazy(e1, ps, env);
    ReconcileExcludes(e1, ps, env);
  }

  predicate ExcludesKept(m: Mgr, m': Mgr) {
    (m'.lazy.Some? <==> m.lazy.Some?) && (m.lazy.Some? ==> m'.lazy.value.excludes == m.lazy.value.excludes)
  }

  lemma {:induction false} AddNewPeersExcludes(e: Engine, ps: seq<Remote>, env: Env)
    ensures ExcludesKept(e.mgr, AddNewPeers(e, ps, env).0.mgr)
  {
    if ps != [] {
      AddNewPeersExcludes(e, ps[..|ps| - 1], env);
      AddNewPeerExcludes(AddNewPeers(e, ps[..|ps| - 1], env).0, ps[|ps| - 1], env);
    }
  }

  lemma AddNewPeerExcludes(e: Engine, p: Remote, env: Env)
    ensures ExcludesKept(e.mgr, AddNewPeer(e, p, env).0.mgr)
  {
    if p.key !in e.mgr.store && AllParse(env, p.ips) {
      PL.AddFrame(e.mgr, Conn(ConnId(p.key, e.next), p.version, ParseAll(env, p.ips)), env);
    }
  }

  lemma ReconcileExcludes(e: Engine, ps: seq<Remote>, env: Env)
    ensures ExcludesKept(e.mgr, Reconcile(e, ps, env).0.mgr)
  {
    var e1 := RemovePeers(e, ps);
    var modified := ModifiedPeers(e1, ps, env);
    AddNewPeersExcludes(RemoveKeys(e1, Keys(modified)), modified, env);
    AddNewPeersExcludes(ModifyPeers(e1, ps, env).0, ps, env);
  }

  // ------------------------------------------------------------------------- other inputs

  /** A sync is rejected, without effect, on a stopped engine or when the message is not acceptable; a
      signal, on a stopped engine or from a peer that is not stored. */
  lemma RejectedIff(e: Engine, own: string, i: Input)
    ensures Step(e, own, i).1 == Rejected <==>
            (i.Sync? && (!e.running || !i.accepted)) || (i.Signal? && (!e.running || i.key !in e.mgr.store))
    ensures Step(e, own, i).1 == Rejected ==> Step(e, own, i).0 == e
  {
    if i.Sync? && e.running && i.accepted {
      NeverRejected(e, i.map_, own, i.env);
    }
  }

  lemma NeverRejected(e: Engine, nm: NetworkMap, own: string, env: Env)
    ensures UpdateNetworkMap(e, nm, own, env).1 != Rejected
  {
    var e1 := e.(mgr := SetGroups(RemoteFlag(e.mgr, nm.lazyEnabled), nm.groups));
    var ps := Others(nm.remotes, own);
    var e2 := RemovePeers(e1, ps);
    AddsNeverRejected(RemoveKeys(e2, Keys(ModifiedPeers(e2, ps, env))), ModifiedPeers(e2, ps, env), env);
    AddsNeverRejected(ModifyPeers(e2, ps, env).0, ps, env);
  }

  lemma {:induction false} AddsNeverRejected(e: Engine, ps: seq<Remote>, env: Env)
    ensures AddNewPeers(e, ps, env).1 != Rejected
  {
    if ps != [] {
      AddsNeverRejected(e, ps[..|ps| - 1], env);
    }
  }

  /** A signal message from a stored peer opens the peer and the idle members of its groups if it was
      idle; a go-idle message closes it if it was watched for inactivity under its own connection.
      Nothing else changes. */
  lemma SignalEffect(e: Engine, own: string, key: string, goIdle: bool, k: string)
    requires PL.Filed(e.mgr) && e.running && key in e.mgr.store
    ensures var st := StatusOf(e.mgr, k);
      StatusOf(Step(e, own, Signal(key, goIdle)).0.mgr, k) ==
        if goIdle then
          if k == key && st.entry == Some(Entry(st.conn.value.id, Inactivity))
          then Status(st.conn, false, Some(Entry(st.conn.value.id, Activity)), st.excluded) else st
        else if e.mgr.lazy.Some? && Watched(e.mgr.lazy.value, key, Activity) && Watched(e.mgr.lazy.value, k, Activity)
                && (k == key || Mates(e.mgr.lazy.value.groups, key, k))
        then Status(st.conn, st.conn.Some?, Some(Entry(st.entry.value.conn, Inactivity)), st.excluded)
        else st
  {
    DeactivateEffect(e.mgr, e.mgr.store[key].id, k);
    WakeEffect(e.mgr, key, k);
  }

  /** A start makes the engine run, with an empty lazy manager exactly when that is enabled locally and
      Rosenpass is off; a stop leaves no peer, no lazy manager and no open connection. */
  lemma StartStop(e: Engine, own: string, enabledLocally: bool, rosenpass: bool)
    requires Numbered(e) && NoLeak(e.mgr)
    ensures var e' := Step(e, own, Start(enabledLocally, rosenpass)).0;
      e'.running && e'.mgr.store == e.mgr.store
      && e'.mgr.lazy == if enabledLocally && !rosenpass then Some(Lazy(map[], map[], [])) else None
    ensures var e' := Step(e, own, Stop).0;
      !e'.running && e'.mgr.store == map[] && e'.mgr.requested == {} && e'.mgr.lazy == None && e'.serial == e.serial
  {
    var m' := Step(e, own, Stop).0.mgr;
    assert m'.requested == {} by {
      forall id | id in e.mgr.requested ensures id in Ids(e.mgr.store, e.mgr.store.Keys) {
        assert e.mgr.store[id.key].id == id;
      }
    }
  }

  // ----------------------------------------------------------------------------- every run

  lemma {:induction false} AddNewPeersLeakNothing(e: Engine, ps: seq<Remote>, env: Env)
    requires NoLeak(e.mgr)
    ensures NoLeak(AddNewPeers(e, ps, env).0.mgr)
  {
    if ps != [] {
      var e1, p := AddNewPeers(e, ps[..|ps| - 1], env).0, ps[|ps| - 1];
      AddNewPeersLeakNothing(e, ps[..|ps| - 1], env);
      if p.key !in e1.mgr.store && AllParse(env, p.ips) {
        AddLeaksNothing(e1.mgr, Conn(ConnId(p.key, e1.next), p.version, ParseAll(env, p.ips)), env);
      }
    }
  }

  lemma RemoveLeaksNothing(m: Mgr, keys: set<string>)
    requires NoLeak(m)
    ensures NoLeak(RemovePeerConns(m, keys))
  {
  }

  lemma ReconcileLeaksNothing(e: Engine, ps: seq<Remote>, env: Env)
    requires NoLeak(e.mgr)
    ensures NoLeak(Reconcile(e, ps, env).0.mgr)
  {
    RemoveLeaksNothing(e.mgr, e.mgr.store.Keys - Keys(ps));
    var e1 := RemovePeers(e, ps);
    var modified := ModifiedPeers(e1, ps, env);
    RemoveLeaksNothing(e1.mgr, Keys(modified));
    AddNewPeersLeakNothing(RemoveKeys(e1, Keys(modified)), modified, env);
    AddNewPeersLeakNothing(ModifyPeers(e1, ps, env).0, ps, env);
  }

  lemma UpdateLeaksNothing(e: Engine, nm: NetworkMap, own: string, env: Env)
    requires Numbered(e) && PL.Held(e.mgr) && NoLeak(e.mgr)
    ensures NoLeak(UpdateNetworkMap(e, nm, own, env).0.mgr)
  {
    var e1 := e.(mgr := SetGroups(RemoteFlag(e.mgr, nm.lazyEnabled), nm.groups));
    PrepareKeeps(e, nm);
    StepLeaksNothing(e.mgr, PL.Flag(nm.lazyEnabled));
    StepLeaksNothing(RemoteFlag(e.mgr, nm.lazyEnabled), PL.Groups(nm.groups));
    var ps := Others(nm.remotes, own);
    var e2 := if nm.remotesEmpty then RemoveKeys(e1, e1.mgr.store.Keys) else Reconcile(e1, ps, env).0;
    if nm.remotesEmpty {
      RemoveLeaksNothing(e1.mgr, e1.mgr.store.Keys);
      PL.RemoveHeld(e1.mgr, e1.mgr.store.Keys);
    } else {
      ReconcileLeaksNothing(e1, ps, env);
      ReconcileHeld(e1, ps, env);
    }
    StepLeaksNothing(e2.mgr, PL.ExcludeList(nm.excluded));
  }

  lemma InputLeaksNothing(e: Engine, own: string, i: Input)
    requires Inv(e) && NoLeak(e.mgr) && (i.Start? ==> !e.running)
    ensures NoLeak(Step(e, own, i).0.mgr)
  {
    match i {
      case Start(_, _) =>
      case Sync(nm, accepted, env) => UpdateLeaksNothing(e, nm, own, env);
      case Signal(key, goIdle) =>
        if key in e.mgr.store {
          StepLeaksNothing(e.mgr, PL.Activate(key));
          StepLeaksNothing(e.mgr, PL.Deactivate(e.mgr.store[key].id));
        }
      case PeerActivity(id) => StepLeaksNothing(e.mgr, PL.ActivityOn(id));
      case PeersInactive(keys) => StepLeaksNothing(e.mgr, PL.InactivityOn(keys));
      case Stop => StartStop(e, own, false, false);
    }
  }

  /** In every run of the engine, with failing maps and any exclude lists, each open connection is
      that of a stored peer; a stopped engine has none. */
  lemma {:induction false} RunLeaksNothing(own: string, inputs: seq<Input>)
    requires Disciplined(FRESH, own, inputs)
    ensures var e := Run(FRESH, own, inputs);
      NoLeak(e.mgr) && (!e.running ==> e.mgr.requested == {})
  {
    if inputs != [] {
      var front := inputs[..|inputs| - 1];
      RunLeaksNothing(own, front);
      RunInv(own, front);
      InputLeaksNothing(Run(FRESH, own, front), own, inputs[|inputs| - 1]);
    }
    RunInv(own, inputs);
  }
}
