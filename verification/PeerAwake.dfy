/** Whether the engine strands a peer: never while its exclude lists have no effect, as is the case
    for the lists it computes from maps with distinct keys; and a run with a repeated key that does. */
module PeerAwake {
  import opened Prelude
  import opened PeerModel
  import opened PeerEngine
  import opened PeerOutcomes
  import opened PeerRuns
  import PL = PeerLazy
  import PS = PeerStatus

  /** Every stored peer is open or can be woken, idle ones are closed, the lazy manager manages stored
      peers only, nobody is excluded, and every open connection is that of a stored peer. */
  predicate Awake(m: Mgr) {
    PL.Wakeable(m) && PS.IdleClosed(m) && PS.NoLeak(m) && PL.NoGhost(m)
    && (m.lazy.Some? ==> m.lazy.value.excludes == map[])
  }

  // ------------------------------------------------------------------------- small steps

  lemma AddAwake(m: Mgr, c: Conn, env: Env)
    requires PL.Held(m) && Awake(m) && c.id.key !in m.store && c.id !in m.requested
    ensures PL.Held(AddPeerConn(m, c, env)) && Awake(AddPeerConn(m, c, env))
  {
    PL.AddHeld(m, c, env);
    PL.AddStrandsIff(m, c, env);
    PL.AddFrame(m, c, env);
    PS.AddTightIff(m, c, env);
    PS.AddLeaksNothing(m, c, env);
  }

  lemma RemoveAwake(m: Mgr, keys: set<string>)
    requires PL.Held(m) && Awake(m)
    ensures PL.Held(RemovePeerConns(m, keys)) && Awake(RemovePeerConns(m, keys))
  {
    PL.RemoveHeld(m, keys);
    PS.RemoveTight(m, keys);
  }

  /** An exclude list that names no stored peer has no effect. */
  lemma ExcludeNobody(m: Mgr, keys: set<string>)
    requires (m.lazy.Some? ==> m.lazy.value.excludes == map[]) && keys !! m.store.Keys
    ensures SetExcludeList(m, keys) == m
  {
    if m.lazy.Some? {
      var l, l' := m.lazy.value, SetExcludeList(m, keys).lazy.value;
      assert l'.excludes == map[];
      assert l' == Exclude(l, map[]) && Exclude(l, map[]).managed == l.managed;
      assert Ids(m.store, l'.excludes.Keys - l.excludes.Keys) == {};
    }
  }

  // ------------------------------------------------------------------------- one update

  lemma AddNewPeerAwake(e: Engine, p: Remote, env: Env)
    requires Numbered(e) && PL.Held(e.mgr) && Awake(e.mgr)
    ensures var e' := AddNewPeer(e, p, env).0; Numbered(e') && PL.Held(e'.mgr) && Awake(e'.mgr)
  {
    AddNewPeerEffect(e, p, env);
    if p.key !in e.mgr.store && AllParse(env, p.ips) {
      AddAwake(e.mgr, Conn(ConnId(p.key, e.next), p.version, ParseAll(env, p.ips)), env);
    }
  }

  lemma {:induction false} AddNewPeersAwake(e: Engine, ps: seq<Remote>, env: Env)
    requires Numbered(e) && PL.Held(e.mgr) && Awake(e.mgr)
    ensures var e' := AddNewPeers(e, ps, env).0; Numbered(e') && PL.Held(e'.mgr) && Awake(e'.mgr)
  {
    if ps != [] {
      var front := ps[..|ps| - 1];
      AddNewPeersAwake(e, front, env);
      AddNewPeerAwake(AddNewPeers(e, front, env).0, ps[|ps| - 1], env);
    }
  }

  lemma RemoveKeysAwake(e: Engine, keys: set<string>)
    requires Numbered(e) && PL.Held(e.mgr) && Awake(e.mgr)
    ensures var e' := RemoveKeys(e, keys); Numbered(e') && PL.Held(e'.mgr) && Awake(e'.mgr)
  {
    RemoveKeysEffect(e, keys);
    RemoveAwake(e.mgr, keys);
  }

  lemma ReconcileAwake(e: Engine, ps: seq<Remote>, env: Env)
    requires Numbered(e) && PL.Held(e.mgr) && Awake(e.mgr)
    ensures var e' := Reconcile(e, ps, env).0; PL.Held(e'.mgr) && Awake(e'.mgr)
  {
    RemoveKeysAwake(e, e.mgr.store.Keys - Keys(ps));
    var e1 := RemovePeers(e, ps);
    var modified := ModifiedPeers(e1, ps, env);
    RemoveKeysAwake(e1, Keys(modified));
    AddNewPeersAwake(RemoveKeys(e1, Keys(modified)), modified, env);
    AddNewPeersAwake(ModifyPeers(e1, ps, env).0, ps, env);
  }

  lemma PrepareAwake(e: Engine, nm: NetworkMap)
    requires PL.Held(e.mgr) && Awake(e.mgr)
    ensures Awake(SetGroups(RemoteFlag(e.mgr, nm.lazyEnabled), nm.groups))
  {
    PL.FlagHeld(e.mgr, nm.lazyEnabled);
    PS.StepTight(e.mgr, PL.Flag(nm.lazyEnabled));
    PS.StepLeaksNothing(e.mgr, PL.Flag(nm.lazyEnabled));
  }

  /** The exclude list of an accepted map names no peer that is stored afterwards. */
  predicate Harmless(e: Engine, nm: NetworkMap, own: string, env: Env) {
    nm.serial >= e.serial && UpdateNetworkMap(e, nm, own, env).1 == Ok ==>
      nm.excluded !! UpdateNetworkMap(e, nm, own, env).0.mgr.store.Keys
  }

  lemma UpdateAwake(e: Engine, nm: NetworkMap, own: string, env: Env)
    requires Numbered(e) && PL.Held(e.mgr) && Awake(e.mgr) && Harmless(e, nm, own, env)
    ensures Awake(UpdateNetworkMap(e, nm, own, env).0.mgr)
  {
    if nm.serial >= e.serial {
      var e1 := e.(mgr := SetGroups(RemoteFlag(e.mgr, nm.lazyEnabled), nm.groups));
      var ps := Others(nm.remotes, own);
      PrepareKeeps(e, nm);
      PrepareAwake(e, nm);
      if nm.remotesEmpty { RemoveKeysAwake(e1, e1.mgr.store.Keys); } else { ReconcileAwake(e1, ps, env); }
      var (e2, o) := if nm.remotesEmpty then (RemoveKeys(e1, e1.mgr.store.Keys), Ok) else Reconcile(e1, ps, env);
      if o == Ok {
        assert SetExcludeList(e2.mgr, nm.excluded).store == e2.mgr.store;
        ExcludeNobody(e2.mgr, nm.excluded);
      }
    }
  }

  // --------------------------------------------------------------------------- every run

  lemma StepAwake(e: Engine, own: string, i: Input)
    requires Inv(e) && Awake(e.mgr) && (i.Start? ==> !e.running)
    requires i.Sync? ==> Harmless(e, i.map_, own, i.env)
    ensures Awake(Step(e, own, i).0.mgr)
  {
    match i {
      case Start(_, _) =>
      case Sync(nm, accepted, env) => if e.running && accepted { UpdateAwake(e, nm, own, env); }
      case Signal(key, goIdle) =>
        if e.running && key in e.mgr.store {
          PL.DeactivateHeld(e.mgr, e.mgr.store[key].id);
          PL.WakeHeld(e.mgr, key);
          PS.DeactivateTight(e.mgr, e.mgr.store[key].id);
          PS.WakeTight(e.mgr, key);
        }
      case PeerActivity(id) =>
        PL.WakeHeld(e.mgr, id.key);
        PS.WakeTight(e.mgr, id.key);
      case PeersInactive(keys) =>
        if e.mgr.lazy.Some? {
          PL.IdleHeld(e.mgr, TimedOut(e.mgr.lazy.value, keys), OnInactivity(e.mgr, keys));
          PS.IdleTight(e.mgr, TimedOut(e.mgr.lazy.value, keys), OnInactivity(e.mgr, keys));
        }
      case Stop => PS.RemoveTight(CloseMgr(e.mgr), e.mgr.store.Keys);
    }
  }

  /** Every sync of the run is harmless in the state in which it arrives. */
  predicate HarmlessRun(own: string, inputs: seq<Input>) {
    inputs == [] ||
    var front, i := inputs[..|inputs| - 1], inputs[|inputs| - 1];
    HarmlessRun(own, front) && (i.Sync? ==> Harmless(Run(FRESH, own, front), i.map_, own, i.env))
  }

  /** Along every run whose exclude lists are harmless, each stored peer is open or can be woken. */
  lemma {:induction false} RunAwake(own: string, inputs: seq<Input>)
    requires Disciplined(FRESH, own, inputs) && HarmlessRun(own, inputs)
    ensures Awake(Run(FRESH, own, inputs).mgr)
  {
    if inputs != [] {
      var front := inputs[..|inputs| - 1];
      RunAwake(own, front);
      RunInv(own, front);
      StepAwake(Run(FRESH, own, front), own, inputs[|inputs| - 1]);
    }
  }

  /** In particular along every run in which nobody is ever excluded. */
  lemma NoExclusionsAwake(own: string, inputs: seq<Input>)
    requires Disciplined(FRESH, own, inputs)
    requires forall n :: 0 <= n < |inputs| && inputs[n].Sync? ==> inputs[n].map_.excluded == {}
    ensures PL.Wakeable(Run(FRESH, own, inputs).mgr) && PL.NoGhost(Run(FRESH, own, inputs).mgr)
  {
    NoExclusionsHarmless(own, inputs);
    RunAwake(own, inputs);
  }

  lemma {:induction false} NoExclusionsHarmless(own: string, inputs: seq<Input>)
    requires forall n :: 0 <= n < |inputs| && inputs[n].Sync? ==> inputs[n].map_.excluded == {}
    ensures HarmlessRun(own, inputs)
  {
    if inputs != [] {
      NoExclusionsHarmless(own, inputs[..|inputs| - 1]);
    }
  }

  predicate DistinctKeys(ps: seq<Remote>) {
    forall i, j :: 0 <= i < j < |ps| ==> ps[i].key != ps[j].key
  }

  /** The exclude list of the map is the one that the engine computes from addresses of forwarding
      rules, and the map lists no peer twice. */
  ghost predicate Computed(nm: NetworkMap, own: string, env: Env) {
    DistinctKeys(Others(nm.remotes, own))
    && exists addresses: seq<string> ::
         (forall a :: a in addresses ==> env.parse(a).None?) && nm.excluded == Excluded(addresses, Others(nm.remotes, own))
  }

  lemma ComputedHarmless(e: Engine, nm: NetworkMap, own: string, env: Env)
    requires Inv(e) && Computed(nm, own, env)
    ensures Harmless(e, nm, own, env)
  {
    var ps := Others(nm.remotes, own);
    var addresses: seq<string> :|
      (forall a :: a in addresses ==> env.parse(a).None?) && nm.excluded == Excluded(addresses, ps);
    if nm.serial >= e.serial && UpdateNetworkMap(e, nm, own, env).1 == Ok {
      UpdateConverges(e, nm, own, env);
      if !nm.remotesEmpty {
        var e1 := e.(mgr := SetGroups(RemoteFlag(e.mgr, nm.lazyEnabled), nm.groups));
        PrepareKeeps(e, nm);
        NobodyExcluded(e1, ps, env, addresses);
      }
    }
  }

  lemma {:induction false} ComputedRunHarmless(own: string, inputs: seq<Input>)
    requires Disciplined(FRESH, own, inputs)
    requires forall n :: 0 <= n < |inputs| && inputs[n].Sync? ==> Computed(inputs[n].map_, own, inputs[n].env)
    ensures HarmlessRun(own, inputs)
  {
    if inputs != [] {
      var front, i := inputs[..|inputs| - 1], inputs[|inputs| - 1];
      ComputedRunHarmless(own, front);
      if i.Sync? {
        RunInv(own, front);
        ComputedHarmless(Run(FRESH, own, front), i.map_, own, i.env);
      }
    }
  }

  /** With the exclude lists that the engine computes and maps that list no peer twice, no run ever
      strands a peer. */
  lemma ComputedAwake(own: string, inputs: seq<Input>)
    requires Disciplined(FRESH, own, inputs)
    requires forall n :: 0 <= n < |inputs| && inputs[n].Sync? ==> Computed(inputs[n].map_, own, inputs[n].env)
    ensures PL.Wakeable(Run(FRESH, own, inputs).mgr) && PL.NoGhost(Run(FRESH, own, inputs).mgr)
  {
    ComputedRunHarmless(own, inputs);
    RunAwake(own, inputs);
  }

  /** In those runs the lazy manager keeps exactly the idle peers closed. */
  lemma ComputedOpenIff(own: string, inputs: seq<Input>, k: string)
    requires Disciplined(FRESH, own, inputs)
    requires forall n :: 0 <= n < |inputs| && inputs[n].Sync? ==> Computed(inputs[n].map_, own, inputs[n].env)
    requires k in Run(FRESH, own, inputs).mgr.store
    ensures var m := Run(FRESH, own, inputs).mgr;
      PL.IsRequested(m, k) <==> !(m.lazy.Some? && k in m.lazy.value.managed && m.lazy.value.managed[k].watcher == Activity)
  {
    ComputedRunHarmless(own, inputs);
    RunAwake(own, inputs);
  }

  // -------------------------------------------------------------------- a stranding run

  const PREFIX := "10.0.0.1/32"
  const ADDRESS := "10.0.0.1"

  /** The prefix parses, and a connection for the peer can be made and monitored. */
  predicate Usual(env: Env) {
    env.parse(PREFIX) == Some(Prefix(PREFIX)) && env.createOk("k") && env.monitorOk("k")
  }

  const GOOD := Remote("k", "", [PREFIX])
  /** The same key again, with a bare address where a prefix belongs. */
  const BARE := Remote("k", "", [ADDRESS])

  /** The repeated entry is never parsed, so the map is accepted, and the bare address puts the peer
      on the exclude list. */
  lemma RepeatedKeyExcluded(e: Engine, env: Env)
    requires Numbered(e) && "k" !in e.mgr.store && Usual(env)
    ensures Reconcile(e, [GOOD, BARE], env).1 == Ok && Excluded([ADDRESS], [GOOD, BARE]) == {"k"}
  {
    ReconcileOkIff(e, [GOOD, BARE], env);
    assert [GOOD, BARE][0].key == [GOOD, BARE][1].key;
    assert Buildable(env, GOOD);
    assert BARE in [GOOD, BARE] && ADDRESS in [ADDRESS] && ADDRESS in BARE.ips;
  }

  function Map(serial: nat, remotes: seq<Remote>): NetworkMap {
    NetworkMap(serial, remotes, false, true, [], Excluded([ADDRESS], remotes))
  }

  const ID0 := ConnId("k", 0)
  const ID1 := ConnId("k", 1)
  const C0 := Conn(ID0, "", [Prefix(PREFIX)])
  const C1 := Conn(ID1, "", [Prefix(PREFIX)])

  /** The engine after its start, after a map with the repeated key, after a map without the peer,
      and after a map with the peer listed once. */
  const E1 := Engine(0, true, Mgr(map[], {}, Some(NO_PEERS), true, false), 0)
  const E2 := Engine(1, true, Mgr(map["k" := C0], {ID0}, Some(Lazy(map[], map["k" := ID0], [])), true, false), 1)
  const E3 := Engine(2, true, Mgr(map[], {}, Some(Lazy(map["k" := Entry(ID0, Inactivity)], map[], [])), true, false), 1)
  const E4 := Engine(3, true, Mgr(map["k" := C1], {}, Some(Lazy(map["k" := Entry(ID0, Inactivity)], map[], [])), true, false), 2)

  lemma OthersAll(ps: seq<Remote>, own: string)
    requires |ps| <= 2 && forall p :: p in ps ==> p.key != own
    ensures Others(ps, own) == ps
  {
    if |ps| == 2 {
      assert ps[..1] == [ps[0]] && ps[..1][..0] == [] && ps[0] in ps && ps[1] in ps;
      assert Others(ps[..1], own) == [ps[0]];
    } else if |ps| == 1 {
      assert ps[..0] == [] && ps[0] in ps;
    }
  }

  lemma ParsedPrefix(env: Env)
    requires Usual(env)
    ensures AllParse(env, [PREFIX]) && ParseAll(env, [PREFIX]) == [Prefix(PREFIX)]
  {
  }

  lemma FirstMap(env: Env)
    requires Usual(env) && env.supported("")
    ensures UpdateNetworkMap(E1, Map(1, [GOOD, BARE]), "me", env) == (E2, Ok)
  {
    var ps := [GOOD, BARE];
    OthersAll(ps, "me");
    RepeatedKeyExcluded(E1, env);
    ParsedPrefix(env);
    RemoveNothing(E1);
    assert E1.mgr.store.Keys - Keys(ps) == {};
    NothingModified(E1, ps, env);
    assert Keys([]) == {};
    var m1 := Mgr(map["k" := C0], {}, Some(Lazy(map["k" := Entry(ID0, Activity)], map[], [])), true, false);
    assert AddPeerConn(E1.mgr, C0, env) == m1;
    assert ps[..1] == [GOOD] && [GOOD][..0] == [];
    assert AddNewPeers(E1, ps, env) == (Engine(0, true, m1, 1), Ok);
    assert Reconcile(E1, ps, env) == (Engine(0, true, m1, 1), Ok);
    ExcludeK(m1);
  }

  lemma ExcludeK(m: Mgr)
    requires m == Mgr(map["k" := C0], {}, Some(Lazy(map["k" := Entry(ID0, Activity)], map[], [])), true, false)
    ensures SetExcludeList(m, {"k"}) == E2.mgr
  {
    var l, l' := m.lazy.value, SetExcludeList(m, {"k"}).lazy.value;
    assert l'.excludes == map["k" := ID0];
    assert l'.excludes.Keys == {"k"} && l.excludes.Keys == {};
    assert l'.managed == map[];
    assert Ids(m.store, l'.excludes.Keys - l.excludes.Keys) == {ID0} by {
      assert "k" in l'.excludes.Keys - l.excludes.Keys && m.store["k"].id == ID0;
    }
  }

  lemma IncludeK(m: Mgr)
    requires m == Mgr(map[], {}, Some(Lazy(map[], map["k" := ID0], [])), true, false)
    ensures SetExcludeList(m, {}) == E3.mgr
  {
    var l, l' := m.lazy.value, SetExcludeList(m, {}).lazy.value;
    assert l'.excludes == map[];
    assert l.excludes.Keys - l'.excludes.Keys == {"k"};
    assert l'.managed == map["k" := Entry(ID0, Inactivity)];
    assert Ids(m.store, l'.excludes.Keys - l.excludes.Keys) == {};
  }

  lemma SecondMap(env: Env)
    ensures UpdateNetworkMap(E2, Map(2, []), "me", env) == (E3, Ok)
  {
    assert Excluded([ADDRESS], []) == {};
    assert Keys([]) == {};
    var m1 := Mgr(map[], {}, Some(Lazy(map[], map["k" := ID0], [])), true, false);
    assert Ids(E2.mgr.store, {"k"}) == {ID0};
    assert RemovePeerConns(E2.mgr, {"k"}) == m1;
    var e1 := Engine(1, true, m1, 1);
    assert RemovePeers(E2, []) == e1;
    RemoveNothing(e1);
    assert Reconcile(E2, [], env) == (e1, Ok);
    IncludeK(m1);
  }

  lemma ThirdMap(env: Env)
    requires Usual(env) && env.supported("")
    ensures UpdateNetworkMap(E3, Map(3, [GOOD]), "me", env) == (E4, Ok)
  {
    var ps := [GOOD];
    OthersAll(ps, "me");
    ParsedPrefix(env);
    assert ADDRESS != PREFIX;
    assert Excluded([ADDRESS], ps) == {};
    RemoveNothing(E3);
    assert E3.mgr.store.Keys - Keys(ps) == {};
    NothingModified(E3, ps, env);
    assert Keys([]) == {};
    AddReturning(env);
    assert Reconcile(E3, ps, env) == (Engine(2, true, E4.mgr, 2), Ok);
    ExcludeNobody(E4.mgr, {});
  }

  lemma AddReturning(env: Env)
    requires Usual(env) && env.supported("")
    ensures AddNewPeers(E3, [GOOD], env) == (Engine(2, true, E4.mgr, 2), Ok)
  {
    ParsedPrefix(env);
    assert [GOOD][..0] == [];
    assert AddPeerConn(E3.mgr, C1, env) == E4.mgr;
  }

  /** The run up to and including the map without the peer. */
  function Gone(env: Env): seq<Input> {
    [Start(true, false), Sync(Map(1, [GOOD, BARE]), true, env), Sync(Map(2, []), true, env)]
  }

  lemma RunToGone(env: Env)
    requires Usual(env) && env.supported("")
    ensures Run(FRESH, "me", Gone(env)) == E3 && Disciplined(FRESH, "me", Gone(env))
  {
    var i0, i1, i2 := Gone(env)[0], Gone(env)[1], Gone(env)[2];
    FirstMap(env);
    SecondMap(env);
    assert Step(FRESH, "me", i0).0 == E1;
    RunSnoc("me", [], i0);
    RunSnoc("me", [i0], i1);
    RunSnoc("me", [i0, i1], i2);
    assert [] + [i0] == [i0] && [i0] + [i1] == [i0, i1] && [i0, i1] + [i2] == Gone(env);
  }

  /** A run of the engine with the exclude lists it computes itself that ends with a stranded peer:
      the peer is listed twice, then not at all, then once. */
  lemma EngineStrands(env: Env)
    requires Usual(env) && env.supported("")
    ensures var inputs := Gone(env) + [Sync(Map(3, [GOOD]), true, env)];
      Disciplined(FRESH, "me", inputs) && PL.Stranded(Run(FRESH, "me", inputs).mgr, "k")
  {
    RunToGone(env);
    ThirdMap(env);
    RunSnoc("me", Gone(env), Sync(Map(3, [GOOD]), true, env));
  }

  lemma RunSnoc(own: string, front: seq<Input>, i: Input)
    ensures Run(FRESH, own, front + [i]) == Step(Run(FRESH, own, front), own, i).0
    ensures Disciplined(FRESH, own, front + [i]) <==>
            Disciplined(FRESH, own, front) && (i.Start? ==> !Run(FRESH, own, front).running)
  {
    assert (front + [i])[..|front|] == front;
  }
}
