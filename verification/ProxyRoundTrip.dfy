/** CREATED followed by REMOVED: exactly when the proxy returns to where it was. */
module ProxyRoundTrip {
  import opened Prelude
  import opened RouterTable
  import opened ProxyModel
  import opened ProxyRouting
  import opened ProxyTheorems
  import opened ProxyTidy
  import opened ProxyExact

  /** Nothing in the routing state belongs to `svc`. */
  ghost predicate Unknown(cfg: Config, s: Proxy, svc: string) {
    && svc !in s.last && svc !in s.svcPorts && svc !in s.relays && svc !in s.crowdsec
    && (forall p, h, x :: Routed(cfg, s, p, h, x) ==> x.service != svc)
    && (forall p :: FallbackAt(cfg, s, p).Some? ==> FallbackAt(cfg, s, p).value.service != svc)
  }

  /** The state a message boundary guarantees. */
  ghost predicate Settled(cfg: Config, s: Proxy) {
    Base(cfg, s) && Registered(s) && NoEmptyRouters(cfg, s)
  }

  // ------------------------------------------------------------ router inverses

  predicate Lacks(rs: seq<Route>, svc: string) {
    forall x :: x in rs ==> x.service != svc
  }

  lemma {:induction false} WithoutLacking(rs: seq<Route>, svc: string)
    requires Lacks(rs, svc)
    ensures Without(rs, svc) == rs
  {
    if rs != [] {
      assert rs[0] in rs;
      assert forall x :: x in rs[1..] ==> x in rs;
      WithoutLacking(rs[1..], svc);
      assert rs == [rs[0]] + rs[1..];
    }
  }

  lemma {:induction false} WithoutUpsert(rs: seq<Route>, r: Route)
    requires Lacks(rs, r.service)
    ensures Without(Upsert(rs, r), r.service) == rs
  {
    if rs != [] {
      var tail := rs[1..];
      assert rs[0] in rs;
      assert forall x :: x in tail ==> x in rs;
      WithoutUpsert(tail, r);
      var up := Upsert(rs, r);
      assert up == [rs[0]] + Upsert(tail, r);
      assert up[1..] == Upsert(tail, r);
      assert rs == [rs[0]] + tail;
    }
  }

  lemma HostLacks(t: Table, h: string, svc: string)
    requires forall x :: Has(t, h, x) ==> x.service != svc
    ensures Lacks(GetOr(t.routes, h, []), svc)
  {
    forall x | x in GetOr(t.routes, h, []) ensures x.service != svc {
      assert Has(t, h, x);
    }
  }

  /** Removing a service that has no route for the host changes nothing. */
  lemma RemoveAbsent(t: Table, host: string, svc: string)
    requires WellFormed(t) && forall x :: Has(t, ToLower(host), x) ==> x.service != svc
    ensures RemoveRoute(t, host, svc) == t
  {
    HostLacks(t, ToLower(host), svc);
    WithoutLacking(GetOr(t.routes, ToLower(host), []), svc);
  }

  /** Removing the route that was just added restores the table. */
  lemma RemoveAdded(t: Table, host: string, r: Route)
    requires WellFormed(t) && forall x :: Has(t, ToLower(host), x) ==> x.service != r.service
    ensures host != "" ==> RemoveRoute(AddRoute(t, host, r), host, r.service) == t
    ensures host == "" ==> AddRoute(t, host, r) == t
  {
    LowerEmpty(host);
    var h := ToLower(host);
    var rs := GetOr(t.routes, h, []);
    HostLacks(t, h, r.service);
    WithoutUpsert(rs, r);
    if host != "" {
      var t1 := AddRoute(t, host, r);
      assert GetOr(t1.routes, h, []) == Upsert(rs, r);
      var t2 := RemoveRoute(t1, host, r.service);
      if rs == [] {
        assert h !in t.routes;
        assert t2.routes == t.routes;
      } else {
        assert t2.routes == t.routes[h := rs];
        assert t2.routes == t.routes;
      }
    }
  }

  // ------------------------------------------------------------------ CrowdSec

  lemma ReleaseAcquired(cfg: Config, s: Proxy, m: Mapping, env: Env)
    requires Registered(s) && m.id !in s.crowdsec
    ensures var s1 := Acquire(cfg, s, m, env);
      && s1 == s.(crowdsec := s1.crowdsec, refs := s1.refs, bouncer := s1.bouncer)
      && Release(s1, m.id) == s
  {
  }

  /** Releasing does not look at the other fields. */
  lemma ReleaseFrame(s: Proxy, s': Proxy, svc: string)
    requires s'.crowdsec == s.crowdsec && s'.refs == s.refs && s'.bouncer == s.bouncer
    ensures var r, r' := Release(s, svc), Release(s', svc);
      && r'.crowdsec == r.crowdsec && r'.refs == r.refs && r'.bouncer == r.bouncer
      && r' == s'.(crowdsec := r'.crowdsec, refs := r'.refs, bouncer := r'.bouncer)
  {
  }

  // ------------------------------------------------------------------- cleanup

  /** Cleanup as routers, maps and CrowdSec, one after the other. */
  lemma CleanupParts(cfg: Config, s: Proxy, m: Mapping)
    ensures var s1 := DropMainRoute(s, m);
      var s2 := CleanupEntries(cfg, s1.(svcPorts := s1.svcPorts - {m.id}), GetOr(s.svcPorts, m.id, []), m.domain, m.id);
      var r := Release(s, m.id);
      Cleanup(cfg, s, m) == Proxy(s2.main, s2.ports, s.svcPorts - {m.id}, s.relays - {m.id}, s.last,
                                  r.crowdsec, r.refs, r.bouncer)
  {
    var s1 := DropMainRoute(s, m);
    var entries := GetOr(s.svcPorts, m.id, []);
    CleanupEntriesTidy(cfg, s1.(svcPorts := s1.svcPorts - {m.id}), entries, m.domain, m.id);
    var s2 := CleanupEntries(cfg, s1.(svcPorts := s1.svcPorts - {m.id}), entries, m.domain, m.id);
    ReleaseFrame(s, s2.(relays := s2.relays - {m.id}), m.id);
  }

  /** Removing a service that the proxy does not know changes nothing. */
  lemma CleanupUnknown(cfg: Config, s: Proxy, m: Mapping)
    requires Settled(cfg, s) && Unknown(cfg, s, m.id)
    ensures Cleanup(cfg, s, m) == s
  {
    CleanupParts(cfg, s, m);
    assert DropMainRoute(s, m) == s by {
      forall x | Has(s.main, ToLower(m.domain), x) ensures x.service != m.id {
        assert Routed(cfg, s, cfg.mainPort, ToLower(m.domain), x);
      }
      RemoveAbsent(s.main, m.domain, m.id);
    }
    assert s.svcPorts - {m.id} == s.svcPorts;
    assert s.relays - {m.id} == s.relays;
  }

  lemma RemoveUnknown(cfg: Config, s: Proxy, m: Mapping)
    requires Settled(cfg, s) && Unknown(cfg, s, m.id)
    ensures RemoveMapping(cfg, s, m) == s
  {
    assert s.last - {m.id} == s.last;
    CleanupUnknown(cfg, s, m);
  }

  // ----------------------------------------------------------------- the inverse

  /** Setting the mapping up can be undone by cleaning up with the same mapping. */
  predicate Reversible(cfg: Config, s: Proxy, m: Mapping, env: Env) {
    Succeeds(cfg, s, m, env) ==>
      && (m.mode == MODE_TCP ==> m.domain == "" && FallbackAt(cfg, s, m.listenPort) == None)
      && (m.mode == MODE_TLS && m.domain == "" && m.listenPort != cfg.mainPort
          ==> FallbackAt(cfg, s, m.listenPort) == None)
  }

  lemma HttpUndone(cfg: Config, s: Proxy, m: Mapping, env: Env)
    requires Settled(cfg, s) && Unknown(cfg, s, m.id)
    requires m.mode != MODE_TCP && m.mode != MODE_UDP && m.mode != MODE_TLS
    ensures Cleanup(cfg, Setup(cfg, s, m, env).0, m) == s
  {
    if m.targets == [] {
      CleanupUnknown(cfg, s, m);
    } else {
      var s1 := s.(main := AddRoute(s.main, m.domain, RouteOf(m)));
      var s2 := Setup(cfg, s, m, env).0;
      ReleaseAcquired(cfg, s1, m, env);
      CleanupParts(cfg, s2, m);
      assert DropMainRoute(s2, m).main == s.main by {
        forall x | Has(s.main, ToLower(m.domain), x) ensures x.service != m.id {
          assert Routed(cfg, s, cfg.mainPort, ToLower(m.domain), x);
        }
        RemoveAdded(s.main, m.domain, RouteOf(m));
      }
      assert s.svcPorts - {m.id} == s.svcPorts;
      assert s.relays - {m.id} == s.relays;
    }
  }

  lemma UdpUndone(cfg: Config, s: Proxy, m: Mapping, env: Env)
    requires Settled(cfg, s) && Unknown(cfg, s, m.id) && m.mode == MODE_UDP
    ensures Cleanup(cfg, Setup(cfg, s, m, env).0, m) == s
  {
    assert s.relays - {m.id} == s.relays;
    if !Setup(cfg, s, m, env).1 {
      CleanupUnknown(cfg, s, m);
    } else {
      var s2 := Setup(cfg, s, m, env).0;
      ReleaseAcquired(cfg, s, m, env);
      ReleaseFrame(Acquire(cfg, s, m, env), s2, m.id);
      CleanupParts(cfg, s2, m);
      assert DropMainRoute(s2, m).main == s.main by {
        forall x | Has(s.main, ToLower(m.domain), x) ensures x.service != m.id {
          assert Routed(cfg, s, cfg.mainPort, ToLower(m.domain), x);
        }
        RemoveAbsent(s.main, m.domain, m.id);
      }
      assert s.svcPorts - {m.id} == s.svcPorts;
      assert s2.relays - {m.id} == s.relays;
    }
  }

  /** The listen port's table after set-up and clean-up. */
  function UndoneTable(t: Table, m: Mapping): Table {
    CleanedTable(PlacedTable(m, t), m.domain, m.id)
  }

  lemma UndoneTableIff(t: Table, m: Mapping)
    requires WellFormed(t) && (m.mode == MODE_TCP || m.mode == MODE_TLS)
    requires forall h, x :: Has(t, h, x) ==> x.service != m.id
    requires t.fallback.Some? ==> t.fallback.value.service != m.id
    ensures UndoneTable(t, m) == t <==>
            (m.mode == MODE_TCP ==> m.domain == "" && t.fallback == None)
            && (m.mode == MODE_TLS && m.domain == "" ==> t.fallback == None)
  {
    RemoveAdded(t, m.domain, RouteOf(m));
    RemoveAbsent(SetFallback(t, RouteOf(m)), m.domain, m.id);
    if m.mode == MODE_TCP && m.domain != "" {
      assert UndoneTable(t, m).fallback == Some(RouteOf(m));
    }
  }

  lemma MainLacks(cfg: Config, s: Proxy, m: Mapping)
    requires Base(cfg, s) && Unknown(cfg, s, m.id)
    ensures forall h, x :: Has(s.main, h, x) ==> x.service != m.id
    ensures forall h, x :: Has(SetFallback(s.main, RouteOf(m)), h, x) ==> x.service != m.id
    ensures s.main.fallback.Some? ==> s.main.fallback.value.service != m.id
    ensures DropMainRoute(s, m) == s
  {
    forall h, x | Has(s.main, h, x) ensures x.service != m.id {
      assert Routed(cfg, s, cfg.mainPort, h, x);
    }
    forall h, x | Has(SetFallback(s.main, RouteOf(m)), h, x) ensures x.service != m.id {
      assert Has(s.main, h, x);
    }
    if s.main.fallback.Some? {
      assert FallbackAt(cfg, s, cfg.mainPort).Some?;
    }
    RemoveAbsent(s.main, m.domain, m.id);
  }

  lemma PortLacks(cfg: Config, s: Proxy, m: Mapping, p: int)
    requires Unknown(cfg, s, m.id)
    ensures forall h, x :: Has(TableAt(cfg, s, p), h, x) ==> x.service != m.id
    ensures TableAt(cfg, s, p).fallback.Some? ==> TableAt(cfg, s, p).fallback.value.service != m.id
  {
    forall h, x | Has(TableAt(cfg, s, p), h, x) ensures x.service != m.id {
      assert Routed(cfg, s, p, h, x);
    }
    if TableAt(cfg, s, p).fallback.Some? {
      assert FallbackAt(cfg, s, p).Some?;
    }
  }

  lemma CustomPortEntry(cfg: Config, s: Proxy, p: int, m: Mapping)
    requires !IsMain(cfg, p) && p in s.ports
    ensures var t := CleanedTable(s.ports[p], m.domain, m.id);
      CleanupEntry(cfg, s, p, m.domain, m.id)
      == s.(ports := if IsEmpty(t) then s.ports - {p} else s.ports[p := t])
  {
    var t := CleanedTable(s.ports[p], m.domain, m.id);
    assert CleanupEntry(cfg, s, p, m.domain, m.id) == CleanupPortIfEmpty(cfg, s.(ports := s.ports[p := t]), p);
    if IsEmpty(t) {
      assert s.ports[p := t] - {p} == s.ports - {p};
    }
  }

  /** Re-visiting a port restores the router map exactly when it restores the port's table. */
  lemma PortMapRestored(cfg: Config, s: Proxy, p: int, t1: Table, t2: Table)
    requires NoEmptyRouters(cfg, s) && p != cfg.mainPort
    ensures (if IsEmpty(t2) then s.ports[p := t1] - {p} else s.ports[p := t1][p := t2]) == s.ports
            <==> t2 == TableAt(cfg, s, p)
  {
    var r := if IsEmpty(t2) then s.ports[p := t1] - {p} else s.ports[p := t1][p := t2];
    if IsEmpty(t2) {
      EmptyTableIsEMPTY(t2);
      if p !in s.ports { assert r == s.ports; }
    } else {
      assert r[p] == t2;
      if p in s.ports && t2 == s.ports[p] { assert r == s.ports; }
      if p !in s.ports { assert IsEmpty(EMPTY); }
    }
  }

  /** What a successful setup on a port amounts to. */
  ghost predicate OnPortShape(cfg: Config, s: Proxy, s2: Proxy, m: Mapping) {
    var p := m.listenPort;
    && ValidPort(p)
    && (if p == cfg.mainPort then s2.main == PlacedTable(m, s.main) && s2.ports == s.ports
        else s2.main == s.main && s2.ports == s.ports[p := PlacedTable(m, TableAt(cfg, s, p))])
    && s2.relays == s.relays && s2.last == s.last
    && s2.svcPorts == (if m.mode == MODE_TCP || p != cfg.mainPort then s.svcPorts[m.id := [p]] else s.svcPorts)
    && Release(s2, m.id).crowdsec == s.crowdsec && Release(s2, m.id).refs == s.refs
    && Release(s2, m.id).bouncer == s.bouncer
  }

  lemma PutShape(cfg: Config, s: Proxy, m: Mapping, env: Env)
    requires Base(cfg, s) && ValidPort(m.listenPort) && EnsureRouter(cfg, s, m.listenPort, env).Some?
    ensures var p := m.listenPort; var s1 := EnsureRouter(cfg, s, p, env).value;
      var sp := PutTable(cfg, s1, p, PlacedTable(m, TableOf(cfg, s1, p)));
      && sp == s.(main := sp.main, ports := sp.ports)
      && (if p == cfg.mainPort then sp.main == PlacedTable(m, s.main) && sp.ports == s.ports
          else sp.main == s.main && sp.ports == s.ports[p := PlacedTable(m, TableAt(cfg, s, p))])
  {
    var p := m.listenPort;
    if p != cfg.mainPort && p !in s.ports {
      assert s.ports[p := EMPTY][p := PlacedTable(m, EMPTY)] == s.ports[p := PlacedTable(m, EMPTY)];
    }
  }

  lemma PortSetupShape(cfg: Config, s: Proxy, m: Mapping, env: Env)
    requires Settled(cfg, s) && Unknown(cfg, s, m.id) && (m.mode == MODE_TCP || m.mode == MODE_TLS)
    requires Setup(cfg, s, m, env).1
    ensures OnPortShape(cfg, s, Setup(cfg, s, m, env).0, m)
  {
    var p := m.listenPort;
    var s1 := EnsureRouter(cfg, s, p, env).value;
    var sp := PutTable(cfg, s1, p, PlacedTable(m, TableOf(cfg, s1, p)));
    PutShape(cfg, s, m, env);
    var sa := Acquire(cfg, sp, m, env);
    assert Registered(sp);
    ReleaseAcquired(cfg, sp, m, env);
    var s2 := Setup(cfg, s, m, env).0;
    assert s2 == if m.mode == MODE_TCP || p != cfg.mainPort then sa.(svcPorts := sa.svcPorts[m.id := [p]]) else sa;
    ReleaseFrame(sa, s2, m.id);
  }

  lemma ShapeRest(cfg: Config, s: Proxy, s2: Proxy, m: Mapping)
    requires Unknown(cfg, s, m.id) && OnPortShape(cfg, s, s2, m)
    ensures s2.svcPorts - {m.id} == s.svcPorts
    ensures s2.relays - {m.id} == s.relays
    ensures GetOr(s2.svcPorts, m.id, []) ==
            if m.mode == MODE_TCP || m.listenPort != cfg.mainPort then [m.listenPort] else []
  {
  }

  lemma OneEntry(cfg: Config, s: Proxy, p: int, host: string, svc: string)
    ensures CleanupEntries(cfg, s, [p], host, svc) == CleanupEntry(cfg, s, p, host, svc)
  {
    assert [p][..0] == [];
    assert CleanupEntries(cfg, s, [p][..0], host, svc) == s;
  }

  lemma CustomPortIff(cfg: Config, s: Proxy, s2: Proxy, m: Mapping)
    requires Settled(cfg, s) && Unknown(cfg, s, m.id) && OnPortShape(cfg, s, s2, m)
    requires m.listenPort != cfg.mainPort
    ensures var t := TableAt(cfg, s, m.listenPort);
      Cleanup(cfg, s2, m) == s <==> UndoneTable(t, m) == t
  {
    var p := m.listenPort;
    var t := TableAt(cfg, s, p);
    CleanupParts(cfg, s2, m);
    ShapeRest(cfg, s, s2, m);
    assert DropMainRoute(s2, m) == s2 by { MainLacks(cfg, s, m); }
    var s4 := s2.(svcPorts := s.svcPorts);
    OneEntry(cfg, s4, p, m.domain, m.id);
    CustomPortEntry(cfg, s4, p, m);
    PortMapRestored(cfg, s, p, PlacedTable(m, t), UndoneTable(t, m));
  }

  lemma MainEntry(cfg: Config, s: Proxy, m: Mapping)
    ensures CleanupEntry(cfg, s, cfg.mainPort, m.domain, m.id)
            == s.(main := CleanedTable(s.main, m.domain, m.id))
  {
  }

  lemma MainPortIff(cfg: Config, s: Proxy, s2: Proxy, m: Mapping)
    requires Settled(cfg, s) && Unknown(cfg, s, m.id) && OnPortShape(cfg, s, s2, m)
    requires m.listenPort == cfg.mainPort && (m.mode == MODE_TCP || m.mode == MODE_TLS)
    ensures Cleanup(cfg, s2, m) == s <==>
            (m.mode == MODE_TCP ==> m.domain == "" && s.main.fallback == None)
  {
    CleanupParts(cfg, s2, m);
    ShapeRest(cfg, s, s2, m);
    var s3 := DropMainRoute(s2, m);
    var s4 := s3.(svcPorts := s.svcPorts);
    if m.mode == MODE_TCP {
      assert s3.main == SetFallback(s.main, RouteOf(m)) by {
        MainLacks(cfg, s, m);
        RemoveAbsent(SetFallback(s.main, RouteOf(m)), m.domain, m.id);
      }
      OneEntry(cfg, s4, cfg.mainPort, m.domain, m.id);
      MainEntry(cfg, s4, m);
      FallbackUndone(cfg, s, m);
    } else {
      assert s3.main == s.main by {
        MainLacks(cfg, s, m);
        RemoveAdded(s.main, m.domain, RouteOf(m));
      }
    }
  }

  lemma FallbackUndone(cfg: Config, s: Proxy, m: Mapping)
    requires Settled(cfg, s) && Unknown(cfg, s, m.id)
    ensures CleanedTable(SetFallback(s.main, RouteOf(m)), m.domain, m.id) == s.main
            <==> m.domain == "" && s.main.fallback == None
  {
    MainLacks(cfg, s, m);
    RemoveAbsent(SetFallback(s.main, RouteOf(m)), m.domain, m.id);
  }

  lemma PortIff(cfg: Config, s: Proxy, m: Mapping, env: Env)
    requires Settled(cfg, s) && Unknown(cfg, s, m.id) && (m.mode == MODE_TCP || m.mode == MODE_TLS)
    requires Succeeds(cfg, s, m, env)
    ensures Cleanup(cfg, Setup(cfg, s, m, env).0, m) == s <==> Reversible(cfg, s, m, env)
  {
    SetupSucceedsIff(cfg, s, m, env);
    PortSetupShape(cfg, s, m, env);
    var s2 := Setup(cfg, s, m, env).0;
    if m.listenPort == cfg.mainPort {
      MainPortIff(cfg, s, s2, m);
    } else {
      CustomPortIff(cfg, s, s2, m);
      PortLacks(cfg, s, m, m.listenPort);
      TableAtWellFormed(cfg, s, m.listenPort);
      UndoneTableIff(TableAt(cfg, s, m.listenPort), m);
    }
  }

  /** Setup followed by cleanup with the same mapping is the identity on a service the proxy
      did not know exactly when: a TCP mapping has no domain and finds no catch-all on its
      port, and a TLS mapping without a domain finds none either. Every failed setup is
      rolled back completely. */
  lemma SetupUndoneIff(cfg: Config, s: Proxy, m: Mapping, env: Env)
    requires Settled(cfg, s) && Unknown(cfg, s, m.id)
    ensures Cleanup(cfg, Setup(cfg, s, m, env).0, m) == s <==> Reversible(cfg, s, m, env)
  {
    if m.mode == MODE_UDP {
      UdpUndone(cfg, s, m, env);
    } else if m.mode != MODE_TCP && m.mode != MODE_TLS {
      HttpUndone(cfg, s, m, env);
    } else if !Succeeds(cfg, s, m, env) {
      SetupSucceedsIff(cfg, s, m, env);
      SetupPortShape(cfg, s, m, env);
      CleanupUnknown(cfg, s, m);
    } else {
      PortIff(cfg, s, m, env);
    }
  }

  /** A rejected CREATED for a new service leaves the proxy exactly as it was. */
  lemma FailedCreateIsRolledBack(cfg: Config, s: Proxy, m: Mapping, env: Env)
    requires Settled(cfg, s) && Unknown(cfg, s, m.id)
    requires !env.addPeerOk || !Succeeds(cfg, s, m, env)
    ensures AddMapping(cfg, s, m, env) == s
  {
    SetupSucceedsIff(cfg, s, m, env);
    if env.addPeerOk { SetupUndoneIff(cfg, s, m, env); }
  }

  /** CREATED then REMOVED returns to the previous state exactly for reversible mappings. */
  lemma CreateRemoveIff(cfg: Config, s: Proxy, m: Mapping, env: Env)
    requires Settled(cfg, s) && Unknown(cfg, s, m.id) && env.addPeerOk
    ensures RemoveMapping(cfg, AddMapping(cfg, s, m, env), m) == s <==> Reversible(cfg, s, m, env)
  {
    var (s1, ok) := Setup(cfg, s, m, env);
    SetupSucceedsIff(cfg, s, m, env);
    SetupUndoneIff(cfg, s, m, env);
    if ok {
      SetupKeepsLast(cfg, s, m, env);
      var s2 := AddMapping(cfg, s, m, env);
      assert s2.last - {m.id} == s.last;
      assert s2.(last := s2.last - {m.id}) == s1;
    } else {
      RemoveUnknown(cfg, s, m);
    }
  }

  /** States reached by admissible runs are settled, and services that are not stored are unknown. */
  lemma RunSettled(cfg: Config, steps: seq<Step>, svc: string)
    requires AdmissibleRun(cfg, steps)
    ensures Settled(cfg, Run(cfg, INIT, steps))
    ensures svc !in Run(cfg, INIT, steps).last ==> Unknown(cfg, Run(cfg, INIT, steps), svc)
  {
    RunSound(cfg, steps);
    RunTidy(cfg, steps);
    AdmissibleNoEmptyRouters(cfg, steps);
    NoOrphanRoutes(cfg, steps);
    var s := Run(cfg, INIT, steps);
    if svc !in s.last {
      forall p, h, x | Routed(cfg, s, p, h, x) ensures x.service != svc {
        assert OwnsRoute(cfg, s.last, p, h, x);
      }
      forall p | FallbackAt(cfg, s, p).Some? ensures FallbackAt(cfg, s, p).value.service != svc {
        assert OwnsFallback(cfg, s.last, p, FallbackAt(cfg, s, p).value);
      }
    }
  }
}
