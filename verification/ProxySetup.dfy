/** What setting up a mapping does to the routing state, on success and on failure. */
module ProxySetup {
  import opened Prelude
  import opened RouterTable
  import opened ProxyModel
  import opened ProxyRouting

  /** The mapping's footprint, and only that, has been written. */
  ghost predicate Placed(cfg: Config, s: Proxy, s': Proxy, m: Mapping) {
    var f := Foot(cfg, m);
    && (forall p, h, x :: Routed(cfg, s', p, h, x) <==>
          if f == Sni(p, h) then x == RouteOf(m) || (Routed(cfg, s, p, h, x) && x.service != m.id)
          else Routed(cfg, s, p, h, x))
    && (forall p :: FallbackAt(cfg, s', p) ==
          if f == CatchAll(p) then Some(RouteOf(m)) else FallbackAt(cfg, s, p))
    && s'.relays == (if f == Datagram then s.relays[m.id := RelayOf(m)] else s.relays)
    && s'.svcPorts == (if Tracked(cfg, f) != [] then s.svcPorts[m.id := Tracked(cfg, f)] else s.svcPorts)
    && s'.last == s.last
  }

  /** A failed setup may replace its own service's route at the new mapping's place on the main
      port, nothing else. */
  ghost predicate Disturbed(cfg: Config, s: Proxy, s': Proxy, m: Mapping) {
    && (forall p, h, x: Route :: x.service != m.id ==> (Routed(cfg, s', p, h, x) <==> Routed(cfg, s, p, h, x)))
    && (forall p, h, x: Route :: x.service == m.id && Routed(cfg, s', p, h, x) ==>
          Routed(cfg, s, p, h, x) || (Foot(cfg, m) == Sni(p, h) && p == cfg.mainPort))
    && (forall p, h, x: Route :: x.service == m.id && Routed(cfg, s, p, h, x) ==>
          Routed(cfg, s', p, h, x) || (Foot(cfg, m) == Sni(p, h) && p == cfg.mainPort))
    && (forall p :: FallbackAt(cfg, s', p) == FallbackAt(cfg, s, p))
    && (s'.relays == s.relays || s'.relays == s.relays - {m.id})
    && s'.svcPorts == s.svcPorts
    && s'.last == s.last
  }

  lemma AcquireFrame(cfg: Config, s: Proxy, m: Mapping, env: Env)
    ensures var s' := Acquire(cfg, s, m, env);
      s' == s.(crowdsec := s'.crowdsec, refs := s'.refs, bouncer := s'.bouncer)
  {
  }

  lemma AddRouteAt(cfg: Config, s: Proxy, s': Proxy, port: int, m: Mapping)
    requires Base(cfg, s) && (ValidPort(port) || port == cfg.mainPort)
    requires m.domain != ""
    requires s' == if port == cfg.mainPort then s.(main := AddRoute(s.main, m.domain, RouteOf(m)))
                   else PutTable(cfg, s, port, AddRoute(TableAt(cfg, s, port), m.domain, RouteOf(m)))
    ensures
      && Base(cfg, s')
      && s' == s.(main := s'.main, ports := s'.ports)
      && (forall p, h, x :: Routed(cfg, s', p, h, x) <==>
            if p == port && h == ToLower(m.domain)
            then x == RouteOf(m) || (Routed(cfg, s, p, h, x) && x.service != m.id)
            else Routed(cfg, s, p, h, x))
      && (forall p :: FallbackAt(cfg, s', p) == FallbackAt(cfg, s, p))
  {
    var t := AddRoute(TableAt(cfg, s, port), m.domain, RouteOf(m));
    AddRouteHas(TableAt(cfg, s, port), m.domain, RouteOf(m));
    if port != cfg.mainPort {
      PutTableTables(cfg, s, port, t);
    }
    forall p, h, x ensures Routed(cfg, s', p, h, x) <==>
            if p == port && h == ToLower(m.domain)
            then x == RouteOf(m) || (Routed(cfg, s, p, h, x) && x.service != m.id)
            else Routed(cfg, s, p, h, x)
    {
      assert RouteOf(m).service == m.id;
      if p == port {
        assert TableAt(cfg, s', p) == t;
      }
    }
  }

  /** Rewrites the effect of one AddRoute as a placed SNI footprint. */
  lemma PlacedSni(cfg: Config, s: Proxy, s1: Proxy, s': Proxy, port: int, m: Mapping)
    requires Foot(cfg, m) == Sni(port, ToLower(m.domain))
    requires forall p, h, x :: Routed(cfg, s1, p, h, x) <==>
               if p == port && h == ToLower(m.domain)
               then x == RouteOf(m) || (Routed(cfg, s, p, h, x) && x.service != m.id)
               else Routed(cfg, s, p, h, x)
    requires forall p :: FallbackAt(cfg, s1, p) == FallbackAt(cfg, s, p)
    requires s'.main == s1.main && s'.ports == s1.ports
    requires s'.relays == s.relays && s'.last == s.last
    requires s'.svcPorts == if port != cfg.mainPort then s.svcPorts[m.id := [port]] else s.svcPorts
    ensures Placed(cfg, s, s', m)
  {
    SameTables(cfg, s1, s');
    var f := Foot(cfg, m);
    forall p, h, x ensures Routed(cfg, s', p, h, x) <==>
          if f == Sni(p, h) then x == RouteOf(m) || (Routed(cfg, s, p, h, x) && x.service != m.id)
          else Routed(cfg, s, p, h, x)
    {
      assert f == Sni(p, h) <==> p == port && h == ToLower(m.domain);
      assert Routed(cfg, s', p, h, x) <==> Routed(cfg, s1, p, h, x);
    }
  }

  /** A placed SNI footprint on the main port disturbs only its own service. */
  lemma PlacedSniDisturbs(cfg: Config, s: Proxy, s': Proxy, m: Mapping)
    requires Foot(cfg, m).Sni? && Foot(cfg, m).port == cfg.mainPort && Placed(cfg, s, s', m)
    ensures Disturbed(cfg, s, s', m)
  {
    assert RouteOf(m).service == m.id;
  }

  lemma SetupHttpEffect(cfg: Config, s: Proxy, m: Mapping, env: Env)
    requires Base(cfg, s) && m.mode != MODE_TCP && m.mode != MODE_UDP && m.mode != MODE_TLS
    ensures var (s', ok) := SetupHttp(cfg, s, m, env);
      Base(cfg, s') && if ok then Placed(cfg, s, s', m) else Disturbed(cfg, s, s', m)
  {
    if m.targets != [] {
      var s1 := s.(main := AddRoute(s.main, m.domain, RouteOf(m)));
      var s2 := Acquire(cfg, s1, m, env);
      AcquireFrame(cfg, s1, m, env);
      SameTables(cfg, s1, s2);
      if m.domain == "" {
        LowerEmpty(m.domain);
        assert s1 == s;
      } else {
        AddRouteAt(cfg, s, s1, cfg.mainPort, m);
        PlacedSni(cfg, s, s1, s2, cfg.mainPort, m);
        PlacedSniDisturbs(cfg, s, s2, m);
      }
    }
  }

  lemma SetupTcpEffect(cfg: Config, s: Proxy, m: Mapping, env: Env)
    requires Base(cfg, s) && m.mode == MODE_TCP
    ensures var (s', ok) := SetupTcp(cfg, s, m, env);
      Base(cfg, s') && if ok then L4Accepts(cfg, m) && Placed(cfg, s, s', m) else Disturbed(cfg, s, s', m)
  {
    if L4Accepts(cfg, m) && EnsureRouter(cfg, s, m.listenPort, env).Some? {
      var s1 := EnsureRouter(cfg, s, m.listenPort, env).value;
      EnsureRouterTables(cfg, s, m.listenPort, env);
      var t := SetFallback(TableOf(cfg, s1, m.listenPort), RouteOf(m));
      TableAtWellFormed(cfg, s, m.listenPort);
      PutTableTables(cfg, s1, m.listenPort, t);
      var s2 := PutTable(cfg, s1, m.listenPort, t);
      AcquireFrame(cfg, s2, m, env);
      SameTables(cfg, s2, SetupTcp(cfg, s, m, env).0);
    }
  }

  lemma SetupTlsEffect(cfg: Config, s: Proxy, m: Mapping, env: Env)
    requires Base(cfg, s) && m.mode == MODE_TLS && m.domain != ""
    ensures var (s', ok) := SetupTls(cfg, s, m, env);
      Base(cfg, s') && if ok then L4Accepts(cfg, m) && Placed(cfg, s, s', m) else Disturbed(cfg, s, s', m)
  {
    if L4Accepts(cfg, m) && EnsureRouter(cfg, s, m.listenPort, env).Some? {
      var s1 := EnsureRouter(cfg, s, m.listenPort, env).value;
      EnsureRouterTables(cfg, s, m.listenPort, env);
      var t := AddRoute(TableAt(cfg, s1, m.listenPort), m.domain, RouteOf(m));
      var s2 := PutTable(cfg, s1, m.listenPort, t);
      AddRouteAt(cfg, s1, s2, m.listenPort, m);
      forall p, h, x ensures Routed(cfg, s2, p, h, x) <==>
               if p == m.listenPort && h == ToLower(m.domain)
               then x == RouteOf(m) || (Routed(cfg, s, p, h, x) && x.service != m.id)
               else Routed(cfg, s, p, h, x)
      {
        assert Routed(cfg, s1, p, h, x) <==> Routed(cfg, s, p, h, x);
      }
      AcquireFrame(cfg, s2, m, env);
      var s3 := SetupTls(cfg, s, m, env).0;
      SameTables(cfg, s2, s3);
      PlacedSni(cfg, s, s2, s3, m.listenPort, m);
    }
  }

  lemma SetupUdpEffect(cfg: Config, s: Proxy, m: Mapping, env: Env)
    requires Base(cfg, s) && m.mode == MODE_UDP
    ensures var (s', ok) := SetupUdp(cfg, s, m, env);
      Base(cfg, s') && if ok then L4Accepts(cfg, m) && Placed(cfg, s, s', m) else Disturbed(cfg, s, s', m)
  {
    if L4Accepts(cfg, m) {
      var s1 := s.(relays := s.relays - {m.id});
      AcquireFrame(cfg, s1, m, env);
      SameTables(cfg, s, SetupUdp(cfg, s, m, env).0);
    }
  }

  /** On success the footprint and nothing else is written; on failure only the service's
      own state can have changed. */
  lemma SetupEffect(cfg: Config, s: Proxy, m: Mapping, env: Env)
    requires Base(cfg, s) && Addressed(m)
    ensures var (s', ok) := Setup(cfg, s, m, env);
      && Base(cfg, s')
      && (if ok then Placed(cfg, s, s', m) else Disturbed(cfg, s, s', m))
      && (ok && Tracked(cfg, Foot(cfg, m)) != [] ==> ValidPort(m.listenPort))
  {
    if m.mode == MODE_TCP {
      SetupTcpEffect(cfg, s, m, env);
    } else if m.mode == MODE_UDP {
      SetupUdpEffect(cfg, s, m, env);
    } else if m.mode == MODE_TLS {
      SetupTlsEffect(cfg, s, m, env);
    } else {
      SetupHttpEffect(cfg, s, m, env);
    }
  }

  // ------------------------------------------------- consequences for soundness

  lemma PlacedSound(cfg: Config, s: Proxy, s': Proxy, up: Live, m: Mapping)
    requires Addressed(m) && SoundExcept(cfg, s, up, m.id, Foot(cfg, m))
    requires Placed(cfg, s, s', m)
    requires Tracked(cfg, Foot(cfg, m)) != [] ==> ValidPort(m.listenPort)
    ensures Sound(cfg, s', up[m.id := m])
  {
    var up' := up[m.id := m];
    var f := Foot(cfg, m);
    assert RouteOf(m).service == m.id;
    forall p, h, x | Routed(cfg, s', p, h, x) ensures OwnsRoute(cfg, up', p, h, x) {
      if f == Sni(p, h) && x == RouteOf(m) {
      } else {
        assert Routed(cfg, s, p, h, x) && x.service != m.id;
        assert OwnsRoute(cfg, up, p, h, x);
      }
    }
    forall p | FallbackAt(cfg, s', p).Some? ensures OwnsFallback(cfg, up', p, FallbackAt(cfg, s', p).value) {
      if f != CatchAll(p) {
        assert FallbackAt(cfg, s, p).Some?;
      }
    }
    PlacedSoundTables(cfg, s, s', up, m);
  }

  lemma PlacedSoundTables(cfg: Config, s: Proxy, s': Proxy, up: Live, m: Mapping)
    requires Addressed(m) && Keyed(cfg, up)
    requires RelaysExcept(cfg, s, up, m.id, Foot(cfg, m)) && PortsExcept(cfg, s, up, m.id, Foot(cfg, m))
    requires var f := Foot(cfg, m);
      && s'.relays == (if f == Datagram then s.relays[m.id := RelayOf(m)] else s.relays)
      && s'.svcPorts == (if Tracked(cfg, f) != [] then s.svcPorts[m.id := Tracked(cfg, f)] else s.svcPorts)
    requires Tracked(cfg, Foot(cfg, m)) != [] ==> ValidPort(m.listenPort)
    ensures Keyed(cfg, up[m.id := m])
    ensures SoundRelays(cfg, s', up[m.id := m]) && SoundPorts(cfg, s', up[m.id := m])
  {
    PlacedSoundRelays(cfg, s, s', up, m);
    PlacedSoundPorts(cfg, s, s', up, m);
  }

  lemma PlacedSoundRelays(cfg: Config, s: Proxy, s': Proxy, up: Live, m: Mapping)
    requires Addressed(m) && Keyed(cfg, up) && RelaysExcept(cfg, s, up, m.id, Foot(cfg, m))
    requires s'.relays == (if Foot(cfg, m) == Datagram then s.relays[m.id := RelayOf(m)] else s.relays)
    ensures SoundRelays(cfg, s', up[m.id := m])
  {
    var up' := up[m.id := m];
    forall k | k in s'.relays ensures OwnsRelay(cfg, up', k, s'.relays[k]) {
      if k != m.id {
        assert k in s.relays;
      }
    }
  }

  lemma PlacedSoundPorts(cfg: Config, s: Proxy, s': Proxy, up: Live, m: Mapping)
    requires Addressed(m) && Keyed(cfg, up) && PortsExcept(cfg, s, up, m.id, Foot(cfg, m))
    requires var f := Foot(cfg, m);
      s'.svcPorts == (if Tracked(cfg, f) != [] then s.svcPorts[m.id := Tracked(cfg, f)] else s.svcPorts)
    requires Tracked(cfg, Foot(cfg, m)) != [] ==> ValidPort(m.listenPort)
    ensures SoundPorts(cfg, s', up[m.id := m])
  {
    var up' := up[m.id := m];
    forall k ensures k in s'.svcPorts <==> k in up' && Tracked(cfg, Foot(cfg, up'[k])) != [] {
      if k != m.id {
        assert k in s'.svcPorts <==> k in s.svcPorts;
      }
    }
    forall k | k in s'.svcPorts ensures s'.svcPorts[k] == Tracked(cfg, Foot(cfg, up'[k])) {
      if k != m.id {
        assert k in s.svcPorts;
      }
    }
  }

  lemma PlacedComplete(cfg: Config, s: Proxy, s': Proxy, up: Live, m: Mapping)
    requires Keyed(cfg, up) && Placed(cfg, s, s', m)
    requires CompleteExcept(cfg, s, up, m.id) && SoleCatchAll(cfg, up, m.id, Foot(cfg, m))
    ensures Complete(cfg, s', up[m.id := m])
  {
    var up' := up[m.id := m];
    forall k | k in up' ensures Installed(cfg, s', up'[k]) {
      if k != m.id {
        assert Installed(cfg, s, up[k]);
        assert RouteOf(up[k]).service == k;
      }
    }
  }

  lemma DisturbedSound(cfg: Config, s: Proxy, s': Proxy, up: Live, m: Mapping, f: Footprint)
    requires SoundExcept(cfg, s, up, m.id, f) && Disturbed(cfg, s, s', m)
    requires Foot(cfg, m).Sni? ==> f == Foot(cfg, m)
    ensures SoundExcept(cfg, s', up, m.id, f)
  {
    assert RoutesExcept(cfg, s', up, m.id, f);
    assert FallbacksExcept(cfg, s', up, m.id, f);
    assert RelaysExcept(cfg, s', up, m.id, f);
    assert PortsExcept(cfg, s', up, m.id, f);
  }

  lemma DisturbedComplete(cfg: Config, s: Proxy, s': Proxy, up: Live, m: Mapping)
    requires Keyed(cfg, up) && CompleteExcept(cfg, s, up, m.id) && Disturbed(cfg, s, s', m)
    ensures CompleteExcept(cfg, s', up, m.id)
  {
    forall k | k in up && k != m.id ensures Installed(cfg, s', up[k]) {
      assert Installed(cfg, s, up[k]);
      assert RouteOf(up[k]).service == k;
    }
  }
}
