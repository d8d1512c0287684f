/** Bookkeeping invariants of the mapping worker that hold with failures anywhere. */
module ProxyTidy {
  import opened Prelude
  import opened RouterTable
  import opened ProxyModel

  /** No per-port router is empty and none sits on the main port. */
  predicate NoEmptyRouters(cfg: Config, s: Proxy) {
    forall p :: p in s.ports ==> !IsMain(cfg, p) && !IsEmpty(s.ports[p])
  }

  /** The CrowdSec registry holds exactly the tracked services; the bouncer runs for them. */
  predicate Registered(s: Proxy) {
    s.refs == s.crowdsec && (s.bouncer <==> s.refs != {})
  }

  /** Side tables only mention stored services, `svc` possibly excepted. */
  predicate StoredExcept(s: Proxy, svc: string) {
    && s.svcPorts.Keys - {svc} <= s.last.Keys
    && s.relays.Keys - {svc} <= s.last.Keys
    && s.crowdsec - {svc} <= s.last.Keys
  }

  predicate Stored(s: Proxy) {
    && s.svcPorts.Keys <= s.last.Keys
    && s.relays.Keys <= s.last.Keys
    && s.crowdsec <= s.last.Keys
  }

  predicate Named(m: Mapping) {
    m.mode == MODE_TLS ==> m.domain != ""
  }

  /** No CREATED or MODIFIED update of a TLS service leaves the domain empty. */
  predicate TlsNamed(steps: seq<Step>) {
    forall i :: 0 <= i < |steps| && steps[i].update.kind != Removed ==> Named(steps[i].update.mapping)
  }

  // ------------------------------------------------------------------- cleanup

  lemma {:induction false} CleanupEntriesTidy(cfg: Config, s: Proxy, entries: seq<int>, host: string, svc: string)
    ensures var s' := CleanupEntries(cfg, s, entries, host, svc);
      && s' == s.(main := s'.main, ports := s'.ports)
      && (NoEmptyRouters(cfg, s) ==> NoEmptyRouters(cfg, s'))
  {
    if entries != [] {
      CleanupEntriesTidy(cfg, s, entries[..|entries| - 1], host, svc);
      CleanupEntryTidy(cfg, CleanupEntries(cfg, s, entries[..|entries| - 1], host, svc),
                       entries[|entries| - 1], host, svc);
    }
  }

  lemma CleanupEntryTidy(cfg: Config, s: Proxy, port: int, host: string, svc: string)
    ensures var s' := CleanupEntry(cfg, s, port, host, svc);
      && s' == s.(main := s'.main, ports := s'.ports)
      && (NoEmptyRouters(cfg, s) ==> NoEmptyRouters(cfg, s'))
  {
    if RouterExists(cfg, s, port) {
      var t := TableOf(cfg, s, port);
      var t' := if host != "" then RemoveRoute(t, host, svc) else RemoveFallback(t);
      var s1 := PutTable(cfg, s, port, t');
      assert CleanupEntry(cfg, s, port, host, svc) == CleanupPortIfEmpty(cfg, s1, port);
      PutThenDropTidy(cfg, s, port, t');
    }
  }

  lemma PutThenDropTidy(cfg: Config, s: Proxy, port: int, t: Table)
    ensures var s' := CleanupPortIfEmpty(cfg, PutTable(cfg, s, port, t), port);
      && s' == s.(main := s'.main, ports := s'.ports)
      && (NoEmptyRouters(cfg, s) ==> NoEmptyRouters(cfg, s'))
  {
  }

  lemma CleanupTidy(cfg: Config, s: Proxy, m: Mapping)
    requires Registered(s) && StoredExcept(s, m.id)
    ensures var s' := Cleanup(cfg, s, m);
      && Registered(s') && Stored(s') && s'.last == s.last
      && m.id !in s'.svcPorts && m.id !in s'.relays && m.id !in s'.crowdsec
      && (NoEmptyRouters(cfg, s) ==> NoEmptyRouters(cfg, s'))
  {
    var s1 := DropMainRoute(s, m);
    var entries := GetOr(s1.svcPorts, m.id, []);
    var s2 := s1.(svcPorts := s1.svcPorts - {m.id});
    CleanupEntriesTidy(cfg, s2, entries, m.domain, m.id);
    var s3 := CleanupEntries(cfg, s2, entries, m.domain, m.id);
    ReleaseTidy(s3.(relays := s3.relays - {m.id}), m.id);
  }

  lemma ReleaseTidy(s: Proxy, svc: string)
    requires Registered(s) && s.crowdsec - {svc} <= s.last.Keys
    ensures var s' := Release(s, svc);
      && s' == s.(crowdsec := s.crowdsec - {svc}, refs := s'.refs, bouncer := s'.bouncer)
      && Registered(s')
  {
  }

  // --------------------------------------------------------------------- setup

  lemma AcquireTidy(cfg: Config, s: Proxy, m: Mapping, env: Env)
    requires Registered(s)
    ensures var s' := Acquire(cfg, s, m, env);
      && s' == s.(crowdsec := s'.crowdsec, refs := s'.refs, bouncer := s'.bouncer)
      && Registered(s') && s'.crowdsec - {m.id} == s.crowdsec - {m.id}
  {
  }

  /** The table of the listen port after a TCP or TLS mapping has been placed on it. */
  function PlacedTable(m: Mapping, t: Table): Table {
    if m.mode == MODE_TCP then SetFallback(t, RouteOf(m)) else AddRoute(t, m.domain, RouteOf(m))
  }

  lemma PlacedTableNonEmpty(m: Mapping, t: Table)
    ensures m.mode == MODE_TCP || m.domain != "" ==> !IsEmpty(PlacedTable(m, t))
    ensures m.mode != MODE_TCP && m.domain == "" ==> PlacedTable(m, t) == t
  {
    LowerEmpty(m.domain);
    if m.mode != MODE_TCP && m.domain != "" {
      assert ToLower(m.domain) in PlacedTable(m, t).routes;
    }
  }

  lemma SetupPortShape(cfg: Config, s: Proxy, m: Mapping, env: Env)
    requires Registered(s) && (m.mode == MODE_TCP || m.mode == MODE_TLS)
    ensures var (s', ok) := Setup(cfg, s, m, env);
      var p := m.listenPort;
      && (ok <==> L4Accepts(cfg, m) && (RouterExists(cfg, s, p) || env.listenOk))
      && (!ok ==> s' == s)
      && (ok ==> var s1 := EnsureRouter(cfg, s, p, env).value;
           && s'.ports == PutTable(cfg, s1, p, PlacedTable(m, TableOf(cfg, s1, p))).ports
           && Registered(s') && s'.last == s.last && s'.relays == s.relays
           && s'.crowdsec - {m.id} == s.crowdsec - {m.id}
           && s'.svcPorts.Keys - {m.id} == s.svcPorts.Keys - {m.id})
  {
    var p := m.listenPort;
    if L4Accepts(cfg, m) && EnsureRouter(cfg, s, p, env).Some? {
      var s1 := EnsureRouter(cfg, s, p, env).value;
      AcquireTidy(cfg, PutTable(cfg, s1, p, PlacedTable(m, TableOf(cfg, s1, p))), m, env);
    }
  }

  lemma SetupPortTidy(cfg: Config, s: Proxy, m: Mapping, env: Env)
    requires Registered(s) && (m.mode == MODE_TCP || m.mode == MODE_TLS)
    ensures var (s', ok) := Setup(cfg, s, m, env);
      && Registered(s') && s'.last == s.last
      && (StoredExcept(s, m.id) ==> StoredExcept(s', m.id))
  {
    SetupPortShape(cfg, s, m, env);
  }

  /** Exactly when a setup on a port leaves an empty per-port router behind. */
  lemma SetupPortEmptyIff(cfg: Config, s: Proxy, m: Mapping, env: Env)
    requires Registered(s) && NoEmptyRouters(cfg, s) && (m.mode == MODE_TCP || m.mode == MODE_TLS)
    ensures NoEmptyRouters(cfg, Setup(cfg, s, m, env).0) <==>
            !(m.mode == MODE_TLS && m.domain == "" && Setup(cfg, s, m, env).1 && !RouterExists(cfg, s, m.listenPort))
  {
    SetupPortShape(cfg, s, m, env);
    var p := m.listenPort;
    if Setup(cfg, s, m, env).1 {
      var s1 := EnsureRouter(cfg, s, p, env).value;
      PlacedTableNonEmpty(m, TableOf(cfg, s1, p));
      PutTidy(cfg, s, p, PlacedTable(m, TableOf(cfg, s1, p)), Setup(cfg, s, m, env).0, env);
    }
  }

  lemma PutTidy(cfg: Config, s: Proxy, p: int, t: Table, s': Proxy, env: Env)
    requires NoEmptyRouters(cfg, s) && EnsureRouter(cfg, s, p, env).Some?
    requires s'.ports == PutTable(cfg, EnsureRouter(cfg, s, p, env).value, p, t).ports
    ensures NoEmptyRouters(cfg, s') <==> IsMain(cfg, p) || !IsEmpty(t)
  {
    if !IsMain(cfg, p) {
      assert p in s'.ports && s'.ports[p] == t;
    }
  }

  lemma SetupPortlessTidy(cfg: Config, s: Proxy, m: Mapping, env: Env)
    requires Registered(s) && StoredExcept(s, m.id) && m.mode != MODE_TCP && m.mode != MODE_TLS
    ensures var (s', ok) := Setup(cfg, s, m, env);
      Registered(s') && StoredExcept(s', m.id) && s'.last == s.last && s'.ports == s.ports
  {
    if m.mode == MODE_UDP {
      AcquireTidy(cfg, s.(relays := s.relays - {m.id}), m, env);
    } else {
      AcquireTidy(cfg, s.(main := AddRoute(s.main, m.domain, RouteOf(m))), m, env);
    }
  }

  lemma SetupTidy(cfg: Config, s: Proxy, m: Mapping, env: Env)
    requires Registered(s) && StoredExcept(s, m.id)
    ensures var (s', ok) := Setup(cfg, s, m, env);
      && Registered(s') && StoredExcept(s', m.id) && s'.last == s.last
      && (NoEmptyRouters(cfg, s) && Named(m) ==> NoEmptyRouters(cfg, s'))
  {
    if m.mode == MODE_TCP || m.mode == MODE_TLS {
      SetupPortTidy(cfg, s, m, env);
      if NoEmptyRouters(cfg, s) { SetupPortEmptyIff(cfg, s, m, env); }
    } else {
      SetupPortlessTidy(cfg, s, m, env);
    }
  }

  // ---------------------------------------------------------------- every step

  /** The port, relay and CrowdSec tables mention stored services only, each under its own id. */
  ghost predicate Tidy(s: Proxy) {
    Registered(s) && Stored(s) && forall k :: k in s.last ==> s.last[k].id == k
  }

  lemma InstallTidy(cfg: Config, s: Proxy, m: Mapping, env: Env)
    requires Tidy(s)
    ensures Tidy(Install(cfg, s, m, env))
    ensures NoEmptyRouters(cfg, s) && Named(m) ==> NoEmptyRouters(cfg, Install(cfg, s, m, env))
  {
    SetupTidy(cfg, s, m, env);
    var (s1, ok) := Setup(cfg, s, m, env);
    if !ok {
      CleanupTidy(cfg, s1, m);
    }
  }

  lemma ModifyTidy(cfg: Config, s: Proxy, m: Mapping, env: Env)
    requires Tidy(s)
    ensures Tidy(ModifyMapping(cfg, s, m, env))
    ensures NoEmptyRouters(cfg, s) && Named(m) ==> NoEmptyRouters(cfg, ModifyMapping(cfg, s, m, env))
  {
    CleanupTidy(cfg, s, GetOr(s.last, m.id, m));
    InstallTidy(cfg, Teardown(cfg, s, m), m, env);
  }

  lemma RemoveTidy(cfg: Config, s: Proxy, m: Mapping)
    requires Tidy(s)
    ensures Tidy(RemoveMapping(cfg, s, m))
    ensures NoEmptyRouters(cfg, s) ==> NoEmptyRouters(cfg, RemoveMapping(cfg, s, m))
  {
    CleanupTidy(cfg, s.(last := s.last - {m.id}), GetOr(s.last, m.id, m));
  }

  lemma ApplyTidy(cfg: Config, s: Proxy, u: Update, env: Env)
    requires Tidy(s)
    ensures Tidy(Apply(cfg, s, u, env))
    ensures NoEmptyRouters(cfg, s) && (u.kind != Removed ==> Named(u.mapping))
            ==> NoEmptyRouters(cfg, Apply(cfg, s, u, env))
  {
    match u.kind {
      case Created => InstallTidy(cfg, s, u.mapping, env);
      case Modified => ModifyTidy(cfg, s, u.mapping, env);
      case Removed => RemoveTidy(cfg, s, u.mapping);
    }
  }

  /** After any run of updates, with setups and peers failing anywhere, the port, relay and
      CrowdSec tables mention stored services only, the registry holds exactly the tracked
      services, and no per-port router is empty or sits on the main port. */
  lemma {:induction false} RunTidy(cfg: Config, steps: seq<Step>)
    ensures var s := Run(cfg, INIT, steps);
      && Tidy(s)
      && (TlsNamed(steps) ==> NoEmptyRouters(cfg, s))
  {
    if steps != [] {
      var front, step := steps[..|steps| - 1], steps[|steps| - 1];
      RunTidy(cfg, front);
      ApplyTidy(cfg, Run(cfg, INIT, front), step.update, step.env);
      if TlsNamed(steps) {
        assert TlsNamed(front);
      }
    }
  }

  // ----------------------------------------------------------------- who is registered

  /** The mapping asks for CrowdSec, CrowdSec is configured, and the setup gets as far as looking. */
  predicate Wants(cfg: Config, m: Mapping) {
    m.crowdsec && cfg.crowdsecAvailable
    && (m.mode == "tcp" || m.mode == "udp" || m.mode == "tls" || m.targets != [])
  }

  /** Exactly who is registered with CrowdSec afterwards: the service if `now`, all others as before. */
  ghost predicate RegistersOnly(s: Proxy, s': Proxy, svc: string, now: bool) {
    (svc in s'.crowdsec <==> now) && forall k :: k != svc ==> (k in s'.crowdsec <==> k in s.crowdsec)
  }

  lemma AcquireRegisters(cfg: Config, s: Proxy, m: Mapping, env: Env)
    requires Registered(s)
    ensures RegistersOnly(s, Acquire(cfg, s, m, env), m.id,
              m.id in s.crowdsec || (m.crowdsec && cfg.crowdsecAvailable && (s.crowdsec != {} || env.bouncerOk)))
  {
  }

  lemma SetupRegisters(cfg: Config, s: Proxy, m: Mapping, env: Env)
    requires Registered(s) && Succeeds(cfg, s, m, env)
    ensures RegistersOnly(s, Setup(cfg, s, m, env).0, m.id,
              m.id in s.crowdsec || (Wants(cfg, m) && (s.crowdsec != {} || env.bouncerOk)))
  {
    var p := m.listenPort;
    if m.mode == MODE_TCP || m.mode == MODE_TLS {
      var s1 := EnsureRouter(cfg, s, p, env).value;
      AcquireRegisters(cfg, PutTable(cfg, s1, p, PlacedTable(m, TableOf(cfg, s1, p))), m, env);
    } else if m.mode == MODE_UDP {
      AcquireRegisters(cfg, s.(relays := s.relays - {m.id}), m, env);
    } else {
      AcquireRegisters(cfg, s.(main := AddRoute(s.main, m.domain, RouteOf(m))), m, env);
    }
  }

  lemma CleanupRegisters(cfg: Config, s: Proxy, m: Mapping)
    requires Registered(s)
    ensures RegistersOnly(s, Cleanup(cfg, s, m), m.id, false)
  {
    var s1 := DropMainRoute(s, m);
    CleanupEntriesTidy(cfg, s1.(svcPorts := s1.svcPorts - {m.id}), GetOr(s1.svcPorts, m.id, []), m.domain, m.id);
  }

  /** Installing registers the service exactly when it succeeds and the service was registered
      already, or asks for CrowdSec and the bouncer runs for another service or starts. */
  lemma InstallRegisters(cfg: Config, s: Proxy, m: Mapping, env: Env)
    requires Registered(s)
    ensures RegistersOnly(s, Install(cfg, s, m, env), m.id,
              Succeeds(cfg, s, m, env)
              && (m.id in s.crowdsec || (Wants(cfg, m) && (s.crowdsec != {} || env.bouncerOk))))
  {
    SetupSucceedsIff(cfg, s, m, env);
    if Succeeds(cfg, s, m, env) {
      SetupRegisters(cfg, s, m, env);
    } else {
      FailedSetupRegisters(cfg, s, m, env);
      CleanupRegisters(cfg, Setup(cfg, s, m, env).0, m);
    }
  }

  lemma FailedSetupRegisters(cfg: Config, s: Proxy, m: Mapping, env: Env)
    requires Registered(s) && !Succeeds(cfg, s, m, env)
    ensures var s' := Setup(cfg, s, m, env).0; Registered(s') && forall k :: k != m.id ==> (k in s'.crowdsec <==> k in s.crowdsec)
  {
    if m.mode != MODE_TCP && m.mode != MODE_TLS && m.mode != MODE_UDP {
      var s1 := s.(main := AddRoute(s.main, m.domain, RouteOf(m)));
      AcquireTidy(cfg, s1, m, env);
      AcquireRegisters(cfg, s1, m, env);
    }
  }

  /** Which service an update leaves registered: a removal nobody, a CREATED whose peer cannot be added
      whoever was, a CREATED that succeeds also a service that was registered before, and both a
      CREATED and a MODIFIED that succeed one that asks for it, if the bouncer runs or starts. */
  lemma ApplyRegisters(cfg: Config, s: Proxy, u: Update, env: Env)
    requires Tidy(s)
    ensures var m := u.mapping;
      RegistersOnly(s, Apply(cfg, s, u, env), m.id,
        match u.kind
        case Created =>
          if !env.addPeerOk then m.id in s.crowdsec
          else Succeeds(cfg, s, m, env)
               && (m.id in s.crowdsec || (Wants(cfg, m) && (s.crowdsec != {} || env.bouncerOk)))
        case Modified =>
          Succeeds(cfg, Teardown(cfg, s, m), m, env) && Wants(cfg, m) && (s.crowdsec - {m.id} != {} || env.bouncerOk)
        case Removed => false)
  {
    var m := u.mapping;
    match u.kind {
      case Created => InstallRegisters(cfg, s, m, env);
      case Modified =>
        var s1 := Teardown(cfg, s, m);
        CleanupRegisters(cfg, s, GetOr(s.last, m.id, m));
        CleanupTidy(cfg, s, GetOr(s.last, m.id, m));
        assert s1.crowdsec == s.crowdsec - {m.id};
        InstallRegisters(cfg, s1, m, env);
      case Removed => CleanupRegisters(cfg, s.(last := s.last - {m.id}), GetOr(s.last, m.id, m));
    }
  }

  /** Exactly when a setup leaves an empty per-port router behind: a TLS mapping without a
      domain that opens a new port. */
  lemma EmptyRouterIff(cfg: Config, s: Proxy, m: Mapping, env: Env)
    requires Registered(s) && Stored(s) && NoEmptyRouters(cfg, s)
    ensures NoEmptyRouters(cfg, Setup(cfg, s, m, env).0) <==>
            !(m.mode == MODE_TLS && m.domain == "" && L4Accepts(cfg, m)
              && !RouterExists(cfg, s, m.listenPort) && env.listenOk)
  {
    if m.mode == MODE_TCP || m.mode == MODE_TLS {
      SetupPortEmptyIff(cfg, s, m, env);
      SetupPortShape(cfg, s, m, env);
    } else {
      SetupTidy(cfg, s, m, env);
    }
  }
}
