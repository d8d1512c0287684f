/** Exact routing: what the routers hold is determined by the live mappings alone, what a
    connection is dispatched to, and exactly which updates are reversible. */
module ProxyExact {
  import opened Prelude
  import opened RouterTable
  import opened ProxyModel
  import opened ProxyRouting
  import opened ProxySetup
  import opened ProxyTheorems
  import opened ProxyTidy

  /** The footprint needs a router on port `p`. */
  predicate OnPort(f: Footprint, p: int) {
    (f.Sni? && f.port == p) || (f.CatchAll? && f.port == p)
  }

  /** Same routers, catch-alls, relays and tracked ports; per host the same set of routes. */
  ghost predicate SameRouting(cfg: Config, s: Proxy, s': Proxy) {
    && s.ports.Keys == s'.ports.Keys
    && s.relays == s'.relays
    && s.svcPorts == s'.svcPorts
    && (forall p :: FallbackAt(cfg, s, p) == FallbackAt(cfg, s', p))
    && (forall p, h, x :: Routed(cfg, s, p, h, x) <==> Routed(cfg, s', p, h, x))
  }

  /** A per-port router exists exactly for the ports that live services need. */
  lemma PortsExact(cfg: Config, s: Proxy, up: Live, p: int)
    requires Exact(cfg, s, up) && NoEmptyRouters(cfg, s)
    ensures p in s.ports <==> p != cfg.mainPort && exists k :: k in up && OnPort(Foot(cfg, up[k]), p)
  {
    if p in s.ports {
      EmptyIff(s.ports[p]);
      if FallbackAt(cfg, s, p).Some? {
        assert OwnsFallback(cfg, up, p, FallbackAt(cfg, s, p).value);
      } else {
        var h, x :| Has(s.ports[p], h, x);
        assert Routed(cfg, s, p, h, x);
        assert OwnsRoute(cfg, up, p, h, x);
      }
    }
  }

  lemma ExactRoute(cfg: Config, s: Proxy, up: Live, p: int, h: string, x: Route)
    requires Exact(cfg, s, up)
    ensures Routed(cfg, s, p, h, x) <==> OwnsRoute(cfg, up, p, h, x)
  {
    if OwnsRoute(cfg, up, p, h, x) {
      assert Installed(cfg, s, up[x.service]);
    }
  }

  lemma ExactFallback(cfg: Config, s: Proxy, up: Live, p: int, x: Route)
    requires Exact(cfg, s, up)
    ensures FallbackAt(cfg, s, p) == Some(x) <==> OwnsFallback(cfg, up, p, x)
  {
    if OwnsFallback(cfg, up, p, x) {
      assert Installed(cfg, s, up[x.service]);
    }
  }

  lemma ExactRelay(cfg: Config, s: Proxy, up: Live, k: string)
    requires Exact(cfg, s, up)
    ensures k in s.relays <==> k in up && Foot(cfg, up[k]) == Datagram
    ensures k in s.relays ==> s.relays[k] == RelayOf(up[k])
  {
    if k in up && Foot(cfg, up[k]) == Datagram {
      assert Installed(cfg, s, up[k]);
    }
  }

  /** The live mappings determine the whole routing state. */
  lemma ExactDetermines(cfg: Config, s: Proxy, s': Proxy, up: Live)
    requires Exact(cfg, s, up) && NoEmptyRouters(cfg, s)
    requires Exact(cfg, s', up) && NoEmptyRouters(cfg, s')
    ensures SameRouting(cfg, s, s')
  {
    forall p ensures p in s.ports <==> p in s'.ports {
      PortsExact(cfg, s, up, p);
      PortsExact(cfg, s', up, p);
    }
    forall k ensures k in s.relays <==> k in s'.relays
             ensures k in s.relays ==> s.relays[k] == s'.relays[k]
    {
      ExactRelay(cfg, s, up, k);
      ExactRelay(cfg, s', up, k);
    }
    forall p ensures FallbackAt(cfg, s, p) == FallbackAt(cfg, s', p) {
      if FallbackAt(cfg, s, p).Some? {
        ExactFallback(cfg, s, up, p, FallbackAt(cfg, s, p).value);
        ExactFallback(cfg, s', up, p, FallbackAt(cfg, s, p).value);
      } else if FallbackAt(cfg, s', p).Some? {
        ExactFallback(cfg, s, up, p, FallbackAt(cfg, s', p).value);
        ExactFallback(cfg, s', up, p, FallbackAt(cfg, s', p).value);
      }
    }
    forall p, h, x ensures Routed(cfg, s, p, h, x) <==> Routed(cfg, s', p, h, x) {
      ExactRoute(cfg, s, up, p, h, x);
      ExactRoute(cfg, s', up, p, h, x);
    }
  }

  lemma {:induction false} AdmissibleNoEmptyRouters(cfg: Config, steps: seq<Step>)
    requires AdmissibleRun(cfg, steps)
    ensures NoEmptyRouters(cfg, Run(cfg, INIT, steps))
  {
    if steps != [] {
      var front, step := steps[..|steps| - 1], steps[|steps| - 1];
      AdmissibleNoEmptyRouters(cfg, front);
      RunTidy(cfg, front);
      var s, u := Run(cfg, INIT, front), step.update;
      if u.kind == Removed {
        CleanupTidy(cfg, s.(last := s.last - {u.mapping.id}), GetOr(s.last, u.mapping.id, u.mapping));
      } else {
        ApplyTidy(cfg, s, u, step.env);
      }
    }
  }

  /** Two runs that leave the same services up leave the same routing state, whatever the
      updates were, in whatever order they came, and wherever setups failed on the way. */
  lemma OrderIndependent(cfg: Config, steps: seq<Step>, steps': seq<Step>)
    requires AdmissibleRun(cfg, steps) && UnsharedRun(cfg, steps)
    requires AdmissibleRun(cfg, steps') && UnsharedRun(cfg, steps')
    requires LiveRun(cfg, INIT, map[], steps) == LiveRun(cfg, INIT, map[], steps')
    ensures SameRouting(cfg, Run(cfg, INIT, steps), Run(cfg, INIT, steps'))
  {
    RunExact(cfg, steps);
    RunExact(cfg, steps');
    AdmissibleNoEmptyRouters(cfg, steps);
    AdmissibleNoEmptyRouters(cfg, steps');
    ExactDetermines(cfg, Run(cfg, INIT, steps), Run(cfg, INIT, steps'), LiveRun(cfg, INIT, map[], steps));
  }

  // ------------------------------------------------------------------- dispatch

  /** The route that a connection to port `p` with server name `h` is relayed by. */
  function Dispatch(cfg: Config, s: Proxy, p: int, h: string): Option<Route> {
    match Lookup(TableAt(cfg, s, p), h)
    case Some(r) => Some(r)
    case None => FallbackAt(cfg, s, p)
  }

  ghost predicate Claims(cfg: Config, up: Live, k: string, p: int, h: string) {
    k in up && Foot(cfg, up[k]) == Sni(p, h)
  }

  /** Connections go to a live service that claims the name on that port, to an HTTP one if
      there is any, and to the port's catch-all exactly when no live service claims it. */
  lemma DispatchExact(cfg: Config, steps: seq<Step>, p: int, h: string)
    requires AdmissibleRun(cfg, steps) && UnsharedRun(cfg, steps)
    ensures var s, up := Run(cfg, INIT, steps), LiveRun(cfg, INIT, map[], steps);
      if exists k :: Claims(cfg, up, k, p, h) then
        && Dispatch(cfg, s, p, h).Some?
        && var r := Dispatch(cfg, s, p, h).value;
        && Claims(cfg, up, r.service, p, h) && r == RouteOf(up[r.service])
        && ((exists k :: Claims(cfg, up, k, p, h) && RouteOf(up[k]).kind == RouteHTTP) ==> r.kind == RouteHTTP)
      else
        && Dispatch(cfg, s, p, h) == FallbackAt(cfg, s, p)
        && (forall k :: k in up && Foot(cfg, up[k]) == CatchAll(p) ==> Dispatch(cfg, s, p, h) == Some(RouteOf(up[k])))
  {
    RunExact(cfg, steps);
    DispatchInExact(cfg, Run(cfg, INIT, steps), LiveRun(cfg, INIT, map[], steps), p, h);
  }

  lemma DispatchInExact(cfg: Config, s: Proxy, up: Live, p: int, h: string)
    requires Exact(cfg, s, up)
    ensures
      if exists k :: Claims(cfg, up, k, p, h) then
        && Dispatch(cfg, s, p, h).Some?
        && var r := Dispatch(cfg, s, p, h).value;
        && Claims(cfg, up, r.service, p, h) && r == RouteOf(up[r.service])
        && ((exists k :: Claims(cfg, up, k, p, h) && RouteOf(up[k]).kind == RouteHTTP) ==> r.kind == RouteHTTP)
      else
        && Dispatch(cfg, s, p, h) == FallbackAt(cfg, s, p)
        && (forall k :: k in up && Foot(cfg, up[k]) == CatchAll(p) ==> Dispatch(cfg, s, p, h) == Some(RouteOf(up[k])))
  {
    assert NamedComplete(cfg, s, up);
    DispatchNamed(cfg, s, up, p, h);
    if !exists k :: Claims(cfg, up, k, p, h) {
      UnclaimedFallsBack(cfg, s, up, p, h);
      forall k | k in up && Foot(cfg, up[k]) == CatchAll(p) ensures Dispatch(cfg, s, p, h) == Some(RouteOf(up[k])) {
        assert Installed(cfg, s, up[k]);
      }
    }
  }

  lemma UnclaimedFallsBack(cfg: Config, s: Proxy, up: Live, p: int, h: string)
    requires Inv(cfg, s, up) && !exists k :: Claims(cfg, up, k, p, h)
    ensures Dispatch(cfg, s, p, h) == FallbackAt(cfg, s, p)
  {
    var t := TableAt(cfg, s, p);
    TableAtWellFormed(cfg, s, p);
    if h in t.routes {
      var x := t.routes[h][0];
      assert Routed(cfg, s, p, h, x);
      assert Claims(cfg, up, x.service, p, h);
    }
  }

  // ------------------------------------------------ runs in which catch-alls are shared

  /** Every live service other than a catch-all one is installed. */
  ghost predicate NamedComplete(cfg: Config, s: Proxy, up: Live) {
    forall k :: k in up && !Foot(cfg, up[k]).CatchAll? ==> Installed(cfg, s, up[k])
  }

  ghost predicate NamedExcept(cfg: Config, s: Proxy, up: Live, svc: string) {
    forall k :: k in up && k != svc && !Foot(cfg, up[k]).CatchAll? ==> Installed(cfg, s, up[k])
  }

  lemma CleanupNamed(cfg: Config, s: Proxy, up: Live, m: Mapping)
    requires Base(cfg, s) && OnePort(s, m.id) && Keyed(cfg, up) && NamedExcept(cfg, s, up, m.id)
    ensures NamedComplete(cfg, Cleanup(cfg, s, m), up - {m.id})
  {
    CleanupCleans(cfg, s, m);
    forall k | k in up - {m.id} && !Foot(cfg, up[k]).CatchAll? ensures Installed(cfg, Cleanup(cfg, s, m), up[k]) {
      assert Installed(cfg, s, up[k]);
      assert RouteOf(up[k]).service == k;
    }
  }

  lemma PlacedNamed(cfg: Config, s: Proxy, s': Proxy, up: Live, m: Mapping)
    requires Keyed(cfg, up) && Placed(cfg, s, s', m) && NamedExcept(cfg, s, up, m.id)
    ensures NamedComplete(cfg, s', up[m.id := m])
  {
    var up' := up[m.id := m];
    forall k | k in up' && !Foot(cfg, up'[k]).CatchAll? ensures Installed(cfg, s', up'[k]) {
      if k != m.id {
        assert Installed(cfg, s, up[k]);
        assert RouteOf(up[k]).service == k;
      }
    }
  }

  lemma DisturbedNamed(cfg: Config, s: Proxy, s': Proxy, up: Live, m: Mapping)
    requires Keyed(cfg, up) && Disturbed(cfg, s, s', m) && NamedExcept(cfg, s, up, m.id)
    ensures NamedExcept(cfg, s', up, m.id)
  {
    forall k | k in up && k != m.id && !Foot(cfg, up[k]).CatchAll? ensures Installed(cfg, s', up[k]) {
      assert Installed(cfg, s, up[k]);
      assert RouteOf(up[k]).service == k;
    }
  }

  lemma InvOnePort(cfg: Config, s: Proxy, up: Live, svc: string)
    requires Inv(cfg, s, up)
    ensures OnePort(s, svc)
  {
  }

  lemma InstallNamed(cfg: Config, s: Proxy, up: Live, m: Mapping, env: Env)
    requires Inv(cfg, s, up) && NamedComplete(cfg, s, up) && Addressed(m)
    ensures NamedComplete(cfg, Install(cfg, s, m, env), LiveInstall(cfg, s, up, m, env))
  {
    var s1 := Setup(cfg, s, m, env).0;
    SetupSucceedsIff(cfg, s, m, env);
    SetupEffect(cfg, s, m, env);
    InvOnePort(cfg, s, up, m.id);
    if Succeeds(cfg, s, m, env) {
      PlacedNamed(cfg, s, s1, up, m);
      NamedFrame(cfg, s1, s1.(last := s1.last[m.id := m]), up[m.id := m]);
    } else {
      DisturbedNamed(cfg, s, s1, up, m);
      CleanupNamed(cfg, s1, up, m);
    }
  }

  lemma NamedFrame(cfg: Config, s: Proxy, s': Proxy, up: Live)
    requires s'.main == s.main && s'.ports == s.ports && s'.relays == s.relays && NamedComplete(cfg, s, up)
    ensures NamedComplete(cfg, s', up)
  {
    SameTables(cfg, s, s');
    forall k | k in up && !Foot(cfg, up[k]).CatchAll? ensures Installed(cfg, s', up[k]) {
      assert Installed(cfg, s, up[k]);
    }
  }

  lemma ApplyNamed(cfg: Config, s: Proxy, up: Live, u: Update, env: Env)
    requires Inv(cfg, s, up) && NamedComplete(cfg, s, up) && Admissible(cfg, up, u)
    ensures NamedComplete(cfg, Apply(cfg, s, u, env), LiveAfter(cfg, s, up, u, env))
  {
    var m := u.mapping;
    var stored := GetOr(s.last, m.id, m);
    InvOnePort(cfg, s, up, m.id);
    match u.kind {
      case Created =>
        if env.addPeerOk { InstallNamed(cfg, s, up, m, env); }
      case Modified =>
        CleanupNamed(cfg, s, up, stored);
        TeardownSound(cfg, s, up, m);
        InstallNamed(cfg, Teardown(cfg, s, m), up - {m.id}, m, env);
      case Removed =>
        CleanupNamed(cfg, s, up, stored);
        CleanupIgnoresLast(cfg, s, stored, s.last - {m.id});
        NamedFrame(cfg, Cleanup(cfg, s, stored), RemoveMapping(cfg, s, m), up - {m.id});
    }
  }

  /** In every admissible run, shared catch-alls or not, each live service with a server name or
      a relay is installed: only catch-alls can lose their place. */
  lemma {:induction false} RunNamed(cfg: Config, steps: seq<Step>)
    requires AdmissibleRun(cfg, steps)
    ensures NamedComplete(cfg, Run(cfg, INIT, steps), LiveRun(cfg, INIT, map[], steps))
  {
    if steps != [] {
      var front, step := steps[..|steps| - 1], steps[|steps| - 1];
      RunNamed(cfg, front);
      RunSound(cfg, front);
      ApplyNamed(cfg, Run(cfg, INIT, front), LiveRun(cfg, INIT, map[], front), step.update, step.env);
    }
  }

  /** After every admissible run a connection goes to a live service claiming its name on that
      port, to an HTTP one if there is any; without such a service to a live catch-all service of
      that port, or nowhere. */
  lemma DispatchAlways(cfg: Config, steps: seq<Step>, p: int, h: string)
    requires AdmissibleRun(cfg, steps)
    ensures var s, up := Run(cfg, INIT, steps), LiveRun(cfg, INIT, map[], steps);
      var r := Dispatch(cfg, s, p, h);
      if exists k :: Claims(cfg, up, k, p, h) then
        && r.Some? && Claims(cfg, up, r.value.service, p, h) && r.value == RouteOf(up[r.value.service])
        && ((exists k :: Claims(cfg, up, k, p, h) && RouteOf(up[k]).kind == RouteHTTP) ==> r.value.kind == RouteHTTP)
      else r.Some? ==> OwnsFallback(cfg, up, p, r.value)
  {
    RunSound(cfg, steps);
    RunNamed(cfg, steps);
    DispatchNamed(cfg, Run(cfg, INIT, steps), LiveRun(cfg, INIT, map[], steps), p, h);
  }

  lemma DispatchNamed(cfg: Config, s: Proxy, up: Live, p: int, h: string)
    requires Inv(cfg, s, up) && NamedComplete(cfg, s, up)
    ensures var r := Dispatch(cfg, s, p, h);
      if exists k :: Claims(cfg, up, k, p, h) then
        && r.Some? && Claims(cfg, up, r.value.service, p, h) && r.value == RouteOf(up[r.value.service])
        && ((exists k :: Claims(cfg, up, k, p, h) && RouteOf(up[k]).kind == RouteHTTP) ==> r.value.kind == RouteHTTP)
      else r.Some? ==> OwnsFallback(cfg, up, p, r.value)
  {
    var t := TableAt(cfg, s, p);
    TableAtWellFormed(cfg, s, p);
    forall k | Claims(cfg, up, k, p, h) ensures Has(t, h, RouteOf(up[k])) {
      assert Installed(cfg, s, up[k]);
    }
    if h in t.routes {
      var rs := t.routes[h];
      BestIsFirstOfLeastType(rs);
      assert Routed(cfg, s, p, h, Best(rs));
      assert OwnsRoute(cfg, up, p, h, Best(rs));
      assert Claims(cfg, up, Best(rs).service, p, h);
    }
  }

  /** The worker visits at most one port for the service, a valid one. */
  predicate OnePort(s: Proxy, svc: string) {
    svc in s.svcPorts ==> |s.svcPorts[svc]| == 1 && ValidPort(s.svcPorts[svc][0])
  }

  // ------------------------------------------------------- when CREATED repeats

  /** A CREATED for a service that is already up leaves no orphan exactly when it fails, or the new
      mapping occupies the old mapping's place (or the old one occupied none). */
  lemma RecreateIff(cfg: Config, s: Proxy, up: Live, m: Mapping, env: Env)
    requires Exact(cfg, s, up) && Addressed(m) && m.id in up && env.addPeerOk
    ensures NoOrphans(cfg, AddMapping(cfg, s, m, env)) <==> (Succeeds(cfg, s, m, env) ==> SameFootprint(cfg, up, m))
  {
    var s' := AddMapping(cfg, s, m, env);
    SetupSucceedsIff(cfg, s, m, env);
    if !Succeeds(cfg, s, m, env) {
      FailedRecreate(cfg, s, up, m, env);
      FailedNoOrphans(cfg, s, s', up, m);
    } else if SameFootprint(cfg, up, m) {
      InstallSound(cfg, s, up, m, env);
      InvNoOrphans(cfg, s', LiveInstall(cfg, s, up, m, env));
    } else {
      SetupEffect(cfg, s, m, env);
      var s1 := Setup(cfg, s, m, env).0;
      SameTables(cfg, s1, s');
      LeftBehind(cfg, s, s1, s', up, m);
    }
  }

  /** Cleaning up with `m`, visiting the ports `entries`, takes away what sits at `f`. */
  predicate Reaches(cfg: Config, m: Mapping, f: Footprint, entries: seq<int>) {
    match f
    case Nothing => true
    case Datagram => true
    case Sni(p, h) => m.domain != "" && ToLower(m.domain) == h && (p == cfg.mainPort || p in entries)
    case CatchAll(p) => m.domain == "" && p in entries
  }

  /** What a failed CREATED for a live service leaves: the other services' routes, and of its own
      at most the old mapping's, with nothing recorded that would lead a later cleanup to it. */
  ghost predicate Rolled(cfg: Config, s: Proxy, s': Proxy, m: Mapping) {
    && Base(cfg, s')
    && (forall p, h, x :: Routed(cfg, s', p, h, x) <==>
          Routed(cfg, s, p, h, x) &&
          !(x.service == m.id && Reaches(cfg, m, Sni(p, h), GetOr(s.svcPorts, m.id, []))))
    && (forall p :: FallbackAt(cfg, s', p) ==
          if Reaches(cfg, m, CatchAll(p), GetOr(s.svcPorts, m.id, [])) then None else FallbackAt(cfg, s, p))
    && s'.svcPorts == s.svcPorts - {m.id} && s'.relays == s.relays - {m.id} && s'.last == s.last
  }

  lemma FailedRecreate(cfg: Config, s: Proxy, up: Live, m: Mapping, env: Env)
    requires Exact(cfg, s, up) && Addressed(m) && m.id in up && env.addPeerOk && !Succeeds(cfg, s, m, env)
    ensures Rolled(cfg, s, AddMapping(cfg, s, m, env), m)
  {
    SetupSucceedsIff(cfg, s, m, env);
    SetupEffect(cfg, s, m, env);
    var s1 := Setup(cfg, s, m, env).0;
    InvOnePort(cfg, s, up, m.id);
    CleanupCleans(cfg, s1, m);
    RolledBack(cfg, s, s1, Cleanup(cfg, s1, m), m);
  }

  lemma RolledBack(cfg: Config, s: Proxy, s1: Proxy, s': Proxy, m: Mapping)
    requires Base(cfg, s') && Disturbed(cfg, s, s1, m)
    requires Cleaned(cfg, s1, s', m, GetOr(s1.svcPorts, m.id, []))
    ensures Rolled(cfg, s, s', m)
  {
    forall p, h, x ensures Routed(cfg, s', p, h, x) <==>
          Routed(cfg, s, p, h, x) &&
          !(x.service == m.id && Reaches(cfg, m, Sni(p, h), GetOr(s.svcPorts, m.id, [])))
    {
      assert Routed(cfg, s1, p, h, x) && x.service == m.id && !Routed(cfg, s, p, h, x)
             ==> Foot(cfg, m) == Sni(p, h) && p == cfg.mainPort;
    }
  }

  lemma FailedNoOrphans(cfg: Config, s: Proxy, s': Proxy, up: Live, m: Mapping)
    requires Exact(cfg, s, up) && Rolled(cfg, s, s', m)
    ensures NoOrphans(cfg, s')
  {
    InvNoOrphans(cfg, s, up);
    forall p, h, x | Routed(cfg, s', p, h, x) ensures OwnsRoute(cfg, s'.last, p, h, x) {
      assert Routed(cfg, s, p, h, x);
    }
    forall p | FallbackAt(cfg, s', p).Some? ensures OwnsFallback(cfg, s'.last, p, FallbackAt(cfg, s', p).value) {
      assert FallbackAt(cfg, s, p).Some?;
    }
  }

  /** A failed CREATED leaves a live service's old route in place exactly when its rollback, which
      cleans up with the new mapping, does not address that route. */
  lemma FailedRecreateKeepsIff(cfg: Config, s: Proxy, up: Live, m: Mapping, env: Env)
    requires Exact(cfg, s, up) && Addressed(m) && m.id in up && env.addPeerOk && !Succeeds(cfg, s, m, env)
    ensures var f := Foot(cfg, up[m.id]);
      Installed(cfg, AddMapping(cfg, s, m, env), up[m.id]) <==> f.Nothing? || (!f.Datagram? && !Clears(m, f))
  {
    FailedRecreate(cfg, s, up, m, env);
    var old' := up[m.id];
    assert Installed(cfg, s, old');
    assert RouteOf(old').service == m.id;
    TrackedReaches(cfg, s, up, m);
  }

  /** The recorded ports lead a cleanup to the old mapping exactly when the domains agree. */
  lemma TrackedReaches(cfg: Config, s: Proxy, up: Live, m: Mapping)
    requires Exact(cfg, s, up) && m.id in up
    ensures var f := Foot(cfg, up[m.id]);
      f.Sni? || f.CatchAll? ==> (Reaches(cfg, m, f, GetOr(s.svcPorts, m.id, [])) <==> Clears(m, f))
  {
    var f := Foot(cfg, up[m.id]);
    if Tracked(cfg, f) != [] {
      assert m.id in s.svcPorts && s.svcPorts[m.id] == Tracked(cfg, f);
    }
  }

  /** After a failed CREATED the service can still be removed without a trace if and only if its
      route went with the rollback or sits on the main port, where it is found by name: per-port
      routes are no longer recorded. */
  lemma FailedRecreateRemovalIff(cfg: Config, s: Proxy, up: Live, m: Mapping, env: Env)
    requires Exact(cfg, s, up) && Addressed(m) && m.id in up && env.addPeerOk && !Succeeds(cfg, s, m, env)
    ensures var f := Foot(cfg, up[m.id]);
      NoOrphans(cfg, RemoveMapping(cfg, AddMapping(cfg, s, m, env), m)) <==>
      f.Nothing? || f.Datagram? || Clears(m, f) || (f.Sni? && f.port == cfg.mainPort)
  {
    FailedRecreate(cfg, s, up, m, env);
    TrackedReaches(cfg, s, up, m);
    var s1 := AddMapping(cfg, s, m, env);
    CleanupCleans(cfg, s1, up[m.id]);
    CleanupIgnoresLast(cfg, s1, up[m.id], s.last - {m.id});
    assert RemoveMapping(cfg, s1, m) == Cleanup(cfg, s1, up[m.id]).(last := s.last - {m.id});
    UnrecordedRemovalIff(cfg, s, s1, Cleanup(cfg, s1, up[m.id]), up, m);
  }

  /** What a removal that finds no recorded ports takes away: nothing is left of the service. */
  predicate Vanishes(cfg: Config, m: Mapping, f: Footprint) {
    f.Nothing? || f.Datagram? || Clears(m, f) || (f.Sni? && f.port == cfg.mainPort)
  }

  lemma UnrecordedGone(cfg: Config, s: Proxy, s1: Proxy, s': Proxy, up: Live, m: Mapping)
    requires Exact(cfg, s, up) && m.id in up && Rolled(cfg, s, s1, m) && Cleaned(cfg, s1, s', up[m.id], [])
    requires var f := Foot(cfg, up[m.id]);
      f.Sni? || f.CatchAll? ==> (Reaches(cfg, m, f, GetOr(s.svcPorts, m.id, [])) <==> Clears(m, f))
    requires Vanishes(cfg, m, Foot(cfg, up[m.id]))
    ensures SoundRoutes(cfg, s', s.last - {m.id}) && SoundRelays(cfg, s', s.last - {m.id})
  {
    forall p, h, x | Routed(cfg, s', p, h, x) ensures OwnsRoute(cfg, s.last - {m.id}, p, h, x) {
      assert Routed(cfg, s1, p, h, x) && Routed(cfg, s, p, h, x);
      assert OwnsRoute(cfg, up, p, h, x);
    }
    forall k | k in s'.relays ensures OwnsRelay(cfg, s.last - {m.id}, k, s'.relays[k]) {
      assert k in s.relays && OwnsRelay(cfg, up, k, s.relays[k]);
    }
  }

  lemma UnrecordedFallbacks(cfg: Config, s: Proxy, s1: Proxy, s': Proxy, up: Live, m: Mapping)
    requires Exact(cfg, s, up) && m.id in up && Rolled(cfg, s, s1, m) && Cleaned(cfg, s1, s', up[m.id], [])
    requires var f := Foot(cfg, up[m.id]);
      f.Sni? || f.CatchAll? ==> (Reaches(cfg, m, f, GetOr(s.svcPorts, m.id, [])) <==> Clears(m, f))
    requires Vanishes(cfg, m, Foot(cfg, up[m.id]))
    ensures SoundFallbacks(cfg, s', s.last - {m.id})
  {
    forall p | FallbackAt(cfg, s', p).Some?
      ensures OwnsFallback(cfg, s.last - {m.id}, p, FallbackAt(cfg, s', p).value)
    {
      assert FallbackAt(cfg, s', p) == FallbackAt(cfg, s1, p) == FallbackAt(cfg, s, p);
      assert OwnsFallback(cfg, up, p, FallbackAt(cfg, s, p).value);
    }
  }

  lemma UnrecordedStays(cfg: Config, s: Proxy, s1: Proxy, s': Proxy, up: Live, m: Mapping)
    requires Exact(cfg, s, up) && m.id in up && Rolled(cfg, s, s1, m) && Cleaned(cfg, s1, s', up[m.id], [])
    requires var f := Foot(cfg, up[m.id]);
      f.Sni? || f.CatchAll? ==> (Reaches(cfg, m, f, GetOr(s.svcPorts, m.id, [])) <==> Clears(m, f))
    requires !Vanishes(cfg, m, Foot(cfg, up[m.id]))
    ensures var f := Foot(cfg, up[m.id]);
      if f.Sni? then Routed(cfg, s', f.port, f.host, RouteOf(up[m.id]))
      else f.CatchAll? && FallbackAt(cfg, s', f.port) == Some(RouteOf(up[m.id]))
  {
    assert Installed(cfg, s, up[m.id]) && RouteOf(up[m.id]).service == m.id;
  }

  lemma UnrecordedRemovalIff(cfg: Config, s: Proxy, s1: Proxy, s': Proxy, up: Live, m: Mapping)
    requires Exact(cfg, s, up) && m.id in up && Rolled(cfg, s, s1, m) && Cleaned(cfg, s1, s', up[m.id], [])
    requires var f := Foot(cfg, up[m.id]);
      f.Sni? || f.CatchAll? ==> (Reaches(cfg, m, f, GetOr(s.svcPorts, m.id, [])) <==> Clears(m, f))
    ensures NoOrphans(cfg, s'.(last := s.last - {m.id})) <==> Vanishes(cfg, m, Foot(cfg, up[m.id]))
  {
    SameTables(cfg, s', s'.(last := s.last - {m.id}));
    if Vanishes(cfg, m, Foot(cfg, up[m.id])) {
      UnrecordedGone(cfg, s, s1, s', up, m);
      UnrecordedFallbacks(cfg, s, s1, s', up, m);
    } else {
      UnrecordedStays(cfg, s, s1, s', up, m);
      assert RouteOf(up[m.id]).service == m.id;
    }
  }

  /** The ports recorded for a live service after a successful CREATED with `m`. */
  function Recorded(cfg: Config, s: Proxy, m: Mapping): seq<int> {
    if Tracked(cfg, Foot(cfg, m)) != [] then Tracked(cfg, Foot(cfg, m)) else GetOr(s.svcPorts, m.id, [])
  }

  /** After a successful CREATED for a live service, removing it leaves no trace if and only if the
      place did not change or the cleanup with the new mapping reaches the old place. */
  lemma RecreatedRemovalIff(cfg: Config, s: Proxy, up: Live, m: Mapping, env: Env)
    requires Exact(cfg, s, up) && Addressed(m) && m.id in up && env.addPeerOk && Succeeds(cfg, s, m, env)
    ensures NoOrphans(cfg, RemoveMapping(cfg, AddMapping(cfg, s, m, env), m)) <==>
            SameFootprint(cfg, up, m) || Reaches(cfg, m, Foot(cfg, up[m.id]), Recorded(cfg, s, m))
  {
    SetupSucceedsIff(cfg, s, m, env);
    var s1 := AddMapping(cfg, s, m, env);
    if SameFootprint(cfg, up, m) {
      InstallSound(cfg, s, up, m, env);
      RemovalSound(cfg, s1, up[m.id := m], m);
      InvNoOrphans(cfg, RemoveMapping(cfg, s1, m), up[m.id := m] - {m.id});
    } else {
      SetupEffect(cfg, s, m, env);
      InvOnePort(cfg, s, up, m.id);
      var s0 := Setup(cfg, s, m, env).0;
      CleanupCleans(cfg, s0, m);
      RecreatedRemoved(cfg, s, m, env);
      MovedRemoval(cfg, s, s0, Cleanup(cfg, s0, m), s.last - {m.id}, up, m);
    }
  }

  lemma RecreatedRemoved(cfg: Config, s: Proxy, m: Mapping, env: Env)
    requires env.addPeerOk && Setup(cfg, s, m, env).1
    ensures RemoveMapping(cfg, AddMapping(cfg, s, m, env), m) ==
            Cleanup(cfg, Setup(cfg, s, m, env).0, m).(last := s.last - {m.id})
  {
    var s0, s1 := Setup(cfg, s, m, env).0, AddMapping(cfg, s, m, env);
    SetupKeepsLast(cfg, s, m, env);
    assert s1.last - {m.id} == s.last - {m.id};
    CleanupIgnoresLast(cfg, s0, m, s.last - {m.id});
  }

  lemma MovedRemoval(cfg: Config, s: Proxy, s0: Proxy, s': Proxy, last: map<string, Mapping>, up: Live, m: Mapping)
    requires Exact(cfg, s, up) && m.id in up && !SameFootprint(cfg, up, m) && Addressed(m)
    requires Placed(cfg, s, s0, m) && Cleaned(cfg, s0, s', m, Recorded(cfg, s, m))
    requires last == s.last - {m.id}
    ensures NoOrphans(cfg, s'.(last := last)) <==> Reaches(cfg, m, Foot(cfg, up[m.id]), Recorded(cfg, s, m))
  {
    SameTables(cfg, s', s'.(last := last));
    if Reaches(cfg, m, Foot(cfg, up[m.id]), Recorded(cfg, s, m)) {
      MovedGone(cfg, s, s0, s', up, m);
    } else {
      MovedStays(cfg, s, s0, s', up, m);
      assert RouteOf(up[m.id]).service == m.id;
    }
  }

  lemma MovedGone(cfg: Config, s: Proxy, s0: Proxy, s': Proxy, up: Live, m: Mapping)
    requires Exact(cfg, s, up) && m.id in up && !SameFootprint(cfg, up, m) && Addressed(m)
    requires Placed(cfg, s, s0, m) && Cleaned(cfg, s0, s', m, Recorded(cfg, s, m))
    requires Reaches(cfg, m, Foot(cfg, up[m.id]), Recorded(cfg, s, m))
    ensures SoundRoutes(cfg, s', s.last - {m.id}) && SoundFallbacks(cfg, s', s.last - {m.id})
    ensures SoundRelays(cfg, s', s.last - {m.id})
  {
    var last := s.last - {m.id};
    forall p, h, x | Routed(cfg, s', p, h, x) ensures OwnsRoute(cfg, last, p, h, x) {
      assert Routed(cfg, s0, p, h, x);
      assert Routed(cfg, s, p, h, x) && OwnsRoute(cfg, up, p, h, x);
    }
    MovedFallbacks(cfg, s, s0, s', up, m);
    forall k | k in s'.relays ensures OwnsRelay(cfg, last, k, s'.relays[k]) {
      assert k in s.relays && OwnsRelay(cfg, up, k, s.relays[k]);
    }
  }

  lemma MovedFallback(cfg: Config, s: Proxy, s0: Proxy, s': Proxy, m: Mapping, p: int)
    requires Addressed(m) && Placed(cfg, s, s0, m) && Cleaned(cfg, s0, s', m, Recorded(cfg, s, m))
    requires FallbackAt(cfg, s', p).Some?
    ensures FallbackAt(cfg, s', p) == FallbackAt(cfg, s, p)
    ensures !(m.domain == "" && p in Recorded(cfg, s, m))
  {
    assert Foot(cfg, m) == CatchAll(p) ==> p in Recorded(cfg, s, m) && m.domain == "";
  }

  lemma MovedFallbacks(cfg: Config, s: Proxy, s0: Proxy, s': Proxy, up: Live, m: Mapping)
    requires Exact(cfg, s, up) && m.id in up && !SameFootprint(cfg, up, m) && Addressed(m)
    requires Placed(cfg, s, s0, m) && Cleaned(cfg, s0, s', m, Recorded(cfg, s, m))
    requires Reaches(cfg, m, Foot(cfg, up[m.id]), Recorded(cfg, s, m))
    ensures SoundFallbacks(cfg, s', s.last - {m.id})
  {
    forall p | FallbackAt(cfg, s', p).Some?
      ensures OwnsFallback(cfg, s.last - {m.id}, p, FallbackAt(cfg, s', p).value)
    {
      MovedFallback(cfg, s, s0, s', m, p);
      assert OwnsFallback(cfg, up, p, FallbackAt(cfg, s, p).value);
    }
  }

  lemma MovedStays(cfg: Config, s: Proxy, s0: Proxy, s': Proxy, up: Live, m: Mapping)
    requires Exact(cfg, s, up) && m.id in up && !SameFootprint(cfg, up, m) && Addressed(m)
    requires Placed(cfg, s, s0, m) && Cleaned(cfg, s0, s', m, Recorded(cfg, s, m))
    requires !Reaches(cfg, m, Foot(cfg, up[m.id]), Recorded(cfg, s, m))
    ensures var f := Foot(cfg, up[m.id]);
      if f.Sni? then Routed(cfg, s', f.port, f.host, RouteOf(up[m.id]))
      else f.CatchAll? && FallbackAt(cfg, s', f.port) == Some(RouteOf(up[m.id]))
  {
    assert Installed(cfg, s, up[m.id]) && RouteOf(up[m.id]).service == m.id;
  }

  lemma LeftBehind(cfg: Config, s: Proxy, s1: Proxy, s': Proxy, up: Live, m: Mapping)
    requires Exact(cfg, s, up) && m.id in up && !SameFootprint(cfg, up, m)
    requires Placed(cfg, s, s1, m)
    requires forall p, h, x :: Routed(cfg, s', p, h, x) <==> Routed(cfg, s1, p, h, x)
    requires forall p :: FallbackAt(cfg, s', p) == FallbackAt(cfg, s1, p)
    requires s'.relays == s1.relays && m.id in s'.last && s'.last[m.id] == m
    ensures !NoOrphans(cfg, s')
  {
    var old' := up[m.id];
    assert Installed(cfg, s, old');
    match Foot(cfg, old') {
      case Sni(p, h) =>
        assert Routed(cfg, s', p, h, RouteOf(old'));
        assert !OwnsRoute(cfg, s'.last, p, h, RouteOf(old'));
      case CatchAll(p) =>
        assert FallbackAt(cfg, s', p) == Some(RouteOf(old'));
        assert !OwnsFallback(cfg, s'.last, p, RouteOf(old'));
      case Datagram =>
        assert m.id in s'.relays;
        assert !OwnsRelay(cfg, s'.last, m.id, s'.relays[m.id]);
    }
  }

  // ------------------------------------------- mappings whose domain does not fit

  lemma CleanupKeepsNoOrphans(cfg: Config, s: Proxy, m: Mapping)
    requires Base(cfg, s) && NoOrphans(cfg, s) && OnePort(s, m.id)
    ensures NoOrphans(cfg, Cleanup(cfg, s, m))
  {
    CleanupCleans(cfg, s, m);
    var s' := Cleanup(cfg, s, m);
    forall p, h, x | Routed(cfg, s', p, h, x) ensures OwnsRoute(cfg, s'.last, p, h, x) {
      assert Routed(cfg, s, p, h, x);
    }
    forall p | FallbackAt(cfg, s', p).Some? ensures OwnsFallback(cfg, s'.last, p, FallbackAt(cfg, s', p).value) {
      assert FallbackAt(cfg, s, p).Some?;
    }
  }

  /** A TLS mapping without a domain routes nothing; at most it opens and records its port. */
  lemma TlsUnnamedEffect(cfg: Config, s: Proxy, m: Mapping, env: Env)
    requires Base(cfg, s) && m.mode == MODE_TLS && m.domain == "" && Succeeds(cfg, s, m, env)
    ensures var s' := Setup(cfg, s, m, env).0;
      && Base(cfg, s') && s'.relays == s.relays && s'.last == s.last
      && (forall p, h, x :: Routed(cfg, s', p, h, x) <==> Routed(cfg, s, p, h, x))
      && (forall p :: FallbackAt(cfg, s', p) == FallbackAt(cfg, s, p))
      && (OnePort(s, m.id) ==> OnePort(s', m.id))
  {
    var p := m.listenPort;
    EnsureRouterTables(cfg, s, p, env);
    var s1 := EnsureRouter(cfg, s, p, env).value;
    var s' := Setup(cfg, s, m, env).0;
    TlsUnnamedShape(cfg, s, s1, m, env);
    SameTables(cfg, s1, s');
  }

  lemma TlsUnnamedShape(cfg: Config, s: Proxy, s1: Proxy, m: Mapping, env: Env)
    requires m.mode == MODE_TLS && m.domain == "" && L4Accepts(cfg, m)
    requires EnsureRouter(cfg, s, m.listenPort, env) == Some(s1)
    ensures var s' := Setup(cfg, s, m, env).0;
      && s'.main == s1.main && s'.ports == s1.ports && s'.relays == s1.relays && s'.last == s1.last
      && s'.svcPorts == if m.listenPort != cfg.mainPort then s1.svcPorts[m.id := [m.listenPort]] else s1.svcPorts
  {
    var p := m.listenPort;
    var t := TableOf(cfg, s1, p);
    LowerEmpty(m.domain);
    assert AddRoute(t, m.domain, RouteOf(m)) == t;
    var s2 := PutTable(cfg, s1, p, t);
    if !IsMain(cfg, p) { assert s1.ports[p := s1.ports[p]] == s1.ports; }
    AcquireFrame(cfg, s2, m, env);
  }

  /** Stored but routing nothing: removing a mapping that owns no route leaves none behind. */
  lemma RemoveUnroutedKeepsNoOrphans(cfg: Config, s: Proxy, s1: Proxy, m: Mapping)
    requires NoOrphans(cfg, s) && m.id !in s.last && Base(cfg, s1) && OnePort(s1, m.id)
    requires s1.relays == s.relays && s1.last == s.last[m.id := m]
    requires forall p, h, x :: Routed(cfg, s1, p, h, x) <==> Routed(cfg, s, p, h, x)
    requires forall p :: FallbackAt(cfg, s1, p) == FallbackAt(cfg, s, p)
    ensures NoOrphans(cfg, RemoveMapping(cfg, s1, m))
  {
    var s2 := s1.(last := s1.last - {m.id});
    assert s2.last == s.last;
    SameTables(cfg, s1, s2);
    forall p, h, x | Routed(cfg, s2, p, h, x) ensures OwnsRoute(cfg, s2.last, p, h, x) {
      assert Routed(cfg, s, p, h, x);
    }
    forall p | FallbackAt(cfg, s2, p).Some? ensures OwnsFallback(cfg, s2.last, p, FallbackAt(cfg, s2, p).value) {
      assert FallbackAt(cfg, s, p).Some?;
    }
    CleanupKeepsNoOrphans(cfg, s2, m);
  }

  /** A TCP mapping with a domain is cleaned up as if it were an SNI route: its catch-all stays. */
  lemma CatchAllStays(cfg: Config, s: Proxy, m: Mapping, env: Env)
    requires Base(cfg, s) && m.mode == MODE_TCP && m.domain != "" && Succeeds(cfg, s, m, env)
    ensures !NoOrphans(cfg, RemoveMapping(cfg, Install(cfg, s, m, env), m))
  {
    SetupSucceedsIff(cfg, s, m, env);
    SetupTcpEffect(cfg, s, m, env);
    var s1 := Install(cfg, s, m, env);
    var s2 := s1.(last := s1.last - {m.id});
    SameTables(cfg, Setup(cfg, s, m, env).0, s2);
    CleanupCleans(cfg, s2, m);
    assert FallbackAt(cfg, RemoveMapping(cfg, s1, m), m.listenPort) == Some(RouteOf(m));
  }

  lemma FailedStateKeeps(cfg: Config, s: Proxy, up: Live, m: Mapping, env: Env)
    requires Inv(cfg, s, up) && m.id !in s.last && !Addressed(m) && !Succeeds(cfg, s, m, env)
    ensures NoOrphans(cfg, RemoveMapping(cfg, Install(cfg, s, m, env), m))
  {
    InvNoOrphans(cfg, s, up);
    CleanupKeepsNoOrphans(cfg, s, m);
    CleanupCleans(cfg, s, m);
    var s1 := Cleanup(cfg, s, m);
    assert s1.last - {m.id} == s1.last;
    CleanupKeepsNoOrphans(cfg, s1, m);
  }

  /** Creating and removing a new service leaves an orphan if and only if it is a TCP service with
      a domain whose setup succeeds, whatever the mapping looks like otherwise. */
  lemma RemovalOrphansIff(cfg: Config, s: Proxy, up: Live, m: Mapping, env: Env)
    requires Inv(cfg, s, up) && m.id !in s.last && env.addPeerOk
    ensures NoOrphans(cfg, RemoveMapping(cfg, AddMapping(cfg, s, m, env), m)) <==>
            !(m.mode == MODE_TCP && m.domain != "" && Succeeds(cfg, s, m, env))
  {
    InvNoOrphans(cfg, s, up);
    if Addressed(m) {
      InstallSound(cfg, s, up, m, env);
      var s1, up1 := Install(cfg, s, m, env), LiveInstall(cfg, s, up, m, env);
      RemovalSound(cfg, s1, up1, m);
      InvNoOrphans(cfg, RemoveMapping(cfg, s1, m), up1 - {m.id});
    } else if !Succeeds(cfg, s, m, env) {
      FailedStateKeeps(cfg, s, up, m, env);
    } else if m.mode == MODE_TCP {
      CatchAllStays(cfg, s, m, env);
    } else {
      SetupSucceedsIff(cfg, s, m, env);
      TlsUnnamedEffect(cfg, s, m, env);
      var s1 := Install(cfg, s, m, env);
      SameTables(cfg, Setup(cfg, s, m, env).0, s1);
      RemoveUnroutedKeepsNoOrphans(cfg, s, s1, m);
    }
  }
}
