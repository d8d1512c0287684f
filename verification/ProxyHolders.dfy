/** Who holds the catch-all of a port when services share it, and where a connection ends up. */
module ProxyHolders {
  import opened Prelude
  import opened RouterTable
  import opened ProxyModel
  import opened ProxyRouting
  import opened ProxySetup
  import opened ProxyTheorems
  import opened ProxyTidy
  import opened ProxyExact

  /** Ports with a catch-all, each with the service that holds it. */
  type Holders = map<int, string>

  /** Giving up the place of `svc`, if that is a catch-all: whoever holds the port loses it. */
  function Vacate(cfg: Config, up: Live, hold: Holders, svc: string): Holders {
    if svc in up && Foot(cfg, up[svc]).CatchAll? then hold - {Foot(cfg, up[svc]).port} else hold
  }

  function Occupy(cfg: Config, hold: Holders, m: Mapping): Holders {
    if Foot(cfg, m).CatchAll? then hold[Foot(cfg, m).port := m.id] else hold
  }

  /** A successful install takes the port; a cleanup of any of its tenants clears it. */
  function HoldersAfter(cfg: Config, s: Proxy, up: Live, hold: Holders, u: Update, env: Env): Holders {
    var m := u.mapping;
    match u.kind
    case Created =>
      if !env.addPeerOk then hold
      else if Takes(cfg, s, u, env) then Occupy(cfg, hold, m) else Vacate(cfg, up, hold, m.id)
    case Modified =>
      var h := Vacate(cfg, up, hold, m.id);
      if Takes(cfg, s, u, env) then Occupy(cfg, h, m) else h
    case Removed => Vacate(cfg, up, hold, m.id)
  }

  function HoldersRun(cfg: Config, steps: seq<Step>): Holders {
    if steps == [] then map[]
    else
      var front, step := steps[..|steps| - 1], steps[|steps| - 1];
      HoldersAfter(cfg, Run(cfg, INIT, front), LiveRun(cfg, INIT, map[], front), HoldersRun(cfg, front),
                   step.update, step.env)
  }

  /** Holders are live catch-all services of their port, and the fallbacks are exactly theirs. */
  ghost predicate Holds(cfg: Config, s: Proxy, up: Live, hold: Holders) {
    && (forall p :: p in hold ==> hold[p] in up && Foot(cfg, up[hold[p]]) == CatchAll(p))
    && (forall p :: FallbackAt(cfg, s, p) == if p in hold then Some(RouteOf(up[hold[p]])) else None)
  }

  /** The mapping's domain leads a cleanup to the fallback of its service's port exactly when the
      service is a catch-all one. */
  ghost predicate Fitting(cfg: Config, up: Live, m: Mapping) {
    m.id in up ==>
      && (Foot(cfg, up[m.id]).CatchAll? ==> m.domain == "")
      && (Foot(cfg, up[m.id]).Sni? ==> m.domain != "")
  }

  lemma CleanupHolds(cfg: Config, s: Proxy, up: Live, hold: Holders, m: Mapping)
    requires Base(cfg, s) && OnePort(s, m.id) && SoundPorts(cfg, s, up)
    requires Holds(cfg, s, up, hold) && Fitting(cfg, up, m)
    ensures Holds(cfg, Cleanup(cfg, s, m), up - {m.id}, Vacate(cfg, up, hold, m.id))
  {
    CleanupCleans(cfg, s, m);
    var s', hold' := Cleanup(cfg, s, m), Vacate(cfg, up, hold, m.id);
    forall p ensures FallbackAt(cfg, s', p) == if p in hold' then Some(RouteOf((up - {m.id})[hold'[p]])) else None {
      assert m.domain == "" && p in GetOr(s.svcPorts, m.id, []) <==> m.id in up && Foot(cfg, up[m.id]) == CatchAll(p);
    }
  }

  lemma SameFallbacksHold(cfg: Config, s: Proxy, s': Proxy, up: Live, hold: Holders)
    requires Holds(cfg, s, up, hold) && forall p :: FallbackAt(cfg, s', p) == FallbackAt(cfg, s, p)
    ensures Holds(cfg, s', up, hold)
  {
  }

  lemma PlacedHolds(cfg: Config, s: Proxy, s': Proxy, up: Live, hold: Holders, m: Mapping)
    requires Holds(cfg, s, up, hold) && Placed(cfg, s, s', m) && SameFootprint(cfg, up, m)
    ensures Holds(cfg, s', up[m.id := m], Occupy(cfg, hold, m))
  {
  }

  lemma InstallHolds(cfg: Config, s: Proxy, up: Live, hold: Holders, m: Mapping, env: Env)
    requires Inv(cfg, s, up) && Addressed(m) && SameFootprint(cfg, up, m) && Holds(cfg, s, up, hold)
    ensures Holds(cfg, Install(cfg, s, m, env), LiveInstall(cfg, s, up, m, env),
                  if Succeeds(cfg, s, m, env) then Occupy(cfg, hold, m) else Vacate(cfg, up, hold, m.id))
  {
    var s1 := Setup(cfg, s, m, env).0;
    SetupSucceedsIff(cfg, s, m, env);
    SetupEffect(cfg, s, m, env);
    InvOnePort(cfg, s, up, m.id);
    if Succeeds(cfg, s, m, env) {
      PlacedHolds(cfg, s, s1, up, hold, m);
      var s2 := s1.(last := s1.last[m.id := m]);
      SameTables(cfg, s1, s2);
      SameFallbacksHold(cfg, s1, s2, up[m.id := m], Occupy(cfg, hold, m));
    } else {
      SameFallbacksHold(cfg, s, s1, up, hold);
      CleanupHolds(cfg, s1, up, hold, m);
    }
  }

  lemma TeardownHolds(cfg: Config, s: Proxy, up: Live, hold: Holders, m: Mapping)
    requires Inv(cfg, s, up) && Holds(cfg, s, up, hold)
    ensures Holds(cfg, Teardown(cfg, s, m), up - {m.id}, Vacate(cfg, up, hold, m.id))
  {
    InvOnePort(cfg, s, up, m.id);
    CleanupHolds(cfg, s, up, hold, GetOr(s.last, m.id, m));
  }

  lemma ApplyHolds(cfg: Config, s: Proxy, up: Live, hold: Holders, u: Update, env: Env)
    requires Inv(cfg, s, up) && Admissible(cfg, up, u) && Holds(cfg, s, up, hold)
    ensures Holds(cfg, Apply(cfg, s, u, env), LiveAfter(cfg, s, up, u, env), HoldersAfter(cfg, s, up, hold, u, env))
  {
    var m := u.mapping;
    match u.kind {
      case Created =>
        if env.addPeerOk { InstallHolds(cfg, s, up, hold, m, env); }
      case Modified =>
        var up0, hold0 := up - {m.id}, Vacate(cfg, up, hold, m.id);
        TeardownSound(cfg, s, up, m);
        TeardownHolds(cfg, s, up, hold, m);
        InstallHolds(cfg, Teardown(cfg, s, m), up0, hold0, m, env);
        assert Vacate(cfg, up0, hold0, m.id) == hold0;
      case Removed =>
        TeardownHolds(cfg, s, up, hold, m);
        var stored := GetOr(s.last, m.id, m);
        CleanupIgnoresLast(cfg, s, stored, s.last - {m.id});
        SameTables(cfg, Cleanup(cfg, s, stored), RemoveMapping(cfg, s, m));
        SameFallbacksHold(cfg, Cleanup(cfg, s, stored), RemoveMapping(cfg, s, m), up - {m.id}, Vacate(cfg, up, hold, m.id));
    }
  }

  /** After every admissible run, whoever shares ports: the fallback of a port is the route of the
      service that installed itself there last, unless a tenant of the port was cleaned up since. */
  lemma {:induction false} RunHolds(cfg: Config, steps: seq<Step>)
    requires AdmissibleRun(cfg, steps)
    ensures Holds(cfg, Run(cfg, INIT, steps), LiveRun(cfg, INIT, map[], steps), HoldersRun(cfg, steps))
  {
    if steps != [] {
      var front, step := steps[..|steps| - 1], steps[|steps| - 1];
      RunHolds(cfg, front);
      RunSound(cfg, front);
      ApplyHolds(cfg, Run(cfg, INIT, front), LiveRun(cfg, INIT, map[], front), HoldersRun(cfg, front),
                 step.update, step.env);
    }
  }

  // ---------------------------------------------------------------- what is determined

  /** Everything known about the state after an admissible run. */
  ghost predicate Known(cfg: Config, s: Proxy, up: Live, hold: Holders) {
    Inv(cfg, s, up) && NamedComplete(cfg, s, up) && Holds(cfg, s, up, hold) && NoEmptyRouters(cfg, s)
  }

  lemma KnownRoute(cfg: Config, s: Proxy, up: Live, hold: Holders, p: int, h: string, x: Route)
    requires Known(cfg, s, up, hold)
    ensures Routed(cfg, s, p, h, x) <==> OwnsRoute(cfg, up, p, h, x)
  {
    if OwnsRoute(cfg, up, p, h, x) {
      assert Installed(cfg, s, up[x.service]);
    }
  }

  lemma KnownRelay(cfg: Config, s: Proxy, up: Live, hold: Holders, k: string)
    requires Known(cfg, s, up, hold)
    ensures k in s.relays <==> k in up && Foot(cfg, up[k]) == Datagram
    ensures k in s.relays ==> s.relays[k] == RelayOf(up[k])
  {
    if k in up && Foot(cfg, up[k]) == Datagram {
      assert Installed(cfg, s, up[k]);
    }
  }

  /** A per-port router exists exactly for the ports with a holder or a live server name. */
  lemma KnownPort(cfg: Config, s: Proxy, up: Live, hold: Holders, p: int)
    requires Known(cfg, s, up, hold)
    ensures p in s.ports <==> p != cfg.mainPort && (p in hold || exists k, h :: Claims(cfg, up, k, p, h))
  {
    if p in s.ports {
      EmptyIff(s.ports[p]);
      if FallbackAt(cfg, s, p).None? {
        var h, x :| Has(s.ports[p], h, x);
        assert Routed(cfg, s, p, h, x);
        assert OwnsRoute(cfg, up, p, h, x);
        assert Claims(cfg, up, x.service, p, h);
      }
    }
    forall k, h | p != cfg.mainPort && Claims(cfg, up, k, p, h) ensures p in s.ports {
      ClaimNeedsRouter(cfg, s, up, k, p, h);
    }
    assert p in hold ==> FallbackAt(cfg, s, p).Some?;
  }

  lemma ClaimNeedsRouter(cfg: Config, s: Proxy, up: Live, k: string, p: int, h: string)
    requires NamedComplete(cfg, s, up) && p != cfg.mainPort && Claims(cfg, up, k, p, h)
    ensures p in s.ports
  {
    assert Installed(cfg, s, up[k]);
  }

  lemma KnownDetermines(cfg: Config, s: Proxy, s': Proxy, up: Live, hold: Holders)
    requires Known(cfg, s, up, hold) && Known(cfg, s', up, hold)
    ensures SameRouting(cfg, s, s')
  {
    forall p ensures p in s.ports <==> p in s'.ports {
      KnownPort(cfg, s, up, hold, p);
      KnownPort(cfg, s', up, hold, p);
    }
    forall k ensures k in s.relays <==> k in s'.relays
             ensures k in s.relays ==> s.relays[k] == s'.relays[k]
    {
      KnownRelay(cfg, s, up, hold, k);
      KnownRelay(cfg, s', up, hold, k);
    }
    forall p, h, x ensures Routed(cfg, s, p, h, x) <==> Routed(cfg, s', p, h, x) {
      KnownRoute(cfg, s, up, hold, p, h, x);
      KnownRoute(cfg, s', up, hold, p, h, x);
    }
  }

  lemma RunKnown(cfg: Config, steps: seq<Step>)
    requires AdmissibleRun(cfg, steps)
    ensures Known(cfg, Run(cfg, INIT, steps), LiveRun(cfg, INIT, map[], steps), HoldersRun(cfg, steps))
  {
    RunSound(cfg, steps);
    RunNamed(cfg, steps);
    RunHolds(cfg, steps);
    AdmissibleNoEmptyRouters(cfg, steps);
  }

  /** Two admissible runs that leave the same services live and the same holders leave the same
      routing state, with shared ports, failures and in any order of updates. */
  lemma HoldersDetermine(cfg: Config, steps: seq<Step>, steps': seq<Step>)
    requires AdmissibleRun(cfg, steps) && AdmissibleRun(cfg, steps')
    requires LiveRun(cfg, INIT, map[], steps) == LiveRun(cfg, INIT, map[], steps')
    requires HoldersRun(cfg, steps) == HoldersRun(cfg, steps')
    ensures SameRouting(cfg, Run(cfg, INIT, steps), Run(cfg, INIT, steps'))
  {
    RunKnown(cfg, steps);
    RunKnown(cfg, steps');
    KnownDetermines(cfg, Run(cfg, INIT, steps), Run(cfg, INIT, steps'), LiveRun(cfg, INIT, map[], steps), HoldersRun(cfg, steps));
  }

  // ------------------------------------------------------------------- destinations

  /** Only the main router has a channel to the HTTP server. */
  function DestinationOf(cfg: Config, s: Proxy, p: int, sni: string): Destination {
    Handled(TableAt(cfg, s, p), p == cfg.mainPort, sni)
  }

  ghost predicate HttpClaims(cfg: Config, up: Live, k: string, p: int, h: string) {
    Claims(cfg, up, k, p, h) && RouteOf(up[k]).kind == RouteHTTP
  }

  /** What the live services and holders say about a connection to port `p` with the lower-case server
      name `h`. */
  ghost predicate Lands(cfg: Config, up: Live, hold: Holders, p: int, h: string, d: Destination) {
    if exists k :: HttpClaims(cfg, up, k, p, h) then d == Http
    else if exists k :: Claims(cfg, up, k, p, h) then exists k :: Claims(cfg, up, k, p, h) && d == Relayed(RouteOf(up[k]))
    else if p in hold then hold[p] in up && d == Relayed(RouteOf(up[hold[p]]))
    else d == if p == cfg.mainPort then Http else Closed
  }

  /** After every admissible run, for every port and server name: a name claimed by a live HTTP
      service goes to the HTTP server; one claimed by live TLS services only is relayed to one of
      them; any other name is relayed to the holder of the port's catch-all; and without a holder
      it goes to the HTTP server on the main port and is closed elsewhere. */
  lemma DestinationAlways(cfg: Config, steps: seq<Step>, p: int, sni: string)
    requires AdmissibleRun(cfg, steps)
    ensures Lands(cfg, LiveRun(cfg, INIT, map[], steps), HoldersRun(cfg, steps), p, ToLower(sni),
                  DestinationOf(cfg, Run(cfg, INIT, steps), p, sni))
  {
    RunSound(cfg, steps);
    RunNamed(cfg, steps);
    RunHolds(cfg, steps);
    DestinationIn(cfg, Run(cfg, INIT, steps), LiveRun(cfg, INIT, map[], steps), HoldersRun(cfg, steps), p, sni);
  }

  lemma DestinationIn(cfg: Config, s: Proxy, up: Live, hold: Holders, p: int, sni: string)
    requires Inv(cfg, s, up) && NamedComplete(cfg, s, up) && Holds(cfg, s, up, hold)
    ensures Lands(cfg, up, hold, p, ToLower(sni), DestinationOf(cfg, s, p, sni))
  {
    var h := ToLower(sni);
    if exists k :: Claims(cfg, up, k, p, h) {
      ClaimedDestination(cfg, s, up, p, sni);
    } else {
      NothingFound(cfg, s, up, p, h);
      UnclaimedHttp(cfg, up, p, h);
    }
  }

  lemma UnclaimedHttp(cfg: Config, up: Live, p: int, h: string)
    requires !exists k :: Claims(cfg, up, k, p, h)
    ensures !exists k :: HttpClaims(cfg, up, k, p, h)
  {
  }

  lemma ClaimedDestination(cfg: Config, s: Proxy, up: Live, p: int, sni: string)
    requires Inv(cfg, s, up) && NamedComplete(cfg, s, up) && exists k :: Claims(cfg, up, k, p, ToLower(sni))
    ensures var d, h := DestinationOf(cfg, s, p, sni), ToLower(sni);
      if exists k :: HttpClaims(cfg, up, k, p, h) then d == Http
      else exists k :: Claims(cfg, up, k, p, h) && d == Relayed(RouteOf(up[k]))
  {
    var h := ToLower(sni);
    DispatchNamed(cfg, s, up, p, h);
    ClaimedIsFound(cfg, s, up, p, h);
    var r := Dispatch(cfg, s, p, h).value;
    assert Lookup(TableAt(cfg, s, p), h) == Some(r);
    assert Claims(cfg, up, r.service, p, h) && r == RouteOf(up[r.service]);
    if k :| HttpClaims(cfg, up, k, p, h) {
      HttpIsMain(cfg, up, k, p, h);
      assert r.kind == RouteHTTP;
    } else if r.kind == RouteHTTP {
      assert HttpClaims(cfg, up, r.service, p, h);
    }
  }

  lemma HttpIsMain(cfg: Config, up: Live, k: string, p: int, h: string)
    requires HttpClaims(cfg, up, k, p, h)
    ensures p == cfg.mainPort
  {
  }

  lemma ClaimedIsFound(cfg: Config, s: Proxy, up: Live, p: int, h: string)
    requires Inv(cfg, s, up) && NamedComplete(cfg, s, up) && exists k :: Claims(cfg, up, k, p, h)
    ensures Lookup(TableAt(cfg, s, p), h).Some?
  {
    var k :| Claims(cfg, up, k, p, h);
    assert Installed(cfg, s, up[k]);
    TableAtWellFormed(cfg, s, p);
  }

  lemma NothingFound(cfg: Config, s: Proxy, up: Live, p: int, h: string)
    requires Inv(cfg, s, up) && !exists k :: Claims(cfg, up, k, p, h)
    ensures Lookup(TableAt(cfg, s, p), h).None?
  {
    var t := TableAt(cfg, s, p);
    TableAtWellFormed(cfg, s, p);
    if h in t.routes {
      var x := t.routes[h][0];
      assert Routed(cfg, s, p, h, x);
      assert Claims(cfg, up, x.service, p, h);
    }
  }
}
