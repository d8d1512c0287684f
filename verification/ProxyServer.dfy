/** The proxy's objects: routers (proxy/internal/tcp/router.go), the CrowdSec registry
    (proxy/internal/crowdsec/registry.go) and the server (proxy/server.go). Every method is
    proved to perform the corresponding transition of ProxyModel on the abstract state. */
module ProxyServer {
  import opened Prelude
  import opened RouterTable
  import opened ProxyModel
  import opened ProxyRelays

  /** A router with its SNI routes, its fallback, and the contexts of its relay connections. */
  class Router {
    var routes: map<string, seq<Route>>
    var fallback: Option<Route>
    var relays: Relays

    function Contents(): Table
      reads this
    {
      Table(routes, fallback)
    }

    constructor ()
      ensures Contents() == EMPTY && relays == NO_RELAYS
    {
      routes, fallback, relays := map[], None, NO_RELAYS;
    }

    /** The context that a new relay connection of a service derives from. A draining router refuses
        the connection before, a full one after making sure of the context. */
    method AcquireRelay(svc: string, draining: bool, full: bool) returns (ctx: Option<nat>)
      modifies this`relays
      ensures relays == if draining then old(relays) else Ensure(old(relays), svc)
      ensures ctx == if draining || full then None else Some(relays.live[svc])
    {
      if draining {
        return None;
      }
      if svc !in relays.live {
        relays := Contexts(relays.live[svc := relays.next], relays.closed, relays.next + 1);
      }
      ctx := if full then None else Some(relays.live[svc]);
    }

    /** Closes the relay connections of a service, if it has any. */
    method CancelService(svc: string)
      modifies this`relays
      ensures relays == Sever(old(relays), svc)
    {
      if svc in relays.live {
        relays := Contexts(relays.live - {svc}, relays.closed + {relays.live[svc]}, relays.next);
      } else {
        assert relays.live - {svc} == relays.live;
      }
    }

    /** Closes all relay connections, as cancelling the context that the router serves under does. */
    method CancelAll()
      modifies this`relays
      ensures relays == SeverAll(old(relays))
    {
      relays := SeverAll(relays);
    }

    /** Replacing a route of the same service closes the service's connections. */
    method AddRoute(host: string, route: Route)
      modifies this
      ensures Contents() == RouterTable.AddRoute(old(Contents()), host, route)
      ensures relays == if host != "" && ServiceIn(GetOr(old(routes), ToLower(host), []), route.service)
                        then Sever(old(relays), route.service) else old(relays)
    {
      LowerEmpty(host);
      var h := ToLower(host);
      if h == "" {
        return;
      }
      var rs := GetOr(routes, h, []);
      var i := 0;
      while i < |rs|
        invariant 0 <= i <= |rs|
        invariant forall j :: 0 <= j < i ==> rs[j].service != route.service
        invariant routes == old(routes) && fallback == old(fallback)
        invariant relays == old(relays)
      {
        if rs[i].service == route.service {
          assert rs[i] in rs;
          CancelService(route.service);
          UpsertReplaces(rs, i, route);
          routes := routes[h := rs[i := route]];
          return;
        }
        i := i + 1;
      }
      UpsertAppends(rs, route);
      routes := routes[h := rs + [route]];
    }

    method RemoveRoute(host: string, svc: string)
      modifies this
      ensures Contents() == RouterTable.RemoveRoute(old(Contents()), host, svc)
      ensures relays == Sever(old(relays), svc)
    {
      var h := ToLower(host);
      routes := routes[h := Without(GetOr(routes, h, []), svc)];
      if |routes[h]| == 0 {
        routes := routes - {h};
      }
      CancelService(svc);
      assert Contents().routes == RouterTable.RemoveRoute(old(Contents()), host, svc).routes;
    }

    method SetFallback(route: Route)
      modifies this`fallback
      ensures Contents() == RouterTable.SetFallback(old(Contents()), route)
    {
      fallback := Some(route);
    }

    method RemoveFallback(svc: string)
      modifies this
      ensures Contents() == RouterTable.RemoveFallback(old(Contents()))
      ensures relays == Sever(old(relays), svc)
    {
      fallback := None;
      CancelService(svc);
    }

    /** What a cleanup does on a router: the service's route for the host goes, or without a host the
        fallback, and in either case the service's connections. */
    method Detach(host: string, svc: string)
      modifies this
      ensures relays == Sever(old(relays), svc)
      ensures Contents() == if host != "" then RouterTable.RemoveRoute(old(Contents()), host, svc)
                            else RouterTable.RemoveFallback(old(Contents()))
    {
      if host != "" {
        RemoveRoute(host, svc);
      } else {
        RemoveFallback(svc);
      }
    }

    method IsEmpty() returns (b: bool)
      ensures b == RouterTable.IsEmpty(Contents())
    {
      b := |routes| == 0 && fallback == None;
    }

    /** The first route of the least type, HTTP before TCP. */
    method LookupRoute(host: string) returns (r: Option<Route>)
      ensures r == Lookup(Contents(), host)
    {
      if host !in routes || |routes[host]| == 0 {
        return None;
      }
      var rs := routes[host];
      var best := rs[0];
      var i := 1;
      while i < |rs|
        invariant 1 <= i <= |rs|
        invariant best == Best(rs[..i])
      {
        assert rs[..i + 1][..i] == rs[..i];
        if rs[i].kind == RouteHTTP && best.kind == RouteTCP {
          best := rs[i];
        }
        i := i + 1;
      }
      assert rs[..i] == rs;
      r := Some(best);
    }

    /** Where a connection goes; a router that can only fall back does not look at the server name. */
    method HandleConn(http: bool, sni: string) returns (d: Destination)
      ensures d == Handled(Contents(), http, sni)
    {
      if |routes| == 0 && !http {
        assert ToLower(sni) !in routes;
        return Unmatched(Contents(), http);
      }
      var r := LookupRoute(ToLower(sni));
      if r.None? {
        return Unmatched(Contents(), http);
      }
      d := if r.value.kind == RouteHTTP then ToHttp(http) else Relayed(r.value);
    }
  }

  lemma {:induction false} UpsertReplaces(rs: seq<Route>, i: nat, r: Route)
    requires i < |rs| && rs[i].service == r.service
    requires forall j :: 0 <= j < i ==> rs[j].service != r.service
    ensures Upsert(rs, r) == rs[i := r]
  {
    if i > 0 {
      UpsertReplaces(rs[1..], i - 1, r);
    }
  }

  lemma {:induction false} UpsertAppends(rs: seq<Route>, r: Route)
    requires forall j :: 0 <= j < |rs| ==> rs[j].service != r.service
    ensures Upsert(rs, r) == rs + [r]
  {
    if rs != [] {
      UpsertAppends(rs[1..], r);
    }
  }

  /** Some route of the list belongs to the service. */
  ghost predicate ServiceIn(rs: seq<Route>, svc: string) {
    exists x :: x in rs && x.service == svc
  }

  class Registry {
    const available: bool
    var refs: set<string>
    var bouncer: bool

    constructor (available: bool)
      ensures this.available == available && refs == {} && !bouncer
    {
      this.available := available;
      refs, bouncer := {}, false;
    }

    /** Registers the consumer, starting the bouncer for the first one. */
    method Acquire(svc: string, startOk: bool) returns (ok: bool)
      modifies this
      ensures ok == (available && (if svc in old(refs) then old(bouncer) else old(bouncer) || startOk))
      ensures refs == (if ok then old(refs) + {svc} else old(refs))
      ensures bouncer == (old(bouncer) || (ok && svc !in old(refs)))
    {
      if !available {
        return false;
      }
      if svc in refs {
        return bouncer;
      }
      if !bouncer {
        bouncer := startOk;
      }
      if !bouncer {
        return false;
      }
      refs := refs + {svc};
      ok := true;
    }

    /** Forgets the consumer, stopping the bouncer after the last one. */
    method Release(svc: string)
      modifies this
      ensures refs == old(refs) - {svc} && bouncer == (old(bouncer) && refs != {})
    {
      refs := refs - {svc};
      if |refs| == 0 && bouncer {
        bouncer := false;
      }
    }
  }

  class Server {
    const cfg: Config
    const mainRouter: Router
    const registry: Registry
    var portRouters: map<int, Router>
    var svcPorts: map<string, seq<int>>
    var udpRelays: map<string, Relay>
    var lastMappings: map<string, Mapping>
    var crowdsecServices: set<string>

    /** Every per-port router the server has created so far. */
    ghost var routers: set<Router>

    /** Routers are not shared between ports. */
    ghost predicate Valid()
      reads this
    {
      && registry.available == cfg.crowdsecAvailable
      && mainRouter !in routers
      && (forall p :: p in portRouters ==> portRouters[p] in routers)
      && (forall p, q :: p in portRouters && q in portRouters && p != q ==> portRouters[p] != portRouters[q])
    }

    ghost function Tables(): map<int, Table>
      requires Valid()
      reads this, routers
    {
      map p | p in portRouters :: portRouters[p].Contents()
    }

    ghost function State(): Proxy
      requires Valid()
      reads this, mainRouter, registry, routers
    {
      Proxy(mainRouter.Contents(), Tables(), svcPorts, udpRelays, lastMappings,
            crowdsecServices, registry.refs, registry.bouncer)
    }

    /** The relay connections of every router the server has created. */
    ghost function Connections(): Links<Router>
      reads this`routers, this`portRouters, mainRouter, routers
    {
      Links(map r: Router | r in routers + {mainRouter} :: r.relays, portRouters, mainRouter)
    }

    constructor (cfg: Config)
      ensures this.cfg == cfg && Valid() && State() == INIT
      ensures fresh(mainRouter) && fresh(registry) && fresh(routers)
    {
      this.cfg := cfg;
      mainRouter := new Router();
      registry := new Registry(cfg.crowdsecAvailable);
      portRouters, svcPorts, udpRelays, lastMappings, crowdsecServices := map[], map[], map[], map[], {};
      routers := {};
    }

    predicate IsRouterOf(r: Router, port: int)
      reads this
    {
      if IsMain(cfg, port) then r == mainRouter else port in portRouters && portRouters[port] == r
    }

    method RouterForPort(port: int, env: Env) returns (r: Router?)
      requires Valid()
      modifies this
      ensures Valid() && fresh(routers - old(routers))
      ensures r == null <==> EnsureRouter(cfg, old(State()), port, env) == None
      ensures r == null ==> State() == old(State())
      ensures r != null ==> IsRouterOf(r, port) && Some(State()) == EnsureRouter(cfg, old(State()), port, env)
    {
      if port == 0 || port == cfg.mainPort {
        return mainRouter;
      }
      if port in portRouters {
        return portRouters[port];
      }
      if !env.listenOk {
        return null;
      }
      r := new Router();
      portRouters := portRouters[port := r];
      routers := routers + {r};
      assert Tables() == old(Tables())[port := EMPTY];
    }

    method RouterForPortExisting(port: int) returns (r: Router?)
      requires Valid()
      ensures r != null <==> RouterExists(cfg, State(), port)
      ensures r != null ==> IsRouterOf(r, port) && r.Contents() == TableOf(cfg, State(), port)
    {
      if port == 0 || port == cfg.mainPort {
        return mainRouter;
      }
      if port in portRouters {
        return portRouters[port];
      }
      r := null;
    }

    // A router call seen from the server: the state changes at that router's port only, and the
    // connections at that router only.

    twostate predicate OnlyRouter(new router: Router)
      reads this, registry, mainRouter, routers
    {
      && unchanged(this) && unchanged(registry)
      && forall r :: r in routers + {mainRouter} && r != router ==>
           r.Contents() == old(r.Contents()) && r.relays == old(r.relays)
    }

    ghost function RouterOn(port: int): Router
      requires IsMain(cfg, port) || port in portRouters
      reads this
    {
      if IsMain(cfg, port) then mainRouter else portRouters[port]
    }

    twostate lemma TableChanged(port: int)
      requires old(Valid()) && Valid() && (IsMain(cfg, port) || port in portRouters) && OnlyRouter(RouterOn(port))
      ensures State() == PutTable(cfg, old(State()), port, RouterOn(port).Contents())
    {
      if IsMain(cfg, port) {
        forall q | q in portRouters ensures Tables()[q] == old(Tables())[q] {
          assert portRouters[q] in routers;
        }
        assert Tables() == old(Tables());
      } else {
        forall q | q in portRouters && q != port ensures Tables()[q] == old(Tables())[q] {
          assert portRouters[q] != portRouters[port];
        }
        assert Tables() == old(Tables())[port := RouterOn(port).Contents()];
      }
    }

    twostate lemma RelaysChanged(router: Router)
      requires old(Valid()) && OnlyRouter(router) && router in routers + {mainRouter}
      ensures Connections() == old(Connections()).(relays := old(Connections()).relays[router := router.relays])
    {
      var c, d := Connections().relays, old(Connections()).relays[router := router.relays];
      assert c.Keys == d.Keys;
      forall r | r in c ensures c[r] == d[r] {
      }
      assert c == d;
    }

    method SeverRouter(port: int)
      requires Valid() && port in portRouters
      modifies portRouters[port]
      ensures Valid() && State() == old(State())
      ensures var c := old(Connections()); var r := portRouters[port];
        Connections() == c.(relays := c.relays[r := SeverAll(c.relays[r])])
    {
      portRouters[port].CancelAll();
      RelaysChanged(portRouters[port]);
      assert Tables() == old(Tables());
    }

    method ForgetPort(port: int)
      requires Valid() && port in portRouters
      modifies this`portRouters
      ensures Valid() && Connections() == old(Connections()).(ports := old(portRouters) - {port})
      ensures State() == old(State()).(ports := old(State()).ports - {port})
    {
      portRouters := portRouters - {port};
      assert Tables() == old(Tables()) - {port};
    }

    method CleanupPortIfEmpty(port: int)
      requires Valid()
      modifies this`portRouters, routers
      ensures Valid() && State() == ProxyModel.CleanupPortIfEmpty(cfg, old(State()), port)
      ensures Connections() == if port in old(portRouters) && port !in State().ports then Drop(old(Connections()), port)
                               else old(Connections())
    {
      if port == 0 || port == cfg.mainPort || port !in portRouters {
        return;
      }
      var empty := portRouters[port].IsEmpty();
      if !empty {
        return;
      }
      SeverRouter(port);
      ForgetPort(port);
    }

    method AddRouteOn(router: Router, port: int, m: Mapping)
      requires Valid() && IsRouterOf(router, port)
      modifies router
      ensures Valid()
      ensures State() == PutTable(cfg, old(State()), port,
                                  RouterTable.AddRoute(TableOf(cfg, old(State()), port), m.domain, RouteOf(m)))
    {
      router.AddRoute(m.domain, RouteOf(m));
      TableChanged(port);
    }

    method SetFallbackOn(router: Router, port: int, m: Mapping)
      requires Valid() && IsRouterOf(router, port)
      modifies router
      ensures Valid()
      ensures State() == PutTable(cfg, old(State()), port,
                                  RouterTable.SetFallback(TableOf(cfg, old(State()), port), RouteOf(m)))
    {
      router.SetFallback(RouteOf(m));
      TableChanged(port);
    }

    method RemoveFrom(router: Router, port: int, host: string, svc: string)
      requires Valid() && IsRouterOf(router, port)
      modifies router
      ensures Valid()
      ensures State() == PutTable(cfg, old(State()), port,
                                  var t := TableOf(cfg, old(State()), port);
                                  if host != "" then RouterTable.RemoveRoute(t, host, svc) else RouterTable.RemoveFallback(t))
      ensures Connections() == SeverAt(old(Connections()), router, svc)
    {
      router.Detach(host, svc);
      TableChanged(port);
      RelaysChanged(router);
    }

    method ParseRestrictions(m: Mapping, env: Env)
      requires Valid()
      modifies this`crowdsecServices, registry
      ensures Valid() && State() == Acquire(cfg, old(State()), m, env)
    {
      if m.crowdsec {
        var ok := registry.Acquire(m.id, env.bouncerOk);
        if ok {
          crowdsecServices := crowdsecServices + {m.id};
        }
      }
      assert Tables() == old(Tables());
    }

    method ReleaseCrowdSec(svc: string)
      requires Valid()
      modifies this`crowdsecServices, registry
      ensures Valid() && State() == Release(old(State()), svc)
    {
      var had := svc in crowdsecServices;
      crowdsecServices := crowdsecServices - {svc};
      if had {
        registry.Release(svc);
      }
      assert Tables() == old(Tables());
    }

    // ------------------------------------------------------------------- setup

    method SetupHTTPMapping(m: Mapping, env: Env) returns (ok: bool)
      requires Valid()
      modifies this`crowdsecServices, registry, mainRouter
      ensures Valid() && State() == SetupHttp(cfg, old(State()), m, env).0 && ok == SetupHttp(cfg, old(State()), m, env).1
    {
      if |m.targets| == 0 {
        return true;
      }
      AddRouteOn(mainRouter, cfg.mainPort, m);
      ParseRestrictions(m, env);
      ok := env.authOk;
    }

    method SetupTCPMapping(m: Mapping, env: Env) returns (ok: bool)
      requires Valid()
      modifies this, registry, mainRouter, routers
      ensures Valid() && fresh(routers - old(routers))
      ensures State() == SetupTcp(cfg, old(State()), m, env).0 && ok == SetupTcp(cfg, old(State()), m, env).1
    {
      if !L4Accepts(cfg, m) {
        return false;
      }
      var router := RouterForPort(m.listenPort, env);
      if router == null {
        return false;
      }
      SetFallbackOn(router, m.listenPort, m);
      ParseRestrictions(m, env);
      TrackPort(m.id, m.listenPort);
      ok := true;
    }

    method TrackPort(svc: string, port: int)
      requires Valid()
      modifies this`svcPorts
      ensures Valid() && State() == old(State()).(svcPorts := old(svcPorts)[svc := [port]])
    {
      svcPorts := svcPorts[svc := [port]];
      assert Tables() == old(Tables());
    }

    method SetupTLSMapping(m: Mapping, env: Env) returns (ok: bool)
      requires Valid()
      modifies this, registry, mainRouter, routers
      ensures Valid() && fresh(routers - old(routers))
      ensures State() == SetupTls(cfg, old(State()), m, env).0 && ok == SetupTls(cfg, old(State()), m, env).1
    {
      if !L4Accepts(cfg, m) {
        return false;
      }
      var router := RouterForPort(m.listenPort, env);
      if router == null {
        return false;
      }
      AddRouteOn(router, m.listenPort, m);
      ParseRestrictions(m, env);
      if m.listenPort != cfg.mainPort {
        TrackPort(m.id, m.listenPort);
      }
      ok := true;
    }

    method RemoveUDPRelay(svc: string)
      requires Valid()
      modifies this`udpRelays
      ensures Valid() && State() == old(State()).(relays := old(udpRelays) - {svc})
    {
      if svc in udpRelays {
        udpRelays := udpRelays - {svc};
      }
      assert udpRelays == old(udpRelays) - {svc};
      assert Tables() == old(Tables());
    }

    method SetupUDPMapping(m: Mapping, env: Env) returns (ok: bool)
      requires Valid()
      modifies this`udpRelays, this`crowdsecServices, registry
      ensures Valid() && State() == SetupUdp(cfg, old(State()), m, env).0 && ok == SetupUdp(cfg, old(State()), m, env).1
    {
      if !L4Accepts(cfg, m) {
        return false;
      }
      RemoveUDPRelay(m.id);
      if !env.listenOk || !env.dialOk {
        return false;
      }
      ParseRestrictions(m, env);
      label Parsed:
      udpRelays := udpRelays[m.id := RelayOf(m)];
      assert Tables() == old@Parsed(Tables());
      ok := true;
    }

    method SetupMappingRoutes(m: Mapping, env: Env) returns (ok: bool)
      requires Valid()
      modifies this, registry, mainRouter, routers
      ensures Valid() && fresh(routers - old(routers))
      ensures State() == Setup(cfg, old(State()), m, env).0 && ok == Setup(cfg, old(State()), m, env).1
    {
      if m.mode == MODE_TCP {
        ok := SetupTCPMapping(m, env);
      } else if m.mode == MODE_UDP {
        ok := SetupUDPMapping(m, env);
      } else if m.mode == MODE_TLS {
        ok := SetupTLSMapping(m, env);
      } else {
        ok := SetupHTTPMapping(m, env);
      }
    }

    // ----------------------------------------------------------------- cleanup

    method CleanupTrackedPort(port: int, host: string, svc: string)
      requires Valid()
      modifies this`portRouters, mainRouter, routers
      ensures Valid() && State() == CleanupEntry(cfg, old(State()), port, host, svc)
      ensures Connections() == LinkEntry(cfg, old(Connections()), old(State()), port, host, svc)
    {
      var router := RouterForPortExisting(port);
      if router != null {
        RemoveFrom(router, port, host, svc);
      }
      CleanupPortIfEmpty(port);
    }

    method CleanupPorts(entries: seq<int>, host: string, svc: string)
      requires Valid()
      modifies this`portRouters, mainRouter, routers
      ensures Valid() && State() == CleanupEntries(cfg, old(State()), entries, host, svc)
      ensures Connections() == LinkEntries(cfg, old(Connections()), old(State()), entries, host, svc)
    {
      ghost var s0, c0 := State(), Connections();
      var i := 0;
      while i < |entries|
        invariant 0 <= i <= |entries| && Valid()
        invariant State() == CleanupEntries(cfg, s0, entries[..i], host, svc)
        invariant Connections() == LinkEntries(cfg, c0, s0, entries[..i], host, svc)
      {
        CleanupTrackedPort(entries[i], host, svc);
        assert entries[..i + 1][..i] == entries[..i];
        i := i + 1;
      }
      assert entries[..i] == entries;
    }

    method DropFromMain(m: Mapping)
      requires Valid()
      modifies mainRouter
      ensures Valid() && State() == DropMainRoute(old(State()), m)
      ensures Connections() == LinkMain(old(Connections()), m)
    {
      if m.domain != "" {
        RemoveFrom(mainRouter, cfg.mainPort, m.domain, m.id);
      }
    }

    method TakePorts(svc: string) returns (entries: seq<int>)
      requires Valid()
      modifies this`svcPorts
      ensures Valid() && entries == GetOr(old(svcPorts), svc, []) && Connections() == old(Connections())
      ensures State() == old(State()).(svcPorts := old(svcPorts) - {svc})
    {
      entries := GetOr(svcPorts, svc, []);
      svcPorts := svcPorts - {svc};
      assert Tables() == old(Tables());
    }

    method CleanupMappingRoutes(m: Mapping)
      requires Valid()
      modifies this, registry, mainRouter, routers
      ensures Valid() && routers == old(routers)
      ensures State() == Cleanup(cfg, old(State()), m)
      ensures Connections() == LinkCleanup(cfg, old(Connections()), old(State()), m)
    {
      DropFromMain(m);
      var entries := TakePorts(m.id);
      CleanupPorts(entries, m.domain, m.id);
      RemoveUDPRelay(m.id);
      ReleaseCrowdSec(m.id);
    }

    // ------------------------------------------------------------------ updates

    method StoreMapping(m: Mapping)
      requires Valid()
      modifies this`lastMappings
      ensures Valid() && State() == old(State()).(last := old(lastMappings)[m.id := m])
    {
      lastMappings := lastMappings[m.id := m];
      assert Tables() == old(Tables());
    }

    /** Sets the mapping up and stores it; a failed setup is rolled back. */
    method InstallMapping(m: Mapping, env: Env) returns (ok: bool)
      requires Valid()
      modifies this, registry, mainRouter, routers
      ensures Valid() && fresh(routers - old(routers))
      ensures State() == Install(cfg, old(State()), m, env) && ok == Setup(cfg, old(State()), m, env).1
    {
      ok := SetupMappingRoutes(m, env);
      if !ok {
        CleanupMappingRoutes(m);
        return;
      }
      StoreMapping(m);
    }

    method AddMapping(m: Mapping, env: Env) returns (ok: bool)
      requires Valid()
      modifies this, registry, mainRouter, routers
      ensures Valid() && fresh(routers - old(routers))
      ensures State() == ProxyModel.AddMapping(cfg, old(State()), m, env)
      ensures ok == (env.addPeerOk && Setup(cfg, old(State()), m, env).1)
    {
      if !env.addPeerOk {
        return false;
      }
      ok := InstallMapping(m, env);
    }

    /** Cleans up with the stored mapping, or with the message when nothing is stored. */
    method TearDown(m: Mapping)
      requires Valid()
      modifies this, registry, mainRouter, routers
      ensures Valid() && routers == old(routers) && State() == Teardown(cfg, old(State()), m)
    {
      if m.id in lastMappings {
        CleanupMappingRoutes(lastMappings[m.id]);
      } else {
        CleanupMappingRoutes(m);
      }
    }

    method ModifyMapping(m: Mapping, env: Env) returns (ok: bool)
      requires Valid()
      modifies this, registry, mainRouter, routers
      ensures Valid() && fresh(routers - old(routers))
      ensures State() == ProxyModel.ModifyMapping(cfg, old(State()), m, env)
      ensures ok == Setup(cfg, Teardown(cfg, old(State()), m), m, env).1
    {
      TearDown(m);
      ok := InstallMapping(m, env);
    }

    /** Forgets the stored mapping and returns the one to clean up with. */
    method DeleteMapping(m: Mapping) returns (stored: Mapping)
      requires Valid()
      modifies this`lastMappings
      ensures Valid() && stored == GetOr(old(lastMappings), m.id, m) && Connections() == old(Connections())
      ensures State() == old(State()).(last := old(lastMappings) - {m.id})
    {
      stored := if m.id in lastMappings then lastMappings[m.id] else m;
      lastMappings := lastMappings - {m.id};
      assert Tables() == old(Tables());
    }

    method RemoveMapping(m: Mapping)
      requires Valid()
      modifies this, registry, mainRouter, routers
      ensures Valid() && routers == old(routers)
      ensures State() == ProxyModel.RemoveMapping(cfg, old(State()), m)
      ensures Connections() == LinkCleanup(cfg, old(Connections()), old(State()).(last := old(lastMappings) - {m.id}),
                                           GetOr(old(lastMappings), m.id, m))
    {
      var stored := DeleteMapping(m);
      CleanupMappingRoutes(stored);
    }

    /** Applies a batch of updates in order; failed ones are reported and skipped over. */
    method ProcessMappings(steps: seq<Step>)
      requires Valid()
      modifies this, registry, mainRouter, routers
      ensures Valid() && fresh(routers - old(routers))
      ensures State() == Run(cfg, old(State()), steps)
    {
      var i := 0;
      while i < |steps|
        invariant 0 <= i <= |steps|
        invariant Valid() && fresh(routers - old(routers))
        invariant State() == Run(cfg, old(State()), steps[..i])
      {
        var m, env := steps[i].update.mapping, steps[i].env;
        match steps[i].update.kind {
          case Created =>
            var _ := AddMapping(m, env);
          case Modified =>
            var _ := ModifyMapping(m, env);
          case Removed =>
            RemoveMapping(m);
        }
        assert steps[..i + 1][..i] == steps[..i];
        i := i + 1;
      }
      assert steps[..i] == steps;
    }
  }
}
