/** What the routers hold, compared with what the live services ask for.
    `up` maps every service whose latest update succeeded to its mapping. */
module ProxyRouting {
  import opened Prelude
  import opened RouterTable
  import opened ProxyModel

  type Live = map<string, Mapping>

  /** The one place in the routing state that a mapping occupies. */
  datatype Footprint = Nothing | Sni(port: int, host: string) | CatchAll(port: int) | Datagram

  function Foot(cfg: Config, m: Mapping): Footprint {
    if m.mode == MODE_TCP then CatchAll(m.listenPort)
    else if m.mode == MODE_UDP then Datagram
    else if m.mode == MODE_TLS then
      if m.domain == "" then Nothing else Sni(m.listenPort, ToLower(m.domain))
    else if m.targets == [] || m.domain == "" then Nothing
    else Sni(cfg.mainPort, ToLower(m.domain))
  }

  /** The ports that the server records for a footprint. */
  function Tracked(cfg: Config, f: Footprint): seq<int> {
    match f
    case CatchAll(p) => [p]
    case Sni(p, _) => if p == cfg.mainPort then [] else [p]
    case _ => []
  }

  /** What management guarantees about a mapping: plain TCP has no domain, TLS has one. */
  predicate Addressed(m: Mapping) {
    && (m.mode == MODE_TCP ==> m.domain == "")
    && (m.mode == MODE_TLS ==> m.domain != "")
  }

  /** The table reachable on a port; ports without a router behave as empty ones. */
  function TableAt(cfg: Config, s: Proxy, p: int): Table {
    if p == cfg.mainPort then s.main
    else if p in s.ports then s.ports[p]
    else EMPTY
  }

  predicate Base(cfg: Config, s: Proxy) {
    && WellFormed(s.main)
    && (forall p :: p in s.ports ==> WellFormed(s.ports[p]))
    && 0 !in s.ports && cfg.mainPort !in s.ports
  }

  lemma TableAtWellFormed(cfg: Config, s: Proxy, p: int)
    requires Base(cfg, s)
    ensures WellFormed(TableAt(cfg, s, p))
  {
  }

  predicate OwnsRoute(cfg: Config, up: Live, p: int, h: string, x: Route) {
    x.service in up && Foot(cfg, up[x.service]) == Sni(p, h) && x == RouteOf(up[x.service])
  }

  predicate OwnsFallback(cfg: Config, up: Live, p: int, x: Route) {
    x.service in up && Foot(cfg, up[x.service]) == CatchAll(p) && x == RouteOf(up[x.service])
  }

  predicate OwnsRelay(cfg: Config, up: Live, k: string, x: Relay) {
    k in up && Foot(cfg, up[k]) == Datagram && x == RelayOf(up[k])
  }

  predicate Keyed(cfg: Config, up: Live) {
    forall k :: k in up ==>
      && up[k].id == k && Addressed(up[k])
      && (Tracked(cfg, Foot(cfg, up[k])) != [] ==> ValidPort(up[k].listenPort))
  }

  /** Route `x` for host `h` is live on port `p`. */
  predicate Routed(cfg: Config, s: Proxy, p: int, h: string, x: Route) {
    Has(TableAt(cfg, s, p), h, x)
  }

  function FallbackAt(cfg: Config, s: Proxy, p: int): Option<Route> {
    TableAt(cfg, s, p).fallback
  }

  // Soundness, one kind of artefact at a time. `svc` is exempt: what it still has sits at `f`.

  ghost predicate RoutesExcept(cfg: Config, s: Proxy, up: Live, svc: string, f: Footprint) {
    forall p, h, x :: Routed(cfg, s, p, h, x) ==>
      if x.service == svc then f == Sni(p, h) && (p == cfg.mainPort || svc in s.svcPorts)
      else OwnsRoute(cfg, up, p, h, x)
  }

  ghost predicate FallbacksExcept(cfg: Config, s: Proxy, up: Live, svc: string, f: Footprint) {
    forall p :: FallbackAt(cfg, s, p).Some? ==>
      var x := FallbackAt(cfg, s, p).value;
      if x.service == svc then f == CatchAll(p) && svc in s.svcPorts
      else OwnsFallback(cfg, up, p, x)
  }

  ghost predicate RelaysExcept(cfg: Config, s: Proxy, up: Live, svc: string, f: Footprint) {
    forall k :: k in s.relays ==>
      if k == svc then f == Datagram else OwnsRelay(cfg, up, k, s.relays[k])
  }

  ghost predicate PortsExcept(cfg: Config, s: Proxy, up: Live, svc: string, f: Footprint) {
    && (forall k :: k != svc ==> (k in s.svcPorts <==> k in up && Tracked(cfg, Foot(cfg, up[k])) != []))
    && (forall k :: k in s.svcPorts && k != svc ==> s.svcPorts[k] == Tracked(cfg, Foot(cfg, up[k])))
    && (svc in s.svcPorts ==> s.svcPorts[svc] == Tracked(cfg, f) != [] && ValidPort(s.svcPorts[svc][0]))
  }

  ghost predicate SoundExcept(cfg: Config, s: Proxy, up: Live, svc: string, f: Footprint) {
    && Keyed(cfg, up)
    && RoutesExcept(cfg, s, up, svc, f)
    && FallbacksExcept(cfg, s, up, svc, f)
    && RelaysExcept(cfg, s, up, svc, f)
    && PortsExcept(cfg, s, up, svc, f)
  }

  ghost predicate SoundRoutes(cfg: Config, s: Proxy, up: Live) {
    forall p, h, x :: Routed(cfg, s, p, h, x) ==> OwnsRoute(cfg, up, p, h, x)
  }

  ghost predicate SoundFallbacks(cfg: Config, s: Proxy, up: Live) {
    forall p :: FallbackAt(cfg, s, p).Some? ==> OwnsFallback(cfg, up, p, FallbackAt(cfg, s, p).value)
  }

  ghost predicate SoundRelays(cfg: Config, s: Proxy, up: Live) {
    forall k :: k in s.relays ==> OwnsRelay(cfg, up, k, s.relays[k])
  }

  ghost predicate SoundPorts(cfg: Config, s: Proxy, up: Live) {
    && (forall k :: k in s.svcPorts <==> k in up && Tracked(cfg, Foot(cfg, up[k])) != [])
    && (forall k :: k in s.svcPorts ==> s.svcPorts[k] == Tracked(cfg, Foot(cfg, up[k])))
  }

  /** Every live SNI route, catch-all, relay and tracked port belongs to a service of `up`
      and is the one its mapping describes. */
  ghost predicate Sound(cfg: Config, s: Proxy, up: Live) {
    && Keyed(cfg, up)
    && SoundRoutes(cfg, s, up)
    && SoundFallbacks(cfg, s, up)
    && SoundRelays(cfg, s, up)
    && SoundPorts(cfg, s, up)
  }

  /** The mapping's footprint is present in the routing state. */
  predicate Installed(cfg: Config, s: Proxy, m: Mapping) {
    match Foot(cfg, m)
    case Nothing => true
    case Sni(p, h) => Routed(cfg, s, p, h, RouteOf(m))
    case CatchAll(p) => FallbackAt(cfg, s, p) == Some(RouteOf(m))
    case Datagram => m.id in s.relays
  }

  ghost predicate CompleteExcept(cfg: Config, s: Proxy, up: Live, svc: string) {
    forall k :: k in up && k != svc ==> Installed(cfg, s, up[k])
  }

  ghost predicate Complete(cfg: Config, s: Proxy, up: Live) {
    forall k :: k in up ==> Installed(cfg, s, up[k])
  }

  /** No other live service claims the same catch-all port. */
  predicate SoleCatchAll(cfg: Config, up: Live, svc: string, f: Footprint) {
    f.CatchAll? ==> forall k :: k in up && k != svc ==> Foot(cfg, up[k]) != f
  }

  // ------------------------------------------------------------ table equations

  lemma EmptyTableIsEMPTY(t: Table)
    requires IsEmpty(t)
    ensures t == EMPTY
  {
    assert t.routes == map[];
  }

  lemma RemoveRouteFromEmpty(host: string, svc: string)
    ensures RemoveRoute(EMPTY, host, svc) == EMPTY
  {
    assert GetOr(EMPTY.routes, ToLower(host), []) == [];
    assert EMPTY.routes - {ToLower(host)} == map[];
  }

  /** What cleaning up one tracked port does to that port's table. */
  function CleanedTable(t: Table, host: string, svc: string): Table {
    if host != "" then RemoveRoute(t, host, svc) else RemoveFallback(t)
  }

  lemma CleanupPortIfEmptyTables(cfg: Config, s: Proxy, port: int)
    requires Base(cfg, s)
    ensures var s' := CleanupPortIfEmpty(cfg, s, port);
      && Base(cfg, s')
      && s' == s.(ports := s'.ports)
      && forall p :: TableAt(cfg, s', p) == TableAt(cfg, s, p)
  {
    if port in s.ports && IsEmpty(s.ports[port]) {
      EmptyTableIsEMPTY(s.ports[port]);
    }
  }

  lemma CleanupEntryTables(cfg: Config, s: Proxy, port: int, host: string, svc: string)
    requires Base(cfg, s) && ValidPort(port)
    ensures var s' := CleanupEntry(cfg, s, port, host, svc);
      && Base(cfg, s')
      && s' == s.(main := s'.main, ports := s'.ports)
      && forall p :: TableAt(cfg, s', p) ==
           if p != port then TableAt(cfg, s, p) else CleanedTable(TableAt(cfg, s, p), host, svc)
  {
    var t := TableAt(cfg, s, port);
    var t' := CleanedTable(t, host, svc);
    if RouterExists(cfg, s, port) {
      assert TableOf(cfg, s, port) == t;
      assert WellFormed(t') by { RemoveRouteHas(t, host, svc); }
      PutTableTables(cfg, s, port, t');
      CleanupPortIfEmptyTables(cfg, PutTable(cfg, s, port, t'), port);
    } else {
      assert t' == EMPTY by { RemoveRouteFromEmpty(host, svc); }
      CleanupPortIfEmptyTables(cfg, s, port);
    }
  }

  lemma EnsureRouterTables(cfg: Config, s: Proxy, port: int, env: Env)
    requires Base(cfg, s) && ValidPort(port)
    requires EnsureRouter(cfg, s, port, env).Some?
    ensures var s' := EnsureRouter(cfg, s, port, env).value;
      && Base(cfg, s')
      && s' == s.(ports := s'.ports)
      && (forall p :: TableAt(cfg, s', p) == TableAt(cfg, s, p))
      && (forall p, h, x :: Routed(cfg, s', p, h, x) <==> Routed(cfg, s, p, h, x))
      && (forall p :: FallbackAt(cfg, s', p) == FallbackAt(cfg, s, p))
      && TableOf(cfg, s', port) == TableAt(cfg, s', port) == TableAt(cfg, s, port)
  {
    assert WellFormed(EMPTY);
  }

  lemma PutTableTables(cfg: Config, s: Proxy, port: int, t: Table)
    requires Base(cfg, s) && ValidPort(port) && WellFormed(t)
    ensures var s' := PutTable(cfg, s, port, t);
      && Base(cfg, s')
      && s' == s.(main := s'.main, ports := s'.ports)
      && forall p :: TableAt(cfg, s', p) == if p == port then t else TableAt(cfg, s, p)
  {
  }

  // -------------------------------------------------------------------- cleanup

  /** Cleanup with `m` reaches everything that sits at `f`. */
  predicate Clears(m: Mapping, f: Footprint) {
    && (f.Sni? ==> ToLower(m.domain) == f.host && m.domain != "")
    && (f.CatchAll? ==> m.domain == "")
  }

  /** The routing part of what Cleanup does, given the ports it visited. */
  ghost predicate Cleaned(cfg: Config, s: Proxy, s': Proxy, m: Mapping, entries: seq<int>) {
    && s'.svcPorts == s.svcPorts - {m.id} && s'.relays == s.relays - {m.id} && s'.last == s.last
    && (forall p, h, x :: Routed(cfg, s', p, h, x) <==>
          Routed(cfg, s, p, h, x) &&
          !(m.domain != "" && (p == cfg.mainPort || p in entries) && h == ToLower(m.domain) && x.service == m.id))
    && (forall p :: FallbackAt(cfg, s', p) ==
          if m.domain == "" && p in entries then None else FallbackAt(cfg, s, p))
  }

  lemma CleanupMain(cfg: Config, s: Proxy, m: Mapping)
    requires Base(cfg, s)
    ensures var s1 := DropMainRoute(s, m);
      && Base(cfg, s1)
      && s1 == s.(main := s1.main)
      && (forall p, h, x :: Routed(cfg, s1, p, h, x) <==>
            Routed(cfg, s, p, h, x) &&
            !(m.domain != "" && p == cfg.mainPort && h == ToLower(m.domain) && x.service == m.id))
      && (forall p :: FallbackAt(cfg, s1, p) == FallbackAt(cfg, s, p))
  {
    RemoveRouteHas(s.main, m.domain, m.id);
  }

  lemma CleanupPort(cfg: Config, s: Proxy, port: int, m: Mapping)
    requires Base(cfg, s) && ValidPort(port)
    ensures var s1 := CleanupEntry(cfg, s, port, m.domain, m.id);
      && Base(cfg, s1)
      && s1 == s.(main := s1.main, ports := s1.ports)
      && (forall p, h, x :: Routed(cfg, s1, p, h, x) <==>
            Routed(cfg, s, p, h, x) &&
            !(m.domain != "" && p == port && h == ToLower(m.domain) && x.service == m.id))
      && (forall p :: FallbackAt(cfg, s1, p) ==
            if m.domain == "" && p == port then None else FallbackAt(cfg, s, p))
  {
    CleanupEntryTables(cfg, s, port, m.domain, m.id);
    RemoveRouteHas(TableAt(cfg, s, port), m.domain, m.id);
  }

  lemma CleanupRouters(cfg: Config, s: Proxy, m: Mapping, entries: seq<int>)
    requires Base(cfg, s)
    requires entries == [] || (|entries| == 1 && ValidPort(entries[0]))
    ensures var s3 := CleanupEntries(cfg, s, entries, m.domain, m.id);
      && Base(cfg, s3)
      && s3 == s.(main := s3.main, ports := s3.ports)
      && (forall p, h, x :: Routed(cfg, s3, p, h, x) <==>
            Routed(cfg, s, p, h, x) &&
            !(m.domain != "" && p in entries && h == ToLower(m.domain) && x.service == m.id))
      && (forall p :: FallbackAt(cfg, s3, p) ==
            if m.domain == "" && p in entries then None else FallbackAt(cfg, s, p))
  {
    if entries != [] {
      assert entries[..0] == [];
      assert CleanupEntries(cfg, s, entries[..0], m.domain, m.id) == s;
      CleanupPort(cfg, s, entries[0], m);
      assert entries == [entries[0]];
    }
  }

  lemma SameTables(cfg: Config, s: Proxy, s': Proxy)
    requires s'.main == s.main && s'.ports == s.ports
    ensures forall p, h, x :: Routed(cfg, s', p, h, x) <==> Routed(cfg, s, p, h, x)
    ensures forall p :: FallbackAt(cfg, s', p) == FallbackAt(cfg, s, p)
    ensures Base(cfg, s) ==> Base(cfg, s')
  {
  }

  lemma CleanedInTwoSteps(cfg: Config, s: Proxy, s1: Proxy, s2: Proxy, s': Proxy, m: Mapping, entries: seq<int>)
    requires forall p, h, x :: Routed(cfg, s1, p, h, x) <==>
               Routed(cfg, s, p, h, x) &&
               !(m.domain != "" && p == cfg.mainPort && h == ToLower(m.domain) && x.service == m.id)
    requires forall p :: FallbackAt(cfg, s1, p) == FallbackAt(cfg, s, p)
    requires forall p, h, x :: Routed(cfg, s2, p, h, x) <==>
               Routed(cfg, s1, p, h, x) &&
               !(m.domain != "" && p in entries && h == ToLower(m.domain) && x.service == m.id)
    requires forall p :: FallbackAt(cfg, s2, p) ==
               if m.domain == "" && p in entries then None else FallbackAt(cfg, s1, p)
    requires s'.main == s2.main && s'.ports == s2.ports
    requires s'.svcPorts == s.svcPorts - {m.id} && s'.relays == s.relays - {m.id} && s'.last == s.last
    ensures Cleaned(cfg, s, s', m, entries)
  {
    SameTables(cfg, s2, s');
  }

  lemma CleanupCleans(cfg: Config, s: Proxy, m: Mapping)
    requires Base(cfg, s)
    requires m.id in s.svcPorts ==> |s.svcPorts[m.id]| == 1 && ValidPort(s.svcPorts[m.id][0])
    ensures Base(cfg, Cleanup(cfg, s, m))
    ensures Cleaned(cfg, s, Cleanup(cfg, s, m), m, GetOr(s.svcPorts, m.id, []))
  {
    CleanupMain(cfg, s, m);
    var s1 := DropMainRoute(s, m);
    var entries := GetOr(s.svcPorts, m.id, []);
    var s2 := s1.(svcPorts := s1.svcPorts - {m.id});
    SameTables(cfg, s1, s2);
    CleanupRouters(cfg, s2, m, entries);
    var s3 := CleanupEntries(cfg, s2, entries, m.domain, m.id);
    CleanedInTwoSteps(cfg, s, s2, s3, Cleanup(cfg, s, m), m, entries);
    SameTables(cfg, s3, Cleanup(cfg, s, m));
  }

  lemma CleanedSound(cfg: Config, s: Proxy, s': Proxy, up: Live, m: Mapping, f: Footprint)
    requires SoundExcept(cfg, s, up, m.id, f) && Clears(m, f)
    requires Cleaned(cfg, s, s', m, GetOr(s.svcPorts, m.id, []))
    ensures Sound(cfg, s', up - {m.id})
  {
    CleanedRoutes(cfg, s, s', up, m, f);
    CleanedFallbacks(cfg, s, s', up, m, f);
    CleanedTables(cfg, s, s', up, m, f);
  }

  lemma CleanedRoutes(cfg: Config, s: Proxy, s': Proxy, up: Live, m: Mapping, f: Footprint)
    requires SoundExcept(cfg, s, up, m.id, f) && Clears(m, f)
    requires Cleaned(cfg, s, s', m, GetOr(s.svcPorts, m.id, []))
    ensures SoundRoutes(cfg, s', up - {m.id})
  {
  }

  lemma CleanedFallbacks(cfg: Config, s: Proxy, s': Proxy, up: Live, m: Mapping, f: Footprint)
    requires SoundExcept(cfg, s, up, m.id, f) && Clears(m, f)
    requires Cleaned(cfg, s, s', m, GetOr(s.svcPorts, m.id, []))
    ensures SoundFallbacks(cfg, s', up - {m.id})
  {
  }

  lemma CleanedTables(cfg: Config, s: Proxy, s': Proxy, up: Live, m: Mapping, f: Footprint)
    requires SoundExcept(cfg, s, up, m.id, f) && Clears(m, f)
    requires Cleaned(cfg, s, s', m, GetOr(s.svcPorts, m.id, []))
    ensures SoundRelays(cfg, s', up - {m.id}) && SoundPorts(cfg, s', up - {m.id})
  {
  }

  lemma CleanedComplete(cfg: Config, s: Proxy, s': Proxy, up: Live, m: Mapping, f: Footprint)
    requires SoundExcept(cfg, s, up, m.id, f) && Clears(m, f)
    requires Cleaned(cfg, s, s', m, GetOr(s.svcPorts, m.id, []))
    requires CompleteExcept(cfg, s, up, m.id) && SoleCatchAll(cfg, up, m.id, f)
    ensures Complete(cfg, s', up - {m.id})
  {
    forall k | k in up - {m.id} ensures Installed(cfg, s', up[k]) {
      assert Installed(cfg, s, up[k]);
    }
  }

  /** Cleaning up with a mapping that addresses the service's footprint removes every trace
      of the service and nothing of the others. */
  lemma CleanupSound(cfg: Config, s: Proxy, up: Live, m: Mapping, f: Footprint)
    requires Base(cfg, s) && SoundExcept(cfg, s, up, m.id, f) && Clears(m, f)
    ensures Base(cfg, Cleanup(cfg, s, m)) && Cleanup(cfg, s, m).last == s.last
    ensures Sound(cfg, Cleanup(cfg, s, m), up - {m.id})
    ensures CompleteExcept(cfg, s, up, m.id) && SoleCatchAll(cfg, up, m.id, f)
            ==> Complete(cfg, Cleanup(cfg, s, m), up - {m.id})
  {
    CleanupCleans(cfg, s, m);
    CleanedSound(cfg, s, Cleanup(cfg, s, m), up, m, f);
    if CompleteExcept(cfg, s, up, m.id) && SoleCatchAll(cfg, up, m.id, f) {
      CleanedComplete(cfg, s, Cleanup(cfg, s, m), up, m, f);
    }
  }

  /** Cleanup neither reads nor writes the stored mappings. */
  lemma {:induction false} CleanupEntriesIgnoreLast(
      cfg: Config, s: Proxy, entries: seq<int>, host: string, svc: string, last: map<string, Mapping>)
    ensures CleanupEntries(cfg, s.(last := last), entries, host, svc)
            == CleanupEntries(cfg, s, entries, host, svc).(last := last)
  {
    if entries != [] {
      var front := entries[..|entries| - 1];
      CleanupEntriesIgnoreLast(cfg, s, front, host, svc, last);
      CleanupEntryIgnoresLast(cfg, CleanupEntries(cfg, s, front, host, svc), entries[|entries| - 1], host, svc, last);
    }
  }

  lemma CleanupEntryIgnoresLast(cfg: Config, s: Proxy, port: int, host: string, svc: string, last: map<string, Mapping>)
    ensures CleanupEntry(cfg, s.(last := last), port, host, svc)
            == CleanupEntry(cfg, s, port, host, svc).(last := last)
  {
    var s' := s.(last := last);
    assert RouterExists(cfg, s', port) == RouterExists(cfg, s, port);
    if RouterExists(cfg, s, port) {
      var t := CleanedTable(TableOf(cfg, s, port), host, svc);
      assert TableOf(cfg, s', port) == TableOf(cfg, s, port);
      EmptyPortIgnoresLast(cfg, PutTable(cfg, s, port, t), port, last);
      assert PutTable(cfg, s', port, t) == PutTable(cfg, s, port, t).(last := last);
    }
  }

  lemma EmptyPortIgnoresLast(cfg: Config, s: Proxy, port: int, last: map<string, Mapping>)
    ensures CleanupPortIfEmpty(cfg, s.(last := last), port) == CleanupPortIfEmpty(cfg, s, port).(last := last)
  {
  }

  lemma CleanupIgnoresLast(cfg: Config, s: Proxy, m: Mapping, last: map<string, Mapping>)
    ensures Cleanup(cfg, s.(last := last), m) == Cleanup(cfg, s, m).(last := last)
  {
    var s1 := DropMainRoute(s, m);
    assert DropMainRoute(s.(last := last), m) == s1.(last := last);
    CleanupEntriesIgnoreLast(cfg, s1.(svcPorts := s1.svcPorts - {m.id}),
                             GetOr(s1.svcPorts, m.id, []), m.domain, m.id, last);
  }
}
