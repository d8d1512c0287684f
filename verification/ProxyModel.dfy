/** The mapping worker of the reverse proxy (proxy/server.go) as a transition function
    over values: routers, port bookkeeping, UDP relays, stored mappings and CrowdSec. */
module ProxyModel {
  import opened Prelude
  import opened RouterTable

  const MODE_TCP := "tcp"
  const MODE_UDP := "udp"
  const MODE_TLS := "tls"
  const PROTOCOL_TCP := "tcp"
  const PROTOCOL_TLS := "tls"
  const MAX_PORT := 65535

  /** The part of a ProxyMapping message that routing depends on. `targets` are the
      targets of its paths; `crowdsec` says that its restrictions ask for CrowdSec. */
  datatype Mapping = Mapping(id: string, account: string, domain: string, mode: string,
                             listenPort: int, targets: seq<string>, crowdsec: bool)

  datatype UpdateType = Created | Modified | Removed

  datatype Update = Update(kind: UpdateType, mapping: Mapping)

  /** What the outside world answers while one update is processed. */
  datatype Env = Env(addPeerOk: bool, listenOk: bool, dialOk: bool, authOk: bool, bouncerOk: bool)

  datatype Config = Config(mainPort: int, wireguardPort: int, crowdsecAvailable: bool)

  datatype Relay = Relay(account: string, service: string, domain: string, target: string, port: int)

  datatype Proxy = Proxy(
    main: Table,
    ports: map<int, Table>,
    svcPorts: map<string, seq<int>>,
    relays: map<string, Relay>,
    last: map<string, Mapping>,
    crowdsec: set<string>,
    refs: set<string>,
    bouncer: bool)

  const INIT: Proxy := Proxy(EMPTY, map[], map[], map[], map[], {}, {}, false)

  // ------------------------------------------------------------- mapping facts

  /** `net.SplitHostPort` succeeds. */
  predicate SplitsHostPort(s: string) {
    var colon := LastIndex(s, ':');
    if colon < 0 then false
    else if s[0] == '[' then
      var end := IndexFrom(s, ']', 0);
      && end + 1 == colon
      && IndexFrom(s, '[', 1) == |s|
      && IndexFrom(s, ']', end + 1) == |s|
    else
      && IndexFrom(s, ':', 0) == colon
      && IndexFrom(s, '[', 0) == |s|
      && IndexFrom(s, ']', 0) == |s|
  }

  function LastIndex(s: string, c: char): (i: int)
    ensures -1 <= i < |s|
    ensures i >= 0 ==> s[i] == c
  {
    if s == "" then -1
    else if s[|s| - 1] == c then |s| - 1
    else LastIndex(s[..|s| - 1], c)
  }

  /** `l4TargetAddress`: the first target when it is a host:port, else empty. */
  function TargetAddress(m: Mapping): string {
    if m.targets == [] then ""
    else if SplitsHostPort(m.targets[0]) then m.targets[0] else ""
  }

  predicate ValidPort(p: int) {
    0 < p <= MAX_PORT
  }

  /** The checks an L4 setup makes before it touches any state. */
  predicate L4Accepts(cfg: Config, m: Mapping) {
    && ValidPort(m.listenPort)
    && TargetAddress(m) != ""
    && !(cfg.wireguardPort != 0 && m.listenPort == cfg.wireguardPort)
  }

  function RouteOf(m: Mapping): Route {
    if m.mode == MODE_TCP then
      Route(RouteTCP, m.account, m.id, m.domain, PROTOCOL_TCP, TargetAddress(m))
    else if m.mode == MODE_TLS then
      Route(RouteTCP, m.account, m.id, m.domain, PROTOCOL_TLS, TargetAddress(m))
    else
      Route(RouteHTTP, m.account, m.id, m.domain, "", "")
  }

  function RelayOf(m: Mapping): Relay {
    Relay(m.account, m.id, m.domain, TargetAddress(m), m.listenPort)
  }

  // ------------------------------------------------------------------- routers

  predicate IsMain(cfg: Config, port: int) {
    port == 0 || port == cfg.mainPort
  }

  /** `routerForPortExisting` finds a router. */
  predicate RouterExists(cfg: Config, s: Proxy, port: int) {
    IsMain(cfg, port) || port in s.ports
  }

  function TableOf(cfg: Config, s: Proxy, port: int): Table
    requires RouterExists(cfg, s, port)
  {
    if IsMain(cfg, port) then s.main else s.ports[port]
  }

  function PutTable(cfg: Config, s: Proxy, port: int, t: Table): Proxy {
    if IsMain(cfg, port) then s.(main := t) else s.(ports := s.ports[port := t])
  }

  /** `routerForPort`: creates a per-port router when needed; None when Listen fails. */
  function EnsureRouter(cfg: Config, s: Proxy, port: int, env: Env): (r: Option<Proxy>)
    ensures r.Some? ==> RouterExists(cfg, r.value, port)
  {
    if RouterExists(cfg, s, port) then Some(s)
    else if env.listenOk then Some(s.(ports := s.ports[port := EMPTY]))
    else None
  }

  function CleanupPortIfEmpty(cfg: Config, s: Proxy, port: int): Proxy {
    if !IsMain(cfg, port) && port in s.ports && IsEmpty(s.ports[port])
    then s.(ports := s.ports - {port})
    else s
  }

  // ------------------------------------------------------------------ CrowdSec

  /** `parseRestrictions` together with `Registry.Acquire`. */
  function Acquire(cfg: Config, s: Proxy, m: Mapping, env: Env): Proxy {
    if !m.crowdsec || !cfg.crowdsecAvailable then s
    else if m.id in s.refs then
      if s.bouncer then s.(crowdsec := s.crowdsec + {m.id}) else s
    else if s.bouncer || env.bouncerOk then
      s.(refs := s.refs + {m.id}, bouncer := true, crowdsec := s.crowdsec + {m.id})
    else s
  }

  /** `releaseCrowdSec` together with `Registry.Release`. */
  function Release(s: Proxy, svc: string): Proxy {
    if svc in s.crowdsec then
      var refs := s.refs - {svc};
      s.(crowdsec := s.crowdsec - {svc}, refs := refs, bouncer := s.bouncer && refs != {})
    else s
  }

  // --------------------------------------------------------------------- setup

  function SetupHttp(cfg: Config, s: Proxy, m: Mapping, env: Env): (Proxy, bool) {
    if m.targets == [] then (s, true)
    else
      var s1 := Acquire(cfg, s.(main := AddRoute(s.main, m.domain, RouteOf(m))), m, env);
      (s1, env.authOk)
  }

  function SetupTcp(cfg: Config, s: Proxy, m: Mapping, env: Env): (Proxy, bool) {
    if !L4Accepts(cfg, m) then (s, false)
    else match EnsureRouter(cfg, s, m.listenPort, env)
      case None => (s, false)
      case Some(s1) =>
        var s2 := PutTable(cfg, s1, m.listenPort, SetFallback(TableOf(cfg, s1, m.listenPort), RouteOf(m)));
        var s3 := Acquire(cfg, s2, m, env);
        (s3.(svcPorts := s3.svcPorts[m.id := [m.listenPort]]), true)
  }

  function SetupUdp(cfg: Config, s: Proxy, m: Mapping, env: Env): (Proxy, bool) {
    if !L4Accepts(cfg, m) then (s, false)
    else
      var s1 := s.(relays := s.relays - {m.id});
      if !env.listenOk || !env.dialOk then (s1, false)
      else
        var s2 := Acquire(cfg, s1, m, env);
        (s2.(relays := s2.relays[m.id := RelayOf(m)]), true)
  }

  function SetupTls(cfg: Config, s: Proxy, m: Mapping, env: Env): (Proxy, bool) {
    if !L4Accepts(cfg, m) then (s, false)
    else match EnsureRouter(cfg, s, m.listenPort, env)
      case None => (s, false)
      case Some(s1) =>
        var s2 := PutTable(cfg, s1, m.listenPort, AddRoute(TableOf(cfg, s1, m.listenPort), m.domain, RouteOf(m)));
        var s3 := Acquire(cfg, s2, m, env);
        (if m.listenPort != cfg.mainPort then s3.(svcPorts := s3.svcPorts[m.id := [m.listenPort]]) else s3, true)
  }

  function Setup(cfg: Config, s: Proxy, m: Mapping, env: Env): (Proxy, bool) {
    if m.mode == MODE_TCP then SetupTcp(cfg, s, m, env)
    else if m.mode == MODE_UDP then SetupUdp(cfg, s, m, env)
    else if m.mode == MODE_TLS then SetupTls(cfg, s, m, env)
    else SetupHttp(cfg, s, m, env)
  }

  /** Whether a setup will succeed, decided before it touches any state. */
  predicate Succeeds(cfg: Config, s: Proxy, m: Mapping, env: Env) {
    if m.mode == MODE_TCP || m.mode == MODE_TLS then
      L4Accepts(cfg, m) && (RouterExists(cfg, s, m.listenPort) || env.listenOk)
    else if m.mode == MODE_UDP then L4Accepts(cfg, m) && env.listenOk && env.dialOk
    else m.targets == [] || env.authOk
  }

  lemma SetupSucceedsIff(cfg: Config, s: Proxy, m: Mapping, env: Env)
    ensures Setup(cfg, s, m, env).1 <==> Succeeds(cfg, s, m, env)
  {
  }

  /** Setting up does not touch the stored mappings. */
  lemma SetupKeepsLast(cfg: Config, s: Proxy, m: Mapping, env: Env)
    ensures Setup(cfg, s, m, env).0.last == s.last
  {
    if m.mode == MODE_TCP || m.mode == MODE_TLS {
      PortSetupKeepsLast(cfg, s, m, env);
    } else {
      AcquireKeepsLast(cfg, s.(relays := s.relays - {m.id}), m, env);
      AcquireKeepsLast(cfg, s.(main := AddRoute(s.main, m.domain, RouteOf(m))), m, env);
    }
  }

  lemma AcquireKeepsLast(cfg: Config, s: Proxy, m: Mapping, env: Env)
    ensures Acquire(cfg, s, m, env).last == s.last
  {
  }

  lemma PortSetupKeepsLast(cfg: Config, s: Proxy, m: Mapping, env: Env)
    ensures SetupTcp(cfg, s, m, env).0.last == s.last && SetupTls(cfg, s, m, env).0.last == s.last
  {
    var p := m.listenPort;
    if L4Accepts(cfg, m) && EnsureRouter(cfg, s, p, env).Some? {
      var s1 := EnsureRouter(cfg, s, p, env).value;
      var t := TableOf(cfg, s1, p);
      AcquireKeepsLast(cfg, PutTable(cfg, s1, p, SetFallback(t, RouteOf(m))), m, env);
      AcquireKeepsLast(cfg, PutTable(cfg, s1, p, AddRoute(t, m.domain, RouteOf(m))), m, env);
    }
  }

  // ------------------------------------------------------------------- cleanup

  /** One round of the loop over the tracked ports of a service. */
  function CleanupEntry(cfg: Config, s: Proxy, port: int, host: string, svc: string): Proxy {
    var s1 :=
      if RouterExists(cfg, s, port) then
        var t := TableOf(cfg, s, port);
        PutTable(cfg, s, port, if host != "" then RemoveRoute(t, host, svc) else RemoveFallback(t))
      else s;
    CleanupPortIfEmpty(cfg, s1, port)
  }

  function CleanupEntries(cfg: Config, s: Proxy, entries: seq<int>, host: string, svc: string): Proxy {
    if entries == [] then s
    else
      CleanupEntry(cfg, CleanupEntries(cfg, s, entries[..|entries| - 1], host, svc),
                   entries[|entries| - 1], host, svc)
  }

  /** The SNI route on the main router; covers HTTP and TLS on the main port. */
  function DropMainRoute(s: Proxy, m: Mapping): Proxy {
    if m.domain != "" then s.(main := RemoveRoute(s.main, m.domain, m.id)) else s
  }

  function Cleanup(cfg: Config, s: Proxy, m: Mapping): Proxy {
    var s1 := DropMainRoute(s, m);
    var entries := GetOr(s1.svcPorts, m.id, []);
    var s2 := CleanupEntries(cfg, s1.(svcPorts := s1.svcPorts - {m.id}), entries, m.domain, m.id);
    Release(s2.(relays := s2.relays - {m.id}), m.id)
  }

  // ------------------------------------------------------------------- updates

  /** Sets the mapping up and stores it, or rolls back what a failed setup left. */
  function Install(cfg: Config, s: Proxy, m: Mapping, env: Env): Proxy {
    var (s1, ok) := Setup(cfg, s, m, env);
    if ok then s1.(last := s1.last[m.id := m]) else Cleanup(cfg, s1, m)
  }

  function AddMapping(cfg: Config, s: Proxy, m: Mapping, env: Env): Proxy {
    if !env.addPeerOk then s else Install(cfg, s, m, env)
  }

  /** Tears down by the stored mapping, or by the message when nothing is stored. */
  function Teardown(cfg: Config, s: Proxy, m: Mapping): Proxy {
    Cleanup(cfg, s, GetOr(s.last, m.id, m))
  }

  function ModifyMapping(cfg: Config, s: Proxy, m: Mapping, env: Env): Proxy {
    Install(cfg, Teardown(cfg, s, m), m, env)
  }

  function RemoveMapping(cfg: Config, s: Proxy, m: Mapping): Proxy {
    Cleanup(cfg, s.(last := s.last - {m.id}), GetOr(s.last, m.id, m))
  }

  function Apply(cfg: Config, s: Proxy, u: Update, env: Env): Proxy {
    match u.kind
    case Created => AddMapping(cfg, s, u.mapping, env)
    case Modified => ModifyMapping(cfg, s, u.mapping, env)
    case Removed => RemoveMapping(cfg, s, u.mapping)
  }

  /** An update together with what the environment answered to it. */
  datatype Step = Step(update: Update, env: Env)

  /** `processMappings` over everything received so far. */
  function Run(cfg: Config, s: Proxy, steps: seq<Step>): Proxy {
    if steps == [] then s
    else
      var front := steps[..|steps| - 1];
      var step := steps[|steps| - 1];
      Apply(cfg, Run(cfg, s, front), step.update, step.env)
  }
}
