/** What the routers hold in terms of the fields of the mappings: which route or relay a successful
    setup writes, which setups succeed, and where connections go after every run. */
module ProxyContents {
  import opened Prelude
  import opened RouterTable
  import opened ProxyModel
  import opened ProxyRouting
  import opened ProxySetup
  import opened ProxyTheorems
  import opened ProxyExact
  import opened ProxyHolders

  // ------------------------------------------------------------------- target addresses

  predicate Plain(s: string) {
    ':' !in s && '[' !in s && ']' !in s
  }

  predicate PlainAddress(s: string, host: string, port: string) {
    Plain(host) && Plain(port) && s == host + ":" + port
  }

  predicate BracketAddress(s: string, host: string, port: string) {
    '[' !in host && ']' !in host && Plain(port) && s == "[" + host + "]:" + port
  }

  /** A host and a port around a colon; a host with colons stands in brackets. */
  ghost predicate HostPort(s: string) {
    (exists h, p :: PlainAddress(s, h, p)) || (exists h, p :: BracketAddress(s, h, p))
  }

  lemma {:induction false} LastIndexIs(s: string, c: char, i: int)
    requires 0 <= i < |s| && s[i] == c && forall k :: i < k < |s| ==> s[k] != c
    ensures LastIndex(s, c) == i
  {
    if i < |s| - 1 {
      LastIndexIs(s[..|s| - 1], c, i);
    }
  }

  lemma {:induction false} NothingAfterLast(s: string, c: char)
    ensures forall k :: LastIndex(s, c) < k < |s| ==> s[k] != c
  {
    if s != "" && s[|s| - 1] != c {
      NothingAfterLast(s[..|s| - 1], c);
    }
  }

  lemma IndexIs(s: string, c: char, from: nat, i: nat)
    requires from <= i <= |s| && (forall k :: from <= k < i ==> s[k] != c) && (i < |s| ==> s[i] == c)
    ensures IndexFrom(s, c, from) == i
  {
  }

  lemma PlainSplits(s: string, h: string, p: string)
    requires PlainAddress(s, h, p)
    ensures SplitsHostPort(s)
  {
    assert forall k :: 0 <= k < |h| ==> s[k] == h[k] && h[k] in h;
    assert forall k :: |h| < k < |s| ==> s[k] == p[k - |h| - 1] && p[k - |h| - 1] in p;
    assert s[|h|] == ':';
    LastIndexIs(s, ':', |h|);
    IndexIs(s, ':', 0, |h|);
    IndexIs(s, '[', 0, |s|);
    IndexIs(s, ']', 0, |s|);
  }

  lemma BracketSplits(s: string, h: string, p: string)
    requires BracketAddress(s, h, p)
    ensures SplitsHostPort(s)
  {
    var n := |h|;
    assert s[0] == '[' && s[n + 1] == ']' && s[n + 2] == ':';
    assert forall k :: 1 <= k < n + 1 ==> s[k] == h[k - 1] && h[k - 1] in h;
    assert forall k :: n + 2 < k < |s| ==> s[k] == p[k - n - 3] && p[k - n - 3] in p;
    LastIndexIs(s, ':', n + 2);
    IndexIs(s, ']', 0, n + 1);
    IndexIs(s, '[', 1, |s|);
    IndexIs(s, ']', n + 2, |s|);
  }

  lemma AbsentIn(s: string, c: char, i: nat, j: nat)
    requires i <= j <= |s| && forall k :: i <= k < j ==> s[k] != c
    ensures c !in s[i..j]
  {
  }

  lemma SplitsPlain(s: string)
    requires SplitsHostPort(s) && s[0] != '['
    ensures var i := LastIndex(s, ':'); PlainAddress(s, s[..i], s[i + 1..])
  {
    var i := LastIndex(s, ':');
    NothingAfterLast(s, ':');
    PlainParts(s, i);
  }

  lemma PlainParts(s: string, i: nat)
    requires i < |s| && s[i] == ':' && (forall k :: 0 <= k < |s| && k != i ==> s[k] != ':')
    requires forall k :: 0 <= k < |s| ==> s[k] != '[' && s[k] != ']'
    ensures PlainAddress(s, s[..i], s[i + 1..])
  {
    AbsentIn(s, ':', 0, i);
    AbsentIn(s, '[', 0, i);
    AbsentIn(s, ']', 0, i);
    AbsentIn(s, ':', i + 1, |s|);
    AbsentIn(s, '[', i + 1, |s|);
    AbsentIn(s, ']', i + 1, |s|);
    assert s == s[..i] + ":" + s[i + 1..];
  }

  lemma SplitsBracket(s: string)
    requires SplitsHostPort(s) && s[0] == '['
    ensures var i := LastIndex(s, ':'); BracketAddress(s, s[1..i - 1], s[i + 1..])
  {
    var i := LastIndex(s, ':');
    NothingAfterLast(s, ':');
    BracketParts(s, i);
  }

  lemma BracketParts(s: string, i: nat)
    requires 1 < i < |s| && s[0] == '[' && s[i - 1] == ']' && s[i] == ':'
    requires forall k :: i < k < |s| ==> s[k] != ':'
    requires forall k :: 0 < k < |s| ==> s[k] != '['
    requires forall k :: 0 < k < |s| && k != i - 1 ==> s[k] != ']'
    ensures BracketAddress(s, s[1..i - 1], s[i + 1..])
  {
    AbsentIn(s, '[', 1, i - 1);
    AbsentIn(s, ']', 1, i - 1);
    AbsentIn(s, ':', i + 1, |s|);
    AbsentIn(s, '[', i + 1, |s|);
    AbsentIn(s, ']', i + 1, |s|);
    assert s == "[" + s[1..i - 1] + "]:" + s[i + 1..];
  }

  /** `net.SplitHostPort` accepts exactly the texts of this shape. */
  lemma SplitsIff(s: string)
    ensures SplitsHostPort(s) <==> HostPort(s)
  {
    if SplitsHostPort(s) {
      if s[0] == '[' { SplitsBracket(s); } else { SplitsPlain(s); }
    }
    if h, p :| PlainAddress(s, h, p) {
      PlainSplits(s, h, p);
    }
    if h, p :| BracketAddress(s, h, p) {
      BracketSplits(s, h, p);
    }
  }

  /** The checks on a mapping that is to be relayed, on its fields. */
  ghost predicate Relayable(cfg: Config, m: Mapping) {
    && 1 <= m.listenPort <= 65535
    && |m.targets| > 0 && HostPort(m.targets[0])
    && (cfg.wireguardPort == 0 || m.listenPort != cfg.wireguardPort)
  }

  lemma AcceptsIff(cfg: Config, m: Mapping)
    ensures L4Accepts(cfg, m) <==> Relayable(cfg, m)
    ensures L4Accepts(cfg, m) ==> TargetAddress(m) == m.targets[0]
  {
    if m.targets != [] {
      SplitsIff(m.targets[0]);
      assert HostPort(m.targets[0]) ==> m.targets[0] != "";
    }
  }

  /** Which setups succeed, from the fields of the mapping, the routers and the environment. */
  lemma SetupAccepted(cfg: Config, s: Proxy, m: Mapping, env: Env)
    ensures Setup(cfg, s, m, env).1 <==>
            if m.mode == "tcp" || m.mode == "tls" then
              Relayable(cfg, m) && (m.listenPort == cfg.mainPort || m.listenPort in s.ports || env.listenOk)
            else if m.mode == "udp" then Relayable(cfg, m) && env.listenOk && env.dialOk
            else m.targets == [] || env.authOk
  {
    SetupSucceedsIff(cfg, s, m, env);
    AcceptsIff(cfg, m);
  }

  // ------------------------------------------------------------------ what a setup writes

  function TcpRoute(m: Mapping): Route
    requires m.targets != []
  {
    Route(RouteTCP, m.account, m.id, m.domain, "tcp", m.targets[0])
  }

  function TlsRoute(m: Mapping): Route
    requires m.targets != []
  {
    Route(RouteTCP, m.account, m.id, m.domain, "tls", m.targets[0])
  }

  function HttpRoute(m: Mapping): Route {
    Route(RouteHTTP, m.account, m.id, m.domain, "", "")
  }

  ghost predicate SameRoutes(cfg: Config, s: Proxy, s': Proxy) {
    forall p, h, x :: Routed(cfg, s', p, h, x) <==> Routed(cfg, s, p, h, x)
  }

  ghost predicate SameFallbacks(cfg: Config, s: Proxy, s': Proxy) {
    forall p :: FallbackAt(cfg, s', p) == FallbackAt(cfg, s, p)
  }

  /** The route `r` was added for host `h` on port `q`, in place of those of its service there. */
  ghost predicate RouteAdded(cfg: Config, s: Proxy, s': Proxy, q: int, h: string, r: Route) {
    forall p, g, x :: Routed(cfg, s', p, g, x) <==>
      if p == q && g == h then x == r || (Routed(cfg, s, p, g, x) && x.service != r.service)
      else Routed(cfg, s, p, g, x)
  }

  /** A TCP setup makes its target the fallback of the listen port, records the port, and changes
      nothing else. */
  lemma TcpPlaced(cfg: Config, s: Proxy, m: Mapping, env: Env)
    requires Base(cfg, s) && m.mode == "tcp" && Setup(cfg, s, m, env).1
    ensures m.targets != []
    ensures var s' := Setup(cfg, s, m, env).0;
      && (forall p :: FallbackAt(cfg, s', p) == if p == m.listenPort then Some(TcpRoute(m)) else FallbackAt(cfg, s, p))
      && SameRoutes(cfg, s, s') && s'.relays == s.relays && s'.last == s.last
      && s'.svcPorts == s.svcPorts[m.id := [m.listenPort]]
  {
    SetupTcpEffect(cfg, s, m, env);
    AcceptsIff(cfg, m);
  }

  /** A TLS setup with a domain routes the lower-case domain on the listen port to its target, and
      records the port unless it is the main one. */
  lemma TlsPlaced(cfg: Config, s: Proxy, m: Mapping, env: Env)
    requires Base(cfg, s) && m.mode == "tls" && m.domain != "" && Setup(cfg, s, m, env).1
    ensures m.targets != []
    ensures var s' := Setup(cfg, s, m, env).0;
      && RouteAdded(cfg, s, s', m.listenPort, ToLower(m.domain), TlsRoute(m))
      && SameFallbacks(cfg, s, s') && s'.relays == s.relays && s'.last == s.last
      && s'.svcPorts == if m.listenPort == cfg.mainPort then s.svcPorts else s.svcPorts[m.id := [m.listenPort]]
  {
    SetupTlsEffect(cfg, s, m, env);
    AcceptsIff(cfg, m);
  }

  /** An HTTP setup with a domain and a target routes the domain on the main port to the HTTP server. */
  lemma HttpPlaced(cfg: Config, s: Proxy, m: Mapping, env: Env)
    requires Base(cfg, s) && m.mode != "tcp" && m.mode != "udp" && m.mode != "tls" && Setup(cfg, s, m, env).1
    requires m.domain != "" && m.targets != []
    ensures var s' := Setup(cfg, s, m, env).0;
      && RouteAdded(cfg, s, s', cfg.mainPort, ToLower(m.domain), HttpRoute(m))
      && SameFallbacks(cfg, s, s') && s'.relays == s.relays && s'.last == s.last && s'.svcPorts == s.svcPorts
  {
    SetupHttpEffect(cfg, s, m, env);
  }

  /** A UDP setup starts a relay from the listen port to its target in place of the service's old one. */
  lemma UdpPlaced(cfg: Config, s: Proxy, m: Mapping, env: Env)
    requires Base(cfg, s) && m.mode == "udp" && Setup(cfg, s, m, env).1
    ensures m.targets != []
    ensures var s' := Setup(cfg, s, m, env).0;
      && s'.relays == s.relays[m.id := Relay(m.account, m.id, m.domain, m.targets[0], m.listenPort)]
      && SameRoutes(cfg, s, s') && SameFallbacks(cfg, s, s') && s'.svcPorts == s.svcPorts && s'.last == s.last
  {
    SetupUdpEffect(cfg, s, m, env);
    AcceptsIff(cfg, m);
  }

  /** What a setup that fails has done by then: nothing for TCP and TLS and for a UDP mapping that fails
      its checks; a UDP mapping that passes them has lost its old relay; and an HTTP mapping with a
      domain is routed already. */
  lemma FailedSetup(cfg: Config, s: Proxy, m: Mapping, env: Env)
    requires Base(cfg, s) && !Setup(cfg, s, m, env).1
    ensures var s' := Setup(cfg, s, m, env).0;
      if m.mode == "tcp" || m.mode == "tls" then s' == s
      else if m.mode == "udp" then
        s' == if Relayable(cfg, m) then s.(relays := s.relays - {m.id}) else s
      else m.domain != "" ==> RouteAdded(cfg, s, s', cfg.mainPort, ToLower(m.domain), HttpRoute(m))
  {
    AcceptsIff(cfg, m);
    if m.mode != "tcp" && m.mode != "tls" && m.mode != "udp" && m.domain != "" {
      HttpPlaced(cfg, s, m, env.(authOk := true));
    }
  }

  // -------------------------------------------------------------------------- every run

  predicate LiveAccepted(cfg: Config, up: Live) {
    forall k :: k in up && (up[k].mode == "tcp" || up[k].mode == "udp" || up[k].mode == "tls") ==> L4Accepts(cfg, up[k])
  }

  /** Every live relayed service has passed the checks. */
  lemma {:induction false} RunAccepted(cfg: Config, steps: seq<Step>)
    ensures LiveAccepted(cfg, LiveRun(cfg, INIT, map[], steps))
  {
    if steps != [] {
      RunAccepted(cfg, steps[..|steps| - 1]);
    }
  }

  predicate HttpFor(cfg: Config, up: Live, k: string, p: int, sni: string) {
    k in up && p == cfg.mainPort && up[k].mode != "tcp" && up[k].mode != "udp" && up[k].mode != "tls"
    && up[k].targets != [] && up[k].domain != "" && SameLetters(up[k].domain, sni)
  }

  predicate TlsFor(up: Live, k: string, p: int, sni: string) {
    k in up && p == up[k].listenPort && up[k].mode == "tls" && up[k].targets != []
    && up[k].domain != "" && SameLetters(up[k].domain, sni)
  }

  predicate TcpFor(up: Live, k: string, p: int) {
    k in up && up[k].id == k && p == up[k].listenPort && up[k].mode == "tcp" && up[k].targets != []
  }

  /** Where a connection to port `p` that asks for `sni` has to go. */
  ghost predicate Served(cfg: Config, up: Live, hold: Holders, p: int, sni: string, d: Destination) {
    if exists k :: HttpFor(cfg, up, k, p, sni) then d == Http
    else if exists k :: TlsFor(up, k, p, sni) then
      exists k :: TlsFor(up, k, p, sni) && d == Relayed(TlsRoute(up[k]))
    else if p in hold then TcpFor(up, hold[p], p) && d == Relayed(TcpRoute(up[hold[p]]))
    else d == if p == cfg.mainPort then Http else Closed
  }

  lemma ClaimMeaning(cfg: Config, up: Live, k: string, p: int, sni: string)
    requires LiveAccepted(cfg, up)
    ensures Claims(cfg, up, k, p, ToLower(sni)) <==> HttpFor(cfg, up, k, p, sni) || TlsFor(up, k, p, sni)
    ensures HttpClaims(cfg, up, k, p, ToLower(sni)) <==> HttpFor(cfg, up, k, p, sni)
    ensures TlsFor(up, k, p, sni) ==> RouteOf(up[k]) == TlsRoute(up[k])
  {
    if k in up {
      LowerIff(up[k].domain, sni);
      AcceptsIff(cfg, up[k]);
    }
  }

  /** After every admissible run, for every port and every server name in any letter case: a name of a
      live HTTP service goes to the HTTP server, one of live TLS services is relayed to the target of
      one of them, any other to the target of the TCP service that holds the port, and without a
      holder to the HTTP server on the main port and nowhere else. */
  lemma ConnectionsServed(cfg: Config, steps: seq<Step>, p: int, sni: string)
    requires AdmissibleRun(cfg, steps)
    ensures Served(cfg, LiveRun(cfg, INIT, map[], steps), HoldersRun(cfg, steps), p, sni,
                   DestinationOf(cfg, Run(cfg, INIT, steps), p, sni))
  {
    var up, hold := LiveRun(cfg, INIT, map[], steps), HoldersRun(cfg, steps);
    RunAccepted(cfg, steps);
    RunSound(cfg, steps);
    RunHolds(cfg, steps);
    DestinationAlways(cfg, steps, p, sni);
    LandsServed(cfg, Run(cfg, INIT, steps), up, hold, p, sni, DestinationOf(cfg, Run(cfg, INIT, steps), p, sni));
  }

  lemma LandsServed(cfg: Config, s: Proxy, up: Live, hold: Holders, p: int, sni: string, d: Destination)
    requires LiveAccepted(cfg, up) && Keyed(cfg, up) && Holds(cfg, s, up, hold)
    requires Lands(cfg, up, hold, p, ToLower(sni), d)
    ensures Served(cfg, up, hold, p, sni, d)
  {
    forall k ensures Claims(cfg, up, k, p, ToLower(sni)) <==> HttpFor(cfg, up, k, p, sni) || TlsFor(up, k, p, sni)
      ensures HttpClaims(cfg, up, k, p, ToLower(sni)) <==> HttpFor(cfg, up, k, p, sni)
      ensures TlsFor(up, k, p, sni) ==> RouteOf(up[k]) == TlsRoute(up[k])
    {
      ClaimMeaning(cfg, up, k, p, sni);
    }
    if p in hold {
      AcceptsIff(cfg, up[hold[p]]);
    }
  }

  /** After every admissible run the UDP relays are exactly those of the live UDP services, each from
      the service's listen port to its target. */
  lemma RelaysServed(cfg: Config, steps: seq<Step>, k: string)
    requires AdmissibleRun(cfg, steps)
    ensures var s, up := Run(cfg, INIT, steps), LiveRun(cfg, INIT, map[], steps);
      && (k in s.relays <==> k in up && up[k].mode == "udp")
      && (k in s.relays ==>
            up[k].targets != []
            && s.relays[k] == Relay(up[k].account, k, up[k].domain, up[k].targets[0], up[k].listenPort))
  {
    var s, up := Run(cfg, INIT, steps), LiveRun(cfg, INIT, map[], steps);
    RunKnown(cfg, steps);
    RunSound(cfg, steps);
    KnownRelay(cfg, s, up, HoldersRun(cfg, steps), k);
    RunAccepted(cfg, steps);
    if k in s.relays {
      AcceptsIff(cfg, up[k]);
    }
  }
}
