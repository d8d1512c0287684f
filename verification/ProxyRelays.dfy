/** Relay connections of the routers: which services' connections a cleanup closes. Connections of
    a service share a context per router; closing them cancels that context. */
module ProxyRelays {
  import opened Prelude
  import opened ProxyModel

  /** The relay connections of a router: the context of each service that has any, the contexts
      whose connections have been closed, and the number of the next context. */
  datatype Contexts = Contexts(live: map<string, nat>, closed: set<nat>, next: nat)

  /** Contexts in use are open and shared by no two services; all are numbered below `next`. */
  ghost predicate Distinct(x: Contexts) {
    && (forall k :: k in x.live ==> x.live[k] < x.next && x.live[k] !in x.closed)
    && (forall j, k :: j in x.live && k in x.live && x.live[j] == x.live[k] ==> j == k)
    && (forall c :: c in x.closed ==> c < x.next)
  }

  type Relays = x: Contexts | Distinct(x) witness Contexts(map[], {}, 0)

  const NO_RELAYS: Relays := Contexts(map[], {}, 0)

  /** Closes the connections of one service. */
  function Sever(x: Relays, svc: string): (y: Relays)
    ensures svc !in y.live && Shrunk(x, y)
    ensures forall k :: k in x.live && k != svc ==> k in y.live && x.live[k] !in y.closed
  {
    Contexts(x.live - {svc}, x.closed + (if svc in x.live then {x.live[svc]} else {}), x.next)
  }

  function SeverAll(x: Relays): (y: Relays)
    ensures y.live == map[] && Shrunk(x, y)
  {
    Contexts(map[], x.closed + (set k | k in x.live :: x.live[k]), x.next)
  }

  /** Makes sure that a service has a context: its own, or a new one that no connection ever had. */
  function Ensure(x: Relays, svc: string): (y: Relays)
    ensures svc in y.live && y.closed == x.closed && (svc in x.live ==> y == x)
    ensures svc !in x.live ==> y.live[svc] !in x.closed && forall k :: k in x.live ==> x.live[k] != y.live[svc]
    ensures forall k :: k != svc ==> (k in y.live <==> k in x.live) && (k in x.live ==> y.live[k] == x.live[k])
  {
    if svc in x.live then x else Contexts(x.live[svc := x.next], x.closed, x.next + 1)
  }

  /** Nothing was opened, and whatever is gone has been closed. */
  ghost predicate Shrunk(x: Contexts, y: Contexts) {
    && x.closed <= y.closed
    && (forall k :: k in y.live ==> k in x.live && y.live[k] == x.live[k])
    && (forall k :: k in x.live && k !in y.live ==> x.live[k] in y.closed)
  }

  // ----------------------------------------------------------------- all routers

  /** The connections of every router, and which router serves which port; `R` identifies routers. */
  datatype Links<R> = Links(relays: map<R, Relays>, ports: map<int, R>, main: R)

  ghost predicate Linked<R>(c: Links<R>) {
    c.main in c.relays && forall p :: p in c.ports ==> c.ports[p] in c.relays
  }

  /** The router that `routerForPortExisting` finds. */
  ghost function RouterAt<R>(cfg: Config, c: Links<R>, port: int): Option<R> {
    if IsMain(cfg, port) then Some(c.main) else if port in c.ports then Some(c.ports[port]) else None
  }

  ghost function SeverAt<R>(c: Links<R>, r: R, svc: string): Links<R>
    requires r in c.relays
  {
    c.(relays := c.relays[r := Sever(c.relays[r], svc)])
  }

  /** Dropping a router cancels the context it serves under, and with it every relay connection
      that is still open on it, whichever service it belongs to. */
  ghost function Drop<R>(c: Links<R>, port: int): Links<R>
    requires port in c.ports && c.ports[port] in c.relays
  {
    c.(relays := c.relays[c.ports[port] := SeverAll(c.relays[c.ports[port]])], ports := c.ports - {port})
  }

  /** One round over the tracked ports: `s` is the state before, whose successor says whether the
      router was dropped. */
  ghost function LinkEntry<R>(cfg: Config, c: Links<R>, s: Proxy, port: int, host: string, svc: string): (c': Links<R>)
    requires Linked(c)
    ensures Linked(c') && c'.relays.Keys == c.relays.Keys && c'.main == c.main
  {
    var r := RouterAt(cfg, c, port);
    var c1 := if r.Some? then SeverAt(c, r.value, svc) else c;
    if !IsMain(cfg, port) && port in c.ports && port !in CleanupEntry(cfg, s, port, host, svc).ports
    then Drop(c1, port) else c1
  }

  ghost function LinkEntries<R>(cfg: Config, c: Links<R>, s: Proxy, entries: seq<int>, host: string, svc: string): (c': Links<R>)
    requires Linked(c)
    ensures Linked(c') && c'.relays.Keys == c.relays.Keys && c'.main == c.main
  {
    if entries == [] then c
    else
      var front := entries[..|entries| - 1];
      LinkEntry(cfg, LinkEntries(cfg, c, s, front, host, svc), CleanupEntries(cfg, s, front, host, svc),
                entries[|entries| - 1], host, svc)
  }

  ghost function LinkMain<R>(c: Links<R>, m: Mapping): (c': Links<R>)
    requires Linked(c)
    ensures Linked(c') && c'.relays.Keys == c.relays.Keys && c'.main == c.main
  {
    if m.domain != "" then SeverAt(c, c.main, m.id) else c
  }

  /** What a cleanup does to the relay connections. */
  ghost function LinkCleanup<R>(cfg: Config, c: Links<R>, s: Proxy, m: Mapping): (c': Links<R>)
    requires Linked(c)
    ensures Linked(c') && c'.relays.Keys == c.relays.Keys && c'.main == c.main
  {
    var s1 := DropMainRoute(s, m);
    LinkEntries(cfg, LinkMain(c, m), s1.(svcPorts := s1.svcPorts - {m.id}), GetOr(s1.svcPorts, m.id, []), m.domain, m.id)
  }

  // ------------------------------------------------------------- what is closed

  /** Some port lost the router `r`. */
  ghost predicate Dropped<R>(c: Links<R>, c': Links<R>, r: R) {
    exists p :: p in c.ports && p !in c'.ports && c.ports[p] == r
  }

  /** On every router nothing was opened and only connections of `svc` were closed, except on routers
      that were dropped, where all were. */
  ghost predicate ClosedOnly<R>(c: Links<R>, c': Links<R>, svc: string) {
    && c'.main == c.main && c'.relays.Keys == c.relays.Keys
    && (forall p :: p in c'.ports ==> p in c.ports && c'.ports[p] == c.ports[p])
    && (forall r :: r in c.relays ==> Shrunk(c.relays[r], c'.relays[r]))
    && (forall r, k :: r in c.relays && k in c.relays[r].live && k !in c'.relays[r].live ==> k == svc || Dropped(c, c', r))
    && (forall p :: p in c.ports && p !in c'.ports ==> Linked(c) && c'.relays[c.ports[p]].live == map[])
  }

  lemma ShrunkMore(x: Contexts, y: Contexts, z: Contexts)
    requires Shrunk(x, y) && Shrunk(y, z)
    ensures Shrunk(x, z)
  {
  }

  lemma DroppedMore<R>(c: Links<R>, c1: Links<R>, c2: Links<R>, svc: string, r: R)
    requires ClosedOnly(c, c1, svc) && ClosedOnly(c1, c2, svc)
    ensures Dropped(c, c1, r) || Dropped(c1, c2, r) ==> Dropped(c, c2, r)
  {
  }

  lemma ClosedWhom<R>(c: Links<R>, c1: Links<R>, c2: Links<R>, svc: string, r: R, k: string)
    requires ClosedOnly(c, c1, svc) && ClosedOnly(c1, c2, svc)
    requires r in c.relays && k in c.relays[r].live && k !in c2.relays[r].live
    ensures k == svc || Dropped(c, c2, r)
  {
    DroppedMore(c, c1, c2, svc, r);
    if k in c1.relays[r].live {
      assert k == svc || Dropped(c1, c2, r);
    } else {
      assert k == svc || Dropped(c, c1, r);
    }
  }

  lemma ClosedOnlyMore<R>(c: Links<R>, c1: Links<R>, c2: Links<R>, svc: string)
    requires Linked(c) && ClosedOnly(c, c1, svc) && ClosedOnly(c1, c2, svc)
    ensures ClosedOnly(c, c2, svc)
  {
    forall r | r in c.relays ensures Shrunk(c.relays[r], c2.relays[r]) {
      ShrunkMore(c.relays[r], c1.relays[r], c2.relays[r]);
    }
    forall r, k | r in c.relays && k in c.relays[r].live && k !in c2.relays[r].live
      ensures k == svc || Dropped(c, c2, r)
    {
      ClosedWhom(c, c1, c2, svc, r, k);
    }
    forall p | p in c.ports && p !in c2.ports ensures c2.relays[c.ports[p]].live == map[] {
      assert Shrunk(c1.relays[c.ports[p]], c2.relays[c.ports[p]]);
    }
  }

  lemma SeverAtCloses<R>(c: Links<R>, r: R, svc: string)
    requires Linked(c) && r in c.relays
    ensures ClosedOnly(c, SeverAt(c, r, svc), svc) && svc !in SeverAt(c, r, svc).relays[r].live
  {
  }

  lemma DropCloses<R>(c: Links<R>, port: int, svc: string)
    requires Linked(c) && port in c.ports
    ensures Linked(Drop(c, port)) && ClosedOnly(c, Drop(c, port), svc) && Drop(c, port).relays[c.ports[port]].live == map[]
  {
    var c' := Drop(c, port);
    forall r, k | r in c.relays && k in c.relays[r].live && k !in c'.relays[r].live ensures Dropped(c, c', r) {
      assert r == c.ports[port];
    }
  }

  /** The service has no connection left on the router of a port. */
  ghost predicate ClosedAt<R>(cfg: Config, c: Links<R>, c': Links<R>, p: int, svc: string) {
    var r := RouterAt(cfg, c, p);
    r.Some? ==> r.value in c'.relays && svc !in c'.relays[r.value].live
  }

  lemma EntryCloses<R>(cfg: Config, c: Links<R>, s: Proxy, port: int, host: string, svc: string)
    requires Linked(c)
    ensures var c' := LinkEntry(cfg, c, s, port, host, svc); ClosedOnly(c, c', svc) && ClosedAt(cfg, c, c', port, svc)
  {
    var r, c' := RouterAt(cfg, c, port), LinkEntry(cfg, c, s, port, host, svc);
    if r.Some? {
      var c1 := SeverAt(c, r.value, svc);
      SeverAtCloses(c, r.value, svc);
      if c' != c1 {
        DropCloses(c1, port, svc);
        ClosedOnlyMore(c, c1, c', svc);
      }
    } else {
      NothingClosed(c, svc);
    }
  }

  lemma NothingClosed<R>(c: Links<R>, svc: string)
    ensures ClosedOnly(c, c, svc)
  {
  }

  /** Once closed, and with ports only losing routers, a service stays closed at a port. */
  lemma ClosedAtStays<R>(cfg: Config, c: Links<R>, c1: Links<R>, c2: Links<R>, p: int, svc: string)
    requires Linked(c) && Linked(c1) && ClosedOnly(c, c1, svc) && ClosedOnly(c1, c2, svc)
    requires ClosedAt(cfg, c, c1, p, svc) || ClosedAt(cfg, c1, c2, p, svc)
    ensures ClosedAt(cfg, c, c2, p, svc)
  {
    var r := RouterAt(cfg, c, p);
    if r.Some? {
      assert r.value in c1.relays && Shrunk(c1.relays[r.value], c2.relays[r.value]);
    }
  }

  lemma {:induction false} EntriesClose<R>(cfg: Config, c: Links<R>, s: Proxy, entries: seq<int>, host: string, svc: string)
    requires Linked(c)
    ensures var c' := LinkEntries(cfg, c, s, entries, host, svc);
      ClosedOnly(c, c', svc) && forall p :: p in entries ==> ClosedAt(cfg, c, c', p, svc)
  {
    if entries == [] {
      NothingClosed(c, svc);
    } else {
      var front, last := entries[..|entries| - 1], entries[|entries| - 1];
      var c1, c' := LinkEntries(cfg, c, s, front, host, svc), LinkEntries(cfg, c, s, entries, host, svc);
      EntriesClose(cfg, c, s, front, host, svc);
      EntryCloses(cfg, c1, CleanupEntries(cfg, s, front, host, svc), last, host, svc);
      ClosedOnlyMore(c, c1, c', svc);
      forall p | p in entries ensures ClosedAt(cfg, c, c', p, svc) {
        assert p in front || p == last;
        ClosedAtStays(cfg, c, c1, c', p, svc);
      }
    }
  }

  /** A cleanup closes the service's relay connections on the main router, when the mapping has a
      domain, and on every recorded port. Other services lose connections only on routers that the
      cleanup drops as empty. */
  lemma CleanupCloses<R>(cfg: Config, c: Links<R>, s: Proxy, m: Mapping)
    requires Linked(c)
    ensures var c' := LinkCleanup(cfg, c, s, m);
      && ClosedOnly(c, c', m.id)
      && (m.domain != "" ==> m.id !in c'.relays[c.main].live)
      && (forall p :: p in GetOr(s.svcPorts, m.id, []) ==> ClosedAt(cfg, c, c', p, m.id))
  {
    var s1 := DropMainRoute(s, m);
    var c1, c' := LinkMain(c, m), LinkCleanup(cfg, c, s, m);
    if m.domain != "" { SeverAtCloses(c, c.main, m.id); } else { NothingClosed(c, m.id); }
    EntriesClose(cfg, c1, s1.(svcPorts := s1.svcPorts - {m.id}), GetOr(s1.svcPorts, m.id, []), m.domain, m.id);
    ClosedOnlyMore(c, c1, c', m.id);
    forall p | p in GetOr(s.svcPorts, m.id, []) ensures ClosedAt(cfg, c, c', p, m.id) {
      ClosedAtStays(cfg, c, c1, c', p, m.id);
    }
    assert Shrunk(c1.relays[c.main], c'.relays[c.main]);
  }
}
