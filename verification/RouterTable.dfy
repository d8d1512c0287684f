/** The routing table of one TCP listener (proxy/internal/tcp/router.go) as a value:
    SNI routes per host, in insertion order, and one optional catch-all route. */
module RouterTable {
  import opened Prelude

  datatype RouteType = RouteHTTP | RouteTCP

  datatype Route = Route(kind: RouteType, account: string, service: string,
                         domain: string, protocol: string, target: string)

  datatype Table = Table(routes: map<string, seq<Route>>, fallback: Option<Route>)

  const EMPTY: Table := Table(map[], None)

  /** Replaces the first route of the same service in place, or appends. */
  function Upsert(rs: seq<Route>, r: Route): seq<Route> {
    if rs == [] then [r]
    else if rs[0].service == r.service then [r] + rs[1..]
    else [rs[0]] + Upsert(rs[1..], r)
  }

  /** Drops every route of service `svc`, keeping the order of the others. */
  function Without(rs: seq<Route>, svc: string): seq<Route> {
    if rs == [] then []
    else if rs[0].service == svc then Without(rs[1..], svc)
    else [rs[0]] + Without(rs[1..], svc)
  }

  function AddRoute(t: Table, host: string, r: Route): Table {
    var h := ToLower(host);
    if h == "" then t
    else t.(routes := t.routes[h := Upsert(GetOr(t.routes, h, []), r)])
  }

  function RemoveRoute(t: Table, host: string, svc: string): Table {
    var h := ToLower(host);
    var rest := Without(GetOr(t.routes, h, []), svc);
    t.(routes := if rest == [] then t.routes - {h} else t.routes[h := rest])
  }

  function SetFallback(t: Table, r: Route): Table {
    t.(fallback := Some(r))
  }

  /** Clears the catch-all whoever owns it, as the router does. */
  function RemoveFallback(t: Table): Table {
    t.(fallback := None)
  }

  predicate IsEmpty(t: Table) {
    |t.routes| == 0 && t.fallback == None
  }

  // ---------------------------------------------------------------- invariant

  predicate DistinctServices(rs: seq<Route>) {
    forall i, j :: 0 <= i < j < |rs| ==> rs[i].service != rs[j].service
  }

  /** Hosts are non-empty, hold at least one route, and one route per service. */
  predicate WellFormed(t: Table) {
    forall h :: h in t.routes ==> h != "" && t.routes[h] != [] && DistinctServices(t.routes[h])
  }

  /** Route `r` is registered for host `h`. */
  predicate Has(t: Table, h: string, r: Route) {
    h in t.routes && r in t.routes[h]
  }

  lemma {:induction false} UpsertMembers(rs: seq<Route>, r: Route)
    requires DistinctServices(rs)
    ensures Upsert(rs, r) != []
    ensures forall x :: x in Upsert(rs, r) <==> x == r || (x in rs && x.service != r.service)
  {
    if rs != [] {
      var head, tail := rs[0], rs[1..];
      assert rs == [head] + tail;
      if head.service == r.service {
        forall x | x in tail ensures x.service != r.service {
          var i :| 0 <= i < |tail| && tail[i] == x;
          assert rs[i + 1] == x;
        }
      } else {
        UpsertMembers(tail, r);
      }
    }
  }

  lemma {:induction false} UpsertDistinct(rs: seq<Route>, r: Route)
    requires DistinctServices(rs)
    ensures DistinctServices(Upsert(rs, r))
  {
    if rs != [] {
      var head, tail := rs[0], rs[1..];
      if head.service == r.service {
        assert forall j :: 0 < j < |rs| ==> rs[j].service != head.service;
      } else {
        UpsertDistinct(tail, r);
        UpsertMembers(tail, r);
        var rec := Upsert(tail, r);
        forall j | 0 <= j < |rec| ensures rec[j].service != head.service {
          assert rec[j] in rec;
          if rec[j] != r {
            var i :| 0 <= i < |tail| && tail[i] == rec[j];
            assert rs[i + 1] == rec[j];
          }
        }
      }
    }
  }

  lemma {:induction false} WithoutMembers(rs: seq<Route>, svc: string)
    ensures forall x :: x in Without(rs, svc) <==> x in rs && x.service != svc
    ensures DistinctServices(rs) ==> DistinctServices(Without(rs, svc))
  {
    if rs != [] {
      var tail := rs[1..];
      WithoutMembers(tail, svc);
      assert rs == [rs[0]] + tail;
      if DistinctServices(rs) && rs[0].service != svc {
        assert DistinctServices(tail);
        var rec := Without(tail, svc);
        var up := [rs[0]] + rec;
        forall i, j | 0 <= i < j < |up| ensures up[i].service != up[j].service {
          if i == 0 {
            assert up[j] in rec;
            assert up[j] in tail;
          } else {
            assert up[i] == rec[i - 1] && up[j] == rec[j - 1];
          }
        }
      }
    }
  }

  /** Removal keeps the order of the other routes. */
  lemma {:induction false} WithoutConcat(a: seq<Route>, b: seq<Route>, svc: string)
    ensures Without(a + b, svc) == Without(a, svc) + Without(b, svc)
  {
    if a == [] {
      assert a + b == b;
    } else {
      var ta := a[1..];
      assert a + b == [a[0]] + (ta + b);
      assert Without(a + b, svc) == (if a[0].service == svc then [] else [a[0]]) + Without(ta + b, svc) by {
        WithoutHead(a[0], ta + b, svc);
      }
      assert a == [a[0]] + ta;
      WithoutHead(a[0], ta, svc);
      WithoutConcat(ta, b, svc);
    }
  }

  lemma WithoutHead(r: Route, rs: seq<Route>, svc: string)
    ensures Without([r] + rs, svc) == (if r.service == svc then [] else [r]) + Without(rs, svc)
  {
    assert ([r] + rs)[1..] == rs;
  }

  lemma WithoutOne(r: Route, svc: string)
    ensures Without([r], svc) == if r.service == svc then [] else [r]
  {
    assert [r][1..] == [];
  }

  lemma LowerEmpty(s: string)
    ensures ToLower(s) == "" <==> s == ""
  {
    assert |ToLower(s)| == |s|;
  }

  /** Adding a route changes one host only and replaces the same service's route there. */
  lemma AddRouteHas(t: Table, host: string, r: Route)
    requires WellFormed(t)
    ensures WellFormed(AddRoute(t, host, r))
    ensures AddRoute(t, host, r).fallback == t.fallback
    ensures forall h, x :: Has(AddRoute(t, host, r), h, x) <==>
              if host != "" && h == ToLower(host)
              then x == r || (Has(t, h, x) && x.service != r.service)
              else Has(t, h, x)
  {
    LowerEmpty(host);
    var rs := GetOr(t.routes, ToLower(host), []);
    assert DistinctServices(rs);
    UpsertMembers(rs, r);
    UpsertDistinct(rs, r);
  }

  /** Removing a route drops exactly that service's route for that host. */
  lemma RemoveRouteHas(t: Table, host: string, svc: string)
    requires WellFormed(t)
    ensures WellFormed(RemoveRoute(t, host, svc))
    ensures RemoveRoute(t, host, svc).fallback == t.fallback
    ensures forall h, x :: Has(RemoveRoute(t, host, svc), h, x) <==>
              Has(t, h, x) && !(h == ToLower(host) && x.service == svc)
  {
    var h0 := ToLower(host);
    var rs := GetOr(t.routes, h0, []);
    assert DistinctServices(rs);
    WithoutMembers(rs, svc);
    var t' := RemoveRoute(t, host, svc);
    forall h, x ensures Has(t', h, x) <==> Has(t, h, x) && !(h == h0 && x.service == svc) {
      if h == h0 {
        assert Has(t', h, x) <==> x in Without(rs, svc);
      }
    }
  }

  /** A well-formed table is empty exactly when nothing can be reached through it. */
  lemma EmptyIff(t: Table)
    requires WellFormed(t)
    ensures IsEmpty(t) <==> t.fallback == None && forall h, x :: !Has(t, h, x)
  {
    if |t.routes| != 0 {
      assert t.routes.Keys != {};
      var h :| h in t.routes.Keys;
      assert Has(t, h, t.routes[h][0]);
    } else {
      assert t.routes == map[];
    }
  }

  // ------------------------------------------------------------------- lookup

  /** `lookupRoute`: the first route of the least type, so HTTP wins over TCP. */
  function Best(rs: seq<Route>): Route
    requires rs != []
  {
    if |rs| == 1 then rs[0]
    else
      var b := Best(rs[..|rs| - 1]);
      var last := rs[|rs| - 1];
      if last.kind == RouteHTTP && b.kind == RouteTCP then last else b
  }

  function Lookup(t: Table, h: string): Option<Route> {
    if h in t.routes && t.routes[h] != [] then Some(Best(t.routes[h])) else None
  }

  /** Where a connection ends up: relayed by a route, in the HTTP server, or closed. */
  datatype Destination = Relayed(route: Route) | Http | Closed

  /** `sendToHTTP`; only a router with a channel to the HTTP server can use it. */
  function ToHttp(http: bool): Destination {
    if http then Http else Closed
  }

  /** `handleUnmatched` */
  function Unmatched(t: Table, http: bool): Destination {
    if t.fallback.Some? then Relayed(t.fallback.value) else ToHttp(http)
  }

  /** `handleConn` for a connection that asks for the server name `sni`. */
  function Handled(t: Table, http: bool, sni: string): Destination {
    match Lookup(t, ToLower(sni))
    case Some(r) => if r.kind == RouteHTTP then ToHttp(http) else Relayed(r)
    case None => Unmatched(t, http)
  }

  lemma {:induction false} BestIsFirstOfLeastType(rs: seq<Route>)
    requires rs != []
    ensures Best(rs) in rs
    ensures (exists x :: x in rs && x.kind == RouteHTTP) ==> Best(rs).kind == RouteHTTP
    ensures exists i :: 0 <= i < |rs| && rs[i] == Best(rs)
              && forall j :: 0 <= j < i ==> rs[j].kind != Best(rs).kind
  {
    if |rs| == 1 {
      assert rs[0] == Best(rs);
    } else {
      var front, last := rs[..|rs| - 1], rs[|rs| - 1];
      BestIsFirstOfLeastType(front);
      assert rs == front + [last];
      var b := Best(front);
      if last.kind == RouteHTTP && b.kind == RouteTCP {
        assert rs[|rs| - 1] == Best(rs);
        forall j | 0 <= j < |rs| - 1 ensures rs[j].kind != RouteHTTP {
          assert rs[j] in front;
        }
      } else {
        var i :| 0 <= i < |front| && front[i] == b && forall j :: 0 <= j < i ==> front[j].kind != b.kind;
        assert rs[i] == Best(rs);
        forall j | 0 <= j < i ensures rs[j].kind != b.kind {
          assert rs[j] == front[j];
        }
      }
    }
  }
}
