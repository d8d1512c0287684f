/** Safety of the mapping worker over every run: no orphans, exact routing, independence
    from the order of updates, and what a connection is dispatched to. */
module ProxyTheorems {
  import opened Prelude
  import opened RouterTable
  import opened ProxyModel
  import opened ProxyRouting
  import opened ProxySetup

  /** The services that are up after one update: those whose latest update succeeded. */
  function LiveAfter(cfg: Config, s: Proxy, up: Live, u: Update, env: Env): Live {
    var m := u.mapping;
    match u.kind
    case Created =>
      if !env.addPeerOk then up else LiveInstall(cfg, s, up, m, env)
    case Modified => LiveInstall(cfg, Teardown(cfg, s, m), up - {m.id}, m, env)
    case Removed => up - {m.id}
  }

  function LiveRun(cfg: Config, s: Proxy, up: Live, steps: seq<Step>): Live {
    if steps == [] then up
    else
      var front, step := steps[..|steps| - 1], steps[|steps| - 1];
      LiveAfter(cfg, Run(cfg, s, front), LiveRun(cfg, s, up, front), step.update, step.env)
  }

  /** A repeated CREATED keeps the footprint that the service already has, if any. */
  predicate SameFootprint(cfg: Config, up: Live, m: Mapping) {
    m.id in up ==> Foot(cfg, up[m.id]) == Nothing || Foot(cfg, up[m.id]) == Foot(cfg, m)
  }

  predicate Admissible(cfg: Config, up: Live, u: Update) {
    && (u.kind != Removed ==> Addressed(u.mapping))
    && (u.kind == Created ==> SameFootprint(cfg, up, u.mapping))
  }

  /** The update will set its mapping up, decided before it is applied. */
  predicate Takes(cfg: Config, s: Proxy, u: Update, env: Env) {
    match u.kind
    case Created => env.addPeerOk && Succeeds(cfg, s, u.mapping, env)
    case Modified => Succeeds(cfg, Teardown(cfg, s, u.mapping), u.mapping, env)
    case Removed => false
  }

  /** An update that takes does not claim the catch-all port of another live service. */
  predicate Unshared(cfg: Config, s: Proxy, up: Live, u: Update, env: Env) {
    Takes(cfg, s, u, env) ==> SoleCatchAll(cfg, up, u.mapping.id, Foot(cfg, u.mapping))
  }

  predicate AdmissibleRun(cfg: Config, steps: seq<Step>) {
    steps == [] ||
    var front, step := steps[..|steps| - 1], steps[|steps| - 1];
    AdmissibleRun(cfg, front) && Admissible(cfg, LiveRun(cfg, INIT, map[], front), step.update)
  }

  predicate UnsharedRun(cfg: Config, steps: seq<Step>) {
    steps == [] ||
    var front, step := steps[..|steps| - 1], steps[|steps| - 1];
    UnsharedRun(cfg, front)
    && Unshared(cfg, Run(cfg, INIT, front), LiveRun(cfg, INIT, map[], front), step.update, step.env)
  }

  predicate CatchAllsDistinct(cfg: Config, up: Live) {
    forall k :: k in up ==> SoleCatchAll(cfg, up, k, Foot(cfg, up[k]))
  }

  ghost predicate Inv(cfg: Config, s: Proxy, up: Live) {
    && Base(cfg, s)
    && Sound(cfg, s, up)
    && (forall k :: k in up ==> k in s.last && s.last[k] == up[k])
    && (forall k :: k in s.last ==> s.last[k].id == k)
  }

  /** Inv plus: every live service is installed and no catch-all is shared. */
  ghost predicate Exact(cfg: Config, s: Proxy, up: Live) {
    Inv(cfg, s, up) && Complete(cfg, s, up) && CatchAllsDistinct(cfg, up)
  }

  // ---------------------------------------------------------------- small steps

  lemma SoundToExcept(cfg: Config, s: Proxy, up: Live, svc: string, f: Footprint)
    requires Sound(cfg, s, up)
    requires svc in up ==> Foot(cfg, up[svc]) == Nothing || Foot(cfg, up[svc]) == f
    ensures SoundExcept(cfg, s, up, svc, f)
  {
    assert RoutesExcept(cfg, s, up, svc, f);
    assert FallbacksExcept(cfg, s, up, svc, f);
    assert RelaysExcept(cfg, s, up, svc, f);
    assert PortsExcept(cfg, s, up, svc, f);
  }

  /** Soundness and completeness look only at the routing fields. */
  lemma RoutingFrame(cfg: Config, s: Proxy, s': Proxy, up: Live)
    requires s'.main == s.main && s'.ports == s.ports && s'.svcPorts == s.svcPorts && s'.relays == s.relays
    ensures Base(cfg, s') <==> Base(cfg, s)
    ensures Sound(cfg, s, up) ==> Sound(cfg, s', up)
    ensures Complete(cfg, s, up) ==> Complete(cfg, s', up)
  {
    SameTables(cfg, s, s');
    if Complete(cfg, s, up) {
      forall k | k in up ensures Installed(cfg, s', up[k]) {
        assert Installed(cfg, s, up[k]);
      }
    }
  }

  function LiveInstall(cfg: Config, s: Proxy, up: Live, m: Mapping, env: Env): Live {
    if Succeeds(cfg, s, m, env) then up[m.id := m] else up - {m.id}
  }

  lemma StoredSound(cfg: Config, s: Proxy, up: Live, m: Mapping)
    requires Base(cfg, s) && Sound(cfg, s, up[m.id := m])
    requires forall k :: k in up ==> k in s.last && s.last[k] == up[k]
    requires forall k :: k in s.last ==> s.last[k].id == k
    ensures Inv(cfg, s.(last := s.last[m.id := m]), up[m.id := m])
  {
    RoutingFrame(cfg, s, s.(last := s.last[m.id := m]), up[m.id := m]);
  }

  lemma InstallSound(cfg: Config, s: Proxy, up: Live, m: Mapping, env: Env)
    requires Inv(cfg, s, up) && Addressed(m) && SameFootprint(cfg, up, m)
    ensures Inv(cfg, Install(cfg, s, m, env), LiveInstall(cfg, s, up, m, env))
  {
    var f := Foot(cfg, m);
    var (s1, ok) := Setup(cfg, s, m, env);
    SoundToExcept(cfg, s, up, m.id, f);
    SetupEffect(cfg, s, m, env);
    SetupSucceedsIff(cfg, s, m, env);
    if ok {
      PlacedSound(cfg, s, s1, up, m);
      StoredSound(cfg, s1, up, m);
    } else {
      DisturbedSound(cfg, s, s1, up, m, f);
      CleanupSound(cfg, s1, up, m, f);
    }
  }

  /** Where the failed setup of `m` can have left something of its service. */
  function Remainder(cfg: Config, up: Live, m: Mapping): Footprint {
    if Foot(cfg, m).CatchAll? && !(m.id in up && Foot(cfg, up[m.id]) == Foot(cfg, m)) then Nothing else Foot(cfg, m)
  }

  /** A failed setup is rolled back without harm to any other service. */
  lemma FailedInstallComplete(cfg: Config, s: Proxy, up: Live, m: Mapping, env: Env)
    requires Exact(cfg, s, up) && Addressed(m) && SameFootprint(cfg, up, m) && !Succeeds(cfg, s, m, env)
    ensures Complete(cfg, Install(cfg, s, m, env), up - {m.id})
  {
    var f := Remainder(cfg, up, m);
    var s1 := Setup(cfg, s, m, env).0;
    SetupSucceedsIff(cfg, s, m, env);
    SoundToExcept(cfg, s, up, m.id, f);
    SetupEffect(cfg, s, m, env);
    DisturbedSound(cfg, s, s1, up, m, f);
    DisturbedComplete(cfg, s, s1, up, m);
    assert SoleCatchAll(cfg, up, m.id, f) by {
      if f.CatchAll? { assert SoleCatchAll(cfg, up, m.id, Foot(cfg, up[m.id])); }
    }
    CleanupSound(cfg, s1, up, m, f);
  }

  /** A successful setup leaves every live service installed exactly when no other live service
      claims the same catch-all port. */
  lemma InstalledCompleteIff(cfg: Config, s: Proxy, up: Live, m: Mapping, env: Env)
    requires Exact(cfg, s, up) && Addressed(m) && SameFootprint(cfg, up, m) && Succeeds(cfg, s, m, env)
    ensures Complete(cfg, Install(cfg, s, m, env), up[m.id := m]) <==> SoleCatchAll(cfg, up, m.id, Foot(cfg, m))
  {
    var s1 := Setup(cfg, s, m, env).0;
    SetupSucceedsIff(cfg, s, m, env);
    SetupEffect(cfg, s, m, env);
    var s' := s1.(last := s1.last[m.id := m]);
    if SoleCatchAll(cfg, up, m.id, Foot(cfg, m)) {
      PlacedComplete(cfg, s, s1, up, m);
      RoutingFrame(cfg, s1, s', up[m.id := m]);
    } else {
      SameTables(cfg, s1, s');
      Displaced(cfg, s, s1, s', up, m);
    }
  }

  lemma Displaced(cfg: Config, s: Proxy, s1: Proxy, s': Proxy, up: Live, m: Mapping)
    requires Keyed(cfg, up) && Placed(cfg, s, s1, m) && !SoleCatchAll(cfg, up, m.id, Foot(cfg, m))
    requires forall p :: FallbackAt(cfg, s', p) == FallbackAt(cfg, s1, p)
    ensures !Complete(cfg, s', up[m.id := m])
  {
    var k :| k in up && k != m.id && Foot(cfg, up[k]) == Foot(cfg, m);
    assert RouteOf(up[k]).service == k;
    assert FallbackAt(cfg, s', Foot(cfg, m).port) == Some(RouteOf(m));
    assert !Installed(cfg, s', up[m.id := m][k]);
  }

  /** Installing keeps routing exact if and only if it fails or claims a catch-all of its own. */
  lemma InstallExactIff(cfg: Config, s: Proxy, up: Live, m: Mapping, env: Env)
    requires Exact(cfg, s, up) && Addressed(m) && SameFootprint(cfg, up, m)
    ensures Exact(cfg, Install(cfg, s, m, env), LiveInstall(cfg, s, up, m, env)) <==>
            (Succeeds(cfg, s, m, env) ==> SoleCatchAll(cfg, up, m.id, Foot(cfg, m)))
  {
    InstallSound(cfg, s, up, m, env);
    if Succeeds(cfg, s, m, env) {
      InstalledCompleteIff(cfg, s, up, m, env);
      if SoleCatchAll(cfg, up, m.id, Foot(cfg, m)) { DistinctAfter(cfg, up, m); }
    } else {
      FailedInstallComplete(cfg, s, up, m, env);
      DistinctWithout(cfg, up, m.id);
    }
  }

  lemma DistinctAfter(cfg: Config, up: Live, m: Mapping)
    requires CatchAllsDistinct(cfg, up) && SoleCatchAll(cfg, up, m.id, Foot(cfg, m))
    ensures CatchAllsDistinct(cfg, up[m.id := m])
  {
    var up' := up[m.id := m];
    forall k | k in up' ensures SoleCatchAll(cfg, up', k, Foot(cfg, up'[k])) {
      if k != m.id {
        assert SoleCatchAll(cfg, up, k, Foot(cfg, up[k]));
      }
    }
  }

  lemma DistinctWithout(cfg: Config, up: Live, svc: string)
    requires CatchAllsDistinct(cfg, up)
    ensures CatchAllsDistinct(cfg, up - {svc})
  {
    var up' := up - {svc};
    forall k | k in up' ensures SoleCatchAll(cfg, up', k, Foot(cfg, up'[k])) {
      assert SoleCatchAll(cfg, up, k, Foot(cfg, up[k]));
    }
  }

  /** Tearing down with the stored mapping, or with the message when nothing is stored. */
  lemma TeardownSound(cfg: Config, s: Proxy, up: Live, m: Mapping)
    requires Inv(cfg, s, up)
    ensures var s0 := Teardown(cfg, s, m);
      Inv(cfg, s0, up - {m.id}) && s0.last == s.last
  {
    var f := if m.id in up then Foot(cfg, up[m.id]) else Nothing;
    SoundToExcept(cfg, s, up, m.id, f);
    CleanupSound(cfg, s, up, GetOr(s.last, m.id, m), f);
  }

  lemma TeardownComplete(cfg: Config, s: Proxy, up: Live, m: Mapping)
    requires Exact(cfg, s, up)
    ensures Complete(cfg, Teardown(cfg, s, m), up - {m.id})
    ensures CatchAllsDistinct(cfg, up - {m.id})
  {
    var old' := GetOr(s.last, m.id, m);
    DistinctWithout(cfg, up, m.id);
    var f := if m.id in up then Foot(cfg, up[m.id]) else Nothing;
    SoundToExcept(cfg, s, up, m.id, f);
    CleanupSound(cfg, s, up, old', f);
  }

  // ------------------------------------------------------------------- one step

  /** Every admissible update keeps the routing state sound for the services that are up. */
  lemma ApplySound(cfg: Config, s: Proxy, up: Live, u: Update, env: Env)
    requires Inv(cfg, s, up) && Admissible(cfg, up, u)
    ensures Inv(cfg, Apply(cfg, s, u, env), LiveAfter(cfg, s, up, u, env))
  {
    var m := u.mapping;
    match u.kind {
      case Created =>
        if env.addPeerOk { InstallSound(cfg, s, up, m, env); }
      case Modified =>
        TeardownSound(cfg, s, up, m);
        InstallSound(cfg, Teardown(cfg, s, m), up - {m.id}, m, env);
      case Removed =>
        RemovalSound(cfg, s, up, m);
    }
  }

  lemma RemovalSound(cfg: Config, s: Proxy, up: Live, m: Mapping)
    requires Inv(cfg, s, up)
    ensures Inv(cfg, RemoveMapping(cfg, s, m), up - {m.id})
    ensures Complete(cfg, Teardown(cfg, s, m), up - {m.id})
            ==> Complete(cfg, RemoveMapping(cfg, s, m), up - {m.id})
  {
    TeardownSound(cfg, s, up, m);
    var old' := GetOr(s.last, m.id, m);
    var s1 := Cleanup(cfg, s, old');
    CleanupIgnoresLast(cfg, s, old', s.last - {m.id});
    RoutingFrame(cfg, s1, RemoveMapping(cfg, s, m), up - {m.id});
  }

  /** Whatever fails, an admissible update keeps every live service exactly installed if and only
      if it does not take over the catch-all port of another live service. */
  lemma ApplyExactIff(cfg: Config, s: Proxy, up: Live, u: Update, env: Env)
    requires Exact(cfg, s, up) && Admissible(cfg, up, u)
    ensures Exact(cfg, Apply(cfg, s, u, env), LiveAfter(cfg, s, up, u, env)) <==> Unshared(cfg, s, up, u, env)
  {
    var m := u.mapping;
    match u.kind {
      case Created =>
        if env.addPeerOk { InstallExactIff(cfg, s, up, m, env); }
      case Modified =>
        var s0, up0 := Teardown(cfg, s, m), up - {m.id};
        TeardownSound(cfg, s, up, m);
        TeardownComplete(cfg, s, up, m);
        InstallExactIff(cfg, s0, up0, m, env);
        SoleWithout(cfg, up, m);
      case Removed =>
        TeardownComplete(cfg, s, up, m);
        RemovalSound(cfg, s, up, m);
    }
  }

  lemma SoleWithout(cfg: Config, up: Live, m: Mapping)
    ensures SoleCatchAll(cfg, up - {m.id}, m.id, Foot(cfg, m)) <==> SoleCatchAll(cfg, up, m.id, Foot(cfg, m))
  {
    forall k | k != m.id ensures k in up <==> k in up - {m.id} {
    }
  }

  // ------------------------------------------------------------------ every run

  lemma {:induction false} RunSound(cfg: Config, steps: seq<Step>)
    requires AdmissibleRun(cfg, steps)
    ensures Inv(cfg, Run(cfg, INIT, steps), LiveRun(cfg, INIT, map[], steps))
  {
    if steps == [] {
      assert WellFormed(EMPTY);
    } else {
      var front, step := steps[..|steps| - 1], steps[|steps| - 1];
      RunSound(cfg, front);
      ApplySound(cfg, Run(cfg, INIT, front), LiveRun(cfg, INIT, map[], front), step.update, step.env);
    }
  }

  lemma {:induction false} RunExact(cfg: Config, steps: seq<Step>)
    requires AdmissibleRun(cfg, steps) && UnsharedRun(cfg, steps)
    ensures Exact(cfg, Run(cfg, INIT, steps), LiveRun(cfg, INIT, map[], steps))
  {
    if steps == [] {
      assert WellFormed(EMPTY);
    } else {
      var front, step := steps[..|steps| - 1], steps[|steps| - 1];
      RunExact(cfg, front);
      ApplyExactIff(cfg, Run(cfg, INIT, front), LiveRun(cfg, INIT, map[], front), step.update, step.env);
    }
  }

  /** Routing is exact for the live services after the first `n` steps. */
  ghost predicate ExactAt(cfg: Config, steps: seq<Step>, n: nat)
    requires n <= |steps|
  {
    Exact(cfg, Run(cfg, INIT, steps[..n]), LiveRun(cfg, INIT, map[], steps[..n]))
  }

  /** An admissible run keeps routing exact at every point if and only if none of its updates
      takes over a catch-all port that another live service has. */
  lemma {:induction false} AlwaysExactIff(cfg: Config, steps: seq<Step>)
    requires AdmissibleRun(cfg, steps)
    ensures (forall n :: 0 <= n <= |steps| ==> ExactAt(cfg, steps, n)) <==> UnsharedRun(cfg, steps)
  {
    if steps == [] {
      assert WellFormed(EMPTY);
    } else {
      var front, step := steps[..|steps| - 1], steps[|steps| - 1];
      AlwaysExactIff(cfg, front);
      forall n | 0 <= n <= |front| ensures ExactAt(cfg, steps, n) <==> ExactAt(cfg, front, n) {
        assert steps[..n] == front[..n];
      }
      assert steps[..|steps|] == steps && front[..|front|] == front;
      if ExactAt(cfg, front, |front|) {
        ApplyExactIff(cfg, Run(cfg, INIT, front), LiveRun(cfg, INIT, map[], front), step.update, step.env);
        assert ExactAt(cfg, steps, |steps|) <==>
               Unshared(cfg, Run(cfg, INIT, front), LiveRun(cfg, INIT, map[], front), step.update, step.env);
      }
    }
  }

  // ------------------------------------------------------ live and stored mappings

  /** Update `u` gets as far as setting up but fails, for a service that was up. */
  predicate Drops(cfg: Config, s: Proxy, up: Live, u: Update, env: Env) {
    u.mapping.id in up && u.kind != Removed && !Takes(cfg, s, u, env) && (u.kind == Created ==> env.addPeerOk)
  }

  /** When the live services are exactly the stored ones, they still are after the update if and
      only if it does not drop one: a failed CREATED or MODIFIED keeps the old mapping stored. */
  lemma LiveIsStoredIff(cfg: Config, s: Proxy, u: Update, env: Env)
    ensures LiveAfter(cfg, s, s.last, u, env) == Apply(cfg, s, u, env).last <==> !Drops(cfg, s, s.last, u, env)
  {
    var m := u.mapping;
    match u.kind {
      case Created =>
        if env.addPeerOk { InstallStored(cfg, s, m, env); }
      case Modified =>
        var s0 := Teardown(cfg, s, m);
        CleanupKeepsLast(cfg, s, GetOr(s.last, m.id, m));
        InstallStored(cfg, s0, m, env);
        if m.id in s.last { assert m.id !in s.last - {m.id}; }
      case Removed =>
        CleanupKeepsLast(cfg, s.(last := s.last - {m.id}), GetOr(s.last, m.id, m));
    }
  }

  lemma CleanupKeepsLast(cfg: Config, s: Proxy, m: Mapping)
    ensures Cleanup(cfg, s, m).last == s.last
  {
    CleanupIgnoresLast(cfg, s, m, s.last);
    assert s.(last := s.last) == s;
  }

  lemma InstallStored(cfg: Config, s: Proxy, m: Mapping, env: Env)
    ensures Install(cfg, s, m, env).last == if Succeeds(cfg, s, m, env) then s.last[m.id := m] else s.last
  {
    SetupSucceedsIff(cfg, s, m, env);
    SetupKeepsLast(cfg, s, m, env);
    CleanupKeepsLast(cfg, Setup(cfg, s, m, env).0, m);
  }

  /** No update of the run drops a service that was up. */
  predicate NothingDropped(cfg: Config, steps: seq<Step>) {
    steps == [] ||
    var front, step := steps[..|steps| - 1], steps[|steps| - 1];
    NothingDropped(cfg, front)
    && !Drops(cfg, Run(cfg, INIT, front), LiveRun(cfg, INIT, map[], front), step.update, step.env)
  }

  /** The live services are the stored mappings in every run that drops none, in particular in
      every run whose updates all succeed. */
  lemma {:induction false} LiveIsStored(cfg: Config, steps: seq<Step>)
    requires NothingDropped(cfg, steps)
    ensures LiveRun(cfg, INIT, map[], steps) == Run(cfg, INIT, steps).last
  {
    if steps != [] {
      var front, step := steps[..|steps| - 1], steps[|steps| - 1];
      LiveIsStored(cfg, front);
      LiveIsStoredIff(cfg, Run(cfg, INIT, front), step.update, step.env);
    }
  }

  /** Every live route, catch-all and relay belongs to a stored mapping and is exactly the
      one that this mapping describes. */
  ghost predicate NoOrphans(cfg: Config, s: Proxy) {
    && SoundRoutes(cfg, s, s.last)
    && SoundFallbacks(cfg, s, s.last)
    && SoundRelays(cfg, s, s.last)
  }

  /** No orphans after any admissible run, with failures anywhere. */
  lemma NoOrphanRoutes(cfg: Config, steps: seq<Step>)
    requires AdmissibleRun(cfg, steps)
    ensures NoOrphans(cfg, Run(cfg, INIT, steps))
  {
    RunSound(cfg, steps);
    InvNoOrphans(cfg, Run(cfg, INIT, steps), LiveRun(cfg, INIT, map[], steps));
  }

  lemma InvNoOrphans(cfg: Config, s: Proxy, up: Live)
    requires Inv(cfg, s, up)
    ensures NoOrphans(cfg, s)
  {
    forall p, h, x | Routed(cfg, s, p, h, x) ensures OwnsRoute(cfg, s.last, p, h, x) {
      assert OwnsRoute(cfg, up, p, h, x);
    }
    forall p | FallbackAt(cfg, s, p).Some? ensures OwnsFallback(cfg, s.last, p, FallbackAt(cfg, s, p).value) {
      assert OwnsFallback(cfg, up, p, FallbackAt(cfg, s, p).value);
    }
    forall k | k in s.relays ensures OwnsRelay(cfg, s.last, k, s.relays[k]) {
      assert OwnsRelay(cfg, up, k, s.relays[k]);
    }
  }
}
