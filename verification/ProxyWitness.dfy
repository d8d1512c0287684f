/** Concrete runs of the mapping worker in which the conditions of the equivalences fail. */
module ProxyWitness {
  import opened Prelude
  import opened RouterTable
  import opened ProxyModel
  import opened ProxyRouting
  import opened ProxyTheorems
  import opened ProxyTidy
  import opened ProxyExact
  import opened ProxyRoundTrip
  import opened ProxyRelays
  import opened ProxyHolders

  const CFG := Config(443, 0, false)
  const FINE := Env(true, true, true, true, true)
  const TARGET := "h:1"

  /** Two plain TCP services on one port, and the first one moved to another port. */
  const FIRST := Mapping("a", "", "", MODE_TCP, 5432, [TARGET], false)
  const SECOND := Mapping("b", "", "", MODE_TCP, 5432, [TARGET], false)
  const MOVED := Mapping("a", "", "", MODE_TCP, 5433, [TARGET], false)
  /** A TCP service with a domain and a TLS service without one. */
  const NAMED_TCP := Mapping("c", "", "x", MODE_TCP, 5432, [TARGET], false)
  const NAMELESS_TLS := Mapping("d", "", "", MODE_TLS, 8443, [TARGET], false)

  function Create(m: Mapping): Step {
    Step(Update(Created, m), FINE)
  }

  lemma TargetSplits()
    ensures SplitsHostPort(TARGET)
  {
    assert TARGET[..2] == "h:";
    assert LastIndex(TARGET, ':') == LastIndex("h:", ':') == 1;
    assert IndexFrom(TARGET, ':', 0) == 1;
    assert IndexFrom(TARGET, '[', 0) == 3 && IndexFrom(TARGET, ']', 0) == 3;
  }

  lemma Accepted(m: Mapping)
    requires m.targets == [TARGET] && ValidPort(m.listenPort)
    ensures L4Accepts(CFG, m) && TargetAddress(m) == TARGET
    ensures m.mode == MODE_TCP || m.mode == MODE_TLS ==> forall s :: Succeeds(CFG, s, m, FINE)
  {
    TargetSplits();
  }

  lemma RunOne(m: Mapping)
    ensures Run(CFG, INIT, [Create(m)]) == Install(CFG, INIT, m, FINE)
    ensures LiveRun(CFG, INIT, map[], [Create(m)]) == LiveInstall(CFG, INIT, map[], m, FINE)
    ensures Addressed(m) ==> AdmissibleRun(CFG, [Create(m)])
    ensures UnsharedRun(CFG, [Create(m)])
  {
    assert [Create(m)][..0] == [];
    assert Run(CFG, INIT, []) == INIT && LiveRun(CFG, INIT, map[], []) == map[];
    assert AdmissibleRun(CFG, []) && UnsharedRun(CFG, []);
    assert SoleCatchAll(CFG, map[], m.id, Foot(CFG, m)) && SameFootprint(CFG, map[], m);
    assert Unshared(CFG, INIT, map[], Update(Created, m), FINE);
    assert Addressed(m) ==> Admissible(CFG, map[], Update(Created, m));
  }

  /** The state after creating FIRST. */
  lemma AfterFirst()
    ensures var s := Run(CFG, INIT, [Create(FIRST)]);
      && s.ports == map[5432 := Table(map[], Some(RouteOf(FIRST)))]
      && s.last == map["a" := FIRST] && "b" !in s.last
      && LiveRun(CFG, INIT, map[], [Create(FIRST)]) == map["a" := FIRST]
      && AdmissibleRun(CFG, [Create(FIRST)]) && UnsharedRun(CFG, [Create(FIRST)])
  {
    RunOne(FIRST);
    Accepted(FIRST);
    SetupSucceedsIff(CFG, INIT, FIRST, FINE);
    var s1 := INIT.(ports := map[5432 := EMPTY]);
    assert EnsureRouter(CFG, INIT, 5432, FINE) == Some(s1);
    var s2 := PutTable(CFG, s1, 5432, SetFallback(EMPTY, RouteOf(FIRST)));
    assert Acquire(CFG, s2, FIRST, FINE) == s2;
    assert Setup(CFG, INIT, FIRST, FINE) == (s2.(svcPorts := s2.svcPorts["a" := [5432]]), true);
    assert "b" !in map["a" := FIRST];
  }

  /** Two TCP services on one port: from the second CREATED on, the first is not installed. */
  lemma SharedPortDisplaces()
    ensures var steps := [Create(FIRST), Create(SECOND)];
      && AdmissibleRun(CFG, steps) && !UnsharedRun(CFG, steps)
      && ExactAt(CFG, steps, 1) && !ExactAt(CFG, steps, 2)
  {
    var steps, front := [Create(FIRST), Create(SECOND)], [Create(FIRST)];
    AfterFirst();
    RunExact(CFG, front);
    assert steps[..1] == front && steps[..2] == steps;
    Accepted(SECOND);
    assert Foot(CFG, FIRST) == Foot(CFG, SECOND) == CatchAll(5432);
    assert !SoleCatchAll(CFG, map["a" := FIRST], "b", CatchAll(5432)) by {
      assert "a" in map["a" := FIRST];
    }
    assert Takes(CFG, Run(CFG, INIT, front), Create(SECOND).update, FINE);
    ApplyExactIff(CFG, Run(CFG, INIT, front), map["a" := FIRST], Create(SECOND).update, FINE);
  }

  /** In that state creating and removing SECOND does not restore the fallback of FIRST. */
  lemma SharedPortNotRestored()
    ensures var s := Run(CFG, INIT, [Create(FIRST)]);
      RemoveMapping(CFG, AddMapping(CFG, s, SECOND, FINE), SECOND) != s
  {
    AfterFirst();
    RunSettled(CFG, [Create(FIRST)], "b");
    var s := Run(CFG, INIT, [Create(FIRST)]);
    Accepted(SECOND);
    assert FallbackAt(CFG, s, 5432) == Some(RouteOf(FIRST));
    assert !Reversible(CFG, s, SECOND, FINE);
    CreateRemoveIff(CFG, s, SECOND, FINE);
  }

  /** A TCP service with a domain leaves its catch-all behind, in an otherwise empty proxy. */
  lemma NamedTcpOrphaned()
    ensures var s := RemoveMapping(CFG, AddMapping(CFG, INIT, NAMED_TCP, FINE), NAMED_TCP);
      !NoOrphans(CFG, s) && s != INIT
  {
    assert AdmissibleRun(CFG, []);
    RunSound(CFG, []);
    assert Run(CFG, INIT, []) == INIT && LiveRun(CFG, INIT, map[], []) == map[];
    Accepted(NAMED_TCP);
    RemovalOrphansIff(CFG, INIT, map[], NAMED_TCP, FINE);
    InvNoOrphans(CFG, INIT, map[]);
  }

  /** A repeated CREATED on another port leaves the old catch-all behind. */
  lemma MovedServiceOrphaned()
    ensures !NoOrphans(CFG, AddMapping(CFG, Run(CFG, INIT, [Create(FIRST)]), MOVED, FINE))
  {
    AfterFirst();
    RunExact(CFG, [Create(FIRST)]);
    var s, up := Run(CFG, INIT, [Create(FIRST)]), map["a" := FIRST];
    Accepted(MOVED);
    assert !SameFootprint(CFG, up, MOVED);
    RecreateIff(CFG, s, up, MOVED, FINE);
  }

  /** A TLS service without a domain leaves an empty router on its port. */
  lemma NamelessTlsLeavesRouter()
    ensures NoEmptyRouters(CFG, INIT) && !NoEmptyRouters(CFG, Run(CFG, INIT, [Create(NAMELESS_TLS)]))
  {
    RunOne(NAMELESS_TLS);
    Accepted(NAMELESS_TLS);
    SetupSucceedsIff(CFG, INIT, NAMELESS_TLS, FINE);
    EmptyRouterIff(CFG, INIT, NAMELESS_TLS, FINE);
    assert Run(CFG, INIT, [Create(NAMELESS_TLS)]).ports == Setup(CFG, INIT, NAMELESS_TLS, FINE).0.ports;
  }

  /** FIRST without a target: its setup fails. */
  const BROKEN := FIRST.(targets := [])

  /** A failed MODIFIED takes FIRST down but keeps its old mapping stored. */
  lemma FailedModifyStaysStored()
    ensures var s, u := Run(CFG, INIT, [Create(FIRST)]), Update(Modified, BROKEN);
      && "a" in Apply(CFG, s, u, FINE).last && "a" !in LiveAfter(CFG, s, s.last, u, FINE)
  {
    AfterFirst();
    var s, u := Run(CFG, INIT, [Create(FIRST)]), Update(Modified, BROKEN);
    assert !L4Accepts(CFG, BROKEN);
    var s0 := Teardown(CFG, s, BROKEN);
    CleanupKeepsLast(CFG, s, FIRST);
    InstallStored(CFG, s0, BROKEN, FINE);
  }

  /** FIRST turned into an HTTP service, with an authentication setup that fails. */
  const RENAMED := Mapping("a", "", "x", "http", 0, [TARGET], false)
  const NO_AUTH := FINE.(authOk := false)

  /** A failed CREATED keeps the catch-all of FIRST but forgets its port; after REMOVED the
      catch-all is an orphan. */
  lemma FailedCreateOrphans()
    ensures var s := AddMapping(CFG, Run(CFG, INIT, [Create(FIRST)]), RENAMED, NO_AUTH);
      && NoOrphans(CFG, s) && FallbackAt(CFG, s, 5432) == Some(RouteOf(FIRST))
      && "a" !in s.svcPorts && s.last == map["a" := FIRST]
      && !NoOrphans(CFG, RemoveMapping(CFG, s, RENAMED))
  {
    AfterFirst();
    RunExact(CFG, [Create(FIRST)]);
    var s, up := Run(CFG, INIT, [Create(FIRST)]), map["a" := FIRST];
    assert !Succeeds(CFG, s, RENAMED, NO_AUTH);
    assert Foot(CFG, up["a"]) == CatchAll(5432) && !Clears(RENAMED, CatchAll(5432));
    RecreateIff(CFG, s, up, RENAMED, NO_AUTH);
    FailedRecreate(CFG, s, up, RENAMED, NO_AUTH);
    FailedRecreateKeepsIff(CFG, s, up, RENAMED, NO_AUTH);
    FailedRecreateRemovalIff(CFG, s, up, RENAMED, NO_AUTH);
  }

  /** The state after creating SECOND on the port of FIRST. */
  lemma AfterBoth()
    ensures var steps := [Create(FIRST), Create(SECOND)];
      var s := Run(CFG, INIT, steps);
      s.ports == map[5432 := Table(map[], Some(RouteOf(SECOND)))] && GetOr(s.svcPorts, "b", []) == [5432]
  {
    var steps, front := [Create(FIRST), Create(SECOND)], [Create(FIRST)];
    AfterFirst();
    assert steps[..1] == front;
    Accepted(SECOND);
    var s1 := Run(CFG, INIT, front);
    SetupSucceedsIff(CFG, s1, SECOND, FINE);
    assert EnsureRouter(CFG, s1, 5432, FINE) == Some(s1);
    var s2 := PutTable(CFG, s1, 5432, SetFallback(s1.ports[5432], RouteOf(SECOND)));
    assert Acquire(CFG, s2, SECOND, FINE) == s2;
    assert Setup(CFG, s1, SECOND, FINE).0 == s2.(svcPorts := s2.svcPorts["b" := [5432]]);
  }

  lemma FirstHolds()
    ensures HoldersRun(CFG, [Create(FIRST)]) == map[5432 := "a"]
  {
    Accepted(FIRST);
    assert [Create(FIRST)][..0] == [];
    assert HoldersRun(CFG, []) == map[];
  }

  /** SECOND holds the port although both are live. */
  lemma SecondHolds()
    ensures var steps := [Create(FIRST), Create(SECOND)];
      && AdmissibleRun(CFG, steps) && HoldersRun(CFG, steps) == map[5432 := "b"]
      && LiveRun(CFG, INIT, map[], steps) == map["a" := FIRST, "b" := SECOND]
  {
    var steps, front := [Create(FIRST), Create(SECOND)], [Create(FIRST)];
    AfterFirst();
    SharedPortDisplaces();
    FirstHolds();
    Accepted(SECOND);
    assert steps[..1] == front;
    assert map[5432 := "a"][5432 := "b"] == map[5432 := "b"];
    assert LiveRun(CFG, INIT, map[], steps) == map["a" := FIRST]["b" := SECOND];
  }

  /** Removing SECOND then empties and drops the router, and with it closes the connections that
      FIRST, displaced but live, still had on it. */
  lemma DisplacedConnectionsClosed<R>(c: Links<R>, r: R)
    requires Linked(c) && c.ports == map[5432 := r] && r in c.relays && "a" in c.relays[r].live
    ensures LinkCleanup(CFG, c, Run(CFG, INIT, [Create(FIRST), Create(SECOND)]), SECOND).relays[r].live == map[]
  {
    AfterBoth();
    var s := Run(CFG, INIT, [Create(FIRST), Create(SECOND)]);
    var s1 := s.(svcPorts := s.svcPorts - {"b"});
    assert [5432][..0] == [];
    assert CleanupEntries(CFG, s1, [], "", "b") == s1;
    assert RemoveFallback(s.ports[5432]) == EMPTY && IsEmpty(EMPTY);
    assert 5432 !in CleanupEntry(CFG, s1, 5432, "", "b").ports;
    assert LinkEntries(CFG, c, s1, [5432], "", "b") == LinkEntry(CFG, c, s1, 5432, "", "b");
  }
}
