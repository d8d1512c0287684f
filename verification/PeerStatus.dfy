/** What every event does to every single peer: whether it is stored, open, watched by the lazy
    manager and excluded, before and after; and, over runs, that idle peers stay closed and that no
    connection outlives its peer. */
module PeerStatus {
  import opened Prelude
  import opened PeerModel
  import PL = PeerLazy

  /** Everything about one peer: its stored connection, whether that is open, the lazy manager's entry
      for it, and the connection under which it is excluded. */
  datatype Status = Status(conn: Option<Conn>, open: bool, entry: Option<Entry>, excluded: Option<ConnId>)

  function At<V>(m: map<string, V>, k: string): Option<V> {
    if k in m then Some(m[k]) else None
  }

  function StatusOf(m: Mgr, k: string): Status {
    Status(At(m.store, k), k in m.store && m.store[k].id in m.requested,
           if m.lazy.Some? then At(m.lazy.value.managed, k) else None,
           if m.lazy.Some? then At(m.lazy.value.excludes, k) else None)
  }

  /** Two different peers are in a common route HA group. */
  ghost predicate Mates(groups: seq<seq<string>>, j: string, k: string) {
    j != k && exists i :: 0 <= i < |groups| && j in groups[i] && k in groups[i]
  }

  predicate Watched(l: Lazy, k: string, w: Watcher) {
    k in l.managed && l.managed[k].watcher == w
  }

  lemma MatesIff(l: Lazy, j: string, k: string)
    ensures k in GroupMates(l, j) <==> Mates(l.groups, j, k) && k in l.managed
  {
    if k in GroupMates(l, j) {
      var g :| g in l.groups && j in g && k in g;
      var i :| 0 <= i < |l.groups| && l.groups[i] == g;
    }
    if Mates(l.groups, j, k) && k in l.managed {
      var i :| 0 <= i < |l.groups| && j in l.groups[i] && k in l.groups[i];
      assert l.groups[i] in l.groups;
    }
  }

  /** Some member of one of the peer's groups is watched for inactivity. */
  ghost predicate MateActive(l: Lazy, key: string) {
    exists k :: Mates(l.groups, key, k) && Watched(l, k, Inactivity)
  }

  // ------------------------------------------------------------------------ adding a peer

  /** The lazy manager takes the new peer over. */
  predicate TakesOver(m: Mgr, c: Conn, env: Env) {
    m.lazy.Some? && env.supported(c.version) && c.id.key !in m.lazy.value.excludes
    && c.id.key !in m.lazy.value.managed && env.monitorOk(c.id.key)
  }

  /** The peer is left to the entry that the lazy manager still has under its key. */
  predicate FindsEntry(m: Mgr, c: Conn, env: Env) {
    m.lazy.Some? && env.supported(c.version) && c.id.key !in m.lazy.value.excludes && c.id.key in m.lazy.value.managed
  }

  lemma AdoptActive(m: Mgr, l: Lazy, c: Conn)
    requires m.lazy == Some(l) && c.id.key in m.store && c.id.key !in l.managed
    ensures GroupActive(l.(managed := l.managed[c.id.key := Entry(c.id, Activity)]), c.id.key) <==> MateActive(l, c.id.key)
  {
    var key := c.id.key;
    var l1 := l.(managed := l.managed[key := Entry(c.id, Activity)]);
    if k :| k in GroupMates(l1, key) && l1.managed[k].watcher == Inactivity {
      MatesIff(l1, key, k);
      assert Watched(l, k, Inactivity);
    }
    if k :| Mates(l.groups, key, k) && Watched(l, k, Inactivity) {
      MatesIff(l1, key, k);
    }
  }

  /** A new peer is stored. It is handed over to the lazy manager exactly when there is one, it
      supports lazy connections, is neither excluded nor managed and can be monitored; it then stays
      closed and idle unless a member of its groups is active. It also stays closed when the manager
      has an entry under its key. In every other case it is opened. No other peer is affected. */
  lemma AddEffect(m: Mgr, c: Conn, env: Env, k: string)
    requires PL.Filed(m) && c.id.key !in m.store && c.id !in m.requested
    ensures var st := StatusOf(m, k);
      StatusOf(AddPeerConn(m, c, env), k) ==
        if k != c.id.key then st
        else if TakesOver(m, c, env) then
          if MateActive(m.lazy.value, k) then Status(Some(c), true, Some(Entry(c.id, Inactivity)), st.excluded)
          else Status(Some(c), false, Some(Entry(c.id, Activity)), st.excluded)
        else Status(Some(c), !FindsEntry(m, c, env), st.entry, st.excluded)
  {
    if TakesOver(m, c, env) {
      AdoptActive(m.(store := m.store[c.id.key := c]), m.lazy.value, c);
    }
  }

  // ------------------------------------------------------------------- waking and idling

  /** Waking an idle peer opens it and the idle members of its groups, and no other peer. */
  lemma WakeEffect(m: Mgr, key: string, k: string)
    requires PL.Filed(m)
    ensures var st := StatusOf(m, k);
      StatusOf(Wake(m, key), k) ==
        if m.lazy.Some? && Watched(m.lazy.value, key, Activity) && Watched(m.lazy.value, k, Activity)
           && (k == key || Mates(m.lazy.value.groups, key, k))
        then Status(st.conn, st.conn.Some?, Some(Entry(st.entry.value.conn, Inactivity)), st.excluded)
        else st
  {
    if m.lazy.Some? && Idle(m.lazy.value, key) {
      var keys := Activation(m.lazy.value, key);
      MatesIff(m.lazy.value, key, k);
      if k in m.store {
        PL.IdsOfOthers(m, keys, k);
      }
    }
  }

  /** A signal wakes an idle peer that is stored. */
  lemma ActivateEffect(m: Mgr, key: string, k: string)
    requires PL.Filed(m)
    ensures var st := StatusOf(m, k);
      StatusOf(ActivatePeer(m, key), k) ==
        if key in m.store && m.lazy.Some? && Watched(m.lazy.value, key, Activity) && Watched(m.lazy.value, k, Activity)
           && (k == key || Mates(m.lazy.value.groups, key, k))
        then Status(st.conn, st.conn.Some?, Some(Entry(st.entry.value.conn, Inactivity)), st.excluded)
        else st
  {
    WakeEffect(m, key, k);
  }

  /** Activity on a connection wakes the idle peer whose entry names that connection. */
  lemma ActivityEffect(m: Mgr, id: ConnId, k: string)
    requires PL.Filed(m)
    ensures var st := StatusOf(m, k);
      StatusOf(OnActivity(m, id), k) ==
        if StatusOf(m, id.key).entry == Some(Entry(id, Activity)) && Watched(m.lazy.value, k, Activity)
           && (k == id.key || Mates(m.lazy.value.groups, id.key, k))
        then Status(st.conn, st.conn.Some?, Some(Entry(st.entry.value.conn, Inactivity)), st.excluded)
        else st
  {
    WakeEffect(m, id.key, k);
  }

  /** A time-out closes a peer exactly when the peer is among those reported, is watched for it, and no
      active member of its groups is missing from the report. */
  lemma InactivityEffect(m: Mgr, inactive: set<string>, k: string)
    requires PL.Filed(m)
    ensures var st := StatusOf(m, k);
      StatusOf(OnInactivity(m, inactive), k) ==
        if m.lazy.Some? && k in inactive && Watched(m.lazy.value, k, Inactivity)
           && !(exists j :: Mates(m.lazy.value.groups, k, j) && Watched(m.lazy.value, j, Inactivity) && j !in inactive)
        then Status(st.conn, false, Some(Entry(st.entry.value.conn, Activity)), st.excluded)
        else st
  {
    if m.lazy.Some? {
      var l := m.lazy.value;
      DeferredIff(l, inactive, k);
      if k in m.store {
        PL.IdsOfOthers(m, TimedOut(l, inactive), k);
      }
    }
  }

  lemma DeferredIff(l: Lazy, inactive: set<string>, k: string)
    ensures Deferred(l, inactive, k) <==>
            exists j :: Mates(l.groups, k, j) && Watched(l, j, Inactivity) && j !in inactive
  {
    if j :| j in GroupMates(l, k) && l.managed[j].watcher == Inactivity && j !in inactive {
      MatesIff(l, k, j);
      assert Watched(l, j, Inactivity);
    }
    if j :| Mates(l.groups, k, j) && Watched(l, j, Inactivity) && j !in inactive {
      MatesIff(l, k, j);
    }
  }

  /** A go-idle message closes the peer whose active entry names that connection, whatever its group. */
  lemma DeactivateEffect(m: Mgr, id: ConnId, k: string)
    requires PL.Filed(m)
    ensures var st := StatusOf(m, k);
      StatusOf(DeactivatePeer(m, id), k) ==
        if k == id.key && st.entry == Some(Entry(id, Inactivity))
        then Status(st.conn, false, Some(Entry(id, Activity)), st.excluded)
        else st
  {
  }

  // -------------------------------------------------------------- flag, list and removal

  /** A peer removed is gone from the store and closed, and from the lazy manager if it was stored;
      the exclude list keeps it. */
  lemma RemoveEffect(m: Mgr, keys: set<string>, k: string)
    requires PL.Filed(m)
    ensures var st := StatusOf(m, k);
      StatusOf(RemovePeerConns(m, keys), k) ==
        if k in keys && st.conn.Some? then Status(None, false, None, st.excluded) else st
    ensures k in keys && k in m.store ==> m.store[k].id !in RemovePeerConns(m, keys).requested
  {
    if k in m.store {
      PL.IdsOfOthers(m, keys, k);
    }
  }

  /** Under a lazy manager the excluded peers become the stored ones of the list. A peer that is new on
      it is opened and no longer managed; one that leaves it is managed as active. */
  lemma ExcludeEffect(m: Mgr, keys: set<string>, k: string)
    requires PL.Held(m) && m.lazy.Some?
    ensures var st := StatusOf(m, k);
      StatusOf(SetExcludeList(m, keys), k) ==
        if k in keys && st.conn.Some? then
          Status(st.conn, st.open || st.excluded.None?, if st.excluded.None? then None else st.entry,
                 Some(st.conn.value.id))
        else if st.excluded.Some? then Status(st.conn, st.open, Some(Entry(st.excluded.value, Inactivity)), None)
        else st
  {
    var l := m.lazy.value;
    var excludes := map x | x in keys && x in m.store :: m.store[x].id;
    PL.ExcludeKeys(l, excludes);
    if k in m.store {
      PL.IdsOfOthers(m, excludes.Keys - l.excludes.Keys, k);
    }
  }

  /** The management flag counts only while the lazy manager is not enabled locally. Switched on, a
      manager appears, unless Rosenpass is on, and takes over every stored peer as active; switched
      off, it goes and every stored peer is opened. */
  lemma FlagEffect(m: Mgr, enabled: bool, k: string)
    requires PL.Filed(m)
    ensures RemoteFlag(m, enabled).lazy.Some? <==>
            if m.enabledLocally then m.lazy.Some? else enabled && (m.lazy.Some? || !m.rosenpass)
    ensures var st := StatusOf(m, k);
      StatusOf(RemoteFlag(m, enabled), k) ==
        if m.enabledLocally || enabled == m.lazy.Some? || (enabled && m.rosenpass) then st
        else if enabled then Status(st.conn, st.open, if st.conn.Some? then Some(Entry(st.conn.value.id, Inactivity)) else None, None)
        else Status(st.conn, st.conn.Some?, None, None)
  {
    if k in m.store {
      PL.IdsOfOthers(m, m.store.Keys, k);
    }
  }

  /** A manager is there after the start exactly when lazy connections are enabled locally and
      Rosenpass is off, or when it was there before. */
  lemma StartEffect(m: Mgr)
    ensures StartMgr(m).lazy == if m.lazy.Some? then m.lazy
                                else if m.enabledLocally && !m.rosenpass then Some(Lazy(map[], map[], [])) else None
    ensures StartMgr(m).(lazy := m.lazy) == m
  {
  }

  // ----------------------------------------------------------------------------- every run

  /** A stored peer that waits for activity is closed. */
  predicate IdleClosed(m: Mgr) {
    m.lazy.Some? ==> forall k :: k in m.store && Idle(m.lazy.value, k) ==> m.store[k].id !in m.requested
  }

  /** Every open connection belongs to a stored peer. */
  predicate NoLeak(m: Mgr) {
    forall id :: id in m.requested ==> id.key in m.store && m.store[id.key].id == id
  }

  /** Adding a new connection leaves a peer open that waits for activity exactly when that peer does
      not support lazy connections but the manager still has an idle entry under its key. */
  lemma AddTightIff(m: Mgr, c: Conn, env: Env)
    requires PL.Held(m) && IdleClosed(m) && c.id !in m.requested && c.id.key !in m.store
    ensures IdleClosed(AddPeerConn(m, c, env)) <==>
            !(m.lazy.Some? && Watched(m.lazy.value, c.id.key, Activity) && !env.supported(c.version))
  {
    var m' := AddPeerConn(m, c, env);
    PL.AddFrame(m, c, env);
    forall k | k in m'.store ensures StatusOf(m', k).open == (m'.store[k].id in m'.requested) {
    }
    forall k | k in m.store ensures m'.lazy.Some? && Idle(m'.lazy.value, k) ==> m'.store[k].id !in m'.requested {
      AddEffect(m, c, env, k);
      assert StatusOf(m', k).open == (m'.store[k].id in m'.requested);
    }
    AddEffect(m, c, env, c.id.key);
  }

  /** An excluded peer that leaves and is dropped from the list leaves an active entry behind. */
  lemma LeftBehind(m: Mgr, keys: set<string>, key: string)
    requires PL.Held(m) && m.lazy.Some? && key in m.store && key in m.lazy.value.excludes && key !in keys
    ensures var m1 := SetExcludeList(RemovePeerConns(m, {key}), keys);
      && PL.Held(m1) && m1.lazy.Some? && m1.lazy.value.groups == m.lazy.value.groups
      && StatusOf(m1, key) == Status(None, false, Some(Entry(m.lazy.value.excludes[key], Inactivity)), None)
  {
    var m0 := RemovePeerConns(m, {key});
    PL.RemoveHeld(m, {key});
    PL.ExcludeHeld(m0, keys);
    RemoveEffect(m, {key}, key);
    ExcludeEffect(m0, keys, key);
  }

  /** The failing side, for every excluded peer: it leaves, the list drops it and excludes nobody, the
      entry left behind times out, and the peer returns with a version that does not support lazy
      connections. Then it is open although the manager waits for its activity. */
  lemma ReturningOldPeerOpen(m: Mgr, c: Conn, env: Env)
    requires PL.Held(m) && m.lazy.Some? && m.lazy.value.groups == []
    requires c.id.key in m.store && c.id.key in m.lazy.value.excludes
    requires c.id !in m.requested && !env.supported(c.version)
    ensures var key := c.id.key;
      var m2 := OnInactivity(SetExcludeList(RemovePeerConns(m, {key}), {}), {key});
      var st := StatusOf(AddPeerConn(m2, c, env), key);
      st.open && st.entry.Some? && st.entry.value.watcher == Activity
  {
    var key := c.id.key;
    var m1 := SetExcludeList(RemovePeerConns(m, {key}), {});
    LeftBehind(m, {}, key);
    assert Ids(RemovePeerConns(m, {key}).store, {}) == {};
    InactivityEffect(m1, {key}, key);
    AddEffect(OnInactivity(m1, {key}), c, env, key);
  }

  lemma AddLeaksNothing(m: Mgr, c: Conn, env: Env)
    requires NoLeak(m)
    ensures NoLeak(AddPeerConn(m, c, env))
  {
    if c.id.key !in m.store {
      PL.AddFrame(m, c, env);
    }
  }

  lemma WakeTight(m: Mgr, key: string)
    requires PL.Filed(m) && IdleClosed(m) && NoLeak(m)
    ensures IdleClosed(Wake(m, key)) && NoLeak(Wake(m, key))
  {
    var m' := Wake(m, key);
    if m'.lazy.Some? {
      forall k | k in m'.store && Idle(m'.lazy.value, k) ensures m'.store[k].id !in m'.requested {
        WakeEffect(m, key, k);
        assert StatusOf(m', k).open == (m'.store[k].id in m'.requested);
      }
    }
  }

  lemma RemoveTight(m: Mgr, keys: set<string>)
    requires PL.Filed(m) && IdleClosed(m) && NoLeak(m)
    ensures IdleClosed(RemovePeerConns(m, keys)) && NoLeak(RemovePeerConns(m, keys))
  {
  }

  lemma IdleTight(m: Mgr, keys: set<string>, m': Mgr)
    requires PL.Filed(m) && IdleClosed(m) && NoLeak(m) && m.lazy.Some?
    requires m' == m.(lazy := Some(SetIdle(m.lazy.value, keys)), requested := m.requested - Ids(m.store, keys))
    ensures IdleClosed(m') && NoLeak(m')
  {
    PL.SetIdleKeys(m.lazy.value, keys);
  }

  lemma DeactivateTight(m: Mgr, id: ConnId)
    requires PL.Filed(m) && IdleClosed(m) && NoLeak(m)
    ensures IdleClosed(DeactivatePeer(m, id)) && NoLeak(DeactivatePeer(m, id))
  {
    if m.lazy.Some? && Refers(m.lazy.value, id) && m.lazy.value.managed[id.key].watcher == Inactivity {
      assert Ids(m.store, {id.key}) == if id.key in m.store then {m.store[id.key].id} else {};
      IdleTight(m, {id.key}, DeactivatePeer(m, id));
    }
  }

  lemma ExcludeTight(m: Mgr, keys: set<string>)
    requires PL.Held(m) && IdleClosed(m) && NoLeak(m)
    ensures IdleClosed(SetExcludeList(m, keys)) && NoLeak(SetExcludeList(m, keys))
  {
    var m' := SetExcludeList(m, keys);
    if m.lazy.Some? {
      forall k | k in m'.store && Idle(m'.lazy.value, k) ensures m'.store[k].id !in m'.requested {
        ExcludeEffect(m, keys, k);
        assert StatusOf(m', k).open == (m'.store[k].id in m'.requested);
      }
    }
  }

  lemma StepTight(m: Mgr, e: PL.Event)
    requires PL.Held(m) && IdleClosed(m) && NoLeak(m) && PL.NoGhost(m) && (e.Add? ==> e.conn.id !in m.requested)
    ensures IdleClosed(PL.Step(m, e))
  {
    match e {
      case Add(conn, env) => if conn.id.key !in m.store { AddTightIff(m, conn, env); }
      case Remove(keys) => RemoveTight(m, keys);
      case Activate(key) => WakeTight(m, key);
      case ActivityOn(id) => WakeTight(m, id.key);
      case Deactivate(id) => DeactivateTight(m, id);
      case InactivityOn(keys) =>
        if m.lazy.Some? { IdleTight(m, TimedOut(m.lazy.value, keys), OnInactivity(m, keys)); }
      case ExcludeList(keys) => ExcludeTight(m, keys);
      case _ =>
    }
  }

  lemma StepLeaksNothing(m: Mgr, e: PL.Event)
    requires NoLeak(m) && PL.Filed(m)
    ensures NoLeak(PL.Step(m, e))
  {
    match e {
      case Add(conn, env) => AddLeaksNothing(m, conn, env);
      case _ =>
    }
  }

  /** Over every run, whatever the exclude lists: every open connection belongs to a stored peer. */
  lemma {:induction false} NothingLeaks(m: Mgr, es: seq<PL.Event>)
    requires m.store == map[] && m.lazy == None && m.requested == {}
    ensures NoLeak(PL.Run(m, es))
  {
    if es != [] {
      var front := es[..|es| - 1];
      NothingLeaks(m, front);
      PL.NoPeerLost(m, front);
      StepLeaksNothing(PL.Run(m, front), es[|es| - 1]);
    }
  }

  /** Over every orderly run a stored peer is open if and only if it does not wait for activity: the
      lazy manager neither loses a peer nor keeps an idle one connected. */
  lemma {:induction false} OpenIffNotIdle(m: Mgr, es: seq<PL.Event>, k: string)
    requires m.store == map[] && m.lazy == None && m.requested == {} && PL.Orderly(m, es)
    requires k in PL.Run(m, es).store
    ensures var m' := PL.Run(m, es);
      m'.store[k].id in m'.requested <==> !(m'.lazy.Some? && Watched(m'.lazy.value, k, Activity))
  {
    PL.EveryPeerWakeable(m, es);
    OrderlyTight(m, es);
  }

  lemma {:induction false} OrderlyTight(m: Mgr, es: seq<PL.Event>)
    requires m.store == map[] && m.lazy == None && m.requested == {} && PL.Orderly(m, es)
    ensures IdleClosed(PL.Run(m, es))
  {
    if es != [] {
      var front := es[..|es| - 1];
      OrderlyTight(m, front);
      NothingLeaks(m, front);
      PL.NoPeerLost(m, front);
      PL.EveryPeerWakeable(m, front);
      StepTight(PL.Run(m, front), es[|es| - 1]);
    }
  }
}
