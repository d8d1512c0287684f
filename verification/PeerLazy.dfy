/** No stored peer is lost between "open" and "lazily managed", over every run of the
    connection manager and of the lazy manager's own events. */
module PeerLazy {
  import opened Prelude
  import opened PeerModel

  /** Everything that can happen to the connection manager before it is closed. */
  datatype Event =
    | Start
    | Flag(enabled: bool)
    | Groups(groups: seq<seq<string>>)
    | ExcludeList(keys: set<string>)
    | Add(conn: Conn, env: Env)
    | Remove(keys: set<string>)
    | Activate(key: string)
    | Deactivate(id: ConnId)
    | ActivityOn(id: ConnId)
    | InactivityOn(keys: set<string>)

  function Step(m: Mgr, e: Event): Mgr {
    match e
    case Start => StartMgr(m)
    case Flag(enabled) => RemoteFlag(m, enabled)
    case Groups(groups) => SetGroups(m, groups)
    case ExcludeList(keys) => SetExcludeList(m, keys)
    case Add(conn, env) => AddPeerConn(m, conn, env)
    case Remove(keys) => RemovePeerConns(m, keys)
    case Activate(key) => ActivatePeer(m, key)
    case Deactivate(id) => DeactivatePeer(m, id)
    case ActivityOn(id) => OnActivity(m, id)
    case InactivityOn(keys) => OnInactivity(m, keys)
  }

  function Run(m: Mgr, es: seq<Event>): Mgr {
    if es == [] then m else Step(Run(m, es[..|es| - 1]), es[|es| - 1])
  }

  /** Connection identities carry the key they are filed under. */
  predicate Filed(m: Mgr) {
    && (forall k :: k in m.store ==> m.store[k].id.key == k)
    && (m.lazy.Some? ==>
          && (forall k :: k in m.lazy.value.managed ==> m.lazy.value.managed[k].conn.key == k)
          && (forall k :: k in m.lazy.value.excludes ==> m.lazy.value.excludes[k].key == k))
  }

  predicate IsRequested(m: Mgr, k: string)
    requires k in m.store
  {
    m.store[k].id in m.requested
  }

  /** Every stored peer is open-requested or held by the lazy manager; a peer on the exclude
      list is never managed; the lazy manager never exists together with Rosenpass. */
  predicate Held(m: Mgr) {
    && Filed(m)
    && (forall k :: k in m.store ==> IsRequested(m, k) || (m.lazy.Some? && k in m.lazy.value.managed))
    && (m.lazy.Some? ==> m.lazy.value.managed.Keys !! m.lazy.value.excludes.Keys)
    && (m.lazy.Some? ==> !m.rosenpass)
  }

  /** Every stored peer is open-requested or idle under the lazy manager, so that traffic or
      a signal message can still wake it. */
  predicate Wakeable(m: Mgr) {
    forall k :: k in m.store ==> IsRequested(m, k) || (m.lazy.Some? && Idle(m.lazy.value, k))
  }

  /** The lazy manager manages stored peers only. */
  predicate NoGhost(m: Mgr) {
    m.lazy.Some? ==> m.lazy.value.managed.Keys <= m.store.Keys
  }

  // -------------------------------------------------------------- ids and frames

  lemma IdsOfOthers(m: Mgr, keys: set<string>, k: string)
    requires Filed(m) && k in m.store
    ensures m.store[k].id in Ids(m.store, keys) <==> k in keys
  {
  }

  /** What activation changes: watchers of `keys`, nothing else. */
  lemma ActivatedKeys(l: Lazy, keys: set<string>)
    ensures var l' := Activated(l, keys);
      && l'.managed.Keys == l.managed.Keys && l'.excludes == l.excludes
      && (forall k :: k in l.managed ==> l'.managed[k].conn == l.managed[k].conn)
      && (forall k :: k in l.managed ==>
            l'.managed[k].watcher == if k in keys then Inactivity else l.managed[k].watcher)
  {
  }

  lemma SetIdleKeys(l: Lazy, keys: set<string>)
    ensures var l' := SetIdle(l, keys);
      && l'.managed.Keys == l.managed.Keys && l'.excludes == l.excludes
      && (forall k :: k in l.managed ==> l'.managed[k].conn == l.managed[k].conn)
      && (forall k :: k in l.managed ==>
            l'.managed[k].watcher == if k in keys then Activity else l.managed[k].watcher)
  {
  }

  lemma ExcludeKeys(l: Lazy, excludes: map<string, ConnId>)
    requires l.managed.Keys !! l.excludes.Keys
    ensures var l' := Exclude(l, excludes);
      && l'.excludes == excludes
      && (forall k :: k in l'.managed <==>
            (k in l.managed && (k !in excludes || k in l.excludes)) || (k in l.excludes && k !in excludes))
      && (forall k :: k in l'.managed && k in l.managed && k !in l.excludes ==> l'.managed[k] == l.managed[k])
      && (forall k :: k in l'.managed && k in l.excludes ==> l'.managed[k] == Entry(l.excludes[k], Inactivity))
      && l'.managed.Keys !! l'.excludes.Keys
  {
  }

  // ------------------------------------------------------------------ weak safety

  lemma WakeHeld(m: Mgr, key: string)
    ensures Held(m) ==> Held(Wake(m, key))
    ensures Held(m) && Wakeable(m) ==> Wakeable(Wake(m, key))
    ensures NoGhost(m) ==> NoGhost(Wake(m, key))
  {
    if m.lazy.Some? && Idle(m.lazy.value, key) {
      var keys := Activation(m.lazy.value, key);
      ActivatedKeys(m.lazy.value, keys);
      if Held(m) {
        forall k | k in m.store ensures m.store[k].id in Ids(m.store, keys) <==> k in keys {
          IdsOfOthers(m, keys, k);
        }
      }
    }
  }

  lemma RemoveHeld(m: Mgr, keys: set<string>)
    ensures Held(m) ==> Held(RemovePeerConns(m, keys))
    ensures Held(m) && Wakeable(m) ==> Wakeable(RemovePeerConns(m, keys))
    ensures NoGhost(m) ==> NoGhost(RemovePeerConns(m, keys))
  {
    if Held(m) {
      forall k | k in m.store ensures m.store[k].id in Ids(m.store, keys) <==> k in keys {
        IdsOfOthers(m, keys, k);
      }
    }
  }

  lemma IdleHeld(m: Mgr, keys: set<string>, m': Mgr)
    requires m.lazy.Some? && keys <= m.lazy.value.managed.Keys
    requires m' == m.(lazy := Some(SetIdle(m.lazy.value, keys)), requested := m.requested - Ids(m.store, keys))
    ensures Held(m) ==> Held(m')
    ensures Held(m) && Wakeable(m) ==> Wakeable(m')
    ensures NoGhost(m) ==> NoGhost(m')
  {
    SetIdleKeys(m.lazy.value, keys);
    if Held(m) {
      forall k | k in m.store ensures m.store[k].id in Ids(m.store, keys) <==> k in keys {
        IdsOfOthers(m, keys, k);
      }
    }
  }

  lemma DeactivateHeld(m: Mgr, id: ConnId)
    ensures Held(m) ==> Held(DeactivatePeer(m, id))
    ensures Held(m) && Wakeable(m) ==> Wakeable(DeactivatePeer(m, id))
    ensures NoGhost(m) ==> NoGhost(DeactivatePeer(m, id))
  {
    if m.lazy.Some? && Refers(m.lazy.value, id) && m.lazy.value.managed[id.key].watcher == Inactivity {
      var m' := m.(lazy := Some(SetIdle(m.lazy.value, {id.key})),
                   requested := m.requested - Ids(m.store, {id.key}));
      assert DeactivatePeer(m, id) == m' by {
        assert Ids(m.store, {id.key}) == if id.key in m.store then {m.store[id.key].id} else {};
      }
      IdleHeld(m, {id.key}, m');
    }
  }

  lemma ExcludeHeld(m: Mgr, keys: set<string>)
    ensures Held(m) ==> Held(SetExcludeList(m, keys))
    ensures Held(m) && Wakeable(m) ==> Wakeable(SetExcludeList(m, keys))
  {
    if m.lazy.Some? && Held(m) {
      var l := m.lazy.value;
      var excludes := map k | k in keys && k in m.store :: m.store[k].id;
      ExcludeKeys(l, excludes);
      var added := excludes.Keys - l.excludes.Keys;
      forall k | k in m.store ensures m.store[k].id in Ids(m.store, added) <==> k in added {
        IdsOfOthers(m, added, k);
      }
    }
  }

  lemma FlagHeld(m: Mgr, enabled: bool)
    ensures Held(m) ==> Held(RemoteFlag(m, enabled))
    ensures Held(m) && Wakeable(m) ==> Wakeable(RemoteFlag(m, enabled))
    ensures NoGhost(m) ==> NoGhost(RemoteFlag(m, enabled))
  {
  }

  /** Adding one peer leaves the others' requests and watchers alone. */
  lemma AddFrame(m: Mgr, c: Conn, env: Env)
    requires c.id.key !in m.store
    ensures var m' := AddPeerConn(m, c, env);
      && m'.store == m.store[c.id.key := c] && m'.rosenpass == m.rosenpass
      && m.requested <= m'.requested <= m.requested + {c.id}
      && (m'.lazy.Some? <==> m.lazy.Some?)
      && (m.lazy.Some? ==> LazyAdded(m.lazy.value, m'.lazy.value, c.id))
  {
    if m.lazy.Some? {
      AddLazyFrame(m, m.lazy.value, c, env);
    }
  }

  /** The lazy manager gained at most an entry for one new connection. */
  ghost predicate LazyAdded(l: Lazy, l': Lazy, id: ConnId) {
    && l'.excludes == l.excludes
    && (forall k :: k != id.key ==> (k in l'.managed <==> k in l.managed))
    && (forall k :: k in l.managed ==> k in l'.managed && l'.managed[k] == l.managed[k])
    && (id.key in l'.managed && id.key !in l.managed ==> l'.managed[id.key].conn == id && id.key !in l.excludes)
  }

  lemma AdoptLazy(m: Mgr, l: Lazy, c: Conn)
    requires m.lazy == Some(l) && c.id.key in m.store && c.id.key !in l.managed && c.id.key !in l.excludes
    ensures var m' := Adopt(m, c); m'.lazy.Some? && LazyAdded(l, m'.lazy.value, c.id)
  {
    var l1 := l.(managed := l.managed[c.id.key := Entry(c.id, Activity)]);
    ActivatedKeys(l1, {c.id.key});
  }

  lemma AddLazyFrame(m: Mgr, l: Lazy, c: Conn, env: Env)
    requires c.id.key !in m.store && m.lazy == Some(l)
    ensures var m' := AddPeerConn(m, c, env); m'.lazy.Some? && LazyAdded(l, m'.lazy.value, c.id)
  {
    assert LazyAdded(l, l, c.id);
    if c.id.key !in l.excludes && c.id.key !in l.managed {
      AdoptLazy(m.(store := m.store[c.id.key := c]), l, c);
    }
  }

  /** Where adding a peer leaves the peer itself: the cases of AddPeerConn. */
  lemma AddOutcome(m: Mgr, c: Conn, env: Env)
    requires c.id.key !in m.store
    ensures var m' := AddPeerConn(m, c, env); var key := c.id.key;
      if m.lazy.None? || !env.supported(c.version) || key in m.lazy.value.excludes then c.id in m'.requested
      else if key in m.lazy.value.managed then m'.requested == m.requested && m'.lazy == m.lazy
      else c.id in m'.requested || (m'.lazy.Some? && Idle(m'.lazy.value, key))
  {
    if m.lazy.Some? {
      var l := m.lazy.value;
      var l1 := l.(managed := l.managed[c.id.key := Entry(c.id, Activity)]);
      ActivatedKeys(l1, {c.id.key});
    }
  }

  lemma AddHeld(m: Mgr, c: Conn, env: Env)
    ensures Held(m) ==> Held(AddPeerConn(m, c, env))
    ensures NoGhost(m) ==> NoGhost(AddPeerConn(m, c, env))
  {
    if c.id.key !in m.store {
      AddFrame(m, c, env);
      AddOutcome(m, c, env);
      if Held(m) { AddedHeld(m, AddPeerConn(m, c, env), c); }
    }
  }

  lemma AddedHeld(m: Mgr, m': Mgr, c: Conn)
    requires Held(m)
    requires m'.store == m.store[c.id.key := c] && m'.rosenpass == m.rosenpass
    requires m.requested <= m'.requested && (m'.lazy.Some? <==> m.lazy.Some?)
    requires m.lazy.Some? ==> LazyAdded(m.lazy.value, m'.lazy.value, c.id)
    requires c.id in m'.requested || (m'.lazy.Some? && c.id.key in m'.lazy.value.managed)
    ensures Held(m')
  {
    forall k | k in m'.store
      ensures IsRequested(m', k) || (m'.lazy.Some? && k in m'.lazy.value.managed)
    {
      if k != c.id.key {
        assert IsRequested(m, k) || (m.lazy.Some? && k in m.lazy.value.managed);
      }
    }
  }

  /** Each step keeps every stored peer requested or managed. */
  lemma StepHeld(m: Mgr, e: Event)
    requires Held(m)
    ensures Held(Step(m, e))
  {
    match e {
      case Start =>
      case Flag(enabled) => FlagHeld(m, enabled);
      case Groups(_) =>
      case ExcludeList(keys) => ExcludeHeld(m, keys);
      case Add(conn, env) => AddHeld(m, conn, env);
      case Remove(keys) => RemoveHeld(m, keys);
      case Activate(key) => WakeHeld(m, key);
      case Deactivate(id) => DeactivateHeld(m, id);
      case ActivityOn(id) => WakeHeld(m, id.key);
      case InactivityOn(keys) =>
        if m.lazy.Some? {
          IdleHeld(m, TimedOut(m.lazy.value, keys), OnInactivity(m, keys));
        }
    }
  }

  /** Over every run before Close: a stored peer is open-requested or managed, all are
      open-requested whenever there is no lazy manager, and never with Rosenpass. */
  lemma {:induction false} NoPeerLost(m: Mgr, es: seq<Event>)
    requires m.store == map[] && m.lazy == None
    ensures var m' := Run(m, es);
      && Held(m')
      && (m'.lazy.None? ==> forall k :: k in m'.store ==> IsRequested(m', k))
  {
    if es != [] {
      NoPeerLost(m, es[..|es| - 1]);
      StepHeld(Run(m, es[..|es| - 1]), es[|es| - 1]);
    }
  }

  // ---------------------------------------------------------------- strong safety

  /** Adding a peer strands it, neither open nor wakeable, exactly when the lazy manager
      still has an active entry under its key from an earlier connection. */
  lemma AddStrandsIff(m: Mgr, c: Conn, env: Env)
    requires Held(m) && Wakeable(m) && c.id.key !in m.store && c.id !in m.requested
    ensures Wakeable(AddPeerConn(m, c, env)) <==>
            !(m.lazy.Some? && env.supported(c.version) && c.id.key !in m.lazy.value.excludes
              && c.id.key in m.lazy.value.managed && m.lazy.value.managed[c.id.key].watcher == Inactivity)
  {
    var key := c.id.key;
    var m' := AddPeerConn(m, c, env);
    AddFrame(m, c, env);
    AddOutcome(m, c, env);
    forall k | k in m.store ensures IsRequested(m', k) || (m'.lazy.Some? && Idle(m'.lazy.value, k)) {
      assert IsRequested(m, k) || (m.lazy.Some? && Idle(m.lazy.value, k));
    }
    assert Wakeable(m') <==> IsRequested(m', key) || (m'.lazy.Some? && Idle(m'.lazy.value, key));
  }

  /** Updating the exclude list makes the lazy manager adopt a peer that is not stored exactly
      when some excluded peer has left the store. */
  lemma ExcludeGhostIff(m: Mgr, keys: set<string>)
    requires Held(m) && NoGhost(m)
    ensures NoGhost(SetExcludeList(m, keys)) <==>
            (m.lazy.Some? ==> m.lazy.value.excludes.Keys <= m.store.Keys)
  {
    if m.lazy.Some? {
      var l := m.lazy.value;
      var excludes := map k | k in keys && k in m.store :: m.store[k].id;
      ExcludeKeys(l, excludes);
      var l' := Exclude(l, excludes);
      if !(l.excludes.Keys <= m.store.Keys) {
        var k :| k in l.excludes && k !in m.store;
        assert k in l'.managed;
      }
    }
  }

  /** The exclude list is only updated while every excluded peer is stored, and only new
      connection objects are added. */
  predicate Orderly(m: Mgr, es: seq<Event>) {
    es == [] ||
    var front, e, m1 := es[..|es| - 1], es[|es| - 1], Run(m, es[..|es| - 1]);
    && Orderly(m, front)
    && (e.ExcludeList? && m1.lazy.Some? ==> m1.lazy.value.excludes.Keys <= m1.store.Keys)
    && (e.Add? ==> e.conn.id !in m1.requested)
  }

  lemma StepWakeable(m: Mgr, e: Event)
    requires Held(m) && Wakeable(m) && NoGhost(m)
    requires e.ExcludeList? && m.lazy.Some? ==> m.lazy.value.excludes.Keys <= m.store.Keys
    requires e.Add? ==> e.conn.id !in m.requested
    ensures Wakeable(Step(m, e)) && NoGhost(Step(m, e))
  {
    match e {
      case Start =>
      case Flag(enabled) => FlagHeld(m, enabled);
      case Groups(_) =>
      case ExcludeList(keys) => ExcludeHeld(m, keys); ExcludeGhostIff(m, keys);
      case Add(conn, env) =>
        AddHeld(m, conn, env);
        if conn.id.key !in m.store { AddStrandsIff(m, conn, env); }
      case Remove(keys) => RemoveHeld(m, keys);
      case Activate(key) => WakeHeld(m, key);
      case Deactivate(id) => DeactivateHeld(m, id);
      case ActivityOn(id) => WakeHeld(m, id.key);
      case InactivityOn(keys) =>
        if m.lazy.Some? {
          IdleHeld(m, TimedOut(m.lazy.value, keys), OnInactivity(m, keys));
        }
    }
  }

  /** Over every orderly run each stored peer is open-requested or can still be woken. */
  lemma {:induction false} EveryPeerWakeable(m: Mgr, es: seq<Event>)
    requires m.store == map[] && m.lazy == None && Orderly(m, es)
    ensures Wakeable(Run(m, es)) && NoGhost(Run(m, es))
  {
    if es != [] {
      var front := es[..|es| - 1];
      EveryPeerWakeable(m, front);
      NoPeerLost(m, front);
      StepWakeable(Run(m, front), es[|es| - 1]);
    }
  }

  /** Stored, not opened, and under an entry that waits for inactivity instead of activity. */
  predicate Stranded(m: Mgr, k: string) {
    k in m.store && !IsRequested(m, k) && m.lazy.Some?
    && k in m.lazy.value.managed && m.lazy.value.managed[k].watcher == Inactivity
  }

  /** In reachable states a peer that is neither open nor wakeable is stranded in this sense. */
  lemma NotWakeableIff(m: Mgr)
    requires Held(m)
    ensures !Wakeable(m) <==> exists k :: Stranded(m, k)
  {
    if !Wakeable(m) {
      var k :| k in m.store && !IsRequested(m, k) && !(m.lazy.Some? && Idle(m.lazy.value, k));
      assert Stranded(m, k);
    }
  }

  /** The events that end a stranding: an inactivity time-out that is not put off for the peer's
      group, a go-idle message for the connection that the entry still names, exclusion, removal,
      and switching the lazy manager off. Activity and signals are not among them. */
  predicate Frees(m: Mgr, e: Event, k: string)
    requires m.lazy.Some?
  {
    match e
    case InactivityOn(keys) => k in TimedOut(m.lazy.value, keys)
    case Deactivate(id) => id.key == k && Refers(m.lazy.value, id)
    case ExcludeList(keys) => k in keys
    case Remove(keys) => k in keys
    case Flag(enabled) => !enabled && !m.enabledLocally
    case _ => false
  }

  /** A stranded peer stays stranded in one step exactly when the event does not free it. */
  lemma StrandedStepIff(m: Mgr, e: Event, k: string)
    requires Held(m) && Stranded(m, k)
    ensures Stranded(Step(m, e), k) <==> !Frees(m, e, k)
  {
    match e {
      case Start =>
      case Flag(_) =>
      case Groups(_) =>
      case ExcludeList(keys) => StrandedExclude(m, keys, k);
      case Add(conn, env) => if conn.id.key !in m.store { AddFrame(m, conn, env); }
      case Remove(keys) => StrandedRemove(m, keys, k);
      case Activate(key) => StrandedWake(m, key, k);
      case Deactivate(id) => StrandedDeactivate(m, id, k);
      case ActivityOn(id) => StrandedWake(m, id.key, k);
      case InactivityOn(keys) => StrandedInactivity(m, keys, k);
    }
  }

  lemma StrandedExclude(m: Mgr, keys: set<string>, k: string)
    requires Held(m) && Stranded(m, k)
    ensures Stranded(SetExcludeList(m, keys), k) <==> k !in keys
  {
    var excludes := map j | j in keys && j in m.store :: m.store[j].id;
    ExcludeKeys(m.lazy.value, excludes);
    IdsOfOthers(m, excludes.Keys - m.lazy.value.excludes.Keys, k);
  }

  lemma StrandedRemove(m: Mgr, keys: set<string>, k: string)
    requires Held(m) && Stranded(m, k)
    ensures Stranded(RemovePeerConns(m, keys), k) <==> k !in keys
  {
  }

  lemma StrandedWake(m: Mgr, key: string, k: string)
    requires Held(m) && Stranded(m, k)
    ensures Stranded(Wake(m, key), k)
  {
    if Idle(m.lazy.value, key) {
      var keys := Activation(m.lazy.value, key);
      ActivatedKeys(m.lazy.value, keys);
      IdsOfOthers(m, keys, k);
    }
  }

  lemma StrandedDeactivate(m: Mgr, id: ConnId, k: string)
    requires Held(m) && Stranded(m, k)
    ensures Stranded(DeactivatePeer(m, id), k) <==> !(id.key == k && Refers(m.lazy.value, id))
  {
    SetIdleKeys(m.lazy.value, {id.key});
  }

  lemma StrandedInactivity(m: Mgr, keys: set<string>, k: string)
    requires Held(m) && Stranded(m, k)
    ensures Stranded(OnInactivity(m, keys), k) <==> k !in TimedOut(m.lazy.value, keys)
  {
    SetIdleKeys(m.lazy.value, TimedOut(m.lazy.value, keys));
  }

  /** No event of the run frees the peer in the state in which it arrives. */
  predicate NeverFreed(m: Mgr, es: seq<Event>, k: string) {
    es == [] ||
    var front, m1 := es[..|es| - 1], Run(m, es[..|es| - 1]);
    NeverFreed(m, front, k) && (m1.lazy.Some? ==> !Frees(m1, es[|es| - 1], k))
  }

  /** Along every run without such an event the peer stays stranded, however much traffic or
      signalling there is. */
  lemma {:induction false} StrandedAlong(m: Mgr, es: seq<Event>, k: string)
    requires Held(m) && Stranded(m, k) && NeverFreed(m, es, k)
    ensures Held(Run(m, es)) && Stranded(Run(m, es), k)
  {
    if es != [] {
      var front := es[..|es| - 1];
      StrandedAlong(m, front, k);
      StrandedStepIff(Run(m, front), es[|es| - 1], k);
      StepHeld(Run(m, front), es[|es| - 1]);
    }
  }

  /** A time-out that no active member of its groups puts off frees the peer: the next signal or packet
      opens it. */
  lemma TimeoutThenActivityOpens(m: Mgr, k: string)
    requires Held(m) && Stranded(m, k) && !Deferred(m.lazy.value, {k}, k)
    ensures IsRequested(ActivatePeer(OnInactivity(m, {k}), k), k)
  {
    var m1 := OnInactivity(m, {k});
    assert k in TimedOut(m.lazy.value, {k});
    assert k in Activation(m1.lazy.value, k);
  }

  /** Every excluded peer that leaves the network and comes back after the list has dropped it is
      stranded: it is neither open nor idle, and signal messages from it do not open it either. */
  lemma ReturningPeerStranded(m: Mgr, keys: set<string>, c: Conn, env: Env)
    requires Held(m) && m.lazy.Some? && c.id.key in m.store && c.id.key in m.lazy.value.excludes
    requires c.id !in m.requested && env.supported(c.version)
    requires c.id.key !in keys
    ensures var m' := AddPeerConn(SetExcludeList(RemovePeerConns(m, {c.id.key}), keys), c, env);
      && c.id.key in m'.store && !Wakeable(m') && Stranded(m', c.id.key)
      && ActivatePeer(m', c.id.key) == m'
  {
    var key := c.id.key;
    var m1 := RemovePeerConns(m, {key});
    RemoveHeld(m, {key});
    var excludes := map k | k in keys && k in m1.store :: m1.store[k].id;
    ExcludeKeys(m1.lazy.value, excludes);
    ExcludeHeld(m1, keys);
    var m2 := SetExcludeList(m1, keys);
    assert m2.lazy.value.managed[key] == Entry(m1.lazy.value.excludes[key], Inactivity);
    assert c.id !in m2.requested by {
      forall k | k in m1.store ensures m1.store[k].id != c.id {
        assert m1.store[k].id.key == k;
      }
    }
    AddOutcome(m2, c, env);
    var m3 := AddPeerConn(m2, c, env);
    assert !IsRequested(m3, key);
  }
}
