/** Peer connections of the client engine (client/internal/engine.go), the connection manager
    (client/internal/conn_mgr.go), the peer store (client/internal/peerstore/store.go) and the
    lazy connection manager (client/internal/lazyconn/manager/manager.go) as values. */
module PeerModel {
  import opened Prelude

  /** A network prefix, represented by its canonical text. */
  datatype Prefix = Prefix(text: string)

  /** The identity of one connection object; it knows the key it was created for. */
  datatype ConnId = ConnId(key: string, serial: nat)

  datatype Conn = Conn(id: ConnId, version: string, ips: seq<Prefix>)

  /** RemotePeerConfig: a peer as the network map describes it. */
  datatype Remote = Remote(key: string, version: string, ips: seq<string>)

  /** Which watcher the lazy manager expects to hear from next. */
  datatype Watcher = Activity | Inactivity

  datatype Entry = Entry(conn: ConnId, watcher: Watcher)

  /** The lazy connection manager: managed peers, the exclude list, and the route HA groups. */
  datatype Lazy = Lazy(managed: map<string, Entry>, excludes: map<string, ConnId>, groups: seq<seq<string>>)

  const NO_PEERS: Lazy := Lazy(map[], map[], [])

  datatype Mgr = Mgr(store: map<string, Conn>, requested: set<ConnId>, lazy: Option<Lazy>,
                     enabledLocally: bool, rosenpass: bool)

  /** What foreign code answers: prefix parsing, version support, creation, activity listeners. */
  datatype Env = Env(parse: string -> Option<Prefix>, supported: string -> bool,
                     createOk: string -> bool, monitorOk: string -> bool)

  // ----------------------------------------------------------------- peer store

  /** `PeerConnOpen`: requests the connection of a stored peer; unknown keys are ignored. */
  function Opened(m: Mgr, key: string): Mgr {
    if key in m.store then m.(requested := m.requested + {m.store[key].id}) else m
  }

  /** `PeerConnClose` and `PeerConnIdle`. */
  function Closed(m: Mgr, key: string): Mgr {
    if key in m.store then m.(requested := m.requested - {m.store[key].id}) else m
  }

  function Ids(store: map<string, Conn>, keys: set<string>): set<ConnId> {
    set k | k in keys && k in store :: store[k].id
  }

  // --------------------------------------------------------------- lazy manager

  /** The managed peers other than `key` that share a route HA group with it. */
  function GroupMates(l: Lazy, key: string): set<string> {
    set g, k | g in l.groups && key in g && k in g && k != key && k in l.managed :: k
  }

  /** Some other member of one of the peer's HA groups is active. */
  predicate GroupActive(l: Lazy, key: string) {
    exists k :: k in GroupMates(l, key) && l.managed[k].watcher == Inactivity
  }

  function Activated(l: Lazy, keys: set<string>): Lazy {
    l.(managed := map k | k in l.managed ::
         if k in keys then Entry(l.managed[k].conn, Inactivity) else l.managed[k])
  }

  /** Activates `key` and the idle members of its HA groups; returns the keys activated. */
  function Activation(l: Lazy, key: string): set<string>
    requires key in l.managed
  {
    {key} + set k | k in GroupMates(l, key) && l.managed[k].watcher == Activity
  }

  /** The peer may be woken: it is managed and idle. */
  predicate Idle(l: Lazy, key: string) {
    key in l.managed && l.managed[key].watcher == Activity
  }

  /** Activates an idle peer with its group and opens their connections. */
  function Wake(m: Mgr, key: string): Mgr {
    if m.lazy.None? || !Idle(m.lazy.value, key) then m
    else
      var keys := Activation(m.lazy.value, key);
      m.(lazy := Some(Activated(m.lazy.value, keys)), requested := m.requested + Ids(m.store, keys))
  }

  /** The entry that a connection identity refers to, if the manager knows it. */
  predicate Refers(l: Lazy, id: ConnId) {
    id.key in l.managed && l.managed[id.key].conn == id
  }

  function SetIdle(l: Lazy, keys: set<string>): Lazy {
    l.(managed := map k | k in l.managed ::
         if k in keys then Entry(l.managed[k].conn, Activity) else l.managed[k])
  }

  /** Some other active member of the peer's HA groups has not timed out together with it. */
  predicate Deferred(l: Lazy, inactive: set<string>, key: string) {
    exists k :: k in GroupMates(l, key) && l.managed[k].watcher == Inactivity && k !in inactive
  }

  /** The peers that an inactivity event really sends to idle. */
  function TimedOut(l: Lazy, inactive: set<string>): set<string> {
    set k | k in inactive && k in l.managed && l.managed[k].watcher == Inactivity && !Deferred(l, inactive, k)
  }

  // ---------------------------------------------------------- connection manager

  function StartMgr(m: Mgr): Mgr {
    if m.lazy.Some? || !m.enabledLocally || m.rosenpass then m else m.(lazy := Some(NO_PEERS))
  }

  /** A fresh lazy manager that takes over every stored peer as an active one. */
  function TakeOver(store: map<string, Conn>): Lazy {
    Lazy(map k | k in store :: Entry(store[k].id, Inactivity), map[], [])
  }

  function RemoteFlag(m: Mgr, enabled: bool): Mgr {
    if m.enabledLocally then m
    else if enabled then
      if m.lazy.Some? || m.rosenpass then m else m.(lazy := Some(TakeOver(m.store)))
    else if m.lazy.None? then m
    else m.(lazy := None, requested := m.requested + Ids(m.store, m.store.Keys))
  }

  function SetGroups(m: Mgr, groups: seq<seq<string>>): Mgr {
    if m.lazy.None? then m else m.(lazy := Some(m.lazy.value.(groups := groups)))
  }

  /** `ExcludePeer` with the configurations of the excluded peers that are stored. */
  function Exclude(l: Lazy, excludes: map<string, ConnId>): Lazy {
    var added := excludes.Keys - l.excludes.Keys;
    var leaving := l.excludes.Keys - excludes.Keys;
    var kept := l.managed - added;
    Lazy(kept + (map k | k in leaving && k !in kept :: Entry(l.excludes[k], Inactivity)), excludes, l.groups)
  }

  function SetExcludeList(m: Mgr, keys: set<string>): Mgr {
    if m.lazy.None? then m
    else
      var l := m.lazy.value;
      var excludes := map k | k in keys && k in m.store :: m.store[k].id;
      m.(lazy := Some(Exclude(l, excludes)),
         requested := m.requested + Ids(m.store, excludes.Keys - l.excludes.Keys))
  }

  /** `Manager.AddPeer` for a key that is neither excluded nor managed yet. */
  function Adopt(m: Mgr, c: Conn): Mgr
    requires m.lazy.Some? && c.id.key in m.store
  {
    var l := m.lazy.value;
    var l1 := l.(managed := l.managed[c.id.key := Entry(c.id, Activity)]);
    if GroupActive(l1, c.id.key)
    then m.(lazy := Some(Activated(l1, {c.id.key})), requested := m.requested + {c.id})
    else m.(lazy := Some(l1))
  }

  function AddPeerConn(m: Mgr, c: Conn, env: Env): Mgr {
    var key := c.id.key;
    if key in m.store then m
    else
      var m1 := m.(store := m.store[key := c]);
      if m.lazy.None? || !env.supported(c.version) || key in m.lazy.value.excludes then Opened(m1, key)
      else if key in m.lazy.value.managed then m1
      else if !env.monitorOk(key) then Opened(m1, key)
      else Adopt(m1, c)
  }

  /** Removes and closes the stored peers among `keys`. */
  function RemovePeerConns(m: Mgr, keys: set<string>): Mgr {
    m.(store := m.store - keys,
       requested := m.requested - Ids(m.store, keys),
       lazy := if m.lazy.None? then None
               else Some(m.lazy.value.(managed := m.lazy.value.managed - (keys * m.store.Keys))))
  }

  function ActivatePeer(m: Mgr, key: string): Mgr {
    if key in m.store then Wake(m, key) else m
  }

  function DeactivatePeer(m: Mgr, id: ConnId): Mgr {
    if m.lazy.None? || !Refers(m.lazy.value, id) || m.lazy.value.managed[id.key].watcher != Inactivity then m
    else Closed(m, id.key).(lazy := Some(SetIdle(m.lazy.value, {id.key})))
  }

  function OnActivity(m: Mgr, id: ConnId): Mgr {
    if m.lazy.Some? && Refers(m.lazy.value, id) then Wake(m, id.key) else m
  }

  function OnInactivity(m: Mgr, inactive: set<string>): Mgr {
    if m.lazy.None? then m
    else
      var keys := TimedOut(m.lazy.value, inactive);
      m.(lazy := Some(SetIdle(m.lazy.value, keys)), requested := m.requested - Ids(m.store, keys))
  }

  function CloseMgr(m: Mgr): Mgr {
    m.(lazy := None)
  }
}
