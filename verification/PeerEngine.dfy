/** Reconciliation of the peer store with a network map (client/internal/engine.go). */
module PeerEngine {
  import opened Prelude
  import opened PeerModel
  import PL = PeerLazy

  datatype Outcome = Ok | BadPrefix | CreateFailed | NoAddress | AlreadyExists | Rejected

  /** The engine: the serial of the last applied map, whether its context is alive, the
      connection manager, and a counter that makes connection objects distinguishable. */
  datatype Engine = Engine(serial: nat, running: bool, mgr: Mgr, next: nat)

  /** The part of a NetworkMap message that concerns peers. `excluded` and `groups` are what
      the forwarding rules and the client routes of the map amount to. */
  datatype NetworkMap = NetworkMap(serial: nat, remotes: seq<Remote>, remotesEmpty: bool,
                                   lazyEnabled: bool, groups: seq<seq<string>>, excluded: set<string>)

  function Keys(ps: seq<Remote>): set<string> {
    set p | p in ps :: p.key
  }

  // ------------------------------------------------------------------- prefixes

  predicate AllParse(env: Env, ips: seq<string>) {
    forall i :: 0 <= i < |ips| ==> env.parse(ips[i]).Some?
  }

  function ParseAll(env: Env, ips: seq<string>): seq<Prefix>
    requires AllParse(env, ips)
  {
    seq(|ips|, i requires 0 <= i < |ips| => env.parse(ips[i]).value)
  }

  /** What compareNetIPLists decides: all strings parse, and the lists agree as multisets. */
  predicate SameIps(env: Env, ips: seq<Prefix>, texts: seq<string>) {
    AllParse(env, texts) && multiset(ips) == multiset(ParseAll(env, texts))
  }

  /** The connection has the version and the allowed IPs of the map's entry. */
  predicate Matches(env: Env, c: Conn, p: Remote) {
    c.version == p.version && SameIps(env, c.ips, p.ips)
  }

  // ------------------------------------------------------------------ operations

  /** `addNewPeer`. An entry without allowed IPs makes the code index an empty slice. */
  function AddNewPeer(e: Engine, p: Remote, env: Env): (Engine, Outcome) {
    if p.key in e.mgr.store then (e, Ok)
    else if !AllParse(env, p.ips) then (e, BadPrefix)
    else if !env.createOk(p.key) then (e, CreateFailed)
    else if p.ips == [] then (e, NoAddress)
    else
      var c := Conn(ConnId(p.key, e.next), p.version, ParseAll(env, p.ips));
      var e1 := e.(next := e.next + 1);
      if c.id.key in e1.mgr.store then (e1, AlreadyExists)
      else (e1.(mgr := AddPeerConn(e1.mgr, c, env)), Ok)
  }

  /** `addNewPeers`: stops at the first error. */
  function AddNewPeers(e: Engine, ps: seq<Remote>, env: Env): (Engine, Outcome) {
    if ps == [] then (e, Ok)
    else
      var (e1, o) := AddNewPeers(e, ps[..|ps| - 1], env);
      if o != Ok then (e1, o) else AddNewPeer(e1, ps[|ps| - 1], env)
  }

  function RemoveKeys(e: Engine, keys: set<string>): Engine {
    e.(mgr := RemovePeerConns(e.mgr, keys))
  }

  function RemovePeers(e: Engine, ps: seq<Remote>): Engine {
    RemoveKeys(e, e.mgr.store.Keys - Keys(ps))
  }

  predicate IsModified(e: Engine, p: Remote, env: Env) {
    p.key in e.mgr.store && !Matches(env, e.mgr.store[p.key], p)
  }

  function ModifiedPeers(e: Engine, ps: seq<Remote>, env: Env): seq<Remote> {
    if ps == [] then []
    else
      var front := ModifiedPeers(e, ps[..|ps| - 1], env);
      if IsModified(e, ps[|ps| - 1], env) then front + [ps[|ps| - 1]] else front
  }

  function ModifyPeers(e: Engine, ps: seq<Remote>, env: Env): (Engine, Outcome) {
    var modified := ModifiedPeers(e, ps, env);
    AddNewPeers(RemoveKeys(e, Keys(modified)), modified, env)
  }

  /** The three passes of updateNetworkMap over the remote peers. */
  function Reconcile(e: Engine, ps: seq<Remote>, env: Env): (Engine, Outcome) {
    var (e1, o) := ModifyPeers(RemovePeers(e, ps), ps, env);
    if o != Ok then (e1, o) else AddNewPeers(e1, ps, env)
  }

  /** Drops our own entry from the remote peers. */
  function Others(ps: seq<Remote>, own: string): seq<Remote> {
    if ps == [] then []
    else
      var front := Others(ps[..|ps| - 1], own);
      if ps[|ps| - 1].key != own then front + [ps[|ps| - 1]] else front
  }

  /** `updateNetworkMap` from the serial check on. */
  function UpdateNetworkMap(e: Engine, nm: NetworkMap, own: string, env: Env): (Engine, Outcome) {
    if e.serial > nm.serial then (e, Ok)
    else
      var e1 := e.(mgr := SetGroups(RemoteFlag(e.mgr, nm.lazyEnabled), nm.groups));
      var ps := Others(nm.remotes, own);
      var (e2, o) :=
        if nm.remotesEmpty then (RemoveKeys(e1, e1.mgr.store.Keys), Ok) else Reconcile(e1, ps, env);
      if o != Ok then (e2, o)
      else (e2.(mgr := SetExcludeList(e2.mgr, nm.excluded), serial := nm.serial), Ok)
  }

  // ----------------------------------------------------------------- basic facts

  /** Connection objects are filed under their key and are older than the counter. */
  predicate Numbered(e: Engine) {
    && (forall k :: k in e.mgr.store ==> e.mgr.store[k].id.key == k && e.mgr.store[k].id.serial < e.next)
    && (forall id :: id in e.mgr.requested ==> id.serial < e.next)
  }

  lemma {:induction false} OthersMembers(ps: seq<Remote>, own: string)
    ensures forall p :: p in Others(ps, own) <==> p in ps && p.key != own
  {
    if ps != [] {
      OthersMembers(ps[..|ps| - 1], own);
      assert ps == ps[..|ps| - 1] + [ps[|ps| - 1]];
    }
  }

  lemma {:induction false} ModifiedMembers(e: Engine, ps: seq<Remote>, env: Env)
    ensures forall p :: p in ModifiedPeers(e, ps, env) <==> p in ps && IsModified(e, p, env)
  {
    if ps != [] {
      ModifiedMembers(e, ps[..|ps| - 1], env);
      assert ps == ps[..|ps| - 1] + [ps[|ps| - 1]];
    }
  }

  lemma AddNewPeerEffect(e: Engine, p: Remote, env: Env)
    requires Numbered(e)
    ensures var (e', o) := AddNewPeer(e, p, env);
      && Numbered(e') && o != AlreadyExists && e.next <= e'.next
      && e'.serial == e.serial && e'.running == e.running
      && (p.key in e.mgr.store || o != Ok ==> e' == e)
      && (p.key !in e.mgr.store && o == Ok ==>
            && p.ips != [] && AllParse(env, p.ips)
            && e'.mgr.store == e.mgr.store[p.key := Conn(ConnId(p.key, e.next), p.version, ParseAll(env, p.ips))]
            && Matches(env, e'.mgr.store[p.key], p))
  {
    if p.key !in e.mgr.store && AllParse(env, p.ips) {
      var c := Conn(ConnId(p.key, e.next), p.version, ParseAll(env, p.ips));
      PL.AddFrame(e.mgr, c, env);
    }
  }

  /** Every stored peer of `e` is kept; on success every listed peer is stored, each new one
      built from some entry of the list. */
  ghost predicate Added(e: Engine, e': Engine, ps: seq<Remote>, env: Env, o: Outcome) {
    && Numbered(e') && o != AlreadyExists && e.next <= e'.next
    && e'.serial == e.serial && e'.running == e.running
    && (forall k :: k in e.mgr.store ==> k in e'.mgr.store && e'.mgr.store[k] == e.mgr.store[k])
    && (forall k :: k in e'.mgr.store && k !in e.mgr.store ==>
          e'.mgr.store[k].id.serial >= e.next && BuiltFrom(env, e'.mgr.store[k], ps, k))
    && (o == Ok ==> Keys(ps) <= e'.mgr.store.Keys)
  }

  /** Some entry for key `k` has this connection's version and allowed IPs. */
  ghost predicate BuiltFrom(env: Env, c: Conn, ps: seq<Remote>, k: string) {
    exists p :: p in ps && p.key == k && Matches(env, c, p)
  }

  lemma {:induction false} AddNewPeersEffect(e: Engine, ps: seq<Remote>, env: Env)
    requires Numbered(e)
    ensures var (e', o) := AddNewPeers(e, ps, env); Added(e, e', ps, env, o)
  {
    if ps != [] {
      var front, p := ps[..|ps| - 1], ps[|ps| - 1];
      AddNewPeersEffect(e, front, env);
      assert ps == front + [p];
      var (e1, o1) := AddNewPeers(e, front, env);
      if o1 == Ok {
        AddNewPeerEffect(e1, p, env);
      }
      AddedMore(e, e1, front, p, env, o1);
    }
  }

  lemma AddedMore(e: Engine, e1: Engine, front: seq<Remote>, p: Remote, env: Env, o1: Outcome)
    requires Numbered(e) && Numbered(e1) && Added(e, e1, front, env, o1)
    ensures var (e', o) := if o1 != Ok then (e1, o1) else AddNewPeer(e1, p, env);
      Added(e, e', front + [p], env, o)
  {
    AddNewPeerEffect(e1, p, env);
    var ps := front + [p];
    var (e', o) := if o1 != Ok then (e1, o1) else AddNewPeer(e1, p, env);
    forall k | k in e'.mgr.store && k !in e.mgr.store ensures BuiltFrom(env, e'.mgr.store[k], ps, k) {
      if k in e1.mgr.store {
        assert BuiltFrom(env, e1.mgr.store[k], front, k);
        var q :| q in front && q.key == k && Matches(env, e1.mgr.store[k], q);
        assert q in ps;
      } else {
        assert p in ps;
      }
    }
    assert Keys(ps) == Keys(front) + {p.key};
  }

  lemma RemoveKeysEffect(e: Engine, keys: set<string>)
    requires Numbered(e)
    ensures var e' := RemoveKeys(e, keys);
      && Numbered(e') && e'.next == e.next && e'.serial == e.serial && e'.running == e.running
      && e'.mgr.store == e.mgr.store - keys
  {
  }

  // -------------------------------------------------------------- reconciliation

  /** After the modify pass each kept peer matches some entry for its key. */
  lemma ModifyEffect(e: Engine, ps: seq<Remote>, env: Env)
    requires Numbered(e) && e.mgr.store.Keys <= Keys(ps)
    ensures var (e', o) := ModifyPeers(e, ps, env);
      && Numbered(e') && o != AlreadyExists && e.next <= e'.next
      && e'.serial == e.serial && e'.running == e.running
      && e'.mgr.store.Keys <= e.mgr.store.Keys
      && (o == Ok ==> e'.mgr.store.Keys == e.mgr.store.Keys)
      && (forall k :: k in e'.mgr.store ==> BuiltFrom(env, e'.mgr.store[k], ps, k))
      && (forall k :: k in e.mgr.store && (forall p :: p in ps && p.key == k ==> Matches(env, e.mgr.store[k], p))
            ==> k in e'.mgr.store && e'.mgr.store[k] == e.mgr.store[k])
  {
    var modified := ModifiedPeers(e, ps, env);
    ModifiedMembers(e, ps, env);
    var e1 := RemoveKeys(e, Keys(modified));
    RemoveKeysEffect(e, Keys(modified));
    AddNewPeersEffect(e1, modified, env);
    var (e', o) := AddNewPeers(e1, modified, env);
    forall k | k in e'.mgr.store ensures k in e.mgr.store && BuiltFrom(env, e'.mgr.store[k], ps, k) {
      if k in e1.mgr.store {
        var p :| p in ps && p.key == k;
        assert p !in modified;
        assert Matches(env, e'.mgr.store[k], p);
      } else {
        assert BuiltFrom(env, e'.mgr.store[k], modified, k);
        var p :| p in modified && p.key == k && Matches(env, e'.mgr.store[k], p);
        assert p in ps && IsModified(e, p, env);
      }
    }
    if o == Ok {
      forall k | k in e.mgr.store ensures k in e'.mgr.store {
        if k !in e1.mgr.store { assert k in Keys(modified); }
      }
    }
    forall k | k in e.mgr.store && (forall p :: p in ps && p.key == k ==> Matches(env, e.mgr.store[k], p))
      ensures k in e'.mgr.store && e'.mgr.store[k] == e.mgr.store[k]
    {
      assert k !in Keys(modified);
    }
  }

  /** Reconciliation never reports an existing peer; on success the stored keys are exactly the
      map's, every stored peer has the version and allowed IPs of some entry for its key, and a
      peer that already agreed with all its entries keeps its very connection object. */
  lemma ReconcileConverges(e: Engine, ps: seq<Remote>, env: Env)
    requires Numbered(e)
    ensures var (e', o) := Reconcile(e, ps, env);
      && Numbered(e') && o != AlreadyExists && e'.serial == e.serial && e'.running == e.running
      && (o == Ok ==> e'.mgr.store.Keys == Keys(ps))
      && (forall k :: k in e'.mgr.store ==> BuiltFrom(env, e'.mgr.store[k], ps, k))
      && (forall k :: k in e.mgr.store && k in Keys(ps)
            && (forall p :: p in ps && p.key == k ==> Matches(env, e.mgr.store[k], p))
            ==> k in e'.mgr.store && e'.mgr.store[k] == e.mgr.store[k])
  {
    var e1 := RemovePeers(e, ps);
    RemoveKeysEffect(e, e.mgr.store.Keys - Keys(ps));
    ModifyEffect(e1, ps, env);
    var (e2, o2) := ModifyPeers(e1, ps, env);
    AddNewPeersEffect(e2, ps, env);
  }

  // ------------------------------------------------------------------- stability

  /** Entries for the same key ask for the same version and the same allowed IPs. */
  predicate Agree(env: Env, p: Remote, q: Remote) {
    p.key == q.key ==>
      p.version == q.version && AllParse(env, p.ips) && AllParse(env, q.ips)
      && multiset(ParseAll(env, p.ips)) == multiset(ParseAll(env, q.ips))
  }

  predicate Consistent(env: Env, ps: seq<Remote>) {
    forall i, j :: 0 <= i < j < |ps| ==> Agree(env, ps[i], ps[j])
  }

  lemma {:induction false} NothingModified(e: Engine, ps: seq<Remote>, env: Env)
    requires forall p :: p in ps ==> !IsModified(e, p, env)
    ensures ModifiedPeers(e, ps, env) == []
  {
    if ps != [] {
      assert ps[|ps| - 1] in ps;
      assert forall p :: p in ps[..|ps| - 1] ==> p in ps;
      NothingModified(e, ps[..|ps| - 1], env);
    }
  }

  lemma {:induction false} NothingToAdd(e: Engine, ps: seq<Remote>, env: Env)
    requires Keys(ps) <= e.mgr.store.Keys
    ensures AddNewPeers(e, ps, env) == (e, Ok)
  {
    if ps != [] {
      var front := ps[..|ps| - 1];
      assert ps == front + [ps[|ps| - 1]];
      assert Keys(ps) == Keys(front) + {ps[|ps| - 1].key};
      NothingToAdd(e, front, env);
    }
  }

  lemma RemoveNothing(e: Engine)
    ensures RemoveKeys(e, {}) == e
  {
    assert e.mgr.store - {} == e.mgr.store;
    assert Ids(e.mgr.store, {}) == {};
    if e.mgr.lazy.Some? {
      assert e.mgr.lazy.value.managed - ({} * e.mgr.store.Keys) == e.mgr.lazy.value.managed;
    }
  }

  /** A store that already agrees with every entry is left alone, object by object. */
  lemma ReconcileIsQuiet(e: Engine, ps: seq<Remote>, env: Env)
    requires e.mgr.store.Keys == Keys(ps)
    requires forall p :: p in ps ==> Matches(env, e.mgr.store[p.key], p)
    ensures Reconcile(e, ps, env) == (e, Ok)
  {
    assert e.mgr.store.Keys - Keys(ps) == {};
    RemoveNothing(e);
    NothingModified(e, ps, env);
    assert Keys([]) == {};
    NothingToAdd(e, [], env);
    NothingToAdd(e, ps, env);
  }

  /** Applying the same peer list again creates and closes nothing exactly when the list is
      consistent; with distinct keys it always is. */
  lemma ReapplyIff(e: Engine, ps: seq<Remote>, env: Env)
    requires Numbered(e) && Reconcile(e, ps, env).1 == Ok
    ensures var e1 := Reconcile(e, ps, env).0;
      Reconcile(e1, ps, env).0 == e1 <==> Consistent(env, ps)
  {
    var e1 := Reconcile(e, ps, env).0;
    ReconcileConverges(e, ps, env);
    if Consistent(env, ps) {
      forall p | p in ps ensures Matches(env, e1.mgr.store[p.key], p) {
        assert p.key in Keys(ps);
        assert BuiltFrom(env, e1.mgr.store[p.key], ps, p.key);
        var q :| q in ps && q.key == p.key && Matches(env, e1.mgr.store[p.key], q);
        ConsistentPair(env, ps, p, q);
      }
      ReconcileIsQuiet(e1, ps, env);
    } else {
      var i, j :| 0 <= i < j < |ps| && !Agree(env, ps[i], ps[j]);
      var c := e1.mgr.store[ps[i].key];
      assert ps[i].key in Keys(ps);
      assert !Matches(env, c, ps[i]) || !Matches(env, c, ps[j]);
      var p := if Matches(env, c, ps[i]) then ps[j] else ps[i];
      ReplacedWhenStale(e1, ps, p, env);
    }
  }

  lemma ConsistentPair(env: Env, ps: seq<Remote>, p: Remote, q: Remote)
    requires Consistent(env, ps) && p in ps && q in ps && p.key == q.key
    requires AllParse(env, q.ips)
    ensures p.version == q.version && AllParse(env, p.ips)
            && multiset(ParseAll(env, p.ips)) == multiset(ParseAll(env, q.ips))
  {
    var i :| 0 <= i < |ps| && ps[i] == p;
    var j :| 0 <= j < |ps| && ps[j] == q;
    if i < j {
      assert Agree(env, ps[i], ps[j]);
    } else if j < i {
      assert Agree(env, ps[j], ps[i]);
    }
  }

  /** A peer that disagrees with an entry loses its connection object. */
  lemma ReplacedWhenStale(e: Engine, ps: seq<Remote>, p: Remote, env: Env)
    requires Numbered(e) && e.mgr.store.Keys == Keys(ps) && p in ps
    requires !Matches(env, e.mgr.store[p.key], p)
    ensures var e' := Reconcile(e, ps, env).0;
      p.key !in e'.mgr.store || e'.mgr.store[p.key] != e.mgr.store[p.key]
  {
    assert e.mgr.store.Keys - Keys(ps) == {};
    RemoveNothing(e);
    var modified := ModifiedPeers(e, ps, env);
    ModifiedMembers(e, ps, env);
    assert p in modified && p.key in Keys(modified);
    var e1 := RemoveKeys(e, Keys(modified));
    RemoveKeysEffect(e, Keys(modified));
    AddNewPeersEffect(e1, modified, env);
    var (e2, o2) := AddNewPeers(e1, modified, env);
    AddNewPeersEffect(e2, ps, env);
  }

  /** With distinct keys: after success the store holds exactly the map's peers, each with the
      map's version and allowed IPs; unchanged peers keep their connection objects; and the
      same map applied again changes nothing at all. */
  lemma ReconcileDistinct(e: Engine, ps: seq<Remote>, env: Env)
    requires Numbered(e) && Reconcile(e, ps, env).1 == Ok
    requires forall i, j :: 0 <= i < j < |ps| ==> ps[i].key != ps[j].key
    ensures var e' := Reconcile(e, ps, env).0;
      && e'.mgr.store.Keys == Keys(ps)
      && (forall p :: p in ps ==> Matches(env, e'.mgr.store[p.key], p))
      && (forall p :: p in ps && p.key in e.mgr.store && Matches(env, e.mgr.store[p.key], p)
            ==> e'.mgr.store[p.key] == e.mgr.store[p.key])
      && Reconcile(e', ps, env) == (e', Ok)
  {
    var e' := Reconcile(e, ps, env).0;
    ReconcileConverges(e, ps, env);
    forall p | p in ps ensures Matches(env, e'.mgr.store[p.key], p) {
      assert p.key in Keys(ps);
      assert BuiltFrom(env, e'.mgr.store[p.key], ps, p.key);
      var q :| q in ps && q.key == p.key && Matches(env, e'.mgr.store[p.key], q);
      SameEntry(ps, p, q);
    }
    forall p | p in ps && p.key in e.mgr.store && Matches(env, e.mgr.store[p.key], p)
      ensures e'.mgr.store[p.key] == e.mgr.store[p.key]
    {
      assert p.key in Keys(ps);
      forall q | q in ps && q.key == p.key ensures Matches(env, e.mgr.store[p.key], q) {
        SameEntry(ps, p, q);
      }
    }
    ReconcileIsQuiet(e', ps, env);
  }

  lemma SameEntry(ps: seq<Remote>, p: Remote, q: Remote)
    requires forall i, j :: 0 <= i < j < |ps| ==> ps[i].key != ps[j].key
    requires p in ps && q in ps && p.key == q.key
    ensures p == q
  {
    var i :| 0 <= i < |ps| && ps[i] == p;
    var j :| 0 <= j < |ps| && ps[j] == q;
  }
}
