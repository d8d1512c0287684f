/** The token cache of the daemon (client/server/jwt_cache.go): stores, reads and timer
    callbacks in any order, including callbacks of timers that were stopped too late. */
module JwtCache {
  import opened Prelude

  type Time = int

  /** `time.Time{}` lies before every instant at which the cache is used. */
  const ZERO_TIME: Time := -1

  /** Sealing an empty buffer yields no enclave. */
  function Seal(token: string): Option<string> {
    if token == "" then None else Some(token)
  }

  /** The cache, the clock, and the timers whose callback has not run yet with their deadlines. */
  datatype Cache = Cache(enclave: Option<string>, expiresAt: Time, timer: Option<nat>,
                         now: Time, pending: map<nat, Time>, next: nat)

  const EMPTY: Cache := Cache(None, ZERO_TIME, None, 0, map[], 0)

  function Cleanup(c: Cache): Cache {
    c.(enclave := None, expiresAt := ZERO_TIME)
  }

  function Store(c: Cache, token: string, maxAge: int): Cache {
    Cleanup(c).(enclave := Seal(token), expiresAt := c.now + maxAge, timer := Some(c.next),
                pending := c.pending[c.next := c.now + maxAge], next := c.next + 1)
  }

  /** The callback of timer `id`. */
  function Fire(c: Cache, id: nat): Cache {
    var c1 := c.(pending := c.pending - {id});
    if c.timer != Some(id) then c1 else Cleanup(c1).(timer := None)
  }

  function Get(c: Cache, openOk: bool): Option<string> {
    if c.enclave == None || c.now > c.expiresAt || !openOk then None else c.enclave
  }

  datatype Step = StoreToken(token: string, maxAge: int) | Callback(id: nat) | Wait(elapsed: nat)

  /** A callback runs at most once and not before its deadline; stopping a timer does not
      guarantee that its callback will not run. */
  predicate Enabled(c: Cache, s: Step) {
    s.Callback? ==> s.id in c.pending && c.pending[s.id] <= c.now
  }

  function Next(c: Cache, s: Step): Cache {
    match s
    case StoreToken(token, maxAge) => Store(c, token, maxAge)
    case Callback(id) => Fire(c, id)
    case Wait(elapsed) => c.(now := c.now + elapsed)
  }

  function Run(steps: seq<Step>): Cache {
    if steps == [] then EMPTY else Next(Run(steps[..|steps| - 1]), steps[|steps| - 1])
  }

  predicate Legal(steps: seq<Step>) {
    steps == [] ||
    (Legal(steps[..|steps| - 1]) && Enabled(Run(steps[..|steps| - 1]), steps[|steps| - 1]))
  }

  // ------------------------------------------------------------------- reference

  /** The most recent store of a run: its token and when it expires. */
  datatype Stored = Stored(token: string, expiry: Time)

  function Latest(steps: seq<Step>): Option<Stored> {
    if steps == [] then None
    else
      var front, s := steps[..|steps| - 1], steps[|steps| - 1];
      if s.StoreToken? then Some(Stored(s.token, Clock(front) + s.maxAge)) else Latest(front)
  }

  /** The time that has passed in a run. */
  function Clock(steps: seq<Step>): Time {
    if steps == [] then 0
    else
      var front, s := steps[..|steps| - 1], steps[|steps| - 1];
      Clock(front) + if s.Wait? then s.elapsed else 0
  }

  /** The cache holds the latest token under its own timer, or that timer has gone off. */
  predicate Inv(c: Cache, latest: Option<Stored>) {
    && (forall id :: id in c.pending ==> id < c.next)
    && (c.timer.Some? ==> c.timer.value + 1 == c.next)
    && (c.timer.Some? ==> c.timer.value in c.pending && c.pending[c.timer.value] == c.expiresAt)
    && match latest
       case None => c.timer == None && c.enclave == None
       case Some(st) =>
         if c.timer.Some? then c.enclave == Seal(st.token) && c.expiresAt == st.expiry
         else c.enclave == None && st.expiry <= c.now
  }

  lemma {:induction false} RunInv(steps: seq<Step>)
    requires Legal(steps)
    ensures Inv(Run(steps), Latest(steps)) && Run(steps).now == Clock(steps)
  {
    if steps != [] {
      RunInv(steps[..|steps| - 1]);
    }
  }

  /** In every legal run, whatever the callbacks do: a read returns only the most recently stored
      token, never after its expiry; and before its expiry it does return that token. */
  lemma GetIsLatest(steps: seq<Step>, openOk: bool)
    requires Legal(steps)
    ensures var r, latest := Get(Run(steps), openOk), Latest(steps);
      && (r.Some? ==> latest.Some? && r.value == latest.value.token && Clock(steps) <= latest.value.expiry)
      && ((openOk && latest.Some? && latest.value.token != "" && Clock(steps) < latest.value.expiry)
          ==> r == Some(latest.value.token))
  {
    RunInv(steps);
  }

  function Stores(steps: seq<Step>): nat {
    if steps == [] then 0
    else Stores(steps[..|steps| - 1]) + if steps[|steps| - 1].StoreToken? then 1 else 0
  }

  /** The timer of the latest store has gone off. */
  predicate Expired(steps: seq<Step>) {
    Stores(steps) > 0 && Callback(Stores(steps) - 1) in steps
  }

  lemma {:induction false} TimerIff(steps: seq<Step>)
    requires Legal(steps)
    ensures var c := Run(steps);
      && c.next == Stores(steps)
      && (forall id: nat :: Callback(id) in steps ==> id < c.next)
      && (c.timer.Some? <==> c.next > 0 && !Expired(steps))
  {
    if steps != [] {
      var front, s := steps[..|steps| - 1], steps[|steps| - 1];
      assert steps == front + [s];
      TimerIff(front);
      RunInv(front);
    }
  }

  /** Exactly what a read returns after every legal run: the latest token, until and including the
      instant of its expiry, unless its timer has gone off, it is empty, or it cannot be unsealed. */
  lemma GetIff(steps: seq<Step>, openOk: bool)
    requires Legal(steps)
    ensures Get(Run(steps), openOk) ==
            match Latest(steps)
            case None => None
            case Some(st) =>
              if openOk && st.token != "" && Clock(steps) <= st.expiry && !Expired(steps) then Some(st.token) else None
  {
    RunInv(steps);
    TimerIff(steps);
  }

  /** The callback of the timer of any earlier store, run late, never touches a newer token. */
  lemma StaleCallbackIsHarmless(steps: seq<Step>, id: nat, openOk: bool)
    requires Legal(steps) && Enabled(Run(steps), Callback(id)) && id + 1 < Run(steps).next
    ensures var c := Run(steps);
      && Fire(c, id) == c.(pending := c.pending - {id})
      && Get(Fire(c, id), openOk) == Get(c, openOk)
  {
    RunInv(steps);
  }

  /** After the current timer's callback the token is gone from memory. */
  lemma ExpiryWipes(steps: seq<Step>, id: nat, openOk: bool)
    requires Legal(steps) && Enabled(Run(steps), Callback(id)) && Run(steps).timer == Some(id)
    ensures var c := Run(steps);
      Fire(c, id).enclave == None && Latest(steps).Some? && Latest(steps).value.expiry <= c.now
  {
    RunInv(steps);
  }

  // --------------------------------------------------------------------- object

  class TokenCache {
    var enclave: Option<string>
    var expiresAt: Time
    var timer: Option<nat>
    var pending: map<nat, Time>
    var next: nat

    function State(now: Time): Cache
      reads this
    {
      Cache(enclave, expiresAt, timer, now, pending, next)
    }

    constructor ()
      ensures State(0) == EMPTY
    {
      enclave, expiresAt, timer, pending, next := None, ZERO_TIME, None, map[], 0;
    }

    method CleanupLocked(now: Time)
      modifies this`enclave, this`expiresAt
      ensures State(now) == Cleanup(old(State(now)))
    {
      if enclave.Some? {
        enclave := None;
      }
      expiresAt := ZERO_TIME;
    }

    method StoreToken(token: string, maxAge: int, now: Time)
      modifies this
      ensures State(now) == Store(old(State(now)), token, maxAge)
    {
      CleanupLocked(now);
      enclave := Seal(token);
      expiresAt := now + maxAge;
      var t := next;
      next := next + 1;
      pending := pending[t := now + maxAge];
      timer := Some(t);
    }

    method OnTimer(id: nat, now: Time)
      modifies this
      ensures State(now) == Fire(old(State(now)), id)
    {
      pending := pending - {id};
      if timer != Some(id) {
        return;
      }
      CleanupLocked(now);
      timer := None;
    }

    method GetToken(now: Time, openOk: bool) returns (token: Option<string>)
      ensures token == Get(State(now), openOk)
    {
      if enclave == None || now > expiresAt {
        return None;
      }
      if !openOk {
        return None;
      }
      token := enclave;
    }
  }
}
