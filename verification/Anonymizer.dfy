/** The IP anonymizer (client/anonymize/anonymize.go): public addresses get consecutive
    pseudonyms, remembered in a map, one counter per address family. */
module Anonymizer {
  const MAX_V4: nat := 0xFFFF_FFFF
  const MAX_V6: nat := 0xFFFF_FFFF_FFFF_FFFF_FFFF_FFFF_FFFF_FFFF

  /** IPv4 addresses, IPv6 addresses (IPv4-mapped ones included), and the values without a family
      that a counter runs into when its family is used up. */
  datatype Addr = V4(value: nat) | V6(value: nat) | Invalid(value: nat)

  /** The code tells IPv4 addresses from all others. */
  predicate SameFamily(a: Addr, b: Addr) {
    a.V4? == b.V4?
  }

  /** `Addr.Next`: the successor of the last address is the zero Addr, which has no family. */
  function Succ(a: Addr): Addr {
    match a
    case V4(v) => if v < MAX_V4 then V4(v + 1) else Invalid(0)
    case V6(v) => if v < MAX_V6 then V6(v + 1) else Invalid(0)
    case Invalid(v) => if v < MAX_V6 then Invalid(v + 1) else Invalid(0)
  }

  function BitLen(a: Addr): nat {
    match a
    case V4(_) => 32
    case V6(_) => 128
    case Invalid(_) => 0
  }

  /** `Addr.Compare(..) <= 0`: by bit length, then by value. */
  predicate Leq(a: Addr, b: Addr) {
    BitLen(a) < BitLen(b) || (BitLen(a) == BitLen(b) && a.value <= b.value)
  }

  /** `exempt` stands for the loopback, link-local, private, multicast, unspecified and
      well-known addresses, which are never replaced. */
  datatype State = State(pseudonyms: map<Addr, Addr>, current4: Addr, current6: Addr,
                         start4: Addr, start6: Addr, exempt: Addr -> bool)

  function Init(start4: Addr, start6: Addr, exempt: Addr -> bool): State {
    State(map[], start4, start6, start4, start6, exempt)
  }

  function Current(s: State, a: Addr): Addr {
    if a.V4? then s.current4 else s.current6
  }

  function StartOf(s: State, a: Addr): Addr {
    if a.V4? then s.start4 else s.start6
  }

  /** `isInAnonymizedRange`, which includes the pseudonym that is next to be assigned. */
  predicate InRange(s: State, a: Addr) {
    Leq(StartOf(s, a), a) && Leq(a, Current(s, a))
  }

  predicate PassesThrough(s: State, a: Addr) {
    s.exempt(a) || InRange(s, a)
  }

  /** Assigns the next pseudonym of the family. */
  function Assign(s: State, a: Addr): State {
    var p := Current(s, a);
    var s1 := s.(pseudonyms := s.pseudonyms[a := p]);
    if a.V4? then s1.(current4 := Succ(p)) else s1.(current6 := Succ(p))
  }

  function Anonymize(s: State, a: Addr): (State, Addr) {
    if PassesThrough(s, a) then (s, a)
    else if a in s.pseudonyms then (s, s.pseudonyms[a])
    else (Assign(s, a), Current(s, a))
  }

  function Run(s: State, addrs: seq<Addr>): State {
    if addrs == [] then s else Anonymize(Run(s, addrs[..|addrs| - 1]), addrs[|addrs| - 1]).0
  }

  // -------------------------------------------------------- what every call keeps

  /** A counter is at or after its start, or has run out of its family. */
  predicate Advanced(start: Addr, current: Addr) {
    current.Invalid? || (SameFamily(start, current) && start.value <= current.value <= LastOf(start).value)
  }

  function LastOf(a: Addr): Addr {
    if a.V4? then V4(MAX_V4) else V6(MAX_V6)
  }

  /** What holds in every state, families used up or not: the counters have advanced from starts of
      their families, and no proper address is its own pseudonym. */
  predicate Sane(s: State) {
    && s.start4.V4? && s.start6.V6? && Advanced(s.start4, s.current4) && Advanced(s.start6, s.current6)
    && (forall a :: a in s.pseudonyms && !a.Invalid? ==> s.pseudonyms[a] != a)
  }

  lemma AnonymizeSane(s: State, a: Addr)
    requires Sane(s)
    ensures Sane(Anonymize(s, a).0)
  {
  }

  /** Pseudonyms, starts and exemptions are kept for good. */
  ghost predicate Keeps(s: State, s': State) {
    && (forall a :: a in s.pseudonyms ==> a in s'.pseudonyms && s'.pseudonyms[a] == s.pseudonyms[a])
    && s'.start4 == s.start4 && s'.start6 == s.start6 && s'.exempt == s.exempt
  }

  lemma {:induction false} RunSane(s: State, addrs: seq<Addr>)
    requires Sane(s)
    ensures Sane(Run(s, addrs)) && Keeps(s, Run(s, addrs))
  {
    if addrs != [] {
      RunSane(s, addrs[..|addrs| - 1]);
      AnonymizeSane(Run(s, addrs[..|addrs| - 1]), addrs[|addrs| - 1]);
    }
  }

  /** Two calls on one address, with any calls in between and whichever families are used up on the
      way, agree if and only if the address is exempt or is in the handed-out range at both calls or
      at neither. */
  lemma SecondCallAgreesIff(s: State, a: Addr, addrs: seq<Addr>)
    requires Sane(s)
    ensures var (s1, p) := Anonymize(s, a); var s2 := Run(s1, addrs);
      Anonymize(s2, a).1 == p <==> s.exempt(a) || (InRange(s, a) <==> InRange(s2, a))
  {
    var (s1, p) := Anonymize(s, a);
    var s2 := Run(s1, addrs);
    AnonymizeSane(s, a);
    RunSane(s1, addrs);
    assert s2.exempt(a) == s.exempt(a);
    if !s.exempt(a) {
      if InRange(s, a) {
        if !InRange(s2, a) { NotItself(s2, a); }
      } else {
        assert s2.pseudonyms[a] == p;
      }
    }
  }

  /** An address outside the range that is not exempt is replaced by another one. */
  lemma NotItself(s: State, a: Addr)
    requires Sane(s) && !PassesThrough(s, a) && !a.Invalid?
    ensures Anonymize(s, a).1 != a
  {
  }

  // ----------------------------------------------------------- invariant of a family

  /** The counter of the family, IPv4 or the others, has not run out. */
  predicate Counting(s: State, v4: bool) {
    if v4 then s.current4.V4? else s.current6.V6?
  }

  predicate Bounded(s: State, v4: bool) {
    forall a :: a in s.pseudonyms && a.V4? == v4 ==>
      && s.pseudonyms[a] == (if v4 then V4(s.pseudonyms[a].value) else V6(s.pseudonyms[a].value))
      && StartOf(s, a).value <= s.pseudonyms[a].value < Current(s, a).value
  }

  predicate Injective(m: map<Addr, Addr>, v4: bool) {
    forall a, b :: a in m && b in m && a.V4? == v4 && b.V4? == v4 && m[a] == m[b] ==> a == b
  }

  ghost predicate Taken(m: map<Addr, Addr>, p: Addr) {
    exists a :: a in m && SameFamily(a, p) && m[a] == p
  }

  ghost predicate Onto(s: State, v4: bool) {
    forall p: Addr :: p.V4? == v4 && !p.Invalid? && StartOf(s, p).value <= p.value < Current(s, p).value
      ==> Taken(s.pseudonyms, p)
  }

  /** The pseudonyms of a family are exactly the addresses from its start up to, excluding, its
      counter, and no two addresses of the family share one. The other family may be used up. */
  ghost predicate Inv(s: State, v4: bool) {
    Sane(s) && Counting(s, v4) && Bounded(s, v4) && Injective(s.pseudonyms, v4) && Onto(s, v4)
  }

  lemma InitInv(start4: Addr, start6: Addr, exempt: Addr -> bool, v4: bool)
    requires start4.V4? && start6.V6? && start4.value <= MAX_V4 && start6.value <= MAX_V6
    ensures Inv(Init(start4, start6, exempt), v4)
  {
  }

  lemma StaysTaken(s: State, a: Addr, p: Addr, q: Addr)
    requires a !in s.pseudonyms && Taken(s.pseudonyms, q)
    ensures Taken(s.pseudonyms[a := p], q)
  {
    var x :| x in s.pseudonyms && SameFamily(x, q) && s.pseudonyms[x] == q;
    assert s.pseudonyms[a := p][x] == q;
  }

  lemma AssignInv(s: State, a: Addr, v4: bool)
    requires Inv(s, v4) && !PassesThrough(s, a) && a !in s.pseudonyms && Counting(Assign(s, a), v4)
    ensures Inv(Assign(s, a), v4)
  {
    var s', p := Assign(s, a), Current(s, a);
    assert Sane(s') by { AnonymizeSane(s, a); }
    if a.V4? == v4 {
      assert s'.pseudonyms == s.pseudonyms[a := p];
      FreshStaysInjective(s, a, p);
      AssignBounded(s, a, p);
      AssignOnto(s, a, p);
    } else {
      forall q: Addr | q.V4? == v4 && !q.Invalid? && StartOf(s', q).value <= q.value < Current(s', q).value
        ensures Taken(s'.pseudonyms, q)
      {
        StaysTaken(s, a, p, q);
      }
    }
  }

  lemma AssignBounded(s: State, a: Addr, p: Addr)
    requires Inv(s, a.V4?) && a !in s.pseudonyms && p == Current(s, a) && Counting(Assign(s, a), a.V4?)
    ensures Bounded(Assign(s, a), a.V4?)
  {
    var s' := Assign(s, a);
    forall x | x in s'.pseudonyms && x.V4? == a.V4?
      ensures s'.pseudonyms[x] == (if a.V4? then V4(s'.pseudonyms[x].value) else V6(s'.pseudonyms[x].value))
              && StartOf(s', x).value <= s'.pseudonyms[x].value < Current(s', x).value
    {
      assert x != a ==> x in s.pseudonyms && s'.pseudonyms[x] == s.pseudonyms[x];
    }
  }

  lemma FreshStaysInjective(s: State, a: Addr, p: Addr)
    requires Inv(s, a.V4?) && a !in s.pseudonyms && p == Current(s, a)
    ensures Injective(s.pseudonyms[a := p], a.V4?)
  {
    forall x | x in s.pseudonyms && x.V4? == a.V4? ensures s.pseudonyms[x] != p {
      assert s.pseudonyms[x].value < Current(s, x).value;
    }
  }

  lemma AssignOnto(s: State, a: Addr, p: Addr)
    requires Inv(s, a.V4?) && a !in s.pseudonyms && p == Current(s, a) && Counting(Assign(s, a), a.V4?)
    ensures Onto(Assign(s, a), a.V4?)
  {
    var s' := Assign(s, a);
    forall q: Addr | q.V4? == a.V4? && !q.Invalid? && StartOf(s', q).value <= q.value < Current(s', q).value
      ensures Taken(s'.pseudonyms, q)
    {
      if q == p {
        assert s'.pseudonyms[a] == q;
      } else {
        assert StartOf(s, q).value <= q.value < Current(s, q).value;
        assert Taken(s.pseudonyms, q);
        var x :| x in s.pseudonyms && SameFamily(x, q) && s.pseudonyms[x] == q;
        assert s'.pseudonyms[x] == q;
      }
    }
  }

  lemma AnonymizeInv(s: State, a: Addr, v4: bool)
    requires Inv(s, v4) && Counting(Anonymize(s, a).0, v4)
    ensures Inv(Anonymize(s, a).0, v4)
  {
    if !PassesThrough(s, a) && a !in s.pseudonyms {
      AssignInv(s, a, v4);
    }
  }

  /** Exactly which call uses a family up: one that assigns its last address. */
  lemma RunsOutIff(s: State, a: Addr)
    requires Inv(s, a.V4?)
    ensures !Counting(Anonymize(s, a).0, a.V4?) <==>
            !PassesThrough(s, a) && a !in s.pseudonyms && Current(s, a) == LastOf(a)
  {
  }

  // -------------------------------------------------------------------------- runs

  /** A family that is used up stays so, and its counter only advances until then. */
  lemma RunOutForGood(s: State, a: Addr, v4: bool)
    requires Sane(s) && Counting(Anonymize(s, a).0, v4)
    ensures Counting(s, v4)
    ensures var s' := Anonymize(s, a).0;
      if v4 then s.current4.value <= s'.current4.value else s.current6.value <= s'.current6.value
  {
  }

  lemma {:induction false} RunInv(s: State, addrs: seq<Addr>, v4: bool)
    requires Sane(s) && Counting(Run(s, addrs), v4)
    ensures Counting(s, v4)
    ensures var s' := Run(s, addrs);
      if v4 then s.current4.value <= s'.current4.value else s.current6.value <= s'.current6.value
    ensures Inv(s, v4) ==> Inv(Run(s, addrs), v4)
  {
    if addrs != [] {
      var s1, a := Run(s, addrs[..|addrs| - 1]), addrs[|addrs| - 1];
      RunSane(s, addrs[..|addrs| - 1]);
      RunOutForGood(s1, a, v4);
      RunInv(s, addrs[..|addrs| - 1], v4);
      if Inv(s, v4) { AnonymizeInv(s1, a, v4); }
    }
  }

  /** The bijection holds in every state that a new anonymizer reaches before the family is used up. */
  lemma ReachedInv(start4: Addr, start6: Addr, exempt: Addr -> bool, addrs: seq<Addr>, v4: bool)
    requires start4.V4? && start6.V6? && start4.value <= MAX_V4 && start6.value <= MAX_V6
    requires Counting(Run(Init(start4, start6, exempt), addrs), v4)
    ensures Inv(Run(Init(start4, start6, exempt), addrs), v4)
  {
    InitInv(start4, start6, exempt, v4);
    RunInv(Init(start4, start6, exempt), addrs, v4);
  }

  /** A result that is not exempt is a proper address of the family of what it stands for, inside the
      range from then on as long as the family is not used up. */
  lemma ResultInFamily(s: State, a: Addr)
    requires Inv(s, a.V4?)
    ensures var (s1, p) := Anonymize(s, a);
      s.exempt(p) || (!p.Invalid? && SameFamily(a, p)
                      && StartOf(s, a).value <= p.value && (Counting(s1, a.V4?) ==> p.value <= Current(s1, a).value))
  {
    if a in s.pseudonyms {
      assert StartOf(s, a).value <= s.pseudonyms[a].value < Current(s, a).value;
    }
  }

  /** A result is mapped to itself by a later call, with any calls in between, if and only if it is
      exempt or its family has not been used up by then; the other family does not matter. */
  lemma IdempotentIff(s: State, a: Addr, addrs: seq<Addr>)
    requires Inv(s, a.V4?)
    ensures var (s1, p) := Anonymize(s, a); var s2 := Run(s1, addrs);
      Anonymize(s2, p) == (s2, p) <==> s.exempt(p) || Counting(s2, a.V4?)
  {
    var (s1, p) := Anonymize(s, a);
    var s2 := Run(s1, addrs);
    AnonymizeSane(s, a);
    RunSane(s1, addrs);
    ResultInFamily(s, a);
    assert s2.exempt(p) == s.exempt(p);
    if !s.exempt(p) {
      if Counting(s2, a.V4?) {
        RunInv(s1, addrs, a.V4?);
        assert InRange(s2, p);
      } else {
        NotItself(s2, p);
      }
    }
  }

  /** Decided before the call: the next call maps a result to itself if and only if it is exempt, or
      the address passes through or is known, or the family has another address to give out. */
  lemma IdempotentAtOnceIff(s: State, a: Addr)
    requires Inv(s, a.V4?)
    ensures var (s1, p) := Anonymize(s, a);
      Anonymize(s1, p) == (s1, p) <==>
      s.exempt(p) || PassesThrough(s, a) || a in s.pseudonyms || Current(s, a) != LastOf(a)
  {
    var (s1, p) := Anonymize(s, a);
    assert Run(s1, []) == s1;
    IdempotentIff(s, a, []);
    RunsOutIff(s, a);
  }

  /** In one state two different addresses get the same result exactly when one of them passes
      through and is the other's pseudonym: assigned pseudonyms never collide. */
  lemma CollisionIff(s: State, a: Addr, b: Addr)
    requires Inv(s, a.V4?) && Inv(s, b.V4?) && a != b
    requires PassesThrough(s, a) || a in s.pseudonyms
    requires PassesThrough(s, b) || b in s.pseudonyms
    ensures Anonymize(s, a).1 == Anonymize(s, b).1 <==>
            (PassesThrough(s, a) && !PassesThrough(s, b) && s.pseudonyms[b] == a)
            || (PassesThrough(s, b) && !PassesThrough(s, a) && s.pseudonyms[a] == b)
  {
  }

  /** A second call that disagrees, from the default start 198.51.100.0: the counter is at .0 when
      .1 is replaced by .0, and has moved past .1 after one more address. */
  lemma SecondCallDiffers()
    ensures var s := Init(V4(3325256704), V6(0x0100_0000_0000_0000_0000_0000_0000_0000), (a: Addr) => false);
      var a, b := V4(3325256705), V4(16909060);
      && Anonymize(s, a).1 == V4(3325256704)
      && Anonymize(Run(Anonymize(s, a).0, [b]), a).1 == a
  {
    var s := Init(V4(3325256704), V6(0x0100_0000_0000_0000_0000_0000_0000_0000), (a: Addr) => false);
    var a, b := V4(3325256705), V4(16909060);
    var s1 := Anonymize(s, a).0;
    assert Run(s1, [b][..0]) == s1;
    var s2 := Run(s1, [b]);
    assert s2.current4 == V4(3325256706);
  }

  /** Which addresses pass through while the family is counting, by their numbers: the exempt ones
      and those from the start up to and including the next pseudonym. */
  lemma PassesIff(s: State, a: Addr)
    requires Sane(s) && Counting(s, a.V4?) && !a.Invalid?
    ensures PassesThrough(s, a) <==>
            s.exempt(a) || (if a.V4? then s.start4.value <= a.value <= s.current4.value
                            else s.start6.value <= a.value <= s.current6.value)
  {
  }

  /** Because the next pseudonym already counts as handed out, it passes through, and the next
      address of its family is then replaced by it: two addresses with one result. */
  lemma NextPseudonymCollides(s: State, a: Addr)
    requires Sane(s) && Counting(s, a.V4?) && !a.Invalid? && !PassesThrough(s, a) && a !in s.pseudonyms
    ensures var p := Current(s, a);
      p != a && Anonymize(s, p) == (s, p) && Anonymize(s, a).1 == p
  {
  }

  /** An anonymizer that starts at the last IPv4 address: it is given out once, and then replaced
      like any other. */
  lemma LastAddressUnprotected()
    ensures var s := Init(V4(MAX_V4), V6(0), (a: Addr) => false);
      var (s1, p) := Anonymize(s, V4(1));
      p == V4(MAX_V4) && Anonymize(s1, p).1 != p
  {
    var s := Init(V4(MAX_V4), V6(0), (a: Addr) => false);
    InitInv(V4(MAX_V4), V6(0), (a: Addr) => false, true);
    IdempotentAtOnceIff(s, V4(1));
    var (s1, p) := Anonymize(s, V4(1));
    assert s1.pseudonyms == map[V4(1) := V4(MAX_V4)];
  }

  // ------------------------------------------------------------------------ object

  class IpAnonymizer {
    const start4: Addr
    const start6: Addr
    const exempt: Addr -> bool
    var ipAnonymizer: map<Addr, Addr>
    var current4: Addr
    var current6: Addr

    constructor (start4: Addr, start6: Addr, exempt: Addr -> bool)
      ensures Contents() == Init(start4, start6, exempt)
    {
      this.start4, this.start6, this.exempt := start4, start6, exempt;
      ipAnonymizer, current4, current6 := map[], start4, start6;
    }

    function Contents(): State
      reads this
    {
      State(ipAnonymizer, current4, current6, start4, start6, exempt)
    }

    method IsInAnonymizedRange(ip: Addr) returns (b: bool)
      ensures b == InRange(Contents(), ip)
    {
      if ip.V4? && Leq(start4, ip) && Leq(ip, current4) {
        return true;
      } else if !ip.V4? && Leq(start6, ip) && Leq(ip, current6) {
        return true;
      }
      b := false;
    }

    method AnonymizeIP(ip: Addr) returns (r: Addr)
      modifies this
      ensures Contents() == Anonymize(old(Contents()), ip).0 && r == Anonymize(old(Contents()), ip).1
    {
      var inRange := IsInAnonymizedRange(ip);
      if exempt(ip) || inRange {
        return ip;
      }
      if ip !in ipAnonymizer {
        if ip.V4? {
          ipAnonymizer := ipAnonymizer[ip := current4];
          current4 := Succ(current4);
        } else {
          ipAnonymizer := ipAnonymizer[ip := current6];
          current6 := Succ(current6);
        }
      }
      r := ipAnonymizer[ip];
    }
  }
}
