/** Reverse DNS zones made from the A records of a configuration (client/internal/dns.go). */
module ReverseDns {
  import opened Prelude
  import opened LastAddress

  const ARPA := ".in-addr.arpa"
  const TYPE_A := 1
  const TYPE_PTR := 12

  datatype Record = Record(name: string, kind: int, dnsClass: string, ttl: int, rdata: string)
  datatype Zone = Zone(domain: string, records: seq<Record>, searchDomainDisabled: bool, nonAuthoritative: bool)
  datatype Prefix = V4(addr: Bytes, bits: nat) | V6

  predicate IsV4(ip: Bytes) {
    |ip| == 4 && Octets(ip)
  }

  predicate Valid(p: Prefix) {
    p.V4? ==> IsV4(p.addr) && p.bits <= 32
  }

  // -------------------------------------------------------------------- address text

  predicate IsDigit(c: char) {
    '0' <= c <= '9'
  }

  function Digit(d: nat): (c: char)
    requires d < 10
    ensures IsDigit(c)
  {
    ('0' as int + d) as char
  }

  function DigitValue(c: char): (d: nat)
    requires IsDigit(c)
    ensures d < 10 && Digit(d) == c
  {
    c as int - '0' as int
  }

  function Decimal(n: nat): (s: string)
    requires n < 256
    ensures 1 <= |s| <= 3 && forall i :: 0 <= i < |s| ==> IsDigit(s[i])
  {
    if n < 10 then [Digit(n)]
    else if n < 100 then [Digit(n / 10), Digit(n % 10)]
    else [Digit(n / 100), Digit(n / 10 % 10), Digit(n % 10)]
  }

  /** One field of a dotted address: up to 255, no leading zero. */
  function ParseOctet(s: string): (r: Option<nat>)
    ensures r.Some? ==> r.value < 256
  {
    if !(1 <= |s| <= 3) || (exists i :: 0 <= i < |s| && !IsDigit(s[i])) then None
    else if |s| > 1 && s[0] == '0' then None
    else
      var v := if |s| == 1 then DigitValue(s[0])
               else if |s| == 2 then DigitValue(s[0]) * 10 + DigitValue(s[1])
               else DigitValue(s[0]) * 100 + DigitValue(s[1]) * 10 + DigitValue(s[2]);
      if v < 256 then Some(v) else None
  }

  lemma OctetRoundTrip(n: nat, s: string)
    requires n < 256
    ensures ParseOctet(s) == Some(n) <==> s == Decimal(n)
  {
    ParseDecimal(n);
    if ParseOctet(s) == Some(n) {
      OctetCanonical(n, s);
    }
  }

  lemma ParseDecimal(n: nat)
    requires n < 256
    ensures ParseOctet(Decimal(n)) == Some(n)
  {
  }

  lemma OctetCanonical(n: nat, s: string)
    requires n < 256 && ParseOctet(s) == Some(n)
    ensures s == Decimal(n)
  {
    if |s| == 1 {
      assert s == [s[0]];
    } else if |s| == 2 {
      assert s == [s[0], s[1]];
    } else {
      assert s == [s[0], s[1], s[2]];
      ThreeDigits(DigitValue(s[0]), DigitValue(s[1]), DigitValue(s[2]));
    }
  }

  lemma ThreeDigits(a: nat, b: nat, c: nat)
    requires a < 10 && b < 10 && c < 10
    ensures var n := a * 100 + b * 10 + c; n / 100 == a && n / 10 % 10 == b && n % 10 == c
  {
  }

  lemma DecimalInjective(m: nat, n: nat)
    requires m < 256 && n < 256 && Decimal(m) == Decimal(n)
    ensures m == n
  {
    OctetRoundTrip(m, Decimal(m));
    OctetRoundTrip(n, Decimal(m));
  }

  function Labels(ip: Bytes): (r: seq<string>)
    requires Octets(ip)
    ensures |r| == |ip| && Free(r, '.')
  {
    seq(|ip|, i requires 0 <= i < |ip| => Decimal(ip[i]))
  }

  function Text(ip: Bytes): string
    requires IsV4(ip)
  {
    Join(Labels(ip), '.')
  }

  /** `netip.ParseAddr` on IPv4 text; other texts never match an IPv4 network. */
  function ParseV4(s: string): (r: Option<Bytes>)
    ensures r.Some? ==> IsV4(r.value)
  {
    var f := Split(s, '.');
    if |f| != 4 then None
    else
      var a, b, c, d := ParseOctet(f[0]), ParseOctet(f[1]), ParseOctet(f[2]), ParseOctet(f[3]);
      if a.None? || b.None? || c.None? || d.None? then None
      else Some([a.value, b.value, c.value, d.value])
  }

  lemma ParseText(ip: Bytes)
    requires IsV4(ip)
    ensures ParseV4(Text(ip)) == Some(ip)
  {
    SplitJoin(Labels(ip), '.');
    forall i | 0 <= i < 4 ensures ParseOctet(Labels(ip)[i]) == Some(ip[i]) {
      OctetRoundTrip(ip[i], Labels(ip)[i]);
    }
    assert ip == [ip[0], ip[1], ip[2], ip[3]];
  }

  lemma ParsedIsText(s: string, ip: Bytes)
    requires IsV4(ip) && ParseV4(s) == Some(ip)
    ensures s == Text(ip)
  {
    var f := Split(s, '.');
    forall i | 0 <= i < 4 ensures f[i] == Labels(ip)[i] {
      OctetRoundTrip(ip[i], f[i]);
    }
    assert f == Labels(ip);
    JoinSplit(s, '.');
  }

  /** Parsing and printing addresses are inverse to each other. */
  lemma ParseTextIff(s: string, ip: Bytes)
    requires IsV4(ip)
    ensures ParseV4(s) == Some(ip) <==> s == Text(ip)
  {
    ParseText(ip);
    if ParseV4(s) == Some(ip) {
      ParsedIsText(s, ip);
    }
  }

  // ------------------------------------------------------------------------- networks

  /** Octet `i` of an address with the bits beyond the prefix cleared. */
  function MaskedOctet(o: nat, bits: nat, i: nat): (m: nat)
    ensures m <= o
  {
    if bits >= 8 * i + 8 then o
    else if bits <= 8 * i then 0
    else
      var h := 8 * i + 8 - bits;
      ShiftIff(o, h, Shift(o, h));
      Shift(o, h) * Pow2(h)
  }

  function Masked(ip: Bytes, bits: nat): (r: Bytes)
    requires Octets(ip)
    ensures |r| == |ip| && Octets(r)
  {
    seq(|ip|, i requires 0 <= i < |ip| => MaskedOctet(ip[i], bits, i))
  }

  predicate Contains(p: Prefix, ip: Bytes)
    requires Valid(p) && IsV4(ip)
  {
    p.V4? && Masked(ip, p.bits) == Masked(p.addr, p.bits)
  }

  /** One more octet `a` behind the number `x`, whose masked part is `v`. */
  lemma MaskedStep(x: nat, v: nat, a: nat, bits: nat, n: nat)
    requires n > 0 && a < 256
    requires v + (Pow2(HostBits(bits, n - 1)) - 1) == Fill(x, HostBits(bits, n - 1))
    ensures v * 256 + MaskedOctet(a, bits, n - 1) + (Pow2(HostBits(bits, n)) - 1) == Fill(x * 256 + a, HostBits(bits, n))
  {
    var h := HostBits(bits, n);
    Pow2Of8();
    if h == 0 {
      assert Fill(x, 0) == x && Fill(x * 256 + a, 0) == x * 256 + a;
    } else if h < 8 {
      assert Fill(x, 0) == x;
      FillWithin(x, 8, a, h);
      FillIsLast(a, h);
    } else {
      FillByte(x, h - 8, a);
      Pow2Sum(h - 8, 8);
    }
  }

  /** Clearing the host bits of the first `n` octets, as numbers: adding the cleared ones back as
      ones gives the last address of the network. */
  lemma {:induction false} MaskedValue(ip: Bytes, bits: nat, n: nat)
    requires Octets(ip) && n <= |ip|
    ensures var h := HostBits(bits, n);
      Value(Masked(ip, bits)[..n]) + (Pow2(h) - 1) == Fill(Value(ip[..n]), h)
  {
    var m := Masked(ip, bits);
    if n > 0 {
      MaskedValue(ip, bits, n - 1);
      assert m[..n][..n - 1] == m[..n - 1] && ip[..n][..n - 1] == ip[..n - 1];
      MaskedStep(Value(ip[..n - 1]), Value(m[..n - 1]), ip[n - 1], bits, n);
    } else {
      assert m[..0] == [] && ip[..0] == [];
    }
  }

  lemma {:induction false} ValueInjective(a: Bytes, b: Bytes)
    requires Octets(a) && Octets(b) && |a| == |b| && Value(a) == Value(b)
    ensures a == b
  {
    if a != [] {
      var n := |a| - 1;
      ValueInjective(a[..n], b[..n]);
      assert a == a[..n] + [a[n]] && b == b[..n] + [b[n]];
    }
  }

  /** `Prefix.Contains` by numbers: the address lies in the network, that is, agrees with the
      network's address when the host bits are shifted out. */
  lemma ContainsIff(p: Prefix, ip: Bytes)
    requires Valid(p) && IsV4(ip) && p.V4?
    ensures Contains(p, ip) <==> InNetwork(p.addr, p.bits, ip)
  {
    var h := HostBits(p.bits, 4);
    MaskedValue(ip, p.bits, 4);
    MaskedValue(p.addr, p.bits, 4);
    assert ip[..4] == ip && p.addr[..4] == p.addr;
    var a, b := Masked(ip, p.bits), Masked(p.addr, p.bits);
    assert a[..4] == a && b[..4] == b;
    FillIsLast(Value(ip), h);
    FillIsLast(Value(p.addr), h);
    if Value(a) == Value(b) {
      ValueInjective(a, b);
      SameMultiple(Shift(Value(ip), h), Shift(Value(p.addr), h), Pow2(h));
    }
  }

  lemma SameMultiple(x: nat, y: nat, p: nat)
    requires p > 0 && x * p == y * p
    ensures x == y
  {
  }

  // ---------------------------------------------------------------------------- names

  function Backslashes(s: string): nat {
    if s != "" && s[|s| - 1] == '\\' then 1 + Backslashes(s[..|s| - 1]) else 0
  }

  predicate IsFqdn(s: string) {
    s != "" && s[|s| - 1] == '.' && Backslashes(s[..|s| - 1]) % 2 == 0
  }

  function Fqdn(s: string): (r: string)
    ensures s <= r
  {
    if IsFqdn(s) then s else s + "."
  }

  /** Without backslashes a name is absolute exactly when it ends in a dot. */
  lemma FqdnPlain(s: string)
    requires '\\' !in s
    ensures Fqdn(s) == if s != "" && s[|s| - 1] == '.' then s else s + "."
  {
    if s != "" && s[|s| - 1] == '.' && |s| > 1 {
      assert s[..|s| - 1][|s| - 2] in s;
    }
  }

  /** A dot after an odd number of backslashes does not end a name, so making a name absolute twice
      adds a second dot exactly then. */
  lemma FqdnIdempotentIff(s: string)
    ensures Fqdn(Fqdn(s)) == Fqdn(s) <==> IsFqdn(s) || Backslashes(s) % 2 == 0
  {
    assert (s + ".")[..|s|] == s;
  }

  function PtrName(ip: Bytes): string
    requires IsV4(ip)
  {
    Fqdn(Join(Reversed(Split(Text(ip), '.')), '.') + ARPA)
  }

  /** `(bits + 7) / 8`: partial bytes are rounded up. */
  function OctetsToUse(bits: nat): nat {
    (bits + 7) / 8
  }

  function ZoneName(p: Prefix): (r: Option<string>)
    requires Valid(p)
  {
    if p.V6? then None
    else
      var octets := Split(Text(Masked(p.addr, p.bits)), '.');
      if OctetsToUse(p.bits) > |octets| then None
      else Some(Fqdn(Join(Reversed(octets[..OctetsToUse(p.bits)]), '.') + ARPA))
  }

  method GenerateReverseZoneName(p: Prefix) returns (r: Option<string>)
    requires Valid(p)
    ensures r == ZoneName(p)
  {
    if p.V6? {
      return None;
    }
    var octetsToUse := OctetsToUse(p.bits);
    var octets := Split(Text(Masked(p.addr, p.bits)), '.');
    if octetsToUse > |octets| {
      return None;
    }
    var reverseOctets := new string[octetsToUse](i => "");
    for i := 0 to octetsToUse
      invariant forall k :: 0 <= k < i ==> reverseOctets[octetsToUse - 1 - k] == octets[k]
    {
      reverseOctets[octetsToUse - 1 - i] := octets[i];
    }
    assert reverseOctets[..] == Reversed(octets[..octetsToUse]) by {
      forall j | 0 <= j < octetsToUse ensures reverseOctets[j] == octets[octetsToUse - 1 - j] {
        assert reverseOctets[octetsToUse - 1 - (octetsToUse - 1 - j)] == octets[octetsToUse - 1 - j];
      }
    }
    r := Some(Fqdn(Join(reverseOctets[..], '.') + ARPA));
  }

  /** `name` is the zone itself or lies below it, label by label. */
  ghost predicate Under(name: string, zone: string) {
    name == zone || exists q :: name == q + "." + zone
  }

  lemma FqdnArpa(s: string)
    ensures Fqdn(s + ARPA) == s + ARPA + "."
  {
    assert (s + ARPA)[|s + ARPA| - 1] == 'a';
  }

  lemma PtrNameIs(ip: Bytes)
    requires IsV4(ip)
    ensures PtrName(ip) == Join(Reversed(Labels(ip)), '.') + (ARPA + ".")
  {
    SplitJoin(Labels(ip), '.');
    var t := Join(Reversed(Labels(ip)), '.');
    FqdnArpa(t);
    assert t + ARPA + "." == t + (ARPA + ".");
  }

  lemma ZoneNameIs(p: Prefix)
    requires Valid(p) && p.V4?
    ensures ZoneName(p) == Some(Join(Reversed(Labels(Masked(p.addr, p.bits))[..OctetsToUse(p.bits)]), '.') + (ARPA + "."))
  {
    var labels := Labels(Masked(p.addr, p.bits));
    SplitJoin(labels, '.');
    var t := Join(Reversed(labels[..OctetsToUse(p.bits)]), '.');
    FqdnArpa(t);
    assert t + ARPA + "." == t + (ARPA + ".");
  }

  /** Lying under a name with a common ending is lying under it without that ending. */
  lemma UnderSuffix(s: string, t: string, e: string)
    ensures Under(s + e, t + e) <==> Under(s, t)
  {
    if s + e == t + e {
      assert |s| == |t|;
      assert s == (s + e)[..|s|] && t == (t + e)[..|t|];
    } else if exists q :: s + e == q + "." + (t + e) {
      var q :| s + e == q + "." + (t + e);
      var u := s + e;
      assert u == (q + "." + t) + e;
      assert |s| == |q + "." + t|;
      assert s == u[..|s|] && q + "." + t == u[..|s|];
    }
    if s != t && Under(s, t) {
      var q :| s == q + "." + t;
      assert s + e == q + "." + (t + e);
    }
  }

  /** On label lists without empty labels, lying under is being a list's tail. */
  lemma UnderLabels(a: seq<string>, b: seq<string>)
    requires a != [] && Free(a, '.') && Free(b, '.') && "" !in a
    ensures Under(Join(a, '.'), Join(b, '.')) <==> b != [] && |b| <= |a| && a[|a| - |b|..] == b
  {
    if b == [] {
      NotUnderEmpty(a);
    } else if Under(Join(a, '.'), Join(b, '.')) {
      UnderIsTail(a, b);
    } else if |b| <= |a| && a[|a| - |b|..] == b {
      TailIsUnder(a, b);
    }
  }

  lemma SplitTail(s: string, t: string, a: seq<string>, b: seq<string>)
    requires Under(s, t) && a == Split(s, '.') && b == Split(t, '.')
    ensures |b| <= |a| && a[|a| - |b|..] == b
  {
    if s != t {
      var q :| s == q + "." + t;
      SplitConcat(q, t, '.');
    }
  }

  lemma UnderIsTail(a: seq<string>, b: seq<string>)
    requires a != [] && b != [] && Free(a, '.') && Free(b, '.') && Under(Join(a, '.'), Join(b, '.'))
    ensures |b| <= |a| && a[|a| - |b|..] == b
  {
    SplitJoin(a, '.');
    SplitJoin(b, '.');
    SplitTail(Join(a, '.'), Join(b, '.'), a, b);
  }

  lemma NotUnderEmpty(a: seq<string>)
    requires a != [] && Free(a, '.') && "" !in a
    ensures !Under(Join(a, '.'), "")
  {
    SplitJoin(a, '.');
    assert Split("", '.') == [""];
    assert a[|a| - 1] == a[|a| - 1..][0] && a[|a| - 1] in a;
    if Under(Join(a, '.'), "") {
      SplitTail(Join(a, '.'), "", a, [""]);
    }
  }

  lemma TailIsUnder(a: seq<string>, b: seq<string>)
    requires b != [] && |b| <= |a| && a[|a| - |b|..] == b
    ensures Under(Join(a, '.'), Join(b, '.'))
  {
    if |b| == |a| {
      assert a == b;
    } else {
      var q := a[..|a| - |b|];
      assert a == q + b;
      JoinConcat(q, b, '.');
      assert Join(a, '.') == Join(q, '.') + "." + Join(b, '.');
    }
  }

  /** A PTR name lies in a network's zone exactly when the zone has a label and the address
      starts with the network's masked octets, as many as the zone uses. */
  lemma UnderZoneIff(ip: Bytes, p: Prefix)
    requires IsV4(ip) && Valid(p) && p.V4?
    ensures ZoneName(p).Some?
    ensures Under(PtrName(ip), ZoneName(p).value) <==>
              p.bits > 0 && forall i :: 0 <= i < OctetsToUse(p.bits) ==> ip[i] == Masked(p.addr, p.bits)[i]
  {
    var k, m := OctetsToUse(p.bits), Masked(p.addr, p.bits);
    var a, b := Reversed(Labels(ip)), Reversed(Labels(m)[..k]);
    PtrNameIs(ip);
    ZoneNameIs(p);
    UnderSuffix(Join(a, '.'), Join(b, '.'), ARPA + ".");
    UnderLabels(a, b);
    ReversedTail(ip, m, k);
  }

  lemma ReversedTail(ip: Bytes, m: Bytes, k: nat)
    requires IsV4(ip) && IsV4(m) && k <= 4
    ensures Reversed(Labels(ip))[4 - k..] == Reversed(Labels(m)[..k])
            <==> forall i :: 0 <= i < k ==> ip[i] == m[i]
  {
    var a, b := Reversed(Labels(ip))[4 - k..], Reversed(Labels(m)[..k]);
    forall i | 0 <= i < k ensures a[k - 1 - i] == b[k - 1 - i] <==> ip[i] == m[i] {
      if Decimal(ip[i]) == Decimal(m[i]) { DecimalInjective(ip[i], m[i]); }
    }
    if forall i :: 0 <= i < k ==> ip[i] == m[i] {
      forall j | 0 <= j < k ensures a[j] == b[j] {
        assert ip[k - 1 - j] == m[k - 1 - j];
      }
    }
  }

  /** Distinct addresses have distinct PTR names. */
  lemma PtrNamesDistinct(x: Bytes, y: Bytes)
    requires IsV4(x) && IsV4(y)
    ensures PtrName(x) == PtrName(y) <==> x == y
  {
    if PtrName(x) == PtrName(y) {
      var p := V4(y, 32);
      assert Masked(y, 32) == y;
      PtrNameIs(y);
      ZoneNameIs(p);
      assert Labels(y)[..4] == Labels(y);
      UnderZoneIff(x, p);
    }
  }

  predicate ByteAligned(bits: nat) {
    bits == 8 || bits == 16 || bits == 24 || bits == 32
  }

  /** The zone covers every address of its network exactly for byte-aligned, non-zero lengths. */
  lemma ZoneCoversIff(p: Prefix)
    requires Valid(p) && p.V4?
    ensures ZoneName(p).Some?
    ensures (forall ip :: IsV4(ip) && Contains(p, ip) ==> Under(PtrName(ip), ZoneName(p).value)) <==> ByteAligned(p.bits)
  {
    UnderZoneIff(p.addr, p);
    if ByteAligned(p.bits) {
      forall ip | IsV4(ip) && Contains(p, ip) ensures Under(PtrName(ip), ZoneName(p).value) {
        UnderZoneIff(ip, p);
        AlignedAgree(p, ip);
      }
    } else {
      var ip := Uncovered(p);
      UnderZoneIff(ip, p);
    }
  }

  lemma AlignedAgree(p: Prefix, ip: Bytes)
    requires Valid(p) && p.V4? && ByteAligned(p.bits) && IsV4(ip) && Contains(p, ip)
    ensures forall i :: 0 <= i < OctetsToUse(p.bits) ==> ip[i] == Masked(p.addr, p.bits)[i]
  {
    forall i | 0 <= i < OctetsToUse(p.bits) ensures ip[i] == Masked(p.addr, p.bits)[i] {
      assert Masked(ip, p.bits)[i] == ip[i];
    }
  }

  /** An address of the network that differs from the masked one in the last octet used. */
  lemma Uncovered(p: Prefix) returns (ip: Bytes)
    requires Valid(p) && p.V4? && !ByteAligned(p.bits)
    ensures IsV4(ip) && Contains(p, ip)
    ensures p.bits > 0 ==> ip[OctetsToUse(p.bits) - 1] != Masked(p.addr, p.bits)[OctetsToUse(p.bits) - 1]
  {
    if p.bits == 0 {
      ip := p.addr;
    } else {
      var i := p.bits / 8;
      var o := NextOctet(p.addr[i], p.bits, i);
      ip := p.addr[i := o];
      forall j | 0 <= j < 4 ensures Masked(ip, p.bits)[j] == Masked(p.addr, p.bits)[j] {
      }
      assert Masked(ip, p.bits) == Masked(p.addr, p.bits);
    }
  }

  lemma NextOctet(o: nat, bits: nat, i: nat) returns (next: nat)
    requires o < 256 && 8 * i < bits < 8 * i + 8
    ensures next < 256 && next != MaskedOctet(o, bits, i) && MaskedOctet(next, bits, i) == MaskedOctet(o, bits, i)
  {
    var h := 8 * i + 8 - bits;
    next := Shift(o, h) * Pow2(h) + 1;
    ShiftIff(next, h, Shift(o, h));
    FillIsLast(o, h);
    Pow2Of8();
    FillBound(o, h, 8);
  }

  // ---------------------------------------------------------------------- PTR records

  function PtrRecord(r: Record, p: Prefix): Option<Record>
    requires Valid(p)
  {
    var ip := ParseV4(r.rdata);
    if ip.None? || !Contains(p, ip.value) then None
    else Some(Record(PtrName(ip.value), TYPE_PTR, r.dnsClass, r.ttl, Fqdn(r.name)))
  }

  function Candidate(r: Record, p: Prefix): Option<Record>
    requires Valid(p)
  {
    if r.kind != TYPE_A then None else PtrRecord(r, p)
  }

  function Candidates(z: Zone, p: Prefix): seq<Option<Record>>
    requires Valid(p)
  {
    if z.nonAuthoritative then []
    else seq(|z.records|, j requires 0 <= j < |z.records| => Candidate(z.records[j], p))
  }

  function Kept(options: seq<Option<Record>>): seq<Record> {
    if options == [] then []
    else
      var front, last := Kept(options[..|options| - 1]), options[|options| - 1];
      if last.Some? then front + [last.value] else front
  }

  function Flatten(lists: seq<seq<Record>>): seq<Record> {
    if lists == [] then [] else Flatten(lists[..|lists| - 1]) + lists[|lists| - 1]
  }

  function PerZone(zones: seq<Zone>, p: Prefix): seq<seq<Record>>
    requires Valid(p)
  {
    seq(|zones|, i requires 0 <= i < |zones| => Kept(Candidates(zones[i], p)))
  }

  function Collected(zones: seq<Zone>, p: Prefix): seq<Record>
    requires Valid(p)
  {
    Flatten(PerZone(zones, p))
  }

  method CollectPTRRecords(zones: seq<Zone>, p: Prefix) returns (records: seq<Record>)
    requires Valid(p)
    ensures records == Collected(zones, p)
  {
    records := [];
    ghost var lists := PerZone(zones, p);
    for i := 0 to |zones|
      invariant records == Flatten(lists[..i])
    {
      var zone := zones[i];
      assert lists[..i + 1][..i] == lists[..i];
      if zone.nonAuthoritative {
        continue;
      }
      ghost var before, candidates := records, Candidates(zone, p);
      for j := 0 to |zone.records|
        invariant records == before + Kept(candidates[..j])
      {
        var record := zone.records[j];
        assert candidates[..j + 1][..j] == candidates[..j];
        if record.kind != TYPE_A {
          continue;
        }
        var ptr := PtrRecord(record, p);
        if ptr.Some? {
          records := records + [ptr.value];
        }
      }
      assert candidates[..|zone.records|] == candidates;
    }
    assert lists[..|zones|] == lists;
  }

  lemma {:induction false} KeptMembers(options: seq<Option<Record>>, r: Record)
    ensures r in Kept(options) <==> Some(r) in options
  {
    if options != [] {
      KeptMembers(options[..|options| - 1], r);
      assert options == options[..|options| - 1] + [options[|options| - 1]];
    }
  }

  lemma {:induction false} FlattenMembers(lists: seq<seq<Record>>, r: Record)
    ensures r in Flatten(lists) <==> exists i :: 0 <= i < |lists| && r in lists[i]
  {
    if lists != [] {
      var front, last := lists[..|lists| - 1], |lists| - 1;
      FlattenMembers(front, r);
      if i :| 0 <= i < |front| && r in front[i] {
        assert r in lists[i];
      }
      if i :| 0 <= i < |lists| && r in lists[i] {
        if i < last { assert r in front[i]; }
      }
    }
  }

  /** Record `j` of zone `i` gives rise to the PTR record `r`. */
  predicate Source(zones: seq<Zone>, p: Prefix, i: nat, j: nat, r: Record)
    requires Valid(p)
  {
    i < |zones| && !zones[i].nonAuthoritative && j < |zones[i].records|
    && zones[i].records[j].kind == TYPE_A && PtrRecord(zones[i].records[j], p) == Some(r)
  }

  lemma SourceOffered(zones: seq<Zone>, p: Prefix, i: nat, j: nat, r: Record)
    requires Valid(p) && Source(zones, p, i, j, r)
    ensures r in PerZone(zones, p)[i]
  {
    assert Candidates(zones[i], p)[j] == Candidate(zones[i].records[j], p);
    KeptMembers(Candidates(zones[i], p), r);
  }

  lemma OfferedSource(zones: seq<Zone>, p: Prefix, i: nat, r: Record) returns (j: nat)
    requires Valid(p) && i < |zones| && r in PerZone(zones, p)[i]
    ensures Source(zones, p, i, j, r)
  {
    var options := Candidates(zones[i], p);
    KeptMembers(options, r);
    j :| 0 <= j < |options| && options[j] == Some(r);
    assert options[j] == Candidate(zones[i].records[j], p);
  }

  lemma SourceCollected(zones: seq<Zone>, p: Prefix, i: nat, j: nat, r: Record)
    requires Valid(p) && Source(zones, p, i, j, r)
    ensures r in Collected(zones, p)
  {
    SourceOffered(zones, p, i, j, r);
    FlattenMembers(PerZone(zones, p), r);
  }

  lemma CollectedSource(zones: seq<Zone>, p: Prefix, r: Record) returns (i: nat, j: nat)
    requires Valid(p) && r in Collected(zones, p)
    ensures Source(zones, p, i, j, r)
  {
    var lists := PerZone(zones, p);
    FlattenMembers(lists, r);
    i :| 0 <= i < |lists| && r in lists[i];
    j := OfferedSource(zones, p, i, r);
  }

  /** The collected records are exactly the PTR records of the A records in authoritative zones
      whose address lies in the network. */
  lemma CollectedMembers(zones: seq<Zone>, p: Prefix, r: Record)
    requires Valid(p)
    ensures r in Collected(zones, p) <==> exists i, j :: Source(zones, p, i, j, r)
  {
    if r in Collected(zones, p) {
      var i, j := CollectedSource(zones, p, r);
    }
    if exists i, j :: Source(zones, p, i, j, r) {
      var i, j :| Source(zones, p, i, j, r);
      SourceCollected(zones, p, i, j, r);
    }
  }

  /** `r` answers the reverse lookup of the A record `a`: it is filed under the reversed octets of the
      address that `a` gives as text, points to the name of `a`, and has its class and lifetime. */
  ghost predicate Answers(a: Record, p: Prefix, ip: Bytes, r: Record)
    requires Valid(p)
  {
    && a.kind == 1 && IsV4(ip) && a.rdata == Text(ip) && p.V4? && InNetwork(p.addr, p.bits, ip)
    && r.kind == 12 && r.name == Join(Reversed(Labels(ip)), '.') + ".in-addr.arpa."
    && r.rdata == Fqdn(a.name) && r.ttl == a.ttl && r.dnsClass == a.dnsClass
  }

  lemma ArpaText()
    ensures ARPA + "." == ".in-addr.arpa."
  {
  }

  lemma AnswersFrom(a: Record, p: Prefix, ip: Bytes, r: Record)
    requires Valid(p) && IsV4(ip) && ParseV4(a.rdata) == Some(ip)
    ensures Candidate(a, p) == Some(r) <==> Answers(a, p, ip, r)
  {
    ParseTextIff(a.rdata, ip);
    PtrNameIs(ip);
    ArpaText();
    if p.V4? {
      ContainsIff(p, ip);
    }
  }

  lemma PtrRecordIff(a: Record, p: Prefix, r: Record)
    requires Valid(p)
    ensures Candidate(a, p) == Some(r) <==> exists ip :: Answers(a, p, ip, r)
  {
    if Candidate(a, p) == Some(r) {
      AnswersFrom(a, p, ParseV4(a.rdata).value, r);
    }
    if ip :| Answers(a, p, ip, r) {
      ParseTextIff(a.rdata, ip);
      AnswersFrom(a, p, ip, r);
    }
  }

  /** The collected records are exactly the answers for the A records of authoritative zones whose
      address lies in the network. */
  lemma CollectedIff(zones: seq<Zone>, p: Prefix, r: Record)
    requires Valid(p)
    ensures r in Collected(zones, p) <==>
            exists i, j, ip :: 0 <= i < |zones| && !zones[i].nonAuthoritative && 0 <= j < |zones[i].records|
                               && Answers(zones[i].records[j], p, ip, r)
  {
    CollectedMembers(zones, p, r);
    if r in Collected(zones, p) {
      var i: nat, j: nat :| Source(zones, p, i, j, r);
      PtrRecordIff(zones[i].records[j], p, r);
      var ip :| Answers(zones[i].records[j], p, ip, r);
    }
    if i, j, ip :| 0 <= i < |zones| && !zones[i].nonAuthoritative && 0 <= j < |zones[i].records|
                   && Answers(zones[i].records[j], p, ip, r) {
      PtrRecordIff(zones[i].records[j], p, r);
      assert Source(zones, p, i, j, r);
    }
  }

  lemma {:induction false} KeptConcat(a: seq<Option<Record>>, b: seq<Option<Record>>)
    ensures Kept(a + b) == Kept(a) + Kept(b)
  {
    if b == [] {
      assert a + b == a;
    } else {
      KeptConcat(a, b[..|b| - 1]);
      assert (a + b)[..|a + b| - 1] == a + b[..|b| - 1];
    }
  }

  lemma {:induction false} FlattenConcat(a: seq<seq<Record>>, b: seq<seq<Record>>)
    ensures Flatten(a + b) == Flatten(a) + Flatten(b)
  {
    if b == [] {
      assert a + b == a;
    } else {
      FlattenConcat(a, b[..|b| - 1]);
      assert (a + b)[..|a + b| - 1] == a + b[..|b| - 1];
    }
  }

  /** Records come in the order of the zones. */
  lemma CollectedInZoneOrder(a: seq<Zone>, b: seq<Zone>, p: Prefix)
    requires Valid(p)
    ensures Collected(a + b, p) == Collected(a, p) + Collected(b, p)
  {
    assert PerZone(a + b, p) == PerZone(a, p) + PerZone(b, p);
    FlattenConcat(PerZone(a, p), PerZone(b, p));
  }

  /** Within a zone they come in the order of its records, one for each A record that qualifies. */
  lemma CollectedInRecordOrder(z: Zone, front: seq<Record>, r: Record, back: seq<Record>, p: Prefix)
    requires Valid(p) && !z.nonAuthoritative && z.records == front + [r] + back
    ensures Collected([z], p)
         == Collected([z.(records := front)], p)
            + (if r.kind == TYPE_A && PtrRecord(r, p).Some? then [PtrRecord(r, p).value] else [])
            + Collected([z.(records := back)], p)
  {
    OneZone(z, p);
    OneZone(z.(records := front), p);
    OneZone(z.(records := back), p);
    CandidatesBetween(z, front, r, back, p);
    KeptBetween(Candidates(z.(records := front), p), Candidate(r, p), Candidates(z.(records := back), p));
  }

  lemma CandidatesBetween(z: Zone, front: seq<Record>, r: Record, back: seq<Record>, p: Prefix)
    requires Valid(p) && !z.nonAuthoritative && z.records == front + [r] + back
    ensures Candidates(z, p)
         == Candidates(z.(records := front), p) + [Candidate(r, p)] + Candidates(z.(records := back), p)
  {
    var c := Candidates(z.(records := front), p) + [Candidate(r, p)] + Candidates(z.(records := back), p);
    forall j | 0 <= j < |z.records| ensures Candidates(z, p)[j] == c[j] {
      if j > |front| { assert z.records[j] == back[j - |front| - 1]; }
    }
  }

  lemma KeptBetween(a: seq<Option<Record>>, o: Option<Record>, b: seq<Option<Record>>)
    ensures Kept(a + [o] + b) == Kept(a) + (if o.Some? then [o.value] else []) + Kept(b)
  {
    KeptConcat(a + [o], b);
    KeptConcat(a, [o]);
    assert [o][..0] == [];
  }

  lemma OneZone(z: Zone, p: Prefix)
    requires Valid(p)
    ensures Collected([z], p) == Kept(Candidates(z, p))
  {
    var lists := PerZone([z], p);
    assert lists[..0] == [];
    assert Flatten(lists) == Flatten([]) + lists[0];
  }

  lemma SourceAddress(zones: seq<Zone>, p: Prefix, i: nat, j: nat, r: Record) returns (ip: Bytes)
    requires Valid(p) && Source(zones, p, i, j, r)
    ensures IsV4(ip) && Contains(p, ip) && r.name == PtrName(ip) && r.kind == TYPE_PTR
  {
    ip := ParseV4(zones[i].records[j].rdata).value;
  }

  // -------------------------------------------------------------------- reverse zones

  predicate ZoneExists(zones: seq<Zone>, name: string) {
    exists i :: 0 <= i < |zones| && zones[i].domain == name
  }

  function ReverseZone(zones: seq<Zone>, p: Prefix): (z: Zone)
    requires Valid(p) && p.V4?
  {
    ZoneNameIs(p);
    Zone(ZoneName(p).value, Collected(zones, p), true, false)
  }

  function AddReverse(zones: seq<Zone>, p: Prefix): seq<Zone>
    requires Valid(p)
  {
    if p.V6? then zones
    else
      var z := ReverseZone(zones, p);
      if ZoneExists(zones, z.domain) then zones else zones + [z]
  }

  /** What adding a network's zone appends. */
  function Extra(zones: seq<Zone>, p: Prefix): seq<Zone>
    requires Valid(p) && p.V4?
  {
    var z := ReverseZone(zones, p);
    if ZoneExists(zones, z.domain) then [] else [z]
  }

  /** What adding a network does: nothing for IPv6 or when a zone of that name exists; otherwise one
      authoritative zone is appended that takes no part in searches, named by the reversed octets of
      the network, with the collected records. */
  lemma AddedZone(zones: seq<Zone>, p: Prefix)
    requires Valid(p)
    ensures p.V6? ==> AddReverse(zones, p) == zones
    ensures p.V4? ==>
      var name := Join(Reversed(Labels(Masked(p.addr, p.bits))[..(p.bits + 7) / 8]), '.') + ".in-addr.arpa.";
      AddReverse(zones, p) ==
        if exists i :: 0 <= i < |zones| && zones[i].domain == name then zones
        else zones + [Zone(name, Collected(zones, p), true, false)]
  {
    if p.V4? {
      ZoneNameIs(p);
      ArpaText();
    }
  }

  /** Adding a network's zone a second time changes nothing. */
  lemma AddReverseIdempotent(zones: seq<Zone>, p: Prefix)
    requires Valid(p)
    ensures AddReverse(AddReverse(zones, p), p) == AddReverse(zones, p)
  {
    if p.V4? {
      var z := ReverseZone(zones, p);
      var after := AddReverse(zones, p);
      if !ZoneExists(zones, z.domain) {
        assert after[|zones|].domain == z.domain;
      }
      assert ReverseZone(after, p).domain == z.domain;
    }
  }

  lemma {:induction false} NothingKept(options: seq<Option<Record>>)
    requires forall i :: 0 <= i < |options| ==> options[i].None?
    ensures Kept(options) == []
  {
    if options != [] { NothingKept(options[..|options| - 1]); }
  }

  /** A reverse zone, itself authoritative, never feeds another one. */
  lemma ReverseZonesAreInert(zones: seq<Zone>, q: Prefix, p: Prefix)
    requires Valid(p) && Valid(q)
    ensures Collected(AddReverse(zones, q), p) == Collected(zones, p)
  {
    if q.V4? {
      InertZone(zones, ReverseZone(zones, q), q, p);
    }
  }

  lemma InertZone(zones: seq<Zone>, z: Zone, q: Prefix, p: Prefix)
    requires Valid(p) && Valid(q) && z.records == Collected(zones, q)
    ensures Collected(zones + [z], p) == Collected(zones, p)
  {
    var options := Candidates(z, p);
    forall k | 0 <= k < |options| ensures options[k].None? {
      CollectedAreNoAddresses(zones, q, z.records[k]);
    }
    NothingKept(options);
    var lists := PerZone(zones + [z], p);
    assert lists[..|zones|] == PerZone(zones, p);
    assert lists[|zones|] == [];
  }

  lemma CollectedAreNoAddresses(zones: seq<Zone>, q: Prefix, r: Record)
    requires Valid(q) && r in Collected(zones, q)
    ensures r.kind == TYPE_PTR
  {
    var i, j := CollectedSource(zones, q, r);
    var _ := SourceAddress(zones, q, i, j, r);
  }

  /** Zones of different names come out the same whichever network is added first. */
  lemma NetworksCommute(zones: seq<Zone>, p: Prefix, q: Prefix)
    requires Valid(p) && Valid(q) && ZoneName(p) != ZoneName(q)
    ensures multiset(AddReverse(AddReverse(zones, p), q)) == multiset(AddReverse(AddReverse(zones, q), p))
  {
    if p.V4? && q.V4? {
      var ep, eq := Extra(zones, p), Extra(zones, q);
      AddAfter(zones, p, q);
      AddAfter(zones, q, p);
      AppendCommutes(zones, ep, eq);
    }
  }

  lemma AppendCommutes(zones: seq<Zone>, a: seq<Zone>, b: seq<Zone>)
    ensures multiset(zones + a + b) == multiset(zones + b + a)
  {
  }

  lemma AddAfter(zones: seq<Zone>, p: Prefix, q: Prefix)
    requires Valid(p) && Valid(q) && p.V4? && q.V4? && ZoneName(p) != ZoneName(q)
    ensures AddReverse(AddReverse(zones, p), q) == zones + Extra(zones, p) + Extra(zones, q)
  {
    ZoneNameIs(p);
    ZoneNameIs(q);
    var zq, after := ReverseZone(zones, q), AddReverse(zones, p);
    ReverseZonesAreInert(zones, p, q);
    assert after == zones + Extra(zones, p);
    assert ReverseZone(after, q) == zq;
    OthersKeepNames(zones, Extra(zones, p), zq.domain);
  }

  lemma OthersKeepNames(zones: seq<Zone>, added: seq<Zone>, name: string)
    requires forall i :: 0 <= i < |added| ==> added[i].domain != name
    ensures ZoneExists(zones + added, name) <==> ZoneExists(zones, name)
  {
    if i :| 0 <= i < |zones| && zones[i].domain == name {
      assert (zones + added)[i].domain == name;
    }
  }

  /** In the zone of a byte-aligned network every record lies under the zone's own name. */
  lemma RecordsInZone(zones: seq<Zone>, p: Prefix, r: Record)
    requires Valid(p) && p.V4? && ByteAligned(p.bits) && r in ReverseZone(zones, p).records
    ensures Under(r.name, ReverseZone(zones, p).domain)
  {
    var i, j := CollectedSource(zones, p, r);
    var ip := SourceAddress(zones, p, i, j, r);
    ZoneCoversIff(p);
  }

  class Config {
    var customZones: seq<Zone>

    constructor (zones: seq<Zone>)
      ensures customZones == zones
    {
      customZones := zones;
    }

    method HasZone(name: string) returns (found: bool)
      ensures found <==> ZoneExists(customZones, name)
    {
      for i := 0 to |customZones|
        invariant forall k :: 0 <= k < i ==> customZones[k].domain != name
      {
        if customZones[i].domain == name {
          return true;
        }
      }
      found := false;
    }

    method AddReverseZone(network: Prefix)
      requires Valid(network)
      modifies this
      ensures customZones == AddReverse(old(customZones), network)
    {
      var zoneName := GenerateReverseZoneName(network);
      if zoneName.None? {
        if network.V4? { ZoneNameIs(network); }
        return;
      }
      var found := HasZone(zoneName.value);
      if found {
        return;
      }
      var records := CollectPTRRecords(customZones, network);
      customZones := customZones + [Zone(zoneName.value, records, true, false)];
    }
  }
}
