/** Addresses counted back from the end of a network (client/net/net.go). */
module LastAddress {
  import opened Prelude

  type Bytes = seq<nat>

  predicate Octets(b: Bytes) {
    forall i :: 0 <= i < |b| ==> b[i] < 256
  }

  function Pow2(k: nat): (p: nat)
    ensures p >= 1
  {
    if k == 0 then 1 else 2 * Pow2(k - 1)
  }

  /** Bitwise or. */
  function Or(x: nat, y: nat): nat {
    if x == 0 && y == 0 then 0
    else 2 * Or(x / 2, y / 2) + (if x % 2 == 1 || y % 2 == 1 then 1 else 0)
  }

  /** Big-endian value of an address. */
  function Value(b: Bytes): nat {
    if b == [] then 0 else Value(b[..|b| - 1]) * 256 + b[|b| - 1]
  }

  /** Shortest big-endian bytes of a number: leading zero bytes are dropped, zero has none. */
  function Shortest(v: nat): (b: Bytes)
    ensures Octets(b)
  {
    if v == 0 then [] else Shortest(v / 256) + [v % 256]
  }

  // --------------------------------------------------------------------- the source

  /** Byte `i` of the network mask of `bits` leading ones. */
  function MaskByte(bits: nat, i: nat): (m: nat)
    ensures m < 256
  {
    if bits >= 8 * i + 8 then 255
    else if bits <= 8 * i then 0
    else
      assert Pow2(8 * i + 8 - bits) <= 256 by { Pow2Monotone(8 * i + 8 - bits, 8); Pow2Of8(); }
      256 - Pow2(8 * i + 8 - bits)
  }

  function Complement(m: nat): nat
    requires m < 256
  {
    255 - m
  }

  function EndBytes(addr: Bytes, bits: nat): (e: Bytes)
    ensures |e| == |addr|
  {
    seq(|addr|, i requires 0 <= i < |addr| => Or(addr[i], Complement(MaskByte(bits, i))))
  }

  /** `netip.AddrFromSlice`: only 4 and 16 bytes make an address. */
  function AddrFromSlice(b: Bytes): Option<Bytes> {
    if |b| == 4 || |b| == 16 then Some(b) else None
  }

  /** `Addr.Unmap`: strips the prefix of an IPv4-mapped IPv6 address. */
  function Unmap(b: Bytes): Bytes {
    if |b| == 16 && b[..12] == [0, 0, 0, 0, 0, 0, 0, 0, 0, 0, 255, 255] then b[12..] else b
  }

  /** The magnitude of a number; its bytes carry no sign. */
  function Magnitude(x: int): nat {
    if x < 0 then -x else x
  }

  function LastIp(addr: Bytes, bits: nat, fromEnd: int): Option<Bytes> {
    var ip := AddrFromSlice(Shortest(Magnitude(Value(EndBytes(addr, bits)) - fromEnd)));
    if ip.None? then None else Some(Unmap(ip.value))
  }

  method GetLastIPFromNetwork(addr: Bytes, bits: nat, fromEnd: int) returns (r: Option<Bytes>)
    requires Octets(addr) && bits <= 8 * |addr|
    ensures r == LastIp(addr, bits, fromEnd)
  {
    var endIP: Bytes := [];
    for i := 0 to |addr|
      invariant endIP == EndBytes(addr, bits)[..i]
    {
      endIP := endIP + [Or(addr[i], Complement(MaskByte(bits, i)))];
    }
    assert endIP == EndBytes(addr, bits);
    var endInt := Value(endIP);
    var ip := AddrFromSlice(Shortest(Magnitude(endInt - fromEnd)));
    if ip.None? {
      return None;
    }
    r := Some(Unmap(ip.value));
  }

  // ------------------------------------------------------------------ binary arithmetic

  lemma Pow2Of8()
    ensures Pow2(8) == 256
  {
    assert Pow2(4) == 2 * Pow2(3) == 16;
    assert Pow2(6) == 2 * Pow2(5) == 64;
  }

  lemma {:induction false} Pow2Sum(j: nat, k: nat)
    ensures Pow2(j + k) == Pow2(j) * Pow2(k)
  {
    if j > 0 {
      Pow2Sum(j - 1, k);
      assert 2 * (Pow2(j - 1) * Pow2(k)) == (2 * Pow2(j - 1)) * Pow2(k);
    }
  }

  lemma {:induction false} Pow2Monotone(j: nat, k: nat)
    requires j <= k
    ensures Pow2(j) <= Pow2(k)
  {
    if j < k { Pow2Monotone(j, k - 1); }
  }

  /** `x` with its lowest `h` bits set. */
  function Fill(x: nat, h: nat): nat {
    if h == 0 then x else 2 * Fill(x / 2, h - 1) + 1
  }

  /** `x` without its lowest `h` bits: its network part. */
  function Shift(x: nat, h: nat): nat {
    if h == 0 then x else Shift(x / 2, h - 1)
  }

  /** Numbers with network part `q` are those from q * 2^h on, 2^h in number. */
  lemma {:induction false} ShiftIff(x: nat, h: nat, q: nat)
    ensures Shift(x, h) == q <==> q * Pow2(h) <= x < q * Pow2(h) + Pow2(h)
  {
    if h > 0 {
      ShiftIff(x / 2, h - 1, q);
      assert q * (2 * Pow2(h - 1)) == 2 * (q * Pow2(h - 1));
    }
  }

  /** The filled number is the last one with the same network part. */
  lemma {:induction false} FillIsLast(x: nat, h: nat)
    ensures Fill(x, h) == Shift(x, h) * Pow2(h) + (Pow2(h) - 1)
  {
    if h > 0 {
      FillIsLast(x / 2, h - 1);
      var q, p := Shift(x, h), Pow2(h - 1);
      assert q * (2 * p) == 2 * (q * p);
    }
  }

  lemma {:induction false} FillBound(x: nat, h: nat, n: nat)
    requires x < Pow2(n) && h <= n
    ensures Fill(x, h) < Pow2(n)
  {
    if h > 0 {
      FillBound(x / 2, h - 1, n - 1);
    }
  }

  /** Or-ing with `h` low ones sets the lowest `h` bits. */
  lemma {:induction false} OrLowOnes(x: nat, h: nat)
    ensures Or(x, Pow2(h) - 1) == Fill(x, h)
    decreases h
  {
    if h == 0 {
      OrZero(x);
    } else {
      OrLowOnes(x / 2, h - 1);
    }
  }

  lemma {:induction false} OrZero(x: nat)
    ensures Or(x, 0) == x
  {
    if x > 0 { OrZero(x / 2); }
  }

  lemma {:induction false} FillSum(x: nat, j: nat, h: nat)
    ensures Fill(x, j + h) == Fill(Shift(x, j), h) * Pow2(j) + (Pow2(j) - 1)
  {
    if j > 0 {
      var f, p := Fill(Shift(x / 2, j - 1), h), Pow2(j - 1);
      FillSum(x / 2, j - 1, h);
      assert Fill(x, j + h) == 2 * Fill(x / 2, j - 1 + h) + 1;
      Doubled(f, p);
    }
  }

  lemma Doubled(f: nat, p: nat)
    ensures 2 * (f * p) == f * (2 * p)
  {
  }

  /** Filling beyond the last byte. */
  lemma FillByte(x: nat, h: nat, a: nat)
    requires a < 256
    ensures Fill(x * 256 + a, h + 8) == Fill(x, h) * 256 + 255
  {
    Pow2Of8();
    ShiftIff(x * 256 + a, 8, x);
    FillSum(x * 256 + a, 8, h);
  }

  /** Filling within the last byte. */
  lemma {:induction false} FillWithin(x: nat, k: nat, a: nat, h: nat)
    requires h <= k
    ensures Fill(x * Pow2(k) + a, h) == x * Pow2(k) + Fill(a, h)
  {
    if h > 0 {
      var p := Pow2(k - 1);
      assert x * (2 * p) == 2 * (x * p);
      FillWithin(x, k - 1, a / 2, h - 1);
      assert (2 * (x * p) + a) / 2 == x * p + a / 2;
    }
  }

  /** How many of the first `n` bytes' bits lie beyond the prefix. */
  function HostBits(bits: nat, n: nat): nat {
    if 8 * n <= bits then 0 else 8 * n - bits
  }

  lemma EndByte(a: nat, bits: nat, i: nat)
    requires a < 256
    ensures HostBits(bits, i + 1) <= 8 ==> Or(a, Complement(MaskByte(bits, i))) == Fill(a, HostBits(bits, i + 1))
    ensures HostBits(bits, i + 1) >= 8 ==> Or(a, Complement(MaskByte(bits, i))) == 255
  {
    var h := HostBits(bits, i + 1);
    Pow2Of8();
    if h <= 8 {
      OrLowOnes(a, h);
    }
    if h >= 8 {
      OrLowOnes(a, 8);
      ShiftIff(a, 8, 0);
      FillIsLast(a, 8);
    }
  }

  /** The byte-wise end of the network is the address with all its host bits set. */
  lemma {:induction false} EndValue(addr: Bytes, bits: nat, n: nat)
    requires Octets(addr) && n <= |addr|
    ensures Value(EndBytes(addr, bits)[..n]) == Fill(Value(addr[..n]), HostBits(bits, n))
  {
    if n > 0 {
      var e, a := EndBytes(addr, bits), addr[n - 1];
      EndValue(addr, bits, n - 1);
      EndByte(a, bits, n - 1);
      assert e[..n][..n - 1] == e[..n - 1] && addr[..n][..n - 1] == addr[..n - 1];
      var x := Value(addr[..n - 1]);
      if 8 * n <= bits + 8 {
        assert Fill(x, 0) == x;
        Pow2Of8();
        FillWithin(x, 8, a, HostBits(bits, n));
      } else {
        FillByte(x, HostBits(bits, n - 1), a);
      }
    }
  }

  lemma {:induction false} ShortestValue(v: nat)
    ensures Value(Shortest(v)) == v
    ensures v > 0 ==> Shortest(v) != [] && Shortest(v)[0] > 0
  {
    if v > 0 {
      ShortestValue(v / 256);
      var b := Shortest(v);
      assert b[..|b| - 1] == Shortest(v / 256);
    }
  }

  lemma {:induction false} ShortestLength(v: nat, n: nat)
    requires n > 0
    ensures |Shortest(v)| == n <==> Pow2(8 * (n - 1)) <= v < Pow2(8 * n)
    decreases n
  {
    if v > 0 {
      Pow2Step(n - 1);
      if n > 1 {
        Pow2Step(n - 2);
        ShortestLength(v / 256, n - 1);
        assert v / 256 < Pow2(8 * (n - 1)) <==> v < Pow2(8 * (n - 1)) * 256;
      } else {
        assert Shortest(v / 256) == [] <==> v < 256;
      }
    }
  }

  lemma Pow2Step(n: nat)
    ensures Pow2(8 * (n + 1)) == Pow2(8 * n) * 256
  {
    Pow2Sum(8 * n, 8);
    Pow2Of8();
  }

  // ----------------------------------------------------------------------- theorems

  /** The distance-adjusted end of the network as a number. */
  function Wanted(addr: Bytes, bits: nat, fromEnd: int): int {
    Fill(Value(addr), HostBits(bits, |addr|)) - fromEnd
  }

  ghost predicate InNetwork(addr: Bytes, bits: nat, ip: Bytes) {
    var h := HostBits(bits, |addr|);
    |ip| == |addr| && Shift(Value(ip), h) == Shift(Value(addr), h)
  }

  predicate FitsBytes(v: nat, n: nat)
    requires n > 0
  {
    Pow2(8 * (n - 1)) <= v < Pow2(8 * n)
  }

  lemma UnmapShortest(v: nat)
    ensures Unmap(Shortest(v)) == Shortest(v)
  {
    ShortestValue(v);
    var b := Shortest(v);
    if |b| == 16 {
      assert b[..12][0] == b[0];
    }
  }

  /** For every distance, even one past the network: an address comes back exactly when the wanted
      number without its sign fills 4 or 16 bytes, and then it has that value. */
  lemma LastIpExact(addr: Bytes, bits: nat, fromEnd: int)
    requires Octets(addr)
    ensures var w := Wanted(addr, bits, fromEnd);
            var v: nat := if w < 0 then -w else w;
            var r := LastIp(addr, bits, fromEnd);
            (r.Some? <==> FitsBytes(v, 4) || FitsBytes(v, 16))
            && (r.Some? ==> Value(r.value) == v && (|r.value| == 4 <==> FitsBytes(v, 4)))
  {
    EndValue(addr, bits, |addr|);
    assert EndBytes(addr, bits)[..|addr|] == EndBytes(addr, bits) && addr[..|addr|] == addr;
    var v := Magnitude(Wanted(addr, bits, fromEnd));
    ShortestValue(v);
    UnmapShortest(v);
    ShortestLength(v, 4);
    ShortestLength(v, 16);
  }

  lemma WithinNetwork(addr: Bytes, bits: nat, back: nat)
    requires Octets(addr) && back < Pow2(HostBits(bits, |addr|))
    ensures Wanted(addr, bits, back) >= 0
    ensures var h := HostBits(bits, |addr|); Shift(Wanted(addr, bits, back), h) == Shift(Value(addr), h)
  {
    var h := HostBits(bits, |addr|);
    var q := Shift(Value(addr), h);
    FillIsLast(Value(addr), h);
    ShiftIff(Wanted(addr, bits, back), h, q);
  }

  lemma {:induction false} ValueBound(b: Bytes)
    requires Octets(b)
    ensures Value(b) < Pow2(8 * |b|)
  {
    if b != [] {
      ValueBound(b[..|b| - 1]);
      Pow2Step(|b| - 1);
    }
  }

  lemma FitsOne(v: nat)
    ensures !(FitsBytes(v, 4) && FitsBytes(v, 16))
  {
    Pow2Monotone(32, 120);
  }

  lemma WantedBound(addr: Bytes, bits: nat, back: nat)
    requires Octets(addr)
    ensures Wanted(addr, bits, back) < Pow2(8 * |addr|)
  {
    ValueBound(addr);
    FillBound(Value(addr), HostBits(bits, |addr|), 8 * |addr|);
  }

  /** The k-th address from the end of a network is returned, inside the network and at exactly
      that distance, if and only if its first byte is not zero. */
  lemma LastIpIff(addr: Bytes, bits: nat, back: nat)
    requires (|addr| == 4 || |addr| == 16) && Octets(addr) && bits <= 8 * |addr|
    requires back < Pow2(8 * |addr| - bits)
    ensures var r := LastIp(addr, bits, back);
            (r.Some? && InNetwork(addr, bits, r.value) && Value(r.value) + back == Wanted(addr, bits, 0))
            <==> Wanted(addr, bits, back) >= Pow2(8 * (|addr| - 1))
  {
    var v, n := Wanted(addr, bits, back), |addr|;
    WithinNetwork(addr, bits, back);
    WantedBound(addr, bits, back);
    assert FitsBytes(v, n) <==> v >= Pow2(8 * (n - 1));
    LastIpSized(addr, bits, back, v, n);
  }

  lemma LastIpSized(addr: Bytes, bits: nat, back: nat, v: nat, n: nat)
    requires (n == 4 || n == 16) && n == |addr| && Octets(addr)
    requires v == Wanted(addr, bits, back) < Pow2(8 * n)
    requires var h := HostBits(bits, n); Shift(v, h) == Shift(Value(addr), h)
    ensures var r := LastIp(addr, bits, back);
            (r.Some? && InNetwork(addr, bits, r.value) && Value(r.value) == v) <==> FitsBytes(v, n)
  {
    LastIpExact(addr, bits, back);
    FitsOne(v);
  }

  /** For IPv4 the failing addresses are rejected rather than returned wrongly. */
  lemma LastIpV4Fails(addr: Bytes, bits: nat, back: nat)
    requires |addr| == 4 && Octets(addr) && bits <= 32 && back < Pow2(32 - bits)
    requires Wanted(addr, bits, back) < Pow2(24)
    ensures LastIp(addr, bits, back).None?
  {
    WithinNetwork(addr, bits, back);
    LastIpExact(addr, bits, back);
    Pow2Monotone(24, 120);
  }

  /** No address of 0.0.0.0/8, or of a longer prefix of zeros, can be counted back to. */
  lemma ZeroNetworkFails(zero: Bytes, bits: nat, back: nat)
    requires |zero| == 4 && forall i :: 0 <= i < 4 ==> zero[i] == 0
    requires 8 <= bits <= 32 && back < Pow2(32 - bits)
    ensures LastIp(zero, bits, back).None?
  {
    ZeroWanted(zero, bits, back, 32 - bits);
    LastIpV4Fails(zero, bits, back);
  }

  lemma ZeroWanted(zero: Bytes, bits: nat, back: nat, h: nat)
    requires |zero| == 4 && forall i :: 0 <= i < 4 ==> zero[i] == 0
    requires 8 <= bits <= 32 && h == 32 - bits && back < Pow2(h)
    ensures Wanted(zero, bits, back) < Pow2(24)
  {
    ZeroValue(zero);
    ZeroShift(h);
    FillIsLast(0, h);
    Pow2Monotone(h, 24);
  }

  lemma {:induction false} ZeroShift(h: nat)
    ensures Shift(0, h) == 0
  {
    if h > 0 { ZeroShift(h - 1); }
  }

  lemma {:induction false} ZeroValue(b: Bytes)
    requires forall i :: 0 <= i < |b| ==> b[i] == 0
    ensures Value(b) == 0
  {
    if b != [] { ZeroValue(b[..|b| - 1]); }
  }
}
