/** Base-62 text of 32-bit numbers (base62/base62.go). */
module Base62 {
  import opened Prelude

  const DIGITS := "0123456789"
  const UPPER := "ABCDEFGHIJKLMNOPQRSTUVWXYZ"
  const LOWER := "abcdefghijklmnopqrstuvwxyz"
  const ALPHABET := DIGITS + UPPER + LOWER
  const BASE: nat := 62
  const WORD: nat := 0x1_0000_0000

  // ---------------------------------------------------------------------- digits

  /** The character of a digit by character ranges. */
  function CharOf(d: nat): char
    requires d < BASE
  {
    if d < 10 then ('0' as int + d) as char
    else if d < 36 then ('A' as int + d - 10) as char
    else ('a' as int + d - 36) as char
  }

  lemma LetterAt(d: nat)
    requires d < 26
    ensures UPPER[d] == ('A' as int + d) as char && LOWER[d] == ('a' as int + d) as char
  {
    if d < 13 {
      assert d == 0 || d == 1 || d == 2 || d == 3 || d == 4 || d == 5 || d == 6
          || d == 7 || d == 8 || d == 9 || d == 10 || d == 11 || d == 12;
    } else {
      assert d == 13 || d == 14 || d == 15 || d == 16 || d == 17 || d == 18 || d == 19
          || d == 20 || d == 21 || d == 22 || d == 23 || d == 24 || d == 25;
    }
  }

  lemma AlphabetAt(d: nat)
    requires d < BASE
    ensures |ALPHABET| == BASE && ALPHABET[d] == CharOf(d)
  {
    if d < 10 {
      assert ALPHABET[d] == DIGITS[d];
    } else if d < 36 {
      assert ALPHABET[d] == UPPER[d - 10];
      LetterAt(d - 10);
    } else {
      assert ALPHABET[d] == LOWER[d - 36];
      LetterAt(d - 36);
    }
  }

  predicate IsDigit(c: char) {
    '0' <= c <= '9' || 'A' <= c <= 'Z' || 'a' <= c <= 'z'
  }

  function DigitOf(c: char): (d: nat)
    requires IsDigit(c)
    ensures d < BASE && CharOf(d) == c
  {
    if c <= '9' then c as int - '0' as int
    else if c <= 'Z' then c as int - 'A' as int + 10
    else c as int - 'a' as int + 36
  }

  /** Scanning the alphabet finds exactly the digits, each at its value. */
  lemma IndexInAlphabet(c: char)
    ensures IndexFrom(ALPHABET, c, 0) == if IsDigit(c) then DigitOf(c) else BASE
  {
    AlphabetAt(0);
    var i := IndexFrom(ALPHABET, c, 0);
    if i < BASE {
      AlphabetAt(i);
      assert CharOf(i) == c && IsDigit(c) && DigitOf(c) == i;
    } else if IsDigit(c) {
      AlphabetAt(DigitOf(c));
    }
  }

  predicate AllDigits(s: string) {
    forall i :: 0 <= i < |s| ==> IsDigit(s[i])
  }

  // ----------------------------------------------------------- positional meaning

  function Power(k: nat): (p: nat)
    ensures p >= 1
  {
    if k == 0 then 1 else BASE * Power(k - 1)
  }

  /** The number a digit string denotes, without any width limit. */
  function Value(s: string): nat
    requires AllDigits(s)
  {
    if s == "" then 0 else Value(s[..|s| - 1]) * BASE + DigitOf(s[|s| - 1])
  }

  /** The shortest digit string of a number, most significant digit first. */
  function Text(n: nat): (s: string)
    ensures s != "" && AllDigits(s)
  {
    if n < BASE then [CharOf(n)] else Text(n / BASE) + [CharOf(n % BASE)]
  }

  /** No leading zero, except for zero itself. */
  predicate Canonical(s: string) {
    AllDigits(s) && s != "" && (s[0] == '0' ==> s == "0")
  }

  lemma {:induction false} TextValue(n: nat)
    ensures Value(Text(n)) == n && Canonical(Text(n))
    ensures n > 0 ==> Text(n)[0] != '0'
  {
    var s := Text(n);
    if n < BASE {
      assert s[..0] == "";
    } else {
      TextValue(n / BASE);
      assert s[..|s| - 1] == Text(n / BASE);
    }
  }

  lemma {:induction false} ValueText(s: string)
    requires Canonical(s)
    ensures Text(Value(s)) == s
  {
    var front, last := s[..|s| - 1], s[|s| - 1];
    assert s == front + [last];
    if front == "" {
      assert Value(s) == DigitOf(last);
    } else {
      ValueText(front);
      var v, d := Value(front), DigitOf(last);
      PositiveValue(front);
      assert Value(s) == v * BASE + d >= BASE;
      assert (v * BASE + d) / BASE == v && (v * BASE + d) % BASE == d;
    }
  }

  lemma {:induction false} PositiveValue(s: string)
    requires AllDigits(s) && s != "" && s[0] != '0'
    ensures Value(s) >= Power(|s| - 1)
  {
    var front := s[..|s| - 1];
    if front != "" {
      PositiveValue(front);
      assert Value(s) >= Value(front) * BASE;
    } else {
      assert Value(s) == DigitOf(s[0]);
    }
  }

  lemma PowerValues()
    ensures Power(0) == 1 && Power(1) == 62 && Power(2) == 3844 && Power(3) == 238328
    ensures Power(4) == 14776336 && Power(5) == 916132832 && Power(6) == 56800235584
  {
    assert Power(2) == BASE * Power(1);
    assert Power(4) == BASE * Power(3);
    assert Power(6) == BASE * Power(5);
  }

  lemma {:induction false} ShortText(n: nat, k: nat)
    requires n < Power(k) && k >= 1
    ensures |Text(n)| <= k
  {
    if n >= BASE {
      assert Power(1) == BASE * Power(0) == BASE;
      assert n < BASE * Power(k - 1);
      assert n / BASE < Power(k - 1);
      ShortText(n / BASE, k - 1);
    }
  }

  // --------------------------------------------------------------------- encoding

  /** `reverse`: swaps the runes in place from both ends. */
  method Reverse(s: string) returns (r: string)
    ensures r == Reversed(s)
  {
    var n := |s|;
    var runes := new char[n](i requires 0 <= i < n => s[i]);
    var i, j := 0, n - 1;
    while i < j
      invariant 0 <= i <= n && j == n - 1 - i && i <= j + 1
      invariant forall k :: 0 <= k < i ==> runes[k] == s[n - 1 - k] && runes[n - 1 - k] == s[k]
      invariant forall k :: i <= k <= j ==> runes[k] == s[k]
    {
      runes[i], runes[j] := runes[j], runes[i];
      i, j := i + 1, j - 1;
    }
    r := runes[..];
  }

  /** Encode yields the canonical text of the number, of at most six digits. */
  method Encode(num: nat) returns (s: string)
    requires num < WORD
    ensures s == Text(num) && |s| <= 6
  {
    PowerValues();
    ShortText(num, 6);
    if num == 0 {
      AlphabetAt(0);
      return [ALPHABET[0]];
    }
    var encoded, n := "", num;
    while n > 0
      invariant n >= 0
      invariant n > 0 ==> Text(n) + Reversed(encoded) == Text(num)
      invariant n == 0 ==> Reversed(encoded) == Text(num)
    {
      var remainder := n % BASE;
      AlphabetAt(remainder);
      assert Reversed(encoded + [ALPHABET[remainder]]) == [ALPHABET[remainder]] + Reversed(encoded);
      encoded := encoded + [ALPHABET[remainder]];
      n := n / BASE;
    }
    s := Reverse(encoded);
  }

  // --------------------------------------------------------------------- decoding

  /** `uint32(math.Pow(62, k))`: exact while it fits; what the conversion yields for larger
      powers is up to the platform, given by `wide`. */
  function Weight(k: nat, wide: nat -> nat): nat {
    if k <= 5 then Power(k) else wide(k) % WORD
  }

  /** The wrapped sum that Decode accumulates over the first `i` digits. */
  function Accumulated(s: string, i: nat, wide: nat -> nat): nat
    requires i <= |s| && AllDigits(s[..i])
  {
    if i == 0 then 0
    else
      assert s[..i - 1] == s[..i][..i - 1];
      (Accumulated(s, i - 1, wide) + (DigitOf(s[..i][i - 1]) * Weight(|s| - i, wide)) % WORD) % WORD
  }

  function Decoded(s: string, wide: nat -> nat): Option<nat> {
    if AllDigits(s) then
      assert s[..|s|] == s;
      Some(Accumulated(s, |s|, wide))
    else None
  }

  method Decode(s: string, wide: nat -> nat) returns (r: Option<nat>)
    ensures r == Decoded(s, wide)
  {
    var decoded := 0;
    for i := 0 to |s|
      invariant AllDigits(s[..i]) && decoded == Accumulated(s, i, wide)
    {
      var index := IndexFrom(ALPHABET, s[i], 0);
      IndexInAlphabet(s[i]);
      AlphabetAt(0);
      if index == |ALPHABET| {
        return None;
      }
      assert s[..i + 1][..i] == s[..i];
      decoded := (decoded + (index * Weight(|s| - i - 1, wide)) % WORD) % WORD;
    }
    assert s[..|s|] == s;
    r := Some(decoded);
  }

  lemma WrappedStep(v: nat, d: nat, w: nat)
    ensures ((v * (BASE * w)) % WORD + (d * w) % WORD) % WORD == ((v * BASE + d) * w) % WORD
  {
    var a, b := v * (BASE * w), d * w;
    assert a + b == (v * BASE + d) * w;
    WrappedSum(a, b);
  }

  lemma WrappedSum(a: nat, b: nat)
    ensures (a % WORD + b % WORD) % WORD == (a + b) % WORD
  {
  }

  /** On at most six digits the accumulated sum is the positional value modulo the word size. */
  lemma {:induction false} AccumulatedValue(s: string, i: nat, wide: nat -> nat)
    requires i <= |s| <= 6 && AllDigits(s) && AllDigits(s[..i])
    ensures Accumulated(s, i, wide) == (Value(s[..i]) * Power(|s| - i)) % WORD
  {
    if i > 0 {
      var front, d, w := s[..i - 1], DigitOf(s[i - 1]), Power(|s| - i);
      AccumulatedValue(s, i - 1, wide);
      assert s[..i][..i - 1] == front;
      assert Power(|s| - (i - 1)) == BASE * w;
      AccumulatedStep(s, i, wide, Value(front), d, w);
    }
  }

  lemma AccumulatedStep(s: string, i: nat, wide: nat -> nat, v: nat, d: nat, w: nat)
    requires 0 < i <= |s| <= 6 && AllDigits(s[..i]) && AllDigits(s[..i - 1])
    requires Accumulated(s, i - 1, wide) == (v * (BASE * w)) % WORD
    requires d == DigitOf(s[..i][i - 1]) && w == Power(|s| - i)
    ensures Accumulated(s, i, wide) == ((v * BASE + d) * w) % WORD
  {
    WrappedStep(v, d, w);
  }

  lemma DecodedShort(s: string, wide: nat -> nat)
    requires AllDigits(s) && |s| <= 6
    ensures Decoded(s, wide) == Some(Value(s) % WORD)
  {
    AccumulatedValue(s, |s|, wide);
    assert s[..|s|] == s;
    assert Value(s) * Power(0) == Value(s);
  }

  // -------------------------------------------------------------------- round trips

  /** What round `i` of Decode adds. */
  function Product(s: string, i: nat, wide: nat -> nat): nat
    requires AllDigits(s) && i < |s|
  {
    DigitOf(s[i]) * Weight(|s| - 1 - i, wide)
  }

  /** Round `i` of Decode stays below the word size, in its product and in its sum. */
  predicate RoundFits(s: string, i: nat, wide: nat -> nat)
    requires AllDigits(s) && i < |s|
  {
    Product(s, i, wide) < WORD && Accumulated(s, i, wide) + Product(s, i, wide) < WORD
  }

  predicate NoWrap(s: string, wide: nat -> nat)
    requires AllDigits(s)
  {
    forall i :: 0 <= i < |s| ==> RoundFits(s, i, wide)
  }

  /** What the first `i` digits contribute, at their place in the whole string. */
  function Contribution(s: string, i: nat): nat
    requires AllDigits(s) && i <= |s|
  {
    Value(s[..i]) * Power(|s| - i)
  }

  /** What digit `i` contributes. */
  function Share(s: string, i: nat): nat
    requires AllDigits(s) && i < |s|
  {
    DigitOf(s[i]) * Power(|s| - 1 - i)
  }

  lemma ContributionStep(s: string, i: nat)
    requires AllDigits(s) && i < |s|
    ensures Contribution(s, i + 1) == Contribution(s, i) + Share(s, i)
  {
    assert s[..i + 1][..i] == s[..i];
    var v, d, w := Value(s[..i]), DigitOf(s[i]), Power(|s| - 1 - i);
    assert Value(s[..i + 1]) == v * BASE + d;
    assert Power(|s| - i) == BASE * w;
    Distribute(v, d, w);
  }

  lemma Distribute(v: nat, d: nat, w: nat)
    ensures (v * BASE + d) * w == v * (BASE * w) + d * w
  {
  }

  lemma {:induction false} ContributionBound(s: string, i: nat)
    requires AllDigits(s) && i <= |s|
    ensures Contribution(s, i) <= Value(s)
    decreases |s| - i
  {
    if i < |s| {
      ContributionStep(s, i);
      ContributionBound(s, i + 1);
    } else {
      assert s[..i] == s;
    }
  }

  /** Up to the first round that wraps, the accumulated sum is the plain contribution. */
  lemma {:induction false} Unwrapped(s: string, i: nat, wide: nat -> nat)
    requires AllDigits(s) && i <= |s| <= 6
    requires forall j :: 0 <= j < i ==> RoundFits(s, j, wide)
    ensures Accumulated(s, i, wide) == Contribution(s, i)
  {
    if i > 0 {
      Unwrapped(s, i - 1, wide);
      ContributionStep(s, i - 1);
      RoundSum(s, i - 1, wide);
    }
  }

  lemma RoundSum(s: string, i: nat, wide: nat -> nat)
    requires AllDigits(s) && i < |s| && RoundFits(s, i, wide)
    ensures Accumulated(s, i + 1, wide) == Accumulated(s, i, wide) + Product(s, i, wide)
  {
    var a, b, next := Accumulated(s, i, wide), Product(s, i, wide), Accumulated(s, i + 1, wide);
    assert next == (a + b % WORD) % WORD by { NextRound(s, i, wide); }
    assert a + b < WORD;
    SmallSum(a, b);
  }

  lemma NextRound(s: string, i: nat, wide: nat -> nat)
    requires AllDigits(s) && i < |s|
    ensures Accumulated(s, i + 1, wide) == (Accumulated(s, i, wide) + Product(s, i, wide) % WORD) % WORD
  {
    assert s[..i + 1][i] == s[i];
  }

  lemma SmallSum(a: nat, b: nat)
    requires a + b < WORD
    ensures (a + b % WORD) % WORD == a + b
  {
  }

  lemma {:induction false} RoundsFit(s: string, n: nat, wide: nat -> nat)
    requires AllDigits(s) && n <= |s| <= 6 && Value(s) < WORD
    ensures forall i :: 0 <= i < n ==> RoundFits(s, i, wide)
  {
    if n > 0 {
      RoundsFit(s, n - 1, wide);
      Unwrapped(s, n - 1, wide);
      ContributionStep(s, n - 1);
      ContributionBound(s, n);
    }
  }

  /** No product and no sum of Decode wraps exactly when the value fits into 32 bits. */
  lemma NoWrapIff(s: string, wide: nat -> nat)
    requires AllDigits(s) && |s| <= 6
    ensures NoWrap(s, wide) <==> Value(s) < WORD
  {
    if NoWrap(s, wide) {
      Unwrapped(s, |s|, wide);
      assert s[..|s|] == s;
      AccumulatedFits(s, |s|, wide);
    }
    if Value(s) < WORD {
      RoundsFit(s, |s|, wide);
    }
  }

  /** Decoding an encoded 32-bit number gives it back; nothing wraps on the way. */
  lemma DecodeEncode(n: nat, wide: nat -> nat)
    requires n < WORD
    ensures |Text(n)| <= 6 && Value(Text(n)) == n && Decoded(Text(n), wide) == Some(n)
    ensures NoWrap(Text(n), wide)
  {
    PowerValues();
    ShortText(n, 6);
    TextValue(n);
    DecodedShort(Text(n), wide);
    NoWrapIff(Text(n), wide);
  }

  lemma AccumulatedFits(s: string, i: nat, wide: nat -> nat)
    requires i <= |s| && AllDigits(s[..i])
    ensures Accumulated(s, i, wide) < WORD
  {
  }

  /** Encoding a decoded string gives the string back exactly when it is canonical and its
      value fits into 32 bits, for strings of any length. */
  lemma EncodeDecodeIff(s: string, wide: nat -> nat)
    requires AllDigits(s)
    ensures Text(Decoded(s, wide).value) == s <==> Canonical(s) && Value(s) < WORD
  {
    var n := Decoded(s, wide).value;
    DecodedFits(s, wide);
    if Text(n) == s {
      TextValue(n);
    }
    if Canonical(s) && Value(s) < WORD {
      DecodeCanonical(s, wide);
    }
  }

  lemma DecodedFits(s: string, wide: nat -> nat)
    requires AllDigits(s)
    ensures Decoded(s, wide).Some? && Decoded(s, wide).value < WORD
  {
    assert s[..|s|] == s;
    AccumulatedFits(s, |s|, wide);
  }

  lemma DecodeCanonical(s: string, wide: nat -> nat)
    requires Canonical(s) && Value(s) < WORD
    ensures Decoded(s, wide) == Some(Value(s)) && Text(Value(s)) == s
  {
    CanonicalIsShort(s);
    DecodedShort(s, wide);
    ValueText(s);
  }

  lemma CanonicalIsShort(s: string)
    requires Canonical(s) && Value(s) < WORD
    ensures |s| <= 6
  {
    PowerValues();
    if |s| > 6 {
      PositiveValue(s);
      PowerGrows(6, |s| - 1);
    }
  }

  lemma {:induction false} PowerGrows(j: nat, k: nat)
    requires j <= k
    ensures Power(j) <= Power(k)
  {
    if j < k { PowerGrows(j, k - 1); }
  }
}
