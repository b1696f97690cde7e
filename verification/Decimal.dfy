/** Base-10 text of 64-bit integers: strconv.FormatInt, strconv.ParseInt and strconv.Atoi.
    ParseInt(s, 10, 64) and Atoi(s) accept the same texts on a 64-bit machine. */
module Decimal {
  import opened Wire

  const MAX_INT64: int := 0x7FFF_FFFF_FFFF_FFFF
  const MIN_INT64: int := -0x8000_0000_0000_0000

  type int64 = x: int | MIN_INT64 <= x <= MAX_INT64

  const PLUS_SIGN: byte := 43
  const MINUS_SIGN: byte := 45
  const ZERO: byte := 48

  predicate IsDigit(c: byte) {
    ZERO <= c <= ZERO + 9
  }

  predicate AllDigits(s: bytes) {
    forall i :: 0 <= i < |s| ==> IsDigit(s[i])
  }

  function FormatNat(n: nat): (s: bytes)
    ensures s != [] && AllDigits(s)
  {
    if n < 10 then [ZERO + n as byte] else FormatNat(n / 10) + [ZERO + (n % 10) as byte]
  }

  function FormatInt(n: int): bytes {
    if n < 0 then [MINUS_SIGN] + FormatNat(-n) else FormatNat(n)
  }

  function DigitsValue(s: bytes): nat
    requires AllDigits(s)
  {
    if s == [] then 0
    else DigitsValue(s[..|s| - 1]) * 10 + (s[|s| - 1] - ZERO) as int
  }

  predicate IsSign(c: byte) {
    c == PLUS_SIGN || c == MINUS_SIGN
  }

  /** An optional sign, at least one digit, nothing else, and a value that fits 64 bits. */
  function ParseInt(s: bytes): Option<int64> {
    if s == [] then None
    else
      var digits := if IsSign(s[0]) then s[1..] else s;
      if digits == [] || !AllDigits(digits) then None
      else
        var magnitude: int := DigitsValue(digits);
        var n: int := if s[0] == MINUS_SIGN then -magnitude else magnitude;
        if MIN_INT64 <= n <= MAX_INT64 then Some(n) else None
  }

  lemma {:induction false} FormatNatValue(n: nat)
    ensures DigitsValue(FormatNat(n)) == n
  {
    var s := FormatNat(n);
    if n < 10 {
      assert s[..0] == [];
    } else {
      assert s[..|s| - 1] == FormatNat(n / 10);
      FormatNatValue(n / 10);
    }
  }

  /** Formatting then parsing gives back every 64-bit integer, and nothing outside that range. */
  lemma FormatIntParses(n: int)
    ensures ParseInt(FormatInt(n)) == if MIN_INT64 <= n <= MAX_INT64 then Some(n) else None
    ensures LF !in FormatInt(n)
  {
    if n < 0 {
      FormatNatValue(-n);
      assert FormatInt(n)[1..] == FormatNat(-n);
    } else {
      FormatNatValue(n);
    }
  }

  lemma {:induction false} FormatNatShortest(s: bytes)
    requires s != [] && AllDigits(s)
    ensures |FormatNat(DigitsValue(s))| <= |s|
  {
    var front := s[..|s| - 1];
    if front == [] {
      assert DigitsValue(front) == 0;
    } else {
      FormatNatShortest(front);
    }
  }

  /** The canonical text of an integer is no longer than any text that parses to it. */
  lemma FormatIntShortest(s: bytes)
    requires ParseInt(s).Some?
    ensures |FormatInt(ParseInt(s).value)| <= |s|
  {
    FormatNatShortest(if IsSign(s[0]) then s[1..] else s);
  }

  // What the texts mean, apart from how they are read and written.

  function Pow10(k: nat): nat {
    if k == 0 then 1 else 10 * Pow10(k - 1)
  }

  /** The sum of the digits, each times the power of ten of its place. */
  function PlaceValue(s: bytes): nat
    requires AllDigits(s)
  {
    if s == [] then 0 else (s[0] - ZERO) as nat * Pow10(|s| - 1) + PlaceValue(s[1..])
  }

  lemma TimesTen(a: nat, b: nat)
    ensures a * (10 * b) == (a * b) * 10
  {
  }

  lemma {:induction false} PlaceValueSnoc(s: bytes, c: byte)
    requires AllDigits(s) && IsDigit(c)
    ensures PlaceValue(s + [c]) == PlaceValue(s) * 10 + (c - ZERO) as int
  {
    if s == [] {
      assert [c][1..] == [];
    } else {
      PlaceValueSnoc(s[1..], c);
      assert (s + [c])[1..] == s[1..] + [c];
      TimesTen((s[0] - ZERO) as nat, Pow10(|s| - 1));
    }
  }

  lemma {:induction false} DigitsValueIsPlaceValue(s: bytes)
    requires AllDigits(s)
    ensures DigitsValue(s) == PlaceValue(s)
  {
    if s == [] {
    } else {
      var front, last := s[..|s| - 1], s[|s| - 1];
      DigitsValueIsPlaceValue(front);
      PlaceValueSnoc(front, last);
      assert s == front + [last];
    }
  }

  function Zeros(k: nat): bytes {
    seq(k, _ => ZERO)
  }

  lemma {:induction false} LeadingZeros(k: nat, s: bytes)
    requires AllDigits(s)
    ensures DigitsValue(Zeros(k) + s) == DigitsValue(s)
    decreases |s|, k
  {
    var t := Zeros(k) + s;
    if s != [] {
      assert t[..|t| - 1] == Zeros(k) + s[..|s| - 1];
      LeadingZeros(k, s[..|s| - 1]);
    } else if k > 0 {
      assert t[..|t| - 1] == Zeros(k - 1) + s;
      LeadingZeros(k - 1, s);
    }
  }

  lemma {:induction false} StripZeros(s: bytes) returns (k: nat)
    requires s != [] && AllDigits(s)
    ensures s == Zeros(k) + FormatNat(DigitsValue(s))
  {
    var front := s[..|s| - 1];
    if front == [] {
      k := 0;
      assert DigitsValue(front) == 0;
    } else {
      k := StripZeros(front);
      if DigitsValue(front) == 0 {
        k := k + 1;
      }
    }
  }

  /** The canonical text of `n` is the one digit string of that value without a leading zero. */
  lemma FormatNatIff(s: bytes, n: nat)
    ensures s == FormatNat(n)
            <==> s != [] && AllDigits(s) && PlaceValue(s) == n && (s[0] == ZERO ==> |s| == 1)
  {
    FormatNatValue(n);
    DigitsValueIsPlaceValue(FormatNat(n));
    FormatNatLeads(n);
    if s != [] && AllDigits(s) && PlaceValue(s) == n && (s[0] == ZERO ==> |s| == 1) {
      DigitsValueIsPlaceValue(s);
      var k := StripZeros(s);
    }
  }

  lemma {:induction false} FormatNatLeads(n: nat)
    ensures FormatNat(n)[0] == ZERO ==> n == 0
  {
    if n < 10 {
    } else {
      FormatNatLeads(n / 10);
    }
  }

  /** `s` is an optional sign, any number of zeros and the canonical digits of the magnitude of
      `n`, which is negated by a minus sign and by nothing else. */
  ghost predicate IsText(s: bytes, n: int) {
    exists zeros: nat, m: nat :: IsTextOf(s, n, zeros, m)
  }

  predicate IsTextOf(s: bytes, n: int, zeros: nat, m: nat) {
    var digits := Zeros(zeros) + FormatNat(m);
    || ((s == digits || s == [PLUS_SIGN] + digits) && n == m)
    || (s == [MINUS_SIGN] + digits && -n == m)
  }

  lemma ParsedIsText(s: bytes, n: int64)
    requires ParseInt(s) == Some(n)
    ensures IsText(s, n)
  {
    hide Zeros, FormatNat;
    var digits := if IsSign(s[0]) then s[1..] else s;
    var zeros := StripZeros(digits);
    assert s == digits || s == [s[0]] + digits;
    assert IsTextOf(s, n, zeros, DigitsValue(digits));
  }

  lemma TextIsParsed(s: bytes, n: int64, zeros: nat, m: nat)
    requires IsTextOf(s, n, zeros, m)
    ensures ParseInt(s) == Some(n)
  {
    hide FormatNat, DigitsValue;
    var digits := Zeros(zeros) + FormatNat(m);
    LeadingZeros(zeros, FormatNat(m));
    FormatNatValue(m);
    assert IsDigit(digits[0]);
    assert s == digits || s[1..] == digits;
  }

  /** Parsing accepts exactly the texts of the 64-bit integers, and gives the integer. */
  lemma ParseIntIff(s: bytes, n: int64)
    ensures ParseInt(s) == Some(n) <==> IsText(s, n)
  {
    if ParseInt(s) == Some(n) {
      ParsedIsText(s, n);
    }
    if IsText(s, n) {
      var zeros: nat, m: nat :| IsTextOf(s, n, zeros, m);
      TextIsParsed(s, n, zeros, m);
    }
  }
}
