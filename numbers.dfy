/** Decimal number parsing and printing as Go's strconv package does it:
    ParseUint(s, 10, 32), Atoi on a 64-bit platform, Itoa / fmt's %v. */
module Numbers {
  import opened Common

  const MaxUint32: nat := 0xFFFF_FFFF
  const MaxUint64: nat := 0xFFFF_FFFF_FFFF_FFFF
  const MaxInt64: int := 0x7FFF_FFFF_FFFF_FFFF
  const MinInt64: int := -0x8000_0000_0000_0000

  predicate IsDigit(c: char) { '0' <= c <= '9' }

  predicate AllDigits(s: string) { forall i :: 0 <= i < |s| ==> IsDigit(s[i]) }

  function DigitValue(c: char): (d: nat)
    requires IsDigit(c)
    ensures d < 10
  {
    c as int - '0' as int
  }

  function DigitChar(d: nat): (c: char)
    requires d < 10
    ensures IsDigit(c) && DigitValue(c) == d
  {
    ('0' as int + d) as char
  }

  /** The value of a string of decimal digits, most significant first. */
  function DigitsValue(s: string): nat
    requires AllDigits(s)
  {
    if |s| == 0 then 0 else DigitsValue(s[..|s| - 1]) * 10 + DigitValue(s[|s| - 1])
  }

  /** Length of the leading run of decimal digits. */
  function DigitRun(s: string): (k: nat)
    ensures k <= |s| && AllDigits(s[..k])
    ensures k < |s| ==> !IsDigit(s[k])
  {
    if |s| == 0 || !IsDigit(s[0]) then 0
    else
      var k := DigitRun(s[1..]);
      assert s[..k + 1] == [s[0]] + s[1..][..k];
      k + 1
  }

  /** The outcome of a strconv call: the value it returns, and its error. */
  datatype Parsed = Parsed(value: int, err: Option<Error>)

  /** strconv.ParseUint(s, 10, bits) with `max` = 2**bits - 1. The digits are
      read left to right: the first prefix whose value exceeds `max` is a
      range error (value `max`), a non-digit reached before that is a syntax
      error (value 0), and the empty string is a syntax error. */
  function ParseUintMax(s: string, max: nat): (r: Parsed)
    ensures r.err.None? <==> s != "" && AllDigits(s) && DigitsValue(s) <= max
    ensures r.err.None? ==> r.value == DigitsValue(s)
    ensures r.err.Some? ==> r.err == Some(NumberSyntax(s)) || r.err == Some(NumberRange(s))
    ensures r.err == Some(NumberSyntax(s)) ==> r.value == 0
    ensures r.err == Some(NumberRange(s)) ==> r.value == max
    ensures 0 <= r.value <= max
  {
    var k := DigitRun(s);
    if s == "" then Parsed(0, Some(NumberSyntax(s)))
    else if DigitsValue(s[..k]) > max then
      assert AllDigits(s) ==> k == |s| && s[..k] == s;
      Parsed(max, Some(NumberRange(s)))
    else if k < |s| then Parsed(0, Some(NumberSyntax(s)))
    else
      assert s[..k] == s;
      Parsed(DigitsValue(s), None)
  }

  /** strconv.ParseUint(s, 10, 32). */
  function ParseUint32(s: string): (r: Parsed)
    ensures r.err.None? <==> s != "" && AllDigits(s) && DigitsValue(s) <= MaxUint32
    ensures r.err.None? ==> r.value == DigitsValue(s)
    ensures 0 <= r.value <= MaxUint32
  {
    ParseUintMax(s, MaxUint32)
  }

  /** strconv.Atoi on a 64-bit platform: an optional sign, then digits; a
      syntax error gives 0 and a range error the nearest int64 bound. */
  function Atoi(s: string): (r: Parsed)
    ensures MinInt64 <= r.value <= MaxInt64
    ensures r.err.Some? ==> r.err == Some(NumberSyntax(s)) || r.err == Some(NumberRange(s))
    ensures r.err == Some(NumberSyntax(s)) ==> r.value == 0
  {
    if s == "" then Parsed(0, Some(NumberSyntax(s)))
    else
      var neg := s[0] == '-';
      var rest := if s[0] == '-' || s[0] == '+' then s[1..] else s;
      var u := ParseUintMax(rest, MaxUint64);
      if u.err == Some(NumberSyntax(rest)) then Parsed(0, Some(NumberSyntax(s)))
      else if !neg && u.value > MaxInt64 then Parsed(MaxInt64, Some(NumberRange(s)))
      else if neg && u.value > -MinInt64 then Parsed(MinInt64, Some(NumberRange(s)))
      else if neg then Parsed(-u.value, None)
      else Parsed(u.value, None)
  }

  /** Decimal digits of `n` without leading zeros (strconv.Itoa for n >= 0). */
  function NatToString(n: nat): (s: string)
    ensures s != [] && AllDigits(s)
  {
    if n < 10 then [DigitChar(n)] else NatToString(n / 10) + [DigitChar(n % 10)]
  }

  /** strconv.Itoa and fmt's %v for an int. */
  function IntToString(i: int): (s: string)
    ensures s != []
    ensures i >= 0 ==> s == NatToString(i)
    ensures i < 0 ==> s == "-" + NatToString(-i)
  {
    if i < 0 then "-" + NatToString(-i) else NatToString(i)
  }

  /** Itoa writes digits and at most a leading minus sign. */
  lemma IntToStringChars(i: int)
    ensures var s := IntToString(i); forall k :: 0 <= k < |s| ==> IsDigit(s[k]) || (k == 0 && s[k] == '-')
  {
  }

  /** Printing and reading back a natural number recovers it. */
  lemma {:induction false} DigitsValueOfNatToString(n: nat)
    ensures DigitsValue(NatToString(n)) == n
  {
    var s := NatToString(n);
    if n >= 10 {
      assert s[..|s| - 1] == NatToString(n / 10);
      DigitsValueOfNatToString(n / 10);
    }
  }

  lemma DigitRunOfDigits(s: string)
    requires AllDigits(s)
    ensures DigitRun(s) == |s|
  {
  }

  /** ParseUint(Itoa(n), 10, 32) == n for every 32-bit n. */
  lemma ParseUint32OfNatToString(n: nat)
    requires n <= MaxUint32
    ensures ParseUint32(NatToString(n)) == Parsed(n, None)
  {
    DigitsValueOfNatToString(n);
  }

  /** Atoi(Itoa(i)) == i for every int64 i. */
  lemma AtoiOfIntToString(i: int)
    requires MinInt64 <= i <= MaxInt64
    ensures Atoi(IntToString(i)) == Parsed(i, None)
  {
    if i < 0 {
      AtoiOfNegative(i);
    } else {
      AtoiOfNonNegative(i);
    }
  }

  lemma AtoiOfNegative(i: int)
    requires MinInt64 <= i < 0
    ensures Atoi(IntToString(i)) == Parsed(i, None)
  {
    var s := IntToString(i);
    var d := NatToString(-i);
    assert s[0] == '-' && s[1..] == d;
    DigitsValueOfNatToString(-i);
    assert ParseUintMax(d, MaxUint64) == Parsed(-i, None);
  }

  lemma AtoiOfNonNegative(i: int)
    requires 0 <= i <= MaxInt64
    ensures Atoi(IntToString(i)) == Parsed(i, None)
  {
    var s := IntToString(i);
    assert IsDigit(s[0]) && s == NatToString(i);
    DigitsValueOfNatToString(i);
    assert ParseUintMax(s, MaxUint64) == Parsed(i, None);
  }

  /** Two's-complement wrap-around of Go's int64 arithmetic. */
  function WrapInt64(x: int): (r: int)
    ensures MinInt64 <= r <= MaxInt64
    ensures MinInt64 <= x <= MaxInt64 ==> r == x
    ensures (x - r) % 0x1_0000_0000_0000_0000 == 0
  {
    (x - MinInt64) % 0x1_0000_0000_0000_0000 + MinInt64
  }
}
