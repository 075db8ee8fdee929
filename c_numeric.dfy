/** A model of the C library's decimal text-to-integer conversion `atoi`.
    By section 7.22.1.2 of ISO/IEC 9899:2011 (C11), `atoi(s)` behaves as
    `strtol(s, NULL, 10)` (section 7.22.1.4): leading white-space is skipped,
    an optional `+` or `-` sign is taken, then the longest run of decimal
    digits is read; text after the digits is ignored, and text without digits
    reads as 0. A result outside the range of `int` is undefined behaviour,
    so `Atoi` is only defined where the value fits in 32 bits. */
module CNumeric {

  /** The range of `std::int32_t`. */
  newtype int32 = x: int | -0x8000_0000 <= x < 0x8000_0000

  predicate InInt32(x: int) {
    -0x8000_0000 <= x < 0x8000_0000
  }

  /** The white-space characters of the "C" locale, as `isspace` classifies them. */
  predicate IsSpace(c: char) {
    c == ' ' || c == '\t' || c == '\n' || c == '\U{000B}' || c == '\U{000C}' || c == '\r'
  }

  predicate IsDigit(c: char) {
    '0' <= c <= '9'
  }

  predicate AllDigits(s: string) {
    forall i :: 0 <= i < |s| ==> IsDigit(s[i])
  }

  function DigitValue(c: char): (d: nat)
    requires IsDigit(c)
    ensures d < 10
  {
    (c as int) - ('0' as int)
  }

  /** The number of white-space characters `s` starts with. */
  function SpaceCount(s: string): (n: nat)
    ensures n <= |s|
    ensures forall i :: 0 <= i < n ==> IsSpace(s[i])
    ensures n < |s| ==> !IsSpace(s[n])
  {
    if |s| == 0 || !IsSpace(s[0]) then 0 else 1 + SpaceCount(s[1..])
  }

  /** The length of the longest run of decimal digits `s` starts with. */
  function DigitCount(s: string): (n: nat)
    ensures n <= |s|
    ensures AllDigits(s[..n])
    ensures n < |s| ==> !IsDigit(s[n])
  {
    if |s| == 0 || !IsDigit(s[0]) then 0
    else
      var n := 1 + DigitCount(s[1..]);
      assert forall i :: 0 < i < n ==> s[..n][i] == s[1..][..n - 1][i - 1];
      n
  }

  /** The value of a string of decimal digits, most significant digit first. */
  function ValueOf(digits: string): (v: nat)
    requires AllDigits(digits)
  {
    if |digits| == 0 then 0
    else 10 * ValueOf(digits[..|digits| - 1]) + DigitValue(digits[|digits| - 1])
  }

  /** The value of the longest run of digits `s` starts with (0 if none). */
  function UnsignedPrefixValue(s: string): (v: nat) {
    ValueOf(s[..DigitCount(s)])
  }

  /** The mathematical value `strtol(s, NULL, 10)` computes: skip white-space,
      take an optional sign, read the longest digit prefix (none reads as 0). */
  function DecimalPrefixValue(s: string): (v: int) {
    var rest := s[SpaceCount(s)..];
    if |rest| > 0 && rest[0] == '-' then -(UnsignedPrefixValue(rest[1..]) as int)
    else if |rest| > 0 && rest[0] == '+' then UnsignedPrefixValue(rest[1..])
    else UnsignedPrefixValue(rest)
  }

  /** `atoi`, defined where its result is representable (otherwise C leaves
      the behaviour undefined). */
  function Atoi(s: string): (r: int32)
    requires InInt32(DecimalPrefixValue(s))
  {
    DecimalPrefixValue(s) as int32
  }

  /** Text that holds no digit at all (the empty string among it) reads as 0. */
  lemma NoDigitsReadsZero(s: string)
    requires forall i :: 0 <= i < |s| ==> !IsDigit(s[i])
    ensures DecimalPrefixValue(s) == 0
  {
  }

  /** A leading white-space character does not change the value. */
  lemma LeadingSpaceSkipped(c: char, s: string)
    requires IsSpace(c)
    ensures DecimalPrefixValue([c] + s) == DecimalPrefixValue(s)
  {
  }

  /** A leading `-` negates the value of the unsigned text after it, and a
      leading `+` leaves it unchanged. */
  lemma SignApplied(s: string)
    requires s == [] || (!IsSpace(s[0]) && s[0] != '-' && s[0] != '+')
    ensures DecimalPrefixValue("-" + s) == -DecimalPrefixValue(s)
    ensures DecimalPrefixValue("+" + s) == DecimalPrefixValue(s)
  {
  }

  /** The digit run of `d + rest` is exactly `d` when `rest` does not go on
      with a digit. */
  lemma {:induction false} DigitCountOfDigitsThen(d: string, rest: string)
    requires AllDigits(d)
    requires rest == [] || !IsDigit(rest[0])
    ensures DigitCount(d + rest) == |d|
  {
    if |d| > 0 {
      assert (d + rest)[0] == d[0];
      assert (d + rest)[1..] == d[1..] + rest;
      DigitCountOfDigitsThen(d[1..], rest);
    } else {
      assert d + rest == rest;
    }
  }

  /** Text after the leading digits is ignored: "42xyz" reads as 42. */
  lemma TrailingTextIgnored(d: string, rest: string)
    requires |d| > 0 && AllDigits(d)
    requires rest == [] || !IsDigit(rest[0])
    ensures DecimalPrefixValue(d + rest) == ValueOf(d)
  {
    var s := d + rest;
    assert s[0] == d[0];
    assert SpaceCount(s) == 0;
    assert s[SpaceCount(s)..] == s;
    DigitCountOfDigitsThen(d, rest);
    assert s[..DigitCount(s)] == d;
  }

  function DigitChar(d: nat): (c: char)
    requires d < 10
    ensures IsDigit(c) && DigitValue(c) == d
  {
    ('0' as int + d) as char
  }

  /** The decimal digits of `n`, most significant first, without leading zeros. */
  function Digits(n: nat): (s: string)
    ensures |s| > 0 && AllDigits(s)
  {
    if n < 10 then [DigitChar(n)] else Digits(n / 10) + [DigitChar(n % 10)]
  }

  /** The canonical decimal rendering of `n`: the inverse that `atoi` undoes. */
  function Decimal(n: int): (s: string) {
    if n < 0 then "-" + Digits(-n) else Digits(n)
  }

  lemma {:induction false} DigitsValue(n: nat)
    ensures ValueOf(Digits(n)) == n
  {
    if n >= 10 {
      DigitsValue(n / 10);
      var s := Digits(n);
      assert s[..|s| - 1] == Digits(n / 10);
    }
  }

  /** Reading back the rendering of any integer yields that integer. */
  lemma DecimalRoundTrip(n: int)
    ensures DecimalPrefixValue(Decimal(n)) == n
  {
    var m := if n < 0 then -n else n;
    DigitsValue(m);
    TrailingTextIgnored(Digits(m), []);
    assert Digits(m) + [] == Digits(m);
    if n < 0 {
      SignApplied(Digits(m));
    }
  }

  /** `atoi` undoes `Decimal` on every 32-bit integer. */
  lemma AtoiRoundTrip(n: int32)
    ensures InInt32(DecimalPrefixValue(Decimal(n as int))) && Atoi(Decimal(n as int)) == n
  {
    DecimalRoundTrip(n as int);
  }
}
