/** strtoul, atoll and the stream formatting of unsigned numbers. */
module Numerals {
  import opened Text

  const TWO_64 := 0x1_0000_0000_0000_0000
  const ULONG_MAX := TWO_64 - 1
  const LLONG_MAX := 0x7FFF_FFFF_FFFF_FFFF

  /** The value of a digit character; 99 for any other character. */
  function DigitValue(c: char): nat {
    if '0' <= c <= '9' then (c - '0') as int
    else if 'a' <= c <= 'f' then (c - 'a') as int + 10
    else if 'A' <= c <= 'F' then (c - 'A') as int + 10
    else 99
  }

  predicate IsDigit(c: char, base: nat) {
    DigitValue(c) < base
  }

  /** The longest leading run of digits. */
  function DigitRun(s: string, base: nat): string {
    if s != "" && IsDigit(s[0], base) then [s[0]] + DigitRun(s[1..], base) else ""
  }

  /** Base 10 and base 16 are the only ones the server uses. */
  type Base = b: nat | b == 10 || b == 16 witness 10

  function ValueOf(digits: string, base: Base): nat {
    if digits == "" then 0
    else ValueOf(digits[..|digits| - 1], base) * base + DigitValue(digits[|digits| - 1])
  }

  predicate Signed(t: string) {
    t != "" && (t[0] == '-' || t[0] == '+')
  }

  function SkipSign(t: string): string {
    if Signed(t) then t[1..] else t
  }

  function SkipHexPrefix(u: string, base: Base): string {
    if base == 16 && |u| >= 3 && u[0] == '0' && (u[1] == 'x' || u[1] == 'X') && IsDigit(u[2], 16)
    then u[2..] else u
  }

  /** The magnitude strtoul and atoll read before they saturate. */
  function Magnitude(s: string, base: Base): nat {
    ValueOf(DigitRun(SkipHexPrefix(SkipSign(TrimLeft(s)), base), base), base)
  }

  predicate Negative(s: string) {
    var t := TrimLeft(s);
    t != "" && t[0] == '-'
  }

  /** `strtoul`: saturates, and negates a '-' number modulo 2^64. */
  function StrToUl(s: string, base: Base): (r: nat)
    ensures r <= ULONG_MAX
  {
    var v := Magnitude(s, base);
    if v > ULONG_MAX then ULONG_MAX
    else if Negative(s) && v > 0 then TWO_64 - v
    else v
  }

  /** `atoll`: saturates at both ends. */
  function AtoLl(s: string): (r: int)
    ensures -LLONG_MAX - 1 <= r <= LLONG_MAX
  {
    var v: int := Magnitude(s, 10);
    if Negative(s) then (if v > LLONG_MAX then -LLONG_MAX - 1 else -v)
    else if v > LLONG_MAX then LLONG_MAX else v
  }

  function DigitChar(d: nat): (c: char)
    requires d < 16
    ensures DigitValue(c) == d && !IsSpace(c) && c != '-' && c != '+' && c != 'x' && c != 'X'
  {
    if d < 10 then '0' + d as char else 'a' + (d - 10) as char
  }

  /** What `std::ostringstream` prints for an unsigned number (with `std::hex` for base 16). */
  function Digits(n: nat, base: Base): (s: string)
    ensures s != ""
    decreases n
  {
    if n < base then [DigitChar(n)] else Digits(n / base, base) + [DigitChar(n % base)]
  }

  predicate AllDigits(s: string, base: nat) {
    forall k | 0 <= k < |s| ::
      IsDigit(s[k], base) && !IsSpace(s[k]) && s[k] != '-' && s[k] != '+' && s[k] != 'x' && s[k] != 'X' && s[k] != '\r'
  }

  lemma {:induction false} DigitsAreDigits(n: nat, base: Base)
    ensures AllDigits(Digits(n, base), base)
  {
    if n >= base {
      DigitsAreDigits(n / base, base);
    }
  }

  lemma {:induction false} ValueOfDigits(n: nat, base: Base)
    ensures ValueOf(Digits(n, base), base) == n
  {
    var s := Digits(n, base);
    if n >= base {
      ValueOfDigits(n / base, base);
      assert s[..|s| - 1] == Digits(n / base, base);
      if base == 10 {
        assert n == (n / 10) * 10 + n % 10;
      } else {
        assert n == (n / 16) * 16 + n % 16;
      }
    }
  }

  /** The run ends exactly at the first character that is no digit. */
  lemma {:induction false} DigitRunIs(s: string, rest: string, base: nat)
    requires AllDigits(s, base)
    requires rest == "" || !IsDigit(rest[0], base)
    ensures DigitRun(s + rest, base) == s
  {
    if s == "" {
      assert s + rest == rest;
    } else {
      DigitRunIs(s[1..], rest, base);
      assert (s + rest)[1..] == s[1..] + rest;
    }
  }

  /** Text that starts like a plain number has nothing to skip. */
  lemma NothingToSkip(s: string, base: Base)
    requires s != "" && !IsSpace(s[0]) && s[0] != '-' && s[0] != '+'
    requires |s| >= 2 ==> s[1] != 'x' && s[1] != 'X'
    ensures SkipHexPrefix(SkipSign(TrimLeft(s)), base) == s && !Negative(s)
  {
    assert TrimLeft(s) == s;
  }

  lemma MagnitudeOfDigits(n: nat, rest: string, base: Base)
    requires rest == "" || (!IsDigit(rest[0], base) && rest[0] != 'x' && rest[0] != 'X')
    ensures Magnitude(Digits(n, base) + rest, base) == n && !Negative(Digits(n, base) + rest)
  {
    var d := Digits(n, base);
    DigitsAreDigits(n, base);
    assert (d + rest)[0] == d[0];
    NothingToSkip(d + rest, base);
    DigitRunIs(d, rest, base);
    ValueOfDigits(n, base);
  }

  /** Printing then scanning gives the number back, whatever non-digit follows it. */
  lemma PrintThenScan(n: nat, rest: string, base: Base)
    requires n <= ULONG_MAX
    requires rest == "" || (!IsDigit(rest[0], base) && rest[0] != 'x' && rest[0] != 'X')
    ensures StrToUl(Digits(n, base) + rest, base) == n
  {
    MagnitudeOfDigits(n, rest, base);
  }

  lemma PrintThenAtoLl(n: nat, rest: string)
    requires n <= LLONG_MAX
    requires rest == "" || (!IsDigit(rest[0], 10) && rest[0] != 'x' && rest[0] != 'X')
    ensures AtoLl(Digits(n, 10) + rest) == n
  {
    MagnitudeOfDigits(n, rest, 10);
  }
}
