/**
 * The number and boolean parsers the request handlers call: Long.parseLong,
 * Float.parseFloat and Boolean.parseBoolean. Prices are exact decimals (`real`);
 * see README for the float syntax that is not modelled.
 */
module JavaNumbers {
  import opened Wrappers
  import opened JavaStrings

  const LONG_MIN: int := -0x8000_0000_0000_0000
  const LONG_MAX: int := 0x7FFF_FFFF_FFFF_FFFF

  predicate IsDigit(c: char) {
    '0' <= c <= '9'
  }

  predicate AllDigits(s: string) {
    forall i :: 0 <= i < |s| ==> IsDigit(s[i])
  }

  function DigitValue(c: char): nat
    requires IsDigit(c)
  {
    c as int - '0' as int
  }

  /** The number a run of decimal digits denotes (most significant digit first). */
  function DigitsValue(s: string): nat
    requires AllDigits(s)
  {
    if s == [] then 0 else DigitsValue(s[..|s| - 1]) * 10 + DigitValue(s[|s| - 1])
  }

  function DigitChar(d: nat): (c: char)
    requires d < 10
    ensures IsDigit(c) && DigitValue(c) == d
  {
    ('0' as int + d) as char
  }

  /** The shortest decimal rendering of a natural number, as Long.toString prints it. */
  function NatToString(n: nat): (s: string)
    ensures s != [] && AllDigits(s)
  {
    if n < 10 then [DigitChar(n)] else NatToString(n / 10) + [DigitChar(n % 10)]
  }

  /** Reading back a rendered number gives the number. */
  lemma {:induction false} DigitsOfNatToString(n: nat)
    ensures DigitsValue(NatToString(n)) == n
  {
    if n >= 10 {
      var s := NatToString(n / 10) + [DigitChar(n % 10)];
      assert s[..|s| - 1] == NatToString(n / 10);
      DigitsOfNatToString(n / 10);
    }
  }

  /** Long.toString. */
  function LongToString(n: int): string {
    if n < 0 then "-" + NatToString(-n) else NatToString(n)
  }

  /** The message of the NumberFormatException thrown for a malformed number. */
  function NumberFormatMessage(s: string): string {
    "For input string: \"" + s + "\""
  }

  /** An optional sign followed by at least one decimal digit, and nothing else. */
  predicate LongSyntax(s: string) {
    if s != [] && (s[0] == '-' || s[0] == '+') then |s| >= 2 && AllDigits(s[1..])
    else s != [] && AllDigits(s)
  }

  function SignedDigitsValue(s: string): int
    requires LongSyntax(s)
  {
    if s[0] == '-' then -(DigitsValue(s[1..]) as int)
    else if s[0] == '+' then DigitsValue(s[1..])
    else DigitsValue(s)
  }

  /**
   * Long.parseLong: a signed decimal within the 64-bit range, or a
   * NumberFormatException naming the input. Leading or trailing spaces are not
   * allowed.
   */
  function ParseLong(s: string): (r: Result<int>)
    ensures r.Success? <==> LongSyntax(s) && LONG_MIN <= SignedDigitsValue(s) <= LONG_MAX
    ensures r.Success? ==> LONG_MIN <= r.value <= LONG_MAX && r.value == SignedDigitsValue(s)
    ensures r.Failure? ==> r.error == NumberFormatMessage(s)
  {
    if LongSyntax(s) && LONG_MIN <= SignedDigitsValue(s) <= LONG_MAX then Success(SignedDigitsValue(s))
    else Failure(NumberFormatMessage(s))
  }

  /** Every 64-bit value, printed as Long.toString prints it, parses back to itself. */
  lemma LongRoundTrip(n: int)
    requires LONG_MIN <= n <= LONG_MAX
    ensures ParseLong(LongToString(n)) == Success(n)
  {
    var s := LongToString(n);
    if n < 0 {
      assert s[1..] == NatToString(-n);
      DigitsOfNatToString(-n);
    } else {
      DigitsOfNatToString(n);
    }
  }

  /** Index of the first '.' in `s`, or |s| when there is none. */
  function DotIndex(s: string): (k: nat)
    ensures k <= |s|
    ensures forall i :: 0 <= i < k ==> s[i] != '.'
    ensures k < |s| ==> s[k] == '.'
  {
    if s == [] then 0
    else if s[0] == '.' then 0
    else 1 + DotIndex(s[1..])
  }

  function Pow10(n: nat): (p: nat)
    ensures p >= 1
  {
    if n == 0 then 1 else 10 * Pow10(n - 1)
  }

  /** The text after an optional leading sign. */
  function Unsigned(t: string): string {
    if t != [] && (t[0] == '-' || t[0] == '+') then t[1..] else t
  }

  function IntegerPart(u: string): string {
    u[..DotIndex(u)]
  }

  function FractionPart(u: string): string {
    if DotIndex(u) < |u| then u[DotIndex(u) + 1..] else []
  }

  /**
   * The plain decimal notation: an optional sign, digits, and at most one '.', with
   * at least one digit in all ("5", "-4", "0.01", ".5", "5.").
   */
  predicate DecimalSyntax(t: string) {
    var u := Unsigned(t);
    AllDigits(IntegerPart(u)) && AllDigits(FractionPart(u))
    && |IntegerPart(u)| + |FractionPart(u)| >= 1
  }

  function DecimalValue(t: string): real
    requires DecimalSyntax(t)
  {
    var u := Unsigned(t);
    var magnitude := DigitsValue(IntegerPart(u) + FractionPart(u)) as real / Pow10(|FractionPart(u)|) as real;
    if t[0] == '-' then -magnitude else magnitude
  }

  /**
   * Float.parseFloat on the plain decimal notation: the argument is trimmed first; an
   * empty remainder reports "empty String", anything else that is not a decimal reports
   * the trimmed text.
   */
  function ParseFloat(s: string): (r: Result<real>)
    ensures r.Success? <==> DecimalSyntax(Trim(s))
    ensures r.Success? ==> r.value == DecimalValue(Trim(s))
    ensures Trim(s) == [] ==> r == Failure("empty String")
    ensures Trim(s) != [] && r.Failure? ==> r.error == NumberFormatMessage(Trim(s))
    ensures r.Success? && r.value < 0.0 ==> Trim(s)[0] == '-'
  {
    var t := Trim(s);
    if t == [] then Failure("empty String")
    else if DecimalSyntax(t) then
      var u := Unsigned(t);
      QuotientNonNegative(DigitsValue(IntegerPart(u) + FractionPart(u)), Pow10(|FractionPart(u)|));
      Success(DecimalValue(t))
    else Failure(NumberFormatMessage(t))
  }

  lemma QuotientNonNegative(n: nat, p: nat)
    requires p >= 1
    ensures n as real / p as real >= 0.0
  {
    var q := n as real / p as real;
    assert q * (p as real) == n as real;
  }

  /** A run of digits is a decimal with no fraction, worth what the digits denote. */
  lemma PlainDigits(s: string)
    requires s != [] && AllDigits(s)
    ensures Unsigned(s) == s && DotIndex(s) == |s|
    ensures IntegerPart(s) == s && FractionPart(s) == []
    ensures DecimalSyntax(s) && DecimalValue(s) == DigitsValue(s) as real
  {
    NoDotInDigits(s);
    assert Unsigned(s) == s;
    assert IntegerPart(s) == s;
    assert IntegerPart(s) + FractionPart(s) == s;
    assert Pow10(0) == 1;
  }

  lemma {:induction false} NoDotInDigits(s: string)
    requires AllDigits(s)
    ensures DotIndex(s) == |s|
  {
    if s != [] {
      assert AllDigits(s[1..]) by {
        forall i | 0 <= i < |s[1..]| ensures IsDigit(s[1..][i]) {
          assert s[1..][i] == s[i + 1];
        }
      }
      NoDotInDigits(s[1..]);
    }
  }

  /** A minus sign before a run of digits negates its value. */
  lemma NegatedDigits(s: string)
    requires s != [] && AllDigits(s)
    ensures DecimalSyntax("-" + s) && DecimalValue("-" + s) == -(DigitsValue(s) as real)
  {
    var t := "-" + s;
    assert Unsigned(t) == s;
    PlainDigits(s);
  }

  /** A whole number written without sign or point parses to itself. */
  lemma ParseFloatOfNat(n: nat)
    ensures ParseFloat(NatToString(n)) == Success(n as real)
  {
    var s := NatToString(n);
    TrimOfVisibleEnds(s);
    PlainDigits(s);
    DigitsOfNatToString(n);
  }

  /** A whole number written with a leading minus sign parses to its negation. */
  lemma ParseFloatOfNegatedNat(n: nat)
    ensures ParseFloat("-" + NatToString(n)) == Success(-(n as real))
  {
    var s := NatToString(n);
    var t := "-" + s;
    assert t[|t| - 1] == s[|s| - 1];
    TrimOfVisibleEnds(t);
    NegatedDigits(s);
    DigitsOfNatToString(n);
  }

  /** Boolean.parseBoolean: true exactly for "true" in any letter case; null gives false. */
  function ParseBoolean(s: Option<string>): (b: bool)
    ensures b <==> s.Some? && |s.value| == 4 && ToLower(s.value) == "true"
  {
    s.Some? && EqualsIgnoreCase(s.value, "true")
  }
}
