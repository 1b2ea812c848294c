/**
 * The few pieces of PHP value semantics the builder relies on: `empty()` on
 * strings, decimal rendering of integers, and how a PHP array normalises the
 * key it is indexed with.
 */
module Php {

  /** PHP `empty()` on a string: true for "" and, less obviously, for "0". */
  predicate Empty(s: string) {
    s == "" || s == "0"
  }

  /** Bounds of PHP's `int` on a 64-bit build. */
  const IntMin: int := -0x8000_0000_0000_0000
  const IntMax: int := 0x7FFF_FFFF_FFFF_FFFF

  predicate IsDigit(c: char) {
    '0' <= c <= '9'
  }

  function DigitValue(c: char): nat
    requires IsDigit(c)
  {
    c as int - '0' as int
  }

  function DigitChar(d: nat): (c: char)
    requires d < 10
    ensures IsDigit(c) && DigitValue(c) == d
  {
    (d + '0' as int) as char
  }

  predicate AllDigits(s: string) {
    forall i | 0 <= i < |s| :: IsDigit(s[i])
  }

  /** A non-empty digit string without a redundant leading zero. */
  predicate Canonical(s: string) {
    |s| > 0 && AllDigits(s) && (s[0] != '0' || |s| == 1)
  }

  /** Value of a digit string, most significant digit first. */
  function DigitsValue(s: string): nat
    requires AllDigits(s)
    decreases |s|
  {
    if s == [] then 0 else DigitsValue(s[..|s| - 1]) * 10 + DigitValue(s[|s| - 1])
  }

  /** Decimal rendering of a natural number, as PHP's string conversion writes it. */
  function NatToString(n: nat): (r: string)
    ensures Canonical(r)
    ensures DigitsValue(r) == n
    decreases n
  {
    if n < 10 then [DigitChar(n)]
    else
      var p := NatToString(n / 10);
      var r := p + [DigitChar(n % 10)];
      assert r[..|r| - 1] == p;
      r
  }

  /** The strings PHP reads back as an integer: "0", "7", "-12", never "-0" or "012". */
  predicate IsIntString(s: string) {
    Canonical(s) || (|s| >= 2 && s[0] == '-' && Canonical(s[1..]) && s[1] != '0')
  }

  function IntValue(s: string): int
    requires IsIntString(s)
  {
    if s[0] == '-' then -(DigitsValue(s[1..]) as int) else DigitsValue(s)
  }

  /** PHP's conversion of an integer to a string (`'Error code: ' . $code`). */
  function IntToString(n: int): (r: string)
    ensures IsIntString(r)
    ensures IntValue(r) == n
  {
    if n < 0 then
      var r := "-" + NatToString(-n);
      assert r[1..] == NatToString(-n);
      r
    else NatToString(n)
  }

  lemma {:induction false} LeadingNonZeroIsPositive(s: string)
    requires |s| > 0 && AllDigits(s) && s[0] != '0'
    ensures DigitsValue(s) > 0
    decreases |s|
  {
    if |s| > 1 {
      LeadingNonZeroIsPositive(s[..|s| - 1]);
    }
  }

  /** Rendering inverts reading on canonical digit strings. */
  lemma {:induction false} NatToStringOfValue(s: string)
    requires Canonical(s)
    ensures NatToString(DigitsValue(s)) == s
    decreases |s|
  {
    var p := s[..|s| - 1];
    var d := DigitValue(s[|s| - 1]);
    assert DigitChar(d) == s[|s| - 1];
    if |s| > 1 {
      var m := DigitsValue(p);
      LeadingNonZeroIsPositive(p);
      NatToStringOfValue(p);
      DivMod10(m, d);
      assert NatToString(m * 10 + d) == NatToString(m) + [DigitChar(d)];
      assert s == p + [s[|s| - 1]];
    }
  }

  lemma DivMod10(m: nat, d: nat)
    requires d < 10
    ensures (m * 10 + d) / 10 == m && (m * 10 + d) % 10 == d
  {
  }

  /** Reading then rendering an integer string gives the string back. */
  lemma IntStringRoundTrip(s: string)
    requires IsIntString(s)
    ensures IntToString(IntValue(s)) == s
  {
    if s[0] == '-' {
      LeadingNonZeroIsPositive(s[1..]);
      NatToStringOfValue(s[1..]);
      assert s == "-" + s[1..];
    } else {
      NatToStringOfValue(s);
    }
  }

  /** The key of a PHP array is an integer or a string. */
  datatype Key = IntKey(n: int) | StrKey(s: string)

  /** What a caller may index a PHP array with (the `$optionName` argument). */
  datatype KeyArg = IntArg(i: int) | StringArg(s: string)

  /**
   * The key PHP actually stores for `$array[$k]`: a string holding the
   * canonical decimal form of a 64-bit integer becomes that integer.
   */
  function ArrayKey(k: KeyArg): (r: Key)
    ensures k.IntArg? ==> r == IntKey(k.i)
    ensures k.StringArg? && r.StrKey? ==> r.s == k.s
  {
    match k
    case IntArg(i) => IntKey(i)
    case StringArg(s) =>
      if IsIntString(s) && IntMin <= IntValue(s) <= IntMax then IntKey(IntValue(s)) else StrKey(s)
  }

  /**
   * A string key turns into the integer key n exactly when it is the decimal
   * rendering of n and n fits a PHP int.
   */
  lemma ArrayKeyNumeric(s: string, n: int)
    ensures ArrayKey(StringArg(s)) == IntKey(n) <==> (IntMin <= n <= IntMax && s == IntToString(n))
  {
    if ArrayKey(StringArg(s)) == IntKey(n) {
      IntStringRoundTrip(s);
    }
  }

  /** Two different string names are never stored under the same key. */
  lemma ArrayKeyInjective(s: string, t: string)
    requires ArrayKey(StringArg(s)) == ArrayKey(StringArg(t))
    ensures s == t
  {
    if IsIntString(s) {
      IntStringRoundTrip(s);
    }
    if IsIntString(t) {
      IntStringRoundTrip(t);
    }
  }
}
