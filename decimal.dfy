/** Java's 32-bit `int`: its range, wrap-around, decimal rendering
    (`Integer.toString`, string concatenation) and `Integer.parseInt`. */
module Decimal {
  import opened Outcomes

  const IntMin: int := -0x8000_0000
  const IntMax: int := 0x7fff_ffff

  predicate IsInt32(n: int) {
    IntMin <= n <= IntMax
  }

  /** Two's-complement wrap-around of an unbounded result into `int`. */
  function Wrap32(n: int): (r: int)
    ensures IsInt32(r)
    ensures (r - n) % 0x1_0000_0000 == 0
    ensures IsInt32(n) ==> r == n
  {
    (n - IntMin) % 0x1_0000_0000 + IntMin
  }

  const LongMin: int := -0x8000_0000_0000_0000
  const LongMax: int := 0x7fff_ffff_ffff_ffff

  predicate IsInt64(n: int) {
    LongMin <= n <= LongMax
  }

  /** Two's-complement wrap-around of an unbounded result into `long`. */
  function Wrap64(n: int): (r: int)
    ensures IsInt64(r)
    ensures (r - n) % 0x1_0000_0000_0000_0000 == 0
    ensures IsInt64(n) ==> r == n
  {
    (n - LongMin) % 0x1_0000_0000_0000_0000 + LongMin
  }

  predicate IsDigit(ch: char) {
    '0' <= ch <= '9'
  }

  predicate AllDigits(s: string) {
    forall i :: 0 <= i < |s| ==> IsDigit(s[i])
  }

  function DigitChar(d: nat): char
    requires d < 10
  {
    "0123456789"[d]
  }

  /** The value of a string of decimal digits, most significant first. */
  function DigitsValue(s: string): nat
    requires AllDigits(s)
  {
    if |s| == 0 then 0
    else DigitsValue(s[..|s| - 1]) * 10 + (s[|s| - 1] as int - '0' as int)
  }

  /** The shortest decimal rendering of n: no sign and no leading zero. */
  function NatToString(n: nat): (r: string)
    ensures |r| >= 1 && AllDigits(r)
    ensures DigitsValue(r) == n
    ensures |r| > 1 ==> r[0] != '0'
  {
    if n < 10 then [DigitChar(n)]
    else
      var init := NatToString(n / 10);
      var r := init + [DigitChar(n % 10)];
      assert r[..|r| - 1] == init;
      r
  }

  /** `Integer.toString(n)`: a minus sign before the digits of |n| when negative. */
  function IntToString(n: int): string {
    if n < 0 then "-" + NatToString(-n) else NatToString(n)
  }

  /** The sign and the digit part of a spelled integer; one leading `+` or
      `-` is taken as the sign. */
  function SignAndDigits(s: string): (bool, string) {
    if |s| > 0 && (s[0] == '-' || s[0] == '+') then (s[0] == '-', s[1..]) else (false, s)
  }

  /** `Integer.parseInt(s)`: an optional sign, then at least one decimal
      digit, whose value must fit in `int`; anything else throws
      NumberFormatException. */
  function ParseInt(s: string): (r: Result<int>)
    ensures r.Ok? ==> IsInt32(r.value)
    ensures r.Err? ==> r.failure == Crash(NumberFormat)
    ensures |s| == 0 ==> r.Err?
  {
    var (negative, digits) := SignAndDigits(s);
    if |digits| == 0 || !AllDigits(digits) then Err(Crash(NumberFormat))
    else
      var magnitude: int := DigitsValue(digits);
      var v := if negative then -magnitude else magnitude;
      if IsInt32(v) then Ok(v) else Err(Crash(NumberFormat))
  }

  /** Rendering then parsing an `int` gives it back. */
  lemma ParseIntToString(n: int)
    requires IsInt32(n)
    ensures ParseInt(IntToString(n)) == Ok(n)
  {
    if n < 0 {
      var s := "-" + NatToString(-n);
      assert s[1..] == NatToString(-n);
    } else {
      var s := NatToString(n);
      assert s[0] != '-' && s[0] != '+' by { assert IsDigit(s[0]); }
    }
  }

  /** Text that is not a signed run of digits is refused. */
  lemma ParseIntRejects(s: string)
    requires forall i :: 0 <= i < |s| ==> !IsDigit(s[i])
    ensures ParseInt(s).Err?
  {
    var (negative, digits) := SignAndDigits(s);
    if |digits| > 0 {
      assert digits[0] == s[|s| - |digits|];
    }
  }

  lemma ModOfDecomposition(x: int, q: int, t: int)
    requires 0 <= t < 0x1_0000_0000 && x == q * 0x1_0000_0000 + t
    ensures x % 0x1_0000_0000 == t
  {
  }

  /** Wrapping after every increment is the same as wrapping once at the end. */
  lemma Wrap32Succ(n: int)
    ensures Wrap32(Wrap32(n) + 1) == Wrap32(n + 1)
  {
    var a := n - IntMin;
    var q := a / 0x1_0000_0000;
    var t := a % 0x1_0000_0000;
    assert a == q * 0x1_0000_0000 + t;
    if t < 0x1_0000_0000 - 1 {
      ModOfDecomposition(t + 1, 0, t + 1);
      ModOfDecomposition(a + 1, q, t + 1);
    } else {
      ModOfDecomposition(t + 1, 1, 0);
      ModOfDecomposition(a + 1, q + 1, 0);
    }
  }
}
