/** Integers as the client writes and reads them as text: `String(n)` for a
    whole number and `parseInt(s, 10)`. */
module Decimal {
  import opened Strings

  /** A JavaScript number restricted to whole values, plus `NaN`. */
  datatype Num = NaN | Finite(n: int)

  /** JavaScript truthiness of a number: `0` and `NaN` are falsy. */
  predicate Truthy(x: Num) {
    x.Finite? && x.n != 0
  }

  predicate IsDigit(c: char) {
    '0' <= c <= '9'
  }

  predicate AllDigits(s: string) {
    forall i :: 0 <= i < |s| ==> IsDigit(s[i])
  }

  function DigitChar(d: nat): (c: char)
    requires d < 10
    ensures IsDigit(c)
  {
    ('0' as int + d) as char
  }

  function DigitValue(c: char): (d: nat)
    requires IsDigit(c)
    ensures d < 10
  {
    c as int - '0' as int
  }

  /** Decimal digits of a natural number, most significant first, without
      leading zeros. */
  function NatToString(n: nat): (s: string)
    ensures s != [] && AllDigits(s)
    ensures s[0] == '0' ==> n == 0
  {
    if n < 10 then [DigitChar(n)] else NatToString(n / 10) + [DigitChar(n % 10)]
  }

  /** `String(n)` for a whole number: decimal digits, after a '-' for a
      negative number. */
  function IntToString(n: int): (s: string)
    ensures s != []
    ensures n >= 0 ==> AllDigits(s)
    ensures n < 0 ==> s[0] == '-' && |s| >= 2 && AllDigits(s[1..])
  {
    if n < 0 then "-" + NatToString(-n) else NatToString(n)
  }

  /** The value of a run of decimal digits. */
  function DigitsValue(s: string): nat
    requires AllDigits(s)
  {
    if s == [] then 0 else DigitsValue(s[..|s| - 1]) * 10 + DigitValue(s[|s| - 1])
  }

  /** Length of the longest run of digits at the start of `s`. */
  function DigitRun(s: string): (k: nat)
    ensures k <= |s| && AllDigits(s[..k])
    ensures k < |s| ==> !IsDigit(s[k])
  {
    if s != [] && IsDigit(s[0]) then
      var k := 1 + DigitRun(s[1..]);
      assert s[..k] == [s[0]] + s[1..][..k - 1];
      k
    else 0
  }

  /** `parseInt(s, 10)`: leading whitespace is skipped, one sign is allowed, and
      the longest run of digits after it is read; no digits give `NaN`. */
  function ParseInt(s: string): (r: Num)
    ensures AllSpace(s) ==> r == NaN
    ensures s != [] && AllDigits(s) ==> r == Finite(DigitsValue(s))
  {
    PlainDigits(s);
    var t := TrimStart(s);
    var negative := t != [] && t[0] == '-';
    var body := if t != [] && (t[0] == '-' || t[0] == '+') then t[1..] else t;
    var k := DigitRun(body);
    if k == 0 then NaN
    else if negative then Finite(-(DigitsValue(body[..k]) as int))
    else Finite(DigitsValue(body[..k]))
  }

  /** A plain run of digits is read whole: nothing is trimmed and no sign
      is skipped. */
  lemma PlainDigits(s: string)
    ensures s != [] && AllDigits(s) ==> TrimStart(s) == s && DigitRun(s) == |s| && s[..|s|] == s
  {
    if s != [] && AllDigits(s) {
      assert !IsJsSpace(s[0]);
      AllDigitsRun(s);
    }
  }

  lemma {:induction false} DigitsOfNat(n: nat)
    ensures DigitsValue(NatToString(n)) == n
    ensures DigitRun(NatToString(n)) == |NatToString(n)|
  {
    var s := NatToString(n);
    if n >= 10 {
      DigitsOfNat(n / 10);
      var p := NatToString(n / 10);
      assert s[..|s| - 1] == p;
    }
    AllDigitsRun(s);
  }

  lemma {:induction false} AllDigitsRun(s: string)
    requires AllDigits(s)
    ensures DigitRun(s) == |s|
  {
    if s != [] {
      AllDigitsRun(s[1..]);
    }
  }

  /** Reading back what `String(n)` wrote gives `n`: the stored expiry
      timestamp survives its trip through the string store. */
  lemma ParseIntOfString(n: int)
    ensures ParseInt(IntToString(n)) == Finite(n)
  {
    var s := IntToString(n);
    var digits := NatToString(if n < 0 then -n else n);
    DigitsOfNat(if n < 0 then -n else n);
    assert TrimStart(s) == s by {
      assert !IsJsSpace(s[0]);
    }
    if n < 0 {
      assert s[1..] == digits;
    }
    assert digits[..|digits|] == digits;
  }
}
