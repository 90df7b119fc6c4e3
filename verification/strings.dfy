/**
 * The few pieces of JavaScript string behaviour the model relies on:
 * `${n}` for integers, `String(n).padStart(2, "0")`, `startsWith`,
 * `includes` and `substring(0, n)`, together with the facts about them
 * that the rest of the model uses (round trips, lengths, separators).
 */
module Strings {

  predicate IsDigit(c: char) {
    '0' <= c <= '9'
  }

  predicate AllDigits(s: string) {
    forall i :: 0 <= i < |s| ==> IsDigit(s[i])
  }

  function DigitChar(d: nat): (c: char)
    requires d < 10
    ensures IsDigit(c)
  {
    ('0' as int + d) as char
  }

  function DigitValue(c: char): nat
    requires IsDigit(c)
  {
    c as int - '0' as int
  }

  /** The value of a string of decimal digits, read left to right (leading zeros allowed). */
  function ParseDigits(s: string): nat
    requires AllDigits(s)
  {
    if |s| == 0 then 0 else 10 * ParseDigits(s[..|s| - 1]) + DigitValue(s[|s| - 1])
  }

  /** JavaScript's `${n}` for a non-negative integer: decimal, no leading zeros. */
  function NatToString(n: nat): (r: string)
    ensures 1 <= |r| && (n < 10 <==> |r| == 1)
  {
    if n < 10 then [DigitChar(n)] else NatToString(n / 10) + [DigitChar(n % 10)]
  }

  /** Reading the numeral back gives the number: `${n}` loses nothing. */
  lemma {:induction false} NatToStringDigits(n: nat)
    ensures AllDigits(NatToString(n)) && ParseDigits(NatToString(n)) == n
  {
    if n >= 10 {
      NatToStringDigits(n / 10);
      var r := NatToString(n);
      assert r[..|r| - 1] == NatToString(n / 10);
    }
  }

  /** JavaScript's `${i}` for any integer. */
  function IntToString(i: int): (r: string)
    ensures 1 <= |r|
    ensures r[0] == '-' <==> i < 0
    ensures i >= 0 ==> r == NatToString(i)
  {
    if i < 0 then
      "-" + NatToString(-i)
    else
      NatToStringDigits(i);
      assert NatToString(i)[0] != '-';
      NatToString(i)
  }

  /** `String(n).padStart(2, "0")`: two digits below 100, the plain numeral otherwise. */
  function PadStart2(n: nat): (r: string)
    ensures n < 100 ==> |r| == 2
    ensures n >= 10 ==> r == NatToString(n)
    ensures n < 10 ==> r == "0" + NatToString(n)
  {
    if n < 10 then "0" + NatToString(n) else NatToString(n)
  }

  /** The padded numeral reads back as the number. */
  lemma PadStart2Digits(n: nat)
    ensures AllDigits(PadStart2(n)) && ParseDigits(PadStart2(n)) == n
  {
    NatToStringDigits(n);
    if n < 10 {
      var r := PadStart2(n);
      assert r[..1] == "0";
      assert r[1..] == NatToString(n);
      PrependZero(NatToString(n));
    }
  }

  /** A leading zero does not change the value of a numeral. */
  lemma {:induction false} PrependZero(s: string)
    requires AllDigits(s)
    ensures AllDigits("0" + s) && ParseDigits("0" + s) == ParseDigits(s)
  {
    if |s| > 0 {
      var z := "0" + s;
      assert z[..|z| - 1] == "0" + s[..|s| - 1];
      PrependZero(s[..|s| - 1]);
    }
  }

  predicate StartsWith(s: string, prefix: string) {
    |prefix| <= |s| && s[..|prefix|] == prefix
  }

  predicate EndsWith(s: string, suffix: string) {
    |suffix| <= |s| && s[|s| - |suffix|..] == suffix
  }

  /** `s.includes(t)`: some position of `s` starts an occurrence of `t`. */
  function Contains(s: string, t: string): (r: bool)
    ensures r <==> exists i :: 0 <= i <= |s| && StartsWith(s[i..], t)
  {
    if StartsWith(s, t) then
      assert StartsWith(s[0..], t);
      true
    else if |s| == 0 then
      false
    else
      var r := Contains(s[1..], t);
      assert forall i :: 1 <= i <= |s| ==> s[1..][i - 1..] == s[i..];
      r
  }

  /** `s.substring(0, n)`. */
  function Take(s: string, n: nat): (r: string)
    ensures |r| == if |s| < n then |s| else n
    ensures StartsWith(s, r)
  {
    if |s| <= n then s else s[..n]
  }

  /**
   * A string that does not contain the separator `c` is recovered from the
   * concatenation `a + [c] + x`: everything before the first `c`.
   */
  lemma {:induction false} SplitAtSeparator(a: string, x: string, b: string, y: string, c: char)
    requires c !in a && c !in b
    requires a + [c] + x == b + [c] + y
    ensures a == b && x == y
  {
    var u := a + [c] + x;
    assert u[|a|] == c && (b + [c] + y)[|b|] == c;
    assert |a| == |b|;
    assert a == u[..|a|] == b;
    assert x == u[|a| + 1..] == y;
  }

  lemma NatToStringInjective(m: nat, n: nat)
    requires NatToString(m) == NatToString(n)
    ensures m == n
  {
    NatToStringDigits(m);
    NatToStringDigits(n);
  }

  lemma {:induction false} IntToStringInjective(i: int, j: int)
    requires IntToString(i) == IntToString(j)
    ensures i == j
  {
    if i < 0 && j < 0 {
      assert NatToString(-i) == IntToString(i)[1..] == NatToString(-j);
      NatToStringInjective(-i, -j);
    } else if i < 0 || j < 0 {
      assert false;
    } else {
      NatToStringInjective(i, j);
    }
  }

  lemma PadStart2Injective(m: nat, n: nat)
    requires PadStart2(m) == PadStart2(n)
    ensures m == n
  {
    PadStart2Digits(m);
    PadStart2Digits(n);
  }

  /** Three-digit numbers (every HTTP status code) print as exactly three digits. */
  lemma ThreeDigits(n: nat)
    requires 100 <= n < 1000
    ensures |NatToString(n)| == 3
  {
    assert |NatToString(n / 100)| == 1;
  }

  /**
   * An occurrence of `t` cannot start inside a prefix that lacks `t`'s first
   * character, so only the rest of the string matters.
   */
  lemma {:induction false} ContainsAfterPrefix(p: string, x: string, t: string)
    requires |t| > 0 && t[0] !in p
    ensures Contains(p + x, t) <==> Contains(x, t)
  {
    var s := p + x;
    if Contains(s, t) {
      var i :| 0 <= i <= |s| && StartsWith(s[i..], t);
      if i < |p| {
        assert false;
      }
      assert s[i..] == x[i - |p|..];
    }
    if Contains(x, t) {
      var i :| 0 <= i <= |x| && StartsWith(x[i..], t);
      assert s[|p| + i..] == x[i..];
    }
  }

  /** Between strings of equal length, containment is equality. */
  lemma ContainsSameLength(x: string, t: string)
    requires |x| == |t|
    ensures Contains(x, t) <==> x == t
  {
    if x == t {
      assert StartsWith(x[0..], t);
    }
  }

  predicate NoDigits(s: string) {
    forall i :: 0 <= i < |s| ==> !IsDigit(s[i])
  }

  /** Joining two texts without digits gives a text without digits. */
  lemma NoDigitsAppend(a: string, b: string)
    requires NoDigits(a) && NoDigits(b)
    ensures NoDigits(a + b)
  {
    forall i | 0 <= i < |a + b| ensures !IsDigit((a + b)[i]) {
      if i >= |a| {
        assert (a + b)[i] == b[i - |a|];
      }
    }
  }

  /** Text without digits contains no numeral. */
  lemma NoNumeralWithoutDigits(s: string, t: string)
    requires NoDigits(s) && |t| > 0 && IsDigit(t[0])
    ensures !Contains(s, t)
  {
    ContainsAfterPrefix(s, "", t);
    assert s + "" == s;
  }

  /**
   * Behind a prefix without digits, a three-digit number contains the
   * numeral of another three-digit number only when the two are equal.
   */
  lemma NumeralAfterText(p: string, n: nat, code: nat)
    requires NoDigits(p) && 100 <= n < 1000 && 100 <= code < 1000
    ensures Contains(p + NatToString(n), NatToString(code)) <==> n == code
  {
    ThreeDigits(n);
    ThreeDigits(code);
    NatToStringDigits(code);
    ContainsAfterPrefix(p, NatToString(n), NatToString(code));
    ContainsSameLength(NatToString(n), NatToString(code));
    if NatToString(n) == NatToString(code) {
      NatToStringInjective(n, code);
    }
  }
}
