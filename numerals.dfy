/** Decimal rendering of non-negative integers, as a template literal renders a Number. */
module Numerals {

  predicate IsDigit(c: char) {
    '0' <= c <= '9'
  }

  predicate AllDigits(s: string) {
    forall k :: 0 <= k < |s| ==> IsDigit(s[k])
  }

  function Digit(d: nat): char
    requires d < 10
  {
    ('0' as int + d) as char
  }

  /** The shortest decimal form of n: non-empty, all digits, a leading '0' only for 0 itself. */
  function Decimal(n: nat): (s: string)
    ensures |s| > 0 && AllDigits(s)
    ensures s[0] == '0' <==> n == 0
  {
    if n < 10 then [Digit(n)] else Decimal(n / 10) + [Digit(n % 10)]
  }

  /** Numbers from 100 to 999, and only they, take three digits, the first being the hundreds. */
  lemma {:induction false} ThreeDigits(n: nat)
    ensures |Decimal(n)| == 3 <==> 100 <= n <= 999
    ensures |Decimal(n)| == 3 ==> Decimal(n)[0] == Digit(n / 100)
  {
    if n >= 1000 {
      ThreeDigits(n / 10);
    } else if n >= 100 {
      assert Decimal(n / 10)[0] == Decimal(n / 100)[0];
    }
  }

  /** The number a string of decimal digits denotes. */
  function ValueOf(s: string): nat
    requires AllDigits(s)
  {
    if s == [] then 0 else 10 * ValueOf(s[..|s| - 1]) + (s[|s| - 1] as int - '0' as int)
  }

  /** Reading back the decimal form of n gives n. */
  lemma {:induction false} DecimalRoundTrip(n: nat)
    ensures ValueOf(Decimal(n)) == n
  {
    if n >= 10 {
      DecimalRoundTrip(n / 10);
      var s := Decimal(n);
      assert s[..|s| - 1] == Decimal(n / 10);
    }
  }

  /** A digit string with no superfluous leading zero is the decimal form of its value. */
  lemma {:induction false} DecimalOfCanonical(d: string)
    requires |d| > 0 && AllDigits(d)
    requires |d| == 1 || d[0] != '0'
    ensures Decimal(ValueOf(d)) == d
  {
    var c := d[|d| - 1] as int - '0' as int;
    if |d| > 1 {
      var p := d[..|d| - 1];
      assert p[0] == d[0];
      DecimalOfCanonical(p);
      var v := ValueOf(p);
      assert v != 0;
      var n := 10 * v + c;
      assert n / 10 == v && n % 10 == c;
      assert d == p + [Digit(c)];
    }
  }

  /** The number of decimal digits at the start of s. */
  function DigitRun(s: string): (k: nat)
    ensures k <= |s| && AllDigits(s[..k])
    ensures k < |s| ==> !IsDigit(s[k])
  {
    if |s| > 0 && IsDigit(s[0]) then
      var k := DigitRun(s[1..]);
      assert s[..k + 1] == [s[0]] + s[1..][..k];
      k + 1
    else
      0
  }

  /** A run of digits followed by a non-digit is read back whole. */
  lemma {:induction false} DigitRunOfDigits(d: string, t: string)
    requires AllDigits(d)
    requires |t| > 0 && !IsDigit(t[0])
    ensures DigitRun(d + t) == |d|
  {
    if |d| > 0 {
      assert (d + t)[1..] == d[1..] + t;
      DigitRunOfDigits(d[1..], t);
    } else {
      assert d + t == t;
    }
  }
}
