/**
 * The integer behaviour of the few JavaScript number operations the interview
 * components use: `Math.floor(a / b)`, the `%` operator, `Number.prototype.toString()`
 * on integers and `String.prototype.padStart`, plus a decimal reader that serves as
 * their inverse.
 */
module JsNumber {

  /** `Math.floor(a / b)` for a positive divisor: the largest q with q * b <= a. */
  function FloorDiv(a: int, b: int): (q: int)
    requires b > 0
    ensures q * b <= a < q * b + b
  {
    // Dafny's division is Euclidean, which coincides with flooring when b > 0.
    a / b
  }

  /**
   * JavaScript's `a % b` for a positive divisor: the remainder of truncating division,
   * which takes the sign of the dividend (so `-1 % 60` is `-1`, not `59`).
   */
  function JsRem(a: int, b: int): (r: int)
    requires b > 0
    ensures a >= 0 ==> 0 <= r < b && FloorDiv(a, b) * b + r == a
    ensures a < 0 ==> -b < r <= 0 && r - FloorDiv(-a, b) * b == a
  {
    if a >= 0 then a % b else -((-a) % b)
  }

  predicate IsDigit(c: char) {
    '0' <= c <= '9'
  }

  predicate AllDigits(s: string) {
    forall i :: 0 <= i < |s| ==> IsDigit(s[i])
  }

  function DigitChar(d: nat): (c: char)
    requires d < 10
    ensures IsDigit(c) && c as int - '0' as int == d
  {
    ('0' as int + d) as char
  }

  /** The decimal digits of n, most significant first, as `String(n)` writes a non-negative integer. */
  function NatToString(n: nat): (r: string)
    ensures |r| >= 1 && AllDigits(r)
    ensures r[0] == '0' ==> n == 0 && r == "0"
    decreases n
  {
    if n < 10 then [DigitChar(n)] else NatToString(n / 10) + [DigitChar(n % 10)]
  }

  /** `String(i)` for an integer: a minus sign before the digits of a negative number. */
  function IntToString(i: int): (r: string)
    ensures |r| >= 1
    ensures i >= 0 <==> AllDigits(r)
    ensures i < 0 <==> r[0] == '-'
    ensures i >= 0 ==> ParseNat(r) == i
    ensures i < 0 ==> AllDigits(r[1..]) && ParseNat(r[1..]) == -i
  {
    if i < 0 then
      var r := "-" + NatToString(-i);
      assert !IsDigit(r[0]);
      ParseNatToString(-i);
      assert r[1..] == NatToString(-i);
      r
    else
      ParseNatToString(i);
      NatToString(i)
  }

  /** The value of a string of decimal digits (leading zeros allowed; the empty string reads as 0). */
  function ParseNat(s: string): nat
    requires AllDigits(s)
    decreases |s|
  {
    if s == [] then 0 else 10 * ParseNat(s[..|s| - 1]) + (s[|s| - 1] as int - '0' as int)
  }

  /** Reading back what NatToString wrote gives the number. */
  lemma {:induction false} ParseNatToString(n: nat)
    ensures ParseNat(NatToString(n)) == n
    decreases n
  {
    if n >= 10 {
      var prefix := NatToString(n / 10);
      var s := prefix + [DigitChar(n % 10)];
      assert s[..|s| - 1] == prefix;
      ParseNatToString(n / 10);
    }
  }

  /** `c` repeated n times. */
  function Repeat(c: char, n: nat): (r: string)
  {
    seq(n, _ => c)
  }

  /** `s.padStart(target, fill)` with a one-character fill string. */
  function PadStart(s: string, target: nat, fill: char): (r: string)
    ensures |r| == if |s| >= target then |s| else target
    ensures r[|r| - |s|..] == s
    ensures forall i :: 0 <= i < |r| - |s| ==> r[i] == fill
  {
    if |s| >= target then s else Repeat(fill, target - |s|) + s
  }

  /** Two digit characters read as tens and units. */
  lemma ParseTwoDigits(hi: char, lo: char)
    requires IsDigit(hi) && IsDigit(lo)
    ensures ParseNat([hi, lo]) == 10 * (hi as int - '0' as int) + (lo as int - '0' as int)
  {
    assert [hi][..0] == [];
    assert ParseNat([hi]) == hi as int - '0' as int;
    assert [hi, lo][..1] == [hi];
  }

  /**
   * A non-negative number below 100, written and padded to two characters with '0',
   * is exactly two digits and reads back as the number.
   */
  lemma TwoDigitRoundTrip(n: nat)
    requires n < 100
    ensures var p := PadStart(NatToString(n), 2, '0');
      |p| == 2 && AllDigits(p) && ParseNat(p) == n
  {
    var p := PadStart(NatToString(n), 2, '0');
    if n < 10 {
      assert NatToString(n) == [DigitChar(n)];
      assert p == ['0', DigitChar(n)];
      ParseTwoDigits('0', DigitChar(n));
    } else {
      assert NatToString(n / 10) == [DigitChar(n / 10)];
      assert p == [DigitChar(n / 10), DigitChar(n % 10)];
      ParseTwoDigits(DigitChar(n / 10), DigitChar(n % 10));
    }
  }
}
