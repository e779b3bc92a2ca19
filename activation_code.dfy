/**
  The activation code of a pending registration: `Math.floor(1000 + Math.random() * 9000).toString()`.
  The random draw is a parameter (the integer part of `Math.random() * 9000`), and `toString` on a
  non-negative integer is modelled as its decimal digits without leading zeros, with `Parse` as its inverse.
 */
module ActivationCode {

  predicate IsDigit(c: char) {
    '0' <= c <= '9'
  }

  predicate AllDigits(s: string) {
    forall i :: 0 <= i < |s| ==> IsDigit(s[i])
  }

  function DigitChar(d: nat): (c: char)
    requires d < 10
    ensures IsDigit(c)
    ensures c == '0' <==> d == 0
  {
    ('0' as int + d) as char
  }

  function DigitValue(c: char): (d: nat)
    requires IsDigit(c)
    ensures d < 10 && DigitChar(d) == c
  {
    c as int - '0' as int
  }

  /** `n.toString()` for a non-negative integer. */
  function ToDecimal(n: nat): (s: string)
    ensures 1 <= |s| && AllDigits(s)
    ensures |s| == 1 <==> n < 10
    ensures s[0] == '0' ==> n == 0
    decreases n
  {
    if n < 10 then [DigitChar(n)] else ToDecimal(n / 10) + [DigitChar(n % 10)]
  }

  /** The value of a string of decimal digits. */
  function Parse(s: string): nat
    requires AllDigits(s)
  {
    if s == [] then 0 else Parse(s[..|s| - 1]) * 10 + DigitValue(s[|s| - 1])
  }

  /** A decimal numeral as `toString` writes it: digits only, and no leading zero unless it is "0". */
  predicate Canonical(s: string) {
    1 <= |s| && AllDigits(s) && (|s| > 1 ==> s[0] != '0')
  }

  function Pow10(k: nat): (p: nat)
    ensures p >= 1
  {
    if k == 0 then 1 else 10 * Pow10(k - 1)
  }

  /** The shape of every activation code: four digits, the first one not zero. */
  predicate IsCode(s: string) {
    |s| == 4 && Canonical(s)
  }

  /** The code drawn for a registration. */
  function FromDraw(draw: int): (code: string)
    requires 0 <= draw < 9000
    ensures IsCode(code)
    ensures AllDigits(code) && Parse(code) == 1000 + draw
  {
    assert Pow10(3) == 1000 && Pow10(4) == 10000;
    DecimalLength(1000 + draw, 4);
    ParseToDecimal(1000 + draw);
    ToDecimal(1000 + draw)
  }

  lemma {:induction false} ParseToDecimal(n: nat)
    ensures Parse(ToDecimal(n)) == n
    decreases n
  {
    if n >= 10 {
      ParseToDecimal(n / 10);
      var s := ToDecimal(n);
      assert s[..|s| - 1] == ToDecimal(n / 10);
    }
  }

  /** `toString` writes `n` with exactly `k` digits precisely when `10^(k-1) <= n < 10^k`. */
  lemma {:induction false} DecimalLength(n: nat, k: nat)
    requires k >= 1
    ensures |ToDecimal(n)| == k <==> (k == 1 || Pow10(k - 1) <= n) && n < Pow10(k)
    decreases k
  {
    if k > 1 {
      if n >= 10 {
        DecimalLength(n / 10, k - 1);
        if k - 1 > 1 {
          assert Pow10(k - 2) <= n / 10 <==> Pow10(k - 1) <= n;
        }
        assert n / 10 < Pow10(k - 1) <==> n < Pow10(k);
      }
    }
  }

  /** The other half of the round trip: a canonical numeral is what `toString` writes for its value. */
  lemma {:induction false} ToDecimalParse(s: string)
    requires Canonical(s)
    ensures ToDecimal(Parse(s)) == s
    decreases |s|
  {
    var n := Parse(s);
    var last := s[|s| - 1];
    if |s| == 1 {
      assert s == [last];
    } else {
      var init := s[..|s| - 1];
      assert init[0] == s[0];
      ToDecimalParse(init);
      var m := Parse(init);
      assert ToDecimal(0) == ['0'];
      assert m != 0;
      assert n / 10 == m && n % 10 == DigitValue(last);
      assert s == init + [last];
    }
  }

  /** Every four-digit code with a non-zero first digit is drawn by exactly one draw. */
  lemma CodeHasDraw(code: string)
    requires IsCode(code)
    ensures 0 <= Parse(code) - 1000 < 9000
    ensures FromDraw(Parse(code) - 1000) == code
  {
    ToDecimalParse(code);
    assert Pow10(3) == 1000 && Pow10(4) == 10000;
    DecimalLength(Parse(code), 4);
  }
}
