/** Printing and reading decimal numerals, shared by person IDs and timestamps. */
module Decimal {
  import opened Text

  function Pow10(w: nat): (r: nat)
    ensures r > 0
  {
    if w == 0 then 1 else 10 * Pow10(w - 1)
  }

  predicate IsDigit(c: char) {
    '0' <= c <= '9'
  }

  predicate AllDigits(s: string) {
    forall c | c in s :: IsDigit(c)
  }

  function DigitChar(d: nat): (c: char)
    requires d < 10
  {
    ('0' as int + d) as char
  }

  function DigitValue(c: char): nat
    requires IsDigit(c)
  {
    c as int - '0' as int
  }

  /** The numeral fmt prints for n under the verb %0wd. */
  function ZeroPad(n: nat, w: nat): string
    decreases n + w
  {
    if n < 10 && w <= 1 then [DigitChar(n)]
    else ZeroPad(n / 10, if w == 0 then 0 else w - 1) + [DigitChar(n % 10)]
  }

  function ValueOf(s: string): nat
    requires AllDigits(s)
  {
    if s == "" then 0 else ValueOf(s[..|s| - 1]) * 10 + DigitValue(s[|s| - 1])
  }

  lemma ReadsAppend(front: string, n: nat, d: nat)
    requires AllDigits(front) && ValueOf(front) == n && d < 10
    ensures var s := front + [DigitChar(d)];
            AllDigits(s) && ValueOf(s) == n * 10 + d
  {
    var s := front + [DigitChar(d)];
    assert s[..|s| - 1] == front;
  }

  /** Reading a printed numeral gives the number back, at every width. */
  lemma {:induction false} ZeroPadReads(n: nat, w: nat)
    ensures ZeroPad(n, w) != "" && AllDigits(ZeroPad(n, w)) && ValueOf(ZeroPad(n, w)) == n
    decreases n + w
  {
    if n < 10 && w <= 1 {
      assert ZeroPad(n, w)[..0] == "";
    } else {
      var front := ZeroPad(n / 10, if w == 0 then 0 else w - 1);
      ZeroPadReads(n / 10, if w == 0 then 0 else w - 1);
      ReadsAppend(front, n / 10, n % 10);
    }
  }

  /** A number that fits in w digits is printed with exactly w of them. */
  lemma {:induction false} ZeroPadWidth(n: nat, w: nat)
    requires 0 < w && n < Pow10(w)
    ensures |ZeroPad(n, w)| == w
    decreases w
  {
    if w == 1 {
      assert Pow10(1) == 10 * Pow10(0);
    } else {
      ZeroPadWidth(n / 10, w - 1);
    }
  }

  /** Fixed-width numerals compare as strings the way the numbers compare. */
  lemma {:induction false} ZeroPadOrder(n: nat, m: nat, w: nat, x: string, y: string)
    requires 0 < w && n < Pow10(w) && m < Pow10(w)
    ensures Less(ZeroPad(n, w) + x, ZeroPad(m, w) + y) <==> n < m || (n == m && Less(x, y))
    decreases w
  {
    var n0, m0 := [DigitChar(n % 10)], [DigitChar(m % 10)];
    assert (n0 + x)[1..] == x && (m0 + y)[1..] == y;
    if w == 1 {
      assert Pow10(1) == 10 * Pow10(0);
    } else {
      assert ZeroPad(n, w) + x == ZeroPad(n / 10, w - 1) + (n0 + x);
      assert ZeroPad(m, w) + y == ZeroPad(m / 10, w - 1) + (m0 + y);
      assert Pow10(w) == 10 * Pow10(w - 1);
      hide ZeroPad, Pow10;
      ZeroPadOrder(n / 10, m / 10, w - 1, n0 + x, m0 + y);
    }
  }

  lemma ZeroPadAppend(n: nat, d: nat, w: nat)
    requires d < 10 && 1 < w
    ensures ZeroPad(n * 10 + d, w) == ZeroPad(n, w - 1) + [DigitChar(d)]
  {
    assert (n * 10 + d) / 10 == n && (n * 10 + d) % 10 == d;
  }

  /** Every non-empty digit string is the numeral of its value at its own width. */
  lemma {:induction false} ZeroPadRestores(s: string)
    requires s != "" && AllDigits(s)
    ensures ValueOf(s) < Pow10(|s|) && ZeroPad(ValueOf(s), |s|) == s
  {
    var k := |s| - 1;
    assert s == s[..k] + [s[k]];
    assert IsDigit(s[k]) && DigitChar(DigitValue(s[k])) == s[k];
    assert Pow10(|s|) == 10 * Pow10(k);
    if k == 0 {
      assert ValueOf(s[..k]) == 0;
      assert ValueOf(s) == DigitValue(s[k]);
    } else {
      assert AllDigits(s[..k]);
      assert ValueOf(s) == ValueOf(s[..k]) * 10 + DigitValue(s[k]);
      hide ValueOf, Pow10, ZeroPad;
      ZeroPadRestores(s[..k]);
      ZeroPadAppend(ValueOf(s[..k]), DigitValue(s[k]), |s|);
    }
  }
}
