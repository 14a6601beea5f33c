/** The byte form of text, which SQLite stores and compares. */
module Utf8 {
  import opened Text

  function EncodeChar(c: char): seq<nat> {
    var n := c as int;
    if n < 0x80 then [n]
    else if n < 0x800 then [0xC0 + n / 0x40, 0x80 + n % 0x40]
    else if n < 0x1_0000 then [0xE0 + n / 0x1000, 0x80 + n / 0x40 % 0x40, 0x80 + n % 0x40]
    else [0xF0 + n / 0x4_0000, 0x80 + n / 0x1000 % 0x40, 0x80 + n / 0x40 % 0x40, 0x80 + n % 0x40]
  }

  function Encode(s: string): seq<nat> {
    if s == "" then [] else EncodeChar(s[0]) + Encode(s[1..])
  }

  /** memcmp, the shorter first where one is the beginning of the other. */
  predicate BytesLess(a: seq<nat>, b: seq<nat>) {
    b != [] && (a == [] || a[0] < b[0] || (a[0] == b[0] && BytesLess(a[1..], b[1..])))
  }

  /** The size NOCASE compares is the number of bytes. */
  lemma {:induction false} SizeIsBytes(s: string)
    ensures |Encode(s)| == Utf8Size(s)
  {
    if s != "" {
      SizeIsBytes(s[1..]);
    }
  }

  lemma {:induction false} BytesSamePrefix(p: seq<nat>, a: seq<nat>, b: seq<nat>)
    ensures BytesLess(p + a, p + b) <==> BytesLess(a, b)
  {
    if p == [] {
      assert p + a == a && p + b == b;
    } else {
      assert (p + a)[1..] == p[1..] + a && (p + b)[1..] == p[1..] + b;
      BytesSamePrefix(p[1..], a, b);
    }
  }

  /** The first byte at which two sequences differ decides. */
  lemma {:induction false} FirstDifference(a: seq<nat>, b: seq<nat>, k: nat)
    requires k < |a| && k < |b| && a[..k] == b[..k] && a[k] != b[k]
    ensures BytesLess(a, b) <==> a[k] < b[k]
  {
    if k > 0 {
      assert a[0] == a[..k][0] == b[..k][0] == b[0];
      assert a[1..][..k - 1] == a[..k][1..] && b[1..][..k - 1] == b[..k][1..];
      FirstDifference(a[1..], b[1..], k - 1);
    }
  }

  lemma DigitsDiffer(n: nat, m: nat)
    requires n < m
    ensures n / 0x40 < m / 0x40 || (n / 0x40 == m / 0x40 && n % 0x40 < m % 0x40)
  {
  }

  /** The leading digits of n in base 64. */
  lemma Leading(n: nat)
    ensures n / 0x1000 == n / 0x40 / 0x40 && n / 0x4_0000 == n / 0x1000 / 0x40
  {
  }

  function Digit(n: nat, size: nat, k: nat): nat
    requires 2 <= size <= 4 && k < size
  {
    if k == size - 1 then n % 0x40
    else if k == 0 then (if size == 2 then n / 0x40 else if size == 3 then n / 0x1000 else n / 0x4_0000)
    else if k == size - 2 then n / 0x40 % 0x40
    else n / 0x1000 % 0x40
  }

  lemma SameSizeDiffers(n: nat, m: nat, size: nat) returns (k: nat)
    requires n < m && 2 <= size <= 4
    ensures k < size && Digit(n, size, k) < Digit(m, size, k)
    ensures forall i | 0 <= i < k :: Digit(n, size, i) == Digit(m, size, i)
  {
    Leading(n);
    Leading(m);
    DigitsDiffer(n, m);
    if n / 0x40 == m / 0x40 {
      k := size - 1;
    } else if size == 2 {
      k := 0;
    } else {
      DigitsDiffer(n / 0x40, m / 0x40);
      if n / 0x1000 == m / 0x1000 {
        k := size - 2;
      } else if size == 3 {
        k := 0;
      } else {
        DigitsDiffer(n / 0x1000, m / 0x1000);
        k := if n / 0x4_0000 == m / 0x4_0000 then 1 else 0;
      }
    }
  }

  function Lead(size: nat, k: nat): nat {
    if k > 0 then 0x80 else if size == 2 then 0xC0 else if size == 3 then 0xE0 else 0xF0
  }

  lemma FormDigits(c: char, k: nat)
    requires 1 < |EncodeChar(c)| && k < |EncodeChar(c)|
    ensures 2 <= |EncodeChar(c)| <= 4
    ensures EncodeChar(c)[k] == Lead(|EncodeChar(c)|, k) + Digit(c as int, |EncodeChar(c)|, k)
  {
  }

  /** Where the forms of two characters first differ, and how. */
  lemma CharsDiffer(c: char, d: char) returns (k: nat)
    requires c < d
    ensures var x, y := EncodeChar(c), EncodeChar(d);
            k < |x| && k < |y| && x[..k] == y[..k] && x[k] < y[k]
  {
    var x, y := EncodeChar(c), EncodeChar(d);
    k := 0;
    if |x| == |y| && |x| > 1 {
      var size := |x|;
      FormDigits(c, 0);
      hide EncodeChar, Digit;
      k := SameSizeDiffers(c as int, d as int, size);
      FormDigits(c, k);
      FormDigits(d, k);
      forall i | 0 <= i < k
        ensures x[i] == y[i]
      {
        FormDigits(c, i);
        FormDigits(d, i);
      }
    } else {
      SizesDiffer(c, d);
    }
  }

  lemma SizesDiffer(c: char, d: char)
    requires c < d && (|EncodeChar(c)| != |EncodeChar(d)| || |EncodeChar(c)| == 1)
    ensures EncodeChar(c)[0] < EncodeChar(d)[0]
  {
  }

  /** Comparing bytes is comparing code points. */
  lemma {:induction false} OrderIsBytes(a: string, b: string)
    ensures Less(a, b) <==> BytesLess(Encode(a), Encode(b))
  {
    if a != "" && b != "" {
      var x, y := EncodeChar(a[0]), EncodeChar(b[0]);
      if a[0] == b[0] {
        BytesSamePrefix(x, Encode(a[1..]), Encode(b[1..]));
        OrderIsBytes(a[1..], b[1..]);
      } else if a[0] < b[0] {
        var k := CharsDiffer(a[0], b[0]);
        assert Encode(a)[..k] == x[..k] && Encode(b)[..k] == y[..k];
        FirstDifference(Encode(a), Encode(b), k);
      } else {
        var k := CharsDiffer(b[0], a[0]);
        assert Encode(a)[..k] == x[..k] && Encode(b)[..k] == y[..k];
        FirstDifference(Encode(a), Encode(b), k);
      }
    }
  }
}
