/** Strings as the Go code and SQLite see them: white-space trimming, the ASCII-only
    case folding of SQLite's lower() and LIKE, and the byte order of the BINARY collation. */
module Text {

  datatype Option<+T> = None | Some(value: T)

  /** The code points unicode.IsSpace accepts, which strings.TrimSpace removes. */
  predicate IsSpace(c: char) {
    var n := c as int;
    || 9 <= n <= 13
    || n in {0x20, 0x85, 0xA0, 0x1680, 0x2028, 0x2029, 0x202F, 0x205F, 0x3000}
    || 0x2000 <= n <= 0x200A
  }

  function TrimLeft(s: string): string {
    if s != "" && IsSpace(s[0]) then TrimLeft(s[1..]) else s
  }

  function TrimRight(s: string): string {
    if s != "" && IsSpace(s[|s| - 1]) then TrimRight(s[..|s| - 1]) else s
  }

  function Trim(s: string): string {
    TrimRight(TrimLeft(s))
  }

  /** A string that neither starts nor ends with white space. */
  predicate Bare(s: string) {
    s != "" ==> !IsSpace(s[0]) && !IsSpace(s[|s| - 1])
  }

  lemma {:induction false} TrimLeftStarts(s: string)
    ensures TrimLeft(s) != "" ==> !IsSpace(TrimLeft(s)[0])
  {
    if s != "" && IsSpace(s[0]) {
      TrimLeftStarts(s[1..]);
    }
  }

  lemma {:induction false} TrimRightEnds(s: string)
    ensures var r := TrimRight(s);
            r <= s && (r != "" ==> !IsSpace(r[|r| - 1]))
  {
    if s != "" && IsSpace(s[|s| - 1]) {
      TrimRightEnds(s[..|s| - 1]);
    }
  }

  /** Trimming always yields a bare string, and leaves a bare string alone. */
  lemma TrimIsBare(s: string)
    ensures Bare(Trim(s))
    ensures Bare(s) ==> Trim(s) == s
    ensures Trim(Trim(s)) == Trim(s)
  {
    TrimLeftStarts(s);
    TrimRightEnds(TrimLeft(s));
  }

  /** SQLite folds the 26 ASCII capitals and nothing else. */
  function LowerChar(c: char): char {
    if 'A' <= c <= 'Z' then (c as int + 32) as char else c
  }

  function Lower(s: string): string {
    seq(|s|, i requires 0 <= i < |s| => LowerChar(s[i]))
  }

  /** Strict lexicographic order by code point, which on UTF-8 text is memcmp order. */
  predicate Less(a: string, b: string) {
    b != "" && (a == "" || a[0] < b[0] || (a[0] == b[0] && Less(a[1..], b[1..])))
  }

  lemma {:induction false} LessTotal(a: string, b: string)
    ensures !(Less(a, b) && Less(b, a))
    ensures a == b || Less(a, b) || Less(b, a)
    ensures !Less(a, a)
  {
    if a != "" {
      LessTotal(a[1..], a[1..]);
      if b != "" {
        LessTotal(a[1..], b[1..]);
        assert a == [a[0]] + a[1..] && b == [b[0]] + b[1..];
      }
    }
  }

  lemma {:induction false} LessTransitive(a: string, b: string, c: string)
    requires Less(a, b) && Less(b, c)
    ensures Less(a, c)
  {
    if a != "" && a[0] == b[0] == c[0] {
      LessTransitive(a[1..], b[1..], c[1..]);
    }
  }

  /** A common prefix does not affect the order. */
  lemma {:induction false} LessSamePrefix(p: string, a: string, b: string)
    ensures Less(p + a, p + b) <==> Less(a, b)
  {
    if p == "" {
      assert p + a == a && p + b == b;
    } else {
      assert (p + a)[1..] == p[1..] + a && (p + b)[1..] == p[1..] + b;
      LessSamePrefix(p[1..], a, b);
    }
  }

  /** Two strings that already differ within both keep their order whatever follows. */
  lemma {:induction false} LessDecided(a: string, b: string, x: string, y: string)
    requires !(a <= b) && !(b <= a)
    ensures Less(a + x, b + y) <==> Less(a, b)
  {
    if a[0] == b[0] {
      assert (a + x)[1..] == a[1..] + x && (b + y)[1..] == b[1..] + y;
      assert a == [a[0]] + a[1..] && b == [b[0]] + b[1..];
      assert !(a[1..] <= b[1..]) && !(b[1..] <= a[1..]);
      LessDecided(a[1..], b[1..], x, y);
    }
  }

  // ---- what these functions mean, without naming them ----

  /** The code points with the Unicode property White_Space. */
  const WHITE_SPACE: set<int> := {
    0x09, 0x0A, 0x0B, 0x0C, 0x0D, 0x20, 0x85, 0xA0, 0x1680, 0x2000, 0x2001, 0x2002, 0x2003, 0x2004, 0x2005,
    0x2006, 0x2007, 0x2008, 0x2009, 0x200A, 0x2028, 0x2029, 0x202F, 0x205F, 0x3000}

  predicate Blank(s: string) {
    forall k | 0 <= k < |s| :: s[k] as int in WHITE_SPACE
  }

  predicate Edged(s: string) {
    s != "" ==> s[0] as int !in WHITE_SPACE && s[|s| - 1] as int !in WHITE_SPACE
  }

  lemma SpaceIsWhite(c: char)
    ensures IsSpace(c) <==> c as int in WHITE_SPACE
  {
  }

  lemma {:induction false} TrimLeftSkips(a: string, x: string)
    requires Blank(a)
    ensures TrimLeft(a + x) == TrimLeft(x)
  {
    if a == "" {
      assert a + x == x;
    } else {
      assert (a + x)[1..] == a[1..] + x;
      SpaceIsWhite(a[0]);
      TrimLeftSkips(a[1..], x);
    }
  }

  lemma {:induction false} TrimRightSkips(x: string, b: string)
    requires Blank(b)
    ensures TrimRight(x + b) == TrimRight(x)
  {
    if b == "" {
      assert x + b == x;
    } else {
      var n := |b| - 1;
      assert (x + b)[..|x + b| - 1] == x + b[..n];
      SpaceIsWhite(b[n]);
      TrimRightSkips(x, b[..n]);
    }
  }

  lemma {:induction false} TrimLeftCuts(s: string) returns (a: string)
    ensures Blank(a) && s == a + TrimLeft(s)
  {
    a := "";
    if s != "" && IsSpace(s[0]) {
      SpaceIsWhite(s[0]);
      a := TrimLeftCuts(s[1..]);
      a := [s[0]] + a;
    }
  }

  lemma {:induction false} TrimRightCuts(s: string) returns (b: string)
    ensures Blank(b) && s == TrimRight(s) + b
  {
    b := "";
    if s != "" && IsSpace(s[|s| - 1]) {
      SpaceIsWhite(s[|s| - 1]);
      b := TrimRightCuts(s[..|s| - 1]);
      b := b + [s[|s| - 1]];
    }
  }

  lemma TrimOfCut(a: string, r: string, b: string)
    requires Edged(r) && Blank(a) && Blank(b)
    ensures Trim(a + r + b) == r
  {
    assert a + r + b == a + (r + b);
    TrimLeftSkips(a, r + b);
    if r == "" {
      assert r + b == b + "";
      TrimLeftSkips(b, "");
    } else {
      SpaceIsWhite(r[0]);
      SpaceIsWhite(r[|r| - 1]);
      TrimRightSkips(r, b);
    }
  }

  lemma TrimCuts(s: string) returns (a: string, b: string)
    ensures Edged(Trim(s)) && Blank(a) && Blank(b) && s == a + Trim(s) + b
  {
    hide TrimLeft, TrimRight, IsSpace, Blank, Edged;
    a := TrimLeftCuts(s);
    b := TrimRightCuts(TrimLeft(s));
    TrimIsBare(s);
    BareIsEdged(Trim(s));
  }

  lemma BareIsEdged(r: string)
    requires Bare(r)
    ensures Edged(r)
  {
    if r != "" {
      SpaceIsWhite(r[0]);
      SpaceIsWhite(r[|r| - 1]);
    }
  }

  /** Trimming cuts white space off both ends, all of it and nothing else. */
  lemma TrimExactly(s: string, r: string)
    ensures Trim(s) == r <==> Edged(r) && exists a, b :: Blank(a) && Blank(b) && s == a + r + b
  {
    hide Trim, Edged, Blank;
    if Trim(s) == r {
      var a, b := TrimCuts(s);
    }
    if a, b :| Edged(r) && Blank(a) && Blank(b) && s == a + r + b {
      TrimOfCut(a, r, b);
    }
  }

  /** The capital and the small form of one ASCII letter. */
  predicate CasePair(c: char, d: char) {
    'A' <= c <= 'Z' && d as int == c as int + 32
  }

  /** Equal up to the case of ASCII letters. */
  predicate SameUpToCase(a: string, b: string) {
    |a| == |b| && forall k | 0 <= k < |a| :: a[k] == b[k] || CasePair(a[k], b[k]) || CasePair(b[k], a[k])
  }

  /** Folding identifies exactly the texts that are equal up to ASCII case. */
  lemma FoldsCase(a: string, b: string)
    ensures Lower(a) == Lower(b) <==> SameUpToCase(a, b)
  {
    assert |Lower(a)| == |a| && |Lower(b)| == |b|;
    if Lower(a) == Lower(b) {
      forall k | 0 <= k < |a|
        ensures a[k] == b[k] || CasePair(a[k], b[k]) || CasePair(b[k], a[k])
      {
        assert Lower(a)[k] == Lower(b)[k];
      }
    }
  }

  /** The folded text is the one without capitals. */
  lemma LowerExactly(s: string, r: string)
    ensures r == Lower(s) <==> SameUpToCase(r, s) && forall k | 0 <= k < |r| :: !('A' <= r[k] <= 'Z')
  {
    if SameUpToCase(r, s) && forall k | 0 <= k < |r| :: !('A' <= r[k] <= 'Z') {
      assert forall k | 0 <= k < |r| :: r[k] == Lower(s)[k];
    }
  }

  // ---- text with NUL ----

  const NUL := 0 as char

  /** A C string: the text up to its first NUL. */
  function CString(s: string): string {
    if s == "" || s[0] == NUL then "" else [s[0]] + CString(s[1..])
  }

  lemma {:induction false} CStringPlain(s: string, rest: string)
    ensures NUL !in s ==> CString(s + rest) == s + CString(rest)
    ensures NUL in s ==> CString(s + rest) == CString(s)
  {
    if s == "" {
      assert s + rest == rest;
    } else {
      assert (s + rest)[1..] == s[1..] + rest;
      CStringPlain(s[1..], rest);
    }
  }

  lemma {:induction false} CStringPrefix(s: string)
    ensures CString(s) <= s && NUL !in CString(s)
  {
    if s != "" && s[0] != NUL {
      CStringPrefix(s[1..]);
    }
  }

  /** Reading a text as a C string loses something exactly if it has a NUL. */
  lemma {:induction false} CStringShorter(s: string)
    ensures NUL !in CString(s)
    ensures if NUL in s then |CString(s)| < |s| else CString(s) == s
  {
    CStringPrefix(s);
    if s != "" && s[0] != NUL {
      CStringShorter(s[1..]);
    }
  }

  // ---- the NOCASE collation ----

  function Utf8Size(s: string): nat {
    if s == "" then 0
    else
      var c := s[0] as int;
      (if c < 0x80 then 1 else if c < 0x800 then 2 else if c < 0x1_0000 then 3 else 4) + Utf8Size(s[1..])
  }

  /** What NOCASE compares first: the folded text up to and including its first NUL. */
  function NoCaseKey(s: string): string {
    CString(Lower(s)) + if NUL in s then [NUL] else ""
  }

  /** SQLite's NOCASE: by the folded text up to the first NUL, then by length in bytes. */
  predicate NoCaseLess(a: string, b: string) {
    Less(NoCaseKey(a), NoCaseKey(b)) || (NoCaseKey(a) == NoCaseKey(b) && Utf8Size(a) < Utf8Size(b))
  }

  predicate NoCaseSame(a: string, b: string) {
    NoCaseKey(a) == NoCaseKey(b) && Utf8Size(a) == Utf8Size(b)
  }

  lemma NoCaseTotal(a: string, b: string)
    ensures NoCaseLess(a, b) || NoCaseLess(b, a) || NoCaseSame(a, b)
    ensures !NoCaseLess(a, a)
  {
    LessTotal(NoCaseKey(a), NoCaseKey(b));
    LessTotal(NoCaseKey(a), NoCaseKey(a));
  }

  lemma NoCaseAntisymmetric(a: string, b: string)
    ensures NoCaseLess(a, b) || NoCaseSame(a, b) ==> !NoCaseLess(b, a)
    ensures NoCaseSame(a, b) ==> !NoCaseLess(a, b)
  {
    LessTotal(NoCaseKey(a), NoCaseKey(b));
  }

  lemma NoCaseTransitive(a: string, b: string, c: string)
    requires NoCaseLess(a, b) || NoCaseSame(a, b)
    requires NoCaseLess(b, c) || NoCaseSame(b, c)
    ensures if NoCaseSame(a, b) && NoCaseSame(b, c) then NoCaseSame(a, c) else NoCaseLess(a, c)
  {
    if Less(NoCaseKey(a), NoCaseKey(b)) && Less(NoCaseKey(b), NoCaseKey(c)) {
      LessTransitive(NoCaseKey(a), NoCaseKey(b), NoCaseKey(c));
    }
  }

  lemma LowerKeepsNul(s: string)
    ensures NUL in Lower(s) <==> NUL in s
  {
    if NUL in s {
      var k :| 0 <= k < |s| && s[k] == NUL;
      assert Lower(s)[k] == NUL;
    }
    if NUL in Lower(s) {
      var k :| 0 <= k < |s| && Lower(s)[k] == NUL;
      assert s[k] == NUL;
    }
  }

  lemma {:induction false} Utf8SizeFolds(a: string, b: string)
    requires Lower(a) == Lower(b)
    ensures Utf8Size(a) == Utf8Size(b)
  {
    if a != "" {
      assert |a| == |Lower(a)| == |Lower(b)| == |b|;
      assert LowerChar(a[0]) == Lower(a)[0] == Lower(b)[0] == LowerChar(b[0]);
      assert Lower(a[1..]) == Lower(a)[1..] && Lower(b[1..]) == Lower(b)[1..];
      Utf8SizeFolds(a[1..], b[1..]);
    } else {
      assert |Lower(b)| == |b|;
    }
  }

  /** On text free of NUL that is the order of the folded texts. */
  lemma NoCasePlain(a: string, b: string)
    requires NUL !in a && NUL !in b
    ensures NoCaseLess(a, b) <==> Less(Lower(a), Lower(b))
    ensures NoCaseSame(a, b) <==> Lower(a) == Lower(b)
  {
    LowerKeepsNul(a);
    LowerKeepsNul(b);
    CStringShorter(Lower(a));
    CStringShorter(Lower(b));
    assert NoCaseKey(a) == Lower(a) && NoCaseKey(b) == Lower(b);
    if Lower(a) == Lower(b) {
      Utf8SizeFolds(a, b);
    }
  }

  /** Two names that differ only after a NUL may tie: then the id decides. */
  lemma NoCaseTie()
    ensures var a, b := "a" + [NUL] + "b", "a" + [NUL] + "c";
            NoCaseSame(a, b) && Lower(a) != Lower(b)
  {
    var a, b := "a" + [NUL] + "b", "a" + [NUL] + "c";
    assert Lower(a) == a && Lower(b) == b;
    CStringPlain("a" + [NUL], "b");
    CStringPlain("a" + [NUL], "c");
    assert CString(a) == CString("a" + [NUL]) == CString(b);
    assert Utf8Size("b") == Utf8Size("c") == 1 + Utf8Size("");
    assert a[1..] == [NUL] + "b" && b[1..] == [NUL] + "c";
    assert a[1..][1..] == "b" && b[1..][1..] == "c";
    assert "b"[1..] == "" && "c"[1..] == "";
    assert a[2] == 'b' && b[2] == 'c';
  }
}
