/** The name search: escaping of LIKE metacharacters against SQLite's LIKE operator. */
module Like {
  import opened Text

  const ESCAPE := '\\'

  /** Characters LIKE treats as equal: identical, or ASCII letters of either case. */
  predicate Same(a: char, b: char) {
    LowerChar(a) == LowerChar(b)
  }

  /** SQLite's LIKE with ESCAPE '\' on a pattern and a text without NUL. */
  predicate Match(p: string, s: string)
    decreases |p| + |s|
  {
    if p == "" then s == ""
    else if p[0] == '%' then Match(p[1..], s) || (s != "" && Match(p, s[1..]))
    else if p[0] == '_' then s != "" && Match(p[1..], s[1..])
    else if p[0] == ESCAPE then
      |p| > 1 && s != "" && Same(p[1], s[0]) && Match(p[2..], s[1..])
    else s != "" && Same(p[0], s[0]) && Match(p[1..], s[1..])
  }

  /** SQLite's LIKE reads both operands as C strings. */
  predicate SqlLike(name: string, pattern: string) {
    Match(CString(pattern), CString(name))
  }

  function EscapeChar(c: char): string {
    if c == '\\' || c == '%' || c == '_' then [ESCAPE, c] else [c]
  }

  function EscapeLike(s: string): string {
    if s == "" then "" else EscapeChar(s[0]) + EscapeLike(s[1..])
  }

  /** The WHERE clause of the person and system lists. */
  predicate NameFilter(query: string, name: string) {
    var q := Trim(query);
    q == "" || SqlLike(name, "%" + EscapeLike(q) + "%")
  }

  /** q occurs in s at position i, up to ASCII case. */
  predicate OccursAt(q: string, s: string, i: nat) {
    i + |q| <= |s| && Lower(q) == Lower(s[i..i + |q|])
  }

  predicate Contains(q: string, s: string) {
    exists i | 0 <= i <= |s| :: OccursAt(q, s, i)
  }

  predicate EndsWith(q: string, s: string) {
    |q| <= |s| && OccursAt(q, s, |s| - |q|)
  }

  /** An escaped character matches itself and nothing else. */
  lemma EscapedChar(c: char, tail: string, s: string)
    ensures Match(EscapeChar(c) + tail, s) <==> s != "" && Same(c, s[0]) && Match(tail, s[1..])
  {
    var e := EscapeChar(c);
    assert (e + tail)[|e|..] == tail;
  }

  /** An escaped prefix matches exactly its own text, whatever pattern follows it. */
  lemma {:induction false} EscapedPrefix(q: string, rest: string, s: string)
    ensures Match(EscapeLike(q) + rest, s) <==>
            |q| <= |s| && Lower(q) == Lower(s[..|q|]) && Match(rest, s[|q|..])
  {
    if q == "" {
      assert EscapeLike(q) + rest == rest && s[0..] == s;
    } else {
      var tail := EscapeLike(q[1..]) + rest;
      assert EscapeLike(q) + rest == EscapeChar(q[0]) + tail;
      EscapedChar(q[0], tail, s);
      hide Match, EscapeLike;
      if s != "" {
        EscapedPrefix(q[1..], rest, s[1..]);
        if |q| <= |s| {
          LowerCons(q);
          LowerCons(s[..|q|]);
          assert s[..|q|][1..] == s[1..][..|q| - 1];
          assert s[1..][|q| - 1..] == s[|q|..];
        }
      }
    }
  }

  lemma LowerCons(s: string)
    requires s != ""
    ensures Lower(s) == [LowerChar(s[0])] + Lower(s[1..])
    ensures Lower(s)[0] == LowerChar(s[0]) && Lower(s)[1..] == Lower(s[1..])
  {
  }

  lemma {:induction false} PercentMatchesAll(s: string)
    ensures Match("%", s)
  {
    if s != "" {
      PercentMatchesAll(s[1..]);
    }
  }

  /** Left unescaped, the underscore stands for any one character. */
  lemma UnderscoreMatchesOne(s: string)
    ensures Match("_", s) <==> |s| == 1
  {
    assert "_"[1..] == "";
  }

  /** A leading % tries every suffix of the text. */
  lemma {:induction false} LeadingPercent(p: string, s: string)
    ensures Match("%" + p, s) <==> exists i | 0 <= i <= |s| :: Match(p, s[i..])
  {
    assert ("%" + p)[1..] == p;
    assert s[0..] == s;
    if s != "" {
      LeadingPercent(p, s[1..]);
      if Match("%" + p, s[1..]) {
        var i :| 0 <= i <= |s| - 1 && Match(p, s[1..][i..]);
        assert s[1..][i..] == s[i + 1..];
      }
      forall i | 0 < i <= |s| && Match(p, s[i..])
        ensures Match("%" + p, s[1..])
      {
        assert s[1..][i - 1..] == s[i..];
      }
    }
  }

  /** The escaped query between two wildcards matches exactly the texts that contain it. */
  lemma SearchIsSubstring(q: string, s: string)
    ensures Match("%" + EscapeLike(q) + "%", s) <==> Contains(q, s)
  {
    var e := EscapeLike(q);
    assert "%" + e + "%" == "%" + (e + "%");
    LeadingPercent(e + "%", s);
    forall i | 0 <= i <= |s|
      ensures Match(e + "%", s[i..]) <==> OccursAt(q, s, i)
    {
      EscapedPrefix(q, "%", s[i..]);
      if |q| <= |s| - i {
        PercentMatchesAll(s[i..][|q|..]);
        assert s[i..][..|q|] == s[i..i + |q|];
      }
    }
  }

  lemma EscapedWhole(q: string, s: string)
    ensures Match(EscapeLike(q), s) <==> |q| == |s| && Lower(q) == Lower(s)
  {
    EscapedPrefix(q, "", s);
    assert EscapeLike(q) + "" == EscapeLike(q);
    if |q| <= |s| {
      assert Match("", s[|q|..]) <==> |q| == |s|;
      assert |q| == |s| ==> s[..|q|] == s;
    }
  }

  /** Without the closing wildcard only an occurrence at the end matches. */
  lemma SearchIsSuffix(q: string, s: string)
    ensures Match("%" + EscapeLike(q), s) <==> EndsWith(q, s)
  {
    hide Match, EscapeLike;
    LeadingPercent(EscapeLike(q), s);
    forall i | 0 <= i <= |s|
      ensures Match(EscapeLike(q), s[i..]) <==> i == |s| - |q| && OccursAt(q, s, i)
    {
      EscapedWhole(q, s[i..]);
      if i == |s| - |q| {
        assert s[i..] == s[i..i + |q|];
      }
    }
  }

  lemma {:induction false} EscapeCString(s: string)
    ensures CString(EscapeLike(s)) == EscapeLike(CString(s))
    ensures NUL in EscapeLike(s) <==> NUL in s
  {
    if s != "" {
      var e := EscapeChar(s[0]);
      EscapeCString(s[1..]);
      CStringPlain(e, EscapeLike(s[1..]));
      if s[0] == NUL {
        assert EscapeLike(s)[0] == NUL;
      } else {
        assert NUL !in e;
        assert CString(s)[1..] == CString(s[1..]);
      }
    }
  }

  /** The search law, for every query and every name. A query without NUL finds exactly the
      names that contain it up to ASCII case (the name read up to its first NUL); a NUL in
      the query cuts the pattern before its closing wildcard, and then it finds the names
      that end with the part before the NUL. */
  lemma NameFilterMeaning(query: string, name: string)
    ensures var q := Trim(query);
            NameFilter(query, name) <==>
            if NUL in q then EndsWith(CString(q), CString(name)) else Contains(q, CString(name))
  {
    var q := Trim(query);
    PatternMeaning(q, CString(name));
    hide Trim, CString, Match, EscapeLike;
    if q == "" {
      assert OccursAt(q, CString(name), 0);
    }
  }

  lemma PatternMeaning(q: string, s: string)
    ensures Match(CString("%" + EscapeLike(q) + "%"), s) <==>
            if NUL in q then EndsWith(CString(q), s) else Contains(q, s)
  {
    PatternCString(q);
    hide CString, Match, EscapeLike;
    if NUL in q {
      SearchIsSuffix(CString(q), s);
    } else {
      SearchIsSubstring(q, s);
    }
  }

  /** The pattern as SQLite reads it. */
  lemma PatternCString(q: string)
    ensures CString("%" + EscapeLike(q) + "%") ==
            if NUL in q then "%" + EscapeLike(CString(q)) else "%" + EscapeLike(q) + "%"
  {
    var e := EscapeLike(q);
    EscapeCString(q);
    assert "%" + e + "%" == "%" + (e + "%");
    CStringPlain("%", e + "%");
    CStringPlain(e, "%");
    CStringShorter("%");
    hide EscapeLike;
  }

  /** On text free of NUL the search is the plain case-insensitive substring search. */
  lemma NameFilterIsSubstring(query: string, name: string)
    requires NUL !in Trim(query) && NUL !in name
    ensures NameFilter(query, name) <==> Contains(Trim(query), name)
  {
    NameFilterMeaning(query, name);
    CStringShorter(name);
  }

  /** When the search is the substring search, for one query: on every name free of NUL
      exactly if the query is free of it. */
  lemma PlainQueryExactly(query: string)
    ensures (forall name | NUL !in name :: NameFilter(query, name) <==> Contains(Trim(query), name)) <==>
            NUL !in Trim(query)
  {
    var q := Trim(query);
    if NUL in q {
      var name := CString(q);
      CStringShorter(q);
      CStringShorter(name);
      NameFilterMeaning(query, name);
      assert name[0..|name|] == name;
      assert NameFilter(query, name) && !Contains(q, name);
    } else {
      forall name | NUL !in name
        ensures NameFilter(query, name) <==> Contains(q, name)
      {
        NameFilterIsSubstring(query, name);
      }
    }
  }

  /** For one name free of NUL: the search goes wrong exactly if the query has a NUL and the
      name ends with the part before it. */
  lemma PlainNameExactly(query: string, name: string)
    requires NUL !in name
    ensures var q := Trim(query);
            (NameFilter(query, name) <==> Contains(q, name)) <==> !(NUL in q && EndsWith(CString(q), name))
  {
    var q := Trim(query);
    NameFilterMeaning(query, name);
    CStringShorter(name);
    if NUL in q {
      NulNotContained(q, name);
    }
  }

  /** For one query free of NUL: the search misses a name exactly if the query occurs in it,
      but only across or after its first NUL. */
  lemma NulNameExactly(query: string, name: string)
    requires NUL !in Trim(query)
    ensures var q := Trim(query);
            (NameFilter(query, name) <==> Contains(q, name)) <==>
            (Contains(q, name) ==> exists i | 0 <= i :: i + |q| <= |CString(name)| && OccursAt(q, name, i))
  {
    var q := Trim(query);
    NameFilterMeaning(query, name);
    CStringPrefix(name);
    var c := CString(name);
    forall i: nat | i + |q| <= |c|
      ensures OccursAt(q, c, i) == OccursAt(q, name, i)
    {
      assert c[i..i + |q|] == name[i..i + |q|];
    }
  }

  /** Text with a NUL does not occur in text without. */
  lemma NulNotContained(q: string, s: string)
    requires NUL in q && NUL !in s
    ensures !Contains(q, s)
  {
    var k :| 0 <= k < |q| && q[k] == NUL;
    assert Lower(q)[k] == NUL;
    forall i | 0 <= i <= |s|
      ensures !OccursAt(q, s, i)
    {
      if i + |q| <= |s| {
        assert s[i..i + |q|][k] == s[i + k] != NUL;
        assert Lower(s[i..i + |q|])[k] != NUL;
      }
    }
  }

  /** With a NUL in the query it goes wrong: this query does not occur in "ca", yet finds it. */
  lemma NulBreaksSearch()
    ensures var q := "a" + [NUL] + "b";
            NameFilter(q, "ca") && !Contains(Trim(q), "ca")
  {
    var q := "a" + [NUL] + "b";
    TrimIsBare(q);
    CStringPlain("a" + [NUL], "b");
    CStringPlain("a", [NUL]);
    CStringShorter("ca");
    CStringShorter("a");
    NameFilterMeaning(q, "ca");
    assert "ca"[1..2] == "a";
  }

  /** With a NUL in the name too: "b" occurs in this name, and does not find it. */
  lemma NulHidesName()
    ensures var name := "a" + [NUL] + "b";
            NUL !in Trim("b") && Contains(Trim("b"), name) && !NameFilter("b", name)
  {
    var name := "a" + [NUL] + "b";
    TrimIsBare("b");
    CStringPlain("a" + [NUL], "b");
    CStringPlain("a", [NUL]);
    CStringShorter("a");
    NameFilterMeaning("b", name);
    assert name[2..3] == "b";
    assert OccursAt("b", name, 2);
    assert CString(name) == "a";
    assert "a"[0..1] == "a";
    assert Lower("b")[0] == 'b' && Lower("a")[0] == 'a';
  }

  /** The search in plain words: without NUL, it finds a name exactly if some slice of it is
      the trimmed query, up to the case of ASCII letters. */
  lemma SearchExactly(query: string, name: string)
    requires NUL !in Trim(query) && NUL !in name
    ensures var q := Trim(query);
            NameFilter(query, name) <==> exists i | 0 <= i <= |name| :: SliceIs(name, i, q)
  {
    var q := Trim(query);
    NameFilterIsSubstring(query, name);
    forall i | 0 <= i <= |name|
      ensures OccursAt(q, name, i) <==> SliceIs(name, i, q)
    {
      if i + |q| <= |name| {
        FoldsCase(q, name[i..i + |q|]);
      }
    }
    hide NameFilter;
  }

  /** The slice of s at i as long as q is q, up to ASCII case. */
  predicate SliceIs(s: string, i: nat, q: string) {
    i + |q| <= |s| && SameUpToCase(q, s[i..i + |q|])
  }

  /** Search results do not depend on the ASCII case of the query. */
  lemma ContainsFolds(q: string, r: string, s: string)
    requires SameUpToCase(q, r)
    ensures Contains(q, s) == Contains(r, s)
  {
    FoldsCase(q, r);
    assert |q| == |Lower(q)| == |Lower(r)| == |r|;
    forall i | 0 <= i <= |s|
      ensures OccursAt(q, s, i) == OccursAt(r, s, i)
    {
    }
  }
}
