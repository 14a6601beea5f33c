/** The printed person ID ("X-000123") and the spellings accepted for it. */
module PersonId {
  import opened Text
  import opened Decimal

  const MAX_INT64 := 0x7FFF_FFFF_FFFF_FFFF
  const TWO_TO_THE_64 := 0x1_0000_0000_0000_0000
  const CUTOFF := (TWO_TO_THE_64 - 1) / 10 + 1

  function Format(n: nat): string {
    "X-" + ZeroPad(n, 6)
  }

  /** The digit loop of strconv.ParseUint in base 10, with its 64-bit arithmetic:
      the accumulator after reading s, or None once the loop has failed. */
  function DigitLoop(s: string): (r: Option<nat>) {
    if s == "" then Some(0)
    else
      match DigitLoop(s[..|s| - 1])
      case None => None
      case Some(acc) =>
        var c := s[|s| - 1];
        if !IsDigit(c) || acc >= CUTOFF then None
        else
          var scaled := acc * 10 % TWO_TO_THE_64;
          var next := (scaled + DigitValue(c)) % TWO_TO_THE_64;
          if next < scaled then None else Some(next)
  }

  /** strconv.ParseInt(s, 10, 64); every failure is the same None. */
  function ParseInt64(s: string): Option<int> {
    var signed := s != "" && (s[0] == '+' || s[0] == '-');
    var neg := signed && s[0] == '-';
    var digits := if signed then s[1..] else s;
    if digits == "" then None
    else
      match DigitLoop(digits)
      case None => None
      case Some(un) =>
        if !neg && un >= MAX_INT64 + 1 then None
        else if neg && un > MAX_INT64 + 1 then None
        else
          var n: int := un;
          Some(if neg then -n else n)
  }

  function TrimDash(s: string): string {
    if s != "" && s[0] == '-' then s[1..] else s
  }

  function Unmarked(body: string): string {
    if body != "" && (body[0] == 'X' || body[0] == 'x') then TrimDash(body[1..]) else body
  }

  function Parse(s: string): Option<int> {
    var body := Trim(s);
    if body == "" then None
    else
      match ParseInt64(Unmarked(body))
      case None => None
      case Some(n) => if n <= 0 then None else Some(n)
  }

  /** The overflow tests on one digit: they fire exactly when the value leaves 64 bits. */
  lemma OneDigit(acc: nat, d: nat)
    requires acc < TWO_TO_THE_64 && d < 10
    ensures var scaled := acc * 10 % TWO_TO_THE_64;
            var next := (scaled + d) % TWO_TO_THE_64;
            && (acc >= CUTOFF || next < scaled <==> acc * 10 + d >= TWO_TO_THE_64)
            && (acc < CUTOFF && scaled <= next ==> next == acc * 10 + d)
  {
    assert CUTOFF == 1844674407370955162;
    if acc < CUTOFF {
      assert acc * 10 < TWO_TO_THE_64;
    }
  }

  /** The loop accepts exactly the digit strings whose value fits 64 bits, and computes it:
      its overflow tests never fire early and never miss. */
  lemma {:induction false} DigitLoopExact(s: string)
    ensures DigitLoop(s) ==
            if AllDigits(s) && ValueOf(s) < TWO_TO_THE_64 then Some(ValueOf(s)) else None
  {
    if s != "" {
      var k := |s| - 1;
      DigitLoopExact(s[..k]);
      assert s == s[..k] + [s[k]];
      assert AllDigits(s) <==> AllDigits(s[..k]) && IsDigit(s[k]);
      if AllDigits(s) {
        if ValueOf(s[..k]) < TWO_TO_THE_64 {
          OneDigit(ValueOf(s[..k]), DigitValue(s[k]));
        }
        hide AllDigits;
      }
    }
  }

  /** What may stand in front of the digits of an ID. */
  predicate IsMark(mark: string) {
    mark == "" || mark == "X" || mark == "x" || mark == "X-" || mark == "x-"
  }

  /** A spelling of n: a mark, an optional plus sign, and digits of value n, with any
      number of leading zeros. */
  predicate Spelling(mark: string, plus: string, digits: string, n: int) {
    IsMark(mark) && (plus == "" || plus == "+") &&
    digits != "" && AllDigits(digits) && ValueOf(digits) == n
  }

  ghost predicate Spells(body: string, n: int) {
    exists mark, plus, digits ::
      Spelling(mark, plus, digits, n) && body == mark + (plus + digits)
  }

  /** ParseInt64 on a positive result: an optional plus sign and in-range digits. */
  lemma ParseInt64Positive(number: string, n: int)
    requires 0 < n
    ensures ParseInt64(number) == Some(n) <==>
            exists plus, digits :: Spelling("", plus, digits, n) && number == plus + digits && n <= MAX_INT64
  {
    var signed := number != "" && (number[0] == '+' || number[0] == '-');
    var digits := if signed then number[1..] else number;
    DigitLoopExact(digits);
    if ParseInt64(number) == Some(n) {
      var plus := if signed then "+" else "";
      assert number == plus + digits;
      assert Spelling("", plus, digits, n);
    }
    forall plus, d | Spelling("", plus, d, n) && number == plus + d && n <= MAX_INT64
      ensures ParseInt64(number) == Some(n)
    {
      assert d[0] in d;
      if plus == "+" {
        assert number[1..] == d;
      } else {
        assert number == d;
      }
    }
  }

  /** Removing the mark leaves the signed digits, since those start with neither. */
  lemma UnmarkedDropsMark(mark: string, number: string)
    requires IsMark(mark) && number != ""
    requires number[0] != 'X' && number[0] != 'x' && number[0] != '-'
    ensures Unmarked(mark + number) == number
  {
    var body := mark + number;
    if mark == "" {
      assert body == number;
    } else if |mark| == 1 {
      assert body[1..] == number;
    } else {
      assert body[1..] == "-" + number;
    }
  }

  lemma UnmarkedHasMark(body: string) returns (mark: string)
    ensures IsMark(mark) && body == mark + Unmarked(body)
  {
    if body == "" || (body[0] != 'X' && body[0] != 'x') {
      mark := "";
    } else if body[1..] == "" || body[1] != '-' {
      mark := [body[0]];
    } else {
      mark := [body[0], '-'];
      assert body[1..][1..] == body[2..];
    }
  }

  /** Parse accepts exactly the spellings of the IDs 1 to 2^63-1, after trimming. */
  lemma ParseAcceptsSpellings(s: string, n: int)
    ensures Parse(s) == Some(n) <==> 1 <= n <= MAX_INT64 && Spells(Trim(s), n)
  {
    var body := Trim(s);
    if 1 <= n {
      ParseInt64Positive(Unmarked(body), n);
      if Parse(s) == Some(n) {
        var plus, digits :| Spelling("", plus, digits, n) && Unmarked(body) == plus + digits && n <= MAX_INT64;
        var mark := UnmarkedHasMark(body);
        assert Spelling(mark, plus, digits, n);
      }
      forall mark, plus, digits | Spelling(mark, plus, digits, n) && body == mark + (plus + digits) && n <= MAX_INT64
        ensures Parse(s) == Some(n)
      {
        assert digits[0] in digits;
        assert Spelling("", plus, digits, n);
        UnmarkedDropsMark(mark, plus + digits);
      }
    }
  }

  /** The printed form: a capital X, a dash, and the decimal digits of the ID, with zeros in
      front up to six digits and none beyond. */
  lemma FormatExactly(n: nat)
    ensures var s := Format(n);
            && |s| >= 8 && s[0] == 'X' && s[1] == '-' && AllDigits(s[2..]) && ValueOf(s[2..]) == n
            && (|s| > 8 ==> s[2] != '0')
  {
    ZeroPadReads(n, 6);
    PadLength(n, 6);
    assert Format(n)[2..] == ZeroPad(n, 6);
  }

  lemma {:induction false} PadLength(n: nat, w: nat)
    ensures |ZeroPad(n, w)| >= w && |ZeroPad(n, w)| > 0
    ensures |ZeroPad(n, w)| > w && n > 0 ==> ZeroPad(n, w)[0] != '0'
    ensures n == 0 && w > 0 ==> |ZeroPad(n, w)| == w
    decreases n + w
  {
    if n >= 10 || w > 1 {
      PadLength(n / 10, if w == 0 then 0 else w - 1);
    }
  }

  /** Printing and parsing round-trips for every ID, padded or not. */
  lemma RoundTrip(n: nat)
    requires 1 <= n <= MAX_INT64
    ensures Parse(Format(n)) == Some(n)
  {
    var digits := ZeroPad(n, 6);
    ZeroPadReads(n, 6);
    assert digits[|digits| - 1] in digits;
    TrimIsBare(Format(n));
    assert Format(n) == "X-" + ("" + digits);
    assert Spelling("X-", "", digits, n);
    ParseAcceptsSpellings(Format(n), n);
  }

  /** Every accepted spelling has one canonical reprint, shared by the spellings of the
      same ID and by no other. */
  lemma CanonicalReprint(s: string, t: string)
    requires Parse(s).Some? && Parse(t).Some?
    ensures Parse(s).value > 0 && Parse(t).value > 0
    ensures Parse(Format(Parse(s).value)) == Parse(s)
    ensures Format(Parse(s).value) == Format(Parse(t).value) <==> Parse(s) == Parse(t)
  {
    ParseAcceptsSpellings(s, Parse(s).value);
    ParseAcceptsSpellings(t, Parse(t).value);
    RoundTrip(Parse(s).value);
    RoundTrip(Parse(t).value);
  }
}
