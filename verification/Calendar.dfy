/** Calendar days and the timestamps of the audit log: their printed forms, and when
    comparing those as strings is comparing them in time. */
module Calendar {
  import opened Text
  import opened Decimal

  datatype Day = Day(year: nat, month: nat, day: nat)

  predicate Leap(year: nat) {
    year % 4 == 0 && (year % 100 != 0 || year % 400 == 0)
  }

  function DaysIn(year: nat, month: nat): nat {
    if month == 2 then (if Leap(year) then 29 else 28)
    else if month in {4, 6, 9, 11} then 30
    else 31
  }

  predicate ValidDay(d: Day) {
    d.year <= 9999 && 1 <= d.month <= 12 && 1 <= d.day <= DaysIn(d.year, d.month)
  }

  /** Calendar order. */
  predicate Before(a: Day, b: Day) {
    || a.year < b.year
    || (a.year == b.year && (a.month < b.month || (a.month == b.month && a.day < b.day)))
  }

  const LAST_DAY := Day(9999, 12, 31)

  /** time.AddDate(0, 0, 1). */
  function NextDay(d: Day): Day {
    if d.day < DaysIn(d.year, d.month) then d.(day := d.day + 1)
    else if d.month < 12 then Day(d.year, d.month + 1, 1)
    else Day(d.year + 1, 1, 1)
  }

  /** The next day is the least day after d, across month ends and leap years; it is a
      four-digit-year day except after the very last one. */
  lemma NextDayIsSuccessor(d: Day)
    requires ValidDay(d)
    ensures Before(d, NextDay(d))
    ensures ValidDay(NextDay(d)) <==> d != LAST_DAY
    ensures forall e | ValidDay(e) :: Before(e, NextDay(d)) <==> !Before(d, e)
  {
  }

  // ---- the calendar by arithmetic ----

  /** The month counted from March, and the year it then falls in. */
  function MarchMonth(d: Day): int {
    if d.month <= 2 then d.month + 9 else d.month - 3
  }

  function MarchYear(d: Day): int {
    if d.month <= 2 then d.year - 1 else d.year
  }

  function DaysBefore(y: int): int {
    365 * y + y / 4 - y / 100 + y / 400
  }

  function DaysInto(m: int): int {
    (153 * m + 2) / 5
  }

  /** The number of a day of the Gregorian calendar, counted without a table of months and
      without a rule for leap years. */
  function DayNumber(d: Day): int {
    DaysBefore(MarchYear(d)) + DaysInto(MarchMonth(d)) + d.day
  }

  lemma QuotientsGain(y: nat)
    ensures y / 4 - (y - 1) / 4 == if y % 4 == 0 then 1 else 0
    ensures y / 100 - (y - 1) / 100 == if y % 100 == 0 then 1 else 0
    ensures y / 400 - (y - 1) / 400 == if y % 400 == 0 then 1 else 0
  {
  }

  lemma Multiples(k: nat)
    ensures (4 * k) % 4 == 0 && (100 * k) % 100 == 0
  {
  }

  lemma CenturiesDivide(y: nat)
    ensures y % 100 == 0 ==> y % 4 == 0
    ensures y % 400 == 0 ==> y % 100 == 0
  {
    if y % 100 == 0 {
      Multiples(25 * (y / 100));
      assert y == 4 * (25 * (y / 100));
    }
    if y % 400 == 0 {
      Multiples(4 * (y / 400));
      assert y == 100 * (4 * (y / 400));
    }
  }

  /** A leap day is what the quotients gain. */
  lemma YearLength(y: nat)
    ensures DaysBefore(y) - DaysBefore(y - 1) == if Leap(y) then 366 else 365
  {
    QuotientsGain(y);
    CenturiesDivide(y);
  }

  lemma {:induction false} YearsAdvance(a: int, b: int)
    requires -1 <= a <= b
    ensures DaysBefore(a) + 365 * (b - a) <= DaysBefore(b)
    decreases b - a
  {
    if a < b {
      YearLength(b);
      YearsAdvance(a, b - 1);
    }
  }

  /** A month's days lie between the numbers at which it and the next begin. */
  lemma MonthSpan(d: Day)
    requires ValidDay(d)
    ensures d.month != 2 ==> DaysInto(MarchMonth(d)) + DaysIn(d.year, d.month) == DaysInto(MarchMonth(d) + 1)
    ensures d.month == 2 ==> DaysBefore(MarchYear(d)) + DaysInto(11) + DaysIn(d.year, 2) == DaysBefore(d.year)
  {
    if d.month == 2 {
      YearLength(d.year);
    }
  }

  /** Consecutive days have consecutive numbers, across the ends of months and years. */
  lemma NextDayNumber(d: Day)
    requires ValidDay(d)
    ensures DayNumber(NextDay(d)) == DayNumber(d) + 1
  {
    MonthSpan(d);
  }

  lemma MonthsAdvance(m: int, n: int)
    requires 0 <= m < n <= 11
    ensures DaysInto(m + 1) <= DaysInto(n)
  {
  }

  /** Within one year from March, and across years, earlier days have lower numbers. */
  lemma EarlierNumber(a: Day, b: Day)
    requires ValidDay(a) && ValidDay(b) && Before(a, b)
    ensures DayNumber(a) < DayNumber(b)
  {
    MonthSpan(a);
    var y, m, z, n := MarchYear(a), MarchMonth(a), MarchYear(b), MarchMonth(b);
    if y == z && m < n {
      MonthsAdvance(m, n);
    } else if y < z {
      YearsAdvance(y + 1, z);
      if a.month != 2 {
        YearEnds(y, m);
      }
    }
  }

  lemma YearEnds(y: int, m: int)
    requires -1 <= y && 0 <= m < 11
    ensures DaysInto(m + 1) <= 337 && DaysBefore(y) + 365 <= DaysBefore(y + 1)
  {
    YearsAdvance(y, y + 1);
  }

  /** The order of days is the order of their numbers. */
  lemma OrderIsNumber(a: Day, b: Day)
    requires ValidDay(a) && ValidDay(b)
    ensures Before(a, b) <==> DayNumber(a) < DayNumber(b)
    ensures a == b <==> DayNumber(a) == DayNumber(b)
  {
    if Before(a, b) {
      EarlierNumber(a, b);
    } else if Before(b, a) {
      EarlierNumber(b, a);
    }
  }

  /** No day is missing: each number from 1 January 0000 to 31 December 9999 has its day. */
  lemma {:induction false} EveryNumberIsADay(n: int) returns (d: Day)
    requires -59 <= n <= 3_652_365
    ensures ValidDay(d) && DayNumber(d) == n
    decreases n + 59
  {
    if n == -59 {
      d := Day(0, 1, 1);
    } else {
      var e := EveryNumberIsADay(n - 1);
      d := NextDay(e);
      NextDayNumber(e);
      NextDayIsSuccessor(e);
      LastNumber();
      hide DayNumber;
    }
  }

  lemma LastNumber()
    ensures DayNumber(LAST_DAY) == 3_652_365
  {
    assert DaysBefore(9999) == 3_652_059;
  }

  /** Spans of days known from elsewhere, a leap and a common century year among them. */
  lemma KnownDays()
    ensures DayNumber(Day(1969, 7, 20)) + 165 == DayNumber(Day(1970, 1, 1)) == 719469
    ensures DayNumber(Day(2000, 2, 28)) + 2 == DayNumber(Day(2000, 3, 1)) == 730486
    ensures DayNumber(Day(1900, 2, 28)) + 1 == DayNumber(Day(1900, 3, 1))
  {
    assert DaysBefore(1969) == 719162 && DaysBefore(2000) == 730485 && DaysBefore(1999) == 730119;
    assert DaysBefore(1900) - DaysBefore(1899) == 365;
  }

  /** "2006-01-02" followed by rest. */
  function DateText(d: Day, rest: string): string {
    ZeroPad(d.year, 4) + ("-" + (ZeroPad(d.month, 2) + ("-" + (ZeroPad(d.day, 2) + rest))))
  }

  function FormatDay(d: Day): string {
    DateText(d, "")
  }

  /** time.Parse with the layout "2006-01-02". */
  function ParseDay(s: string): Option<Day> {
    if |s| != 10 || s[4] != '-' || s[7] != '-' || !AllDigits(s[..4]) || !AllDigits(s[5..7]) || !AllDigits(s[8..]) then
      None
    else
      var d := Day(ValueOf(s[..4]), ValueOf(s[5..7]), ValueOf(s[8..]));
      if ValidDay(d) then Some(d) else None
  }

  lemma Pow10Values()
    ensures Pow10(2) == 100 && Pow10(4) == 10000
  {
    assert Pow10(1) == 10 * Pow10(0);
    assert Pow10(3) == 10 * Pow10(2);
  }

  lemma DateReads(d: Day, rest: string)
    requires ValidDay(d)
    ensures var s := DateText(d, rest);
            && |s| == 10 + |rest| && s[10..] == rest && s[4] == '-' && s[7] == '-'
            && s[..4] == ZeroPad(d.year, 4) && s[5..7] == ZeroPad(d.month, 2) && s[8..10] == ZeroPad(d.day, 2)
  {
    Pow10Values();
    ZeroPadWidth(d.year, 4);
    ZeroPadWidth(d.month, 2);
    ZeroPadWidth(d.day, 2);
    hide ZeroPad, Pow10;
  }

  lemma ParsedPrints(s: string, d: Day)
    requires ParseDay(s) == Some(d)
    ensures ValidDay(d) && s == FormatDay(d)
  {
    ZeroPadRestores(s[..4]);
    ZeroPadRestores(s[5..7]);
    ZeroPadRestores(s[8..]);
    hide ZeroPad, ValueOf, Pow10;
    assert s == s[..4] + ("-" + (s[5..7] + ("-" + (s[8..] + ""))));
  }

  lemma PrintedParses(d: Day)
    requires ValidDay(d)
    ensures ParseDay(FormatDay(d)) == Some(d)
  {
    DateReads(d, "");
    ZeroPadReads(d.year, 4);
    ZeroPadReads(d.month, 2);
    ZeroPadReads(d.day, 2);
    hide ZeroPad, ValueOf, DateText, AllDigits;
    var s := FormatDay(d);
    assert s[8..] == s[8..10];
  }

  /** A day parses from one string only, the one it prints as. */
  lemma ParseDayExact(s: string, d: Day)
    ensures ParseDay(s) == Some(d) <==> ValidDay(d) && s == FormatDay(d)
  {
    hide ParseDay, FormatDay;
    if ParseDay(s) == Some(d) {
      ParsedPrints(s, d);
    }
    if ValidDay(d) {
      PrintedParses(d);
    }
  }

  /** Strings that start with a date compare by date first. */
  lemma DateTextOrder(a: Day, b: Day, x: string, y: string)
    requires ValidDay(a) && ValidDay(b)
    ensures Less(DateText(a, x), DateText(b, y)) <==> Before(a, b) || (a == b && Less(x, y))
  {
    Pow10Values();
    var dx, dy := ZeroPad(a.day, 2) + x, ZeroPad(b.day, 2) + y;
    var mx, my := ZeroPad(a.month, 2) + ("-" + dx), ZeroPad(b.month, 2) + ("-" + dy);
    ZeroPadOrder(a.year, b.year, 4, "-" + mx, "-" + my);
    LessSamePrefix("-", mx, my);
    ZeroPadOrder(a.month, b.month, 2, "-" + dx, "-" + dy);
    LessSamePrefix("-", dx, dy);
    ZeroPadOrder(a.day, b.day, 2, x, y);
  }

  /** An instant in UTC, to the nanosecond. */
  datatype Stamp = Stamp(day: Day, hour: nat, minute: nat, second: nat, nano: nat)

  predicate ValidStamp(t: Stamp) {
    ValidDay(t.day) && t.hour < 24 && t.minute < 60 && t.second < 60 && t.nano < 1_000_000_000
  }

  function TrimZeros(s: string): string {
    if s != "" && s[|s| - 1] == '0' then TrimZeros(s[..|s| - 1]) else s
  }

  /** The significant digits of the fraction of a second. */
  function FractionDigits(nano: nat): string {
    TrimZeros(ZeroPad(nano, 9))
  }

  /** The fraction as RFC3339Nano prints it: trailing zeros trimmed, nothing when zero. */
  function Fraction(nano: nat): string {
    if nano == 0 then "" else "." + FractionDigits(nano)
  }

  function ClockText(t: Stamp, rest: string): string {
    "T" + (ZeroPad(t.hour, 2) + (":" + (ZeroPad(t.minute, 2) + (":" + (ZeroPad(t.second, 2) + rest)))))
  }

  /** time.UTC().Format(time.RFC3339Nano). */
  function FormatStamp(t: Stamp): string {
    DateText(t.day, ClockText(t, Fraction(t.nano) + "Z"))
  }

  predicate SameSecond(a: Stamp, b: Stamp) {
    a.day == b.day && a.hour == b.hour && a.minute == b.minute && a.second == b.second
  }

  predicate EarlierSecond(a: Stamp, b: Stamp) {
    || Before(a.day, b.day)
    || (a.day == b.day && (a.hour < b.hour || (a.hour == b.hour &&
       (a.minute < b.minute || (a.minute == b.minute && a.second < b.second)))))
  }

  /** Order in time. */
  predicate Earlier(a: Stamp, b: Stamp) {
    EarlierSecond(a, b) || (SameSecond(a, b) && a.nano < b.nano)
  }

  lemma ClockTextOrder(a: Stamp, b: Stamp, x: string, y: string)
    requires ValidStamp(a) && ValidStamp(b) && a.day == b.day
    ensures Less(ClockText(a, x), ClockText(b, y)) <==> EarlierSecond(a, b) || (SameSecond(a, b) && Less(x, y))
  {
    Pow10Values();
    var sx, sy := ZeroPad(a.second, 2) + x, ZeroPad(b.second, 2) + y;
    var mx, my := ZeroPad(a.minute, 2) + (":" + sx), ZeroPad(b.minute, 2) + (":" + sy);
    var hx, hy := ZeroPad(a.hour, 2) + (":" + mx), ZeroPad(b.hour, 2) + (":" + my);
    LessSamePrefix("T", hx, hy);
    ZeroPadOrder(a.hour, b.hour, 2, ":" + mx, ":" + my);
    LessSamePrefix(":", mx, my);
    ZeroPadOrder(a.minute, b.minute, 2, ":" + sx, ":" + sy);
    LessSamePrefix(":", sx, sy);
    ZeroPadOrder(a.second, b.second, 2, x, y);
  }

  /** String order of stored timestamps, in full: by second, then by the printed fraction. */
  lemma StampTextOrder(a: Stamp, b: Stamp)
    requires ValidStamp(a) && ValidStamp(b)
    ensures Less(FormatStamp(a), FormatStamp(b)) <==>
            EarlierSecond(a, b) || (SameSecond(a, b) && Less(Fraction(a.nano) + "Z", Fraction(b.nano) + "Z"))
  {
    var x, y := Fraction(a.nano) + "Z", Fraction(b.nano) + "Z";
    DateTextOrder(a.day, b.day, ClockText(a, x), ClockText(b, y));
    if a.day == b.day {
      ClockTextOrder(a, b, x, y);
    }
  }

  function Zeros(k: nat): string {
    seq(k, i => '0')
  }

  lemma {:induction false} TrimZerosSplits(s: string)
    ensures var r := TrimZeros(s);
            |r| <= |s| && s == r + Zeros(|s| - |r|) && (r != "" ==> r[|r| - 1] != '0')
  {
    if s != "" && s[|s| - 1] == '0' {
      TrimZerosSplits(s[..|s| - 1]);
      assert s == s[..|s| - 1] + Zeros(1);
    }
  }

  lemma {:induction false} NothingBelowZeros(s: string)
    requires AllDigits(s)
    ensures !Less(s, Zeros(|s|))
  {
    if s != "" {
      assert s[0] in s;
      assert Zeros(|s|)[1..] == Zeros(|s| - 1);
      NothingBelowZeros(s[1..]);
    }
  }

  /** The significant digits are a prefix of the nine printed ones, which only zeros follow. */
  lemma FractionSplits(n: nat)
    requires n < 1_000_000_000
    ensures var d := FractionDigits(n);
            |d| <= 9 && ZeroPad(n, 9) == d + Zeros(9 - |d|) && AllDigits(d)
    ensures n == 0 <==> FractionDigits(n) == ""
  {
    NanoWidth();
    var p := ZeroPad(n, 9);
    ZeroPadWidth(n, 9);
    ZeroPadReads(n, 9);
    TrimZerosSplits(p);
    assert forall i | 0 <= i < |FractionDigits(n)| :: FractionDigits(n)[i] == p[i];
    if n == 0 {
      ZeroPadOrder(0, 0, 9, "", "");
      ZeroIsZeros(9);
      TrimZerosOfZeros(9);
    } else {
      ZeroIsZeros(9);
      ZeroPadReads(0, 9);
    }
  }

  lemma FractionInjective(n: nat, m: nat)
    requires n < 1_000_000_000 && m < 1_000_000_000 && n != m
    ensures FractionDigits(n) != FractionDigits(m)
  {
    FractionSplits(n);
    FractionSplits(m);
    ZeroPadReads(n, 9);
    ZeroPadReads(m, 9);
  }

  lemma NanoWidth()
    ensures Pow10(9) == 1_000_000_000
  {
    Pow10Values();
    assert Pow10(6) == 10 * Pow10(5) == 100 * Pow10(4);
    assert Pow10(8) == 10 * Pow10(7) == 100 * Pow10(6);
  }

  lemma {:induction false} ZeroIsZeros(w: nat)
    requires 0 < w
    ensures ZeroPad(0, w) == Zeros(w)
  {
    if w > 1 {
      ZeroIsZeros(w - 1);
    }
  }

  lemma {:induction false} TrimZerosOfZeros(k: nat)
    ensures TrimZeros(Zeros(k)) == ""
  {
    if k > 0 {
      assert Zeros(k)[..k - 1] == Zeros(k - 1);
      TrimZerosOfZeros(k - 1);
    }
  }

  /** Fractions whose digits diverge compare as strings the way they compare in time. */
  lemma DivergingFractions(n: nat, m: nat)
    requires n < 1_000_000_000 && m < 1_000_000_000
    requires !(FractionDigits(n) <= FractionDigits(m)) && !(FractionDigits(m) <= FractionDigits(n))
    ensures Less(Fraction(n) + "Z", Fraction(m) + "Z") <==> n < m
  {
    hide ZeroPad, TrimZeros, Less, Pow10, FractionDigits, AllDigits;
    var a, b := FractionDigits(n), FractionDigits(m);
    FractionSplits(n);
    FractionSplits(m);
    NanoWidth();
    LessDecided(a, b, "Z", "Z");
    LessDecided(a, b, Zeros(9 - |a|), Zeros(9 - |b|));
    ZeroPadOrder(n, m, 9, "", "");
    assert ZeroPad(n, 9) + "" == ZeroPad(n, 9) && ZeroPad(m, 9) + "" == ZeroPad(m, 9);
    LessSamePrefix(".", a + "Z", b + "Z");
    assert Fraction(n) + "Z" == "." + (a + "Z") && Fraction(m) + "Z" == "." + (b + "Z");
  }

  /** A fraction whose digits continue another's is later in time but prints lower. */
  lemma ContinuingFraction(n: nat, m: nat)
    requires n < 1_000_000_000 && m < 1_000_000_000 && n != m
    requires FractionDigits(n) <= FractionDigits(m)
    ensures n < m
    ensures Less(Fraction(m) + "Z", Fraction(n) + "Z") && !Less(Fraction(n) + "Z", Fraction(m) + "Z")
  {
    ContinuingIsLater(n, m);
    var r := Continues(n, m);
    hide Less, FractionDigits;
    if n == 0 {
      StartsText(FractionDigits(n), r);
    } else {
      LongerText(FractionDigits(n), r);
    }
  }

  lemma Regroup(a: string, b: string, c: string)
    ensures (a + b) + c == a + (b + c)
  {
  }

  lemma StartsText(d: string, r: string)
    requires d == "" && r != "" && IsDigit(r[0])
    ensures Less(("." + (d + r)) + "Z", "" + "Z") && !Less("" + "Z", ("." + (d + r)) + "Z")
  {
    assert d + r == r && "" + "Z" == "Z";
    Regroup(".", r, "Z");
    DotOrDigitFirst(".", r + "Z");
  }

  lemma LongerText(d: string, r: string)
    requires r != "" && IsDigit(r[0])
    ensures Less(("." + (d + r)) + "Z", ("." + d) + "Z") && !Less(("." + d) + "Z", ("." + (d + r)) + "Z")
  {
    Regroup(".", d, r);
    Regroup("." + d, r, "Z");
    LongerFirst("." + d, r);
  }

  /** The digits by which one fraction continues another. */
  lemma Continues(n: nat, m: nat) returns (r: string)
    requires n < 1_000_000_000 && m < 1_000_000_000 && n != m
    requires FractionDigits(n) <= FractionDigits(m)
    ensures r != "" && IsDigit(r[0]) && FractionDigits(m) == FractionDigits(n) + r
    ensures n == 0 ==> FractionDigits(n) == ""
  {
    FractionInjective(n, m);
    FractionSplits(n);
    FractionSplits(m);
    hide ZeroPad, TrimZeros, FractionDigits, Pow10;
    r := FractionDigits(m)[|FractionDigits(n)|..];
    assert r[0] in FractionDigits(m);
  }

  /** Among texts that share a beginning and end in Z, the one that goes on with digits is
      the lower. */
  lemma LongerFirst(p: string, r: string)
    requires r != "" && IsDigit(r[0])
    ensures Less(p + (r + "Z"), p + "Z") && !Less(p + "Z", p + (r + "Z"))
  {
    LessSamePrefix(p, "Z", r + "Z");
    LessSamePrefix(p, r + "Z", "Z");
    DotOrDigitFirst([r[0]], r[1..] + "Z");
    assert [r[0]] + (r[1..] + "Z") == r + "Z";
  }

  /** A dot and every digit sort below the closing Z. */
  lemma DotOrDigitFirst(first: string, rest: string)
    requires |first| == 1 && (first[0] == '.' || IsDigit(first[0]))
    ensures Less(first + rest, "Z") && !Less("Z", first + rest)
  {
    assert (first + rest)[0] == first[0];
  }

  lemma ContinuingIsLater(n: nat, m: nat)
    requires n < 1_000_000_000 && m < 1_000_000_000 && n != m
    requires FractionDigits(n) <= FractionDigits(m)
    ensures n < m
  {
    hide ZeroPad, TrimZeros, FractionDigits, Pow10, Less;
    var a, b := FractionDigits(n), FractionDigits(m);
    FractionSplits(n);
    FractionSplits(m);
    NanoWidth();
    var tail := b[|a|..] + Zeros(9 - |b|);
    assert b == a + b[|a|..];
    assert ZeroPad(m, 9) == a + tail;
    assert AllDigits(tail);
    NothingBelowZeros(tail);
    LessSamePrefix(a, tail, Zeros(9 - |a|));
    ZeroPadOrder(m, n, 9, "", "");
    assert ZeroPad(n, 9) + "" == ZeroPad(n, 9) && ZeroPad(m, 9) + "" == ZeroPad(m, 9);
  }

  /** When string order is time order: for two different instants, exactly when they do not
      fall in one second with the digits of one fraction continuing those of the other.
      In particular it is whenever the seconds differ. */
  lemma StampOrderIsTimeOrder(a: Stamp, b: Stamp)
    requires ValidStamp(a) && ValidStamp(b) && a != b
    ensures (Less(FormatStamp(a), FormatStamp(b)) <==> Earlier(a, b)) <==>
            !(SameSecond(a, b) && (FractionDigits(a.nano) <= FractionDigits(b.nano) ||
                                   FractionDigits(b.nano) <= FractionDigits(a.nano)))
  {
    StampTextOrder(a, b);
    if SameSecond(a, b) {
      if FractionDigits(a.nano) <= FractionDigits(b.nano) {
        ContinuingFraction(a.nano, b.nano);
      } else if FractionDigits(b.nano) <= FractionDigits(a.nano) {
        ContinuingFraction(b.nano, a.nano);
      } else {
        DivergingFractions(a.nano, b.nano);
      }
    }
  }

  /** store.dayLowerBound: the day itself, or "" when it does not parse. */
  function DayLowerBound(s: string): string {
    if ParseDay(Trim(s)).None? then "" else Trim(s)
  }

  /** store.dayUpperBound: the following day, or "" when it does not parse. */
  function DayUpperBound(s: string): string {
    match ParseDay(Trim(s))
    case None => ""
    case Some(d) => FormatDay(NextDay(d))
  }

  /** occurred_at >= dayLowerBound(From) admits exactly the days from From on. */
  lemma LowerBoundExact(from: string, t: Stamp)
    requires ParseDay(Trim(from)).Some? && ValidStamp(t)
    ensures DayLowerBound(from) != ""
    ensures !Less(FormatStamp(t), DayLowerBound(from)) <==>
            DayNumber(ParseDay(Trim(from)).value) <= DayNumber(t.day)
  {
    var d := ParseDay(Trim(from)).value;
    OrderIsNumber(t.day, d);
    hide DayNumber;
    ParseDayExact(Trim(from), d);
    DateTextOrder(t.day, d, ClockText(t, Fraction(t.nano) + "Z"), "");
  }

  /** occurred_at < dayUpperBound(To) admits exactly the days up to To, except that the
      five-digit year after 9999-12-31 sorts below every year from 1001 on. */
  lemma UpperBoundExact(to: string, t: Stamp)
    requires ParseDay(Trim(to)).Some? && ValidStamp(t)
    ensures DayUpperBound(to) != ""
    ensures var d := ParseDay(Trim(to)).value;
            Less(FormatStamp(t), DayUpperBound(to)) <==>
            if d == LAST_DAY then t.day.year <= 1000 else DayNumber(t.day) <= DayNumber(d)
  {
    var d := ParseDay(Trim(to)).value;
    OrderIsNumber(d, t.day);
    hide DayNumber;
    ParseDayExact(Trim(to), d);
    NextDayIsSuccessor(d);
    var rest := ClockText(t, Fraction(t.nano) + "Z");
    assert FormatDay(NextDay(d))[..0] == "";
    if d != LAST_DAY {
      DateTextOrder(t.day, NextDay(d), rest, "");
    } else {
      FiveDigitYear(t.day, rest);
    }
  }

  lemma FiveDigitYear(d: Day, rest: string)
    requires ValidDay(d)
    ensures Less(DateText(d, rest), FormatDay(NextDay(LAST_DAY))) <==> d.year <= 1000
  {
    Pow10Values();
    var x := "-" + (ZeroPad(d.month, 2) + ("-" + (ZeroPad(d.day, 2) + rest)));
    var y := "-" + (ZeroPad(1, 2) + ("-" + (ZeroPad(1, 2) + "")));
    ZeroPadOrder(d.year, 1000, 4, x, "0" + y);
    assert ZeroPad(10000, 4) == ZeroPad(1000, 3) + "0";
    assert ZeroPad(1000, 3) == ZeroPad(1000, 4) by {
      assert ZeroPad(1, 0) == ZeroPad(1, 1);
      assert ZeroPad(10, 1) == ZeroPad(10, 2);
      assert ZeroPad(100, 2) == ZeroPad(100, 3);
    }
    assert FormatDay(NextDay(LAST_DAY)) == ZeroPad(1000, 4) + ("0" + y);
  }

  /** The day window of the audit viewer: for every valid From and To, the string tests hold
      exactly on the instants whose UTC day lies in the window, unless To is 9999-12-31 and
      the instant is in the window but after year 1000, which the viewer then misses. */
  lemma DayWindow(from: string, to: string, t: Stamp)
    requires ParseDay(Trim(from)).Some? && ParseDay(Trim(to)).Some? && ValidStamp(t)
    ensures var f, d := ParseDay(Trim(from)).value, ParseDay(Trim(to)).value;
            var tests := !Less(FormatStamp(t), DayLowerBound(from)) && Less(FormatStamp(t), DayUpperBound(to));
            var inside := DayNumber(f) <= DayNumber(t.day) <= DayNumber(d);
            (tests <==> inside) <==> !(d == LAST_DAY && t.day.year > 1000 && DayNumber(f) <= DayNumber(t.day))
  {
    LowerBoundExact(from, t);
    UpperBoundExact(to, t);
    var d := ParseDay(Trim(to)).value;
    ParseDayExact(Trim(to), d);
    OrderIsNumber(d, t.day);
    hide DayNumber, FormatStamp;
  }

  /** A second that begins sorts after its own half: "...05Z" against "...05.5Z". */
  lemma HalfSecondSortsFirst(t: Stamp)
    requires ValidStamp(t)
    ensures var a, b := t.(nano := 0), t.(nano := 500_000_000);
            Earlier(a, b) && Less(FormatStamp(b), FormatStamp(a)) && !Less(FormatStamp(a), FormatStamp(b))
  {
    var a, b := t.(nano := 0), t.(nano := 500_000_000);
    FractionSplits(0);
    ContinuingFraction(0, 500_000_000);
    StampTextOrder(a, b);
    StampTextOrder(b, a);
  }

  /** With To 9999-12-31 the viewer misses that very day, and every day after the year 1000. */
  lemma LastDayMissed(t: Stamp)
    requires ValidStamp(t) && t.day.year > 1000
    ensures var to := FormatDay(LAST_DAY);
            && ParseDay(Trim(to)) == Some(LAST_DAY) && DayNumber(t.day) <= DayNumber(LAST_DAY)
            && !Less(FormatStamp(t), DayUpperBound(to))
  {
    var to := FormatDay(LAST_DAY);
    ParseDayExact(to, LAST_DAY);
    assert AllDigits(to[..4]) && AllDigits(to[8..]) && |to| == 10;
    assert to[0] == to[..4][0] && to[9] == to[8..][1];
    assert to[..4][0] in to[..4] && to[8..][1] in to[8..];
    TrimIsBare(to);
    UpperBoundExact(to, t);
    OrderIsNumber(LAST_DAY, t.day);
    hide DayNumber;
  }

  // ---- the form of a stored timestamp ----

  /** What the text of a timestamp says, part by part, after section 5.6 of RFC 3339. */
  ghost predicate ReadsAs(s: string, t: Stamp) {
    |s| >= 20 && DatePart(s[..10], t.day) && ClockPart(s[10..19], t) && TailPart(s[19..], t.nano)
  }

  predicate DatePart(s: string, d: Day) {
    && |s| == 10 && s[4] == '-' && s[7] == '-'
    && s[..4] == ZeroPad(d.year, 4) && s[5..7] == ZeroPad(d.month, 2) && s[8..] == ZeroPad(d.day, 2)
  }

  predicate ClockPart(s: string, t: Stamp) {
    && |s| == 9 && s[0] == 'T' && s[3] == ':' && s[6] == ':'
    && s[1..3] == ZeroPad(t.hour, 2) && s[4..6] == ZeroPad(t.minute, 2) && s[7..] == ZeroPad(t.second, 2)
  }

  /** What follows the seconds: nothing, or a dot and the digits, and then the Z. */
  predicate TailPart(tail: string, nano: nat) {
    && tail != "" && tail[|tail| - 1] == 'Z'
    && if nano == 0 then |tail| == 1
       else
         && 3 <= |tail| <= 11 && tail[0] == '.' && tail[|tail| - 2] != '0'
         && tail[1..|tail| - 1] + Zeros(11 - |tail|) == ZeroPad(nano, 9)
  }

  lemma FractionEnds(n: nat)
    requires 0 < n < 1_000_000_000
    ensures var d := FractionDigits(n); 1 <= |d| <= 9 && d[|d| - 1] != '0' && ZeroPad(n, 9) == d + Zeros(9 - |d|)
  {
    FractionSplits(n);
    TrimZerosSplits(ZeroPad(n, 9));
    hide ZeroPad, Pow10, TrimZeros;
  }

  lemma DateSplits(d: Day, rest: string)
    requires ValidDay(d)
    ensures var s := DateText(d, rest);
            |s| == 10 + |rest| && s[10..] == rest && DatePart(s[..10], d)
  {
    DateReads(d, rest);
    hide ZeroPad;
    var s := DateText(d, rest);
    assert s[..10][..4] == s[..4] && s[..10][5..7] == s[5..7] && s[..10][8..] == s[8..10];
  }

  lemma ClockSplits(t: Stamp, rest: string)
    requires ValidStamp(t)
    ensures var s := ClockText(t, rest);
            |s| == 9 + |rest| && s[9..] == rest && ClockPart(s[..9], t)
  {
    Pow10Values();
    ZeroPadWidth(t.hour, 2);
    ZeroPadWidth(t.minute, 2);
    ZeroPadWidth(t.second, 2);
    hide ZeroPad, Pow10;
    var s := ClockText(t, rest)[..9];
    assert s[1..3] == ZeroPad(t.hour, 2) && s[4..6] == ZeroPad(t.minute, 2) && s[7..] == ZeroPad(t.second, 2);
  }

  lemma TailReads(nano: nat)
    requires nano < 1_000_000_000
    ensures TailPart(Fraction(nano) + "Z", nano)
  {
    var tail := Fraction(nano) + "Z";
    if nano > 0 {
      FractionEnds(nano);
      hide ZeroPad, FractionDigits;
      assert tail[1..|tail| - 1] == FractionDigits(nano);
    }
  }

  /** Every stored timestamp reads back as the instant it was written for. */
  lemma StampReads(t: Stamp)
    requires ValidStamp(t)
    ensures ReadsAs(FormatStamp(t), t)
  {
    var tail := Fraction(t.nano) + "Z";
    var clock := ClockText(t, tail);
    DateSplits(t.day, clock);
    ClockSplits(t, tail);
    TailReads(t.nano);
    hide DateText, ClockText, DatePart, ClockPart, Fraction, ValidDay;
    var s := FormatStamp(t);
    assert s[10..19] == s[10..][..9] && s[19..] == s[10..][9..];
  }
}
