/** The order in which std::string values compare. */
module Lexicographic {
  predicate Less(a: string, b: string) {
    b != [] && (a == [] || a[0] < b[0] || (a[0] == b[0] && Less(a[1..], b[1..])))
  }

  predicate AtMost(a: string, b: string) { a == b || Less(a, b) }

  lemma {:induction false} Trichotomy(a: string, b: string)
    ensures a == b || Less(a, b) || Less(b, a)
    ensures !(Less(a, b) && Less(b, a)) && !Less(a, a)
  {
    if a != [] && b != [] && a[0] == b[0] {
      Trichotomy(a[1..], b[1..]);
      assert a == [a[0]] + a[1..] && b == [b[0]] + b[1..];
    }
    if a != [] {
      Trichotomy(a[1..], a[1..]);
    }
  }

  lemma {:induction false} Transitive(a: string, b: string, c: string)
    requires Less(a, b) && Less(b, c)
    ensures Less(a, c)
  {
    if a != [] && a[0] == b[0] == c[0] {
      Transitive(a[1..], b[1..], c[1..]);
    }
  }

  /** With heads of equal length, the heads decide unless they are equal. */
  lemma {:induction false} Concat(a: string, b: string, x: string, y: string)
    requires |a| == |b|
    ensures Less(a + x, b + y) <==> Less(a, b) || (a == b && Less(x, y))
  {
    if a == [] {
      assert a + x == x && b + y == y;
    } else {
      assert (a + x)[1..] == a[1..] + x && (b + y)[1..] == b[1..] + y;
      Concat(a[1..], b[1..], x, y);
      assert a == b <==> a[0] == b[0] && a[1..] == b[1..] by {
        assert a == [a[0]] + a[1..] && b == [b[0]] + b[1..];
      }
    }
  }
}

/** Decimal fields of a fixed width. */
module Digits {
  import Lexicographic

  function Digit(d: nat): char
    requires d < 10
  {
    '0' + d as char
  }

  predicate IsDigit(c: char) { '0' <= c <= '9' }

  function Power10(w: nat): nat {
    if w == 0 then 1 else 10 * Power10(w - 1)
  }

  /** The last w decimal digits of n, zero padded. */
  function Fixed(n: nat, w: nat): (s: string)
    ensures |s| == w && forall i :: 0 <= i < w ==> IsDigit(s[i])
  {
    if w == 0 then "" else Fixed(n / 10, w - 1) + [Digit(n % 10)]
  }

  /** n in decimal, without padding. */
  function Decimal(n: nat): string {
    if n < 10 then [Digit(n)] else Decimal(n / 10) + [Digit(n % 10)]
  }

  lemma {:induction false} ValueOfDecimal(n: nat)
    ensures Decimal(n) != "" && forall i :: 0 <= i < |Decimal(n)| ==> IsDigit(Decimal(n)[i])
    ensures Value(Decimal(n)) == n && (n > 0 ==> Decimal(n)[0] != '0')
  {
    if n >= 10 {
      ValueOfDecimal(n / 10);
      assert Decimal(n)[..|Decimal(n)| - 1] == Decimal(n / 10);
    }
  }

  function Value(s: string): nat
    requires forall i :: 0 <= i < |s| ==> IsDigit(s[i])
  {
    if s == "" then 0
    else
      assert IsDigit(s[|s| - 1]);
      10 * Value(s[..|s| - 1]) + (s[|s| - 1] - '0') as nat
  }

  lemma {:induction false} ValueOfFixed(n: nat, w: nat)
    requires n < Power10(w)
    ensures Value(Fixed(n, w)) == n
  {
    if w > 0 {
      ValueOfFixed(n / 10, w - 1);
      assert Fixed(n, w)[..w - 1] == Fixed(n / 10, w - 1);
    }
  }

  lemma {:induction false} FixedOfValue(s: string)
    requires forall i :: 0 <= i < |s| ==> IsDigit(s[i])
    ensures Value(s) < Power10(|s|) && Fixed(Value(s), |s|) == s
  {
    if s != "" {
      var t := s[..|s| - 1];
      FixedOfValue(t);
      assert Value(s) / 10 == Value(t);
      assert s == t + [s[|s| - 1]];
    }
  }

  /** Zero-padded fields of one width compare like the numbers they show. */
  lemma {:induction false} FixedOrder(m: nat, n: nat, w: nat)
    requires m < Power10(w) && n < Power10(w)
    ensures Lexicographic.Less(Fixed(m, w), Fixed(n, w)) <==> m < n
    ensures Fixed(m, w) == Fixed(n, w) <==> m == n
  {
    if w > 0 {
      FixedOrder(m / 10, n / 10, w - 1);
      var a, b := Digit(m % 10), Digit(n % 10);
      Lexicographic.Concat(Fixed(m / 10, w - 1), Fixed(n / 10, w - 1), [a], [b]);
      assert Lexicographic.Less([a], [b]) <==> a < b;
      ValueOfFixed(m, w);
      ValueOfFixed(n, w);
    }
  }
}

/** UTC calendar of gmtime_r for the epochs from 1970 on: the proleptic Gregorian calendar. */
module Calendar {
  const EPOCH_YEAR := 1970
  const DAY_SECONDS := 86400

  datatype Civil = Civil(year: nat, month: nat, day: nat, hour: nat, minute: nat, second: nat) {
    predicate Valid() {
      && year >= EPOCH_YEAR && 1 <= month <= 12 && 1 <= day <= MonthLength(year, month)
      && hour < 24 && minute < 60 && second < 60
    }
  }

  predicate IsLeap(y: nat) { y % 4 == 0 && (y % 100 != 0 || y % 400 == 0) }

  function YearLength(y: nat): nat { if IsLeap(y) then 366 else 365 }

  function MonthLength(y: nat, m: nat): (n: nat)
    requires 1 <= m <= 12
    ensures 28 <= n <= 31
  {
    if m == 2 then (if IsLeap(y) then 29 else 28)
    else if m == 4 || m == 6 || m == 9 || m == 11 then 30
    else 31
  }

  function DaysBeforeYear(y: nat): nat
    requires y >= EPOCH_YEAR
  {
    if y == EPOCH_YEAR then 0 else DaysBeforeYear(y - 1) + YearLength(y - 1)
  }

  function DaysBeforeMonth(y: nat, m: nat): nat
    requires 1 <= m <= 13
  {
    if m == 1 then 0 else DaysBeforeMonth(y, m - 1) + MonthLength(y, m - 1)
  }

  /** Seconds since 1970-01-01T00:00:00Z. */
  function EpochOf(c: Civil): nat
    requires c.Valid()
  {
    (DaysBeforeYear(c.year) + DaysBeforeMonth(c.year, c.month) + c.day - 1) * DAY_SECONDS
    + c.hour * 3600 + c.minute * 60 + c.second
  }

  /** The year, counting up from y, in which the day number d (relative to y) falls. */
  function YearFrom(y: nat, d: nat): (nat, nat)
    decreases d
  {
    if d < YearLength(y) then (y, d) else YearFrom(y + 1, d - YearLength(y))
  }

  function MonthFrom(y: nat, m: nat, d: nat): (r: (nat, nat))
    requires 1 <= m <= 12 && DaysBeforeMonth(y, m) + d < YearLength(y)
    ensures m <= r.0 <= 12 && r.1 < MonthLength(y, r.0)
    ensures DaysBeforeMonth(y, m) + d == DaysBeforeMonth(y, r.0) + r.1
    decreases 12 - m
  {
    MonthsFillYear(y);
    if d < MonthLength(y, m) then (m, d) else MonthFrom(y, m + 1, d - MonthLength(y, m))
  }

  lemma MonthsFillYear(y: nat)
    ensures DaysBeforeMonth(y, 13) == YearLength(y) && DaysBeforeMonth(y, 12) == YearLength(y) - 31
  {
    var m4 := DaysBeforeMonth(y, 4);
    assert DaysBeforeMonth(y, 2) == DaysBeforeMonth(y, 1) + 31;
    assert m4 == DaysBeforeMonth(y, 3) + 31 == 31 + MonthLength(y, 2) + 31;
    var m7 := DaysBeforeMonth(y, 7);
    assert m7 == DaysBeforeMonth(y, 6) + 30 == DaysBeforeMonth(y, 5) + 61 == m4 + 91;
    var m10 := DaysBeforeMonth(y, 10);
    assert m10 == DaysBeforeMonth(y, 9) + 30 == DaysBeforeMonth(y, 8) + 61 == m7 + 92;
    assert DaysBeforeMonth(y, 12) == DaysBeforeMonth(y, 11) + 30 == m10 + 61;
  }

  /** Broken-down time of an epoch. */
  function CivilOf(e: nat): Civil {
    var days, secs := e / DAY_SECONDS, e % DAY_SECONDS;
    var (year, dayOfYear) := YearFrom(EPOCH_YEAR, days);
    YearFromInverse(EPOCH_YEAR, days);
    assert DaysBeforeMonth(year, 1) == 0;
    var (month, dayOfMonth) := MonthFrom(year, 1, dayOfYear);
    Civil(year, month, dayOfMonth + 1, secs / 3600, secs % 3600 / 60, secs % 60)
  }

  lemma {:induction false} YearFromInverse(y: nat, d: nat)
    requires y >= EPOCH_YEAR
    ensures var (year, rest) := YearFrom(y, d);
            year >= y && rest < YearLength(year) && DaysBeforeYear(year) + rest == DaysBeforeYear(y) + d
    decreases d
  {
    if d >= YearLength(y) {
      YearFromInverse(y + 1, d - YearLength(y));
    }
  }

  /** Converting to a calendar date and back gives the epoch. */
  lemma EpochOfCivil(e: nat)
    ensures CivilOf(e).Valid() && EpochOf(CivilOf(e)) == e
  {
    YearFromInverse(EPOCH_YEAR, e / DAY_SECONDS);
    var (year, dayOfYear) := YearFrom(EPOCH_YEAR, e / DAY_SECONDS);
    assert DaysBeforeMonth(year, 1) == 0;
  }

  /** The fields in order of significance. */
  predicate Before(a: Civil, b: Civil) {
    a.year < b.year || (a.year == b.year && (
    a.month < b.month || (a.month == b.month && (
    a.day < b.day || (a.day == b.day && (
    a.hour < b.hour || (a.hour == b.hour && (
    a.minute < b.minute || (a.minute == b.minute && a.second < b.second)))))))))
  }

  lemma {:induction false} YearsGrow(y: nat, z: nat)
    requires EPOCH_YEAR <= y < z
    ensures DaysBeforeYear(y) + YearLength(y) <= DaysBeforeYear(z)
    decreases z
  {
    if y + 1 < z {
      YearsGrow(y, z - 1);
    }
  }

  lemma {:induction false} MonthsGrow(y: nat, m: nat, n: nat)
    requires 1 <= m < n <= 13
    ensures DaysBeforeMonth(y, m) + MonthLength(y, m) <= DaysBeforeMonth(y, n)
    decreases n
  {
    if m + 1 < n {
      MonthsGrow(y, m, n - 1);
    }
  }

  function DayNumber(c: Civil): nat
    requires c.Valid()
  {
    DaysBeforeYear(c.year) + DaysBeforeMonth(c.year, c.month) + c.day - 1
  }

  lemma DayInYear(c: Civil)
    requires c.Valid()
    ensures DaysBeforeYear(c.year) <= DayNumber(c) < DaysBeforeYear(c.year) + YearLength(c.year)
  {
    MonthsFillYear(c.year);
    MonthsGrow(c.year, c.month, 13);
  }

  /** Later fields never outweigh earlier ones. */
  lemma BeforeIsEarlier(a: Civil, b: Civil)
    requires a.Valid() && b.Valid() && Before(a, b)
    ensures EpochOf(a) < EpochOf(b)
  {
    if a.year < b.year {
      YearsGrow(a.year, b.year);
      DayInYear(a);
      DayInYear(b);
      assert DayNumber(a) < DayNumber(b);
    } else if a.month < b.month {
      MonthsGrow(a.year, a.month, b.month);
      assert DayNumber(a) < DayNumber(b);
    }
  }

  /** Distinct valid dates have distinct epochs, in the order of their fields. */
  lemma EpochOrder(a: Civil, b: Civil)
    requires a.Valid() && b.Valid()
    ensures EpochOf(a) < EpochOf(b) <==> Before(a, b)
    ensures EpochOf(a) == EpochOf(b) <==> a == b
  {
    if Before(a, b) {
      BeforeIsEarlier(a, b);
    } else if Before(b, a) {
      BeforeIsEarlier(b, a);
    } else {
      assert a == b;
    }
  }

  lemma CivilOfEpoch(c: Civil)
    requires c.Valid()
    ensures CivilOf(EpochOf(c)) == c
  {
    EpochOfCivil(EpochOf(c));
    EpochOrder(CivilOf(EpochOf(c)), c);
  }

  lemma NewYear(y: nat)
    requires y >= EPOCH_YEAR
    ensures EpochOf(Civil(y, 1, 1, 0, 0, 0)) == DaysBeforeYear(y) * DAY_SECONDS
    ensures CivilOf(DaysBeforeYear(y) * DAY_SECONDS) == Civil(y, 1, 1, 0, 0, 0)
  {
    assert DaysBeforeMonth(y, 1) == 0;
    CivilOfEpoch(Civil(y, 1, 1, 0, 0, 0));
  }

  /** Leap years among the years 1..y. */
  function LeapsThrough(y: nat): int { y / 4 - y / 100 + y / 400 }

  lemma OneMoreMultiple(y: nat)
    ensures (y + 1) / 4 == y / 4 + (if (y + 1) % 4 == 0 then 1 else 0)
    ensures (y + 1) / 100 == y / 100 + (if (y + 1) % 100 == 0 then 1 else 0)
    ensures (y + 1) / 400 == y / 400 + (if (y + 1) % 400 == 0 then 1 else 0)
  {}

  lemma HundredsAreFours(q: nat)
    ensures (100 * q) % 4 == 0
  {
    assert (100 * q) / 4 == 25 * q;
  }

  lemma FourHundredsAreHundreds(q: nat)
    ensures (400 * q) % 100 == 0
  {
    assert (400 * q) / 100 == 4 * q;
  }

  lemma OneMoreLeap(y: nat)
    ensures LeapsThrough(y + 1) == LeapsThrough(y) + (if IsLeap(y + 1) then 1 else 0)
  {
    OneMoreMultiple(y);
    HundredsAreFours((y + 1) / 100);
    FourHundredsAreHundreds((y + 1) / 400);
  }

  /** Closed form of the day count, independent of the year-by-year definition. */
  lemma {:induction false} DaysBeforeYearClosed(y: nat)
    requires y >= EPOCH_YEAR
    ensures DaysBeforeYear(y) == 365 * (y - EPOCH_YEAR) + LeapsThrough(y - 1) - LeapsThrough(EPOCH_YEAR - 1)
  {
    if y > EPOCH_YEAR {
      DaysBeforeYearClosed(y - 1);
      OneMoreLeap(y - 2);
    }
  }

  // ----- a closed day number, without month lengths -----

  /** Days before a month: the month lengths from March on add up to (153 * k + 2) / 5. */
  lemma {:induction false} DaysBeforeMonthClosed(y: nat, m: nat)
    requires 1 <= m <= 12
    ensures m <= 2 ==> DaysBeforeMonth(y, m) == 31 * (m - 1)
    ensures m >= 3 ==> DaysBeforeMonth(y, m) == 59 + (if IsLeap(y) then 1 else 0) + (153 * (m - 3) + 2) / 5
  {
    if m > 1 {
      DaysBeforeMonthClosed(y, m - 1);
    }
  }

  /** The day number of a date in the proleptic Gregorian calendar, with the year begun in March. */
  function ClosedDay(y: nat, m: nat, d: nat): int
    requires y >= 1
  {
    var z := if m <= 2 then y - 1 else y;
    365 * z + z / 4 - z / 100 + z / 400 + (153 * ((m + 9) % 12) + 2) / 5 + d - 719469
  }

  lemma MarchOffset(y: nat, m: nat)
    requires y >= 1 && 3 <= m <= 12
    ensures ClosedDay(y, m, 1) == 365 * y + LeapsThrough(y) + (153 * (m - 3) + 2) / 5 - 719468
  {
    assert (m + 9) % 12 == m - 3;
  }

  lemma ClosedFromMarch(y: nat, m: nat)
    requires y >= EPOCH_YEAR && 3 <= m <= 12
    ensures DaysBeforeYear(y) + DaysBeforeMonth(y, m) == ClosedDay(y, m, 1)
  {
    DaysBeforeYearClosed(y);
    DaysBeforeMonthClosed(y, m);
    OneMoreLeap(y - 1);
    LeapsAtStart();
    MarchOffset(y, m);
  }

  lemma ClosedToFebruary(y: nat, m: nat)
    requires y >= EPOCH_YEAR && 1 <= m <= 2
    ensures DaysBeforeYear(y) + DaysBeforeMonth(y, m) == ClosedDay(y, m, 1)
  {
    DaysBeforeYearClosed(y);
    DaysBeforeMonthClosed(y, m);
    LeapsAtStart();
  }

  lemma ClosedDayNumber(c: Civil)
    requires c.Valid()
    ensures DayNumber(c) == ClosedDay(c.year, c.month, c.day)
  {
    if c.month <= 2 {
      ClosedToFebruary(c.year, c.month);
    } else {
      ClosedFromMarch(c.year, c.month);
    }
  }

  /** Every valid date has the closed day number, and its seconds follow from the clock. */
  lemma ClosedEpoch(c: Civil)
    requires c.Valid()
    ensures EpochOf(c) == ClosedDay(c.year, c.month, c.day) * 86400 + c.hour * 3600 + c.minute * 60 + c.second
  {
    ClosedDayNumber(c);
  }

  /** The date of an epoch is the one valid date whose closed day number and clock time give it. */
  lemma DateOfEpoch(c: Civil, e: nat)
    requires c.Valid()
    ensures CivilOf(e) == c <==>
            e == ClosedDay(c.year, c.month, c.day) * 86400 + c.hour * 3600 + c.minute * 60 + c.second
  {
    ClosedEpoch(c);
    CivilOfEpoch(c);
    EpochOfCivil(e);
  }

  /** The last day of March 2022. */
  lemma EndOfMarch(e: nat, c: Civil)
    requires e == 1648684800 && c == Civil(2022, 3, 31, 0, 0, 0)
    ensures c.Valid() && CivilOf(e) == c
  {
    assert MonthLength(2022, 3) == 31;
    assert ClosedDay(2022, 3, 31) == 19082;
    DateOfEpoch(c, e);
  }

  lemma LeapsAtStart()
    ensures LeapsThrough(EPOCH_YEAR - 1) == 477
  {}
}

/** The text form of timestamps, "%Y-%m-%dT%H:%M:%SZ". */
module IsoTimestamp {
  import opened Wrappers
  import opened Calendar
  import opened Digits
  import opened Lexicographic

  /** The first second whose year has five digits. */
  const YEAR_10000: nat := 253402300800

  /** %Y: no padding is ever needed from 1970 on, and five digits are printed from 10000 on. */
  function YearText(y: nat): string {
    if y < 10000 then Fixed(y, 4) else YearText(y / 10) + [Digit(y % 10)]
  }

  function ClockText(c: Civil): string {
    Fixed(c.hour, 2) + (":" + (Fixed(c.minute, 2) + (":" + (Fixed(c.second, 2) + "Z"))))
  }

  function Render(c: Civil): string {
    YearText(c.year) + ("-" + (Fixed(c.month, 2) + ("-" + (Fixed(c.day, 2) + ("T" + ClockText(c))))))
  }

  function EpochToIso(e: nat): string { Render(CivilOf(e)) }

  lemma DaysUntil10000()
    ensures DaysBeforeYear(10000) == 2932897
  {
    DaysBeforeYearClosed(10000);
  }

  lemma Year10000()
    ensures EpochOf(Civil(10000, 1, 1, 0, 0, 0)) == YEAR_10000
  {
    DaysUntil10000();
    NewYear(10000);
  }

  lemma FourDigitYears(e: nat)
    ensures CivilOf(e).year < 10000 <==> e < YEAR_10000
  {
    EpochOfCivil(e);
    Year10000();
    var c, d := CivilOf(e), Civil(10000, 1, 1, 0, 0, 0);
    EpochOrder(c, d);
    EpochOrder(d, c);
  }

  lemma FieldWidths(c: Civil)
    requires c.Valid() && c.year < 10000
    ensures c.year < Power10(4) && c.month < Power10(2) && c.day < Power10(2)
    ensures c.hour < Power10(2) && c.minute < Power10(2) && c.second < Power10(2)
  {
    assert Power10(2) == 10 * Power10(1) == 100;
    assert Power10(4) == 10 * Power10(3) == 100 * Power10(2);
  }

  /** One field and the separator after it. */
  lemma FieldOrder(m: nat, n: nat, w: nat, sep: char, x: string, y: string)
    requires m < Power10(w) && n < Power10(w)
    ensures Less(Fixed(m, w) + ([sep] + x), Fixed(n, w) + ([sep] + y)) <==> m < n || (m == n && Less(x, y))
  {
    FixedOrder(m, n, w);
    Concat(Fixed(m, w), Fixed(n, w), [sep] + x, [sep] + y);
    Concat([sep], [sep], x, y);
    Trichotomy([sep], [sep]);
  }

  lemma ClockOrder(a: Civil, b: Civil)
    requires a.Valid() && b.Valid() && a.year < 10000 && b.year < 10000
    ensures Less(ClockText(a), ClockText(b)) <==>
            a.hour < b.hour || (a.hour == b.hour && (
            a.minute < b.minute || (a.minute == b.minute && a.second < b.second)))
  {
    FieldWidths(a);
    FieldWidths(b);
    assert "Z" == ['Z'] + "";
    FieldOrder(a.second, b.second, 2, 'Z', "", "");
    FieldOrder(a.minute, b.minute, 2, ':', Fixed(a.second, 2) + "Z", Fixed(b.second, 2) + "Z");
    FieldOrder(a.hour, b.hour, 2, ':', Fixed(a.minute, 2) + (":" + (Fixed(a.second, 2) + "Z")),
               Fixed(b.minute, 2) + (":" + (Fixed(b.second, 2) + "Z")));
  }

  lemma RenderOrder(a: Civil, b: Civil)
    requires a.Valid() && b.Valid() && a.year < 10000 && b.year < 10000
    ensures Less(Render(a), Render(b)) <==> Before(a, b)
  {
    FieldWidths(a);
    FieldWidths(b);
    ClockOrder(a, b);
    var da, db := Fixed(a.day, 2) + ("T" + ClockText(a)), Fixed(b.day, 2) + ("T" + ClockText(b));
    FieldOrder(a.day, b.day, 2, 'T', ClockText(a), ClockText(b));
    FieldOrder(a.month, b.month, 2, '-', da, db);
    FieldOrder(a.year, b.year, 4, '-', Fixed(a.month, 2) + ("-" + da), Fixed(b.month, 2) + ("-" + db));
  }

  /** Strict order embedding: within the four-digit years, strings compare as epochs do. */
  lemma IsoOrder(e1: nat, e2: nat)
    requires e1 < YEAR_10000 && e2 < YEAR_10000
    ensures Less(EpochToIso(e1), EpochToIso(e2)) <==> e1 < e2
    ensures AtMost(EpochToIso(e1), EpochToIso(e2)) <==> e1 <= e2
    ensures |EpochToIso(e1)| == 20
  {
    EpochOfCivil(e1);
    EpochOfCivil(e2);
    FourDigitYears(e1);
    FourDigitYears(e2);
    EpochOrder(CivilOf(e1), CivilOf(e2));
    EpochOrder(CivilOf(e2), CivilOf(e1));
    RenderOrder(CivilOf(e1), CivilOf(e2));
    RenderOrder(CivilOf(e2), CivilOf(e1));
    Trichotomy(EpochToIso(e1), EpochToIso(e2));
    if e1 == e2 {
      Trichotomy(EpochToIso(e1), EpochToIso(e1));
    }
  }

  lemma {:induction false} YearStartsWithDigit(y: nat)
    ensures YearText(y) != "" && IsDigit(YearText(y)[0])
  {
    if y >= 10000 {
      YearStartsWithDigit(y / 10);
    }
  }

  lemma StartsWithDigit(e: nat)
    ensures EpochToIso(e) != "" && IsDigit(EpochToIso(e)[0])
  {
    YearStartsWithDigit(CivilOf(e).year);
  }

  ghost predicate OrderedBelow(bound: nat) {
    forall e1: nat, e2: nat :: e1 < bound && e2 < bound ==>
      (Less(EpochToIso(e1), EpochToIso(e2)) <==> e1 < e2)
  }

  /** The end of year 9999 is exactly how far the embedding reaches. */
  lemma IsoOrderLimit(bound: nat)
    ensures OrderedBelow(bound) <==> bound <= YEAR_10000
  {
    if bound <= YEAR_10000 {
      forall e1: nat, e2: nat | e1 < bound && e2 < bound
        ensures Less(EpochToIso(e1), EpochToIso(e2)) <==> e1 < e2
      {
        IsoOrder(e1, e2);
      }
    } else {
      FifthDigitBreaksOrder();
    }
  }

  /** 9999-12-31T23:59:59Z and the second after it. */
  lemma FifthDigitBreaksOrder()
    ensures Less(EpochToIso(YEAR_10000), EpochToIso(YEAR_10000 - 1))
  {
    LastFourDigitYear();
    NineFirst();
    OneFirst();
    Year10000();
    CivilOfEpoch(Civil(10000, 1, 1, 0, 0, 0));
  }

  lemma LastFourDigitYear()
    ensures CivilOf(YEAR_10000 - 1).year == 9999
  {
    var c, d := CivilOf(YEAR_10000 - 1), Civil(9999, 1, 1, 0, 0, 0);
    FourDigitYears(YEAR_10000 - 1);
    EpochOfCivil(YEAR_10000 - 1);
    DaysBeforeYearClosed(9999);
    EpochOrder(c, d);
  }

  lemma NineFirst()
    ensures YearText(9999)[0] == '9'
  {
    assert Fixed(9999, 4)[0] == Fixed(999, 3)[0] == Fixed(99, 2)[0] == Fixed(9, 1)[0];
    assert Fixed(9, 1) == Fixed(0, 0) + "9";
  }

  lemma OneFirst()
    ensures YearText(10000)[0] == '1'
  {
    assert YearText(10000)[0] == YearText(1000)[0] == Fixed(1000, 4)[0];
    assert Fixed(1000, 4)[0] == Fixed(100, 3)[0] == Fixed(10, 2)[0] == Fixed(1, 1)[0];
    assert Fixed(1, 1) == Fixed(0, 0) + "1";
  }

  // ----- parsing -----

  predicate DigitsAt(s: string, i: nat, w: nat) {
    i + w <= |s| && forall k :: i <= k < i + w ==> IsDigit(s[k])
  }

  predicate Shaped(s: string) {
    && |s| == 20
    && DigitsAt(s, 0, 4) && s[4] == '-' && DigitsAt(s, 5, 2) && s[7] == '-' && DigitsAt(s, 8, 2) && s[10] == 'T'
    && DigitsAt(s, 11, 2) && s[13] == ':' && DigitsAt(s, 14, 2) && s[16] == ':' && DigitsAt(s, 17, 2) && s[19] == 'Z'
  }

  function FieldsOf(s: string): Civil
    requires Shaped(s)
  {
    Civil(Value(s[0..4]), Value(s[5..7]), Value(s[8..10]), Value(s[11..13]), Value(s[14..16]), Value(s[17..19]))
  }

  /** Reference reader of RFC 3339 section 5.6 for the "Z" form: rejects every other text. */
  function Parse(s: string): Option<nat> {
    if Shaped(s) && FieldsOf(s).Valid() then Some(EpochOf(FieldsOf(s))) else None
  }

  lemma DigitsFrom(s: string, i: nat, w: nat, n: nat)
    requires i + w <= |s| && s[i..i + w] == Fixed(n, w)
    ensures DigitsAt(s, i, w)
  {
    assert forall k :: i <= k < i + w ==> s[k] == s[i..i + w][k - i];
  }

  lemma ClockPieces(c: Civil)
    requires c.Valid()
    ensures var t := ClockText(c);
            && |t| == 9 && t[2] == ':' && t[5] == ':' && t[8] == 'Z'
            && t[0..2] == Fixed(c.hour, 2) && t[3..5] == Fixed(c.minute, 2) && t[6..8] == Fixed(c.second, 2)
  {}

  lemma DatePieces(c: Civil)
    requires c.Valid() && c.year < 10000
    ensures var s := Render(c);
            && |s| == 11 + |ClockText(c)| && s[4] == '-' && s[7] == '-' && s[10] == 'T' && s[11..] == ClockText(c)
            && s[0..4] == Fixed(c.year, 4) && s[5..7] == Fixed(c.month, 2) && s[8..10] == Fixed(c.day, 2)
  {}

  lemma RenderPieces(c: Civil)
    requires c.Valid() && c.year < 10000
    ensures |Render(c)| == 20
    ensures var s := Render(c);
            && s[0..4] == Fixed(c.year, 4) && s[5..7] == Fixed(c.month, 2) && s[8..10] == Fixed(c.day, 2)
            && s[11..13] == Fixed(c.hour, 2) && s[14..16] == Fixed(c.minute, 2) && s[17..19] == Fixed(c.second, 2)
            && s[4] == '-' && s[7] == '-' && s[10] == 'T' && s[13] == ':' && s[16] == ':' && s[19] == 'Z'
  {
    DatePieces(c);
    ClockPieces(c);
    var s, t := Render(c), ClockText(c);
    assert forall k :: 0 <= k < 9 ==> s[11 + k] == t[k];
    assert s[11..13] == t[0..2] && s[14..16] == t[3..5] && s[17..19] == t[6..8];
  }

  lemma RenderShaped(c: Civil)
    requires c.Valid() && c.year < 10000
    ensures Shaped(Render(c))
  {
    var s := Render(c);
    RenderPieces(c);
    DigitsFrom(s, 0, 4, c.year);
    DigitsFrom(s, 5, 2, c.month);
    DigitsFrom(s, 8, 2, c.day);
    DigitsFrom(s, 11, 2, c.hour);
    DigitsFrom(s, 14, 2, c.minute);
    DigitsFrom(s, 17, 2, c.second);
  }

  /** Reading back what was printed gives the epoch; what can be read is what would be printed. */
  lemma ParseRender(e: nat)
    requires e < YEAR_10000
    ensures Parse(EpochToIso(e)) == Some(e)
  {
    EpochOfCivil(e);
    FourDigitYears(e);
    var c := CivilOf(e);
    RenderPieces(c);
    RenderShaped(c);
    FieldWidths(c);
    ValueOfFixed(c.year, 4);
    ValueOfFixed(c.month, 2);
    ValueOfFixed(c.day, 2);
    ValueOfFixed(c.hour, 2);
    ValueOfFixed(c.minute, 2);
    ValueOfFixed(c.second, 2);
  }

  /** What the text says, read off its characters: separators in place, fields in their ranges, and the
      closed day number and clock time of the fields give the epoch. */
  lemma IsoMeaning(e: nat)
    requires e < YEAR_10000
    ensures var s := EpochToIso(e);
            && |s| == 20 && s[4] == '-' && s[7] == '-' && s[10] == 'T' && s[13] == ':' && s[16] == ':' && s[19] == 'Z'
            && DigitsAt(s, 0, 4) && DigitsAt(s, 5, 2) && DigitsAt(s, 8, 2)
            && DigitsAt(s, 11, 2) && DigitsAt(s, 14, 2) && DigitsAt(s, 17, 2)
            && Value(s[0..4]) >= 1970 && 1 <= Value(s[5..7]) <= 12 && 1 <= Value(s[8..10]) <= 31
            && Value(s[11..13]) < 24 && Value(s[14..16]) < 60 && Value(s[17..19]) < 60
            && e == ClosedDay(Value(s[0..4]), Value(s[5..7]), Value(s[8..10])) * 86400
                    + Value(s[11..13]) * 3600 + Value(s[14..16]) * 60 + Value(s[17..19])
  {
    ParseRender(e);
    ClosedEpoch(FieldsOf(EpochToIso(e)));
  }

  /** Two digits, character by character. */
  function Two(n: nat): string
    requires n < 100
  {
    [Digit(n / 10), Digit(n % 10)]
  }

  lemma FixedTwo(n: nat)
    requires n < 100
    ensures Fixed(n, 2) == Two(n)
  {
    assert Fixed(n, 2) == Fixed(n / 10, 1) + [Digit(n % 10)];
    assert Fixed(n / 10, 1) == Fixed(0, 0) + [Digit(n / 10)];
  }

  lemma FixedFour(n: nat)
    requires n < 10000
    ensures Fixed(n, 4) == Two(n / 100) + Two(n % 100)
  {
    FixedTwo(n / 100);
    assert Fixed(n, 4) == Fixed(n / 10, 3) + [Digit(n % 10)];
    assert Fixed(n / 10, 3) == Fixed(n / 100, 2) + [Digit(n / 10 % 10)];
    assert n % 100 / 10 == n / 10 % 10 && n % 100 % 10 == n % 10;
  }

  /** The text, character by character. */
  lemma RenderCharacters(c: Civil)
    requires c.Valid() && c.year < 10000
    ensures Render(c) == Two(c.year / 100) + Two(c.year % 100) + "-" + Two(c.month) + "-" + Two(c.day) + "T"
                         + Two(c.hour) + ":" + Two(c.minute) + ":" + Two(c.second) + "Z"
  {
    FixedFour(c.year);
    FixedTwo(c.month);
    FixedTwo(c.day);
    FixedTwo(c.hour);
    FixedTwo(c.minute);
    FixedTwo(c.second);
  }

  lemma RenderParse(s: string)
    requires Parse(s).Some?
    ensures Parse(s).value < YEAR_10000 && EpochToIso(Parse(s).value) == s
  {
    var c := FieldsOf(s);
    RenderFields(s);
    CivilOfEpoch(c);
    FourDigitYears(EpochOf(c));
  }

  lemma RenderFields(s: string)
    requires Shaped(s)
    ensures FieldsOf(s).year < 10000 && Render(FieldsOf(s)) == s
  {
    FixedOfValue(s[0..4]);
    FixedOfValue(s[5..7]);
    FixedOfValue(s[8..10]);
    FixedOfValue(s[11..13]);
    FixedOfValue(s[14..16]);
    FixedOfValue(s[17..19]);
    assert Power10(4) == 10 * Power10(3) == 100 * Power10(2) == 1000 * Power10(1);
    Reassemble(s);
  }

  lemma Reassemble(s: string)
    requires Shaped(s)
    ensures s == s[0..4] + ("-" + (s[5..7] + ("-" + (s[8..10] + ("T" +
                 (s[11..13] + (":" + (s[14..16] + (":" + (s[17..19] + "Z"))))))))))
  {
    assert s[17..] == s[17..19] + "Z";
    assert s[14..] == s[14..16] + (":" + s[17..]);
    assert s[11..] == s[11..13] + (":" + s[14..]);
    assert s[8..] == s[8..10] + ("T" + s[11..]);
    assert s[5..] == s[5..7] + ("-" + s[8..]);
    assert s == s[0..4] + ("-" + s[5..]);
  }

  // ----- the two places that format a time -----

  /** strftime with the format of the CSV writer, where minutes are asked for as %m. */
  function CsvTimestamp(e: nat): string {
    var c := CivilOf(e);
    Render(c.(minute := c.month))
  }

  lemma CsvTimestampEnds(e: nat)
    ensures CsvTimestamp(e) != "" && CsvTimestamp(e)[|CsvTimestamp(e)| - 1] == 'Z'
  {
    var c := CivilOf(e);
    RenderEnds(c.(minute := c.month));
  }

  lemma RenderEnds(c: Civil)
    ensures Render(c) != "" && Render(c)[|Render(c)| - 1] == 'Z'
  {}

  /** The CSV timestamp is the time of the run exactly in the minutes numbered like the month. */
  lemma CsvTimestampIff(e: nat)
    requires e < YEAR_10000
    ensures CsvTimestamp(e) == EpochToIso(e) <==> CivilOf(e).minute == CivilOf(e).month
  {
    EpochOfCivil(e);
    FourDigitYears(e);
    var c := CivilOf(e);
    var d := c.(minute := c.month);
    RenderPieces(c);
    RenderPieces(d);
    FieldWidths(c);
    FixedOrder(c.minute, d.minute, 2);
  }

  /** The CSV timestamp shows the month where the minutes belong, and everything else in its place. */
  lemma CsvTimestampFields(e: nat)
    requires e < YEAR_10000
    ensures var s, t := CsvTimestamp(e), EpochToIso(e);
            |s| == 20 == |t| && s[..14] == t[..14] && s[14..16] == t[5..7] && s[16..] == t[16..]
  {
    EpochOfCivil(e);
    FourDigitYears(e);
    var c := CivilOf(e);
    var d := c.(minute := c.month);
    RenderPieces(c);
    RenderPieces(d);
    SamePieces(Render(d), Render(c));
  }

  lemma SamePieces(s: string, t: string)
    requires |s| == 20 == |t|
    requires s[0..4] == t[0..4] && s[5..7] == t[5..7] && s[8..10] == t[8..10]
    requires s[11..13] == t[11..13] && s[17..19] == t[17..19]
    requires s[4] == t[4] && s[7] == t[7] && s[10] == t[10] && s[13] == t[13] && s[16] == t[16] && s[19] == t[19]
    ensures s[..14] == t[..14] && s[16..] == t[16..]
  {
    assert forall k :: 0 <= k < 4 ==> s[k] == s[0..4][k] && t[k] == t[0..4][k];
    assert forall k :: 5 <= k < 7 ==> s[k] == s[5..7][k - 5] && t[k] == t[5..7][k - 5];
    assert forall k :: 8 <= k < 10 ==> s[k] == s[8..10][k - 8] && t[k] == t[8..10][k - 8];
    assert forall k :: 11 <= k < 13 ==> s[k] == s[11..13][k - 11] && t[k] == t[11..13][k - 11];
    assert forall k :: 17 <= k < 19 ==> s[k] == s[17..19][k - 17] && t[k] == t[17..19][k - 17];
  }

  lemma FirstHour(m: nat)
    requires m < 60
    ensures CivilOf(60 * m) == Civil(1970, 1, 1, 0, m, 0)
  {
    var c := Civil(1970, 1, 1, 0, m, 0);
    assert EpochOf(c) == 60 * m;
    CivilOfEpoch(c);
  }

  /** At 1970-01-01T00:00:00Z the row says one minute past midnight. */
  lemma CsvTimestampWrong()
    ensures CsvTimestamp(0) == EpochToIso(60) && CsvTimestamp(0) != EpochToIso(0)
  {
    FirstHour(0);
    FirstHour(1);
    CsvTimestampIff(0);
  }
}
