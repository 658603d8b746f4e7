/**
 * The proleptic Gregorian calendar that `datetime.utcfromtimestamp` and `strftime("%Y-%m-%d")` use.
 * Days are counted from 1970-01-01 (day 0), negative before it.
 */
module Calendar {
  import opened Text

  datatype Date = Date(year: int, month: int, day: int)

  predicate IsLeap(y: int)
  {
    y % 4 == 0 && (y % 100 != 0 || y % 400 == 0)
  }

  function DaysInMonth(y: int, m: int): int
    requires 1 <= m <= 12
  {
    if m == 2 then (if IsLeap(y) then 29 else 28)
    else if m == 4 || m == 6 || m == 9 || m == 11 then 30
    else 31
  }

  function DaysInYear(y: int): int
  {
    if IsLeap(y) then 366 else 365
  }

  /** A real calendar date: month 1..12 and a day that the month has. */
  predicate Valid(d: Date)
  {
    1 <= d.month <= 12 && 1 <= d.day <= DaysInMonth(d.year, d.month)
  }

  // ---------------------------------------------------------------------------------------------
  // Reference direction: from a date to its day number, counting whole years, months and days.

  /** The number of leap years among 1 .. y - 1 (floor division carries the count below year 1). */
  function LeapYearsBefore(y: int): int
  {
    (y - 1) / 4 - (y - 1) / 100 + (y - 1) / 400
  }

  /** Days of the months of year `y` that come before month `m`. */
  function DaysBeforeMonth(y: int, m: int): int
    requires 1 <= m <= 12
  {
    [0, 31, 59, 90, 120, 151, 181, 212, 243, 273, 304, 334][m - 1] + (if m > 2 && IsLeap(y) then 1 else 0)
  }

  /** The day number of January 1 of year `y`. */
  function YearStart(y: int): int
  {
    365 * (y - 1970) + LeapYearsBefore(y) - LeapYearsBefore(1970)
  }

  /** The day number of a date. */
  function DaysFromCivil(d: Date): int
    requires 1 <= d.month <= 12
  {
    YearStart(d.year) + DaysBeforeMonth(d.year, d.month) + d.day - 1
  }

  /** `LeapYearsBefore` counts one more exactly after a leap year, so a year lasts `DaysInYear` days. */
  lemma YearLength(y: int)
    ensures LeapYearsBefore(y + 1) == LeapYearsBefore(y) + (if IsLeap(y) then 1 else 0)
    ensures YearStart(y + 1) == YearStart(y) + DaysInYear(y)
  {
    NextQuotient(y - 1, 4);
    NextQuotient(y - 1, 100);
    NextQuotient(y - 1, 400);
    if y % 100 == 0 {
      DivisionByParts(y, 4, 25 * (y / 100), 0);
    }
    if y % 400 == 0 {
      DivisionByParts(y, 100, 4 * (y / 400), 0);
    }
  }

  /** Going from `x` to `x + 1` raises the quotient by `d` by one exactly when `x + 1` is a multiple of `d`. */
  lemma NextQuotient(x: int, d: int)
    requires d > 1
    ensures (x + 1) / d == if x % d == d - 1 then x / d + 1 else x / d
    ensures (x + 1) % d == 0 <==> x % d == d - 1
  {
    if x % d == d - 1 {
      DivisionByParts(x + 1, d, x / d + 1, 0);
    } else {
      DivisionByParts(x + 1, d, x / d, x % d + 1);
    }
  }

  /** Years start strictly later the later the year. */
  lemma {:induction false} YearStartIncreasing(a: int, b: int)
    requires a < b
    ensures YearStart(a) < YearStart(b)
    decreases b - a
  {
    YearLength(a);
    if a + 1 < b {
      YearStartIncreasing(a + 1, b);
    }
  }

  lemma YearStartMonotone(a: int, b: int)
    requires a <= b
    ensures YearStart(a) <= YearStart(b)
  {
    if a < b {
      YearStartIncreasing(a, b);
    }
  }

  /** The day after a valid date. */
  function NextDay(d: Date): Date
    requires Valid(d)
  {
    if d.day < DaysInMonth(d.year, d.month) then Date(d.year, d.month, d.day + 1)
    else if d.month < 12 then Date(d.year, d.month + 1, 1)
    else Date(d.year + 1, 1, 1)
  }

  /** Day 0 is 1970-01-01. */
  lemma EpochIsDayZero()
    ensures DaysFromCivil(Date(1970, 1, 1)) == 0
  {
  }

  /** `DaysFromCivil` counts days: the next day has the next number. */
  lemma NextDayNumber(d: Date)
    requires Valid(d)
    ensures Valid(NextDay(d))
    ensures DaysFromCivil(NextDay(d)) == DaysFromCivil(d) + 1
  {
    if d.day == DaysInMonth(d.year, d.month) && d.month == 12 {
      YearLength(d.year);
    }
  }

  /** A valid date lies inside its own year. */
  lemma DayWithinYear(d: Date)
    requires Valid(d)
    ensures YearStart(d.year) <= DaysFromCivil(d) < YearStart(d.year + 1)
  {
    YearLength(d.year);
  }

  // ---------------------------------------------------------------------------------------------
  // Computed direction: from a day number to its date, through 400-, 100-, 4- and 1-year cycles of
  // years that begin on March 1 (so that the leap day is the last day of such a year).

  /** First day, counted from March 1, of month `mp` (0 = March .. 11 = February). */
  function MarchMonthStart(mp: int): int
    requires 0 <= mp <= 11
  {
    [0, 31, 61, 92, 122, 153, 184, 214, 245, 275, 306, 337][mp]
  }

  /** The month (0 = March .. 11 = February) that holds day `doy` of a year beginning on March 1. */
  function MarchMonth(doy: int): (mp: int)
    requires 0 <= doy <= 365
    ensures 0 <= mp <= 11 && MarchMonthStart(mp) <= doy
    ensures mp < 11 ==> doy < MarchMonthStart(mp + 1)
  {
    if doy < 31 then 0 else if doy < 61 then 1 else if doy < 92 then 2
    else if doy < 122 then 3 else if doy < 153 then 4 else if doy < 184 then 5
    else if doy < 214 then 6 else if doy < 245 then 7 else if doy < 275 then 8
    else if doy < 306 then 9 else if doy < 337 then 10 else 11
  }

  /** Days from 0000-03-01 to March 1 of year `y`. */
  function DaysBeforeMarchYear(y: int): int
  {
    365 * y + y / 4 - y / 100 + y / 400
  }

  /**
   * Splits day `doe` of the 400-year era `era` through the 100-, 4- and 1-year cycles into the year
   * (beginning on March 1) that holds it and the day of that year.
   */
  function EraYear(era: int, doe: int): (r: (int, int))
    requires 0 <= doe < 146097
    ensures 0 <= r.1 <= 365
  {
    var c := if doe / 36524 < 3 then doe / 36524 else 3;
    var doc := doe - 36524 * c;
    var q := doc / 1461;
    var doq := doc % 1461;
    var yq := if doq / 365 < 3 then doq / 365 else 3;
    (400 * era + 100 * c + 4 * q + yq, doq - 365 * yq)
  }

  /** Splits `z`, a day count from 0000-03-01, into the year (beginning on March 1) that holds it and the day of that year. */
  function MarchYear(z: int): (r: (int, int))
    ensures 0 <= r.1 <= 365
  {
    EraYear(z / 146097, z % 146097)
  }

  /** Floor division is determined by a quotient and a remainder in range. */
  lemma DivisionByParts(x: int, d: int, q: int, r: int)
    requires d > 0 && 0 <= r < d && x == d * q + r
    ensures x / d == q && x % d == r
  {
    var k := q - x / d;
    assert d * k == x % d - r;
    if k >= 1 {
      MultipleAtLeast(d, k);
    } else if k <= -1 {
      MultipleAtLeast(d, -k);
    }
  }

  lemma {:induction false} MultipleAtLeast(d: int, k: int)
    requires d > 0 && k >= 1
    ensures d * k >= d
  {
    if k > 1 {
      MultipleAtLeast(d, k - 1);
      assert d * k == d * (k - 1) + d;
    }
  }

  /** The leap-year counts of a year written as 400 era + 100 c + 4 q + yq. */
  lemma CycleYearDivisions(era: int, c: int, q: int, yq: int)
    requires 0 <= c <= 3 && 0 <= q <= 24 && 0 <= yq <= 3
    ensures var y := 400 * era + 100 * c + 4 * q + yq;
      DaysBeforeMarchYear(y) == 146097 * era + 36524 * c + 1461 * q + 365 * yq
  {
    var y := 400 * era + 100 * c + 4 * q + yq;
    DivisionByParts(y, 4, 100 * era + 25 * c + q, yq);
    DivisionByParts(y, 100, 4 * era + c, 4 * q + yq);
    DivisionByParts(y, 400, era, 100 * c + 4 * q + yq);
  }

  /** The year after the last year of a four-year cycle is a leap year, except a century year other than the last. */
  lemma CycleLeapDay(era: int, c: int, q: int)
    requires 0 <= c <= 3 && 0 <= q <= 24 && (q == 24 ==> c == 3)
    ensures IsLeap(400 * era + 100 * c + 4 * q + 4)
  {
    var next := 400 * era + 100 * c + 4 * q + 4;
    DivisionByParts(next, 4, 100 * era + 25 * c + q + 1, 0);
    if q < 24 {
      DivisionByParts(next, 100, 4 * era + c, 4 * q + 4);
    } else {
      DivisionByParts(next, 400, era + 1, 0);
    }
  }

  /** Within one 400-year era the cycles are right: the year starts where `EraYear` says, and day 365 only exists before a leap day. */
  lemma EraSplit(era: int, doe: int)
    requires 0 <= doe < 146097
    ensures 146097 * era + doe == DaysBeforeMarchYear(EraYear(era, doe).0) + EraYear(era, doe).1
    ensures EraYear(era, doe).1 == 365 ==> IsLeap(EraYear(era, doe).0 + 1)
  {
    var c := if doe / 36524 < 3 then doe / 36524 else 3;
    var doc := doe - 36524 * c;
    var q := doc / 1461;
    var doq := doc % 1461;
    var yq := if doq / 365 < 3 then doq / 365 else 3;
    assert 0 <= doc <= 36524 && (doc == 36524 ==> c == 3);
    assert 0 <= q <= 24 && 0 <= yq <= 3;
    CycleYearDivisions(era, c, q, yq);
    if doq - 365 * yq == 365 {
      assert doq == 1460 && yq == 3;
      assert q == 24 ==> doc == 36524;
      CycleLeapDay(era, c, q);
    }
  }

  /** `MarchYear` is right: the year starts where it says, and day 365 only exists before a leap day. */
  lemma MarchYearSplit(z: int)
    ensures z == DaysBeforeMarchYear(MarchYear(z).0) + MarchYear(z).1
    ensures MarchYear(z).1 == 365 ==> IsLeap(MarchYear(z).0 + 1)
  {
    EraSplit(z / 146097, z % 146097);
  }

  /** The date of day number `n`. */
  function CivilFromDays(n: int): (d: Date)
    ensures 1 <= d.month <= 12 && 1 <= d.day <= 31
  {
    var yd := MarchYear(n + 719468);
    var mp := MarchMonth(yd.1);
    var m := if mp < 10 then mp + 3 else mp - 9;
    Date(if m <= 2 then yd.0 + 1 else yd.0, m, yd.1 - MarchMonthStart(mp) + 1)
  }

  /** `CivilFromDays` from the March-based year and day of year of its day number. */
  lemma CivilFromMarchYear(n: int, y: int, doy: int)
    requires MarchYear(n + 719468) == (y, doy)
    ensures var mp := MarchMonth(doy);
      var m := if mp < 10 then mp + 3 else mp - 9;
      CivilFromDays(n) == Date(if m <= 2 then y + 1 else y, m, doy - MarchMonthStart(mp) + 1)
  {
  }

  /** Every day number names a real date. */
  lemma CivilFromDaysValid(n: int)
    ensures Valid(CivilFromDays(n))
  {
    MarchYearSplit(n + 719468);
  }

  /** The date of day `n` has day number `n`. */
  lemma CivilFromDaysInverse(n: int)
    ensures DaysFromCivil(CivilFromDays(n)) == n
  {
    var yd := MarchYear(n + 719468);
    var y := yd.0;
    MarchYearSplit(n + 719468);
    YearLength(y);
    assert LeapYearsBefore(y + 1) == y / 4 - y / 100 + y / 400;
  }

  /** Two real dates with the same day number lie in the same year. */
  lemma SameDayNumberSameYear(d: Date, e: Date)
    requires Valid(d) && Valid(e) && DaysFromCivil(d) == DaysFromCivil(e)
    ensures d.year == e.year
  {
    DayWithinYear(d);
    DayWithinYear(e);
    if e.year < d.year {
      YearStartIncreasing(e.year + 1, d.year);
    } else if d.year < e.year {
      YearStartIncreasing(d.year + 1, e.year);
    }
  }

  /** The day number of a real date gives that date back. */
  lemma DaysFromCivilInverse(d: Date)
    requires Valid(d)
    ensures CivilFromDays(DaysFromCivil(d)) == d
  {
    var n := DaysFromCivil(d);
    var e := CivilFromDays(n);
    CivilFromDaysValid(n);
    CivilFromDaysInverse(n);
    SameDayNumberSameYear(d, e);
    MonthsDisjoint(d, e);
  }

  /** Two real dates of one year with the same day number are the same date. */
  lemma MonthsDisjoint(d: Date, e: Date)
    requires Valid(d) && Valid(e) && d.year == e.year
    requires DaysBeforeMonth(d.year, d.month) + d.day == DaysBeforeMonth(e.year, e.month) + e.day
    ensures d == e
  {
    if d.month < e.month {
      MonthEndBeforeNext(d.year, d.month, e.month);
    } else if e.month < d.month {
      MonthEndBeforeNext(d.year, e.month, d.month);
    }
  }

  /** A month ends before any later month of the year begins. */
  lemma MonthEndBeforeNext(y: int, m: int, m': int)
    requires 1 <= m < m' <= 12
    ensures DaysBeforeMonth(y, m) + DaysInMonth(y, m) <= DaysBeforeMonth(y, m')
  {
  }

  /** The year of day `n` is the year whose span holds `n`. */
  lemma CivilFromDaysYear(n: int)
    ensures YearStart(CivilFromDays(n).year) <= n < YearStart(CivilFromDays(n).year + 1)
  {
    CivilFromDaysValid(n);
    CivilFromDaysInverse(n);
    DayWithinYear(CivilFromDays(n));
  }

  /** The year of day `n` lies in `lo .. hi` exactly when `n` lies between the starts of those years. */
  lemma CivilFromDaysYearRange(n: int, lo: int, hi: int)
    requires lo <= hi
    ensures lo <= CivilFromDays(n).year <= hi <==> YearStart(lo) <= n < YearStart(hi + 1)
  {
    CivilFromDaysYear(n);
    YearOfDayRange(n, CivilFromDays(n).year, lo, hi);
  }

  /** A day of year `y` lies between the starts of years `lo` and `hi + 1` exactly when `y` lies in `lo .. hi`. */
  lemma YearOfDayRange(n: int, y: int, lo: int, hi: int)
    requires lo <= hi && YearStart(y) <= n < YearStart(y + 1)
    ensures lo <= y <= hi <==> YearStart(lo) <= n < YearStart(hi + 1)
  {
    if lo <= y { YearStartMonotone(lo, y); } else { YearStartMonotone(y + 1, lo); }
    if y <= hi { YearStartMonotone(y + 1, hi + 1); } else { YearStartMonotone(hi + 1, y); }
  }

  // ---------------------------------------------------------------------------------------------
  // `strftime("%Y-%m-%d")` and reading such a string back.

  function Pad2(n: int): string
    requires 0 <= n < 100
  {
    [DigitChar(n / 10), DigitChar(n % 10)]
  }

  function Pad4(n: int): string
    requires 0 <= n < 10000
  {
    Pad2(n / 100) + Pad2(n % 100)
  }

  /** `strftime("%Y-%m-%d")` of a date whose year has at most four digits. */
  function IsoDate(d: Date): string
    requires 0 <= d.year < 10000 && 0 <= d.month < 100 && 0 <= d.day < 100
  {
    Pad4(d.year) + "-" + Pad2(d.month) + "-" + Pad2(d.day)
  }

  function DigitValue(c: char): int
  {
    c as int - '0' as int
  }

  /** Reads `YYYY-MM-DD` back into a date. */
  function ParseIsoDate(s: string): Date
    requires |s| == 10
  {
    Date(1000 * DigitValue(s[0]) + 100 * DigitValue(s[1]) + 10 * DigitValue(s[2]) + DigitValue(s[3]),
         10 * DigitValue(s[5]) + DigitValue(s[6]),
         10 * DigitValue(s[8]) + DigitValue(s[9]))
  }

  lemma DigitRoundTrip(k: int)
    requires 0 <= k < 10
    ensures DigitValue(DigitChar(k)) == k && '0' <= DigitChar(k) <= '9'
  {
  }

  lemma Pad2RoundTrip(n: int)
    requires 0 <= n < 100
    ensures var s := Pad2(n); '0' <= s[0] <= '9' && '0' <= s[1] <= '9'
    ensures var s := Pad2(n); 10 * DigitValue(s[0]) + DigitValue(s[1]) == n
  {
    DigitRoundTrip(n / 10);
    DigitRoundTrip(n % 10);
  }

  lemma Pad4RoundTrip(n: int)
    requires 0 <= n < 10000
    ensures var s := Pad4(n); |s| == 4 && forall k :: 0 <= k < 4 ==> '0' <= s[k] <= '9'
    ensures var s := Pad4(n); 1000 * DigitValue(s[0]) + 100 * DigitValue(s[1]) + 10 * DigitValue(s[2]) + DigitValue(s[3]) == n
  {
    var hi, lo := Pad2(n / 100), Pad2(n % 100);
    Pad2RoundTrip(n / 100);
    Pad2RoundTrip(n % 100);
    assert Pad4(n)[0] == hi[0] && Pad4(n)[1] == hi[1] && Pad4(n)[2] == lo[0] && Pad4(n)[3] == lo[1];
  }

  /** `IsoDate` writes ten characters, dashes at 4 and 7 and digits elsewhere, and `ParseIsoDate` reads the date back. */
  lemma IsoDateRoundTrip(d: Date)
    requires 0 <= d.year < 10000 && 0 <= d.month < 100 && 0 <= d.day < 100
    ensures |IsoDate(d)| == 10
    ensures IsoDate(d)[4] == '-' && IsoDate(d)[7] == '-'
    ensures forall k :: 0 <= k < 10 && k != 4 && k != 7 ==> '0' <= IsoDate(d)[k] <= '9'
    ensures ParseIsoDate(IsoDate(d)) == d
  {
    var y, m, dd := Pad4(d.year), Pad2(d.month), Pad2(d.day);
    var s := IsoDate(d);
    assert s == y + "-" + m + "-" + dd;
    assert s[0..4] == y && s[5..7] == m && s[8..10] == dd;
    Pad4RoundTrip(d.year);
    Pad2RoundTrip(d.month);
    Pad2RoundTrip(d.day);
  }
}
