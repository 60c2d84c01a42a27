/** The calendar arithmetic the journal takes from Go's `time` package, on day
    numbers of the proleptic Gregorian calendar: day 0 is Monday 1 January of
    year 1, and every integer is a day (negative ones lie before year 1). The
    clock time and the time zone play no part in the journal's use of dates and
    are not modelled. */
module Calendar {
  import opened Results
  import opened Text

  /** A calendar date: year, month 1..12, day of month from 1. */
  datatype Civil = Civil(year: int, month: int, day: int)

  predicate IsLeap(y: int) {
    y % 4 == 0 && (y % 100 != 0 || y % 400 == 0)
  }

  function YearLength(y: int): int {
    if IsLeap(y) then 366 else 365
  }

  /** Number of days from 1 January of year 1 to 1 January of year `y`. */
  function DaysBeforeYear(y: int): int {
    var p := y - 1;
    365 * p + p / 4 - p / 100 + p / 400
  }

  lemma YearStep(y: int)
    ensures DaysBeforeYear(y + 1) == DaysBeforeYear(y) + YearLength(y)
  {
    var p := y - 1;
    QuotientStep(p, 4);
    QuotientStep(p, 100);
    QuotientStep(p, 400);
  }

  /** The quotient by `k` goes up by one exactly where the next number is a multiple of `k`. */
  lemma QuotientStep(p: int, k: int)
    requires k > 0
    ensures (p + 1) / k == p / k + (if (p + 1) % k == 0 then 1 else 0)
  {
    var q, r := p / k, p % k;
    if r + 1 < k {
      QuotientUnique(p + 1, k, q, r + 1);
    } else {
      QuotientUnique(p + 1, k, q + 1, 0);
    }
  }

  /** Euclidean division has one quotient and remainder. */
  lemma QuotientUnique(a: int, k: int, q: int, r: int)
    requires k > 0 && 0 <= r < k && a == k * q + r
    ensures a / k == q && a % k == r
  {
    var q', r' := a / k, a % k;
    assert k * (q - q') == r' - r;
    if q > q' {
      MultipleAtLeast(k, q - q');
    } else if q < q' {
      MultipleAtLeast(k, q' - q);
    }
  }

  lemma MultipleAtLeast(k: int, x: int)
    requires k > 0 && x >= 1
    ensures k * x >= k
  {
  }

  /** Every year has at least 365 days, so year starts grow with the year. */
  lemma {:induction false} DaysBeforeYearGrows(a: int, b: int)
    requires a <= b
    ensures DaysBeforeYear(a) + 365 * (b - a) <= DaysBeforeYear(b)
    decreases b - a
  {
    if a < b {
      DaysBeforeYearGrows(a, b - 1);
      YearStep(b - 1);
    }
  }

  /** Counting years up from `y` until the next one starts after `d`. */
  function YearUp(d: int, y: int): int
    requires DaysBeforeYear(y) <= d
    decreases d - DaysBeforeYear(y)
  {
    YearStep(y);
    if DaysBeforeYear(y + 1) <= d then YearUp(d, y + 1) else y
  }

  lemma {:induction false} YearUpBounds(d: int, y: int)
    requires DaysBeforeYear(y) <= d
    ensures DaysBeforeYear(YearUp(d, y)) <= d < DaysBeforeYear(YearUp(d, y) + 1)
    decreases d - DaysBeforeYear(y)
  {
    YearStep(y);
    if DaysBeforeYear(y + 1) <= d {
      YearUpBounds(d, y + 1);
    }
  }

  /** A 400-year cycle always has 146097 days. */
  lemma FourCenturies(y: int)
    ensures DaysBeforeYear(y + 400) == DaysBeforeYear(y) + 146097
  {
    var p := y - 1;
    assert (p + 400) / 4 == p / 4 + 100;
    assert (p + 400) / 100 == p / 100 + 4;
    assert (p + 400) / 400 == p / 400 + 1;
  }

  /** The year that day `d` falls in: whole 400-year cycles of 146097 days are
      taken off first, then the years of the cycle are counted from its start. */
  function YearOf(d: int): int
    decreases if d < 0 then 146097 - d else d
  {
    if d < 0 then YearOf(d + 146097) - 400
    else if d >= 146097 then YearOf(d - 146097) + 400
    else YearUp(d, 1)
  }

  /** Before day 0, `YearOf` is 400 years before the year 146097 days later. */
  lemma YearOfBefore(d: int)
    requires d < 0
    requires DaysBeforeYear(YearOf(d + 146097)) <= d + 146097 < DaysBeforeYear(YearOf(d + 146097) + 1)
    ensures DaysBeforeYear(YearOf(d)) <= d < DaysBeforeYear(YearOf(d) + 1)
  {
    var y := YearOf(d + 146097) - 400;
    assert YearOf(d) == y;
    FourCenturies(y);
    FourCenturies(y + 1);
  }

  /** From day 146097 on, `YearOf` is 400 years after the year 146097 days earlier. */
  lemma YearOfAfter(d: int)
    requires d >= 146097
    requires DaysBeforeYear(YearOf(d - 146097)) <= d - 146097 < DaysBeforeYear(YearOf(d - 146097) + 1)
    ensures DaysBeforeYear(YearOf(d)) <= d < DaysBeforeYear(YearOf(d) + 1)
  {
    var y := YearOf(d - 146097);
    assert YearOf(d) == y + 400;
    FourCenturies(y);
    FourCenturies(y + 1);
  }

  /** The year `YearOf` gives holds the day. */
  lemma {:induction false} YearOfBounds(d: int)
    ensures DaysBeforeYear(YearOf(d)) <= d < DaysBeforeYear(YearOf(d) + 1)
    decreases if d < 0 then 146097 - d else d
  {
    if d < 0 {
      YearOfBounds(d + 146097);
      YearOfBefore(d);
    } else if d >= 146097 {
      YearOfBounds(d - 146097);
      YearOfAfter(d);
    } else {
      YearUpBounds(d, 1);
    }
  }

  lemma YearOfUnique(d: int, y: int)
    requires DaysBeforeYear(y) <= d < DaysBeforeYear(y + 1)
    ensures YearOf(d) == y
  {
    var z := YearOf(d);
    YearOfBounds(d);
    if z < y {
      DaysBeforeYearGrows(z + 1, y);
    } else if z > y {
      DaysBeforeYearGrows(y + 1, z);
    }
  }

  /** Days of year `y` before the first of month `m`; month 13 stands for the next year. */
  /** Go's `daysBefore` table: the days of a common year before month `m`. */
  function CommonDaysBefore(m: int): int
    requires 1 <= m <= 13
  {
    if m <= 6 then
      if m <= 3 then (if m == 1 then 0 else if m == 2 then 31 else 59)
      else (if m == 4 then 90 else if m == 5 then 120 else 151)
    else if m <= 9 then (if m == 7 then 181 else if m == 8 then 212 else 243)
    else if m <= 11 then (if m == 10 then 273 else 304)
    else if m == 12 then 334 else 365
  }

  function DaysBeforeMonth(y: int, m: int): int
    requires 1 <= m <= 13
  {
    CommonDaysBefore(m) + (if m > 2 && IsLeap(y) then 1 else 0)
  }

  /** The length of month `m` of year `y` (Go's `daysIn`). */
  function DaysInMonth(y: int, m: int): (n: int)
    requires 1 <= m <= 12
    ensures n == DaysBeforeMonth(y, m + 1) - DaysBeforeMonth(y, m)
    ensures 28 <= n <= 31
  {
    if m == 2 then (if IsLeap(y) then 29 else 28)
    else if m == 4 || m == 6 || m == 9 || m == 11 then 30
    else 31
  }

  lemma MonthsFillYear(y: int)
    ensures DaysBeforeMonth(y, 13) == YearLength(y)
  {
  }

  lemma DaysBeforeMonthGrows(y: int, a: int, b: int)
    requires 1 <= a < b <= 13
    ensures DaysBeforeMonth(y, a) + 28 <= DaysBeforeMonth(y, b)
  {
  }

  function MonthFrom(y: int, doy: int, m: int): (r: int)
    requires 1 <= m <= 12 && 0 <= doy < DaysBeforeMonth(y, m + 1)
    ensures 1 <= r <= m && DaysBeforeMonth(y, r) <= doy < DaysBeforeMonth(y, r + 1)
  {
    if DaysBeforeMonth(y, m) <= doy then m else MonthFrom(y, doy, m - 1)
  }

  /** The month that the 0-based day `doy` of year `y` falls in. */
  function MonthOf(y: int, doy: int): (m: int)
    requires 0 <= doy < YearLength(y)
    ensures 1 <= m <= 12 && DaysBeforeMonth(y, m) <= doy < DaysBeforeMonth(y, m + 1)
  {
    MonthFrom(y, doy, 12)
  }

  lemma MonthOfUnique(y: int, doy: int, m: int)
    requires 1 <= m <= 12 && DaysBeforeMonth(y, m) <= doy < DaysBeforeMonth(y, m + 1)
    ensures 0 <= doy < YearLength(y) && MonthOf(y, doy) == m
  {
    var k := MonthOf(y, doy);
    if k < m {
      DaysBeforeMonthGrows(y, k + 1, m);
    } else if k > m {
      DaysBeforeMonthGrows(y, m + 1, k);
    }
  }

  predicate ValidCivil(c: Civil) {
    1 <= c.month <= 12 && 1 <= c.day <= DaysInMonth(c.year, c.month)
  }

  /** The day number of a valid calendar date. */
  function FromCivil(c: Civil): int
    requires ValidCivil(c)
  {
    DaysBeforeYear(c.year) + DaysBeforeMonth(c.year, c.month) + c.day - 1
  }

  /** The calendar date of a day number (Go's `Time.Date`). */
  function ToCivil(d: int): (c: Civil)
    ensures ValidCivil(c) && FromCivil(c) == d
  {
    var y := YearOf(d);
    YearOfBounds(d);
    YearStep(y);
    var doy := d - DaysBeforeYear(y);
    var m := MonthOf(y, doy);
    Civil(y, m, doy - DaysBeforeMonth(y, m) + 1)
  }

  /** Every valid calendar date is the date of exactly one day. */
  lemma ToFromCivil(c: Civil)
    requires ValidCivil(c)
    ensures ToCivil(FromCivil(c)) == c
  {
    var d := FromCivil(c);
    YearStep(c.year);
    YearOfUnique(d, c.year);
    MonthOfUnique(c.year, d - DaysBeforeYear(c.year), c.month);
  }

  /** Go's `time.Date(year, month, day, ...)`: out-of-range months carry into the
      year and out-of-range days carry into neighbouring months. */
  function GoDate(year: int, month: int, day: int): int {
    var m0 := month - 1;
    var y := year + m0 / 12;
    var m := m0 % 12 + 1;
    DaysBeforeYear(y) + DaysBeforeMonth(y, m) + day - 1
  }

  /** Go's `Time.AddDate(years, months, days)`. */
  function AddDate(d: int, years: int, months: int, days: int): int {
    var c := ToCivil(d);
    GoDate(c.year + years, c.month + months, c.day + days)
  }

  lemma GoDateOfValid(c: Civil)
    requires ValidCivil(c)
    ensures GoDate(c.year, c.month, c.day) == FromCivil(c)
  {
  }

  /** Adding only days moves the day number by exactly that many days. */
  lemma AddDays(d: int, n: int)
    ensures AddDate(d, 0, 0, n) == d + n
  {
    var c := ToCivil(d);
    assert (c.month - 1) / 12 == 0 && (c.month - 1) % 12 == c.month - 1;
  }

  /** Go's `Weekday`: Sunday is 0, Monday 1, ..., Saturday 6. */
  function Weekday(d: int): int {
    (d + 1) % 7
  }

  const Monday := 1

  /** The Thursday of the Monday-to-Sunday week holding `d`. */
  function ThursdayOf(d: int): int {
    d - d % 7 + 3
  }

  /** The ISO 8601 week-numbering year and week of a day (Go's `Time.ISOWeek`):
      a week belongs to the year that holds its Thursday, and is numbered from
      the week that holds that year's first Thursday. */
  function ISOWeek(d: int): (int, int) {
    var t := ThursdayOf(d);
    var y := YearOf(t);
    (y, (t - DaysBeforeYear(y)) / 7 + 1)
  }

  /** Lexicographic order on (year, week) pairs. */
  predicate WeekBefore(a: (int, int), b: (int, int)) {
    a.0 < b.0 || (a.0 == b.0 && a.1 < b.1)
  }

  /** The ISO week of the n-th Monday-to-Sunday week (week 0 starts on day 0). */
  function WeekAt(n: int): (int, int) {
    ISOWeek(7 * n)
  }

  lemma WeekAtOfDay(d: int)
    ensures ISOWeek(d) == WeekAt(d / 7)
  {
    assert ThursdayOf(d) == ThursdayOf(7 * (d / 7));
  }

  /** Each following week has a later ISO (year, week). */
  lemma WeekAtStep(n: int)
    ensures WeekBefore(WeekAt(n), WeekAt(n + 1))
  {
    assert ThursdayOf(7 * n) == 7 * n + 3;
    assert ThursdayOf(7 * (n + 1)) == 7 * n + 10;
    ThursdayStep(7 * n + 3);
  }

  /** A week later, a Thursday is in the same year and a later week, or in a later year. */
  lemma ThursdayStep(t: int)
    ensures YearOf(t) < YearOf(t + 7)
      || (YearOf(t) == YearOf(t + 7) && (t - DaysBeforeYear(YearOf(t))) / 7 < (t + 7 - DaysBeforeYear(YearOf(t))) / 7)
  {
    var y := YearOf(t);
    YearOfBounds(t);
    YearStep(y);
    YearStep(y + 1);
    if t + 7 < DaysBeforeYear(y + 1) {
      YearOfUnique(t + 7, y);
    } else {
      YearOfUnique(t + 7, y + 1);
    }
  }

  /** ISO (year, week) pairs strictly increase with the week. */
  lemma {:induction false} WeekAtIncreasing(m: int, n: int)
    requires m < n
    ensures WeekBefore(WeekAt(m), WeekAt(n))
    decreases n - m
  {
    WeekAtStep(m);
    if m + 1 < n {
      WeekAtIncreasing(m + 1, n);
    }
  }

  /** Weeks are ordered as their ISO (year, week) pairs are. */
  lemma WeekAtOrder(m: int, n: int)
    ensures WeekBefore(WeekAt(m), WeekAt(n)) <==> m < n
  {
    if m < n {
      WeekAtIncreasing(m, n);
    } else if n < m {
      WeekAtIncreasing(n, m);
    }
  }

  /** Days are in ISO week order as their Monday-to-Sunday weeks are. */
  lemma ISOWeekOrder(d: int, e: int)
    ensures WeekBefore(ISOWeek(d), ISOWeek(e)) <==> d / 7 < e / 7
  {
    WeekAtOfDay(d);
    WeekAtOfDay(e);
    WeekAtOrder(d / 7, e / 7);
  }

  /** Days of the same Monday-to-Sunday week have the same ISO week. */
  lemma SameWeek(d: int, e: int)
    requires d / 7 == e / 7
    ensures ISOWeek(d) == ISOWeek(e)
  {
    assert ThursdayOf(d) == ThursdayOf(e);
  }

  /** ISO 8601: week 1 of every year holds 4 January. */
  lemma FourthOfJanuaryInWeekOne(y: int)
    ensures ISOWeek(GoDate(y, 1, 4)) == (y, 1)
  {
    var d := GoDate(y, 1, 4);
    assert d == DaysBeforeYear(y) + 3;
    var t := ThursdayOf(d);
    YearStep(y);
    YearOfUnique(t, y);
  }

  /** The ISO week (year, week) exists: some day lies in it. */
  ghost predicate WeekExists(year: int, week: int) {
    exists d :: ISOWeek(d) == (year, week)
  }

  /** `s` left-padded with '0' to `width` characters. */
  function Pad(s: string, width: nat): (r: string)
    ensures |r| == if |s| >= width then |s| else width
    decreases width - |s|
  {
    if |s| >= width then s else Pad("0" + s, width)
  }

  /** Go's `appendInt(b, x, width)` as `Time.Format` uses it for numeric fields. */
  function FormatInt(x: int, width: nat): string {
    if x < 0 then "-" + Pad(NatToString(-x), width) else Pad(NatToString(x), width)
  }

  /** `Time.Format("2006-01-02")`. */
  function FormatDate(d: int): string {
    var c := ToCivil(d);
    FormatInt(c.year, 4) + "-" + FormatInt(c.month, 2) + "-" + FormatInt(c.day, 2)
  }

  /** The English month names, as `Month.String` gives them. */
  const MonthNames: seq<string> := ["January", "February", "March", "April", "May", "June", "July",
    "August", "September", "October", "November", "December"]

  /** The month abbreviations of the "Jan" layout element. */
  const ShortMonthNames: seq<string> := ["Jan", "Feb", "Mar", "Apr", "May", "Jun", "Jul", "Aug", "Sep",
    "Oct", "Nov", "Dec"]

  /** The weekday names of the "Monday" layout element, from Sunday. */
  const DayNames: seq<string> := ["Sunday", "Monday", "Tuesday", "Wednesday", "Thursday", "Friday", "Saturday"]

  /** `Time.Format("Jan 02 2006 Monday")`. */
  function FormatTitle(d: int): string {
    var c := ToCivil(d);
    TitleOf(c.month, c.day, c.year, Weekday(d))
  }

  /** The "Jan 02 2006 Monday" layout filled with a month, day, year and weekday. */
  function TitleOf(month: int, day: int, year: int, weekday: int): string
    requires 1 <= month <= 12 && 0 <= weekday < 7
  {
    ShortMonthNames[month - 1] + " " + FormatInt(day, 2) + " " + FormatInt(year, 4) + " " + DayNames[weekday]
  }

  predicate AllDigits(s: string) {
    forall i :: 0 <= i < |s| ==> '0' <= s[i] <= '9'
  }

  function DigitsValue(s: string): nat
    requires AllDigits(s)
  {
    if s == [] then 0 else DigitsValue(s[..|s| - 1]) * 10 + ((s[|s| - 1] as int) - 48)
  }

  /** `time.Parse("2006-01-02", s)`: four-digit year, two-digit month and day,
      the month in 1..12 and the day within that month's length; anything else,
      extra text included, is an error. */
  function ParseDate(s: string): (r: Option<Civil>)
    ensures r.Some? ==> ValidCivil(r.value)
  {
    if |s| == 10 && AllDigits(s[..4]) && s[4] == '-' && AllDigits(s[5..7]) && s[7] == '-'
       && AllDigits(s[8..])
    then
      var y, m, d := DigitsValue(s[..4]), DigitsValue(s[5..7]), DigitsValue(s[8..]);
      if 1 <= m <= 12 && 1 <= d <= DaysInMonth(y, m) then Some(Civil(y, m, d)) else None
    else None
  }

  function Pow10(w: nat): nat {
    if w == 0 then 1 else 10 * Pow10(w - 1)
  }

  lemma {:induction false} DigitsValueOfNat(n: nat)
    ensures DigitsValue(NatToString(n)) == n
  {
    if n >= 10 {
      var s := NatToString(n);
      assert s[..|s| - 1] == NatToString(n / 10);
      DigitsValueOfNat(n / 10);
    }
  }

  lemma {:induction false} NatToStringFits(n: nat, w: nat)
    requires w >= 1 && n < Pow10(w)
    ensures |NatToString(n)| <= w
  {
    if n >= 10 {
      assert w > 0 && n < 10 * Pow10(w - 1);
      assert n / 10 < Pow10(w - 1);
      NatToStringFits(n / 10, w - 1);
      assert NatToString(n) == NatToString(n / 10) + [Digit(n % 10)];
    }
  }

  lemma {:induction false} LeadingZero(s: string)
    requires AllDigits(s)
    ensures AllDigits("0" + s) && DigitsValue("0" + s) == DigitsValue(s)
  {
    if s != [] {
      assert ("0" + s)[..|s|] == "0" + s[..|s| - 1];
      LeadingZero(s[..|s| - 1]);
    }
  }

  lemma {:induction false} PadKeepsValue(s: string, width: nat)
    requires AllDigits(s)
    ensures AllDigits(Pad(s, width)) && DigitsValue(Pad(s, width)) == DigitsValue(s)
    decreases width - |s|
  {
    if |s| < width {
      LeadingZero(s);
      PadKeepsValue("0" + s, width);
    }
  }

  /** A field of `width` digits holding `x`, read back as a number. */
  lemma FieldRoundTrip(x: nat, width: nat)
    requires width >= 1 && x < Pow10(width)
    ensures |FormatInt(x, width)| == width
    ensures AllDigits(FormatInt(x, width)) && DigitsValue(FormatInt(x, width)) == x
  {
    NatToStringFits(x, width);
    DigitsValueOfNat(x);
    PadKeepsValue(NatToString(x), width);
  }

  /** A date of the years 0..9999 formatted as `YYYY-MM-DD` parses back to itself. */
  lemma ParseFormatDate(d: int)
    requires 0 <= ToCivil(d).year <= 9999
    ensures ParseDate(FormatDate(d)) == Some(ToCivil(d))
  {
    var c := ToCivil(d);
    FieldRoundTrip(c.year, 4);
    FieldRoundTrip(c.month, 2);
    FieldRoundTrip(c.day, 2);
    ParseFields(FormatInt(c.year, 4), FormatInt(c.month, 2), FormatInt(c.day, 2));
  }

  /** Three digit fields of widths 4, 2 and 2 joined by dashes parse as the
      numbers they hold, when those make a valid date. */
  lemma ParseFields(ys: string, ms: string, ds: string)
    requires |ys| == 4 && |ms| == 2 && |ds| == 2 && AllDigits(ys) && AllDigits(ms) && AllDigits(ds)
    ensures var y, m, d := DigitsValue(ys), DigitsValue(ms), DigitsValue(ds);
      ParseDate(ys + "-" + ms + "-" + ds) == if 1 <= m <= 12 && 1 <= d <= DaysInMonth(y, m) then Some(Civil(y, m, d)) else None
  {
    var s := ys + "-" + ms + "-" + ds;
    assert s[..4] == ys && s[5..7] == ms && s[8..] == ds;
  }
}
