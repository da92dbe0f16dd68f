/** Shifting a date by calendar months and years, clamping the day to the month. */
module CalendarShift {
  import opened Options

  const MIN_YEAR := 1
  const MAX_YEAR := 9999

  datatype Date = Date(year: int, month: int, day: int)

  predicate LeapYear(year: int) { year % 4 == 0 && (year % 100 != 0 || year % 400 == 0) }

  /** calendar.monthrange(year, month)[1]. */
  function MonthLength(year: int, month: int): (n: int)
    ensures 28 <= n <= 31
  {
    if month == 2 then if LeapYear(year) then 29 else 28
    else if month == 4 || month == 6 || month == 9 || month == 11 then 30
    else 31
  }

  /** The calendar's table. */
  lemma MonthLengths(year: int)
    ensures MonthLength(year, 1) == MonthLength(year, 3) == MonthLength(year, 5) == MonthLength(year, 7) == 31
    ensures MonthLength(year, 8) == MonthLength(year, 10) == MonthLength(year, 12) == 31
    ensures MonthLength(year, 4) == MonthLength(year, 6) == MonthLength(year, 9) == MonthLength(year, 11) == 30
    ensures MonthLength(year, 2) == 28 + if LeapYear(year) then 1 else 0
  {
  }

  /** The Gregorian rule: of the centuries every fourth, of the other years every fourth. */
  lemma LeapYears(n: int, r: int)
    requires 0 <= r < 100
    ensures LeapYear(100 * n + r) <==> if r == 0 then n % 4 == 0 else r % 4 == 0
  {
    var y := 100 * n + r;
    ByFour(y, 25 * n + r / 4, r % 4);
    ByCentury(y, n, r);
    if r == 0 {
      ByFourCenturies(y, n / 4, n % 4);
    }
  }

  lemma ByFour(y: int, q: int, r: int)
    requires y == 4 * q + r && 0 <= r < 4
    ensures y % 4 == r
  {
  }

  lemma ByCentury(y: int, q: int, r: int)
    requires y == 100 * q + r && 0 <= r < 100
    ensures y % 100 == r
  {
  }

  lemma ByFourCenturies(y: int, q: int, r: int)
    requires y == 400 * q + 100 * r && 0 <= r < 4
    ensures y % 400 == 100 * r
  {
  }

  predicate Valid(d: Date) {
    MIN_YEAR <= d.year <= MAX_YEAR && 1 <= d.month <= 12 && 1 <= d.day <= MonthLength(d.year, d.month)
  }

  /** The months from year zero. */
  function MonthIndex(d: Date): int { d.year * 12 + (d.month - 1) }

  /** _calendar_shift_day: months and years into the past, or None outside the calendar. */
  function Shift(d: Date, months: int, years: int): (r: Option<Date>)
    requires Valid(d)
  {
    var total := d.year * 12 + (d.month - 1) - months - years * 12;
    var year, month := total / 12, total % 12 + 1;
    if year < MIN_YEAR || year > MAX_YEAR then None
    else
      var length := MonthLength(year, month);
      Some(Date(year, month, if d.day < length then d.day else length))
  }

  predicate Before(a: Date, b: Date) {
    a.year < b.year || (a.year == b.year && (a.month < b.month || (a.month == b.month && a.day < b.day)))
  }

  predicate NotAfter(a: Date, b: Date) { a == b || Before(a, b) }

  /** The shift lands in exactly the requested month, on the same day or on the last one,
      and fails exactly when that month is outside the calendar. */
  lemma LandsInMonth(d: Date, months: int, years: int)
    requires Valid(d)
    ensures Shift(d, months, years).Some? <==>
              MIN_YEAR * 12 <= MonthIndex(d) - months - 12 * years < (MAX_YEAR + 1) * 12
    ensures Shift(d, months, years).Some? ==>
              var r := Shift(d, months, years).value;
              && Valid(r) && MonthIndex(r) == MonthIndex(d) - months - 12 * years
              && r.day <= d.day && (r.day == d.day || r.day == MonthLength(r.year, r.month))
              && d.day - r.day <= 3
  {
  }

  /** Later dates do not shift to earlier ones. */
  lemma IsMonotone(a: Date, b: Date, months: int, years: int)
    requires Valid(a) && Valid(b) && NotAfter(a, b)
    requires Shift(a, months, years).Some? && Shift(b, months, years).Some?
    ensures NotAfter(Shift(a, months, years).value, Shift(b, months, years).value)
  {
    LandsInMonth(a, months, years);
    LandsInMonth(b, months, years);
  }

  /** Shifting in two steps is shifting once exactly when the month in between is long
      enough for the day, or no shorter than the month arrived at. */
  lemma ComposesExactly(d: Date, m: int, n: int)
    requires Valid(d) && Shift(d, m, 0).Some? && Shift(d, m + n, 0).Some?
    ensures var via, r := Shift(d, m, 0).value, Shift(d, m + n, 0).value;
            && Valid(via)
            && (Shift(via, n, 0) == Some(r) <==>
                MonthLength(via.year, via.month) >= d.day || MonthLength(via.year, via.month) >= MonthLength(r.year, r.month))
  {
    LandsInMonth(d, m, 0);
    LandsInMonth(d, m + n, 0);
    var via, r := Shift(d, m, 0).value, Shift(d, m + n, 0).value;
    LandsInMonth(via, n, 0);
  }

  /** Up to day 28 every decomposition agrees. */
  lemma ComposesTo28(d: Date, m: int, n: int)
    requires Valid(d) && d.day <= 28 && Shift(d, m, 0).Some? && Shift(d, m + n, 0).Some?
    ensures Valid(Shift(d, m, 0).value) && Shift(Shift(d, m, 0).value, n, 0) == Shift(d, m + n, 0)
  {
    ComposesExactly(d, m, n);
    LandsInMonth(d, m, 0);
  }

  /** Shifting there and back keeps year and month and loses at most three days; it
      loses none exactly when the month in between has the day. */
  lemma ThereAndBack(d: Date, months: int, years: int)
    requires Valid(d) && Shift(d, months, years).Some?
    ensures var there := Shift(d, months, years).value;
            && Valid(there) && Shift(there, -months, -years).Some?
            && var back := Shift(there, -months, -years).value;
               && back.year == d.year && back.month == d.month
               && d.day - 3 <= back.day <= d.day
               && (back == d <==> d.day <= MonthLength(there.year, there.month))
  {
    LandsInMonth(d, months, years);
    var there := Shift(d, months, years).value;
    LandsInMonth(there, -months, -years);
  }

  /** Years are twelve months each; only 29 February can lose a day to them. */
  lemma YearsAreMonths(d: Date, years: int)
    requires Valid(d) && Shift(d, 0, years).Some?
    ensures Shift(d, 0, years) == Shift(d, 12 * years, 0)
    ensures var r := Shift(d, 0, years).value;
            && r.year == d.year - years && r.month == d.month
            && (r.day == d.day <==> !(d.month == 2 && d.day == 29) || LeapYear(r.year))
  {
    LandsInMonth(d, 0, years);
  }
}
