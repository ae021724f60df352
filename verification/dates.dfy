/** Calendar dates as Python's `datetime.date` holds them: the proleptic
    Gregorian calendar over years 1 to 9999, with day ordinals counted from
    1 January of year 1 (ordinal 1). Adding a number of days is ordinal
    arithmetic, which is what `date + timedelta(days = n)` does. */
module Dates {
  import opened Results

  datatype Date = Date(day: int, month: int, year: int)

  /** Why a date computation raised. */
  datatype DateError =
    | MalformedDate(text: string)          // strptime's ValueError
    | DateOutOfRange(start: Date, days: int) // date + timedelta's OverflowError

  const MinYear: int := 1
  const MaxYear: int := 9999
  /** The ordinal of 31/12/9999 (see MaxOrdinalIsLastDay). */
  const MaxOrdinal: int := 3652059

  predicate IsLeap(y: int) {
    y % 4 == 0 && (y % 100 != 0 || y % 400 == 0)
  }

  function DaysInYear(y: int): int {
    if IsLeap(y) then 366 else 365
  }

  function DaysInMonth(y: int, m: int): int
    requires 1 <= m <= 12
  {
    if m == 2 then (if IsLeap(y) then 29 else 28)
    else if m == 4 || m == 6 || m == 9 || m == 11 then 30
    else 31
  }

  predicate Valid(dt: Date) {
    && MinYear <= dt.year <= MaxYear
    && 1 <= dt.month <= 12
    && 1 <= dt.day <= DaysInMonth(dt.year, dt.month)
  }

  /** Days in the years before year `y`, counted year by year. */
  function DaysBeforeYear(y: int): nat
    requires y >= 1
    decreases y
  {
    if y == 1 then 0 else DaysBeforeYear(y - 1) + DaysInYear(y - 1)
  }

  /** Days in the months of year `y` before month `m`. */
  function DaysBeforeMonth(y: int, m: int): nat
    requires 1 <= m <= 12
  {
    var common :=
      match m
      case 1 => 0   case 2 => 31  case 3 => 59   case 4 => 90
      case 5 => 120 case 6 => 151 case 7 => 181  case 8 => 212
      case 9 => 243 case 10 => 273 case 11 => 304 case _ => 334;
    if m > 2 && IsLeap(y) then common + 1 else common
  }

  function ToOrdinal(dt: Date): int
    requires Valid(dt)
  {
    DaysBeforeYear(dt.year) + DaysBeforeMonth(dt.year, dt.month) + dt.day
  }

  lemma DaysBeforeMonthStep(y: int, m: int)
    requires 1 <= m <= 12
    ensures m < 12 ==> DaysBeforeMonth(y, m + 1) == DaysBeforeMonth(y, m) + DaysInMonth(y, m)
    ensures m == 12 ==> DaysBeforeMonth(y, m) + DaysInMonth(y, m) == DaysInYear(y)
  {
  }

  /** Python's `_days_before_year` closed form agrees with the year-by-year count. */
  lemma {:induction false} DaysBeforeYearClosedForm(y: int)
    requires y >= 1
    ensures DaysBeforeYear(y) == 365 * (y - 1) + (y - 1) / 4 - (y - 1) / 100 + (y - 1) / 400
  {
    if y > 1 {
      DaysBeforeYearClosedForm(y - 1);
      DaysInYearByQuotients(y - 1);
    }
  }

  /** A year's length is 365 plus one for each of the leap rules' multiples it is. */
  lemma DaysInYearByQuotients(k: int)
    requires k >= 1
    ensures DaysInYear(k) == 365 + (k / 4 - (k - 1) / 4) - (k / 100 - (k - 1) / 100) + (k / 400 - (k - 1) / 400)
  {
    QuotientStep4(k - 1);
    QuotientStep100(k - 1);
    QuotientStep400(k - 1);
    MultiplesNest(k);
  }

  /** Multiples of 400 are multiples of 100, which are multiples of 4. */
  lemma MultiplesNest(k: int)
    ensures k % 400 == 0 ==> k % 100 == 0
    ensures k % 100 == 0 ==> k % 4 == 0
  {
    MultiplesHaveNoRemainder(4 * (k / 400));
    MultiplesHaveNoRemainder(25 * (k / 100));
  }

  lemma MultiplesHaveNoRemainder(m: int)
    ensures (100 * m) % 100 == 0 && (4 * m) % 4 == 0
  {
  }

  lemma QuotientStep4(k: int)
    requires k >= 0
    ensures (k + 1) / 4 == k / 4 + (if (k + 1) % 4 == 0 then 1 else 0)
  {
  }

  lemma QuotientStep100(k: int)
    requires k >= 0
    ensures (k + 1) / 100 == k / 100 + (if (k + 1) % 100 == 0 then 1 else 0)
  {
  }

  lemma QuotientStep400(k: int)
    requires k >= 0
    ensures (k + 1) / 400 == k / 400 + (if (k + 1) % 400 == 0 then 1 else 0)
  {
  }

  lemma MaxOrdinalIsLastDay()
    ensures DaysBeforeYear(MaxYear + 1) == MaxOrdinal
    ensures Valid(Date(31, 12, MaxYear)) && ToOrdinal(Date(31, 12, MaxYear)) == MaxOrdinal
  {
    DaysBeforeYearClosedForm(MaxYear + 1);
    DaysBeforeYearClosedForm(MaxYear);
  }

  lemma {:induction false} DaysBeforeYearMonotone(a: int, b: int)
    requires 1 <= a < b
    ensures DaysBeforeYear(a) + DaysInYear(a) <= DaysBeforeYear(b)
    decreases b - a
  {
    if a + 1 < b {
      DaysBeforeYearMonotone(a + 1, b);
    }
  }

  lemma {:induction false} DaysBeforeMonthMonotone(y: int, a: int, b: int)
    requires 1 <= a < b <= 12
    ensures DaysBeforeMonth(y, a) + DaysInMonth(y, a) <= DaysBeforeMonth(y, b)
    decreases b - a
  {
    DaysBeforeMonthStep(y, a);
    if a + 1 < b {
      DaysBeforeMonthMonotone(y, a + 1, b);
    }
  }

  /** The ordinal of a date lies inside its own year's span of ordinals. */
  lemma OrdinalWithinYear(dt: Date)
    requires Valid(dt)
    ensures DaysBeforeYear(dt.year) < ToOrdinal(dt) <= DaysBeforeYear(dt.year) + DaysInYear(dt.year)
  {
    if dt.month < 12 {
      DaysBeforeMonthMonotone(dt.year, dt.month, 12);
    }
    DaysBeforeMonthStep(dt.year, 12);
  }

  /** Every valid date has an ordinal between 1 and MaxOrdinal. */
  lemma OrdinalInRange(dt: Date)
    requires Valid(dt)
    ensures 1 <= ToOrdinal(dt) <= MaxOrdinal
  {
    OrdinalWithinYear(dt);
    MaxOrdinalIsLastDay();
    if dt.year < MaxYear + 1 {
      DaysBeforeYearMonotone(dt.year, MaxYear + 1);
    }
  }

  /** Distinct valid dates have distinct ordinals. */
  lemma OrdinalInjective(a: Date, b: Date)
    requires Valid(a) && Valid(b)
    requires ToOrdinal(a) == ToOrdinal(b)
    ensures a == b
  {
    OrdinalWithinYear(a);
    OrdinalWithinYear(b);
    if a.year < b.year {
      DaysBeforeYearMonotone(a.year, b.year);
      assert false;
    } else if b.year < a.year {
      DaysBeforeYearMonotone(b.year, a.year);
      assert false;
    }
    if a.month < b.month {
      DaysBeforeMonthMonotone(a.year, a.month, b.month);
      assert false;
    } else if b.month < a.month {
      DaysBeforeMonthMonotone(a.year, b.month, a.month);
      assert false;
    }
  }

  /** Splits a count of days from the start of year `y` into a year and a day of that year. */
  function YearAndDay(n: int, y: int): (r: (int, int))
    requires n >= 1 && y >= 1
    ensures r.0 >= y && 1 <= r.1 <= DaysInYear(r.0)
    ensures DaysBeforeYear(r.0) + r.1 == DaysBeforeYear(y) + n
    decreases n
  {
    if n <= DaysInYear(y) then (y, n) else YearAndDay(n - DaysInYear(y), y + 1)
  }

  /** Splits a day of year `y`, counted from the start of month `m`, into a month and a day of that month. */
  function MonthAndDay(n: int, y: int, m: int): (r: (int, int))
    requires 1 <= m <= 12 && n >= 1
    requires DaysBeforeMonth(y, m) + n <= DaysInYear(y)
    ensures m <= r.0 <= 12 && 1 <= r.1 <= DaysInMonth(y, r.0)
    ensures DaysBeforeMonth(y, r.0) + r.1 == DaysBeforeMonth(y, m) + n
    decreases 12 - m
  {
    DaysBeforeMonthStep(y, m);
    if n <= DaysInMonth(y, m) then (m, n)
    else MonthAndDay(n - DaysInMonth(y, m), y, m + 1)
  }

  /** The date with ordinal `n`; Python's `date.fromordinal`. */
  function FromOrdinal(n: int): (dt: Date)
    requires 1 <= n <= MaxOrdinal
    ensures Valid(dt) && ToOrdinal(dt) == n
  {
    var (y, doy) := YearAndDay(n, 1);
    var (m, d) := MonthAndDay(doy, y, 1);
    YearBelowLimit(y, doy);
    Date(d, m, y)
  }

  /** A day that starts at most MaxOrdinal days in falls in a year up to MaxYear. */
  lemma YearBelowLimit(y: int, d: int)
    requires y >= 1 && d >= 1
    requires DaysBeforeYear(y) + d <= MaxOrdinal
    ensures y <= MaxYear
  {
    MaxOrdinalIsLastDay();
    if y > MaxYear + 1 {
      DaysBeforeYearMonotone(MaxYear + 1, y);
    }
  }

  lemma FromOrdinalToOrdinal(dt: Date)
    requires Valid(dt)
    ensures 1 <= ToOrdinal(dt) <= MaxOrdinal
    ensures FromOrdinal(ToOrdinal(dt)) == dt
  {
    OrdinalInRange(dt);
    OrdinalInjective(FromOrdinal(ToOrdinal(dt)), dt);
  }

  /** `dt + timedelta(days = n)`: the date `n` calendar days later (earlier
      for negative `n`), or an error when that leaves years 1 to 9999. */
  function AddDays(dt: Date, n: int): (r: Result<Date, DateError>)
    requires Valid(dt)
    ensures r.Ok? <==> 1 <= ToOrdinal(dt) + n <= MaxOrdinal
    ensures r.Ok? ==> Valid(r.value) && ToOrdinal(r.value) == ToOrdinal(dt) + n
    ensures r.Err? ==> r.error == DateOutOfRange(dt, n)
  {
    var k := ToOrdinal(dt) + n;
    if 1 <= k <= MaxOrdinal then Ok(FromOrdinal(k)) else Err(DateOutOfRange(dt, n))
  }

  lemma AddZeroDays(dt: Date)
    requires Valid(dt)
    ensures AddDays(dt, 0) == Ok(dt)
  {
    FromOrdinalToOrdinal(dt);
  }

  /** Adding `a` days and then `b` days is adding `a + b` days. */
  lemma AddDaysCompose(dt: Date, a: int, b: int)
    requires Valid(dt)
    requires AddDays(dt, a).Ok?
    ensures AddDays(AddDays(dt, a).value, b).Ok? <==> AddDays(dt, a + b).Ok?
    ensures AddDays(dt, a + b).Ok? ==> AddDays(AddDays(dt, a).value, b).value == AddDays(dt, a + b).value
  {
    var mid := AddDays(dt, a).value;
    assert ToOrdinal(mid) + b == ToOrdinal(dt) + (a + b);
  }

  /** Later ordinals are later dates: the due date never precedes the start for non-negative `n`. */
  lemma AddDaysOrder(dt: Date, n: int)
    requires Valid(dt) && n >= 0
    requires AddDays(dt, n).Ok?
    ensures var due := AddDays(dt, n).value;
      dt.year < due.year
      || (dt.year == due.year && dt.month < due.month)
      || (dt.year == due.year && dt.month == due.month && dt.day <= due.day)
  {
    var due := AddDays(dt, n).value;
    OrdinalWithinYear(dt);
    OrdinalWithinYear(due);
    if due.year < dt.year {
      DaysBeforeYearMonotone(due.year, dt.year);
      assert false;
    }
    if due.year == dt.year && due.month < dt.month {
      DaysBeforeMonthMonotone(dt.year, due.month, dt.month);
      assert false;
    }
  }
}
