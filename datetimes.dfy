/** Python's `datetime` as the validator and the rate store see it: a proleptic
    Gregorian local date, a wall-clock time to the second, and an optional fixed
    UTC offset (seconds east of UTC). An offset makes the value "aware"; without
    one it is "naive". Only the parts the parking code relies on are modelled:
    range checks of the constructor, `.date()`, `toordinal()` and ordering. */
module DateTimes {
  import opened Wrappers

  const MinYear := 1
  const MaxYear := 9999
  const SecondsPerDay := 86400

  datatype Date = Date(year: int, month: int, day: int)

  datatype DateTime = DateTime(date: Date, hour: int, minute: int, second: int, offset: Option<int>)

  predicate IsLeap(year: int)
  {
    year % 4 == 0 && (year % 100 != 0 || year % 400 == 0)
  }

  function DaysInYear(year: int): int
  {
    if IsLeap(year) then 366 else 365
  }

  function DaysInMonth(year: int, month: int): int
    requires 1 <= month <= 12
  {
    if month == 2 then (if IsLeap(year) then 29 else 28)
    else if month == 4 || month == 6 || month == 9 || month == 11 then 30
    else 31
  }

  /** Days in the years before `year`, counted from 0001-01-01 (CPython's closed form). */
  function DaysBeforeYear(year: int): int
    requires year >= MinYear
  {
    var n := year - 1;
    n * 365 + n / 4 - n / 100 + n / 400
  }

  /** Days in the months of `year` before `month`. */
  function DaysBeforeMonth(year: int, month: int): int
    requires 1 <= month <= 12
  {
    if month == 1 then 0 else DaysBeforeMonth(year, month - 1) + DaysInMonth(year, month - 1)
  }

  lemma {:induction false} DaysBeforeMonthNonNegative(year: int, month: int)
    requires 1 <= month <= 12
    ensures DaysBeforeMonth(year, month) >= 0
  {
    if month > 1 {
      DaysBeforeMonthNonNegative(year, month - 1);
    }
  }

  predicate ValidDate(d: Date)
  {
    MinYear <= d.year <= MaxYear && 1 <= d.month <= 12 && 1 <= d.day <= DaysInMonth(d.year, d.month)
  }

  /** `date.toordinal()`: 0001-01-01 is day 1. */
  function Ordinal(d: Date): int
    requires ValidDate(d)
  {
    DaysBeforeYear(d.year) + DaysBeforeMonth(d.year, d.month) + d.day
  }

  /** Lexicographic order on (year, month, day): how Python orders `date` values. */
  predicate DateBefore(a: Date, b: Date)
  {
    a.year < b.year
    || (a.year == b.year && a.month < b.month)
    || (a.year == b.year && a.month == b.month && a.day < b.day)
  }

  /** The checks `datetime(...)` and `timezone(timedelta(...))` make on their fields. */
  predicate Valid(dt: DateTime)
  {
    ValidDate(dt.date)
    && 0 <= dt.hour <= 23 && 0 <= dt.minute <= 59 && 0 <= dt.second <= 59
    && (dt.offset.Some? ==> -SecondsPerDay < dt.offset.value < SecondsPerDay)
  }

  predicate Aware(dt: DateTime)
  {
    dt.offset.Some?
  }

  function SecondOfDay(dt: DateTime): int
  {
    dt.hour * 3600 + dt.minute * 60 + dt.second
  }

  /** Seconds since 0001-01-01T00:00 on the local wall clock. */
  function LocalSeconds(dt: DateTime): int
    requires Valid(dt)
  {
    Ordinal(dt.date) * SecondsPerDay + SecondOfDay(dt)
  }

  /** The UTC instant of an aware value: local time minus its offset. */
  function Instant(dt: DateTime): int
    requires Valid(dt) && Aware(dt)
  {
    LocalSeconds(dt) - dt.offset.value
  }

  /** Field-by-field order of the local date and wall-clock time (how Python
      compares two naive values, or two aware values sharing one tzinfo). */
  predicate FieldsBefore(a: DateTime, b: DateTime)
  {
    DateBefore(a.date, b.date)
    || (a.date == b.date && SecondOfDay(a) < SecondOfDay(b))
  }

  /** `a < b` on datetimes: `None` stands for the `TypeError` Python raises
      when one side is naive and the other aware. */
  function Before(a: DateTime, b: DateTime): (r: Option<bool>)
    requires Valid(a) && Valid(b)
    ensures r.None? <==> Aware(a) != Aware(b)
    ensures Aware(a) && Aware(b) ==> r == Some(Instant(a) < Instant(b))
    ensures !Aware(a) && !Aware(b) ==> r == Some(FieldsBefore(a, b))
  {
    if Aware(a) != Aware(b) then None
    else if Aware(a) then Some(Instant(a) < Instant(b))
    else Some(FieldsBefore(a, b))
  }

  /** Going from `y - 1` to `y` raises `y / k` by one exactly when `k` divides `y`. */
  lemma DivSteps(y: int)
    requires y >= 1
    ensures y / 4 - (y - 1) / 4 == if y % 4 == 0 then 1 else 0
    ensures y / 100 - (y - 1) / 100 == if y % 100 == 0 then 1 else 0
    ensures y / 400 - (y - 1) / 400 == if y % 400 == 0 then 1 else 0
  {
  }

  lemma Div400ImpliesDiv100(y: int)
    requires y % 400 == 0
    ensures y % 100 == 0
  {
    var q := y / 400;
    assert y == 100 * (4 * q);
    assert y / 100 == 4 * q;
  }

  lemma Div100ImpliesDiv4(y: int)
    requires y % 100 == 0
    ensures y % 4 == 0
  {
    var q := y / 100;
    assert y == 4 * (25 * q);
    assert y / 4 == 25 * q;
  }

  /** Each year contributes exactly its own length to the day count. */
  lemma DaysBeforeYearStep(year: int)
    requires year >= MinYear
    ensures DaysBeforeYear(year + 1) == DaysBeforeYear(year) + DaysInYear(year)
  {
    DivSteps(year);
    if year % 400 == 0 {
      Div400ImpliesDiv100(year);
    }
    if year % 100 == 0 {
      Div100ImpliesDiv4(year);
    }
  }

  lemma {:induction false} DaysBeforeYearMonotone(y1: int, y2: int)
    requires MinYear <= y1 < y2
    ensures DaysBeforeYear(y1) + DaysInYear(y1) <= DaysBeforeYear(y2)
    decreases y2 - y1
  {
    DaysBeforeYearStep(y1);
    if y1 + 1 < y2 {
      DaysBeforeYearMonotone(y1 + 1, y2);
    }
  }

  lemma {:induction false} DaysBeforeMonthMonotone(year: int, m1: int, m2: int)
    requires 1 <= m1 < m2 <= 12
    ensures DaysBeforeMonth(year, m1) + DaysInMonth(year, m1) <= DaysBeforeMonth(year, m2)
    decreases m2 - m1
  {
    if m1 + 1 < m2 {
      DaysBeforeMonthMonotone(year, m1 + 1, m2);
    }
  }

  /** Every month of a year ends within that year. */
  lemma MonthWithinYear(year: int, month: int)
    requires 1 <= month <= 12
    ensures DaysBeforeMonth(year, month) + DaysInMonth(year, month) <= DaysInYear(year)
  {
    if month < 12 {
      DaysBeforeMonthMonotone(year, month, 12);
    }
  }

  /** `toordinal()` preserves the order of dates: a strictly earlier valid date
      has a strictly smaller day number. */
  lemma OrdinalMonotone(a: Date, b: Date)
    requires ValidDate(a) && ValidDate(b)
    requires DateBefore(a, b)
    ensures Ordinal(a) < Ordinal(b)
  {
    MonthWithinYear(a.year, a.month);
    DaysBeforeMonthNonNegative(b.year, b.month);
    if a.year < b.year {
      DaysBeforeYearMonotone(a.year, b.year);
    } else if a.month < b.month {
      DaysBeforeMonthMonotone(a.year, a.month, b.month);
    }
  }

  /** Distinct valid dates have distinct day numbers. */
  lemma OrdinalInjective(a: Date, b: Date)
    requires ValidDate(a) && ValidDate(b)
    ensures Ordinal(a) == Ordinal(b) <==> a == b
  {
    if a != b {
      if DateBefore(a, b) {
        OrdinalMonotone(a, b);
      } else {
        OrdinalMonotone(b, a);
      }
    }
  }

  /** Comparing local fields agrees with comparing local second counts. */
  lemma LocalOrder(a: DateTime, b: DateTime)
    requires Valid(a) && Valid(b)
    ensures FieldsBefore(a, b) <==> LocalSeconds(a) < LocalSeconds(b)
  {
    if DateBefore(a.date, b.date) {
      OrdinalMonotone(a.date, b.date);
    } else if DateBefore(b.date, a.date) {
      OrdinalMonotone(b.date, a.date);
    }
  }

  /** Two aware values with the same offset are ordered exactly as their local
      fields are, so comparing instants (Python's rule for differing tzinfos)
      and comparing fields (its rule for a shared tzinfo) agree. */
  lemma SameOffsetOrder(a: DateTime, b: DateTime)
    requires Valid(a) && Valid(b) && Aware(a) && a.offset == b.offset
    ensures Before(a, b) == Some(FieldsBefore(a, b))
  {
    LocalOrder(a, b);
  }
}
