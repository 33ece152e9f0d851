/** The proleptic Gregorian calendar that Python's `datetime` uses: dates from
    0001-01-01 to 9999-12-31 and their day ordinals (0001-01-01 is day 1), so
    that subtracting two dates or a number of days from a date is arithmetic
    on ordinals. */
module Calendar {

  datatype Date = Date(year: int, month: int, day: int)

  const MinYear := 1
  const MaxYear := 9999

  predicate IsLeap(y: int) {
    y % 4 == 0 && (y % 100 != 0 || y % 400 == 0)
  }

  function DaysInYear(y: int): int {
    if IsLeap(y) then 366 else 365
  }

  function DaysInMonth(y: int, m: int): (n: int)
    requires 1 <= m <= 12
    ensures 28 <= n <= 31
  {
    if m == 2 then (if IsLeap(y) then 29 else 28)
    else if m == 4 || m == 6 || m == 9 || m == 11 then 30
    else 31
  }

  /** A date whose month and day exist and whose year is not before year 1
      (no upper bound: the ordinal arithmetic below does not need one). */
  predicate WellFormed(d: Date) {
    MinYear <= d.year && 1 <= d.month <= 12 && 1 <= d.day <= DaysInMonth(d.year, d.month)
  }

  /** A date that Python's `date` type can hold. */
  predicate ValidDate(d: Date) {
    WellFormed(d) && d.year <= MaxYear
  }

  /** Days in the months of year `y` before month `m` (m == 13: the whole year). */
  function DaysBeforeMonth(y: int, m: int): int
    requires 1 <= m <= 13
  {
    var common :=
      match m
      case 1 => 0 case 2 => 31 case 3 => 59 case 4 => 90 case 5 => 120
      case 6 => 151 case 7 => 181 case 8 => 212 case 9 => 243 case 10 => 273
      case 11 => 304 case 12 => 334 case _ => 365;
    common + (if m > 2 && IsLeap(y) then 1 else 0)
  }

  /** Days in the years before year `y`. */
  function DaysBeforeYear(y: int): int
    requires y >= MinYear
    decreases y
  {
    if y == MinYear then 0 else DaysBeforeYear(y - 1) + DaysInYear(y - 1)
  }

  /** The ordinal of 0001-01-01, the first day `datetime` can represent. */
  const MinOrdinal := 1

  /** The day ordinal of a date: 0001-01-01 is day 1. */
  function Ordinal(d: Date): int
    requires WellFormed(d)
  {
    DaysBeforeYear(d.year) + DaysBeforeMonth(d.year, d.month) + d.day
  }

  lemma MonthStep(y: int, m: int)
    requires 1 <= m <= 12
    ensures DaysBeforeMonth(y, m) + DaysInMonth(y, m) == DaysBeforeMonth(y, m + 1)
    ensures DaysBeforeMonth(y, 13) == DaysInYear(y)
  {
  }

  lemma {:induction false} DaysBeforeMonthMonotone(y: int, m1: int, m2: int)
    requires 1 <= m1 <= m2 <= 13
    ensures DaysBeforeMonth(y, m1) <= DaysBeforeMonth(y, m2)
    decreases m2 - m1
  {
    if m1 < m2 {
      MonthStep(y, m1);
      DaysBeforeMonthMonotone(y, m1 + 1, m2);
    }
  }

  lemma {:induction false} DaysBeforeYearMonotone(y1: int, y2: int)
    requires MinYear <= y1 <= y2
    ensures DaysBeforeYear(y1) <= DaysBeforeYear(y2)
    decreases y2 - y1
  {
    if y1 < y2 {
      DaysBeforeYearMonotone(y1, y2 - 1);
    }
  }

  /** A well-formed date lies inside its own year's span of ordinals. */
  lemma OrdinalWithinYear(d: Date)
    requires WellFormed(d)
    ensures DaysBeforeYear(d.year) < Ordinal(d) <= DaysBeforeYear(d.year + 1)
  {
    MonthStep(d.year, d.month);
    DaysBeforeMonthMonotone(d.year, d.month + 1, 13);
  }

  /** Ordinals are ordered like years: a later year always has larger ordinals. */
  lemma OrdinalOrdersYears(a: Date, b: Date)
    requires WellFormed(a) && WellFormed(b)
    requires Ordinal(a) <= Ordinal(b)
    ensures a.year <= b.year
  {
    if a.year > b.year {
      OrdinalWithinYear(a);
      OrdinalWithinYear(b);
      DaysBeforeYearMonotone(b.year + 1, a.year);
    }
  }

  /** Two well-formed dates with the same ordinal are the same date. */
  lemma OrdinalInjective(a: Date, b: Date)
    requires WellFormed(a) && WellFormed(b)
    requires Ordinal(a) == Ordinal(b)
    ensures a == b
  {
    OrdinalOrdersYears(a, b);
    OrdinalOrdersYears(b, a);
    var y := a.year;
    if a.month < b.month {
      MonthStep(y, a.month);
      DaysBeforeMonthMonotone(y, a.month + 1, b.month);
    } else if b.month < a.month {
      MonthStep(y, b.month);
      DaysBeforeMonthMonotone(y, b.month + 1, a.month);
    }
  }

  /** The year holding day `n` of the years from `y` on, and the day's
      position inside that year. */
  function YearOf(n: int, y: int): (p: (int, int))
    requires 1 <= n && MinYear <= y
    ensures y <= p.0 && 1 <= p.1 <= DaysInYear(p.0)
    ensures DaysBeforeYear(p.0) + p.1 == DaysBeforeYear(y) + n
    decreases n
  {
    if n <= DaysInYear(y) then (y, n) else YearOf(n - DaysInYear(y), y + 1)
  }

  /** The month holding day `r` of year `y`, counting from month `m` on, and
      the day of that month. */
  function MonthOf(y: int, r: int, m: int): (p: (int, int))
    requires 1 <= m <= 12
    requires 1 <= r <= DaysInYear(y) - DaysBeforeMonth(y, m)
    ensures m <= p.0 <= 12 && 1 <= p.1 <= DaysInMonth(y, p.0)
    ensures DaysBeforeMonth(y, p.0) + p.1 == DaysBeforeMonth(y, m) + r
    decreases 12 - m
  {
    MonthStep(y, m);
    if r <= DaysInMonth(y, m) then (m, r)
    else MonthOf(y, r - DaysInMonth(y, m), m + 1)
  }

  /** The date of day ordinal `n`, as Python's `date.fromordinal`. */
  function FromOrdinal(n: int): (d: Date)
    requires n >= 1
    ensures WellFormed(d) && Ordinal(d) == n
  {
    var (y, r) := YearOf(n, MinYear);
    MonthStep(y, 1);
    var (m, day) := MonthOf(y, r, 1);
    Date(y, m, day)
  }

  /** `FromOrdinal` inverts `Ordinal`. */
  lemma FromOrdinalOrdinal(d: Date)
    requires WellFormed(d)
    ensures Ordinal(d) >= 1 && FromOrdinal(Ordinal(d)) == d
  {
    OrdinalWithinYear(d);
    DaysBeforeYearMonotone(MinYear, d.year);
    OrdinalInjective(FromOrdinal(Ordinal(d)), d);
  }

  /** Going back from a date by a number of days that does not pass
      0001-01-01 gives a date Python can hold. */
  lemma FromOrdinalBounded(n: int, d: Date)
    requires ValidDate(d) && 1 <= n <= Ordinal(d)
    ensures ValidDate(FromOrdinal(n))
  {
    OrdinalOrdersYears(FromOrdinal(n), d);
  }
}
