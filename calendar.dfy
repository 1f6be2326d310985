/** The part of the proleptic Gregorian calendar that the fetcher relies on:
    the epoch-millisecond value of 1 January 00:00:00 UTC of a year, and the
    range of instants a UTC date-time value can hold (January 1 of year
    -262143, that is 262144 BCE, through December 31 of year 262142). */
module Calendar {

  datatype Option<T> = None | Some(value: T)

  const MsPerDay: int := 86_400_000

  /** Earliest and latest year a UTC date-time value can hold. */
  const MinYear: int := -262_143
  const MaxYear: int := 262_142

  predicate IsLeapYear(y: int) {
    y % 4 == 0 && (y % 100 != 0 || y % 400 == 0)
  }

  function YearLength(y: int): nat {
    if IsLeapYear(y) then 366 else 365
  }

  /** Reference definition: the number of days from 1 January 1970 to
      1 January of year `y`, counted one year at a time. */
  function DaysFromEpoch(y: int): int
    decreases if y < 1970 then 1970 - y else y - 1970
  {
    if y == 1970 then 0
    else if y > 1970 then DaysFromEpoch(y - 1) + YearLength(y - 1)
    else DaysFromEpoch(y + 1) - YearLength(y)
  }

  /** Leap years counted from a fixed origin up to and including year `n`. */
  function LeapYearsThrough(n: int): int {
    n / 4 - n / 100 + n / 400
  }

  /** Closed form of `DaysFromEpoch`: the days before 1 January of year `y`,
      relative to the Unix epoch. */
  function DaysBeforeYear(y: int): int {
    365 * (y - 1970) + LeapYearsThrough(y - 1) - LeapYearsThrough(1969)
  }

  /** Going from year `n - 1` to year `n` adds one to a floored quotient
      exactly when `n` is a multiple of the divisor. */
  lemma FloorStep(n: int)
    ensures n / 4 - (n - 1) / 4 == (if n % 4 == 0 then 1 else 0)
    ensures n / 100 - (n - 1) / 100 == (if n % 100 == 0 then 1 else 0)
    ensures n / 400 - (n - 1) / 400 == (if n % 400 == 0 then 1 else 0)
  {
  }

  lemma DaysBeforeYearStep(y: int)
    ensures DaysBeforeYear(y + 1) == DaysBeforeYear(y) + YearLength(y)
  {
    FloorStep(y);
  }

  /** The closed form agrees with the year-by-year count for every year. */
  lemma {:induction false} DaysBeforeYearIsDaysFromEpoch(y: int)
    ensures DaysBeforeYear(y) == DaysFromEpoch(y)
    decreases if y < 1970 then 1970 - y else y - 1970
  {
    if y > 1970 {
      DaysBeforeYearIsDaysFromEpoch(y - 1);
      DaysBeforeYearStep(y - 1);
    } else if y < 1970 {
      DaysBeforeYearIsDaysFromEpoch(y + 1);
      DaysBeforeYearStep(y);
    }
  }

  /** Later years start strictly later. */
  lemma {:induction false} DaysBeforeYearIncreasing(a: int, b: int)
    requires a < b
    ensures DaysBeforeYear(a) < DaysBeforeYear(b)
    decreases b - a
  {
    DaysBeforeYearStep(b - 1);
    if a < b - 1 {
      DaysBeforeYearIncreasing(a, b - 1);
    }
  }

  /** First and one-past-last day number a UTC date-time value can hold. */
  const FirstDay: int := DaysBeforeYear(MinYear)
  const EndDay: int := DaysBeforeYear(MaxYear + 1)

  /** Whether a millisecond count since the epoch names a representable
      instant: its (floored) day number must fall inside the date range. */
  predicate Representable(ms: int) {
    FirstDay <= ms / MsPerDay < EndDay
  }

  /** Every year of the date range starts on a representable day. */
  lemma YearInDateRange(year: int)
    requires MinYear <= year <= MaxYear
    ensures FirstDay <= DaysBeforeYear(year) < EndDay
  {
    if MinYear < year {
      DaysBeforeYearIncreasing(MinYear, year);
    }
    DaysBeforeYearIncreasing(year, MaxYear + 1);
  }

  /** Millisecond timestamp of 1 January, 00:00:00 UTC, of `year`; `None`
      when the year lies outside the representable date range. */
  function YearStart(year: int): (r: Option<int>)
    ensures r.Some? <==> MinYear <= year <= MaxYear
    ensures r.Some? ==> r.value == DaysFromEpoch(year) * MsPerDay
    ensures r.Some? ==> Representable(r.value) && r.value % MsPerDay == 0
  {
    if MinYear <= year <= MaxYear then
      DaysBeforeYearIsDaysFromEpoch(year);
      YearInDateRange(year);
      Some(DaysBeforeYear(year) * MsPerDay)
    else
      None
  }
}
