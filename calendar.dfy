/**
 * Python's calendar.timegm, which turns the six date/time bytes of a
 * BIN48-NET-TIME packet into seconds since the Unix epoch.  It is written the
 * way the Python library computes it (proleptic Gregorian day ordinals), and
 * proved equal to a plain count of the days and seconds since 1970-01-01.
 */
module Calendar {
  import Counters

  /** Days before the first of each month in a common year; index 0 is unused. */
  const DAYS_BEFORE_MONTH: seq<int> := [-1, 0, 31, 59, 90, 120, 151, 181, 212, 243, 273, 304, 334]

  /** The ordinal of 1970-01-01 (day 1 being 0001-01-01). */
  const EPOCH_ORD: int := 719163

  predicate IsLeap(year: int)
  {
    year % 4 == 0 && (year % 100 != 0 || year % 400 == 0)
  }

  /** Days in the years 1 .. year-1 (Python's floor divisions; y >= 0 here). */
  function DaysBeforeYear(year: int): int
    requires year >= 1
  {
    var y := year - 1;
    y * 365 + y / 4 - y / 100 + y / 400
  }

  function DaysBeforeMonth(year: int, month: int): int
    requires 1 <= month <= 12
  {
    DAYS_BEFORE_MONTH[month] + if month > 2 && IsLeap(year) then 1 else 0
  }

  /** date(year, month, day).toordinal() */
  function Ordinal(year: int, month: int, day: int): int
    requires year >= 1 && 1 <= month <= 12
  {
    DaysBeforeYear(year) + DaysBeforeMonth(year, month) + day
  }

  /**
   * calendar.timegm((year, month, day, hour, minute, second, ...)).  Only the
   * month is validated by the library (through date(year, month, 1)); day,
   * hour, minute and second are added in linearly.
   */
  function Timegm(year: int, month: int, day: int, hour: int, minute: int, second: int): int
    requires 1 <= year <= 9999 && 1 <= month <= 12
  {
    var days := Ordinal(year, month, 1) - EPOCH_ORD + day - 1;
    var hours := days * 24 + hour;
    var minutes := hours * 60 + minute;
    minutes * 60 + second
  }

  // ---- an independent reference: counting days one year and one month at a time ----

  function DaysInYear(year: int): int
  {
    if IsLeap(year) then 366 else 365
  }

  function DaysInMonth(year: int, month: int): int
    requires 1 <= month <= 12
  {
    if month == 2 then (if IsLeap(year) then 29 else 28)
    else if month == 4 || month == 6 || month == 9 || month == 11 then 30
    else 31
  }

  /** Days from 1970-01-01 to the first of January of `year`. */
  function DaysSinceEpochToYear(year: int): nat
    requires year >= 1970
    decreases year
  {
    if year == 1970 then 0 else DaysSinceEpochToYear(year - 1) + DaysInYear(year - 1)
  }

  /** Days from the first of January to the first of `month`. */
  function DaysIntoYear(year: int, month: int): nat
    requires 1 <= month <= 12
  {
    if month == 1 then 0 else DaysIntoYear(year, month - 1) + DaysInMonth(year, month - 1)
  }

  function EpochSeconds(year: int, month: int, day: int, hour: int, minute: int, second: int): int
    requires year >= 1970 && 1 <= month <= 12
  {
    (DaysSinceEpochToYear(year) + DaysIntoYear(year, month) + day - 1) * 86400
      + hour * 3600 + minute * 60 + second
  }

  lemma FloorStep(y: int, k: int)
    requires y >= 1 && (k == 4 || k == 100 || k == 400)
    ensures y / k - (y - 1) / k == if y % k == 0 then 1 else 0
  {
    var q, r := (y - 1) / k, (y - 1) % k;
    assert y == k * q + r + 1;
    if r + 1 == k {
      assert y == k * (q + 1);
    } else {
      assert y / k == q && y % k == r + 1;
    }
  }

  /** Python's leap-day arithmetic adds one year's worth of days per year. */
  lemma DaysBeforeYearStep(year: int)
    requires year >= 1
    ensures DaysBeforeYear(year + 1) - DaysBeforeYear(year) == DaysInYear(year)
  {
    var y := year - 1;
    var a, b, c := year / 4 - y / 4, year / 100 - y / 100, year / 400 - y / 400;
    assert DaysBeforeYear(year + 1) - DaysBeforeYear(year) == 365 + a - b + c;
    FloorStep(year, 4);
    FloorStep(year, 100);
    FloorStep(year, 400);
    Divides(year);
  }

  /** Every multiple of 400 is one of 100, and every multiple of 100 one of 4. */
  lemma Divides(y: int)
    ensures y % 400 == 0 ==> y % 100 == 0
    ensures y % 100 == 0 ==> y % 4 == 0
  {
    if y % 400 == 0 {
      var q := y / 400;
      assert y == 400 * q;
      Counters.ModUnique(y, 4 * q, 0, 100);
    }
    if y % 100 == 0 {
      var q := y / 100;
      assert y == 100 * q;
      Counters.ModUnique(y, 25 * q, 0, 4);
    }
  }

  lemma {:induction false} DaysBeforeYearCounts(year: int)
    requires year >= 1970
    ensures DaysBeforeYear(year) - DaysBeforeYear(1970) == DaysSinceEpochToYear(year)
    decreases year
  {
    if year > 1970 {
      DaysBeforeYearCounts(year - 1);
      DaysBeforeYearStep(year - 1);
    }
  }

  lemma {:induction false} DaysBeforeMonthCounts(year: int, month: int)
    requires 1 <= month <= 12
    ensures DaysBeforeMonth(year, month) == DaysIntoYear(year, month)
  {
    if month > 1 {
      DaysBeforeMonthCounts(year, month - 1);
    }
  }

  /**
   * For any year from 1970 on, timegm is the number of seconds elapsed since
   * 1970-01-01 00:00:00 UTC, counting the days of every year and month.
   */
  lemma TimegmCountsSeconds(year: int, month: int, day: int, hour: int, minute: int, second: int)
    requires 1970 <= year <= 9999 && 1 <= month <= 12
    ensures Timegm(year, month, day, hour, minute, second)
            == EpochSeconds(year, month, day, hour, minute, second)
  {
    DaysBeforeYearCounts(year);
    DaysBeforeMonthCounts(year, month);
    assert DaysBeforeYear(1970) + 1 == EPOCH_ORD;
  }

  lemma TimegmExample()
    ensures Timegm(2000, 1, 1, 0, 0, 0) == 946684800
  {
  }
}
