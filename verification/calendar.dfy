/**
 * The part of Go's time.Date that the card-expiry check needs: a proleptic
 * Gregorian UTC date and time of day turned into a Unix instant, with
 * out-of-range months and days carried into the neighbouring year or month
 * the way time.Date normalises them.
 */
module Calendar {
  import opened Models

  const Second: int := 1_000_000_000
  const Minute: int := 60 * Second
  const Hour: int := 60 * Minute
  const Day: int := 24 * Hour

  /**
   * Days from 1970-01-01 to the first of March of year `y`, by the
   * era/day-of-era method: eras of 400 years of 146097 days, each year
   * starting in March so that the leap day ends it. Dafny's `/` and `%`
   * floor for a positive divisor, as the method needs.
   */
  function MarchFirst(y: int): int
  {
    var era := y / 400;
    var yearOfEra := y % 400;
    era * 146097 + yearOfEra * 365 + yearOfEra / 4 - yearOfEra / 100 - 719468
  }

  /** Days from 1970-01-01 to the first day of month `m` (1..12) of year `y`. */
  function DaysToMonthStart(y: int, m: int): int
    requires 1 <= m <= 12
  {
    var shiftedYear := if m <= 2 then y - 1 else y;
    var shiftedMonth := (m + 9) % 12;
    MarchFirst(shiftedYear) + (153 * shiftedMonth + 2) / 5
  }

  /**
   * time.Date(year, month, day, hour, min, sec, 0, time.UTC) as an instant:
   * the month is normalised into 1..12 by carrying whole years, and day,
   * hour, minute and second are then added as offsets, so day 0 is the last
   * day of the previous month.
   */
  function Date(year: int, month: int, day: int, hour: int, min: int, sec: int): (t: Instant)
    ensures t % Second == 0
  {
    var carry := (month - 1) / 12;
    var m := (month - 1) % 12 + 1;
    ((DaysToMonthStart(year + carry, m) + day - 1) * 86400 + hour * 3600 + min * 60 + sec) * Second
  }

  /**
   * The last instant a card is valid: 23:59:59 UTC on the last day of its
   * expiry month, written in the bank as day 0 of the following month.
   */
  function CardExpiry(expiryMonth: int, expiryYear: int): (deadline: Instant)
    ensures deadline % Day == Day - Second
  {
    LastSecondOfDay(expiryYear, expiryMonth + 1);
    Date(expiryYear, expiryMonth + 1, 0, 23, 59, 59)
  }

  /** 23:59:59 on any day is the last whole second of that day. */
  lemma LastSecondOfDay(year: int, month: int)
    ensures Date(year, month, 0, 23, 59, 59) % Day == Day - Second
  {
    var carry := (month - 1) / 12;
    var m := (month - 1) % 12 + 1;
    var n := DaysToMonthStart(year + carry, m) - 1;
    assert Date(year, month, 0, 23, 59, 59) == n * Day + (Day - Second);
    WithinDay(n, Day - Second);
  }

  /** An offset within a day is what remains after whole days. */
  lemma WithinDay(days: int, offset: int)
    requires 0 <= offset < Day
    ensures (days * Day + offset) % Day == offset
  {
  }

  /** Later days start at least one day later. */
  lemma LaterDay(earlier: int, later: int)
    requires earlier < later
    ensures earlier * Day + Day <= later * Day
  {
  }

  /**
   * A card's deadline is one second before midnight opening the month after
   * its expiry month, whatever the month number (13 carries into January of
   * the next year).
   */
  lemma ExpiryPrecedesNextMonth(expiryMonth: int, expiryYear: int)
    ensures CardExpiry(expiryMonth, expiryYear) + Second == Date(expiryYear, expiryMonth + 1, 1, 0, 0, 0)
  {
  }

  /** For a month 1..12 the deadline lies within that month: on or after its first midnight. */
  lemma ExpiryWithinMonth(expiryMonth: int, expiryYear: int)
    requires 1 <= expiryMonth <= 12
    ensures Date(expiryYear, expiryMonth, 1, 0, 0, 0) <= CardExpiry(expiryMonth, expiryYear)
    ensures CardExpiry(expiryMonth, expiryYear) < Date(expiryYear, expiryMonth + 1, 1, 0, 0, 0)
  {
    ExpiryPrecedesNextMonth(expiryMonth, expiryYear);
    MonthHasDays(expiryYear, expiryMonth);
  }

  /** Every month 1..11 starts at least 28 days before the next one. */
  lemma MonthStartsIncrease(year: int, month: int)
    requires 1 <= month <= 11
    ensures DaysToMonthStart(year, month) + 28 <= DaysToMonthStart(year, month + 1)
  {
    if month == 2 {
      YearLength(year - 1);
    }
  }

  /** A March-based year has at least 365 days. */
  lemma YearLength(y: int)
    ensures MarchFirst(y) + 365 <= MarchFirst(y + 1)
  {
    var k := y % 400;
    if k == 399 {
      assert (y + 1) / 400 == y / 400 + 1 && (y + 1) % 400 == 0;
    } else {
      assert (y + 1) / 400 == y / 400 && (y + 1) % 400 == k + 1;
      LeapDaysStep(k);
    }
  }

  /** Within an era the count of leap days so far never drops from one year to the next. */
  lemma LeapDaysStep(k: int)
    requires 0 <= k < 399
    ensures k / 4 - k / 100 <= (k + 1) / 4 - (k + 1) / 100
  {
    if (k + 1) % 100 == 0 {
      var a := (k + 1) / 100;
      assert k + 1 == 100 * a;
      assert (k + 1) / 4 == 25 * a && k / 4 == 25 * a - 1 && k / 100 == a - 1;
    } else {
      assert (k + 1) / 100 == k / 100;
    }
  }

  /** Midnight opening the first day of a month, normalised like time.Date. */
  lemma FirstOfMonth(year: int, month: int)
    requires 1 <= month <= 13
    ensures month <= 12 ==> Date(year, month, 1, 0, 0, 0) == DaysToMonthStart(year, month) * Day
    ensures month == 13 ==> Date(year, month, 1, 0, 0, 0) == DaysToMonthStart(year + 1, 1) * Day
  {
    if month == 13 {
      assert (month - 1) / 12 == 1 && (month - 1) % 12 + 1 == 1;
    } else {
      assert (month - 1) / 12 == 0 && (month - 1) % 12 + 1 == month;
    }
  }

  /** Every month has at least one day: its first midnight comes a day or more before the next month's. */
  lemma MonthHasDays(year: int, month: int)
    requires 1 <= month <= 12
    ensures Date(year, month, 1, 0, 0, 0) + Day <= Date(year, month + 1, 1, 0, 0, 0)
  {
    FirstOfMonth(year, month);
    FirstOfMonth(year, month + 1);
    NextMonthStart(year, month);
    LaterDay(DaysToMonthStart(year, month), if month == 12 then DaysToMonthStart(year + 1, 1) else DaysToMonthStart(year, month + 1));
  }

  /** The next month, December included, starts at least 28 days after month `month` of `year`. */
  lemma NextMonthStart(year: int, month: int)
    requires 1 <= month <= 12
    ensures DaysToMonthStart(year, month) + 28 <= if month == 12 then DaysToMonthStart(year + 1, 1) else DaysToMonthStart(year, month + 1)
  {
    if month < 12 {
      MonthStartsIncrease(year, month);
    }
  }

  /** Twelve months on is the same date one year later, whatever the month number. */
  lemma MonthCarry(year: int, month: int, day: int, hour: int, min: int, sec: int)
    ensures Date(year, month + 12, day, hour, min, sec) == Date(year + 1, month, day, hour, min, sec)
  {
  }

  /** The deadline of a December card falls on the 31st, in the same year. */
  lemma DecemberExpiry()
    ensures CardExpiry(12, 2025) == 1_767_225_599 * Second
  {
    assert DaysToMonthStart(2026, 1) == 20454;
  }

  /** February's deadline follows the leap-year rule: the 29th in 2024 and 2000. */
  lemma LeapFebruaryExpiry()
    ensures CardExpiry(2, 2024) == 1_709_251_199 * Second
    ensures CardExpiry(2, 2000) == 951_868_799 * Second
  {
    assert DaysToMonthStart(2024, 3) == 19783;
    assert DaysToMonthStart(2000, 3) == 11017;
  }

  /** ... and the 28th in a common year. */
  lemma CommonFebruaryExpiry()
    ensures CardExpiry(2, 2023) == 1_677_628_799 * Second
  {
    assert DaysToMonthStart(2023, 3) == 19417;
  }
}
