/** Calendar dates as day numbers, in the proleptic Gregorian calendar that
    Go's `time` package uses. Day 0 is 1970-01-01. */
module Calendar {

  /** Days since 1970-01-01. A `time.Time` at local midnight stands for its day. */
  type Day = int

  /** Go's `time.Weekday`: Sunday = 0, Monday = 1, …, Saturday = 6. */
  type Weekday = w: int | 0 <= w < 7

  const SUNDAY: Weekday := 0
  const MONDAY: Weekday := 1
  const TUESDAY: Weekday := 2
  const WEDNESDAY: Weekday := 3
  const THURSDAY: Weekday := 4
  const FRIDAY: Weekday := 5
  const SATURDAY: Weekday := 6

  /** The weekday of a day; 1970-01-01 was a Thursday. */
  function WeekdayOf(d: Day): Weekday {
    (d + 4) % 7
  }

  /** Consecutive days have consecutive weekdays, Saturday wrapping to Sunday. */
  lemma WeekdayAdvances(d: Day, k: int)
    ensures WeekdayOf(d + k) == (WeekdayOf(d) + k) % 7
  {
  }

  datatype Civil = Civil(year: int, month: int, day: int)

  /** Year, month (1-12) and day of month (1-31) of a day number. The count
      runs in 400-year cycles of March-based years starting 0000-03-01, so a
      leap day is the last day of its year (after H. Hinnant's
      `civil_from_days`, with the year of the cycle found by centuries,
      four-year blocks and years). */
  function CivilFromDays(d: Day): (c: Civil)
    ensures 1 <= c.month <= 12 && 1 <= c.day <= 31
  {
    var z := d + 719468;
    var era := z / 146097;
    var doe := z - era * 146097;
    var (yoe, doy) := YearOfEra(doe);
    var (m, dd) := MonthOfYear(doy);
    Civil(yoe + era * 400 + (if m <= 2 then 1 else 0), m, dd)
  }

  /** The day of a March-based year on which a month and day fall. */
  function DayOfYear(month: int, day: int): int {
    (153 * (if month > 2 then month - 3 else month + 9) + 2) / 5 + day - 1
  }

  /** Month and day of month of a day of a March-based year. */
  function MonthOfYear(doy: int): (r: (int, int))
    requires 0 <= doy < 366
    ensures 1 <= r.0 <= 12 && 1 <= r.1 <= 31
    ensures DayOfYear(r.0, r.1) == doy
  {
    var mp := (5 * doy + 2) / 153;
    var dd := doy - (153 * mp + 2) / 5 + 1;
    (if mp < 10 then mp + 3 else mp - 9, dd)
  }

  /** Splits a day of a 400-year cycle into the year of the cycle and the day
      of that year: centuries of 36524 days (the last one 36525), four-year
      blocks of 1461 days, years of 365 days (the last of a block 366). */
  function YearOfEra(doe: int): (r: (int, int))
    requires 0 <= doe < 146097
    ensures 0 <= r.0 < 400 && 0 <= r.1 < 366
    ensures doe == 365 * r.0 + r.0 / 4 - r.0 / 100 + r.1
  {
    var c := if doe / 36524 < 3 then doe / 36524 else 3;
    var dc := doe - 36524 * c;
    var q := dc / 1461;
    var dq := dc - 1461 * q;
    var y := if dq / 365 < 3 then dq / 365 else 3;
    var yoe := 100 * c + 4 * q + y;
    assert yoe / 4 == 25 * c + q;
    assert yoe / 100 == c;
    (yoe, dq - 365 * y)
  }

  /** The day number of a civil date (H. Hinnant's `days_from_civil`). */
  function DaysFromCivil(c: Civil): Day {
    var y := c.year - (if c.month <= 2 then 1 else 0);
    var era := y / 400;
    var yoe := y - era * 400;
    var doe := yoe * 365 + yoe / 4 - yoe / 100 + DayOfYear(c.month, c.day);
    era * 146097 + doe - 719468
  }

  /** Every day number is the day number of its own civil date. */
  lemma DaysFromCivilInverts(d: Day)
    ensures DaysFromCivil(CivilFromDays(d)) == d
  {
    var era := (d + 719468) / 146097;
    var doe := d + 719468 - era * 146097;
    assert 0 <= doe < 146097;
    var y := YearOfEra(doe);
    var md := MonthOfYear(y.1);
    assert CivilFromDays(d) == Civil(y.0 + era * 400 + (if md.0 <= 2 then 1 else 0), md.0, md.1);
    DaysFromParts(era, y.0, y.1, md.0, md.1);
  }

  /** `DaysFromCivil` of a date assembled from its cycle, year of the cycle,
      and month and day. */
  lemma DaysFromParts(era: int, yoe: int, doy: int, m: int, dd: int)
    requires 0 <= yoe < 400 && 1 <= m <= 12 && DayOfYear(m, dd) == doy
    ensures DaysFromCivil(Civil(yoe + era * 400 + (if m <= 2 then 1 else 0), m, dd))
         == era * 146097 + 365 * yoe + yoe / 4 - yoe / 100 + doy - 719468
  {
    var y := yoe + era * 400;
    assert y / 400 == era;
  }

  /** Month and day of month, the key of a yearly-recurring date. */
  function MonthDay(d: Day): (int, int) {
    var c := CivilFromDays(d);
    (c.month, c.day)
  }
}
