/**
 * Calendar arithmetic for the `yyyy-MM-dd` text the date fields accept: the
 * shape of the text, the Gregorian month lengths, and the day number of a
 * civil date counted from 1970-01-01 (dates are read as UTC).
 */
module Calendar {
  import opened Types
  import opened Dates
  import opened Text

  /** `/^(\d{4})-(\d{2})-(\d{2})$/`. */
  predicate IsDateText(s: string) {
    && |s| == 10 && AllDigits(s[..4]) && s[4] == '-' && AllDigits(s[5..7]) && s[7] == '-' && AllDigits(s[8..])
  }

  function YearOf(s: string): nat requires IsDateText(s) { DigitsValue(s[..4]) }
  function MonthOf(s: string): nat requires IsDateText(s) { DigitsValue(s[5..7]) }
  function DayOfMonthOf(s: string): nat requires IsDateText(s) { DigitsValue(s[8..]) }

  predicate IsLeapYear(y: int) {
    y % 4 == 0 && (y % 100 != 0 || y % 400 == 0)
  }

  function DaysInMonth(y: int, m: int): (n: int)
    requires 1 <= m <= 12
    ensures 28 <= n <= 31
    ensures n == 29 <==> m == 2 && IsLeapYear(y)
  {
    if m == 2 then (if IsLeapYear(y) then 29 else 28)
    else if m == 4 || m == 6 || m == 9 || m == 11 then 30
    else 31
  }

  /** Days from 1970-01-01 to the given proleptic Gregorian date (the era-based day count). */
  function DaysFromCivil(y: int, m: int, d: int): int
    requires 1 <= m <= 12
  {
    var y' := if m <= 2 then y - 1 else y;
    var era := y' / 400;
    var yoe := y' - era * 400;
    var mp := (m + 9) % 12;
    var doy := (153 * mp + 2) / 5 + d - 1;
    var doe := yoe * 365 + yoe / 4 - yoe / 100 + doy;
    era * 146097 + doe - 719468
  }

  /** The count starts at the epoch, and 2000-03-01 is day 11017. */
  lemma CivilAnchors()
    ensures DaysFromCivil(1970, 1, 1) == 0
    ensures DaysFromCivil(2000, 3, 1) == 11017
    ensures DaysFromCivil(2000, 2, 29) == 11016
  {
  }

  /** The next day of the same month is the next day number. */
  lemma NextDayInMonth(y: int, m: int, d: int)
    requires 1 <= m <= 12
    ensures DaysFromCivil(y, m, d + 1) == DaysFromCivil(y, m, d) + 1
  {
  }

  /** The instant of a civil date and wall-clock time, read as UTC. */
  function CivilInstant(y: int, m: int, d: int, hour: int, minute: int): Instant
    requires 1 <= m <= 12
  {
    DaysFromCivil(y, m, d) * DAY + hour * 3600000 + minute * 60000
  }

  /** Any time of day lies on the calendar day of its date. */
  lemma CivilInstantDay(y: int, m: int, d: int, hour: int, minute: int)
    requires 1 <= m <= 12 && 0 <= hour <= 23 && 0 <= minute <= 59
    ensures DayOf(CivilInstant(y, m, d, hour, minute)) == DaysFromCivil(y, m, d)
  {
    var t := CivilInstant(y, m, d, hour, minute);
    var n := DaysFromCivil(y, m, d);
    assert n * DAY <= t < (n + 1) * DAY;
  }
}
