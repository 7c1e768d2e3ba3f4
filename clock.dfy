/** Wall-clock values as the core uses Go's `time.Time`: a civil date and time of day (UTC), the
    layouts it formats them with, and stepping back one calendar day (`AddDate(0, 0, -1)`).
    Reading the clock (`time.Now`) is never done here: callers pass the current time in. */
module Clock {
  import opened Text

  type Year = y: nat | 1 <= y witness 1
  type Month = m: nat | 1 <= m <= 12 witness 1
  type Day = d: nat | 1 <= d <= 31 witness 1
  type Hour = h: nat | h < 24
  type Sixty = n: nat | n < 60

  /** A civil date. Each field is kept in its range; `ValidDate` adds the length of the month. */
  datatype Date = Date(year: Year, month: Month, day: Day)

  predicate IsLeap(y: nat) {
    (y % 4 == 0 && y % 100 != 0) || y % 400 == 0
  }

  function DaysIn(y: nat, m: nat): (n: Day)
    ensures 28 <= n
  {
    if m == 2 then (if IsLeap(y) then 29 else 28)
    else if m == 4 || m == 6 || m == 9 || m == 11 then 30
    else 31
  }

  /** A date that exists in the proleptic Gregorian calendar. */
  predicate ValidDate(d: Date) {
    d.day <= DaysIn(d.year, d.month)
  }

  /** A `time.Time` in UTC, to the second. */
  datatype Time = Time(date: Date, hour: Hour, minute: Sixty, second: Sixty)

  /** Go's zero `time.Time` (0001-01-01 00:00:00 UTC), the value `IsZero` tests for. */
  const ZeroTime: Time := Time(Date(1, 1, 1), 0, 0, 0)

  predicate IsZero(t: Time) {
    t == ZeroTime
  }

  /** `t.Hour()`: the number of whole hours the instant lies past the start of its day. */
  function HourOf(t: Time): (h: nat)
    ensures h < 24
    ensures h == Stamp(t) / 3600 % 24
  {
    StampHours(t);
    t.hour
  }

  /** Layout "2006-01-02". */
  function FormatDate(d: Date): string {
    PadLeft(d.year, 4) + "-" + PadLeft(d.month, 2) + "-" + PadLeft(d.day, 2)
  }

  /** Layout "200601021504": to the minute, without separators. */
  function FormatMinute(t: Time): string {
    PadLeft(t.date.year, 4) + PadLeft(t.date.month, 2) + PadLeft(t.date.day, 2)
      + PadLeft(t.hour, 2) + PadLeft(t.minute, 2)
  }

  /** Layout "20060102150405": to the second, without separators. */
  function FormatSecond(t: Time): string {
    FormatMinute(t) + PadLeft(t.second, 2)
  }

  /** The instant as one number, ordered like the instants: fields compared from the year down. */
  function Stamp(t: Time): int {
    ((DayNumber(t.date) * 24 + t.hour) * 60 + t.minute) * 60 + t.second
  }

  /** Dropping the minutes and seconds from the instant's number leaves the whole hours: some
      count of days times 24 plus the hour of the day. */
  lemma StampHours(t: Time)
    ensures Stamp(t) / 3600 == DayNumber(t.date) * 24 + t.hour
  {
    var hours := DayNumber(t.date) * 24 + t.hour;
    var rest := t.minute * 60 + t.second;
    assert Stamp(t) == hours * 3600 + rest;
    assert 0 <= rest < 3600;
  }

  /** The date's part of `Stamp`. */
  function DayNumber(d: Date): nat {
    (d.year * 13 + d.month) * 32 + d.day
  }

  /** `!a.After(b)`. */
  predicate NotAfter(a: Time, b: Time) {
    Stamp(a) <= Stamp(b)
  }

  /** Two instants in the same minute. */
  predicate SameMinute(a: Time, b: Time) {
    a.date == b.date && a.hour == b.hour && a.minute == b.minute
  }

  /** The calendar day before `d` (0001-01-01, the earliest date here, has none and is kept). */
  function PrevDay(d: Date): (r: Date)
    ensures ValidDate(d) ==> ValidDate(r)
    ensures d.year > 1 || d.month > 1 || d.day > 1 ==> r != d
  {
    if d.day > 1 then Date(d.year, d.month, d.day - 1)
    else if d.month > 1 then Date(d.year, d.month - 1, DaysIn(d.year, d.month - 1))
    else if d.year > 1 then Date(d.year - 1, 12, 31)
    else d
  }

  /** Calendar order on dates: by year, then month, then day. */
  predicate DateBefore(a: Date, b: Date) {
    a.year < b.year || (a.year == b.year && (a.month < b.month || (a.month == b.month && a.day < b.day)))
  }

  /** Stepping back from a real date other than 0001-01-01 gives the date right before it: earlier
      in calendar order, and with no real date strictly in between. */
  lemma PrevDayAdjacent(d: Date, x: Date)
    requires ValidDate(d) && ValidDate(x) && d != Date(1, 1, 1)
    ensures DateBefore(PrevDay(d), d)
    ensures !(DateBefore(PrevDay(d), x) && DateBefore(x, d))
  {
  }

  /** `AddDate(0, 0, -i)` on the date part, for dates after year 1. */
  function DaysBack(d: Date, i: nat): Date
    decreases i
  {
    if i == 0 then d else DaysBack(PrevDay(d), i - 1)
  }
}
