/**
 * A small proleptic Gregorian calendar: the part of Python's `datetime` that
 * the battle schedule relies on (valid dates, one-day steps, ordering).
 */
module Calendar {

  /** A timestamp at minute resolution, as the schedule stores it. */
  datatype DateTime = DateTime(year: int, month: int, day: int, hour: int, minute: int)

  /** Python's datetime range: MINYEAR = 1, MAXYEAR = 9999. */
  const MinYear := 1
  const MaxYear := 9999

  predicate IsLeap(y: int) {
    y % 4 == 0 && (y % 100 != 0 || y % 400 == 0)
  }

  function DaysInMonth(y: int, m: int): (n: int)
    requires 1 <= m <= 12
    ensures 28 <= n <= 31
    ensures n == 29 <==> m == 2 && IsLeap(y)
    ensures n == 28 <==> m == 2 && !IsLeap(y)
    ensures n == 30 <==> m in {4, 6, 9, 11}
  {
    if m == 2 then (if IsLeap(y) then 29 else 28)
    else if m == 4 || m == 6 || m == 9 || m == 11 then 30
    else 31
  }

  /** The fields form a date that `datetime(year, month, day, hour, minute)` accepts. */
  predicate Valid(d: DateTime) {
    && MinYear <= d.year <= MaxYear
    && 1 <= d.month <= 12
    && 1 <= d.day <= DaysInMonth(d.year, d.month)
    && 0 <= d.hour < 24
    && 0 <= d.minute < 60
  }

  /** Lexicographic order on the calendar day (year, month, day). */
  predicate DayBefore(a: DateTime, b: DateTime) {
    a.year < b.year
    || (a.year == b.year && a.month < b.month)
    || (a.year == b.year && a.month == b.month && a.day < b.day)
  }

  predicate SameDay(a: DateTime, b: DateTime) {
    a.year == b.year && a.month == b.month && a.day == b.day
  }

  /** Chronological order at minute resolution. */
  predicate Before(a: DateTime, b: DateTime) {
    DayBefore(a, b)
    || (SameDay(a, b) && (a.hour < b.hour || (a.hour == b.hour && a.minute < b.minute)))
  }

  predicate AtOrAfter(a: DateTime, b: DateTime) {
    !Before(a, b)
  }

  /** `d + timedelta(days=1)`: the same time of day on the next calendar day. */
  function NextDay(d: DateTime): (r: DateTime)
    requires Valid(d) && d.year < MaxYear
    ensures Valid(r)
    ensures r.hour == d.hour && r.minute == d.minute
    ensures DayBefore(d, r)
  {
    if d.day < DaysInMonth(d.year, d.month) then d.(day := d.day + 1)
    else if d.month < 12 then d.(month := d.month + 1, day := 1)
    else d.(year := d.year + 1, month := 1, day := 1)
  }

  /** No valid calendar day lies strictly between a day and the day after it. */
  lemma NextDayIsSuccessor(d: DateTime, t: DateTime)
    requires Valid(d) && d.year < MaxYear && Valid(t)
    requires DayBefore(d, t)
    ensures SameDay(NextDay(d), t) || DayBefore(NextDay(d), t)
  {
    var n := NextDay(d);
    if d.day < DaysInMonth(d.year, d.month) {
      assert n == d.(day := d.day + 1);
    } else if d.month < 12 {
      assert n == d.(month := d.month + 1, day := 1);
    } else {
      assert n == d.(year := d.year + 1, month := 1, day := 1);
    }
  }

  /** `d.replace(hour=h, minute=m)`. */
  function WithTime(d: DateTime, h: int, m: int): (r: DateTime)
    requires Valid(d) && 0 <= h < 24 && 0 <= m < 60
    ensures Valid(r) && SameDay(r, d) && r.hour == h && r.minute == m
  {
    d.(hour := h, minute := m)
  }
}
