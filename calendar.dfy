/**
 * The java.time values the core works with, at the granularity it uses them:
 * LocalTime to the minute, LocalDate as a proleptic Gregorian (year, month, day),
 * and ZonedDateTime / LocalDateTime as a point on one time line.
 */
module Calendar {

  const MinutesPerDay: int := 1440
  const SecondsPerHour: int := 3600

  /** A LocalTime at minute granularity: minutes since midnight. */
  type Time = t: int | 0 <= t < 1440

  /** A ZonedDateTime or LocalDateTime, as seconds on one time line. */
  type Instant = int

  function Min(a: int, b: int): int { if a <= b then a else b }

  /** LocalTime.plusMinutes: the clock moves on n minutes, wrapping at midnight. */
  function PlusMinutes(t: Time, n: int): (r: Time)
    ensures 0 <= t + n < MinutesPerDay ==> r == t + n
    ensures MinutesPerDay <= t + n < 2 * MinutesPerDay ==> r == t + n - MinutesPerDay
  {
    (t + n) % MinutesPerDay
  }

  /** Moving the clock twice is moving it once by the sum. */
  lemma PlusMinutesAdd(t: Time, a: int, b: int)
    ensures PlusMinutes(PlusMinutes(t, a), b) == PlusMinutes(t, a + b)
  {
    var q := (t + a) / MinutesPerDay;
    assert PlusMinutes(t, a) == t + a - q * MinutesPerDay;
    ModShift(t + a + b, q);
  }

  /** Shifting by whole days does not change the time of day. */
  lemma ModShift(x: int, q: int)
    ensures (x - q * MinutesPerDay) % MinutesPerDay == x % MinutesPerDay
  {
    var r := x % MinutesPerDay;
    var p := x / MinutesPerDay;
    assert x == p * MinutesPerDay + r;
    assert x - q * MinutesPerDay == (p - q) * MinutesPerDay + r;
  }

  // ---------------------------------------------------------------- LocalDate

  /** The java.time leap-year rule, extended to all years. */
  predicate IsLeapYear(year: int) {
    year % 4 == 0 && (year % 100 != 0 || year % 400 == 0)
  }

  /** LocalDate.lengthOfMonth for a month 1..12. */
  function LengthOfMonth(year: int, month: int): (r: int)
    ensures 28 <= r <= 31
    ensures r == 29 <==> month == 2 && IsLeapYear(year)
  {
    if month == 2 then (if IsLeapYear(year) then 29 else 28)
    else if month == 4 || month == 6 || month == 9 || month == 11 then 30
    else 31
  }

  datatype Date = Date(year: int, month: int, day: int)

  predicate IsValidDate(d: Date) {
    1 <= d.month <= 12 && 1 <= d.day <= LengthOfMonth(d.year, d.month)
  }

  /** A LocalDate: a date that exists in the proleptic Gregorian calendar. */
  type LocalDate = d: Date | IsValidDate(d) witness Date(1970, 1, 1)

  /** LocalDate.isBefore: year, then month, then day. */
  predicate IsBefore(a: LocalDate, b: LocalDate) {
    a.year < b.year || (a.year == b.year && (a.month < b.month || (a.month == b.month && a.day < b.day)))
  }

  /** LocalDate.isAfter. */
  predicate IsAfter(a: LocalDate, b: LocalDate) {
    IsBefore(b, a)
  }

  /** `a` is not after `b`. */
  predicate OnOrBefore(a: LocalDate, b: LocalDate) {
    !IsAfter(a, b)
  }

  /** An order-preserving numbering of dates (31 slots per month, 12 months per year). */
  function Ordinal(d: LocalDate): int {
    d.year * 372 + (d.month - 1) * 31 + (d.day - 1)
  }

  lemma OrdinalOrder(a: LocalDate, b: LocalDate)
    ensures IsBefore(a, b) <==> Ordinal(a) < Ordinal(b)
    ensures a == b <==> Ordinal(a) == Ordinal(b)
  {
  }

  /** LocalDate.plusDays(1). */
  function NextDay(d: LocalDate): (r: LocalDate)
    ensures IsBefore(d, r)
  {
    if d.day < LengthOfMonth(d.year, d.month) then Date(d.year, d.month, d.day + 1)
    else if d.month < 12 then Date(d.year, d.month + 1, 1)
    else Date(d.year + 1, 1, 1)
  }

  /** No date lies strictly between a date and the next day. */
  lemma NextDayIsSuccessor(t: LocalDate, x: LocalDate)
    ensures IsBefore(x, NextDay(t)) <==> OnOrBefore(x, t)
  {
  }

  /** LocalDate.plusDays(n) for n >= 0. */
  function PlusDays(d: LocalDate, n: nat): (r: LocalDate)
    ensures n == 0 ==> r == d
    ensures n > 0 ==> IsBefore(d, r)
    decreases n
  {
    if n == 0 then d else PlusDays(NextDay(d), n - 1)
  }

  /** LocalDate.plusWeeks(n) for n >= 0. */
  function PlusWeeks(d: LocalDate, n: nat): (r: LocalDate)
    ensures n > 0 ==> IsBefore(d, r)
  {
    PlusDays(d, 7 * n)
  }

  /**
   * LocalDate.plusMonths: move the month count, then clamp the day to the
   * length of the month reached (January 31 plus one month is February 28 or 29).
   */
  function PlusMonths(d: LocalDate, n: int): (r: LocalDate)
    ensures n > 0 ==> IsBefore(d, r)
    ensures r.day == Min(d.day, LengthOfMonth(r.year, r.month))
    ensures r.year * 12 + r.month == d.year * 12 + d.month + n
  {
    var count := d.year * 12 + (d.month - 1) + n;
    var year := count / 12;
    var month := count % 12 + 1;
    Date(year, month, Min(d.day, LengthOfMonth(year, month)))
  }

  /** LocalDate.plusYears: February 29 moves to February 28 in a common year. */
  function PlusYears(d: LocalDate, n: int): (r: LocalDate)
    ensures r.year == d.year + n && r.month == d.month
    ensures r.day == Min(d.day, LengthOfMonth(r.year, r.month))
  {
    Date(d.year + n, d.month, Min(d.day, LengthOfMonth(d.year + n, d.month)))
  }

  /** LocalDate.getDayOfMonth. */
  function DayOfMonth(d: LocalDate): int { d.day }

  /** LocalDate.toEpochDay, as java.time computes it: days since 1970-01-01. */
  function EpochDay(d: LocalDate): int {
    var y := d.year;
    var m := d.month;
    var leapDays := if y >= 0 then (y + 3) / 4 - (y + 99) / 100 + (y + 399) / 400
                    else -((-y) / 4 - (-y) / 100 + (-y) / 400);
    var total := 365 * y + leapDays + (367 * m - 362) / 12 + d.day - 1
                 - (if m > 2 then (if IsLeapYear(y) then 1 else 2) else 0);
    total - 719528
  }

  /** LocalDate.getDayOfWeek as its ISO number: 1 is Monday, 7 is Sunday. */
  function DayOfWeek(d: LocalDate): (r: int)
    ensures 1 <= r <= 7
  {
    (EpochDay(d) + 3) % 7 + 1
  }
}
