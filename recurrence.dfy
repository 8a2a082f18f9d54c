/**
 * The recurrence rules of the availability service: which dates a pattern
 * matches, how the walk moves on from one date, and the dates a recurring
 * availability request expands to.
 */
module Recurrence {
  import opened Wrappers
  import opened Calendar
  import opened Availability

  /**
   * matchesRecurrencePattern: without a pattern only the start date itself; DAILY
   * every date; WEEKLY the start date's day of the week; MONTHLY its day of the month.
   */
  predicate MatchesRecurrencePattern(date: LocalDate, startDate: LocalDate, pattern: Option<RecurrencePattern>) {
    match pattern
    case None => date == startDate
    case Some(Daily) => true
    case Some(Weekly) => DayOfWeek(date) == DayOfWeek(startDate)
    case Some(Monthly) => DayOfMonth(date) == DayOfMonth(startDate)
  }

  /**
   * getNextOccurrence: one day on without a pattern and for DAILY, one week on for
   * WEEKLY, one month on (day clamped to the month's length) for MONTHLY. The result
   * is always a later date.
   */
  function NextOccurrence(currentDate: LocalDate, pattern: Option<RecurrencePattern>): (r: LocalDate)
    ensures IsBefore(currentDate, r)
    ensures pattern.None? || pattern == Some(Daily) ==> r == NextDay(currentDate)
  {
    match pattern
    case None => PlusDays(currentDate, 1)
    case Some(Daily) => PlusDays(currentDate, 1)
    case Some(Weekly) => PlusWeeks(currentDate, 1)
    case Some(Monthly) => PlusMonths(currentDate, 1)
  }

  /** How many dates the walk from `current` can still visit before passing `endDate`. */
  function Remaining(current: LocalDate, endDate: LocalDate): nat {
    if IsAfter(current, endDate) then 0 else Ordinal(endDate) - Ordinal(current) + 1
  }

  /** Every step of the walk brings it closer to the end date. */
  lemma NextOccurrenceApproaches(current: LocalDate, endDate: LocalDate, pattern: Option<RecurrencePattern>)
    requires OnOrBefore(current, endDate)
    ensures Remaining(NextOccurrence(current, pattern), endDate) < Remaining(current, endDate)
  {
    var next := NextOccurrence(current, pattern);
    OrdinalOrder(current, next);
    OrdinalOrder(current, endDate);
    OrdinalOrder(endDate, current);
    OrdinalOrder(next, endDate);
    OrdinalOrder(endDate, next);
  }

  /**
   * The dates generateRecurringAvailabilities creates an availability for: walking
   * from `current` by getNextOccurrence while not after `endDate`, those that match
   * the pattern anchored at `startDate`. Each lies in [current, endDate] and they come
   * strictly in calendar order (OccurrencesMatch: each matches the pattern).
   */
  function Occurrences(current: LocalDate, endDate: LocalDate, startDate: LocalDate,
                       pattern: Option<RecurrencePattern>): (r: seq<LocalDate>)
    ensures forall i :: 0 <= i < |r| ==> OnOrBefore(current, r[i]) && OnOrBefore(r[i], endDate)
    ensures forall i, j :: 0 <= i < j < |r| ==> Ordinal(r[i]) < Ordinal(r[j])
    decreases Remaining(current, endDate)
  {
    if IsAfter(current, endDate) then []
    else
      var next := NextOccurrence(current, pattern);
      NextOccurrenceApproaches(current, endDate, pattern);
      var rest := Occurrences(next, endDate, startDate, pattern);
      var keep := MatchesRecurrencePattern(current, startDate, pattern);
      PrependInOrder(current, next, endDate, rest, keep);
      if keep then [current] + rest else rest
  }

  /** One step of the walk: the current date, if it matches, then the dates from the next occurrence on. */
  lemma OccurrencesStep(current: LocalDate, endDate: LocalDate, startDate: LocalDate,
                        pattern: Option<RecurrencePattern>)
    requires OnOrBefore(current, endDate)
    ensures Occurrences(current, endDate, startDate, pattern)
            == (if MatchesRecurrencePattern(current, startDate, pattern) then [current] else [])
               + Occurrences(NextOccurrence(current, pattern), endDate, startDate, pattern)
  {
    var rest := Occurrences(NextOccurrence(current, pattern), endDate, startDate, pattern);
    assert [] + rest == rest;
  }

  /**
   * A walk split into the dates already produced and those still to come stays so
   * split after one more step.
   */
  lemma OccurrencesAdvance(all: seq<LocalDate>, done: seq<LocalDate>, current: LocalDate, endDate: LocalDate,
                           startDate: LocalDate, pattern: Option<RecurrencePattern>)
    requires OnOrBefore(current, endDate)
    requires all == done + Occurrences(current, endDate, startDate, pattern)
    ensures all == (if MatchesRecurrencePattern(current, startDate, pattern) then done + [current] else done)
                   + Occurrences(NextOccurrence(current, pattern), endDate, startDate, pattern)
  {
    OccurrencesStep(current, endDate, startDate, pattern);
    var rest := Occurrences(NextOccurrence(current, pattern), endDate, startDate, pattern);
    if MatchesRecurrencePattern(current, startDate, pattern) {
      assert done + ([current] + rest) == (done + [current]) + rest;
    }
  }

  /** Every date produced matches the pattern anchored at the start date. */
  lemma {:induction false} OccurrencesMatch(current: LocalDate, endDate: LocalDate, startDate: LocalDate,
                                            pattern: Option<RecurrencePattern>)
    ensures forall d :: d in Occurrences(current, endDate, startDate, pattern) ==>
              MatchesRecurrencePattern(d, startDate, pattern)
    decreases Remaining(current, endDate)
  {
    if !IsAfter(current, endDate) {
      NextOccurrenceApproaches(current, endDate, pattern);
      OccurrencesMatch(NextOccurrence(current, pattern), endDate, startDate, pattern);
    }
  }

  /**
   * Putting `current` (or not, as `keep` says) before dates that follow it keeps the
   * walk within [current, endDate] and in calendar order.
   */
  lemma PrependInOrder(current: LocalDate, next: LocalDate, endDate: LocalDate, rest: seq<LocalDate>, keep: bool)
    requires IsBefore(current, next) && OnOrBefore(current, endDate)
    requires forall i :: 0 <= i < |rest| ==> OnOrBefore(next, rest[i]) && OnOrBefore(rest[i], endDate)
    requires forall i, j :: 0 <= i < j < |rest| ==> Ordinal(rest[i]) < Ordinal(rest[j])
    ensures var r := if keep then [current] + rest else rest;
            && (forall i :: 0 <= i < |r| ==> OnOrBefore(current, r[i]) && OnOrBefore(r[i], endDate))
            && (forall i, j :: 0 <= i < j < |r| ==> Ordinal(r[i]) < Ordinal(r[j]))
  {
    AllLater(current, next, rest);
  }

  /** Dates not before a date later than `current` are all later than `current`. */
  lemma AllLater(current: LocalDate, next: LocalDate, rest: seq<LocalDate>)
    requires IsBefore(current, next)
    requires forall i :: 0 <= i < |rest| ==> OnOrBefore(next, rest[i])
    ensures forall i :: 0 <= i < |rest| ==> Ordinal(current) < Ordinal(rest[i]) && OnOrBefore(current, rest[i])
  {
    forall i | 0 <= i < |rest|
      ensures Ordinal(current) < Ordinal(rest[i]) && OnOrBefore(current, rest[i])
    {
      OrdinalOrder(current, next);
      OrdinalOrder(rest[i], next);
      OrdinalOrder(rest[i], current);
    }
  }

  /** A walk that starts after its end date produces nothing. */
  lemma OccurrencesEmptyAfterEnd(current: LocalDate, endDate: LocalDate, startDate: LocalDate,
                                 pattern: Option<RecurrencePattern>)
    requires IsAfter(current, endDate)
    ensures Occurrences(current, endDate, startDate, pattern) == []
  {
  }

  /** A DAILY recurrence creates an availability on every date from the start to the end date. */
  lemma {:induction false} DailyCoversRange(current: LocalDate, endDate: LocalDate, startDate: LocalDate, x: LocalDate)
    requires OnOrBefore(current, x) && OnOrBefore(x, endDate)
    ensures x in Occurrences(current, endDate, startDate, Some(Daily))
    decreases Ordinal(x) - Ordinal(current)
  {
    OrdinalOrder(current, x);
    OrdinalOrder(x, current);
    if x != current {
      var next := NextDay(current);
      NextDayIsSuccessor(current, x);
      OrdinalOrder(current, next);
      OrdinalOrder(next, x);
      DailyCoversRange(next, endDate, startDate, x);
    }
  }

  /**
   * Without a pattern the walk still visits every date, but only the start date
   * matches: an availability on that date alone, provided it is not after the end.
   */
  lemma {:induction false} NoPatternOnlyStartDate(current: LocalDate, endDate: LocalDate)
    requires OnOrBefore(current, endDate)
    ensures Occurrences(current, endDate, current, None) == [current]
  {
    var next := NextDay(current);
    var rest := Occurrences(next, endDate, current, None);
    OccurrencesMatch(next, endDate, current, None);
    if rest != [] {
      assert rest[0] in rest;
      OrdinalOrder(current, rest[0]);
      OrdinalOrder(current, next);
      OrdinalOrder(rest[0], next);
    }
  }

  /** A DAILY recurrence over two days produces exactly those two days, in order. */
  lemma TwoDailyOccurrences(d: LocalDate)
    ensures Occurrences(d, NextDay(d), d, Some(Daily)) == [d, NextDay(d)]
  {
    var next := NextDay(d);
    var after := NextDay(next);
    assert Occurrences(after, next, d, Some(Daily)) == [];
  }

  /**
   * getNextOccurrence for MONTHLY clamps the day: a recurrence anchored on January 31
   * steps to February 28 and then March 28, which no longer match, so from then on
   * no month matches again; through April 2025 only January 31 is produced.
   */
  lemma MonthlyFromThe31st()
    ensures Occurrences(Date(2025, 1, 31), Date(2025, 4, 30), Date(2025, 1, 31), Some(Monthly))
            == [Date(2025, 1, 31)]
  {
    var jan: LocalDate := Date(2025, 1, 31);
    var feb: LocalDate := Date(2025, 2, 28);
    var mar: LocalDate := Date(2025, 3, 28);
    var apr: LocalDate := Date(2025, 4, 28);
    var may: LocalDate := Date(2025, 5, 28);
    var end: LocalDate := Date(2025, 4, 30);
    assert NextOccurrence(jan, Some(Monthly)) == feb;
    assert NextOccurrence(feb, Some(Monthly)) == mar;
    assert NextOccurrence(mar, Some(Monthly)) == apr;
    assert NextOccurrence(apr, Some(Monthly)) == may;
    assert Occurrences(may, end, jan, Some(Monthly)) == [];
    assert Occurrences(apr, end, jan, Some(Monthly)) == [];
    assert Occurrences(mar, end, jan, Some(Monthly)) == [];
    assert Occurrences(feb, end, jan, Some(Monthly)) == [];
  }
}
