/**
 * SlotSearchRequest and its validateDateRange: a search names one date, or a
 * start and an end date with the start not after the end.
 */
module SlotSearch {
  import opened Wrappers
  import opened Calendar

  /** The dates a search covers, from `start` to `end` inclusive. */
  datatype DateRange = DateRange(start: LocalDate, end: LocalDate)

  /**
   * The range a request with these three date fields searches: a single `date`
   * wins over the other two; without it both bounds must be given, in order.
   * Anything else is an IllegalArgumentException.
   */
  function RangeOf(date: Option<LocalDate>, startDate: Option<LocalDate>, endDate: Option<LocalDate>)
    : (r: Result<DateRange>)
    ensures date.Some? ==> r == Ok(DateRange(date.value, date.value))
    ensures date.None? && (startDate.None? || endDate.None?) ==> r == Err(IllegalArgument)
    ensures date.None? && startDate.Some? && endDate.Some? ==>
              if IsAfter(startDate.value, endDate.value) then r == Err(IllegalArgument)
              else r == Ok(DateRange(startDate.value, endDate.value))
    ensures r.Ok? ==> OnOrBefore(r.value.start, r.value.end)
  {
    if date.None? && (startDate.None? || endDate.None?) then Err(IllegalArgument)
    else if date.Some? then Ok(DateRange(date.value, date.value))
    else if IsAfter(startDate.value, endDate.value) then Err(IllegalArgument)
    else Ok(DateRange(startDate.value, endDate.value))
  }

  /** A start equal to the end is a valid one-day range; a start after it never is. */
  lemma EqualBoundsAccepted(d: LocalDate, e: LocalDate)
    ensures RangeOf(None, Some(d), Some(d)) == Ok(DateRange(d, d))
    ensures IsAfter(d, e) ==> RangeOf(None, Some(d), Some(e)) == Err(IllegalArgument)
  {
  }

  /** Writing an accepted range back into the bounds gives the same range again. */
  lemma RangeIsStable(date: Option<LocalDate>, startDate: Option<LocalDate>, endDate: Option<LocalDate>)
    requires RangeOf(date, startDate, endDate).Ok?
    ensures var rg := RangeOf(date, startDate, endDate).value;
      RangeOf(date, Some(rg.start), Some(rg.end)) == Ok(rg)
  {
  }

  /** SlotSearchRequest; only its three date fields take part in validation. */
  class SlotSearchRequest {
    var date: Option<LocalDate>
    var startDate: Option<LocalDate>
    var endDate: Option<LocalDate>

    constructor (date: Option<LocalDate>, startDate: Option<LocalDate>, endDate: Option<LocalDate>)
      ensures this.date == date && this.startDate == startDate && this.endDate == endDate
    {
      this.date := date;
      this.startDate := startDate;
      this.endDate := endDate;
    }

    /** The request's bounds are set, in order, and agree with its single date if it has one. */
    predicate Settled()
      reads this
    {
      && startDate.Some? && endDate.Some? && OnOrBefore(startDate.value, endDate.value)
      && (date.Some? ==> startDate == date && endDate == date)
    }

    /**
     * validateDateRange: on an IllegalArgumentException nothing changes;
     * otherwise both bounds become those of the range the request searches (a
     * given date overwrites them, even if they were set) and the request is
     * settled. A settled request passes again and is left as it is.
     */
    method ValidateDateRange() returns (o: Outcome)
      modifies this`startDate, this`endDate
      ensures var rg := old(RangeOf(date, startDate, endDate));
        && (rg.Err? ==> o == Fail(rg.error) && unchanged(this))
        && (rg.Ok? ==> o == Pass && startDate == Some(rg.value.start) && endDate == Some(rg.value.end))
      ensures date == old(date)
      ensures o == Pass ==> Settled()
      ensures old(Settled()) ==> o == Pass && unchanged(this)
    {
      if date.None? && (startDate.None? || endDate.None?) {
        return Fail(IllegalArgument);
      }
      if date.Some? {
        startDate := date;
        endDate := date;
      } else if IsAfter(startDate.value, endDate.value) {
        return Fail(IllegalArgument);
      }
      o := Pass;
    }
  }
}
