/**
 * The custom queries of ProviderAvailabilityRepository, as filters over the rows
 * of the provider_availability table. SQL comparisons with NULL are false.
 */
module AvailabilityQueries {
  import opened Wrappers
  import opened Calendar
  import opened Availability
  import opened Filters

  /**
   * The WHERE clause of findOverlappingSlots: the provider's row on that date whose
   * closed window meets [startTime, endTime], or which has a recurrence pattern and
   * a recurrence end date on or after the date.
   */
  predicate OverlapMatch(a: ProviderAvailability, providerId: Uuid, date: LocalDate, startTime: Time, endTime: Time)
    reads a
  {
    && a.providerId == providerId && a.date == date
    && ((a.startTime <= endTime && a.endTime >= startTime)
        || (a.recurrencePattern.Some? && a.recurrenceEndDate.Some? && OnOrBefore(date, a.recurrenceEndDate.value)))
  }

  /**
   * findOverlappingSlots: only matching rows, and each matching row as often as
   * the table holds it.
   */
  function FindOverlappingSlots(rows: seq<ProviderAvailability>, providerId: Uuid, date: LocalDate,
                                startTime: Time, endTime: Time): (r: seq<ProviderAvailability>)
    reads rows
    ensures forall i :: 0 <= i < |r| ==> r[i] in rows && OverlapMatch(r[i], providerId, date, startTime, endTime)
    ensures forall x | x in rows && OverlapMatch(x, providerId, date, startTime, endTime) ::
              multiset(r)[x] == multiset(rows)[x]
    ensures |r| <= |rows|
  {
    if rows == [] then []
    else
      var rest := FindOverlappingSlots(rows[1..], providerId, date, startTime, endTime);
      var keep := OverlapMatch(rows[0], providerId, date, startTime, endTime);
      FilterStep(rows, rest, keep, set x | x in rows && OverlapMatch(x, providerId, date, startTime, endTime));
      if keep then [rows[0]] + rest else rest
  }

  /**
   * A window that starts exactly when an existing one ends is reported, and so is a
   * recurring row on that date, whatever its times.
   */
  lemma OverlapQueryInclusive(rows: seq<ProviderAvailability>, a: ProviderAvailability, startTime: Time, endTime: Time)
    requires a in rows && a.startTime <= a.endTime && startTime <= endTime
    requires startTime == a.endTime || (a.recurrencePattern.Some? && a.recurrenceEndDate.Some?
                                        && OnOrBefore(a.date, a.recurrenceEndDate.value))
    ensures a in FindOverlappingSlots(rows, a.providerId, a.date, startTime, endTime)
  {
    var i :| 0 <= i < |rows| && rows[i] == a;
    assert a in multiset(rows);
  }

  /** The status and capacity part shared by the two range queries. */
  predicate OpenWithCapacity(a: ProviderAvailability)
    reads a
  {
    a.status == Available
    && (a.maxAppointmentsPerSlot.None? || a.maxAppointmentsPerSlot.value > a.currentAppointments)
  }

  /** `date BETWEEN startDate AND endDate`, both bounds included. */
  predicate InDateRange(date: LocalDate, startDate: LocalDate, endDate: LocalDate) {
    OnOrBefore(startDate, date) && OnOrBefore(date, endDate)
  }

  /** The WHERE clause of findAvailableSlotsInRange. */
  predicate AvailableInRange(a: ProviderAvailability, providerId: Uuid, startDate: LocalDate, endDate: LocalDate)
    reads a
  {
    a.providerId == providerId && InDateRange(a.date, startDate, endDate) && OpenWithCapacity(a)
  }

  /**
   * findAvailableSlotsInRange: the provider's open rows with room left, dated within
   * the range; each such row as often as the table holds it, and no other row.
   */
  function FindAvailableSlotsInRange(rows: seq<ProviderAvailability>, providerId: Uuid,
                                     startDate: LocalDate, endDate: LocalDate): (r: seq<ProviderAvailability>)
    reads rows
    ensures forall i :: 0 <= i < |r| ==> r[i] in rows && AvailableInRange(r[i], providerId, startDate, endDate)
    ensures forall x | x in rows && AvailableInRange(x, providerId, startDate, endDate) ::
              multiset(r)[x] == multiset(rows)[x]
    ensures forall i :: 0 <= i < |r| ==> r[i].IsAvailable()
  {
    if rows == [] then []
    else
      var rest := FindAvailableSlotsInRange(rows[1..], providerId, startDate, endDate);
      var keep := AvailableInRange(rows[0], providerId, startDate, endDate);
      FilterStep(rows, rest, keep, set x | x in rows && AvailableInRange(x, providerId, startDate, endDate));
      if keep then [rows[0]] + rest else rest
  }

  /**
   * findProvidersWithAvailabilityInRange (SELECT DISTINCT): each provider owning an
   * open row with room left in the range, once.
   */
  function FindProvidersWithAvailabilityInRange(rows: seq<ProviderAvailability>,
                                                startDate: LocalDate, endDate: LocalDate): (r: seq<Uuid>)
    reads rows
    ensures forall p :: p in r <==>
              exists i :: 0 <= i < |rows| && rows[i].providerId == p
                          && InDateRange(rows[i].date, startDate, endDate) && OpenWithCapacity(rows[i])
    ensures forall i, j :: 0 <= i < j < |r| ==> r[i] != r[j]
  {
    if rows == [] then []
    else
      var rest := FindProvidersWithAvailabilityInRange(rows[1..], startDate, endDate);
      var a := rows[0];
      assert forall i :: 1 <= i < |rows| ==> rows[i] == rows[1..][i - 1];
      if InDateRange(a.date, startDate, endDate) && OpenWithCapacity(a) && a.providerId !in rest
      then [a.providerId] + rest else rest
  }

  /** The distinct providers are exactly the providers of the available rows, each counted once. */
  lemma ProvidersOfAvailableRows(rows: seq<ProviderAvailability>, startDate: LocalDate, endDate: LocalDate,
                                 providerId: Uuid)
    ensures providerId in FindProvidersWithAvailabilityInRange(rows, startDate, endDate)
            <==> FindAvailableSlotsInRange(rows, providerId, startDate, endDate) != []
  {
    var avail := FindAvailableSlotsInRange(rows, providerId, startDate, endDate);
    if avail != [] {
      assert avail[0] in avail;
      var i :| 0 <= i < |rows| && rows[i] == avail[0];
    }
    if providerId in FindProvidersWithAvailabilityInRange(rows, startDate, endDate) {
      var i :| 0 <= i < |rows| && rows[i].providerId == providerId
               && InDateRange(rows[i].date, startDate, endDate) && OpenWithCapacity(rows[i]);
      assert rows[i] in multiset(rows);
      assert rows[i] in avail;
    }
  }
}
