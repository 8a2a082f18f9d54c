/** The custom queries of AppointmentSlotRepository, as filters over the appointment_slots rows. */
module SlotQueries {
  import opened Wrappers
  import opened Calendar
  import opened Availability
  import opened Slots
  import opened Filters

  /** `slotStartTime >= startTime AND slotEndTime <= endTime AND status = 'AVAILABLE'`. */
  predicate AvailableWithin(s: AppointmentSlot, startTime: Instant, endTime: Instant)
    reads s
  {
    s.slotStartTime >= startTime && s.slotEndTime <= endTime && s.IsAvailable()
  }

  /** The availabilities the slot rows point to. */
  function Parents(rows: seq<AppointmentSlot>): set<ProviderAvailability>
    reads rows
  {
    set s | s in rows :: s.availability
  }

  /** The WHERE clause of findAvailableSlotsByAvailabilityAndTimeRange. */
  predicate OfAvailabilityWithin(s: AppointmentSlot, availabilityId: Uuid, startTime: Instant, endTime: Instant)
    reads s, s.availability
  {
    s.availability.id == Some(availabilityId) && AvailableWithin(s, startTime, endTime)
  }

  /**
   * findAvailableSlotsByAvailabilityAndTimeRange: the AVAILABLE slots of the
   * availability with that id lying entirely inside [startTime, endTime]; each
   * such row as often as the table holds it, and no other row.
   */
  function FindAvailableSlotsByAvailabilityAndTimeRange(rows: seq<AppointmentSlot>, availabilityId: Uuid,
                                                        startTime: Instant, endTime: Instant)
    : (r: seq<AppointmentSlot>)
    reads rows, Parents(rows)
    ensures forall i :: 0 <= i < |r| ==>
              r[i] in rows && OfAvailabilityWithin(r[i], availabilityId, startTime, endTime)
    ensures forall x | x in rows && OfAvailabilityWithin(x, availabilityId, startTime, endTime) ::
              multiset(r)[x] == multiset(rows)[x]
  {
    if rows == [] then []
    else
      assert Parents(rows[1..]) <= Parents(rows);
      var rest := FindAvailableSlotsByAvailabilityAndTimeRange(rows[1..], availabilityId, startTime, endTime);
      var keep := OfAvailabilityWithin(rows[0], availabilityId, startTime, endTime);
      FilterStep(rows, rest, keep, set x | x in rows && OfAvailabilityWithin(x, availabilityId, startTime, endTime));
      if keep then [rows[0]] + rest else rest
  }

  /** The WHERE clause of findAvailableSlotsByProviderAndTimeRange. */
  predicate OfProviderWithin(s: AppointmentSlot, providerId: Uuid, startTime: Instant, endTime: Instant)
    reads s
  {
    s.providerId == providerId && AvailableWithin(s, startTime, endTime)
  }

  /**
   * findAvailableSlotsByProviderAndTimeRange: the provider's AVAILABLE slots lying
   * entirely inside [startTime, endTime]; each such row as often as the table holds
   * it, and no other row (so no slot sticking out of the range on either side).
   */
  function FindAvailableSlotsByProviderAndTimeRange(rows: seq<AppointmentSlot>, providerId: Uuid,
                                                    startTime: Instant, endTime: Instant)
    : (r: seq<AppointmentSlot>)
    reads rows
    ensures forall i :: 0 <= i < |r| ==>
              r[i] in rows && OfProviderWithin(r[i], providerId, startTime, endTime)
    ensures forall x | x in rows && OfProviderWithin(x, providerId, startTime, endTime) ::
              multiset(r)[x] == multiset(rows)[x]
  {
    if rows == [] then []
    else
      var rest := FindAvailableSlotsByProviderAndTimeRange(rows[1..], providerId, startTime, endTime);
      var keep := OfProviderWithin(rows[0], providerId, startTime, endTime);
      FilterStep(rows, rest, keep, set x | x in rows && OfProviderWithin(x, providerId, startTime, endTime));
      if keep then [rows[0]] + rest else rest
  }

  /** The WHERE clause of findUpcomingBookedSlotsForPatient. */
  predicate UpcomingBooked(s: AppointmentSlot, patientId: Uuid, startTime: Instant)
    reads s
  {
    s.patient == Some(patientId) && s.slotStartTime >= startTime && s.IsBooked()
  }

  /**
   * findUpcomingBookedSlotsForPatient: the patient's BOOKED slots starting at or
   * after startTime; each such row as often as the table holds it, and no other row.
   */
  function FindUpcomingBookedSlotsForPatient(rows: seq<AppointmentSlot>, patientId: Uuid, startTime: Instant)
    : (r: seq<AppointmentSlot>)
    reads rows
    ensures forall i :: 0 <= i < |r| ==>
              r[i] in rows && UpcomingBooked(r[i], patientId, startTime)
    ensures forall x | x in rows && UpcomingBooked(x, patientId, startTime) ::
              multiset(r)[x] == multiset(rows)[x]
  {
    if rows == [] then []
    else
      var rest := FindUpcomingBookedSlotsForPatient(rows[1..], patientId, startTime);
      var keep := UpcomingBooked(rows[0], patientId, startTime);
      FilterStep(rows, rest, keep, set x | x in rows && UpcomingBooked(x, patientId, startTime));
      if keep then [rows[0]] + rest else rest
  }

  /**
   * hasConflictingAppointments: some BOOKED slot of the provider shares an instant
   * with the open interval (startTime, endTime).
   */
  function HasConflictingAppointments(rows: seq<AppointmentSlot>, providerId: Uuid,
                                      startTime: Instant, endTime: Instant): (r: bool)
    reads rows
    ensures r <==> exists i :: 0 <= i < |rows| && rows[i].providerId == providerId && rows[i].IsBooked()
                                && rows[i].slotStartTime < endTime && rows[i].slotEndTime > startTime
  {
    if rows == [] then false
    else
      var s := rows[0];
      assert forall i :: 1 <= i < |rows| ==> rows[i] == rows[1..][i - 1];
      (s.providerId == providerId && s.IsBooked() && s.slotStartTime < endTime && s.slotEndTime > startTime)
      || HasConflictingAppointments(rows[1..], providerId, startTime, endTime)
  }

  /** Booking an open slot of the provider that meets the interval makes it a conflict. */
  method BookingCreatesConflict(rows: seq<AppointmentSlot>, k: nat, patient: Uuid, reference: string,
                                startTime: Instant, endTime: Instant)
    requires k < |rows| && rows[k].IsAvailable() && rows[k].availability.maxAppointmentsPerSlot.Some?
    requires rows[k].slotStartTime < endTime && rows[k].slotEndTime > startTime
    modifies rows[k], rows[k].availability
    ensures HasConflictingAppointments(rows, rows[k].providerId, startTime, endTime)
  {
    var o := rows[k].Book(patient, reference);
  }
}
