/**
 * The AppointmentSlot entity: one bookable interval of an availability. Booking
 * and cancelling a slot move the capacity counter of the availability it belongs
 * to, which many slots share.
 */
module Slots {
  import opened Wrappers
  import opened Calendar
  import opened Availability

  class AppointmentSlot {
    var id: Option<Uuid>
    var availability: ProviderAvailability
    var providerId: Uuid
    var slotStartTime: Instant
    var slotEndTime: Instant
    var status: AvailabilityStatus
    var patient: Option<Uuid>
    var appointmentType: AppointmentType
    var bookingReference: Option<string>
    var notes: Option<string>
    var cancellationReason: Option<string>

    /** A new, unsaved slot of `availability`; the status field starts at AVAILABLE. */
    constructor (availability: ProviderAvailability, providerId: Uuid, slotStartTime: Instant,
                 slotEndTime: Instant, appointmentType: AppointmentType)
      ensures this.availability == availability && this.providerId == providerId
      ensures this.slotStartTime == slotStartTime && this.slotEndTime == slotEndTime
      ensures this.appointmentType == appointmentType
      ensures id == None && status == Available && patient == None && bookingReference == None
      ensures notes == None && cancellationReason == None
    {
      id := None;
      this.availability := availability;
      this.providerId := providerId;
      this.slotStartTime := slotStartTime;
      this.slotEndTime := slotEndTime;
      status := Available;
      patient := None;
      this.appointmentType := appointmentType;
      bookingReference := None;
      notes := None;
      cancellationReason := None;
    }

    predicate IsBooked() reads this { status == Booked }

    predicate IsAvailable() reads this { status == Available }

    predicate IsCancelled() reads this { status == Cancelled }

    /**
     * book: only an AVAILABLE slot can be booked; it records the patient and the
     * booking reference, becomes BOOKED, and counts one more appointment on its
     * availability.
     */
    method Book(patient: Uuid, bookingReference: string) returns (o: Outcome)
      requires IsAvailable() ==> availability.maxAppointmentsPerSlot.Some?
      modifies this`patient, this`bookingReference, this`status
      modifies availability`currentAppointments, availability`status
      ensures !old(IsAvailable()) ==> o == Fail(IllegalState) && unchanged(this) && unchanged(availability)
      ensures old(IsAvailable()) ==>
                && o == Pass && IsBooked()
                && this.patient == Some(patient) && this.bookingReference == Some(bookingReference)
                && availability.CounterState()
                   == Incremented(old(availability.CounterState()), availability.maxAppointmentsPerSlot.value)
    {
      if !IsAvailable() {
        return Fail(IllegalState);
      }
      this.patient := Some(patient);
      this.bookingReference := Some(bookingReference);
      status := Booked;
      availability.IncrementAppointmentCount();
      o := Pass;
    }

    /**
     * cancel: a BOOKED slot becomes CANCELLED, keeps the reason and gives its
     * appointment back to the availability; an AVAILABLE slot becomes CANCELLED and
     * keeps the reason; in any other status nothing happens. Afterwards the slot is
     * neither booked nor available, so a second cancel changes nothing.
     */
    method Cancel(reason: Option<string>)
      requires IsBooked() ==> availability.maxAppointmentsPerSlot.Some?
      modifies this`status, this`cancellationReason
      modifies availability`currentAppointments, availability`status
      ensures old(IsBooked()) ==>
                && IsCancelled() && cancellationReason == reason
                && availability.CounterState()
                   == Decremented(old(availability.CounterState()), availability.maxAppointmentsPerSlot.value)
      ensures old(IsAvailable()) ==>
                IsCancelled() && cancellationReason == reason && unchanged(availability)
      ensures !old(IsBooked()) && !old(IsAvailable()) ==> unchanged(this) && unchanged(availability)
      ensures !IsBooked() && !IsAvailable()
    {
      if IsBooked() {
        status := Cancelled;
        cancellationReason := reason;
        availability.DecrementAppointmentCount();
      } else if IsAvailable() {
        status := Cancelled;
        cancellationReason := reason;
      }
    }

    /**
     * setAvailable, as the appointment service uses it: `true` reopens the slot,
     * `false` marks it booked; nothing else about the slot or its availability changes.
     */
    method SetAvailable(available: bool)
      modifies this`status
      ensures IsAvailable() == available
      ensures IsBooked() == !available
    {
      status := if available then Available else Booked;
    }

    /** reschedule: a CANCELLED slot cannot move; any other slot only gets the new times. */
    method Reschedule(newStartTime: Instant, newEndTime: Instant) returns (o: Outcome)
      modifies this`slotStartTime, this`slotEndTime
      ensures old(IsCancelled()) ==> o == Fail(IllegalState) && unchanged(this)
      ensures !old(IsCancelled()) ==> o == Pass && slotStartTime == newStartTime && slotEndTime == newEndTime
    {
      if IsCancelled() {
        return Fail(IllegalState);
      }
      slotStartTime := newStartTime;
      slotEndTime := newEndTime;
      o := Pass;
    }
  }

  /**
   * Two slots of one availability share its counter: once booking the first one
   * fills a capacity of one, the availability the second slot points to is full.
   */
  method SharedCapacity(first: AppointmentSlot, second: AppointmentSlot, patient: Uuid)
    requires first != second && first.availability == second.availability
    requires first.IsAvailable() && first.availability.maxAppointmentsPerSlot == Some(1)
    requires first.availability.currentAppointments == 0 && first.availability.IsAvailable()
    modifies first, first.availability
    ensures second.availability.currentAppointments == 1 && second.availability.status == Booked
    ensures !second.availability.IsAvailable()
  {
    var o := first.Book(patient, "first");
  }
}
