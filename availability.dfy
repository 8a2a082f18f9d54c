/**
 * The ProviderAvailability entity: a provider's time window on one date, its
 * recurrence settings, slot timing, and a capacity counter coupled to a status.
 */
module Availability {
  import opened Wrappers
  import opened Calendar

  /** AvailabilityStatus; constants other than the three the core names are kept by name. */
  datatype AvailabilityStatus = Available | Booked | Cancelled | OtherStatus(name: string)

  datatype RecurrencePattern = Daily | Weekly | Monthly

  /** The AppointmentType constant's name (the enum is not part of this model). */
  type AppointmentType = string

  /** AppointmentLocation: the location type's name, the address and the room number. */
  datatype Location = Location(kind: Option<string>, address: Option<string>, roomNumber: Option<string>)

  /** The capacity part of the entity: the number of appointments and the status. */
  datatype Counter = Counter(current: int, status: AvailabilityStatus)

  /** The capacity invariant `0 <= currentAppointments <= maxAppointmentsPerSlot`. */
  predicate WithinCapacity(c: Counter, max: int) {
    0 <= c.current <= max
  }

  /** What incrementAppointmentCount does to the counter. */
  function Incremented(c: Counter, max: int): Counter {
    if c.current < max then
      Counter(c.current + 1, if c.current + 1 >= max then Booked else c.status)
    else c
  }

  /** What decrementAppointmentCount does to the counter. */
  function Decremented(c: Counter, max: int): Counter {
    if c.current > 0 then
      Counter(c.current - 1, if c.status == Booked && c.current - 1 < max then Available else c.status)
    else c
  }

  /** Below capacity, increment adds one and books the window exactly when capacity is reached. */
  lemma IncrementBelowCapacity(c: Counter, max: int)
    requires c.current < max
    ensures Incremented(c, max).current == c.current + 1
    ensures Incremented(c, max).status == (if c.current + 1 == max then Booked else c.status)
  {
  }

  /** At or above capacity, increment changes nothing. */
  lemma IncrementAtCapacity(c: Counter, max: int)
    requires c.current >= max
    ensures Incremented(c, max) == c
  {
  }

  /** Decrement at zero changes nothing; otherwise it subtracts one and un-books a booked window. */
  lemma DecrementEffect(c: Counter, max: int)
    requires WithinCapacity(c, max)
    ensures c.current == 0 ==> Decremented(c, max) == c
    ensures c.current > 0 ==> Decremented(c, max).current == c.current - 1
    ensures c.current > 0 && c.status == Booked ==> Decremented(c, max).status == Available
    ensures c.status != Booked ==> Decremented(c, max).status == c.status
  {
  }

  /** Both operations keep the capacity invariant. */
  lemma CounterKeepsCapacity(c: Counter, max: int)
    requires WithinCapacity(c, max)
    ensures WithinCapacity(Incremented(c, max), max)
    ensures WithinCapacity(Decremented(c, max), max)
  {
  }

  /** Booking one appointment and releasing it restores the count, and an open window's status. */
  lemma IncrementThenDecrement(c: Counter, max: int)
    requires 0 <= c.current < max
    ensures Decremented(Incremented(c, max), max).current == c.current
    ensures c.status == Available ==> Decremented(Incremented(c, max), max) == c
  {
  }

  /** A minute lies in the closed window [start, end]. */
  predicate InWindow(t: int, start: int, end: int) {
    start <= t <= end
  }

  class ProviderAvailability {
    var id: Option<Uuid>
    var providerId: Uuid
    var date: LocalDate
    var startTime: Time
    var endTime: Time
    var timezone: string
    var isRecurring: bool
    var recurrencePattern: Option<RecurrencePattern>
    var recurrenceEndDate: Option<LocalDate>
    var slotDurationMinutes: int
    var breakDurationMinutes: int
    var status: AvailabilityStatus
    var maxAppointmentsPerSlot: Option<int>
    var currentAppointments: int
    var appointmentType: AppointmentType
    var location: Option<Location>
    var notes: Option<string>
    var specialRequirements: Option<seq<string>>

    /**
     * `new ProviderAvailability()` with the entity's field initialisers, followed by
     * the setters for the provider, date, times and time zone.
     */
    constructor (providerId: Uuid, date: LocalDate, startTime: Time, endTime: Time, timezone: string)
      ensures this.id == None && this.providerId == providerId && this.date == date
      ensures this.startTime == startTime && this.endTime == endTime && this.timezone == timezone
      ensures !isRecurring && recurrencePattern == None && recurrenceEndDate == None
      ensures slotDurationMinutes == 30 && breakDurationMinutes == 0
      ensures status == Available && maxAppointmentsPerSlot == Some(1) && currentAppointments == 0
      ensures appointmentType == "CONSULTATION" && location == None && notes == None
      ensures specialRequirements == None
    {
      this.id := None;
      this.providerId := providerId;
      this.date := date;
      this.startTime := startTime;
      this.endTime := endTime;
      this.timezone := timezone;
      isRecurring := false;
      recurrencePattern := None;
      recurrenceEndDate := None;
      slotDurationMinutes := 30;
      breakDurationMinutes := 0;
      status := Available;
      maxAppointmentsPerSlot := Some(1);
      currentAppointments := 0;
      appointmentType := "CONSULTATION";
      location := None;
      notes := None;
      specialRequirements := None;
    }

    /** `new ProviderAvailability()` followed by a ModelMapper copy of every property of `src`. */
    constructor CopyOf(src: ProviderAvailability)
      ensures id == src.id && SameSettings(src)
      ensures startTime == src.startTime && endTime == src.endTime && status == src.status
    {
      id := src.id;
      providerId := src.providerId;
      date := src.date;
      startTime := src.startTime;
      endTime := src.endTime;
      timezone := src.timezone;
      isRecurring := src.isRecurring;
      recurrencePattern := src.recurrencePattern;
      recurrenceEndDate := src.recurrenceEndDate;
      slotDurationMinutes := src.slotDurationMinutes;
      breakDurationMinutes := src.breakDurationMinutes;
      status := src.status;
      maxAppointmentsPerSlot := src.maxAppointmentsPerSlot;
      currentAppointments := src.currentAppointments;
      appointmentType := src.appointmentType;
      location := src.location;
      notes := src.notes;
      specialRequirements := src.specialRequirements;
    }

    /** Every field except the id, the two times and the status agrees with `src`. */
    predicate SameSettings(src: ProviderAvailability)
      reads this, src
    {
      && providerId == src.providerId && date == src.date && timezone == src.timezone
      && isRecurring == src.isRecurring && recurrencePattern == src.recurrencePattern
      && recurrenceEndDate == src.recurrenceEndDate
      && slotDurationMinutes == src.slotDurationMinutes
      && breakDurationMinutes == src.breakDurationMinutes
      && maxAppointmentsPerSlot == src.maxAppointmentsPerSlot
      && currentAppointments == src.currentAppointments
      && appointmentType == src.appointmentType && location == src.location
      && notes == src.notes && specialRequirements == src.specialRequirements
    }

    /**
     * isAvailable: the window is open and, when a capacity is set, incrementing the
     * counter would take one more appointment.
     */
    function IsAvailable(): (r: bool)
      reads this
      ensures maxAppointmentsPerSlot.None? ==> (r <==> status == Available)
      ensures maxAppointmentsPerSlot.Some? ==>
                (r <==> status == Available &&
                        Incremented(CounterState(), maxAppointmentsPerSlot.value).current == currentAppointments + 1)
    {
      status == Available && (maxAppointmentsPerSlot.None? || currentAppointments < maxAppointmentsPerSlot.value)
    }

    /**
     * overlapsWith: the closed windows [startTime, endTime] and [otherStart, otherEnd]
     * share a minute, so windows that only touch at an end point overlap.
     */
    function OverlapsWith(otherStart: Time, otherEnd: Time): (r: bool)
      reads this
      ensures startTime <= endTime && otherStart <= otherEnd ==>
                (r <==> exists t :: InWindow(t, startTime, endTime) && InWindow(t, otherStart, otherEnd))
    {
      var overlap := !(endTime < otherStart || startTime > otherEnd);
      var shared := if startTime <= otherStart then otherStart else startTime;
      assert overlap && startTime <= endTime && otherStart <= otherEnd ==>
               InWindow(shared, startTime, endTime) && InWindow(shared, otherStart, otherEnd);
      overlap
    }

    /** The counter part of this entity. */
    function CounterState(): Counter
      reads this
    {
      Counter(currentAppointments, status)
    }

    /** incrementAppointmentCount; the capacity must be set (unboxing null throws). */
    method IncrementAppointmentCount()
      requires maxAppointmentsPerSlot.Some?
      modifies this`currentAppointments, this`status
      ensures CounterState() == Incremented(old(CounterState()), maxAppointmentsPerSlot.value)
    {
      if currentAppointments < maxAppointmentsPerSlot.value {
        currentAppointments := currentAppointments + 1;
        if currentAppointments >= maxAppointmentsPerSlot.value {
          status := Booked;
        }
      }
    }

    /** decrementAppointmentCount; the capacity must be set (unboxing null throws). */
    method DecrementAppointmentCount()
      requires maxAppointmentsPerSlot.Some?
      modifies this`currentAppointments, this`status
      ensures CounterState() == Decremented(old(CounterState()), maxAppointmentsPerSlot.value)
    {
      if currentAppointments > 0 {
        currentAppointments := currentAppointments - 1;
        if status == Booked && currentAppointments < maxAppointmentsPerSlot.value {
          status := Available;
        }
      }
    }
  }
}
