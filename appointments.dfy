/**
 * The Appointment entity and the appointment service's lifecycle operations:
 * booking a slot, cancelling, rescheduling, check-in, start, completion, the
 * reminder guard and the generic status update.
 *
 * Each service operation receives the appointment its repository lookup found;
 * the lookup itself, and its ResourceNotFoundException, is FindAppointment. A slot
 * lookup arrives as a nullable slot, null when nothing was found, and so does the
 * appointment in updateAppointmentStatus, which parses its status argument before
 * the lookup. Booking saves the new appointment in an AppointmentRepository.
 * The notifications the service sends and the DTO mapping are not modelled.
 */
module Appointments {
  import opened Wrappers
  import opened Calendar
  import opened Text
  import Av = Availability
  import Sl = Slots

  datatype AppointmentStatus =
    | Requested | Confirmed | Booked | Rescheduled | Cancelled
    | CheckedIn | InProgress | Completed | NoShow

  /** The enum constant's name. */
  function StatusName(s: AppointmentStatus): string {
    match s
    case Requested => "REQUESTED"
    case Confirmed => "CONFIRMED"
    case Booked => "BOOKED"
    case Rescheduled => "RESCHEDULED"
    case Cancelled => "CANCELLED"
    case CheckedIn => "CHECKED_IN"
    case InProgress => "IN_PROGRESS"
    case Completed => "COMPLETED"
    case NoShow => "NO_SHOW"
  }

  /** AppointmentStatus.valueOf: the constant with exactly this name, or IllegalArgumentException. */
  function ValueOf(name: string): (r: Result<AppointmentStatus>)
    ensures r.Ok? ==> StatusName(r.value) == name
    ensures r.Err? ==> r.error == IllegalArgument && forall s :: StatusName(s) != name
  {
    if name == "REQUESTED" then Ok(Requested)
    else if name == "CONFIRMED" then Ok(Confirmed)
    else if name == "BOOKED" then Ok(Booked)
    else if name == "RESCHEDULED" then Ok(Rescheduled)
    else if name == "CANCELLED" then Ok(Cancelled)
    else if name == "CHECKED_IN" then Ok(CheckedIn)
    else if name == "IN_PROGRESS" then Ok(InProgress)
    else if name == "COMPLETED" then Ok(Completed)
    else if name == "NO_SHOW" then Ok(NoShow)
    else Err(IllegalArgument)
  }

  /** The status names are distinct, so every constant's name gives back that constant. */
  lemma ValueOfName(s: AppointmentStatus)
    ensures ValueOf(StatusName(s)) == Ok(s)
  {
  }

  /** No status name has a lower-case letter. */
  lemma StatusNameUpper(s: AppointmentStatus)
    ensures forall i :: 0 <= i < |StatusName(s)| ==> !IsLower(StatusName(s)[i])
  {
  }

  /** `AppointmentStatus.valueOf(name.toUpperCase())`, as updateAppointmentStatus parses its argument. */
  function ParseStatus(name: string): (r: Result<AppointmentStatus>)
    ensures r.Ok? ==> StatusName(r.value) == ToUpper(name)
    ensures r.Err? ==> r.error == IllegalArgument && forall s :: StatusName(s) != ToUpper(name)
  {
    ValueOf(ToUpper(name))
  }

  /** Every constant's own name parses back to that constant, whatever the case. */
  lemma ParseStatusName(s: AppointmentStatus)
    ensures ParseStatus(StatusName(s)) == Ok(s)
  {
    StatusNameUpper(s);
    ToUpperKeepsUpper(StatusName(s));
    ValueOfName(s);
  }

  // ------------------------------------------------------------ the lifecycle

  /** The service operations that look at or move an appointment's status. */
  datatype Operation = CheckIn | Start | Complete | Cancel | Reschedule | Remind

  /**
   * What an operation does to the status: the status afterwards, or None when the
   * operation throws IllegalStateException because of the status.
   */
  function Step(op: Operation, s: AppointmentStatus): Option<AppointmentStatus> {
    match op
    case CheckIn => if s == Booked || s == Confirmed then Some(CheckedIn) else None
    case Start => if s == CheckedIn then Some(InProgress) else None
    case Complete => if s == InProgress then Some(Completed) else None
    case Cancel => if s == Cancelled then None else Some(Cancelled)
    case Reschedule => Some(s)
    case Remind => if s == Booked || s == Confirmed then Some(s) else None
  }

  /** A sequence of operations applied in turn; None as soon as one of them throws. */
  function Run(ops: seq<Operation>, s: AppointmentStatus): Option<AppointmentStatus>
    decreases |ops|
  {
    if ops == [] then Some(s)
    else match Step(ops[0], s)
      case None => None
      case Some(t) => Run(ops[1..], t)
  }

  /**
   * CANCELLED is final: from it every operation either throws or (reschedule)
   * leaves the status as it is.
   */
  lemma {:induction false} CancelledIsFinal(ops: seq<Operation>)
    ensures Run(ops, Cancelled) == None || Run(ops, Cancelled) == Some(Cancelled)
    decreases |ops|
  {
    if ops != [] {
      CancelledIsFinal(ops[1..]);
    }
  }

  /**
   * Reaching COMPLETED takes a completion; from before IN_PROGRESS it also takes a
   * start, and from before CHECKED_IN also a check-in.
   */
  lemma {:induction false} CompletionPath(ops: seq<Operation>, s: AppointmentStatus)
    requires Run(ops, s) == Some(Completed)
    ensures s != Completed ==> Complete in ops
    ensures s != Completed && s != InProgress ==> Start in ops
    ensures s != Completed && s != InProgress && s != CheckedIn ==> CheckIn in ops
    decreases |ops|
  {
    if ops != [] {
      var t := Step(ops[0], s).value;
      CompletionPath(ops[1..], t);
      assert ops == [ops[0]] + ops[1..];
    }
  }

  // ------------------------------------------------------------ the entity

  class Appointment {
    var id: Option<Uuid>
    var bookingReference: string
    var patientId: Uuid
    var providerId: Uuid
    var appointmentType: string
    var startTime: Instant
    var endTime: Instant
    var status: AppointmentStatus
    var reason: Option<string>
    var cancellationReason: Option<string>
    var notes: Option<string>
    var symptoms: Option<seq<string>>
    var checkedInTime: Option<Instant>
    var startedTime: Option<Instant>
    var completedTime: Option<Instant>
    var cancelledTime: Option<Instant>
    var updatedAt: Option<Instant>
    var rescheduleReason: Option<string>
    var appointmentSlot: Sl.AppointmentSlot?

    /** `new Appointment()` followed by the setters bookAppointment calls. */
    constructor (bookingReference: string, patientId: Uuid, providerId: Uuid, appointmentType: string,
                 startTime: Instant, endTime: Instant, status: AppointmentStatus,
                 reason: Option<string>, notes: Option<string>, symptoms: Option<seq<string>>)
      ensures this.bookingReference == bookingReference
      ensures this.patientId == patientId && this.providerId == providerId
      ensures this.appointmentType == appointmentType
      ensures this.startTime == startTime && this.endTime == endTime && this.status == status
      ensures this.reason == reason && this.notes == notes && this.symptoms == symptoms
      ensures id == None && cancellationReason == None && rescheduleReason == None
      ensures checkedInTime == None && startedTime == None && completedTime == None
      ensures cancelledTime == None && updatedAt == None && appointmentSlot == null
    {
      id := None;
      this.bookingReference := bookingReference;
      this.patientId := patientId;
      this.providerId := providerId;
      this.appointmentType := appointmentType;
      this.startTime := startTime;
      this.endTime := endTime;
      this.status := status;
      this.reason := reason;
      cancellationReason := None;
      this.notes := notes;
      this.symptoms := symptoms;
      checkedInTime := None;
      startedTime := None;
      completedTime := None;
      cancelledTime := None;
      updatedAt := None;
      rescheduleReason := None;
      appointmentSlot := null;
    }
  }

  /** appointmentRepository.findById(id).orElseThrow(ResourceNotFoundException). */
  function FindAppointment(rows: seq<Appointment>, id: Uuid): (r: Result<Appointment>)
    reads rows
    ensures r.Ok? ==> r.value in rows && r.value.id == Some(id)
    ensures r.Err? ==> r.error == ResourceNotFound && forall i :: 0 <= i < |rows| ==> rows[i].id != Some(id)
  {
    if rows == [] then Err(ResourceNotFound)
    else if rows[0].id == Some(id) then Ok(rows[0])
    else FindAppointment(rows[1..], id)
  }

  /** The appointment table: the saved rows and the next generated id. */
  class AppointmentRepository {
    var rows: seq<Appointment>
    var nextId: Uuid

    /** Every saved row has an id, below the next one to be generated. */
    ghost predicate Valid()
      reads this, rows
    {
      forall i :: 0 <= i < |rows| ==> rows[i].id.Some? && rows[i].id.value < nextId
    }

    constructor ()
      ensures rows == [] && nextId == 0 && Valid()
    {
      rows := [];
      nextId := 0;
    }

    /**
     * save of a new appointment: it gets the next id and is appended, no saved row
     * changes, and findById now finds it under that id.
     */
    method Save(a: Appointment)
      requires Valid() && a.id.None?
      modifies this, a`id
      ensures Valid()
      ensures rows == old(rows) + [a]
      ensures a.id == Some(old(nextId)) && nextId == old(nextId) + 1
      ensures FindAppointment(rows, a.id.value) == Ok(a)
    {
      assert forall i :: 0 <= i < |rows| ==> rows[i] != a;
      a.id := Some(nextId);
      rows := rows + [a];
      nextId := nextId + 1;
      assert rows[|rows| - 1].id == Some(nextId - 1);
    }
  }

  // ------------------------------------------------------------ the service

  /** The parts of AppointmentBookingRequest the booking copies onto the appointment. */
  datatype BookingRequest = BookingRequest(
    appointmentType: string,
    reason: Option<string>,
    notes: Option<string>,
    symptoms: Option<seq<string>>)

  /**
   * generateBookingReference: "APT", the clock in milliseconds, "-", and the first
   * eight characters of a random UUID's text, upper-cased.
   */
  function BookingReference(millis: nat, uuidText: string): (r: string)
    requires |uuidText| >= 8
    ensures StartsWith(r, "APT")
    ensures |r| == 3 + |NatToString(millis)| + 9
    ensures r[3..|r| - 9] == NatToString(millis) && r[|r| - 9] == '-'
    ensures forall i :: |r| - 8 <= i < |r| ==> !IsLower(r[i])
  {
    "APT" + NatToString(millis) + "-" + ToUpper(uuidText[..8])
  }

  /** The reference carries the clock reading it was made from. */
  lemma BookingReferenceTime(millis: nat, uuidText: string)
    requires |uuidText| >= 8
    ensures var r := BookingReference(millis, uuidText); DigitsValue(r[3..|r| - 9]) == millis
  {
    NatToStringRoundTrip(millis);
  }

  /** The slot appointmentSlotRepository.findById found, as a frame: none when it found nothing. */
  function Found(slot: Sl.AppointmentSlot?): set<Sl.AppointmentSlot> {
    if slot == null then {} else {slot}
  }

  /** The availability of the slot found, as a frame. */
  function FoundAvailability(slot: Sl.AppointmentSlot?): set<Av.ProviderAvailability>
    reads Found(slot)
  {
    if slot == null then {} else {slot.availability}
  }

  /**
   * bookAppointment: a slot the lookup did not find throws ResourceNotFoundException;
   * an unavailable slot throws IllegalStateException; an unknown patient or provider
   * throws ResourceNotFoundException; otherwise a new BOOKED appointment takes the
   * slot's times and the request's details, the slot is booked for the patient
   * under the same reference, and the appointment is saved. The appointment is not
   * linked to the slot.
   */
  method BookAppointment(slot: Sl.AppointmentSlot?, patient: Option<Uuid>, provider: Option<Uuid>,
                         request: BookingRequest, reference: string, repository: AppointmentRepository)
    returns (r: Result<Appointment>)
    requires repository.Valid()
    requires slot != null && slot.IsAvailable() ==> slot.availability.maxAppointmentsPerSlot.Some?
    modifies Found(slot)`patient, Found(slot)`bookingReference, Found(slot)`status
    modifies FoundAvailability(slot)`currentAppointments, FoundAvailability(slot)`status
    modifies repository
    ensures repository.Valid()
    ensures slot == null ==> r == Err(ResourceNotFound)
    ensures slot != null && !old(slot.IsAvailable()) ==> r == Err(IllegalState)
    ensures slot != null && old(slot.IsAvailable()) && patient.None? ==> r == Err(ResourceNotFound)
    ensures slot != null && old(slot.IsAvailable()) && patient.Some? && provider.None? ==> r == Err(ResourceNotFound)
    ensures r.Err? ==> unchanged(Found(slot)) && unchanged(FoundAvailability(slot)) && unchanged(repository)
    ensures r.Ok? <==> slot != null && old(slot.IsAvailable()) && patient.Some? && provider.Some?
    ensures r.Ok? ==>
              && slot != null && fresh(r.value)
              && r.value.status == Booked && r.value.bookingReference == reference
              && r.value.startTime == slot.slotStartTime && r.value.endTime == slot.slotEndTime
              && r.value.patientId == patient.value && r.value.providerId == provider.value
              && r.value.appointmentType == request.appointmentType && r.value.reason == request.reason
              && r.value.notes == request.notes && r.value.symptoms == request.symptoms
              && r.value.appointmentSlot == null
              && slot.IsBooked() && slot.patient == patient && slot.bookingReference == Some(reference)
              && slot.availability.CounterState()
                 == Av.Incremented(old(slot.availability.CounterState()),
                                   slot.availability.maxAppointmentsPerSlot.value)
    ensures r.Ok? ==>
              && r.value.id == Some(old(repository.nextId))
              && repository.rows == old(repository.rows) + [r.value]
              && repository.nextId == old(repository.nextId) + 1
              && FindAppointment(repository.rows, old(repository.nextId)) == Ok(r.value)
  {
    if slot == null {
      return Err(ResourceNotFound);
    }
    if !slot.IsAvailable() {
      return Err(IllegalState);
    }
    if patient.None? || provider.None? {
      return Err(ResourceNotFound);
    }
    var appointment := new Appointment(reference, patient.value, provider.value, request.appointmentType,
                                       slot.slotStartTime, slot.slotEndTime, Booked,
                                       request.reason, request.notes, request.symptoms);
    var booked := slot.Book(patient.value, reference);
    repository.Save(appointment);
    r := Ok(appointment);
  }

  /** bookAppointment as evidently intended: the new appointment is linked to the slot it booked. */
  method BookAppointmentLinked(slot: Sl.AppointmentSlot?, patient: Option<Uuid>, provider: Option<Uuid>,
                               request: BookingRequest, reference: string, repository: AppointmentRepository)
    returns (r: Result<Appointment>)
    requires repository.Valid()
    requires slot != null && slot.IsAvailable() ==> slot.availability.maxAppointmentsPerSlot.Some?
    modifies Found(slot)`patient, Found(slot)`bookingReference, Found(slot)`status
    modifies FoundAvailability(slot)`currentAppointments, FoundAvailability(slot)`status
    modifies repository
    ensures repository.Valid()
    ensures slot == null ==> r == Err(ResourceNotFound)
    ensures r.Err? ==> unchanged(Found(slot)) && unchanged(FoundAvailability(slot)) && unchanged(repository)
    ensures r.Ok? <==> slot != null && old(slot.IsAvailable()) && patient.Some? && provider.Some?
    ensures r.Ok? ==>
              && fresh(r.value) && r.value.status == Booked && r.value.appointmentSlot == slot
              && r.value.startTime == slot.slotStartTime && r.value.endTime == slot.slotEndTime
              && slot.IsBooked() && slot.bookingReference == Some(reference)
              && repository.rows == old(repository.rows) + [r.value]
              && FindAppointment(repository.rows, old(repository.nextId)) == Ok(r.value)
  {
    r := BookAppointment(slot, patient, provider, request, reference, repository);
    if r.Ok? {
      r.value.appointmentSlot := slot;
    }
  }

  /** The slot an appointment is linked to, as a frame. */
  function SlotFrame(a: Appointment): set<Sl.AppointmentSlot>
    reads a
  {
    if a.appointmentSlot == null then {} else {a.appointmentSlot}
  }

  /**
   * cancelAppointment: an already CANCELLED appointment throws; otherwise it becomes
   * CANCELLED with the reason and the time, and a linked slot is reopened (its
   * availability's counter is not touched).
   */
  method CancelAppointment(a: Appointment, reason: Option<string>, now: Instant) returns (r: Result<Appointment>)
    modifies a`status, a`cancellationReason, a`cancelledTime, SlotFrame(a)`status
    ensures old(a.status) == Cancelled ==> r == Err(IllegalState) && unchanged(a) && unchanged(SlotFrame(a))
    ensures old(a.status) != Cancelled ==>
              && r == Ok(a) && Some(a.status) == Step(Cancel, old(a.status)) && a.status == Cancelled
              && a.cancellationReason == reason && a.cancelledTime == Some(now)
              && (a.appointmentSlot != null ==> a.appointmentSlot.IsAvailable())
  {
    if a.status == Cancelled {
      return Err(IllegalState);
    }
    a.status := Cancelled;
    a.cancellationReason := reason;
    a.cancelledTime := Some(now);
    if a.appointmentSlot != null {
      a.appointmentSlot.SetAvailable(true);
    }
    r := Ok(a);
  }

  /**
   * rescheduleAppointment, once the appointment is found: a new slot the lookup did
   * not find throws ResourceNotFoundException, an unavailable one
   * IllegalStateException; otherwise the old slot (if any) is reopened, the
   * appointment moves to the new slot's times with the reason and the time, keeps
   * its status, and the new slot is marked booked. Only the two slots' statuses
   * change. The appointment's status is not checked.
   */
  method RescheduleAppointment(a: Appointment, newSlot: Sl.AppointmentSlot?, reason: Option<string>, now: Instant)
    returns (r: Result<Appointment>)
    modifies a`appointmentSlot, a`startTime, a`endTime, a`rescheduleReason, a`updatedAt
    modifies Found(newSlot)`status, SlotFrame(a)`status
    ensures newSlot == null ==> r == Err(ResourceNotFound) && unchanged(a) && unchanged(SlotFrame(a))
    ensures newSlot != null && !old(newSlot.IsAvailable()) ==>
              r == Err(IllegalState) && unchanged(a) && unchanged(newSlot) && unchanged(SlotFrame(a))
    ensures newSlot != null && old(newSlot.IsAvailable()) ==>
              && r == Ok(a) && Some(a.status) == Step(Reschedule, old(a.status))
              && a.appointmentSlot == newSlot && newSlot.IsBooked()
              && a.startTime == newSlot.slotStartTime && a.endTime == newSlot.slotEndTime
              && a.rescheduleReason == reason && a.updatedAt == Some(now)
              && (old(a.appointmentSlot) != null && old(a.appointmentSlot) != newSlot ==>
                    old(a.appointmentSlot).IsAvailable())
  {
    if newSlot == null {
      return Err(ResourceNotFound);
    }
    if !newSlot.IsAvailable() {
      return Err(IllegalState);
    }
    var oldSlot := a.appointmentSlot;
    if oldSlot != null {
      oldSlot.SetAvailable(true);
    }
    a.appointmentSlot := newSlot;
    a.startTime := newSlot.slotStartTime;
    a.endTime := newSlot.slotEndTime;
    a.rescheduleReason := reason;
    a.updatedAt := Some(now);
    newSlot.SetAvailable(false);
    r := Ok(a);
  }

  /** checkIn: only a BOOKED or CONFIRMED appointment checks in, and records the time. */
  method CheckInAppointment(a: Appointment, now: Instant) returns (r: Result<Appointment>)
    modifies a`status, a`checkedInTime
    ensures r.Ok? <==> old(a.status) == Booked || old(a.status) == Confirmed
    ensures r.Err? ==> r.error == IllegalState && unchanged(a)
    ensures r.Ok? ==> r.value == a && a.status == CheckedIn && a.checkedInTime == Some(now)
    ensures Step(CheckIn, old(a.status)) == (if r.Ok? then Some(a.status) else None)
  {
    if a.status != Booked && a.status != Confirmed {
      return Err(IllegalState);
    }
    a.checkedInTime := Some(now);
    a.status := CheckedIn;
    r := Ok(a);
  }

  /** startAppointment: only a CHECKED_IN appointment starts, and records the time. */
  method StartAppointment(a: Appointment, now: Instant) returns (r: Result<Appointment>)
    modifies a`status, a`startedTime
    ensures r.Ok? <==> old(a.status) == CheckedIn
    ensures r.Err? ==> r.error == IllegalState && unchanged(a)
    ensures r.Ok? ==> r.value == a && a.status == InProgress && a.startedTime == Some(now)
    ensures Step(Start, old(a.status)) == (if r.Ok? then Some(a.status) else None)
  {
    if a.status != CheckedIn {
      return Err(IllegalState);
    }
    a.startedTime := Some(now);
    a.status := InProgress;
    r := Ok(a);
  }

  /**
   * completeAppointment: only an IN_PROGRESS appointment completes, and records the
   * time; the notes are replaced only when new notes are given.
   */
  method CompleteAppointment(a: Appointment, notes: Option<string>, now: Instant) returns (r: Result<Appointment>)
    modifies a`status, a`completedTime, a`notes
    ensures r.Ok? <==> old(a.status) == InProgress
    ensures r.Err? ==> r.error == IllegalState && unchanged(a)
    ensures r.Ok? ==> r.value == a && a.status == Completed && a.completedTime == Some(now)
    ensures r.Ok? ==> a.notes == (if notes.Some? then notes else old(a.notes))
    ensures Step(Complete, old(a.status)) == (if r.Ok? then Some(a.status) else None)
  {
    if a.status != InProgress {
      return Err(IllegalState);
    }
    a.completedTime := Some(now);
    a.status := Completed;
    if notes.Some? {
      a.notes := notes;
    }
    r := Ok(a);
  }

  /** sendAppointmentReminder: a reminder goes out only for a BOOKED or CONFIRMED appointment. */
  method SendAppointmentReminder(a: Appointment) returns (o: Outcome)
    ensures o == Pass <==> a.status == Booked || a.status == Confirmed
    ensures o.Fail? ==> o.error == IllegalState
    ensures Step(Remind, a.status) == (if o == Pass then Some(a.status) else None)
  {
    if a.status != Booked && a.status != Confirmed {
      return Fail(IllegalState);
    }
    o := Pass;
  }

  /** The appointment appointmentRepository.findById found, as a frame: none when it found nothing. */
  function FoundAppointment(found: Appointment?): set<Appointment> {
    if found == null then {} else {found}
  }

  /**
   * updateAppointmentStatus: the status name is parsed before the appointment is
   * looked up, so an unknown status name throws IllegalArgumentException even for
   * an unknown id; then an appointment the lookup did not find throws
   * ResourceNotFoundException; a transition `isValidTransition` rejects throws
   * IllegalStateException; otherwise the status is set, with the check-in, start or
   * completion time for those statuses. The notes argument is not used.
   */
  method UpdateAppointmentStatus(found: Appointment?, statusName: string,
                                 isValidTransition: (AppointmentStatus, AppointmentStatus) -> bool,
                                 now: Instant)
    returns (r: Result<Appointment>)
    modifies FoundAppointment(found)`status, FoundAppointment(found)`checkedInTime
    modifies FoundAppointment(found)`startedTime, FoundAppointment(found)`completedTime
    ensures ParseStatus(statusName).Err? ==> r == Err(IllegalArgument)
    ensures ParseStatus(statusName).Ok? && found == null ==> r == Err(ResourceNotFound)
    ensures r.Err? ==> unchanged(FoundAppointment(found))
    ensures ParseStatus(statusName).Ok? && found != null
            && !isValidTransition(old(found.status), ParseStatus(statusName).value) ==>
              r == Err(IllegalState)
    ensures ParseStatus(statusName).Ok? && found != null
            && isValidTransition(old(found.status), ParseStatus(statusName).value) ==>
              r.Ok? && found.status == ParseStatus(statusName).value
    ensures r.Ok? ==>
              && found != null && ParseStatus(statusName).Ok? && isValidTransition(old(found.status), found.status)
              && r.value == found && StatusName(found.status) == ToUpper(statusName)
              && found.checkedInTime == (if found.status == CheckedIn then Some(now) else old(found.checkedInTime))
              && found.startedTime == (if found.status == InProgress then Some(now) else old(found.startedTime))
              && found.completedTime == (if found.status == Completed then Some(now) else old(found.completedTime))
  {
    var parsed := ParseStatus(statusName);
    if parsed.Err? {
      return Err(IllegalArgument);
    }
    if found == null {
      return Err(ResourceNotFound);
    }
    var newStatus := parsed.value;
    if !isValidTransition(found.status, newStatus) {
      return Err(IllegalState);
    }
    found.status := newStatus;
    match newStatus {
      case CheckedIn => found.checkedInTime := Some(now);
      case InProgress => found.startedTime := Some(now);
      case Completed => found.completedTime := Some(now);
      case _ =>
    }
    r := Ok(found);
  }

  /**
   * As written, bookAppointment never links the appointment to its slot, so
   * cancelling the appointment leaves the slot booked.
   */
  method BookThenCancelKeepsSlotBooked(slot: Sl.AppointmentSlot, patient: Uuid, provider: Uuid,
                                       request: BookingRequest, reference: string, now: Instant,
                                       repository: AppointmentRepository)
    requires slot.IsAvailable() && slot.availability.maxAppointmentsPerSlot.Some? && repository.Valid()
    modifies slot, slot.availability, repository
    ensures slot.IsBooked()
  {
    var r := BookAppointment(slot, Some(patient), Some(provider), request, reference, repository);
    var cancelled := CancelAppointment(r.value, None, now);
  }

  /** With the link bookAppointment evidently intends, cancelling reopens the slot. */
  method BookThenCancelReopensSlot(slot: Sl.AppointmentSlot, patient: Uuid, provider: Uuid,
                                   request: BookingRequest, reference: string, now: Instant,
                                   repository: AppointmentRepository)
    requires slot.IsAvailable() && slot.availability.maxAppointmentsPerSlot.Some? && repository.Valid()
    modifies slot, slot.availability, repository
    ensures slot.IsAvailable()
  {
    var r := BookAppointmentLinked(slot, Some(patient), Some(provider), request, reference, repository);
    var cancelled := CancelAppointment(r.value, None, now);
  }
}
