/**
 * ProviderAvailabilityServiceImpl: creating, updating and deleting availability
 * windows, expanding recurring requests, and cutting windows into slots. The
 * provider_availability table is a sequence of entities; the generated slots are
 * saved into the same table, as in the source.
 */
module AvailabilityService {
  import opened Wrappers
  import opened Calendar
  import opened Text
  import opened Availability
  import opened AvailabilityQueries
  import opened SlotGeneration
  import opened Recurrence

  /** AvailabilityRequest.LocationDto. */
  datatype LocationRequest = LocationRequest(kind: Option<string>, address: Option<string>, roomNumber: Option<string>)

  /** AvailabilityRequest; pricing is not part of this model. */
  datatype AvailabilityRequest = AvailabilityRequest(
    providerId: Uuid,
    date: Option<LocalDate>,
    startTime: Option<Time>,
    endTime: Option<Time>,
    timezone: Option<string>,
    isRecurring: bool,
    recurrencePattern: Option<RecurrencePattern>,
    recurrenceEndDate: Option<LocalDate>,
    slotDurationMinutes: int,
    breakDurationMinutes: int,
    appointmentType: Option<AppointmentType>,
    location: Option<LocationRequest>,
    specialRequirements: Option<seq<string>>,
    notes: Option<string>)

  /**
   * The bean-validation constraints the controller enforces before either service
   * operation runs: date, times, time zone and type present, slot length 5..240
   * minutes, break 0..60 minutes, a location type whenever a location is given.
   */
  predicate ValidRequest(r: AvailabilityRequest) {
    && r.date.Some? && r.startTime.Some? && r.endTime.Some?
    && r.timezone.Some? && r.timezone.value != ""
    && 5 <= r.slotDurationMinutes <= 240 && 0 <= r.breakDurationMinutes <= 60
    && r.appointmentType.Some?
    && (r.location.Some? ==> r.location.value.kind.Some?)
  }

  /** The fields of an availability that a request sets. */
  datatype Settings = Settings(
    date: LocalDate,
    startTime: Time,
    endTime: Time,
    timezone: string,
    isRecurring: bool,
    recurrencePattern: Option<RecurrencePattern>,
    recurrenceEndDate: Option<LocalDate>,
    slotDurationMinutes: int,
    breakDurationMinutes: int,
    appointmentType: AppointmentType,
    location: Option<Location>,
    specialRequirements: Option<seq<string>>,
    notes: Option<string>)

  function SettingsOf(a: ProviderAvailability): Settings
    reads a
  {
    Settings(a.date, a.startTime, a.endTime, a.timezone, a.isRecurring, a.recurrencePattern,
             a.recurrenceEndDate, a.slotDurationMinutes, a.breakDurationMinutes, a.appointmentType,
             a.location, a.specialRequirements, a.notes)
  }

  /** A value given in the request replaces the current one; a null leaves it. */
  function Keep<T>(current: T, given: Option<T>): T {
    if given.Some? then given.value else current
  }

  /** The location after a partial update: the type upper-cased, absent parts kept. */
  function UpdatedLocation(current: Option<Location>, req: LocationRequest): Location {
    var base := if current.Some? then current.value else Location(None, None, None);
    Location(if req.kind.Some? then Some(ToUpper(req.kind.value)) else base.kind,
             if req.address.Some? then req.address else base.address,
             if req.roomNumber.Some? then req.roomNumber else base.roomNumber)
  }

  /** What updateAvailabilityFromRequest does to the settings of an availability. */
  function Updated(s: Settings, r: AvailabilityRequest): Settings {
    Settings(
      Keep(s.date, r.date),
      Keep(s.startTime, r.startTime),
      Keep(s.endTime, r.endTime),
      Keep(s.timezone, r.timezone),
      r.isRecurring,
      if r.recurrencePattern.Some? then r.recurrencePattern else s.recurrencePattern,
      if r.recurrenceEndDate.Some? then r.recurrenceEndDate else s.recurrenceEndDate,
      if r.slotDurationMinutes > 0 then r.slotDurationMinutes else s.slotDurationMinutes,
      if r.breakDurationMinutes >= 0 then r.breakDurationMinutes else s.breakDurationMinutes,
      Keep(s.appointmentType, r.appointmentType),
      if r.location.Some? then Some(UpdatedLocation(s.location, r.location.value)) else s.location,
      if r.specialRequirements.Some? then r.specialRequirements else s.specialRequirements,
      if r.notes.Some? then r.notes else s.notes)
  }

  /**
   * Each field left null in the request keeps its value; isRecurring is always
   * overwritten; the slot length changes only to a positive value and the break only
   * to a non-negative one.
   */
  lemma UpdateFieldByField(s: Settings, r: AvailabilityRequest)
    ensures var u := Updated(s, r);
            && (r.date.None? ==> u.date == s.date) && (r.date.Some? ==> u.date == r.date.value)
            && (r.startTime.None? ==> u.startTime == s.startTime)
            && (r.endTime.None? ==> u.endTime == s.endTime)
            && (r.timezone.None? ==> u.timezone == s.timezone)
            && u.isRecurring == r.isRecurring
            && (r.recurrencePattern.None? ==> u.recurrencePattern == s.recurrencePattern)
            && (r.recurrenceEndDate.None? ==> u.recurrenceEndDate == s.recurrenceEndDate)
            && (r.slotDurationMinutes > 0 ==> u.slotDurationMinutes == r.slotDurationMinutes)
            && (r.slotDurationMinutes <= 0 ==> u.slotDurationMinutes == s.slotDurationMinutes)
            && (r.breakDurationMinutes >= 0 ==> u.breakDurationMinutes == r.breakDurationMinutes)
            && (r.breakDurationMinutes < 0 ==> u.breakDurationMinutes == s.breakDurationMinutes)
            && (r.appointmentType.None? ==> u.appointmentType == s.appointmentType)
            && (r.location.None? ==> u.location == s.location)
            && (r.specialRequirements.None? ==> u.specialRequirements == s.specialRequirements)
            && (r.notes.None? ==> u.notes == s.notes)
  {
  }

  /** Applying the same request twice has the effect of applying it once. */
  lemma UpdateIdempotent(s: Settings, r: AvailabilityRequest)
    ensures Updated(Updated(s, r), r) == Updated(s, r)
  {
    if r.location.Some? && r.location.value.kind.Some? {
      ToUpperIdempotent(r.location.value.kind.value);
    }
  }

  /** updateAvailabilityFromRequest: the partial update, field by field, in place. */
  method UpdateAvailabilityFromRequest(a: ProviderAvailability, r: AvailabilityRequest)
    modifies a`date, a`startTime, a`endTime, a`timezone, a`isRecurring, a`recurrencePattern,
             a`recurrenceEndDate, a`slotDurationMinutes, a`breakDurationMinutes, a`appointmentType,
             a`location, a`specialRequirements, a`notes
    ensures SettingsOf(a) == Updated(old(SettingsOf(a)), r)
  {
    UpdateWindowFields(a, r);
    UpdateRecurrenceFields(a, r);
    UpdateDescriptionFields(a, r);
  }

  /** The basic fields: date, start and end time, time zone. */
  method UpdateWindowFields(a: ProviderAvailability, r: AvailabilityRequest)
    modifies a`date, a`startTime, a`endTime, a`timezone
    ensures a.date == Keep(old(a.date), r.date) && a.startTime == Keep(old(a.startTime), r.startTime)
    ensures a.endTime == Keep(old(a.endTime), r.endTime) && a.timezone == Keep(old(a.timezone), r.timezone)
  {
    if r.date.Some? { a.date := r.date.value; }
    if r.startTime.Some? { a.startTime := r.startTime.value; }
    if r.endTime.Some? { a.endTime := r.endTime.value; }
    if r.timezone.Some? { a.timezone := r.timezone.value; }
  }

  /** The recurrence and timing fields. */
  method UpdateRecurrenceFields(a: ProviderAvailability, r: AvailabilityRequest)
    modifies a`isRecurring, a`recurrencePattern, a`recurrenceEndDate, a`slotDurationMinutes, a`breakDurationMinutes
    ensures a.isRecurring == r.isRecurring
    ensures a.recurrencePattern == (if r.recurrencePattern.Some? then r.recurrencePattern else old(a.recurrencePattern))
    ensures a.recurrenceEndDate == (if r.recurrenceEndDate.Some? then r.recurrenceEndDate else old(a.recurrenceEndDate))
    ensures a.slotDurationMinutes == (if r.slotDurationMinutes > 0 then r.slotDurationMinutes else old(a.slotDurationMinutes))
    ensures a.breakDurationMinutes
            == (if r.breakDurationMinutes >= 0 then r.breakDurationMinutes else old(a.breakDurationMinutes))
  {
    a.isRecurring := r.isRecurring;
    if r.recurrencePattern.Some? { a.recurrencePattern := r.recurrencePattern; }
    if r.recurrenceEndDate.Some? { a.recurrenceEndDate := r.recurrenceEndDate; }
    if r.slotDurationMinutes > 0 { a.slotDurationMinutes := r.slotDurationMinutes; }
    if r.breakDurationMinutes >= 0 { a.breakDurationMinutes := r.breakDurationMinutes; }
  }

  /** The appointment type, location, special requirements and notes. */
  method UpdateDescriptionFields(a: ProviderAvailability, r: AvailabilityRequest)
    modifies a`appointmentType, a`location, a`specialRequirements, a`notes
    ensures a.appointmentType == Keep(old(a.appointmentType), r.appointmentType)
    ensures a.location == (if r.location.Some? then Some(UpdatedLocation(old(a.location), r.location.value))
                           else old(a.location))
    ensures a.specialRequirements
            == (if r.specialRequirements.Some? then r.specialRequirements else old(a.specialRequirements))
    ensures a.notes == (if r.notes.Some? then r.notes else old(a.notes))
  {
    if r.appointmentType.Some? { a.appointmentType := r.appointmentType.value; }
    if r.location.Some? {
      var location := if a.location.Some? then a.location.value else Location(None, None, None);
      if r.location.value.kind.Some? { location := location.(kind := Some(ToUpper(r.location.value.kind.value))); }
      if r.location.value.address.Some? { location := location.(address := r.location.value.address); }
      if r.location.value.roomNumber.Some? { location := location.(roomNumber := r.location.value.roomNumber); }
      a.location := Some(location);
    }
    if r.specialRequirements.Some? { a.specialRequirements := r.specialRequirements; }
    if r.notes.Some? { a.notes := r.notes; }
  }

  /** The location createSingleAvailability gives a new availability: the type upper-cased. */
  function LocationOf(r: AvailabilityRequest): Option<Location>
    requires r.location.Some? ==> r.location.value.kind.Some?
  {
    if r.location.Some?
    then Some(Location(Some(ToUpper(r.location.value.kind.value)), r.location.value.address,
                       r.location.value.roomNumber))
    else None
  }

  /** The settings createSingleAvailability gives a new availability on `date`. */
  function FromRequest(r: AvailabilityRequest, date: LocalDate): Settings
    requires ValidRequest(r)
  {
    Settings(date, r.startTime.value, r.endTime.value, r.timezone.value, r.isRecurring,
             r.recurrencePattern, r.recurrenceEndDate, r.slotDurationMinutes, r.breakDurationMinutes,
             r.appointmentType.value, LocationOf(r), r.specialRequirements, r.notes)
  }

  /**
   * Creating from a request agrees with the partial update: a valid request applied
   * to an entity that still has the entity's defaults gives the created settings.
   */
  lemma CreateAgreesWithUpdate(s: Settings, r: AvailabilityRequest)
    requires ValidRequest(r)
    requires s.location.None? && s.recurrencePattern.None? && s.recurrenceEndDate.None?
    requires s.specialRequirements.None? && s.notes.None?
    ensures Updated(s, r) == FromRequest(r, r.date.value)
  {
  }

  /**
   * createSingleAvailability with the date the new availability is given: a new,
   * unsaved entity of the provider with the request's settings, AVAILABLE, no
   * appointments, and the entity's default capacity of one.
   */
  method CreateSingleAvailability(r: AvailabilityRequest, date: LocalDate) returns (a: ProviderAvailability)
    requires ValidRequest(r)
    ensures fresh(a) && CreatedFor(a, r, date)
  {
    a := new ProviderAvailability(r.providerId, date, r.startTime.value, r.endTime.value, r.timezone.value);
    SetRequestFields(a, r);
  }

  /** The setters createSingleAvailability calls after the provider, date, times and time zone. */
  method SetRequestFields(a: ProviderAvailability, r: AvailabilityRequest)
    requires ValidRequest(r)
    modifies a`isRecurring, a`recurrencePattern, a`recurrenceEndDate, a`slotDurationMinutes,
             a`breakDurationMinutes, a`appointmentType, a`notes, a`specialRequirements, a`status,
             a`currentAppointments, a`location
    ensures a.isRecurring == r.isRecurring
    ensures a.recurrencePattern == r.recurrencePattern && a.recurrenceEndDate == r.recurrenceEndDate
    ensures a.slotDurationMinutes == r.slotDurationMinutes && a.breakDurationMinutes == r.breakDurationMinutes
    ensures a.appointmentType == r.appointmentType.value && a.notes == r.notes
    ensures a.specialRequirements == r.specialRequirements
    ensures a.status == Available && a.currentAppointments == 0
    ensures r.location.None? ==> a.location == old(a.location)
    ensures r.location.Some? ==> a.location == LocationOf(r)
  {
    a.isRecurring := r.isRecurring;
    a.recurrencePattern := r.recurrencePattern;
    a.recurrenceEndDate := r.recurrenceEndDate;
    a.slotDurationMinutes := r.slotDurationMinutes;
    a.breakDurationMinutes := r.breakDurationMinutes;
    a.appointmentType := r.appointmentType.value;
    a.notes := r.notes;
    a.specialRequirements := r.specialRequirements;
    a.status := Available;
    a.currentAppointments := 0;
    if r.location.Some? {
      a.location := Some(Location(Some(ToUpper(r.location.value.kind.value)), r.location.value.address,
                                  r.location.value.roomNumber));
    }
  }

  /**
   * `a` is what createSingleAvailability builds from `r` for `date`: unsaved, of the
   * request's provider, with the request's settings, AVAILABLE and empty.
   */
  predicate CreatedFor(a: ProviderAvailability, r: AvailabilityRequest, date: LocalDate)
    reads a
    requires ValidRequest(r)
  {
    a.id == None && Built(a, r, date)
  }

  /** `a` has the provider, settings, status and counter createSingleAvailability gives it. */
  predicate Built(a: ProviderAvailability, r: AvailabilityRequest, date: LocalDate)
    reads a
    requires ValidRequest(r)
  {
    && a.providerId == r.providerId && SettingsOf(a) == FromRequest(r, date)
    && a.status == Available && a.currentAppointments == 0 && a.maxAppointmentsPerSlot == Some(1)
  }

  /** The dates a recurring request creates availabilities for. */
  function RecurringDates(r: AvailabilityRequest): seq<LocalDate>
    requires ValidRequest(r) && r.recurrenceEndDate.Some?
  {
    Occurrences(r.date.value, r.recurrenceEndDate.value, r.date.value, r.recurrencePattern)
  }

  /**
   * generateRecurringAvailabilities as written: one availability per matching date,
   * each built by createSingleAvailability and so dated on the request's own date.
   */
  method GenerateRecurringAvailabilitiesAsWritten(r: AvailabilityRequest) returns (avs: seq<ProviderAvailability>)
    requires ValidRequest(r) && r.recurrencePattern.Some? && r.recurrenceEndDate.Some?
    ensures |avs| == |RecurringDates(r)|
    ensures forall i :: 0 <= i < |avs| ==> fresh(avs[i]) && CreatedFor(avs[i], r, r.date.value)
  {
    avs := [];
    var currentDate := r.date.value;
    var endDate := r.recurrenceEndDate.value;
    while !IsAfter(currentDate, endDate)
      invariant |avs| + |Occurrences(currentDate, endDate, r.date.value, r.recurrencePattern)| == |RecurringDates(r)|
      invariant forall i :: 0 <= i < |avs| ==> fresh(avs[i]) && CreatedFor(avs[i], r, r.date.value)
      decreases Remaining(currentDate, endDate)
    {
      if MatchesRecurrencePattern(currentDate, r.date.value, r.recurrencePattern) {
        var a := CreateSingleAvailability(r, r.date.value);
        avs := avs + [a];
      }
      NextOccurrenceApproaches(currentDate, endDate, r.recurrencePattern);
      currentDate := NextOccurrence(currentDate, r.recurrencePattern);
    }
  }

  /**
   * generateRecurringAvailabilities as evidently intended: one new availability per
   * matching date, dated on that date, in calendar order, no two the same object.
   */
  method GenerateRecurringAvailabilities(r: AvailabilityRequest) returns (avs: seq<ProviderAvailability>)
    requires ValidRequest(r) && r.recurrencePattern.Some? && r.recurrenceEndDate.Some?
    ensures |avs| == |RecurringDates(r)|
    ensures forall i :: 0 <= i < |avs| ==> fresh(avs[i]) && CreatedFor(avs[i], r, RecurringDates(r)[i])
    ensures Distinct(avs)
  {
    avs := [];
    var currentDate := r.date.value;
    var endDate := r.recurrenceEndDate.value;
    ghost var done: seq<LocalDate> := [];
    while !IsAfter(currentDate, endDate)
      invariant RecurringDates(r) == done + Occurrences(currentDate, endDate, r.date.value, r.recurrencePattern)
      invariant |avs| == |done|
      invariant forall a | a in avs :: fresh(a)
      invariant Distinct(avs)
      invariant AllCreatedFor(avs, r, done)
      decreases Remaining(currentDate, endDate)
    {
      var matches := MatchesRecurrencePattern(currentDate, r.date.value, r.recurrencePattern);
      NextOccurrenceApproaches(currentDate, endDate, r.recurrencePattern);
      OccurrencesAdvance(RecurringDates(r), done, currentDate, endDate, r.date.value, r.recurrencePattern);
      if matches {
        avs := AppendCreated(avs, r, done, currentDate);
        done := done + [currentDate];
      }
      currentDate := NextOccurrence(currentDate, r.recurrencePattern);
    }
    OccurrencesEmptyAfterEnd(currentDate, endDate, r.date.value, r.recurrencePattern);
    assert AllCreatedFor(avs, r, RecurringDates(r));
    assert forall i :: 0 <= i < |avs| ==> avs[i] in avs;
  }

  /** Each of `avs` is what createSingleAvailability builds for the date at the same index. */
  predicate AllCreatedFor(avs: seq<ProviderAvailability>, r: AvailabilityRequest, dates: seq<LocalDate>)
    reads set i | 0 <= i < |avs| :: avs[i]
    requires ValidRequest(r)
  {
    |avs| == |dates| && forall i :: 0 <= i < |avs| ==> CreatedFor(avs[i], r, dates[i])
  }

  /** Adding an availability created for `date` extends AllCreatedFor by that date. */
  lemma AllCreatedForAppend(avs: seq<ProviderAvailability>, r: AvailabilityRequest, dates: seq<LocalDate>,
                            a: ProviderAvailability, date: LocalDate)
    requires ValidRequest(r) && AllCreatedFor(avs, r, dates) && CreatedFor(a, r, date)
    ensures AllCreatedFor(avs + [a], r, dates + [date])
  {
  }

  /** createSingleAvailability for `date`, added to the end of `avs`. */
  method AppendCreated(avs: seq<ProviderAvailability>, r: AvailabilityRequest, ghost dates: seq<LocalDate>,
                       date: LocalDate)
    returns (avs': seq<ProviderAvailability>)
    requires ValidRequest(r) && AllCreatedFor(avs, r, dates) && Distinct(avs)
    ensures |avs'| == |avs| + 1 && avs' == avs + [avs'[|avs|]] && fresh(avs'[|avs|])
    ensures Distinct(avs')
    ensures AllCreatedFor(avs', r, dates + [date])
  {
    var a := CreateSingleAvailability(r, date);
    AllCreatedForAppend(avs, r, dates, a, date);
    assert a !in avs;
    DistinctAppend(avs, a);
    avs' := avs + [a];
  }

  /** No availability occurs twice. */
  predicate Distinct(avs: seq<ProviderAvailability>) {
    forall i, j :: 0 <= i < j < |avs| ==> avs[i] != avs[j]
  }

  /** Adding an availability not yet present keeps them distinct. */
  lemma DistinctAppend(avs: seq<ProviderAvailability>, a: ProviderAvailability)
    requires Distinct(avs) && a !in avs
    ensures Distinct(avs + [a])
  {
  }

  /**
   * A DAILY request over two days: as written both availabilities carry the first
   * date; as intended they fall on the two dates.
   */
  method RecurringDailyTwoDays(r: AvailabilityRequest)
    returns (asWritten: seq<ProviderAvailability>, intended: seq<ProviderAvailability>)
    requires ValidRequest(r) && r.recurrencePattern == Some(Daily)
    requires r.recurrenceEndDate == Some(NextDay(r.date.value))
    ensures |asWritten| == 2 && asWritten[0].date == asWritten[1].date == r.date.value
    ensures |intended| == 2 && intended[0].date == r.date.value && intended[1].date == NextDay(r.date.value)
    ensures intended[1].date != asWritten[1].date
  {
    TwoDailyOccurrences(r.date.value);
    asWritten := GenerateRecurringAvailabilitiesAsWritten(r);
    intended := GenerateRecurringAvailabilities(r);
  }

  /** createAvailability expands the request only when all three recurrence fields are set. */
  predicate IsRecurringRequest(r: AvailabilityRequest) {
    r.isRecurring && r.recurrencePattern.Some? && r.recurrenceEndDate.Some?
  }

  /** The dates createAvailability creates availabilities for. */
  function RequestDates(r: AvailabilityRequest): (dates: seq<LocalDate>)
    requires ValidRequest(r)
  {
    if IsRecurringRequest(r) then RecurringDates(r) else [r.date.value]
  }

  /**
   * A slot cut from an availability created from `r`: the request's provider, one of
   * its dates, AVAILABLE, the request's slot length, inside the request's window.
   */
  predicate SlotFor(s: ProviderAvailability, r: AvailabilityRequest)
    reads s
    requires ValidRequest(r)
  {
    && s.providerId == r.providerId && s.date in RequestDates(r) && s.status == Available
    && r.startTime.value <= s.startTime && s.endTime == s.startTime + r.slotDurationMinutes
    && s.endTime <= r.endTime.value
  }

  /** The availabilities are those built from `r`, one per date of the request, in order. */
  predicate AllBuilt(avs: seq<ProviderAvailability>, r: AvailabilityRequest)
    reads avs
    requires ValidRequest(r)
  {
    |avs| == |RequestDates(r)| && forall j :: 0 <= j < |avs| ==> Built(avs[j], r, RequestDates(r)[j])
  }

  /** Every slot of `out` fits the request. */
  predicate AllSlotsFor(out: seq<ProviderAvailability>, r: AvailabilityRequest)
    reads out
    requires ValidRequest(r)
  {
    forall k :: 0 <= k < |out| ==> SlotFor(out[k], r)
  }

  /** `slot` is a copy of `av` cut to window `w`, open for booking. */
  predicate SlotOf(slot: ProviderAvailability, av: ProviderAvailability, w: Window)
    reads slot, av
  {
    slot.SameSettings(av) && slot.startTime == w.start && slot.endTime == w.end && slot.status == Available
  }

  /** The first |slots| windows of `ws` have each been cut into the saved slot at the same index. */
  predicate SavedSlotsOf(slots: seq<ProviderAvailability>, av: ProviderAvailability, ws: seq<Window>)
    reads av, set k | 0 <= k < |slots| :: slots[k]
  {
    |slots| <= |ws| && forall k :: 0 <= k < |slots| ==> slots[k].id.Some? && SlotOf(slots[k], av, ws[k])
  }

  /** A saved slot for the next window extends SavedSlotsOf by one. */
  lemma SavedSlotsOfAppend(slots: seq<ProviderAvailability>, av: ProviderAvailability, ws: seq<Window>,
                           slot: ProviderAvailability)
    requires SavedSlotsOf(slots, av, ws) && |slots| < |ws|
    requires slot.id.Some? && SlotOf(slot, av, ws[|slots|])
    ensures SavedSlotsOf(slots + [slot], av, ws)
  {
  }

  /** The position of the row with that id (findById), if any. */
  function IndexOf(rows: seq<ProviderAvailability>, id: Uuid): (k: Option<nat>)
    reads rows
    ensures k.Some? ==> k.value < |rows| && rows[k.value].id == Some(id)
    ensures k.None? ==> forall i :: 0 <= i < |rows| ==> rows[i].id != Some(id)
  {
    if rows == [] then None
    else if rows[0].id == Some(id) then Some(0)
    else
      var k := IndexOf(rows[1..], id);
      if k.Some? then Some(k.value + 1) else None
  }

  /** The windows an availability is cut into. */
  function WindowsOf(a: ProviderAvailability): seq<Window>
    reads a
    requires a.slotDurationMinutes > 0 && a.breakDurationMinutes >= 0
  {
    SlotWindows(a.startTime, a.endTime, a.slotDurationMinutes, a.breakDurationMinutes)
  }

  /** Window `w` of the availability at position `index`: a slot to be cut. */
  datatype Cut = Cut(index: nat, w: Window)

  /** The windows the request's time range is cut into; every availability built from it has them. */
  function RequestWindows(r: AvailabilityRequest): seq<Window>
    requires ValidRequest(r)
  {
    SlotWindows(r.startTime.value, r.endTime.value, r.slotDurationMinutes, r.breakDurationMinutes)
  }

  /** The windows `ws` of the availability at position `index`, each paired with that position. */
  function CutsOf(ws: seq<Window>, index: nat): (cs: seq<Cut>)
    ensures |cs| == |ws| && forall k :: 0 <= k < |cs| ==> cs[k] == Cut(index, ws[k])
  {
    seq(|ws|, k requires 0 <= k < |ws| => Cut(index, ws[k]))
  }

  /** The windows `ws` of each of the first `n` availabilities, availability by availability. */
  function Cuts(ws: seq<Window>, n: nat): seq<Cut>
  {
    if n == 0 then [] else Cuts(ws, n - 1) + CutsOf(ws, n - 1)
  }

  /**
   * Each saved slot of `out` is the one cut, from the availability of `avs` it
   * names, for the window at the same position of `cs`.
   */
  predicate SlotsCut(out: seq<ProviderAvailability>, avs: seq<ProviderAvailability>, cs: seq<Cut>)
    reads out, avs
  {
    && |out| == |cs|
    && forall k :: 0 <= k < |out| ==>
         cs[k].index < |avs| && out[k].id.Some? && SlotOf(out[k], avs[cs[k].index], cs[k].w)
  }

  /** The time range, slot length and break an availability is cut by. */
  datatype Cutting = Cutting(start: Time, end: Time, duration: int, pause: int)

  function CuttingOf(a: ProviderAvailability): Cutting
    reads a
  {
    Cutting(a.startTime, a.endTime, a.slotDurationMinutes, a.breakDurationMinutes)
  }

  /** Every availability of `avs` is cut by `c`, a slot length above zero and a break not below. */
  predicate CutBy(avs: seq<ProviderAvailability>, c: Cutting)
    reads avs
  {
    c.duration > 0 && c.pause >= 0 && forall j :: 0 <= j < |avs| ==> CuttingOf(avs[j]) == c
  }

  /** The availabilities built from a request are all cut as the request says. */
  lemma BuiltCutBy(avs: seq<ProviderAvailability>, r: AvailabilityRequest)
    requires ValidRequest(r) && AllBuilt(avs, r)
    ensures CutBy(avs, Cutting(r.startTime.value, r.endTime.value, r.slotDurationMinutes, r.breakDurationMinutes))
  {
    forall j | 0 <= j < |avs|
      ensures CuttingOf(avs[j]) == Cutting(r.startTime.value, r.endTime.value, r.slotDurationMinutes, r.breakDurationMinutes)
    {
      assert Built(avs[j], r, RequestDates(r)[j]);
    }
  }

  /** The cuts of `n` availabilities name positions below `n` and windows of `ws`. */
  lemma {:induction false} CutsWithin(ws: seq<Window>, n: nat)
    ensures |Cuts(ws, n)| == n * |ws|
    ensures forall k :: 0 <= k < |Cuts(ws, n)| ==> Cuts(ws, n)[k].index < n && Cuts(ws, n)[k].w in ws
  {
    if n > 0 {
      CutsWithin(ws, n - 1);
      var prev, last := Cuts(ws, n - 1), CutsOf(ws, n - 1);
      var all: seq<Cut> := prev + last;
      forall k | 0 <= k < |all|
        ensures all[k].index < n && all[k].w in ws
      {
        if k >= |prev| {
          assert all[k] == last[k - |prev|];
        }
      }
    }
  }

  /** Slots cut from availabilities built from `r`, for the request's windows, fit the request. */
  lemma CutSlotsFit(out: seq<ProviderAvailability>, avs: seq<ProviderAvailability>, r: AvailabilityRequest)
    requires ValidRequest(r) && AllBuilt(avs, r)
    requires SlotsCut(out, avs, Cuts(RequestWindows(r), |avs|))
    ensures AllSlotsFor(out, r)
  {
    var cs := Cuts(RequestWindows(r), |avs|);
    CutsWithin(RequestWindows(r), |avs|);
    SlotWindowsWithin(r.startTime.value, r.endTime.value, r.slotDurationMinutes, r.breakDurationMinutes);
    forall k | 0 <= k < |out|
      ensures SlotFor(out[k], r)
    {
      var j := cs[k].index;
      assert Built(avs[j], r, RequestDates(r)[j]);
      assert RequestDates(r)[j] in RequestDates(r);
    }
  }

  /** The slots cut from the availability at position `i` extend SlotsCut by its windows. */
  lemma SlotsCutAppend(out: seq<ProviderAvailability>, avs: seq<ProviderAvailability>, cs: seq<Cut>,
                       slots: seq<ProviderAvailability>, i: nat, ws: seq<Window>)
    requires i < |avs| && SlotsCut(out, avs, cs) && |slots| == |ws|
    requires forall k :: 0 <= k < |slots| ==> slots[k].id.Some? && SlotOf(slots[k], avs[i], ws[k])
    ensures SlotsCut(out + slots, avs, cs + CutsOf(ws, i))
  {
    var all, cuts := out + slots, cs + CutsOf(ws, i);
    forall k | 0 <= k < |all|
      ensures cuts[k].index < |avs| && all[k].id.Some? && SlotOf(all[k], avs[cuts[k].index], cuts[k].w)
    {
      if k >= |out| {
        assert all[k] == slots[k - |out|] && cuts[k] == CutsOf(ws, i)[k - |out|];
      }
    }
  }

  /**
   * hasOverlappingSlots: some row returned by findOverlappingSlots is not the
   * excluded one (a null exclusion excludes nothing).
   */
  function HasOverlappingSlots(rows: seq<ProviderAvailability>, providerId: Uuid, date: LocalDate,
                               startTime: Time, endTime: Time, exclude: Option<Uuid>): (r: bool)
    reads rows
    ensures r <==> exists i :: 0 <= i < |rows| && OverlapMatch(rows[i], providerId, date, startTime, endTime)
                                && (exclude.None? || rows[i].id != exclude)
  {
    var overlapping := FindOverlappingSlots(rows, providerId, date, startTime, endTime);
    var kept := WithoutId(overlapping, exclude);
    assert kept != [] ==> kept[0] in overlapping;
    kept != []
  }

  /** The rows whose id is not the excluded one, in order; all of them when none is excluded. */
  function WithoutId(rows: seq<ProviderAvailability>, exclude: Option<Uuid>): (r: seq<ProviderAvailability>)
    reads rows
    ensures forall i :: 0 <= i < |r| ==> r[i] in rows && (exclude.None? || r[i].id != exclude)
    ensures forall i :: 0 <= i < |rows| && (exclude.None? || rows[i].id != exclude) ==> rows[i] in r
  {
    if rows == [] then []
    else
      var rest := WithoutId(rows[1..], exclude);
      if exclude.None? || rows[0].id != exclude then [rows[0]] + rest else rest
  }

  /** Excluding an id can only remove overlaps, and the excluded row alone never reports one. */
  lemma ExclusionOnlyRemoves(rows: seq<ProviderAvailability>, providerId: Uuid, date: LocalDate,
                             startTime: Time, endTime: Time, id: Uuid)
    ensures HasOverlappingSlots(rows, providerId, date, startTime, endTime, Some(id))
            ==> HasOverlappingSlots(rows, providerId, date, startTime, endTime, None)
    ensures (forall i :: 0 <= i < |rows| ==> rows[i].id == Some(id))
            ==> !HasOverlappingSlots(rows, providerId, date, startTime, endTime, Some(id))
  {
  }

  /** The state of ProviderAvailabilityServiceImpl: the provider ids it knows and the availability table. */
  class ProviderAvailabilityService {
    var providers: set<Uuid>
    var rows: seq<ProviderAvailability>
    var nextId: nat
    /** The primary-key index: the position of the row holding each id. */
    ghost var position: map<Uuid, nat>

    /**
     * Every saved row has an id, issued below nextId, and the index maps it back to
     * the row's position, so no two rows share one.
     */
    ghost predicate Valid()
      reads this, rows
    {
      forall i :: 0 <= i < |rows| ==>
        && rows[i].id.Some? && rows[i].id.value < nextId
        && rows[i].id.value in position && position[rows[i].id.value] == i
    }

    constructor (providers: set<Uuid>)
      ensures Valid() && this.providers == providers && rows == []
    {
      this.providers := providers;
      rows := [];
      nextId := 0;
      position := map[];
    }

    /** save of a new entity: it is given the next id and appended to the table. */
    method SaveNew(a: ProviderAvailability)
      requires Valid() && a.id.None?
      modifies this, a`id
      ensures Valid()
      ensures a.id == Some(old(nextId)) && rows == old(rows) + [a]
      ensures providers == old(providers) && nextId == old(nextId) + 1
    {
      a.id := Some(nextId);
      position := position[nextId := |rows|];
      rows := rows + [a];
      nextId := nextId + 1;
    }

    /**
     * The slot the loop of generateAppointmentSlots builds for window `w`: a copy of
     * the availability (the ModelMapper copy) with the window's times, AVAILABLE and
     * without an id until it is saved.
     */
    static method NewSlot(av: ProviderAvailability, w: Window) returns (slot: ProviderAvailability)
      ensures fresh(slot) && slot.id.None? && SlotOf(slot, av, w)
    {
      slot := new ProviderAvailability.CopyOf(av);
      slot.id := None;
      slot.startTime := w.start;
      slot.endTime := w.end;
      slot.status := Available;
    }

    /**
     * generateAppointmentSlots: one new saved row per window of the availability, a
     * copy of it with that window's times, status AVAILABLE and a fresh id.
     */
    method GenerateAppointmentSlots(av: ProviderAvailability) returns (slots: seq<ProviderAvailability>)
      requires Valid() && av.slotDurationMinutes > 0 && av.breakDurationMinutes >= 0
      modifies this
      ensures Valid() && providers == old(providers) && rows == old(rows) + slots
      ensures |slots| == |WindowsOf(av)|
      ensures forall k :: 0 <= k < |slots| ==>
                fresh(slots[k]) && slots[k].id.Some? && SlotOf(slots[k], av, WindowsOf(av)[k])
    {
      slots := [];
      var duration := av.slotDurationMinutes;
      var pause := av.breakDurationMinutes;
      var current: nat := av.startTime;
      ghost var all := WindowsOf(av);
      while current + duration <= av.endTime
        invariant |slots| <= |all| && all[|slots|..] == SlotWindows(current, av.endTime, duration, pause)
        invariant Valid() && providers == old(providers) && rows == old(rows) + slots
        invariant forall s | s in slots :: fresh(s)
        invariant SavedSlotsOf(slots, av, all)
        decreases av.endTime - current
      {
        assert all[|slots|] == Window(current, current + duration);
        assert all[|slots| + 1..] == SlotWindows(current + duration + pause, av.endTime, duration, pause);
        var slot := SaveNewSlot(av, Window(current, current + duration));
        SavedSlotsOfAppend(slots, av, all, slot);
        slots := slots + [slot];
        current := current + duration + pause;
      }
      assert forall k :: 0 <= k < |slots| ==> slots[k] in slots;
    }

    /** One pass of the loop of generateAppointmentSlots: the slot for window `w`, saved. */
    method SaveNewSlot(av: ProviderAvailability, w: Window) returns (slot: ProviderAvailability)
      requires Valid()
      modifies this
      ensures Valid() && providers == old(providers) && rows == old(rows) + [slot]
      ensures fresh(slot) && slot.id.Some? && SlotOf(slot, av, w)
    {
      slot := NewSlot(av, w);
      SaveNew(slot);
    }

    /**
     * createAvailability: an unknown provider, or a window overlapping an existing
     * one on the request's date, is refused with nothing saved. Otherwise the
     * availabilities for the request's dates are saved, each is cut into slots, and
     * the slots, all saved as well, are returned.
     */
    method CreateAvailability(r: AvailabilityRequest) returns (res: Result<seq<ProviderAvailability>>)
      requires Valid() && ValidRequest(r)
      modifies this
      ensures Valid() && providers == old(providers)
      ensures r.providerId !in providers ==> res == Err(ResourceNotFound)
      ensures r.providerId in providers
              && old(HasOverlappingSlots(rows, r.providerId, r.date.value, r.startTime.value, r.endTime.value, None))
              ==> res == Err(IllegalArgument)
      ensures r.providerId in providers
              && !old(HasOverlappingSlots(rows, r.providerId, r.date.value, r.startTime.value, r.endTime.value, None))
              ==> res.Ok?
      ensures res.Err? ==> rows == old(rows)
      ensures res.Ok? ==>
                && |rows| == |old(rows)| + |RequestDates(r)| + |res.value|
                && var avs := rows[|old(rows)|..|old(rows)| + |RequestDates(r)|];
                   && rows == old(rows) + avs + res.value
                   && (forall i :: 0 <= i < |avs| ==> fresh(avs[i]) && Built(avs[i], r, RequestDates(r)[i]))
                   && SlotsCut(res.value, avs, Cuts(RequestWindows(r), |avs|))
                   && (forall s | s in res.value :: fresh(s))
                   && AllSlotsFor(res.value, r)
    {
      if r.providerId !in providers {
        return Err(ResourceNotFound);
      }
      if HasOverlappingSlots(rows, r.providerId, r.date.value, r.startTime.value, r.endTime.value, None) {
        return Err(IllegalArgument);
      }
      var avs := SaveRequestAvailabilities(r);
      BuiltCutBy(avs, r);
      var out := GenerateSlotsForAll(avs, Cutting(r.startTime.value, r.endTime.value, r.slotDurationMinutes, r.breakDurationMinutes));
      CutSlotsFit(out, avs, r);
      assert rows == old(rows) + avs + out;
      assert rows[|old(rows)|..|old(rows)| + |avs|] == avs;
      res := Ok(out);
    }

    /**
     * The part of createAvailability that builds the availabilities for the request's
     * dates (one, or the recurring ones) and saves them all.
     */
    method SaveRequestAvailabilities(r: AvailabilityRequest) returns (avs: seq<ProviderAvailability>)
      requires Valid() && ValidRequest(r)
      modifies this
      ensures Valid() && providers == old(providers) && rows == old(rows) + avs
      ensures |avs| == |RequestDates(r)|
      ensures forall i :: 0 <= i < |avs| ==> fresh(avs[i]) && Built(avs[i], r, RequestDates(r)[i])
    {
      if IsRecurringRequest(r) {
        avs := GenerateRecurringAvailabilities(r);
      } else {
        var a := CreateSingleAvailability(r, r.date.value);
        avs := [a];
      }
      SaveAll(avs);
    }

    /** saveAll of new entities: each is given the next id and appended, in order. */
    method SaveAll(avs: seq<ProviderAvailability>)
      requires Valid()
      requires forall j :: 0 <= j < |avs| ==> avs[j].id.None?
      requires Distinct(avs)
      modifies this, avs
      ensures Valid() && providers == old(providers) && rows == old(rows) + avs
      ensures forall j :: 0 <= j < |avs| ==>
                && avs[j].providerId == old(avs[j].providerId) && SettingsOf(avs[j]) == old(SettingsOf(avs[j]))
                && avs[j].status == old(avs[j].status) && avs[j].currentAppointments == old(avs[j].currentAppointments)
                && avs[j].maxAppointmentsPerSlot == old(avs[j].maxAppointmentsPerSlot)
    {
      var i := 0;
      while i < |avs|
        invariant 0 <= i <= |avs|
        invariant Valid() && providers == old(providers) && rows == old(rows) + avs[..i]
        invariant forall j :: i <= j < |avs| ==> avs[j].id.None?
        invariant forall j :: 0 <= j < |avs| ==>
                    && avs[j].providerId == old(avs[j].providerId) && SettingsOf(avs[j]) == old(SettingsOf(avs[j]))
                    && avs[j].status == old(avs[j].status)
                    && avs[j].currentAppointments == old(avs[j].currentAppointments)
                    && avs[j].maxAppointmentsPerSlot == old(avs[j].maxAppointmentsPerSlot)
      {
        SaveNew(avs[i]);
        assert avs[..i + 1] == avs[..i] + [avs[i]];
        i := i + 1;
      }
    }

    /**
     * The loop of createAvailability that cuts every saved availability into slots:
     * the slots of the first availability, then those of the second, and so on.
     */
    method GenerateSlotsForAll(avs: seq<ProviderAvailability>, ghost c: Cutting)
      returns (out: seq<ProviderAvailability>)
      requires Valid() && CutBy(avs, c)
      modifies this
      ensures Valid() && providers == old(providers) && rows == old(rows) + out
      ensures SlotsCut(out, avs, Cuts(SlotWindows(c.start, c.end, c.duration, c.pause), |avs|))
      ensures forall s | s in out :: fresh(s)
    {
      out := [];
      var i := 0;
      ghost var ws := SlotWindows(c.start, c.end, c.duration, c.pause);
      while i < |avs|
        invariant 0 <= i <= |avs|
        invariant Valid() && providers == old(providers) && rows == old(rows) + out
        invariant forall s | s in out :: fresh(s)
        invariant SlotsCut(out, avs, Cuts(ws, i))
      {
        var slots := CutNext(avs, i, out, c, ws);
        out := out + slots;
        i := i + 1;
      }
    }

    /** One pass of that loop: the slots of the availability at position `i`, saved. */
    method CutNext(avs: seq<ProviderAvailability>, i: nat,
                   ghost out: seq<ProviderAvailability>, ghost c: Cutting, ghost ws: seq<Window>)
      returns (slots: seq<ProviderAvailability>)
      requires Valid() && CutBy(avs, c) && i < |avs| && SlotsCut(out, avs, Cuts(ws, i))
      requires ws == SlotWindows(c.start, c.end, c.duration, c.pause)
      modifies this
      ensures Valid() && providers == old(providers) && rows == old(rows) + slots
      ensures forall s | s in slots :: fresh(s)
      ensures SlotsCut(out + slots, avs, Cuts(ws, i + 1))
    {
      var av := avs[i];
      assert CuttingOf(av) == c;
      slots := GenerateAppointmentSlots(av);
      SlotsCutAppend(out, avs, Cuts(ws, i), slots, i, ws);
      assert forall s | s in slots :: fresh(s) by {
        forall s | s in slots ensures fresh(s) {
          var k :| 0 <= k < |slots| && slots[k] == s;
        }
      }
    }

    /**
     * updateAvailability: an unknown id is refused, and so is a new window that
     * overlaps another availability of the provider on the request's date. Otherwise
     * the row is updated in place and cut into slots again, and the first new slot is
     * returned; when the updated window holds no slot the source fails on the empty
     * list (List.get(0)) and its transaction is rolled back, so nothing changes.
     */
    method UpdateAvailability(id: Uuid, r: AvailabilityRequest) returns (res: Result<ProviderAvailability>)
      requires Valid() && ValidRequest(r)
      modifies this, rows
      ensures Valid() && providers == old(providers)
      ensures old(IndexOf(rows, id)).None? ==> res == Err(ResourceNotFound)
      ensures old(IndexOf(rows, id)).Some?
              && old(HasOverlappingSlots(rows, rows[IndexOf(rows, id).value].providerId, r.date.value,
                                         r.startTime.value, r.endTime.value, Some(id)))
              ==> res == Err(IllegalArgument)
      ensures old(IndexOf(rows, id)).Some?
              && !old(HasOverlappingSlots(rows, rows[IndexOf(rows, id).value].providerId, r.date.value,
                                          r.startTime.value, r.endTime.value, Some(id)))
              ==> var u := Updated(old(SettingsOf(rows[IndexOf(rows, id).value])), r);
                  var ws := SlotWindows(u.startTime, u.endTime, u.slotDurationMinutes, u.breakDurationMinutes);
                  (ws == [] ==> res == Err(IndexOutOfBounds)) && (ws != [] ==> res.Ok?)
      ensures res.Err? ==> rows == old(rows) && unchanged(rows)
      ensures res.Ok? ==>
                && old(IndexOf(rows, id)).Some?
                && var a := old(rows)[old(IndexOf(rows, id)).value];
                   && SettingsOf(a) == Updated(old(SettingsOf(a)), r)
                   && a.id == old(a.id) && a.providerId == old(a.providerId) && a.status == old(a.status)
                   && a.currentAppointments == old(a.currentAppointments)
                   && a.maxAppointmentsPerSlot == old(a.maxAppointmentsPerSlot)
                   && (forall x | x in old(rows) && x != a :: unchanged(x))
                   && |rows| == |old(rows)| + |WindowsOf(a)|
                   && var slots := rows[|old(rows)|..];
                      && rows == old(rows) + slots && res.value == slots[0]
                      && (forall k :: 0 <= k < |slots| ==>
                            fresh(slots[k]) && slots[k].id.Some? && SlotOf(slots[k], a, WindowsOf(a)[k]))
    {
      var k := IndexOf(rows, id);
      if k.None? {
        return Err(ResourceNotFound);
      }
      var existing := rows[k.value];
      if HasOverlappingSlots(rows, existing.providerId, r.date.value, r.startTime.value, r.endTime.value, Some(id)) {
        return Err(IllegalArgument);
      }
      var u := Updated(SettingsOf(existing), r);
      if |SlotWindows(u.startTime, u.endTime, u.slotDurationMinutes, u.breakDurationMinutes)| == 0 {
        return Err(IndexOutOfBounds);
      }
      var slots := UpdateAndRecut(existing, r);
      assert rows[|old(rows)|..] == slots;
      res := Ok(slots[0]);
    }

    /** The success path of updateAvailability: the row updated in place, then cut into slots again. */
    method UpdateAndRecut(a: ProviderAvailability, r: AvailabilityRequest) returns (slots: seq<ProviderAvailability>)
      requires Valid() && ValidRequest(r)
      requires var u := Updated(SettingsOf(a), r);
               SlotWindows(u.startTime, u.endTime, u.slotDurationMinutes, u.breakDurationMinutes) != []
      modifies this, a
      ensures Valid() && providers == old(providers) && rows == old(rows) + slots
      ensures SettingsOf(a) == Updated(old(SettingsOf(a)), r)
      ensures a.id == old(a.id) && a.providerId == old(a.providerId) && a.status == old(a.status)
      ensures a.currentAppointments == old(a.currentAppointments)
      ensures a.maxAppointmentsPerSlot == old(a.maxAppointmentsPerSlot)
      ensures |slots| == |WindowsOf(a)| > 0
      ensures forall k :: 0 <= k < |slots| ==> fresh(slots[k]) && slots[k].id.Some? && SlotOf(slots[k], a, WindowsOf(a)[k])
    {
      UpdateAvailabilityFromRequest(a, r);
      assert Valid();
      slots := GenerateAppointmentSlots(a);
    }

    /**
     * deleteAvailability: an unknown id is refused; an availability holding
     * appointments is refused with nothing deleted; otherwise its row is removed
     * (the slots cut from it stay).
     */
    method DeleteAvailability(id: Uuid, reason: string) returns (o: Outcome)
      requires Valid()
      modifies this
      ensures Valid() && providers == old(providers)
      ensures IndexOf(old(rows), id).None? ==> o == Fail(ResourceNotFound)
      ensures IndexOf(old(rows), id).Some? && old(rows)[IndexOf(old(rows), id).value].currentAppointments > 0
              ==> o == Fail(IllegalState)
      ensures IndexOf(old(rows), id).Some? && old(rows)[IndexOf(old(rows), id).value].currentAppointments <= 0
              ==> o == Pass
      ensures o.Fail? ==> rows == old(rows)
      ensures o.Pass? ==>
                && IndexOf(old(rows), id).Some?
                && rows == old(rows)[..IndexOf(old(rows), id).value] + old(rows)[IndexOf(old(rows), id).value + 1..]
                && (forall i :: 0 <= i < |rows| ==> rows[i].id != Some(id))
    {
      var k := IndexOf(rows, id);
      if k.None? {
        return Fail(ResourceNotFound);
      }
      if rows[k.value].currentAppointments > 0 {
        return Fail(IllegalState);
      }
      ghost var before := rows;
      rows := rows[..k.value] + rows[k.value + 1..];
      position := map x | x in position && x != id :: if position[x] > k.value then position[x] - 1 else position[x];
      assert forall i :: 0 <= i < |rows| ==> rows[i] == before[if i < k.value then i else i + 1];
      o := Pass;
    }
  }
}
