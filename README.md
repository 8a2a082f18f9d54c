# Health First booking core in Dafny

Health First is a Spring Boot back end for booking medical appointments. Providers
publish availability windows, either single days or recurring ones. Each window is
cut into appointment slots. Patients book, cancel and reschedule appointments in
those slots, and an appointment moves through check-in, start and completion.
Patients and providers register. A patient confirms the email address with a
verification token that is valid for 24 hours. Both kinds of user log in through
Spring Security details objects.

This project models that core and proves properties of the model:

- `calendar.dfy` and `text.dfy`: the parts of `java.time` and `String` the core
  relies on. Times of day are minutes since midnight, and `plusMinutes` wraps at
  midnight. Dates are proleptic Gregorian, with `plusMonths` and `plusYears`
  clamping the day. Case mapping covers ASCII letters.
- `availability.dfy`: the `ProviderAvailability` entity as a class, including its
  appointment counter and overlap test.
- `appointment_slot.dfy`: the `AppointmentSlot` entity as a class. A slot and its
  availability are shared objects.
- `appointments.dfy`: the `Appointment` entity, the status enum, the booking
  reference, and every state-changing operation of `AppointmentServiceImpl`.
- `slot_generation.dfy` and `recurrence.dfy`: the slot-cutting loop and the
  recurrence expansion, each as a function of its inputs.
- `availability_service.dfy`: `ProviderAvailabilityServiceImpl` as a class holding
  the availability table. Its methods create, update and delete availabilities and
  generate slots.
- `availability_repository.dfy`, `slot_repository.dfy` and
  `appointment_repository.dfy`: the JPQL queries, as filters over the rows. Each
  query is characterised exactly: every row it returns matches its WHERE clause,
  and every matching row comes back as often as the table holds it.
- `patients.dfy`, `verification.dfy` and `providers.dfy`: patient registration,
  email verification tokens and provider registration.
- `slot_search.dfy`: `SlotSearchRequest.validateDateRange`.
- `security.dfy`: `PatientDetails`, `UserDetailsImpl`, and the removal of the
  "Bearer " prefix from a token refresh header (section 2.1 of RFC 6750).

Some inputs come from outside the core and become parameters: the clock (`now`,
the milliseconds of a booking reference), random UUID text (the verification token
string, the tail of a booking reference) and password hashes. Generated database
ids come from a counter. A repository `findById` becomes a lookup that returns an
error, or a nullable argument.

## Model

| member | source | states |
|---|---|---|
| Availability.IncrementBelowCapacity | health-first-server/src/main/java/com/healthfirst/healthfirstserver/domain/entity/ProviderAvailability.java:94-101 | below capacity an increment adds exactly one appointment, and the window becomes BOOKED exactly when the count reaches the capacity |
| Availability.IncrementAtCapacity | health-first-server/src/main/java/com/healthfirst/healthfirstserver/domain/entity/ProviderAvailability.java:94-101 | at or above capacity an increment changes neither the count nor the status |
| Availability.DecrementEffect | health-first-server/src/main/java/com/healthfirst/healthfirstserver/domain/entity/ProviderAvailability.java:103-110 | a decrement at zero changes nothing; otherwise it removes exactly one appointment, reopens a BOOKED window and leaves any other status alone |
| Availability.CounterKeepsCapacity | health-first-server/src/main/java/com/healthfirst/healthfirstserver/domain/entity/ProviderAvailability.java:94-110 | both counter operations keep 0 <= currentAppointments <= maxAppointmentsPerSlot |
| Availability.IncrementThenDecrement | health-first-server/src/main/java/com/healthfirst/healthfirstserver/domain/entity/ProviderAvailability.java:94-110 | booking one appointment and releasing it restores the count, and restores an open window exactly |
| Availability.ProviderAvailability.constructor | health-first-server/src/main/java/com/healthfirst/healthfirstserver/domain/entity/ProviderAvailability.java:42-82 | a new availability has the entity's defaults: not recurring, 30-minute slots, no break, AVAILABLE, capacity 1, no appointments, type CONSULTATION |
| Availability.ProviderAvailability.CopyOf | health-first-server/src/main/java/com/healthfirst/healthfirstserver/service/impl/ProviderAvailabilityServiceImpl.java:195-196 | a copy made for a slot keeps the id, every setting, both times and the status of its source |
| Availability.ProviderAvailability.IsAvailable | health-first-server/src/main/java/com/healthfirst/healthfirstserver/domain/entity/ProviderAvailability.java:85-88 | open means AVAILABLE and, when a capacity is set, one more appointment still fits (an increment would take it) |
| Availability.ProviderAvailability.OverlapsWith | health-first-server/src/main/java/com/healthfirst/healthfirstserver/domain/entity/ProviderAvailability.java:90-92 | true exactly when the two closed time windows share a minute |
| Availability.ProviderAvailability.IncrementAppointmentCount | health-first-server/src/main/java/com/healthfirst/healthfirstserver/domain/entity/ProviderAvailability.java:94-101 | the entity's counter and status become the increment of the old ones; nothing else changes |
| Availability.ProviderAvailability.DecrementAppointmentCount | health-first-server/src/main/java/com/healthfirst/healthfirstserver/domain/entity/ProviderAvailability.java:103-110 | the entity's counter and status become the decrement of the old ones; nothing else changes |
| Slots.AppointmentSlot.constructor | health-first-server/src/main/java/com/healthfirst/healthfirstserver/domain/entity/AppointmentSlot.java:22-53 | a new slot belongs to its availability, starts AVAILABLE, with no patient, reference, notes or cancellation reason |
| Slots.AppointmentSlot.Book | health-first-server/src/main/java/com/healthfirst/healthfirstserver/domain/entity/AppointmentSlot.java:68-76 | an unavailable slot throws IllegalStateException and nothing changes; otherwise it is BOOKED for the patient under the reference and its availability counts one more appointment |
| Slots.AppointmentSlot.Cancel | health-first-server/src/main/java/com/healthfirst/healthfirstserver/domain/entity/AppointmentSlot.java:78-87 | a BOOKED slot is CANCELLED with the reason and its availability counts one fewer; an AVAILABLE slot is CANCELLED with the reason; any other slot is untouched; afterwards the slot is neither booked nor available |
| Slots.AppointmentSlot.SetAvailable | health-first-server/src/main/java/com/healthfirst/healthfirstserver/service/impl/AppointmentServiceImpl.java:155-200 | the slot is reopened (AVAILABLE) or taken (BOOKED), as the service's setAvailable(true/false) calls intend |
| Slots.AppointmentSlot.Reschedule | health-first-server/src/main/java/com/healthfirst/healthfirstserver/domain/entity/AppointmentSlot.java:89-95 | a CANCELLED slot throws IllegalStateException and keeps its times; any other slot takes the new times |
| Slots.SharedCapacity | health-first-server/src/main/java/com/healthfirst/healthfirstserver/domain/entity/AppointmentSlot.java:68-76 | two slots of one availability with capacity 1 share it: booking the first makes the availability BOOKED and no longer available for the second |
| Appointments.ValueOf | health-first-server/src/main/java/com/healthfirst/healthfirstserver/domain/enums/AppointmentStatus.java:6-51 | valueOf gives the constant whose name is exactly the argument, or IllegalArgumentException when no constant has that name |
| Appointments.ValueOfName | health-first-server/src/main/java/com/healthfirst/healthfirstserver/domain/enums/AppointmentStatus.java:6-51 | every constant's name gives that constant back (the names are distinct) |
| Appointments.StatusNameUpper | health-first-server/src/main/java/com/healthfirst/healthfirstserver/domain/enums/AppointmentStatus.java:6-51 | no constant's name holds a lower-case letter |
| Appointments.ParseStatus | health-first-server/src/main/java/com/healthfirst/healthfirstserver/service/impl/AppointmentServiceImpl.java:214 | a status argument names the constant whose name is its upper-cased form, or is IllegalArgumentException |
| Appointments.ParseStatusName | health-first-server/src/main/java/com/healthfirst/healthfirstserver/service/impl/AppointmentServiceImpl.java:214 | each constant's name, whatever its case, parses back to that constant |
| Appointments.CancelledIsFinal | health-first-server/src/main/java/com/healthfirst/healthfirstserver/service/impl/AppointmentServiceImpl.java:140-335 | once an appointment is CANCELLED, each of the six operations modelled as steps (check in, start, complete, cancel, reschedule, send a reminder), in any order, either throws or leaves it CANCELLED; UpdateAppointmentStatus, whose transition rule is a parameter, is not among them |
| Appointments.CompletionPath | health-first-server/src/main/java/com/healthfirst/healthfirstserver/service/impl/AppointmentServiceImpl.java:272-335 | an appointment reaches COMPLETED only through completeAppointment, from before IN_PROGRESS only through startAppointment too, and from before CHECKED_IN only through checkIn too |
| Appointments.Appointment.constructor | health-first-server/src/main/java/com/healthfirst/healthfirstserver/service/impl/AppointmentServiceImpl.java:68-78 | a new appointment holds the booking reference, patient, provider, type, times, status, reason, notes and symptoms given, and no id, slot or later timestamps |
| Appointments.FindAppointment | health-first-server/src/main/java/com/healthfirst/healthfirstserver/service/impl/AppointmentServiceImpl.java:142-143 | findById: the row with that id, or ResourceNotFoundException exactly when no row has it |
| Appointments.AppointmentRepository.constructor | health-first-server/src/main/java/com/healthfirst/healthfirstserver/service/impl/AppointmentServiceImpl.java:85 | an empty appointment table |
| Appointments.AppointmentRepository.Save | health-first-server/src/main/java/com/healthfirst/healthfirstserver/service/impl/AppointmentServiceImpl.java:85 | save of a new appointment: it gets the next id and is appended, every saved row keeps an id below the next one, and findById then returns it |
| Appointments.BookingReference | health-first-server/src/main/java/com/healthfirst/healthfirstserver/service/impl/AppointmentServiceImpl.java:344-347 | a reference is "APT", the clock reading in decimal digits, '-', then eight characters with no lower-case letter |
| Appointments.BookingReferenceTime | health-first-server/src/main/java/com/healthfirst/healthfirstserver/service/impl/AppointmentServiceImpl.java:344-347 | the digits of a booking reference read back as the clock reading it was made from |
| Appointments.BookAppointment | health-first-server/src/main/java/com/healthfirst/healthfirstserver/service/impl/AppointmentServiceImpl.java:47-91 | a slot the lookup did not find: ResourceNotFoundException, checked first; unavailable slot: IllegalStateException; unknown patient or provider: ResourceNotFoundException; on any error nothing changes; otherwise a new BOOKED appointment with the slot's times and the request's details, the slot booked under the same reference, its availability counting one more, no link from appointment to slot, and the appointment saved under the next id, where findById finds it |
| Appointments.BookAppointmentLinked | health-first-server/src/main/java/com/healthfirst/healthfirstserver/service/impl/AppointmentServiceImpl.java:47-91 | as bookAppointment, including the missing-slot error and the save, and the new appointment is linked to the slot it booked |
| Appointments.CancelAppointment | health-first-server/src/main/java/com/healthfirst/healthfirstserver/service/impl/AppointmentServiceImpl.java:140-166 | an already CANCELLED appointment throws IllegalStateException and nothing changes; otherwise it becomes CANCELLED with the reason and time, and a linked slot is reopened; of that slot only the status may change |
| Appointments.RescheduleAppointment | health-first-server/src/main/java/com/healthfirst/healthfirstserver/service/impl/AppointmentServiceImpl.java:170-208 | a new slot the lookup did not find: ResourceNotFoundException; an unavailable one: IllegalStateException; on either error nothing changes; otherwise the old slot is reopened, the appointment moves to the new slot's times with the reason and time, keeps its status, and the new slot is taken; of the two slots only the statuses may change |
| Appointments.CheckInAppointment | health-first-server/src/main/java/com/healthfirst/healthfirstserver/service/impl/AppointmentServiceImpl.java:272-289 | succeeds exactly for a BOOKED or CONFIRMED appointment, which becomes CHECKED_IN with the time; otherwise IllegalStateException and nothing changes |
| Appointments.StartAppointment | health-first-server/src/main/java/com/healthfirst/healthfirstserver/service/impl/AppointmentServiceImpl.java:293-309 | succeeds exactly for a CHECKED_IN appointment, which becomes IN_PROGRESS with the time; otherwise IllegalStateException and nothing changes |
| Appointments.CompleteAppointment | health-first-server/src/main/java/com/healthfirst/healthfirstserver/service/impl/AppointmentServiceImpl.java:313-333 | succeeds exactly for an IN_PROGRESS appointment, which becomes COMPLETED with the time and the new notes if any; otherwise IllegalStateException and nothing changes |
| Appointments.SendAppointmentReminder | health-first-server/src/main/java/com/healthfirst/healthfirstserver/service/impl/AppointmentServiceImpl.java:257-268 | a reminder goes out exactly for a BOOKED or CONFIRMED appointment; otherwise IllegalStateException |
| Appointments.UpdateAppointmentStatus | health-first-server/src/main/java/com/healthfirst/healthfirstserver/service/impl/AppointmentServiceImpl.java:212-254 | the status name is parsed before the lookup: an unknown name is IllegalArgumentException even for an unknown id; then an appointment the lookup did not find is ResourceNotFoundException and a rejected transition IllegalStateException; every error changes nothing; an accepted transition always succeeds and sets the status named (any case), stamping the check-in, start or completion time with now for those statuses and keeping the other times |
| Appointments.BookThenCancelKeepsSlotBooked | health-first-server/src/main/java/com/healthfirst/healthfirstserver/service/impl/AppointmentServiceImpl.java:47-166 | as written, booking a slot and cancelling the appointment leaves the slot BOOKED |
| Appointments.BookThenCancelReopensSlot | health-first-server/src/main/java/com/healthfirst/healthfirstserver/service/impl/AppointmentServiceImpl.java:47-166 | with the intended link, booking a slot and cancelling the appointment reopens the slot |
| AppointmentQueries.InsertByKey | health-first-server/src/main/java/com/healthfirst/healthfirstserver/repository/AppointmentRepository.java:70 | inserting into a start-ordered list keeps it ordered and adds exactly the new row |
| AppointmentQueries.SortByKey | health-first-server/src/main/java/com/healthfirst/healthfirstserver/repository/AppointmentRepository.java:70 | ORDER BY: the result is a permutation of the input, ordered by key |
| AppointmentQueries.SortByStart | health-first-server/src/main/java/com/healthfirst/healthfirstserver/repository/AppointmentRepository.java:70 | ORDER BY a.startTime: a permutation of the input rows (same rows, same multiplicities), ordered by start time |
| AppointmentQueries.RowsOfPermutation | health-first-server/src/main/java/com/healthfirst/healthfirstserver/repository/AppointmentRepository.java:70 | reordering the keyed rows reorders the rows: a permutation of keyed rows gives a permutation of rows |
| AppointmentQueries.RowsIn | health-first-server/src/main/java/com/healthfirst/healthfirstserver/repository/AppointmentRepository.java:66-75 | the WHERE clause of both range queries, for a patient or a provider: every row returned is that party's and starts in [start, end), and every such row comes back as often as the table holds it |
| AppointmentQueries.FindByPatientIdAndStartTimeBetween | health-first-server/src/main/java/com/healthfirst/healthfirstserver/repository/AppointmentRepository.java:66-75 | every row returned is the patient's and starts in [start, end), and every such row comes back as often as the table holds it, ordered by start time |
| AppointmentQueries.FindByProviderIdAndStartTimeBetween | health-first-server/src/main/java/com/healthfirst/healthfirstserver/repository/AppointmentRepository.java:86-115 | every row returned is the provider's and starts in [start, end), and every such row comes back as often as the table holds it, ordered by start time |
| AppointmentQueries.HasOverlappingAppointments | health-first-server/src/main/java/com/healthfirst/healthfirstserver/repository/AppointmentRepository.java:126-135 | true exactly when some appointment of the provider, other than the excluded one, strictly overlaps the window; windows that only touch do not overlap |
| AppointmentQueries.UpcomingRows | health-first-server/src/main/java/com/healthfirst/healthfirstserver/repository/AppointmentRepository.java:145-151 | every row returned is the patient's, starts after now and is not CANCELLED, COMPLETED or NO_SHOW; every such row comes back as often as the table holds it |
| AppointmentQueries.FindUpcomingAppointments | health-first-server/src/main/java/com/healthfirst/healthfirstserver/repository/AppointmentRepository.java:145-156 | those upcoming appointments, each as often as the table holds it, ordered by start time |
| AvailabilityQueries.FindOverlappingSlots | health-first-server/src/main/java/com/healthfirst/healthfirstserver/repository/ProviderAvailabilityRepository.java:25-34 | every row returned is the provider's, on the date, with a closed window meeting [startTime, endTime] or recurring until on or after the date; every such row comes back as often as the table holds it |
| AvailabilityQueries.OverlapQueryInclusive | health-first-server/src/main/java/com/healthfirst/healthfirstserver/repository/ProviderAvailabilityRepository.java:25-34 | an availability ending when the new window starts, or a recurring one, is reported as overlapping |
| AvailabilityQueries.FindAvailableSlotsInRange | health-first-server/src/main/java/com/healthfirst/healthfirstserver/repository/ProviderAvailabilityRepository.java:36-44 | every row returned is the provider's, AVAILABLE, dated within [startDate, endDate], with room or no capacity, and open; every such row comes back as often as the table holds it |
| AvailabilityQueries.FindProvidersWithAvailabilityInRange | health-first-server/src/main/java/com/healthfirst/healthfirstserver/repository/ProviderAvailabilityRepository.java:46-52 | DISTINCT: each provider with such an availability in the range, listed once |
| AvailabilityQueries.ProvidersOfAvailableRows | health-first-server/src/main/java/com/healthfirst/healthfirstserver/repository/ProviderAvailabilityRepository.java:46-52 | every provider owning an open availability in the range is listed |
| SlotQueries.FindAvailableSlotsByAvailabilityAndTimeRange | health-first-server/src/main/java/com/healthfirst/healthfirstserver/repository/AppointmentSlotRepository.java:28-36 | every slot returned is an AVAILABLE slot of the availability lying wholly within [startTime, endTime], so one sticking out of the range is not returned; every such row comes back as often as the table holds it |
| SlotQueries.FindAvailableSlotsByProviderAndTimeRange | health-first-server/src/main/java/com/healthfirst/healthfirstserver/repository/AppointmentSlotRepository.java:38-46 | every slot returned is an AVAILABLE slot of the provider lying wholly within [startTime, endTime]; every such row comes back as often as the table holds it |
| SlotQueries.FindUpcomingBookedSlotsForPatient | health-first-server/src/main/java/com/healthfirst/healthfirstserver/repository/AppointmentSlotRepository.java:48-54 | every slot returned is a BOOKED slot of the patient starting at or after the given time; every such row comes back as often as the table holds it |
| SlotQueries.HasConflictingAppointments | health-first-server/src/main/java/com/healthfirst/healthfirstserver/repository/AppointmentSlotRepository.java:61-69 | true exactly when a BOOKED slot of the provider strictly overlaps the window, so available or cancelled slots never conflict |
| SlotQueries.BookingCreatesConflict | health-first-server/src/main/java/com/healthfirst/healthfirstserver/repository/AppointmentSlotRepository.java:61-69 | booking an available slot that overlaps the window creates a conflict |
| SlotGeneration.LoopNeverEndsAt2359 | health-first-server/src/main/java/com/healthfirst/healthfirstserver/service/impl/ProviderAvailabilityServiceImpl.java:190-208 | as written, an availability ending at 23:59 makes every round of the loop emit a slot, so the loop never stops |
| SlotGeneration.LoopNeverEndsAfterWrap | health-first-server/src/main/java/com/healthfirst/healthfirstserver/service/impl/ProviderAvailabilityServiceImpl.java:190-208 | as written, the loop also never stops when the wrapped clock keeps landing at or below the end time: end 23:30, 30-minute slots and a 15-minute break, from 22:00 |
| SlotGeneration.OvernightWindow | health-first-server/src/main/java/com/healthfirst/healthfirstserver/service/impl/ProviderAvailabilityServiceImpl.java:190-208 | a window from 23:50 to 00:30 with 30-minute slots: the loop as written emits the one wrapped slot 23:50 to 00:20, the same-day loop none |
| SlotGeneration.SlotWindowsShape | health-first-server/src/main/java/com/healthfirst/healthfirstserver/service/impl/ProviderAvailabilityServiceImpl.java:190-208 | slot k starts k rounds of slot length plus break after the start time, lasts exactly the slot length and ends by the end time |
| SlotGeneration.SlotWindowsWithin | health-first-server/src/main/java/com/healthfirst/healthfirstserver/service/impl/ProviderAvailabilityServiceImpl.java:190-208 | every slot starts no earlier than the availability, lasts exactly the slot length and ends by the end time |
| SlotGeneration.SlotWindowsMaximal | health-first-server/src/main/java/com/healthfirst/healthfirstserver/service/impl/ProviderAvailabilityServiceImpl.java:192-193 | the slots stop only when one more slot would end after the end time |
| SlotGeneration.SlotWindowsSpacing | health-first-server/src/main/java/com/healthfirst/healthfirstserver/service/impl/ProviderAvailabilityServiceImpl.java:206-207 | consecutive slots are separated by exactly the break |
| SlotGeneration.LoopAgreesBeforeMidnight | health-first-server/src/main/java/com/healthfirst/healthfirstserver/service/impl/ProviderAvailabilityServiceImpl.java:190-208 | when no slot can pass midnight, the loop as written gives the same slots as the corrected one |
| Recurrence.NextOccurrence | health-first-server/src/main/java/com/healthfirst/healthfirstserver/service/impl/ProviderAvailabilityServiceImpl.java:300-315 | the next date is strictly later; with no pattern or DAILY it is the next day |
| Recurrence.NextOccurrenceApproaches | health-first-server/src/main/java/com/healthfirst/healthfirstserver/service/impl/ProviderAvailabilityServiceImpl.java:268-278 | each step moves the current date closer to the end date, so the loop ends |
| Recurrence.Occurrences | health-first-server/src/main/java/com/healthfirst/healthfirstserver/service/impl/ProviderAvailabilityServiceImpl.java:264-280 | the dates the loop keeps lie between the start and the end date, in strictly increasing order |
| Recurrence.OccurrencesMatch | health-first-server/src/main/java/com/healthfirst/healthfirstserver/service/impl/ProviderAvailabilityServiceImpl.java:270 | every date kept matches the pattern anchored at the request's date |
| Recurrence.OccurrencesAdvance | health-first-server/src/main/java/com/healthfirst/healthfirstserver/service/impl/ProviderAvailabilityServiceImpl.java:267-276 | one round of the loop keeps the dates already kept, followed by the dates still to come, equal to all the dates of the walk; the current date joins the kept ones exactly when it matches |
| Recurrence.OccurrencesEmptyAfterEnd | health-first-server/src/main/java/com/healthfirst/healthfirstserver/service/impl/ProviderAvailabilityServiceImpl.java:268 | a start after the end date gives no dates |
| Recurrence.DailyCoversRange | health-first-server/src/main/java/com/healthfirst/healthfirstserver/service/impl/ProviderAvailabilityServiceImpl.java:289-290 | DAILY keeps every date from the start to the end date |
| Recurrence.NoPatternOnlyStartDate | health-first-server/src/main/java/com/healthfirst/healthfirstserver/service/impl/ProviderAvailabilityServiceImpl.java:284-285 | without a pattern only the start date itself is kept |
| Recurrence.TwoDailyOccurrences | health-first-server/src/main/java/com/healthfirst/healthfirstserver/service/impl/ProviderAvailabilityServiceImpl.java:289-307 | DAILY from a date to the next day keeps those two dates |
| Recurrence.MonthlyFromThe31st | health-first-server/src/main/java/com/healthfirst/healthfirstserver/service/impl/ProviderAvailabilityServiceImpl.java:293-311 | MONTHLY from January 31 steps through February 28 and March 28, which no longer match: up to April 30 only January 31 is kept |
| AvailabilityService.UpdateFieldByField | health-first-server/src/main/java/com/healthfirst/healthfirstserver/service/impl/ProviderAvailabilityServiceImpl.java:357-433 | each field left null in the request keeps its value; isRecurring is always overwritten; the slot length changes only to a positive value, the break only to a non-negative one |
| AvailabilityService.UpdateIdempotent | health-first-server/src/main/java/com/healthfirst/healthfirstserver/service/impl/ProviderAvailabilityServiceImpl.java:357-433 | applying the same update twice has the effect of applying it once |
| AvailabilityService.UpdateAvailabilityFromRequest | health-first-server/src/main/java/com/healthfirst/healthfirstserver/service/impl/ProviderAvailabilityServiceImpl.java:357-433 | the availability's settings become the field-by-field update of the old ones |
| AvailabilityService.UpdateWindowFields | health-first-server/src/main/java/com/healthfirst/healthfirstserver/service/impl/ProviderAvailabilityServiceImpl.java:359-370 | date, start, end and time zone change only where the request gives a value |
| AvailabilityService.UpdateRecurrenceFields | health-first-server/src/main/java/com/healthfirst/healthfirstserver/service/impl/ProviderAvailabilityServiceImpl.java:373-387 | isRecurring is copied; pattern and end date change only where given; slot length only when positive; break only when non-negative |
| AvailabilityService.UpdateDescriptionFields | health-first-server/src/main/java/com/healthfirst/healthfirstserver/service/impl/ProviderAvailabilityServiceImpl.java:390-432 | type, location (merged field by field, type upper-cased), special requirements and notes change only where given |
| AvailabilityService.CreateAgreesWithUpdate | health-first-server/src/main/java/com/healthfirst/healthfirstserver/service/impl/ProviderAvailabilityServiceImpl.java:317-433 | creating from a request gives the same settings as applying that request as an update to an empty availability |
| AvailabilityService.CreateSingleAvailability | health-first-server/src/main/java/com/healthfirst/healthfirstserver/service/impl/ProviderAvailabilityServiceImpl.java:317-355 | a new unsaved availability for the provider with the request's settings, AVAILABLE, no appointments, capacity 1 |
| AvailabilityService.SetRequestFields | health-first-server/src/main/java/com/healthfirst/healthfirstserver/service/impl/ProviderAvailabilityServiceImpl.java:320-343 | the request's fields are copied, the status set to AVAILABLE and the count to zero, and the location built when one is given |
| AvailabilityService.GenerateRecurringAvailabilitiesAsWritten | health-first-server/src/main/java/com/healthfirst/healthfirstserver/service/impl/ProviderAvailabilityServiceImpl.java:261-281 | as written, one new availability per matching date, every one of them dated on the request's own date |
| AvailabilityService.GenerateRecurringAvailabilities | health-first-server/src/main/java/com/healthfirst/healthfirstserver/service/impl/ProviderAvailabilityServiceImpl.java:261-281 | one distinct new availability per matching date, dated on that date, in calendar order |
| AvailabilityService.RecurringDailyTwoDays | health-first-server/src/main/java/com/healthfirst/healthfirstserver/service/impl/ProviderAvailabilityServiceImpl.java:261-281 | for a DAILY request over two days, both availabilities as written carry the first date, while the intended second one carries the next day |
| AvailabilityService.IndexOf | health-first-server/src/main/java/com/healthfirst/healthfirstserver/service/impl/ProviderAvailabilityServiceImpl.java:89-90 | findById: the position of the row with that id, or none exactly when no row has it |
| AvailabilityService.HasOverlappingSlots | health-first-server/src/main/java/com/healthfirst/healthfirstserver/service/impl/ProviderAvailabilityServiceImpl.java:215-227 | true exactly when the overlap query returns a row other than the excluded one |
| AvailabilityService.WithoutId | health-first-server/src/main/java/com/healthfirst/healthfirstserver/service/impl/ProviderAvailabilityServiceImpl.java:220-224 | the filter drops exactly the rows with the excluded id |
| AvailabilityService.ExclusionOnlyRemoves | health-first-server/src/main/java/com/healthfirst/healthfirstserver/service/impl/ProviderAvailabilityServiceImpl.java:215-227 | excluding an id never adds a conflict, and when every overlapping row has that id there is none |
| AvailabilityService.ProviderAvailabilityService.constructor | health-first-server/src/main/java/com/healthfirst/healthfirstserver/service/impl/ProviderAvailabilityServiceImpl.java:40-45 | an empty table for the known providers |
| AvailabilityService.ProviderAvailabilityService.SaveNew | health-first-server/src/main/java/com/healthfirst/healthfirstserver/service/impl/ProviderAvailabilityServiceImpl.java:73 | save: the row gets the next id and is appended; nothing else changes |
| AvailabilityService.ProviderAvailabilityService.NewSlot | health-first-server/src/main/java/com/healthfirst/healthfirstserver/service/impl/ProviderAvailabilityServiceImpl.java:195-201 | a new unsaved copy of the availability with the window's times and AVAILABLE status |
| AvailabilityService.ProviderAvailabilityService.SaveNewSlot | health-first-server/src/main/java/com/healthfirst/healthfirstserver/service/impl/ProviderAvailabilityServiceImpl.java:194-210 | the slot for one window, a new copy of the availability with the window's times and AVAILABLE status, is given an id and appended to the table |
| AvailabilityService.ProviderAvailabilityService.GenerateAppointmentSlots | health-first-server/src/main/java/com/healthfirst/healthfirstserver/service/impl/ProviderAvailabilityServiceImpl.java:188-211 | one saved slot per window of the availability, in order, each a copy with that window's times and AVAILABLE; the table gains exactly those slots |
| AvailabilityService.ProviderAvailabilityService.CreateAvailability | health-first-server/src/main/java/com/healthfirst/healthfirstserver/service/impl/ProviderAvailabilityServiceImpl.java:49-84 | uses the corrected recurrence (AvailabilityService.GenerateRecurringAvailabilities, second finding): unknown provider: ResourceNotFoundException; an overlap on the request's date: IllegalArgumentException; otherwise it succeeds; on error nothing changes; on success one new availability per request date, dated on that date and built from the request, is appended, followed by their slots, cut window by window and each fitting the request, which are returned |
| AvailabilityService.ProviderAvailabilityService.SaveRequestAvailabilities | health-first-server/src/main/java/com/healthfirst/healthfirstserver/service/impl/ProviderAvailabilityServiceImpl.java:60-73 | uses the corrected recurrence (AvailabilityService.GenerateRecurringAvailabilities, second finding): one new availability per request date, dated on that date and built from the request, all appended to the table in order |
| AvailabilityService.ProviderAvailabilityService.SaveAll | health-first-server/src/main/java/com/healthfirst/healthfirstserver/service/impl/ProviderAvailabilityServiceImpl.java:73 | saveAll: the rows get consecutive ids and are appended in order |
| AvailabilityService.ProviderAvailabilityService.GenerateSlotsForAll | health-first-server/src/main/java/com/healthfirst/healthfirstserver/service/impl/ProviderAvailabilityServiceImpl.java:76-79 | the slots of every created availability, in order: for availability j and window k of the request's cutting, the slot at that position is a new saved copy of availability j with window k's times; the table gains exactly those slots |
| AvailabilityService.ProviderAvailabilityService.CutNext | health-first-server/src/main/java/com/healthfirst/healthfirstserver/service/impl/ProviderAvailabilityServiceImpl.java:76-79 | one round of that loop: the slots of the next availability are saved and extend the cut list by its windows |
| AvailabilityService.CutsWithin | health-first-server/src/main/java/com/healthfirst/healthfirstserver/service/impl/ProviderAvailabilityServiceImpl.java:76-79 | the cut list of n availabilities has n times as many entries as there are windows, each naming one of the availabilities and one of the windows |
| AvailabilityService.BuiltCutBy | health-first-server/src/main/java/com/healthfirst/healthfirstserver/service/impl/ProviderAvailabilityServiceImpl.java:60-79 | availabilities created for a request all share the request's times, slot length and break |
| AvailabilityService.CutSlotsFit | health-first-server/src/main/java/com/healthfirst/healthfirstserver/service/impl/ProviderAvailabilityServiceImpl.java:76-79 | every slot cut from availabilities created for a request has the request's provider, one of its dates, its slot length, and lies inside its window |
| AvailabilityService.ProviderAvailabilityService.UpdateAvailability | health-first-server/src/main/java/com/healthfirst/healthfirstserver/service/impl/ProviderAvailabilityServiceImpl.java:88-108 | unknown id: ResourceNotFoundException; an overlap with another availability: IllegalArgumentException; a cutting with no slot: IndexOutOfBoundsException; otherwise it succeeds; on error nothing changes; on success the row's settings become the update of the old ones, its id, provider, status and counters are kept, no other availability changes, and exactly the regenerated slots are appended, the first of them returned |
| AvailabilityService.ProviderAvailabilityService.UpdateAndRecut | health-first-server/src/main/java/com/healthfirst/healthfirstserver/service/impl/ProviderAvailabilityServiceImpl.java:97-105 | the availability's settings become the update of the old ones, its id, provider, status and counters are kept, and one new saved slot per window of the updated cutting is appended |
| AvailabilityService.ProviderAvailabilityService.DeleteAvailability | health-first-server/src/main/java/com/healthfirst/healthfirstserver/service/impl/ProviderAvailabilityServiceImpl.java:112-130 | unknown id: ResourceNotFoundException; booked appointments: IllegalStateException, both changing nothing; otherwise it succeeds and exactly that row is removed, no row keeping the id |
| SlotSearch.RangeOf | health-first-server/src/main/java/com/healthfirst/healthfirstserver/domain/dto/SlotSearchRequest.java:36-47 | a given date is a one-day range; otherwise both bounds are needed and the start may not be after the end; anything else is IllegalArgumentException; an accepted range is ordered |
| SlotSearch.EqualBoundsAccepted | health-first-server/src/main/java/com/healthfirst/healthfirstserver/domain/dto/SlotSearchRequest.java:44-46 | equal bounds are a valid one-day range; a start after the end never is |
| SlotSearch.RangeIsStable | health-first-server/src/main/java/com/healthfirst/healthfirstserver/domain/dto/SlotSearchRequest.java:36-47 | writing an accepted range back into the bounds gives the same range |
| SlotSearch.SlotSearchRequest.constructor | health-first-server/src/main/java/com/healthfirst/healthfirstserver/domain/dto/SlotSearchRequest.java:13-17 | the three date fields hold the values given |
| SlotSearch.SlotSearchRequest.ValidateDateRange | health-first-server/src/main/java/com/healthfirst/healthfirstserver/domain/dto/SlotSearchRequest.java:36-47 | on error nothing changes; otherwise the bounds become the searched range and the request is settled; a settled request passes again unchanged |
| Patients.IsPasswordMatching | health-first-server/src/main/java/com/healthfirst/healthfirstserver/payload/request/patient/PatientRegistrationRequest.java:62-68 | false when either password is missing, otherwise true exactly when they are equal |
| Patients.PasswordMatchingSymmetric | health-first-server/src/main/java/com/healthfirst/healthfirstserver/payload/request/patient/PatientRegistrationRequest.java:62-68 | the check does not depend on which of the two fields is which |
| Patients.IsAtLeast13YearsOld | health-first-server/src/main/java/com/healthfirst/healthfirstserver/payload/request/patient/PatientRegistrationRequest.java:70-76 | true exactly when a date of birth is given and the thirteenth birthday is on or before today |
| Patients.OldEnoughStaysOldEnough | health-first-server/src/main/java/com/healthfirst/healthfirstserver/payload/request/patient/PatientRegistrationRequest.java:70-76 | once old enough, a patient stays old enough on every later day |
| Patients.ThirteenthBirthday | health-first-server/src/main/java/com/healthfirst/healthfirstserver/payload/request/patient/PatientRegistrationRequest.java:70-76 | the check passes on the thirteenth birthday and fails the day before |
| Patients.MappedPatient | health-first-server/src/main/java/com/healthfirst/healthfirstserver/service/impl/PatientServiceImpl.java:61-79 | the stored patient has the email lower-cased, the phone number and birth date copied, optional parts kept exactly when given, active and unverified |
| Patients.Patient.MarkEmailVerified | health-first-server/src/main/java/com/healthfirst/healthfirstserver/service/VerificationService.java:62-64 | the patient becomes email-verified and active |
| Patients.Patient.constructor | health-first-server/src/main/java/com/healthfirst/healthfirstserver/service/impl/PatientServiceImpl.java:61-79 | a new unsaved patient with the columns the registration maps |
| Patients.AppendRow | health-first-server/src/main/java/com/healthfirst/healthfirstserver/domain/entity/Patient.java:70-74 | saving a row with a new id, email and phone number keeps ids distinct and the email and phone columns unique |
| Patients.PatientRepository.constructor | health-first-server/src/main/java/com/healthfirst/healthfirstserver/repository/PatientRepository.java:11-20 | an empty patients table |
| Patients.PatientRepository.FindByEmail | health-first-server/src/main/java/com/healthfirst/healthfirstserver/repository/PatientRepository.java:17 | the position of the row with that email, or none exactly when no row has it |
| Patients.PatientRepository.Save | health-first-server/src/main/java/com/healthfirst/healthfirstserver/service/impl/PatientServiceImpl.java:41 | the row gets the next id and is appended; the unique columns stay unique |
| Patients.RegistrationCheckAsWritten | health-first-server/src/main/java/com/healthfirst/healthfirstserver/service/impl/PatientServiceImpl.java:28-35 | as written, a registration passes exactly when the raw email and the phone number are new; otherwise DuplicateResourceException |
| Patients.RegistrationCheck | health-first-server/src/main/java/com/healthfirst/healthfirstserver/service/impl/PatientServiceImpl.java:28-35 | a registration passes exactly when the lower-cased email and the phone number are new; otherwise DuplicateResourceException |
| Patients.AcceptedRegistrationIsNew | health-first-server/src/main/java/com/healthfirst/healthfirstserver/service/impl/PatientServiceImpl.java:26-79 | a registration the corrected check accepts stores an email and a phone number no row has |
| Patients.CaseVariantEmailPassesCheck | health-first-server/src/main/java/com/healthfirst/healthfirstserver/service/impl/PatientServiceImpl.java:28-65 | "A@b" passes the check as written although "a@b" is stored, and it is then stored again; the corrected check rejects it |
| Patients.PatientService.constructor | health-first-server/src/main/java/com/healthfirst/healthfirstserver/service/impl/PatientServiceImpl.java:21-22 | the service works on the repository given |
| Patients.PatientService.RegisterPatient | health-first-server/src/main/java/com/healthfirst/healthfirstserver/service/impl/PatientServiceImpl.java:26-59 | uses the corrected duplicate check (Patients.RegistrationCheck, on the email as stored): a duplicate is DuplicateResourceException and nothing changes; otherwise the mapped patient is saved under the next id and the response reports it, unverified |
| Verification.ExpiryIsMonotone | health-first-server/src/main/java/com/healthfirst/healthfirstserver/domain/entity/VerificationToken.java:40-42 | once expired, a token stays expired |
| Verification.ValidForADay | health-first-server/src/main/java/com/healthfirst/healthfirstserver/domain/entity/VerificationToken.java:20-47 | a token created at some time is valid exactly until 24 hours later |
| Verification.VerificationToken.constructor | health-first-server/src/main/java/com/healthfirst/healthfirstserver/service/VerificationService.java:34-38 | the token string, patient and type given, and no expiry yet |
| Verification.VerificationToken.OnCreate | health-first-server/src/main/java/com/healthfirst/healthfirstserver/domain/entity/VerificationToken.java:44-47 | the expiry is set 24 hours ahead: the token is not expired at that instant and is one second later |
| Verification.KeptTokens | health-first-server/src/main/java/com/healthfirst/healthfirstserver/service/VerificationService.java:30 | exactly the tokens not of that patient and type remain |
| Verification.NewToken | health-first-server/src/main/java/com/healthfirst/healthfirstserver/service/VerificationService.java:33-40 | a new token for the patient and type that expires 24 hours after now |
| Verification.ReplaceInvariants | health-first-server/src/main/java/com/healthfirst/healthfirstserver/service/VerificationService.java:28-46 | replacing a patient's token of one type keeps every token well formed and at most one per patient and type |
| Verification.RemoveInvariants | health-first-server/src/main/java/com/healthfirst/healthfirstserver/service/VerificationService.java:68 | removing a token keeps both invariants |
| Verification.VerificationService.constructor | health-first-server/src/main/java/com/healthfirst/healthfirstserver/service/VerificationService.java:23-25 | no tokens and no emails sent |
| Verification.VerificationService.CreateVerificationToken | health-first-server/src/main/java/com/healthfirst/healthfirstserver/service/VerificationService.java:28-46 | the patient's older tokens of that type are removed, the new token is the only one left for them, expiring in 24 hours, and an email goes out exactly for EMAIL_VERIFICATION |
| Verification.VerificationService.VerifyEmail | health-first-server/src/main/java/com/healthfirst/healthfirstserver/service/VerificationService.java:49-71 | unknown token: InvalidTokenException; expired: ExpiredTokenException; wrong type: InvalidTokenException; on error nothing changes; otherwise the patient becomes verified and active, the token is removed and no other patient changes |
| Verification.VerificationService.VerifyEmailTwice | health-first-server/src/main/java/com/healthfirst/healthfirstserver/service/VerificationService.java:49-71 | a token verifies at most once: the second use is InvalidTokenException |
| Verification.VerificationService.ResendVerificationEmail | health-first-server/src/main/java/com/healthfirst/healthfirstserver/service/VerificationService.java:74-84 | unknown email: ResourceNotFoundException; already verified: IllegalStateException; otherwise a fresh EMAIL_VERIFICATION token replaces the patient's old ones and an email goes out |
| Providers.FirstFailure | health-first-server/src/main/java/com/healthfirst/healthfirstserver/service/ProviderService.java:51-76 | checks run in order: pass exactly when none fails, otherwise the error of a failing check |
| Providers.ValidateAsWritten | health-first-server/src/main/java/com/healthfirst/healthfirstserver/service/ProviderService.java:51-76 | as written, passes exactly when the raw email, phone and raw licence are new, the passwords match and the experience is not negative |
| Providers.Validate | health-first-server/src/main/java/com/healthfirst/healthfirstserver/service/ProviderService.java:51-76 | passes exactly when the lower-cased email, the phone and the upper-cased licence are new, the passwords match and the experience is not negative |
| Providers.ValidationReportsFirstFailure | health-first-server/src/main/java/com/healthfirst/healthfirstserver/service/ProviderService.java:51-76 | both validations report the error of the first failing check in the source's order |
| Providers.TakenEmailComesFirst | health-first-server/src/main/java/com/healthfirst/healthfirstserver/service/ProviderService.java:53-55 | a taken email is ResourceAlreadyExistsException whatever else is wrong |
| Providers.MismatchAfterUniqueness | health-first-server/src/main/java/com/healthfirst/healthfirstserver/service/ProviderService.java:53-70 | with new unique columns, mismatched passwords are ValidationException |
| Providers.ExperienceCheckedLast | health-first-server/src/main/java/com/healthfirst/healthfirstserver/service/ProviderService.java:73-75 | negative experience is BadRequestException exactly when every earlier check passes |
| Providers.BuiltProvider | health-first-server/src/main/java/com/healthfirst/healthfirstserver/service/ProviderService.java:78-112 | the new provider has the email lower-cased, the licence upper-cased, is PENDING and active with the password hash, and copies the other fields |
| Providers.AcceptedProviderIsNew | health-first-server/src/main/java/com/healthfirst/healthfirstserver/service/ProviderService.java:31-112 | a request the corrected checks accept stores an email, phone and licence no row has |
| Providers.LowerCaseLicensePassesCheck | health-first-server/src/main/java/com/healthfirst/healthfirstserver/service/ProviderService.java:63-94 | licence "ab1" passes the check as written although "AB1" is stored, and it is then stored again; the corrected check rejects it |
| Providers.CapitalisedEmailPassesCheck | health-first-server/src/main/java/com/healthfirst/healthfirstserver/service/ProviderService.java:53-91 | email "X@y" passes the check as written although "x@y" is stored, and it is then stored again; the corrected check rejects it |
| Providers.AppendProvider | health-first-server/src/main/java/com/healthfirst/healthfirstserver/domain/entity/Provider.java:74-89 | saving a row with a new id, email, phone and licence keeps ids distinct and the three columns unique |
| Providers.ProviderService.constructor | health-first-server/src/main/java/com/healthfirst/healthfirstserver/service/ProviderService.java:27-28 | an empty providers table |
| Providers.ProviderService.RegisterProvider | health-first-server/src/main/java/com/healthfirst/healthfirstserver/service/ProviderService.java:31-49 | uses the corrected checks (Providers.Validate, on the email and licence as stored): a failed check returns its error and changes nothing; otherwise the built provider is saved under the next id and the response reports that id, the lower-cased email and PENDING |
| Security.BuildPatientDetails | health-first-server/src/main/java/com/healthfirst/healthfirstserver/security/PatientDetails.java:29-94 | copies id, email, phone, hash and flags; user name is the email; only authority ROLE_PATIENT; login enabled exactly for an active patient with a verified email |
| Security.RegistrationNeedsVerification | health-first-server/src/main/java/com/healthfirst/healthfirstserver/security/PatientDetails.java:92-94 | a just-registered patient cannot log in until the email is verified |
| Security.BuildProviderDetails | health-first-server/src/main/java/com/healthfirst/healthfirstserver/security/UserDetailsImpl.java:29-55 | a null provider is IllegalArgumentException; the password is the hash or empty without credentials; the full name is first name, space, last name; only authority ROLE_PROVIDER; enabled exactly when active |
| Security.RegisteredProviderCanLogIn | health-first-server/src/main/java/com/healthfirst/healthfirstserver/security/UserDetailsImpl.java:29-85 | a provider can log in right after registration, while still PENDING, with the registration's password hash |
| Security.StripBearer | health-first-server/src/main/java/com/healthfirst/healthfirstserver/controller/PatientAuthController.java:75-78 | a header starting with exactly "Bearer " loses those seven characters; any other header, and a null one, is passed on unchanged |
| Security.StripBearerRoundTrip | health-first-server/src/main/java/com/healthfirst/healthfirstserver/controller/PatientAuthController.java:75-78 | prefixing a token with "Bearer " and stripping gives the token back |
| Security.StripsOnlyOnce | health-first-server/src/main/java/com/healthfirst/healthfirstserver/controller/PatientAuthController.java:75-78 | only one prefix is removed |
| Security.LowerCasePrefixKept | health-first-server/src/main/java/com/healthfirst/healthfirstserver/controller/PatientAuthController.java:76 | the prefix is matched case-sensitively |
| Calendar.PlusMinutes | health-first-server/src/main/java/com/healthfirst/healthfirstserver/service/impl/ProviderAvailabilityServiceImpl.java:192 | LocalTime.plusMinutes: the time of day wraps around at midnight |
| Calendar.PlusMinutesAdd | health-first-server/src/main/java/com/healthfirst/healthfirstserver/service/impl/ProviderAvailabilityServiceImpl.java:206-207 | moving the clock by a and then by b is moving it by a + b |
| Calendar.NextDay | health-first-server/src/main/java/com/healthfirst/healthfirstserver/service/impl/ProviderAvailabilityServiceImpl.java:302 | plusDays(1) gives a strictly later date |
| Calendar.NextDayIsSuccessor | health-first-server/src/main/java/com/healthfirst/healthfirstserver/service/impl/ProviderAvailabilityServiceImpl.java:302 | no date lies strictly between a date and the next day |
| Calendar.PlusMonths | health-first-server/src/main/java/com/healthfirst/healthfirstserver/service/impl/ProviderAvailabilityServiceImpl.java:311 | plusMonths moves the month by n and clamps the day to the target month's length |
| Calendar.PlusYears | health-first-server/src/main/java/com/healthfirst/healthfirstserver/payload/request/patient/PatientRegistrationRequest.java:75 | plusYears moves the year by n and clamps February 29 to the 28th |
| Calendar.OrdinalOrder | health-first-server/src/main/java/com/healthfirst/healthfirstserver/service/impl/ProviderAvailabilityServiceImpl.java:268 | date order is the order of day numbers |
| Text.ToLower | health-first-server/src/main/java/com/healthfirst/healthfirstserver/service/impl/PatientServiceImpl.java:65 | same length, no upper-case letter, each character lower-cased |
| Text.ToUpper | health-first-server/src/main/java/com/healthfirst/healthfirstserver/service/ProviderService.java:94 | same length, no lower-case letter, each character upper-cased |
| Text.ToLowerIdempotent | health-first-server/src/main/java/com/healthfirst/healthfirstserver/service/impl/PatientServiceImpl.java:65 | lower-casing twice is lower-casing once |
| Text.ToUpperIdempotent | health-first-server/src/main/java/com/healthfirst/healthfirstserver/service/ProviderService.java:94 | upper-casing twice is upper-casing once |
| Text.NatToStringRoundTrip | health-first-server/src/main/java/com/healthfirst/healthfirstserver/service/impl/AppointmentServiceImpl.java:345 | the decimal digits of a clock reading read back as that reading |

## Left out

- Time zones, `ZonedDateTime` and `LocalDateTime` are not modelled. Instants are
  integer seconds, times of day are whole minutes, and the clock is a parameter.
- Sending email, SMS and notifications is not modelled, except that
  `Verification.VerificationService` records the verification emails it would send
  in an `outbox`. `NotificationService` and `EmailService` are not part of this model.
- JWT issuing and parsing, `AuthService`, `PatientAuthService` and the controllers
  are left out, apart from the header stripping in `refreshToken`. They are
  framework and cryptography glue.
- Password encoding is left out: the hash is an input.
- `AppointmentPricing` is left out, because it uses floating point and
  `BigDecimal` and no rule depends on it.
- Response messages and DTO conversion (`convertToDto`, `AvailabilityResponse`)
  are left out. Only the data fields of the registration responses are kept.
- Left out as read-only pass-throughs with no rule of their own:
  `getProviderAvailability`, `getAvailabilityById`, `getProviderAvailabilities`
  and `getAppointmentByReference`.
- `searchAvailableSlots` is left out: the source builds an empty result.
- `updateAvailabilityStatus` is left out: it only sets the status from a name.
- Pagination of `findByProviderIdAndStartTimeBetween` and the unused `limit` of
  `findUpcomingAppointments` are left out. The queries return every matching row.
- Transactions, rollback and concurrent requests are left out. Each operation
  runs alone, and an operation that fails before changing anything leaves the
  state as it was.
- Database collation is not modelled. Repository lookups compare strings
  exactly, and case mapping covers ASCII letters only.
- `VerificationStatus` has only `PENDING`, the one constant the core uses. The
  enum's source file is not part of this model.
- The provider table's `years_of_experience` column is declared not null, but
  the model keeps the service's null check and stores `None`.
- `Appointments.UpdateAppointmentStatus`: `isValidStatusTransition` is not
  defined in the source, so the transition rule is a parameter. The unused
  notes argument is dropped.
- `Appointments.UpdateAppointmentStatus` takes the status name as a string, never
  null, so the exception that `status.toUpperCase()` throws when the name is
  missing is not modelled.
- `AvailabilityService.ProviderAvailabilityService.CreateAvailability` dates each
  recurring availability on its own matching date, through the corrected
  `AvailabilityService.GenerateRecurringAvailabilities`. As written, every copy
  carries the request's own date, so the copies land on one date and are cut into
  the same slots (second finding; `AvailabilityService.GenerateRecurringAvailabilitiesAsWritten`).
- The appointment service as given does not match the `Appointment` entity in
  three places: the entity declares no `symptoms` field, yet the booking calls
  `setSymptoms`; and `setCancelledAt` and `setRescheduledAt` take no argument, yet
  cancelling and rescheduling pass them the current time. `Appointments.Appointment`
  follows the service: it has a `symptoms` field, and the two times are the clock
  reading `now` the operations receive.
- `Slots.AppointmentSlot.SetAvailable`: the entity has no `setAvailable`. The
  service's calls are read as setting AVAILABLE or BOOKED. The `appointmentSlot`
  link on `Appointment` that those calls use is modelled as a field.
- `AvailabilityService.ProviderAvailabilityService.GenerateAppointmentSlots` saves
  each slot as the loop builds it, where the source saves the list once after the
  loop. The table ends the same: the same rows in the same order with consecutive ids.
- `AvailabilityService.LocationOf` accepts any upper-cased location type name. The
  `LocationType` enum is not part of this model, so the IllegalArgumentException
  that `LocationType.valueOf` throws for an unknown name is not modelled.
- `AvailabilityService.SetRequestFields` stores the location that `LocationOf`
  builds, so an unknown type name is not an error here either.
- `AvailabilityService.UpdatedLocation` upper-cases a new type name and keeps it
  without the `LocationType.valueOf` check, for the same reason.
- `SlotGeneration.LoopWindows` carries a fuel bound, because the loop as written
  need not stop. The bound is the number of rounds observed.
- `Recurrence.MatchesRecurrencePattern` for WEEKLY compares `DayOfWeek`, computed
  from the epoch-day formula. No lemma is stated about the weekday arithmetic.
- Availability requests are taken as already validated. `ValidRequest` states the
  bean-validation constraints of `AvailabilityRequest`: a date, times, a time
  zone and a type are present, the slot length is 5 to 240 minutes and the break
  0 to 60 minutes. The services cut slots with the corrected same-day loop
  (`SlotGeneration.SlotWindows`); see the findings.
- `SlotGeneration.SlotWindows` gives a window that runs past midnight (a start
  after the end, such as 23:50 to 00:30) no slot at all. The loop as written
  emits the wrapped slots that end by the end time on the next day, here the one
  slot 23:50 to 00:20 (`SlotGeneration.OvernightWindow`).
- `AppointmentQueries.FindUpcomingAppointments` takes the patient's id as a
  `Uuid`. The source declares the `patientId` parameter as `Long` and compares it
  with the patient's id, which is a UUID everywhere else in the source (the
  entity's base class is not part of this model). Binding a `Long` to that path
  would fail or match nothing; the model states what the query evidently intends.
- `Appointments.CancelAppointment` and `Appointments.RescheduleAppointment`
  receive the appointment its `findById` found (`Appointments.FindAppointment`
  is that lookup). Their final `save` updates a row already in the table, so the
  table itself does not change.

## Findings

| source | as written | input that shows it | evidently intended | confidence | as-written member | corrected member |
|---|---|---|---|---|---|---|
| health-first-server/src/main/java/com/healthfirst/healthfirstserver/service/impl/ProviderAvailabilityServiceImpl.java:192-207 | the loop compares `LocalTime` values after `plusMinutes`, which wraps at midnight | the loop never stops whenever the wrapped clock keeps landing where a slot ends at or below the end time: an end of 23:59 for any slot length, or an end of 23:30 with 30-minute slots and a 15-minute break from 22:00 | stop once a slot would end after the end time on the same day | not executed | SlotGeneration.LoopNeverEndsAt2359, SlotGeneration.LoopNeverEndsAfterWrap | SlotGeneration.LoopAgreesBeforeMidnight |
| health-first-server/src/main/java/com/healthfirst/healthfirstserver/service/impl/ProviderAvailabilityServiceImpl.java:271 | each recurring availability is built by `createSingleAvailability`, which sets the request's own date | a DAILY request from a date to the next day: both availabilities carry the first date | each availability carries the matching date `currentDate` | not executed | AvailabilityService.RecurringDailyTwoDays | AvailabilityService.GenerateRecurringAvailabilities |
| health-first-server/src/main/java/com/healthfirst/healthfirstserver/service/impl/AppointmentServiceImpl.java:68-85 | `bookAppointment` never sets the appointment's slot | book an available slot, then cancel the appointment: the slot stays BOOKED | the appointment is linked to the slot it booked, so cancelling reopens it | not executed | Appointments.BookThenCancelKeepsSlotBooked | Appointments.BookThenCancelReopensSlot |
| health-first-server/src/main/java/com/healthfirst/healthfirstserver/service/impl/PatientServiceImpl.java:28-65 | the duplicate check uses the raw email, but the stored email is lower-cased | "A@b" when "a@b" is registered passes the check and stores a second "a@b" | check the email as it will be stored | not executed | Patients.CaseVariantEmailPassesCheck | Patients.RegistrationCheck |
| health-first-server/src/main/java/com/healthfirst/healthfirstserver/service/ProviderService.java:53-94 | the duplicate checks use the raw email and licence, but they are stored lower- and upper-cased | licence "ab1" when "AB1" is registered, or email "X@y" when "x@y" is, passes the checks | check the email and licence as they will be stored | not executed | Providers.LowerCaseLicensePassesCheck | Providers.Validate |

The last two rows assume a case-sensitive database collation. Under a
case-insensitive collation the unique constraint, not the service, would reject
the row.

Also modelled as written, not counted as a finding: a MONTHLY recurrence that
starts on the 31st steps to the 28th of February. From then on no date matches
again (`Recurrence.MonthlyFromThe31st`).
