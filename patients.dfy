/**
 * Patients: the registration request and its @AssertTrue checks, the Patient
 * entity, the patient table behind PatientRepository, and
 * PatientServiceImpl.registerPatient.
 */
module Patients {
  import opened Wrappers
  import opened Calendar
  import opened Text

  datatype Gender = Male | Female | Other | PreferNotToSay
  datatype Address = Address(street: string, city: string, state: string, zip: string)
  datatype EmergencyContact = EmergencyContact(name: string, phone: string, relationship: string)
  datatype InsuranceInfo = InsuranceInfo(provider: string, policyNumber: string)

  /** PatientRegistrationRequest; a field the client may leave out is an Option. */
  datatype RegistrationRequest = RegistrationRequest(
    firstName: string,
    lastName: string,
    email: string,
    phoneNumber: string,
    password: Option<string>,
    confirmPassword: Option<string>,
    dateOfBirth: Option<LocalDate>,
    gender: Gender,
    address: Address,
    emergencyContact: Option<EmergencyContact>,
    medicalHistory: Option<seq<string>>,
    insuranceInfo: Option<InsuranceInfo>)

  /** isPasswordMatching: false when either password is missing, otherwise string equality. */
  function IsPasswordMatching(password: Option<string>, confirmPassword: Option<string>): (r: bool)
    ensures password.None? || confirmPassword.None? ==> !r
    ensures password.Some? && confirmPassword.Some? ==> (r <==> password.value == confirmPassword.value)
  {
    password.Some? && confirmPassword.Some? && password.value == confirmPassword.value
  }

  /** Which of the two password fields is which does not matter. */
  lemma PasswordMatchingSymmetric(password: Option<string>, confirmPassword: Option<string>)
    ensures IsPasswordMatching(password, confirmPassword) == IsPasswordMatching(confirmPassword, password)
  {
  }

  /**
   * isAtLeast13YearsOld on the day `today`: the thirteenth birthday (plusYears, so
   * February 29 becomes February 28) is before the day after today, that is, on or
   * before today. A missing date of birth fails.
   */
  function IsAtLeast13YearsOld(dateOfBirth: Option<LocalDate>, today: LocalDate): (r: bool)
    ensures r <==> dateOfBirth.Some? && OnOrBefore(PlusYears(dateOfBirth.value, 13), today)
  {
    if dateOfBirth.None? then false
    else
      var birthday := PlusYears(dateOfBirth.value, 13);
      NextDayIsSuccessor(today, birthday);
      IsBefore(birthday, PlusDays(today, 1))
  }

  /** Once old enough, old enough on every later day. */
  lemma OldEnoughStaysOldEnough(dateOfBirth: Option<LocalDate>, today: LocalDate, later: LocalDate)
    requires IsAtLeast13YearsOld(dateOfBirth, today)
    requires OnOrBefore(today, later)
    ensures IsAtLeast13YearsOld(dateOfBirth, later)
  {
    var birthday := PlusYears(dateOfBirth.value, 13);
    OrdinalOrder(birthday, today);
    OrdinalOrder(today, later);
    OrdinalOrder(later, birthday);
  }

  /** Someone is old enough on their thirteenth birthday itself, and not the day before it. */
  lemma ThirteenthBirthday(dateOfBirth: LocalDate, dayBefore: LocalDate)
    requires NextDay(dayBefore) == PlusYears(dateOfBirth, 13)
    ensures IsAtLeast13YearsOld(Some(dateOfBirth), PlusYears(dateOfBirth, 13))
    ensures !IsAtLeast13YearsOld(Some(dateOfBirth), dayBefore)
  {
    OrdinalOrder(dayBefore, NextDay(dayBefore));
    OrdinalOrder(NextDay(dayBefore), dayBefore);
  }

  /** The columns of a Patient row, as a value. */
  datatype PatientRecord = PatientRecord(
    firstName: string,
    lastName: string,
    email: string,
    phoneNumber: string,
    passwordHash: string,
    dateOfBirth: LocalDate,
    gender: Gender,
    address: Address,
    emergencyContact: Option<EmergencyContact>,
    medicalHistory: Option<seq<string>>,
    insuranceInfo: Option<InsuranceInfo>,
    emailVerified: bool,
    phoneVerified: bool,
    isActive: bool)

  /**
   * mapRegistrationRequestToPatient, given the encoder's hash of the password. The
   * builder leaves both verification flags at false.
   */
  function MapRegistration(r: RegistrationRequest, passwordHash: string): PatientRecord
    requires r.dateOfBirth.Some?
  {
    PatientRecord(r.firstName, r.lastName, ToLower(r.email), r.phoneNumber, passwordHash,
                  r.dateOfBirth.value, r.gender, r.address,
                  r.emergencyContact, r.medicalHistory, r.insuranceInfo,
                  false, false, true)
  }

  /**
   * A newly registered patient: the email stored lower-cased (so it has no upper-case
   * letter and registering its own stored form maps to the same), active, with neither
   * email nor phone verified, and every optional part absent exactly when the request
   * left it out.
   */
  lemma MappedPatient(r: RegistrationRequest, passwordHash: string)
    requires r.dateOfBirth.Some?
    ensures var p := MapRegistration(r, passwordHash);
      && |p.email| == |r.email|
      && (forall i :: 0 <= i < |p.email| ==> !IsUpper(p.email[i]))
      && ToLower(p.email) == p.email
      && p.isActive && !p.emailVerified && !p.phoneVerified
      && p.phoneNumber == r.phoneNumber && p.dateOfBirth == r.dateOfBirth.value
      && (p.emergencyContact.None? <==> r.emergencyContact.None?)
      && (p.medicalHistory.None? <==> r.medicalHistory.None?)
      && (p.insuranceInfo.None? <==> r.insuranceInfo.None?)
  {
    ToLowerIdempotent(r.email);
  }

  /** The Patient entity; verifyEmail updates its flags in place. */
  class Patient {
    var id: Option<Uuid>
    var firstName: string
    var lastName: string
    var email: string
    var phoneNumber: string
    var passwordHash: string
    var dateOfBirth: LocalDate
    var gender: Gender
    var address: Address
    var emergencyContact: Option<EmergencyContact>
    var medicalHistory: Option<seq<string>>
    var insuranceInfo: Option<InsuranceInfo>
    var emailVerified: bool
    var phoneVerified: bool
    var isActive: bool

    /** The entity's columns other than the id. */
    function Record(): PatientRecord
      reads this
    {
      PatientRecord(firstName, lastName, email, phoneNumber, passwordHash, dateOfBirth,
                    gender, address, emergencyContact, medicalHistory, insuranceInfo,
                    emailVerified, phoneVerified, isActive)
    }

    /** setEmailVerified(true) and setActive(true), as verifyEmail calls them. */
    method MarkEmailVerified()
      modifies this`emailVerified, this`isActive
      ensures emailVerified && isActive
    {
      emailVerified := true;
      isActive := true;
    }

    /** The Patient.builder() call of mapRegistrationRequestToPatient; the id comes on save. */
    constructor (r: RegistrationRequest, passwordHash: string)
      requires r.dateOfBirth.Some?
      ensures id == None
      ensures Record() == MapRegistration(r, passwordHash)
    {
      id := None;
      firstName := r.firstName;
      lastName := r.lastName;
      email := ToLower(r.email);
      phoneNumber := r.phoneNumber;
      this.passwordHash := passwordHash;
      dateOfBirth := r.dateOfBirth.value;
      gender := r.gender;
      address := r.address;
      emergencyContact := r.emergencyContact;
      medicalHistory := r.medicalHistory;
      insuranceInfo := r.insuranceInfo;
      emailVerified := false;
      phoneVerified := false;
      isActive := true;
    }
  }

  /** The email column of a sequence of rows. */
  function EmailsOf(ps: seq<Patient>): (r: seq<string>)
    reads ps
    ensures |r| == |ps|
    ensures forall i :: 0 <= i < |ps| ==> r[i] == ps[i].email
  {
    if ps == [] then [] else [ps[0].email] + EmailsOf(ps[1..])
  }

  /** The phone-number column of a sequence of rows. */
  function PhonesOf(ps: seq<Patient>): (r: seq<string>)
    reads ps
    ensures |r| == |ps|
    ensures forall i :: 0 <= i < |ps| ==> r[i] == ps[i].phoneNumber
  {
    if ps == [] then [] else [ps[0].phoneNumber] + PhonesOf(ps[1..])
  }

  /** The index of the first row from `from` on whose email is `email`. */
  function FindEmailFrom(ps: seq<Patient>, email: string, from: nat): (r: Option<nat>)
    reads ps
    requires from <= |ps|
    ensures r.Some? ==> from <= r.value < |ps| && ps[r.value].email == email
    ensures r.None? ==> forall i :: from <= i < |ps| ==> ps[i].email != email
    decreases |ps| - from
  {
    if from == |ps| then None
    else if ps[from].email == email then Some(from)
    else FindEmailFrom(ps, email, from + 1)
  }

  /** Every row has been saved with an id below `bound`. */
  predicate IdsBelow(ps: seq<Patient>, bound: nat)
    reads ps
  {
    forall i :: 0 <= i < |ps| ==> ps[i].id.Some? && ps[i].id.value < bound
  }

  /** The id column is unique. */
  predicate DistinctIds(ps: seq<Patient>)
    reads ps
  {
    forall i, j :: 0 <= i < j < |ps| ==> ps[i].id != ps[j].id
  }

  /** The email and phone-number columns are unique. */
  predicate UniqueColumns(ps: seq<Patient>)
    reads ps
  {
    forall i, j :: 0 <= i < j < |ps| ==> ps[i].email != ps[j].email && ps[i].phoneNumber != ps[j].phoneNumber
  }

  /** Appending a row with the next id and a new email and phone number keeps the table's invariants. */
  lemma AppendRow(ps: seq<Patient>, p: Patient, bound: nat)
    requires IdsBelow(ps, bound) && DistinctIds(ps) && UniqueColumns(ps)
    requires p.id == Some(bound)
    requires forall i :: 0 <= i < |ps| ==> ps[i].email != p.email && ps[i].phoneNumber != p.phoneNumber
    ensures IdsBelow(ps + [p], bound + 1) && DistinctIds(ps + [p]) && UniqueColumns(ps + [p])
  {
    var rows := ps + [p];
    assert forall i :: 0 <= i < |ps| ==> rows[i] == ps[i];
  }

  /**
   * The patient table. Its email and phone-number columns are unique (the
   * columns' unique constraints); saving assigns the next id.
   */
  class PatientRepository {
    var patients: seq<Patient>
    var nextId: nat

    ghost predicate Valid()
      reads this, patients
    {
      IdsBelow(patients, nextId) && DistinctIds(patients) && UniqueColumns(patients)
    }

    constructor ()
      ensures patients == [] && nextId == 0 && Valid()
    {
      patients := [];
      nextId := 0;
    }

    /** existsByEmail: an exact match on the stored column. */
    predicate ExistsByEmail(email: string)
      reads this, patients
    {
      email in EmailsOf(patients)
    }

    /** existsByPhoneNumber. */
    predicate ExistsByPhoneNumber(phoneNumber: string)
      reads this, patients
    {
      phoneNumber in PhonesOf(patients)
    }

    /** findByEmail: the row with that exact email, if any. */
    function FindByEmail(email: string): (r: Option<nat>)
      reads this, patients
      ensures r.Some? ==> r.value < |patients| && patients[r.value].email == email
      ensures r.None? <==> !ExistsByEmail(email)
    {
      FindEmailFrom(patients, email, 0)
    }

    /** save of a new row: it gets the next id and is appended; no other row changes. */
    method Save(p: Patient)
      requires Valid()
      requires p.id.None?
      requires !ExistsByEmail(p.email) && !ExistsByPhoneNumber(p.phoneNumber)
      modifies this, p`id
      ensures Valid()
      ensures patients == old(patients) + [p]
      ensures p.id == Some(old(nextId)) && nextId == old(nextId) + 1
    {
      assert forall i :: 0 <= i < |patients| ==> patients[i] != p;
      ghost var rows := patients;
      ghost var emails := EmailsOf(patients);
      ghost var phones := PhonesOf(patients);
      assert forall i :: 0 <= i < |rows| ==> rows[i].email != p.email && rows[i].phoneNumber != p.phoneNumber by {
        forall i | 0 <= i < |rows| ensures rows[i].email != p.email && rows[i].phoneNumber != p.phoneNumber {
          assert emails[i] == rows[i].email && phones[i] == rows[i].phoneNumber;
        }
      }
      p.id := Some(nextId);
      patients := patients + [p];
      nextId := nextId + 1;
      AppendRow(rows, p, nextId - 1);
    }
  }

  /**
   * registerPatient's duplicate checks AS WRITTEN: the email is looked up as the
   * client typed it, although the row stores it lower-cased. The email is checked
   * before the phone number; either duplicate is a DuplicateResourceException.
   */
  function RegistrationCheckAsWritten(emails: seq<string>, phones: seq<string>, r: RegistrationRequest): (o: Outcome)
    ensures o == Pass <==> r.email !in emails && r.phoneNumber !in phones
    ensures o != Pass ==> o == Fail(DuplicateResource)
  {
    if r.email in emails then Fail(DuplicateResource)
    else if r.phoneNumber in phones then Fail(DuplicateResource)
    else Pass
  }

  /** The duplicate checks as evidently intended: the email looked up in the form it is stored in. */
  function RegistrationCheck(emails: seq<string>, phones: seq<string>, r: RegistrationRequest): (o: Outcome)
    ensures o == Pass <==> ToLower(r.email) !in emails && r.phoneNumber !in phones
    ensures o != Pass ==> o == Fail(DuplicateResource)
  {
    if ToLower(r.email) in emails then Fail(DuplicateResource)
    else if r.phoneNumber in phones then Fail(DuplicateResource)
    else Pass
  }

  /** A request the corrected checks accept maps to a row whose email and phone are both new. */
  lemma AcceptedRegistrationIsNew(emails: seq<string>, phones: seq<string>, r: RegistrationRequest, passwordHash: string)
    requires r.dateOfBirth.Some?
    requires RegistrationCheck(emails, phones, r) == Pass
    ensures MapRegistration(r, passwordHash).email !in emails
    ensures MapRegistration(r, passwordHash).phoneNumber !in phones
  {
  }

  /**
   * With "a@b" registered, a request for "A@b" passes the checks as written, and
   * the row it maps to repeats the registered email: the save then breaks the
   * email column's unique constraint instead of being refused as a duplicate.
   * The corrected checks refuse it.
   */
  lemma CaseVariantEmailPassesCheck(r: RegistrationRequest, passwordHash: string)
    requires r.email == "A@b" && r.phoneNumber == "+15550100" && r.dateOfBirth.Some?
    ensures RegistrationCheckAsWritten(["a@b"], [], r) == Pass
    ensures MapRegistration(r, passwordHash).email in ["a@b"]
    ensures RegistrationCheck(["a@b"], [], r) == Fail(DuplicateResource)
  {
    var lower := ToLower(r.email);
    assert lower[0] == 'a' && lower[1] == '@' && lower[2] == 'b';
    assert lower == "a@b";
  }

  /** PatientRegistrationResponse with its PatientData; `message` is a constant text and left out. */
  datatype RegistrationResponse = RegistrationResponse(
    success: bool,
    patientId: Uuid,
    email: string,
    phoneNumber: string,
    emailVerified: bool,
    phoneVerified: bool,
    registeredAt: Instant)

  /** PatientServiceImpl over the patient table it shares with the verification service. */
  class PatientService {
    const repository: PatientRepository

    constructor (repository: PatientRepository)
      ensures this.repository == repository
    {
      this.repository := repository;
    }

    /**
     * registerPatient, with the duplicate checks corrected to look up the stored
     * (lower-cased) email. `passwordHash` is the encoder's output and `now` the
     * clock's reading. A duplicate saves nothing; otherwise exactly one row is
     * appended, and the response echoes it.
     */
    method RegisterPatient(r: RegistrationRequest, passwordHash: string, now: Instant)
      returns (res: Result<RegistrationResponse>)
      requires repository.Valid()
      requires r.dateOfBirth.Some?
      modifies repository
      ensures repository.Valid()
      ensures var check := RegistrationCheck(old(EmailsOf(repository.patients)), old(PhonesOf(repository.patients)), r);
        && (check.Fail? ==> res == Err(check.error) && repository.patients == old(repository.patients)
                              && repository.nextId == old(repository.nextId))
        && (check == Pass ==> res.Ok?)
      ensures res.Ok? ==>
        && |repository.patients| == |old(repository.patients)| + 1
        && repository.patients[..|old(repository.patients)|] == old(repository.patients)
        && var p := repository.patients[|old(repository.patients)|];
        && fresh(p)
        && p.id == Some(old(repository.nextId))
        && p.Record() == MapRegistration(r, passwordHash)
        && res.value == RegistrationResponse(true, old(repository.nextId), ToLower(r.email), r.phoneNumber,
                                             false, false, now)
    {
      var check := RegistrationCheck(EmailsOf(repository.patients), PhonesOf(repository.patients), r);
      if check.Fail? {
        return Err(check.error);
      }
      var p := new Patient(r, passwordHash);
      repository.Save(p);
      res := Ok(RegistrationResponse(true, p.id.value, p.email, p.phoneNumber,
                                     p.emailVerified, p.phoneVerified, now));
    }
  }
}
