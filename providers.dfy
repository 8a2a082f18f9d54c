/**
 * Provider registration: the request checks of ProviderService, in their fixed
 * order, the Provider entity built from the request, and the provider table
 * whose email, phone-number and licence-number columns are unique.
 */
module Providers {
  import opened Wrappers
  import opened Text

  /** ClinicAddress, an embedded value. */
  datatype ClinicAddress = ClinicAddress(street: string, city: string, state: string, zip: string)

  /**
   * VerificationStatus. Registration only ever sets PENDING; the enum's other
   * constants are not used by the modelled code.
   */
  datatype VerificationStatus = Pending

  /**
   * ProviderRegistrationRequest after bean validation: every text field is
   * present. Years of experience stay nullable, as the service checks for null.
   */
  datatype RegistrationRequest = RegistrationRequest(
    firstName: string,
    lastName: string,
    email: string,
    phoneNumber: string,
    specialization: string,
    licenseNumber: string,
    yearsOfExperience: Option<int>,
    clinicAddress: ClinicAddress,
    password: string,
    confirmPassword: string)

  /** ProviderCredentials: the password hash kept beside the provider. */
  datatype Credentials = Credentials(passwordHash: string)

  /** The Provider entity; the id is null until the row is saved. */
  datatype Provider = Provider(
    id: Option<Uuid>,
    firstName: string,
    lastName: string,
    email: string,
    phoneNumber: string,
    specialization: string,
    licenseNumber: string,
    yearsOfExperience: Option<int>,
    clinicAddress: ClinicAddress,
    verificationStatus: VerificationStatus,
    isActive: bool,
    credentials: Option<Credentials>)

  /** One step of validateRegistrationRequest: whether it fails, and with what. */
  datatype Check = Check(fails: bool, error: Exception)

  /** The first failing check's exception, or a normal return when none fails. */
  function FirstFailure(checks: seq<Check>): (o: Outcome)
    ensures o == Pass <==> forall i :: 0 <= i < |checks| ==> !checks[i].fails
    ensures o.Fail? ==> exists i :: 0 <= i < |checks| && checks[i].fails && o.error == checks[i].error
                                    && forall j :: 0 <= j < i ==> !checks[j].fails
  {
    if checks == [] then Pass
    else if checks[0].fails then Fail(checks[0].error)
    else
      var o := FirstFailure(checks[1..]);
      if o.Fail? then
        var i :| 0 <= i < |checks[1..]| && checks[1..][i].fails && o.error == checks[1..][i].error
                 && forall j :: 0 <= j < i ==> !checks[1..][j].fails;
        assert checks[i + 1] == checks[1..][i];
        assert forall j :: 1 <= j < i + 1 ==> checks[j] == checks[1..][j - 1];
        o
      else
        assert forall i :: 1 <= i < |checks| ==> checks[i] == checks[1..][i - 1];
        o
  }

  /**
   * The five checks of validateRegistrationRequest in their order, with the
   * email and licence looked up in the form `emailKey` and `licenseKey`.
   */
  function RegistrationChecks(emails: seq<string>, phones: seq<string>, licenses: seq<string>,
                              r: RegistrationRequest, emailKey: string, licenseKey: string): seq<Check>
  {
    [ Check(emailKey in emails, ResourceAlreadyExists),
      Check(r.phoneNumber in phones, ResourceAlreadyExists),
      Check(licenseKey in licenses, ResourceAlreadyExists),
      Check(r.password != r.confirmPassword, Validation),
      Check(r.yearsOfExperience.Some? && r.yearsOfExperience.value < 0, BadRequest) ]
  }

  /**
   * validateRegistrationRequest AS WRITTEN: the email and licence number are
   * looked up as the client typed them, although the row stores them lower- and
   * upper-cased. A taken email, phone number or licence is a
   * ResourceAlreadyExistsException, mismatched passwords a ValidationException,
   * negative years (but not null years) a BadRequestException.
   */
  function ValidateAsWritten(emails: seq<string>, phones: seq<string>, licenses: seq<string>,
                             r: RegistrationRequest): (o: Outcome)
    ensures o == Pass <==> && r.email !in emails && r.phoneNumber !in phones && r.licenseNumber !in licenses
                           && r.password == r.confirmPassword
                           && (r.yearsOfExperience.Some? ==> r.yearsOfExperience.value >= 0)
  {
    if r.email in emails then Fail(ResourceAlreadyExists)
    else if r.phoneNumber in phones then Fail(ResourceAlreadyExists)
    else if r.licenseNumber in licenses then Fail(ResourceAlreadyExists)
    else if r.password != r.confirmPassword then Fail(Validation)
    else if r.yearsOfExperience.Some? && r.yearsOfExperience.value < 0 then Fail(BadRequest)
    else Pass
  }

  /** validateRegistrationRequest as evidently intended: email and licence looked up as they are stored. */
  function Validate(emails: seq<string>, phones: seq<string>, licenses: seq<string>,
                    r: RegistrationRequest): (o: Outcome)
    ensures o == Pass <==> && ToLower(r.email) !in emails && r.phoneNumber !in phones
                           && ToUpper(r.licenseNumber) !in licenses && r.password == r.confirmPassword
                           && (r.yearsOfExperience.Some? ==> r.yearsOfExperience.value >= 0)
  {
    if ToLower(r.email) in emails then Fail(ResourceAlreadyExists)
    else if r.phoneNumber in phones then Fail(ResourceAlreadyExists)
    else if ToUpper(r.licenseNumber) in licenses then Fail(ResourceAlreadyExists)
    else if r.password != r.confirmPassword then Fail(Validation)
    else if r.yearsOfExperience.Some? && r.yearsOfExperience.value < 0 then Fail(BadRequest)
    else Pass
  }

  /** Both versions report the first of the five checks, in order, that fails. */
  lemma ValidationReportsFirstFailure(emails: seq<string>, phones: seq<string>, licenses: seq<string>,
                                      r: RegistrationRequest)
    ensures ValidateAsWritten(emails, phones, licenses, r)
            == FirstFailure(RegistrationChecks(emails, phones, licenses, r, r.email, r.licenseNumber))
    ensures Validate(emails, phones, licenses, r)
            == FirstFailure(RegistrationChecks(emails, phones, licenses, r, ToLower(r.email), ToUpper(r.licenseNumber)))
  {
    var raw := RegistrationChecks(emails, phones, licenses, r, r.email, r.licenseNumber);
    FirstOfFive(raw[0], raw[1], raw[2], raw[3], raw[4]);
    assert raw == [raw[0], raw[1], raw[2], raw[3], raw[4]];
    var fixed := RegistrationChecks(emails, phones, licenses, r, ToLower(r.email), ToUpper(r.licenseNumber));
    FirstOfFive(fixed[0], fixed[1], fixed[2], fixed[3], fixed[4]);
    assert fixed == [fixed[0], fixed[1], fixed[2], fixed[3], fixed[4]];
  }

  /** FirstFailure unfolded on five checks. */
  lemma FirstOfFive(a: Check, b: Check, c: Check, d: Check, e: Check)
    ensures FirstFailure([a, b, c, d, e])
            == if a.fails then Fail(a.error) else if b.fails then Fail(b.error)
               else if c.fails then Fail(c.error) else if d.fails then Fail(d.error)
               else if e.fails then Fail(e.error) else Pass
  {
    assert [a, b, c, d, e][1..] == [b, c, d, e];
    assert [b, c, d, e][1..] == [c, d, e];
    assert [c, d, e][1..] == [d, e];
    assert [d, e][1..] == [e];
    assert [e][1..] == [];
    assert FirstFailure([e]) == if e.fails then Fail(e.error) else Pass;
    assert FirstFailure([d, e]) == if d.fails then Fail(d.error) else FirstFailure([e]);
    assert FirstFailure([c, d, e]) == if c.fails then Fail(c.error) else FirstFailure([d, e]);
    assert FirstFailure([b, c, d, e]) == if b.fails then Fail(b.error) else FirstFailure([c, d, e]);
  }

  /** A taken email is reported whatever else is wrong with the request. */
  lemma TakenEmailComesFirst(emails: seq<string>, phones: seq<string>, licenses: seq<string>, r: RegistrationRequest)
    requires ToLower(r.email) in emails
    ensures Validate(emails, phones, licenses, r) == Fail(ResourceAlreadyExists)
  {
  }

  /** A password mismatch is reported only once the three uniqueness checks have passed. */
  lemma MismatchAfterUniqueness(emails: seq<string>, phones: seq<string>, licenses: seq<string>, r: RegistrationRequest)
    requires r.password != r.confirmPassword
    ensures Validate(emails, phones, licenses, r) == Fail(Validation)
            <==> ToLower(r.email) !in emails && r.phoneNumber !in phones && ToUpper(r.licenseNumber) !in licenses
  {
  }

  /** Negative years are refused only when everything before them passed; null years never are. */
  lemma ExperienceCheckedLast(emails: seq<string>, phones: seq<string>, licenses: seq<string>, r: RegistrationRequest)
    ensures Validate(emails, phones, licenses, r) == Fail(BadRequest)
            <==> && ToLower(r.email) !in emails && r.phoneNumber !in phones && ToUpper(r.licenseNumber) !in licenses
                 && r.password == r.confirmPassword
                 && r.yearsOfExperience.Some? && r.yearsOfExperience.value < 0
  {
  }

  /**
   * createProviderFromRequest with `passwordHash` the encoder's output: the
   * email lower-cased, the licence upper-cased, status PENDING, active, and the
   * credentials holding the hash.
   */
  function FromRequest(r: RegistrationRequest, passwordHash: string): Provider {
    Provider(None, r.firstName, r.lastName, ToLower(r.email), r.phoneNumber, r.specialization,
             ToUpper(r.licenseNumber), r.yearsOfExperience, r.clinicAddress, Pending, true,
             Some(Credentials(passwordHash)))
  }

  /**
   * The built provider is unsaved, pending and active; its email has no capital
   * and its licence no small letter, each of the same length as given and already
   * in normal form; the other fields are the request's.
   */
  lemma BuiltProvider(r: RegistrationRequest, passwordHash: string)
    ensures var p := FromRequest(r, passwordHash);
      && p.id.None? && p.verificationStatus == Pending && p.isActive
      && p.credentials == Some(Credentials(passwordHash))
      && |p.email| == |r.email| && (forall i :: 0 <= i < |p.email| ==> !IsUpper(p.email[i]))
      && |p.licenseNumber| == |r.licenseNumber| && (forall i :: 0 <= i < |p.licenseNumber| ==> !IsLower(p.licenseNumber[i]))
      && ToLower(p.email) == p.email && ToUpper(p.licenseNumber) == p.licenseNumber
      && p.firstName == r.firstName && p.lastName == r.lastName && p.phoneNumber == r.phoneNumber
      && p.specialization == r.specialization && p.yearsOfExperience == r.yearsOfExperience
      && p.clinicAddress == r.clinicAddress
  {
    ToLowerIdempotent(r.email);
    ToUpperIdempotent(r.licenseNumber);
  }

  /** A request the corrected checks accept builds a row whose three unique columns are all new. */
  lemma AcceptedProviderIsNew(emails: seq<string>, phones: seq<string>, licenses: seq<string>,
                              r: RegistrationRequest, passwordHash: string)
    requires Validate(emails, phones, licenses, r) == Pass
    ensures FromRequest(r, passwordHash).email !in emails
    ensures FromRequest(r, passwordHash).phoneNumber !in phones
    ensures FromRequest(r, passwordHash).licenseNumber !in licenses
  {
  }

  /**
   * With licence "AB1" registered, a request for "ab1" (otherwise new) passes the
   * checks as written, and the provider it builds repeats the registered licence:
   * the save breaks the licence column's unique constraint instead of being
   * refused as a duplicate. The corrected checks refuse it.
   */
  lemma LowerCaseLicensePassesCheck(r: RegistrationRequest, passwordHash: string)
    requires r.email == "x@y" && r.phoneNumber == "+15550100" && r.licenseNumber == "ab1"
    requires r.password == r.confirmPassword && r.yearsOfExperience == Some(3)
    ensures ValidateAsWritten([], [], ["AB1"], r) == Pass
    ensures FromRequest(r, passwordHash).licenseNumber in ["AB1"]
    ensures Validate([], [], ["AB1"], r) == Fail(ResourceAlreadyExists)
  {
    var upper := ToUpper(r.licenseNumber);
    assert upper[0] == 'A' && upper[1] == 'B' && upper[2] == '1';
    assert upper == "AB1";
  }

  /** The same for an email typed with a capital: "X@y" passes beside a stored "x@y". */
  lemma CapitalisedEmailPassesCheck(r: RegistrationRequest, passwordHash: string)
    requires r.email == "X@y" && r.phoneNumber == "+15550100" && r.licenseNumber == "AB1"
    requires r.password == r.confirmPassword && r.yearsOfExperience.None?
    ensures ValidateAsWritten(["x@y"], [], [], r) == Pass
    ensures FromRequest(r, passwordHash).email in ["x@y"]
    ensures Validate(["x@y"], [], [], r) == Fail(ResourceAlreadyExists)
  {
    var lower := ToLower(r.email);
    assert lower[0] == 'x' && lower[1] == '@' && lower[2] == 'y';
    assert lower == "x@y";
  }

  /** The email column of the table. */
  function EmailsOf(ps: seq<Provider>): (r: seq<string>)
    ensures |r| == |ps| && forall i :: 0 <= i < |ps| ==> r[i] == ps[i].email
  {
    if ps == [] then [] else [ps[0].email] + EmailsOf(ps[1..])
  }

  /** The phone-number column of the table. */
  function PhonesOf(ps: seq<Provider>): (r: seq<string>)
    ensures |r| == |ps| && forall i :: 0 <= i < |ps| ==> r[i] == ps[i].phoneNumber
  {
    if ps == [] then [] else [ps[0].phoneNumber] + PhonesOf(ps[1..])
  }

  /** The licence-number column of the table. */
  function LicensesOf(ps: seq<Provider>): (r: seq<string>)
    ensures |r| == |ps| && forall i :: 0 <= i < |ps| ==> r[i] == ps[i].licenseNumber
  {
    if ps == [] then [] else [ps[0].licenseNumber] + LicensesOf(ps[1..])
  }

  /** Every row is saved with an id below `bound`, and no two rows share an id. */
  predicate SavedIds(ps: seq<Provider>, bound: nat) {
    && (forall i :: 0 <= i < |ps| ==> ps[i].id.Some? && ps[i].id.value < bound)
    && (forall i, j :: 0 <= i < j < |ps| ==> ps[i].id != ps[j].id)
  }

  /** The email, phone-number and licence-number columns are unique. */
  predicate UniqueColumns(ps: seq<Provider>) {
    forall i, j :: 0 <= i < j < |ps| ==>
      ps[i].email != ps[j].email && ps[i].phoneNumber != ps[j].phoneNumber
      && ps[i].licenseNumber != ps[j].licenseNumber
  }

  /** Appending a row with the next id and three new column values keeps the table's invariants. */
  lemma {:induction false} AppendProvider(ps: seq<Provider>, p: Provider, bound: nat)
    requires SavedIds(ps, bound) && UniqueColumns(ps)
    requires p.id == Some(bound)
    requires p.email !in EmailsOf(ps) && p.phoneNumber !in PhonesOf(ps) && p.licenseNumber !in LicensesOf(ps)
    ensures SavedIds(ps + [p], bound + 1) && UniqueColumns(ps + [p])
  {
    NotInColumns(ps, p);
    var rows := ps + [p];
    forall i, j | 0 <= i < j < |rows|
      ensures rows[i].id != rows[j].id
      ensures rows[i].email != rows[j].email && rows[i].phoneNumber != rows[j].phoneNumber
      ensures rows[i].licenseNumber != rows[j].licenseNumber
    {
      assert rows[i] == ps[i];
      if j < |ps| {
        assert rows[j] == ps[j];
      } else {
        assert rows[j] == p;
      }
    }
    assert forall i :: 0 <= i < |ps| ==> rows[i] == ps[i];
  }

  /** A value missing from a column differs from that column in every row. */
  lemma NotInColumns(ps: seq<Provider>, p: Provider)
    requires p.email !in EmailsOf(ps) && p.phoneNumber !in PhonesOf(ps) && p.licenseNumber !in LicensesOf(ps)
    ensures forall i :: 0 <= i < |ps| ==>
              ps[i].email != p.email && ps[i].phoneNumber != p.phoneNumber && ps[i].licenseNumber != p.licenseNumber
  {
    var emails, phones, licenses := EmailsOf(ps), PhonesOf(ps), LicensesOf(ps);
    forall i | 0 <= i < |ps|
      ensures ps[i].email != p.email && ps[i].phoneNumber != p.phoneNumber && ps[i].licenseNumber != p.licenseNumber
    {
      assert emails[i] == ps[i].email && phones[i] == ps[i].phoneNumber && licenses[i] == ps[i].licenseNumber;
    }
  }

  /** ProviderRegistrationResponse.success with its ProviderData; the message is a constant text. */
  datatype RegistrationResponse = RegistrationResponse(
    success: bool,
    providerId: Uuid,
    email: string,
    verificationStatus: VerificationStatus)

  /** ProviderService over the provider table; saving assigns the next id. */
  class ProviderService {
    var providers: seq<Provider>
    var nextId: nat

    ghost predicate Valid()
      reads this
    {
      SavedIds(providers, nextId) && UniqueColumns(providers)
    }

    constructor ()
      ensures providers == [] && nextId == 0 && Valid()
    {
      providers := [];
      nextId := 0;
    }

    /**
     * registerProvider, with the uniqueness checks corrected to look up the
     * stored forms. A refused request saves nothing (the checks run before
     * anything is built); otherwise exactly one provider is saved, built from the
     * request, and the response echoes its id and email.
     */
    method RegisterProvider(r: RegistrationRequest, passwordHash: string)
      returns (res: Result<RegistrationResponse>)
      requires Valid()
      modifies this
      ensures Valid()
      ensures var check := old(Validate(EmailsOf(providers), PhonesOf(providers), LicensesOf(providers), r));
        && (check.Fail? ==> res == Err(check.error) && providers == old(providers) && nextId == old(nextId))
        && (check == Pass ==> res.Ok?)
      ensures res.Ok? ==>
        && providers == old(providers) + [FromRequest(r, passwordHash).(id := Some(old(nextId)))]
        && nextId == old(nextId) + 1
        && res.value == RegistrationResponse(true, old(nextId), ToLower(r.email), Pending)
    {
      var check := Validate(EmailsOf(providers), PhonesOf(providers), LicensesOf(providers), r);
      if check.Fail? {
        return Err(check.error);
      }
      var saved := FromRequest(r, passwordHash).(id := Some(nextId));
      AppendProvider(providers, saved, nextId);
      providers := providers + [saved];
      nextId := nextId + 1;
      res := Ok(RegistrationResponse(true, saved.id.value, saved.email, saved.verificationStatus));
    }
  }
}
