/**
 * What Spring Security sees of a patient or a provider (PatientDetails,
 * UserDetailsImpl), and the removal of the "Bearer " prefix from the
 * Authorization header of a token refresh (section 2.1 of RFC 6750).
 */
module Security {
  import opened Wrappers
  import opened Text
  import Patients
  import Providers

  const RolePrefix: string := "ROLE_"
  const PatientRole: string := "PATIENT"

  /** PatientDetails: an immutable copy of the patient's login columns. */
  datatype PatientDetails = PatientDetails(
    id: Option<Uuid>,
    email: string,
    phoneNumber: string,
    password: string,
    active: bool,
    emailVerified: bool,
    phoneVerified: bool)
  {
    /** The email serves as the user name. */
    function Username(): string { email }

    function Authorities(): seq<string> { [RolePrefix + PatientRole] }

    predicate IsAccountNonExpired() { true }
    predicate IsAccountNonLocked() { true }
    predicate IsCredentialsNonExpired() { true }

    /** Only an active patient with a verified email may log in. */
    predicate IsEnabled() { active && emailVerified }
  }

  /**
   * PatientDetails.build: the id, email, phone number, password hash and the
   * three flags copied from the patient. The user name is the email, the only
   * authority ROLE_PATIENT, the account never expired or locked, and login is
   * enabled exactly for an active patient whose email is verified.
   */
  function BuildPatientDetails(p: Patients.Patient): (d: PatientDetails)
    reads p
    ensures d.id == p.id && d.email == p.email && d.phoneNumber == p.phoneNumber && d.password == p.passwordHash
    ensures d.active == p.isActive && d.emailVerified == p.emailVerified && d.phoneVerified == p.phoneVerified
    ensures d.Username() == p.email
    ensures d.Authorities() == ["ROLE_PATIENT"]
    ensures d.IsAccountNonExpired() && d.IsAccountNonLocked() && d.IsCredentialsNonExpired()
    ensures d.IsEnabled() <==> p.isActive && p.emailVerified
  {
    var role := RolePrefix + PatientRole;
    assert |role| == |"ROLE_PATIENT"| && forall i :: 0 <= i < |role| ==> role[i] == "ROLE_PATIENT"[i];
    assert role == "ROLE_PATIENT";
    PatientDetails(p.id, p.email, p.phoneNumber, p.passwordHash, p.isActive, p.emailVerified, p.phoneVerified)
  }

  /**
   * A patient just registered cannot log in before verifying the email: the
   * registration leaves the email unverified. After MarkEmailVerified the same
   * columns give an enabled login.
   */
  lemma RegistrationNeedsVerification(r: Patients.RegistrationRequest, passwordHash: string, id: Option<Uuid>)
    requires r.dateOfBirth.Some?
    ensures var rec := Patients.MapRegistration(r, passwordHash);
      && !PatientDetails(id, rec.email, rec.phoneNumber, rec.passwordHash, rec.isActive, rec.emailVerified,
                         rec.phoneVerified).IsEnabled()
      && PatientDetails(id, rec.email, rec.phoneNumber, rec.passwordHash, true, true, rec.phoneVerified).IsEnabled()
  {
    Patients.MappedPatient(r, passwordHash);
  }

  const ProviderRole: string := "ROLE_PROVIDER"

  /** UserDetailsImpl: what is kept of a provider for authentication. */
  datatype ProviderDetails = ProviderDetails(
    id: Option<Uuid>,
    email: string,
    fullName: string,
    specialization: string,
    isActive: bool,
    password: string)
  {
    function Username(): string { email }

    function Authorities(): seq<string> { [ProviderRole] }

    predicate IsAccountNonExpired() { true }
    predicate IsAccountNonLocked() { true }
    predicate IsCredentialsNonExpired() { true }

    predicate IsEnabled() { isActive }
  }

  /**
   * UserDetailsImpl.build: a null provider is an IllegalArgumentException; a
   * provider without credentials gets an empty password hash; the full name is
   * the first name, a space and the last name; the only authority is
   * ROLE_PROVIDER and login is enabled exactly when the provider is active.
   */
  function BuildProviderDetails(provider: Option<Providers.Provider>): (res: Result<ProviderDetails>)
    ensures provider.None? <==> res == Err(IllegalArgument)
    ensures provider.Some? ==> res.Ok?
    ensures res.Ok? ==>
      var p, d := provider.value, res.value;
      && d.id == p.id && d.email == p.email && d.specialization == p.specialization
      && d.password == (if p.credentials.Some? then p.credentials.value.passwordHash else "")
      && |d.fullName| == |p.firstName| + 1 + |p.lastName|
      && d.fullName[..|p.firstName|] == p.firstName && d.fullName[|p.firstName|] == ' '
      && d.fullName[|p.firstName| + 1..] == p.lastName
      && d.Username() == p.email && d.Authorities() == ["ROLE_PROVIDER"]
      && (d.IsEnabled() <==> p.isActive)
  {
    if provider.None? then Err(IllegalArgument)
    else
      var p := provider.value;
      var passwordHash := if p.credentials.Some? then p.credentials.value.passwordHash else "";
      var fullName := p.firstName + " " + p.lastName;
      assert fullName[..|p.firstName|] == p.firstName;
      assert fullName[|p.firstName| + 1..] == p.lastName;
      Ok(ProviderDetails(p.id, p.email, fullName, p.specialization, p.isActive, passwordHash))
  }

  /**
   * Unlike a patient, a provider can log in as soon as it is registered, while
   * still PENDING verification: the password is the registration's hash and the
   * user name the lower-cased email.
   */
  lemma RegisteredProviderCanLogIn(r: Providers.RegistrationRequest, passwordHash: string, id: Uuid)
    ensures var p := Providers.FromRequest(r, passwordHash).(id := Some(id));
      var res := BuildProviderDetails(Some(p));
      && p.verificationStatus == Providers.Pending
      && res.Ok? && res.value.IsEnabled() && res.value.password == passwordHash
      && res.value.Username() == ToLower(r.email)
  {
  }

  const BearerPrefix: string := "Bearer "

  /**
   * The token refreshToken passes on: a header starting with exactly "Bearer "
   * loses those seven characters, once; any other header, and a null one, is
   * passed on as it is.
   */
  function StripBearer(header: Option<string>): (token: Option<string>)
    ensures header.None? ==> token.None?
    ensures header.Some? && StartsWith(header.value, BearerPrefix) ==>
              token.Some? && BearerPrefix + token.value == header.value
    ensures header.Some? && !StartsWith(header.value, BearerPrefix) ==> token == header
  {
    if header.Some? && StartsWith(header.value, BearerPrefix) then
      var h := header.value;
      assert h == h[..7] + h[7..];
      Some(h[7..])
    else header
  }

  /** Prefixing a token with "Bearer " and stripping gives the token back. */
  lemma StripBearerRoundTrip(t: string)
    ensures StripBearer(Some(BearerPrefix + t)) == Some(t)
  {
    var h := BearerPrefix + t;
    assert StartsWith(h, BearerPrefix) by {
      assert h[..|BearerPrefix|] == BearerPrefix;
    }
    assert h[7..] == t;
  }

  /** Only one prefix is removed: "Bearer Bearer x" becomes "Bearer x". */
  lemma StripsOnlyOnce()
    ensures StripBearer(Some("Bearer Bearer x")) == Some("Bearer x")
  {
    StripBearerRoundTrip("Bearer x");
    assert BearerPrefix + "Bearer x" == "Bearer Bearer x";
  }

  /** The prefix is matched case-sensitively: "bearer x" passes unchanged. */
  lemma LowerCasePrefixKept()
    ensures StripBearer(Some("bearer x")) == Some("bearer x")
  {
    var h := "bearer x";
    assert h[0] != BearerPrefix[0];
    assert h[..|BearerPrefix|] != BearerPrefix;
  }
}
