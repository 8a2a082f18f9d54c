/**
 * Email verification: the VerificationToken entity with its 24-hour expiry, and
 * VerificationService over the token table, which holds at most one token per
 * (patient, token type).
 */
module Verification {
  import opened Wrappers
  import opened Calendar
  import opened Patients

  /** VerificationToken.TokenType. */
  datatype TokenType = EmailVerification | PasswordReset | PhoneVerification

  /** EXPIRATION_HOURS. Instants are counted in seconds. */
  const ExpirationHours: int := 24

  /** A token expires at `expiry` and is expired from the next instant on (LocalDateTime.isAfter). */
  predicate ExpiredAt(expiry: Instant, now: Instant) {
    now > expiry
  }

  /** Once expired, a token stays expired. */
  lemma ExpiryIsMonotone(expiry: Instant, now: Instant, later: Instant)
    requires ExpiredAt(expiry, now) && now <= later
    ensures ExpiredAt(expiry, later)
  {
  }

  /**
   * A token created at `created` is valid up to and including the instant 24 hours
   * later, and expired from the instant after it.
   */
  lemma ValidForADay(created: Instant, now: Instant)
    requires created <= now
    ensures !ExpiredAt(created + ExpirationHours * SecondsPerHour, now) <==> now <= created + 86400
  {
  }

  /** The VerificationToken entity. The builder leaves the expiry unset until onCreate. */
  class VerificationToken {
    var token: string
    var patient: Patient
    var expiryDate: Option<Instant>
    var tokenType: TokenType

    constructor (token: string, patient: Patient, tokenType: TokenType)
      ensures this.token == token && this.patient == patient && this.tokenType == tokenType
      ensures expiryDate == None
    {
      this.token := token;
      this.patient := patient;
      this.tokenType := tokenType;
      expiryDate := None;
    }

    /** onCreate (@PrePersist) at instant `now`: the token expires 24 hours later. */
    method OnCreate(now: Instant)
      modifies this`expiryDate
      ensures expiryDate == Some(now + ExpirationHours * SecondsPerHour)
      ensures !IsExpired(now + ExpirationHours * SecondsPerHour) && IsExpired(now + ExpirationHours * SecondsPerHour + 1)
    {
      expiryDate := Some(now + ExpirationHours * SecondsPerHour);
    }

    /** isExpired at instant `now`; the expiry must have been set (isAfter on null throws). */
    predicate IsExpired(now: Instant)
      reads this
      requires expiryDate.Some?
    {
      ExpiredAt(expiryDate.value, now)
    }
  }

  /** An email sent by EmailService.sendVerificationEmail. */
  datatype SentEmail = SentEmail(to: Patient, token: string)

  /**
   * deleteByPatientIdAndTokenType: the table without the rows of (`patient`,
   * `tokenType`). Tables are keyed by the token string, their unique column.
   */
  function KeptTokens(ts: map<string, VerificationToken>, patient: Patient, tokenType: TokenType)
    : (r: map<string, VerificationToken>)
    reads ts.Values
    ensures forall k :: k in r <==> k in ts && !(ts[k].patient == patient && ts[k].tokenType == tokenType)
    ensures forall k :: k in r ==> r[k] == ts[k]
  {
    map k | k in ts && !(ts[k].patient == patient && ts[k].tokenType == tokenType) :: ts[k]
  }

  /** Every row is stored under its own token string, has its expiry set and belongs to a known patient. */
  predicate WellFormed(ts: map<string, VerificationToken>, known: seq<Patient>)
    reads ts.Values
  {
    forall k :: k in ts ==> ts[k].token == k && ts[k].expiryDate.Some? && ts[k].patient in known
  }

  /** At most one row per (patient, token type). */
  predicate OnePerPatientAndType(ts: map<string, VerificationToken>)
    reads ts.Values
  {
    forall k1, k2 :: k1 in ts && k2 in ts && k1 != k2 ==>
      !(ts[k1].patient == ts[k2].patient && ts[k1].tokenType == ts[k2].tokenType)
  }

  /** The builder call of createVerificationToken followed by onCreate when the row is saved at `now`. */
  method NewToken(token: string, patient: Patient, tokenType: TokenType, now: Instant) returns (t: VerificationToken)
    ensures fresh(t)
    ensures t.token == token && t.patient == patient && t.tokenType == tokenType
    ensures t.expiryDate == Some(now + ExpirationHours * SecondsPerHour)
  {
    t := new VerificationToken(token, patient, tokenType);
    t.OnCreate(now);
  }

  /**
   * Replacing the rows of a (patient, type) by one new row keeps the table's
   * invariants, and afterwards that row is the pair's only one.
   */
  lemma ReplaceInvariants(ts: map<string, VerificationToken>, t: VerificationToken, known: seq<Patient>)
    requires WellFormed(ts, known) && OnePerPatientAndType(ts)
    requires t.token !in ts && t.expiryDate.Some? && t.patient in known
    ensures var r := KeptTokens(ts, t.patient, t.tokenType)[t.token := t];
      && WellFormed(r, known) && OnePerPatientAndType(r)
      && forall k :: k in r && r[k].patient == t.patient && r[k].tokenType == t.tokenType ==> k == t.token
  {
  }

  /** Deleting a row keeps the table's invariants. */
  lemma RemoveInvariants(ts: map<string, VerificationToken>, token: string, known: seq<Patient>)
    requires WellFormed(ts, known) && OnePerPatientAndType(ts)
    ensures WellFormed(ts - {token}, known) && OnePerPatientAndType(ts - {token})
  {
  }

  /**
   * VerificationService: the token table, the patient table it shares with the
   * patient service, and the emails sent so far.
   */
  class VerificationService {
    const patients: PatientRepository
    var tokens: map<string, VerificationToken>
    var outbox: seq<SentEmail>

    /** Stored tokens are keyed by their string, have an expiry, and there is at most one per (patient, type). */
    ghost predicate Valid()
      reads this, patients, tokens.Values
    {
      WellFormed(tokens, patients.patients) && OnePerPatientAndType(tokens)
    }

    constructor (patients: PatientRepository)
      ensures this.patients == patients && tokens == map[] && outbox == [] && Valid()
    {
      this.patients := patients;
      tokens := map[];
      outbox := [];
    }

    /**
     * createVerificationToken at instant `now`: the patient's tokens of that type are
     * deleted and a new one, expiring 24 hours later, is stored; it is then the
     * pair's only token. Only an EMAIL_VERIFICATION token is emailed. Tokens of
     * other patients or other types stay. `token` is the random UUID's text, new
     * to the table.
     */
    method CreateVerificationToken(patient: Patient, tokenType: TokenType, token: string, now: Instant)
      requires Valid()
      requires patient in patients.patients
      requires token !in tokens
      modifies this
      ensures Valid()
      ensures token in tokens
      ensures tokens == old(KeptTokens(tokens, patient, tokenType))[token := tokens[token]]
      ensures forall k :: k in tokens && tokens[k].patient == patient && tokens[k].tokenType == tokenType ==> k == token
      ensures var t := tokens[token];
        && fresh(t)
        && t.token == token && t.patient == patient && t.tokenType == tokenType
        && t.expiryDate == Some(now + ExpirationHours * SecondsPerHour)
      ensures outbox == (if tokenType == EmailVerification then old(outbox) + [SentEmail(patient, token)]
                         else old(outbox))
    {
      ghost var before := tokens;
      var kept := KeptTokens(tokens, patient, tokenType);
      var t := NewToken(token, patient, tokenType, now);
      if tokenType == EmailVerification {
        outbox := outbox + [SentEmail(patient, token)];
      }
      tokens := kept[token := t];
      ReplaceInvariants(before, t, patients.patients);
    }

    /**
     * verifyEmail with `token` at instant `now`. An unknown token is an
     * InvalidTokenException; an expired one an ExpiredTokenException, whatever its
     * type; a token of another type an InvalidTokenException. Otherwise the
     * patient's email is verified and the account activated, and the token is
     * deleted.
     */
    method VerifyEmail(token: string, now: Instant) returns (o: Outcome)
      requires Valid()
      modifies this, patients.patients`emailVerified, patients.patients`isActive
      ensures Valid()
      ensures token !in old(tokens) ==> o == Fail(InvalidToken)
      ensures token in old(tokens) && old(tokens[token].IsExpired(now)) ==> o == Fail(ExpiredToken)
      ensures (token in old(tokens) && !old(tokens[token].IsExpired(now))
               && old(tokens[token].tokenType) != EmailVerification) ==> o == Fail(InvalidToken)
      ensures o == Pass <==> token in old(tokens) && !old(tokens[token].IsExpired(now))
                             && old(tokens[token].tokenType) == EmailVerification
      ensures o.Fail? ==> tokens == old(tokens) && unchanged(patients.patients)
      ensures o == Pass ==>
        var p := old(tokens[token].patient);
        && tokens == old(tokens) - {token}
        && p.emailVerified && p.isActive
        && (forall q :: q in patients.patients && q != p ==> unchanged(q))
      ensures outbox == old(outbox)
    {
      if token !in tokens {
        return Fail(InvalidToken);
      }
      var t := tokens[token];
      if t.IsExpired(now) {
        return Fail(ExpiredToken);
      }
      if t.tokenType != EmailVerification {
        return Fail(InvalidToken);
      }
      var p := t.patient;
      p.MarkEmailVerified();
      RemoveInvariants(tokens, token, patients.patients);
      tokens := tokens - {token};
      o := Pass;
    }

    /** A token that verified an email cannot be used a second time. */
    method VerifyEmailTwice(token: string, now: Instant) returns (first: Outcome, second: Outcome)
      requires Valid()
      modifies this, patients.patients`emailVerified, patients.patients`isActive
      ensures first == Pass ==> second == Fail(InvalidToken)
    {
      first := VerifyEmail(token, now);
      second := VerifyEmail(token, now);
    }

    /**
     * resendVerificationEmail for `email` at instant `now`: an unknown email is a
     * ResourceNotFoundException, an already verified patient an
     * IllegalStateException; otherwise the patient's EMAIL_VERIFICATION token is
     * replaced by a new one, `token`, which is emailed.
     */
    method ResendVerificationEmail(email: string, token: string, now: Instant) returns (o: Outcome)
      requires Valid() && patients.Valid()
      requires token !in tokens
      modifies this
      ensures Valid()
      ensures var found := patients.FindByEmail(email);
        && (found.None? ==> o == Fail(ResourceNotFound))
        && (found.Some? && patients.patients[found.value].emailVerified ==> o == Fail(IllegalState))
        && (found.Some? && !patients.patients[found.value].emailVerified ==> o == Pass)
      ensures o.Fail? ==> tokens == old(tokens) && outbox == old(outbox)
      ensures o == Pass ==>
        var p := patients.patients[patients.FindByEmail(email).value];
        && token in tokens
        && tokens == old(KeptTokens(tokens, p, EmailVerification))[token := tokens[token]]
        && var t := tokens[token];
        && fresh(t) && t.patient == p && t.tokenType == EmailVerification
        && t.expiryDate == Some(now + ExpirationHours * SecondsPerHour)
        && outbox == old(outbox) + [SentEmail(p, token)]
    {
      var found := patients.FindByEmail(email);
      if found.None? {
        return Fail(ResourceNotFound);
      }
      var p := patients.patients[found.value];
      if p.emailVerified {
        return Fail(IllegalState);
      }
      CreateVerificationToken(p, EmailVerification, token, now);
      assert patients.FindByEmail(email) == found;
      o := Pass;
    }
  }
}
