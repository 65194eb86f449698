/**
 * src/auth/auth.service.ts: OTP-gated sign-in into the renter or merchant
 * app, profile completion, KYC submission and the registration status, and
 * the refresh-token table (one-time rotation, logout).
 *
 * The access and refresh tokens are signed by JWT code outside this model:
 * the refresh token a signing produces is the `newToken` argument. The
 * clock is `now` in milliseconds, and the configured refresh lifetime
 * (`JWT_REFRESH_EXPIRATION`) is the `config` argument.
 */
module Auth {
  import opened Common
  import opened Schema
  import Helpers
  import Uploads
  import Otp
  import KycReview

  const InvalidStep := "Invalid registration step"
  const KycOnlyRenters := "KYC is only for renters"
  const ProfileFirst := "Please complete your profile first"
  const KycAlreadySubmitted := "KYC already submitted"
  const OtpSentReply := "If this number is registered, an OTP has been sent."
  const TokenFailure := "Failed to generate authentication tokens"
  const RefreshRequired := "Refresh token is required"
  const InvalidRefreshToken := "Invalid refresh token"
  const RefreshExpired := "Refresh token expired"
  const RefreshFailed := "Failed to refresh token"

  // ---------------------------------------------------------------------
  // The role-mismatch guard of sendOTP and verifyOTPAndAuthenticate
  // ---------------------------------------------------------------------

  /** `role.charAt(0) + role.slice(1).toLowerCase()` */
  function RoleName(r: Role): (s: string)
    ensures |s| == |RoleText(r)| && s[0] == RoleText(r)[0]
    ensures forall i :: 1 <= i < |s| ==> s[i] == Helpers.ToLower(RoleText(r)[i])
  {
    [RoleText(r)[0]] + Helpers.LowerAll(RoleText(r)[1..])
  }

  function RegisteredAs(r: Role): string
  {
    "This number is already registered as a " + RoleName(r) + ". Please use the correct app."
  }

  /** A phone registered under another role is refused with the role it is registered as. */
  function RoleConflict(users: seq<User>, phone: string, role: Role): (f: Option<Failure>)
    requires UsersOk(users)
    ensures f.Some? <==> exists i :: 0 <= i < |users| && users[i].phone == phone && users[i].role != role
    ensures f.Some? ==> exists i :: 0 <= i < |users| && users[i].phone == phone &&
                                   f == Some(Forbidden(RegisteredAs(users[i].role)))
  {
    match PhoneIndex(users, phone)
    case None => None
    case Some(i) => if users[i].role != role then Some(Forbidden(RegisteredAs(users[i].role))) else None
  }

  /**
   * `sendOTP(dto)`: a role mismatch is refused before any OTP is issued;
   * otherwise the only error that escapes is the resend cooldown, and the
   * reply never says whether the number is registered.
   */
  method SendOtp(db: Database, otp: Otp.OtpService, phone: string, role: Role, now: int, draw: nat)
    returns (r: Result<string>)
    requires db.Valid() && otp.Valid()
    requires draw < 900000
    modifies otp
    ensures otp.Valid()
    ensures RoleConflict(db.users, phone, role).Some? ==>
      r == Err(RoleConflict(db.users, phone, role).value) && otp.records == old(otp.records) && otp.sent == old(otp.sent)
    ensures RoleConflict(db.users, phone, role).None? ==>
      (r.Ok? <==> otp.TestMode() || Otp.FindRecent(old(otp.records), phone, now, otp.cooldownSeconds).None?)
    ensures RoleConflict(db.users, phone, role).None? ==>
      && otp.records == otp.AfterSend(old(otp.records), old(otp.nextId), phone, now, draw)
      && otp.sent == old(otp.sent) + (if r.Ok? && !otp.TestMode() then [Otp.Delivery(phone, otp.IssuedCode(draw))] else [])
    ensures RoleConflict(db.users, phone, role).None? && r.Err? ==>
      var i := Otp.FindRecent(old(otp.records), phone, now, otp.cooldownSeconds).value;
      r.error == TooManyRequests(Otp.WaitSeconds(old(otp.records)[i].lastSentAt, now, otp.cooldownSeconds))
    ensures r.Ok? ==> r.value == OtpSentReply
    ensures r.Err? ==> r.error.Forbidden? || r.error.TooManyRequests?
  {
    var conflict := RoleConflict(db.users, phone, role);
    if conflict.Some? {
      return Err(conflict.value);
    }
    var sent := otp.SendOtp(phone, now, draw);
    if sent.Err? {
      return Err(sent.error);
    }
    r := Ok(OtpSentReply);
  }

  // ---------------------------------------------------------------------
  // verifyOTPAndAuthenticate and generateTokens
  // ---------------------------------------------------------------------

  datatype SignedIn = SignedIn(userId: nat, users: seq<User>)

  /**
   * The user table after a verified sign-in: an unknown phone registers a
   * user with the requested role; a known phone must have that role, is
   * marked verified, and keeps its registration step if it has one.
   */
  function SignIn(users: seq<User>, phone: string, role: Role): (r: Result<SignedIn>)
    requires UsersOk(users)
    ensures r.Err? <==> RoleConflict(users, phone, role).Some?
    ensures r.Err? ==> r.error == RoleConflict(users, phone, role).value
    ensures r.Ok? ==>
      var id, users' := r.value.userId, r.value.users;
      && id < |users'| && users'[id].phone == phone && users'[id].role == role
      && users'[id].phoneVerified && users'[id].registrationStep.Some?
    ensures r.Ok? && (forall j :: 0 <= j < |users| ==> users[j].phone != phone) ==>
      r.value.userId == |users| && r.value.users == users + [NewUser(phone, role)]
    ensures r.Ok? && (exists j :: 0 <= j < |users| && users[j].phone == phone) ==>
      var id, users' := r.value.userId, r.value.users;
      && id < |users| && users[id].phone == phone && |users'| == |users|
      && (forall j :: 0 <= j < |users| && j != id ==> users'[j] == users[j])
      && users'[id] == users[id].(phoneVerified := true, registrationStep := users'[id].registrationStep)
      && (users[id].registrationStep.Some? ==> users'[id].registrationStep == users[id].registrationStep)
  {
    match PhoneIndex(users, phone)
    case None => Ok(SignedIn(|users|, users + [NewUser(phone, role)]))
    case Some(i) =>
      if users[i].role != role then Err(Forbidden(RegisteredAs(users[i].role)))
      else
        var step := if users[i].registrationStep.Some? then users[i].registrationStep else Some(PhoneVerified);
        Ok(SignedIn(i, users[i := users[i].(phoneVerified := true, registrationStep := step)]))
  }

  /** A sign-in never breaks a table invariant: a user is only added for a phone nobody has. */
  lemma SignInKeepsInvariants(users: seq<User>, phone: string, role: Role, kycs: seq<Kyc>, vehicles: seq<Vehicle>,
                              nextVehicleId: nat, bookings: seq<Booking>, tokens: map<string, RefreshToken>)
    requires UsersOk(users) && KycsOk(kycs, users) && VehiclesOk(vehicles, users, nextVehicleId)
    requires BookingsOk(bookings, users) && TokensOk(tokens, users)
    requires SignIn(users, phone, role).Ok?
    ensures var users' := SignIn(users, phone, role).value.users;
      && |users'| >= |users|
      && UsersOk(users') && KycsOk(kycs, users') && VehiclesOk(vehicles, users', nextVehicleId)
      && BookingsOk(bookings, users') && TokensOk(tokens, users')
  {
    var users' := SignIn(users, phone, role).value.users;
    match PhoneIndex(users, phone)
    case None =>
      assert forall k :: 0 <= k < |users| ==> users'[k] == users[k];
    case Some(i) =>
      IdentitiesKeepInvariants(users, users', kycs, vehicles, nextVehicleId, bookings, tokens);
  }

  /** `config.get('JWT_REFRESH_EXPIRATION') || '7d'` */
  function RefreshExpiration(config: Option<string>): (s: string)
    ensures s != ""
  {
    if config.None? || config.value == "" then "7d" else config.value
  }

  /**
   * The refresh-token row `generateTokens` stores. `token` is a unique
   * column: a clash makes the insert fail, which the service reports as a
   * 500 error.
   */
  function Issue(tokens: map<string, RefreshToken>, token: string, userId: nat, now: int, expiration: string)
    : (r: Result<map<string, RefreshToken>>)
    ensures r.Err? <==> token in tokens
    ensures r.Err? ==> r.error == InternalError(TokenFailure)
    ensures r.Ok? ==>
      && token in r.value && r.value[token].userId == userId
      && r.value[token].expiresAt == now + ParseExpirationToDays(expiration) * DayMs
      && (forall t :: t != token ==> (t in r.value <==> t in tokens))
      && (forall t :: t in tokens ==> r.value[t] == tokens[t])
  {
    if token in tokens then Err(InternalError(TokenFailure))
    else Ok(tokens[token := RefreshToken(userId, now + ParseExpirationToDays(expiration) * DayMs)])
  }

  /** A token issued to an existing user keeps every token pointing at an existing user. */
  lemma IssueKeepsTokens(tokens: map<string, RefreshToken>, users: seq<User>, token: string, userId: nat,
                         now: int, expiration: string)
    requires TokensOk(tokens, users) && userId < |users|
    requires Issue(tokens, token, userId, now, expiration).Ok?
    ensures TokensOk(Issue(tokens, token, userId, now, expiration).value, users)
  {
    var issued := Issue(tokens, token, userId, now, expiration).value;
    forall t | t in issued ensures issued[t].userId < |users| {
      if t != token { assert t in tokens; }
    }
  }

  datatype Session = Session(userId: nat, refreshToken: string)

  /**
   * `verifyOTPAndAuthenticate(dto)`: the OTP is verified first, and nothing
   * else happens when it is refused.
   */
  method VerifyOtpAndAuthenticate(db: Database, otp: Otp.OtpService, phone: string, code: string, role: Role,
                                  now: int, newToken: string, config: Option<string>)
    returns (r: Result<Session>)
    requires db.Valid() && otp.Valid()
    modifies otp, db`users, db`refreshTokens
    ensures db.Valid() && otp.Valid()
    ensures otp.records == otp.AfterVerify(old(otp.records), phone, code, now)
    ensures otp.nextId == old(otp.nextId) && otp.sent == old(otp.sent)
    ensures !old(otp.Accepts(phone, code, now)) ==>
      && r.Err? && r.error.BadRequest?
      && db.users == old(db.users) && db.refreshTokens == old(db.refreshTokens)
    ensures old(otp.Accepts(phone, code, now)) ==>
      Authenticated(old(db.users), old(db.refreshTokens), phone, role, now, newToken, config, db.users, db.refreshTokens, r)
  {
    var verified := otp.VerifyOtp(phone, code, now);
    if verified.Err? {
      return Err(verified.error);
    }
    r := Authenticate(db, phone, role, now, newToken, config);
  }

  /**
   * What a verified sign-in leaves behind: the sign-in writes the user table,
   * then the refresh token is stored. The user row stays written when storing
   * the token fails afterwards.
   */
  ghost predicate Authenticated(users: seq<User>, tokens: map<string, RefreshToken>, phone: string, role: Role,
                                now: int, newToken: string, config: Option<string>,
                                users': seq<User>, tokens': map<string, RefreshToken>, r: Result<Session>)
    requires UsersOk(users)
  {
    match SignIn(users, phone, role)
    case Err(e) => r == Err(e) && users' == users && tokens' == tokens
    case Ok(s) =>
      && users' == s.users
      && match Issue(tokens, newToken, s.userId, now, RefreshExpiration(config))
         case Err(e) => r == Err(e) && tokens' == tokens
         case Ok(issued) => r == Ok(Session(s.userId, newToken)) && tokens' == issued
  }

  /** The part of `verifyOTPAndAuthenticate` after the OTP check, with `generateTokens`. */
  method Authenticate(db: Database, phone: string, role: Role, now: int, newToken: string, config: Option<string>)
    returns (r: Result<Session>)
    requires db.Valid()
    modifies db`users, db`refreshTokens
    ensures db.Valid()
    ensures Authenticated(old(db.users), old(db.refreshTokens), phone, role, now, newToken, config, db.users, db.refreshTokens, r)
  {
    var signIn := SignIn(db.users, phone, role);
    if signIn.Err? {
      return Err(signIn.error);
    }
    var s := signIn.value;
    SignInKeepsInvariants(db.users, phone, role, db.kycs, db.vehicles, db.nextVehicleId, db.bookings, db.refreshTokens);
    db.users := s.users;
    var issued := Issue(db.refreshTokens, newToken, s.userId, now, RefreshExpiration(config));
    if issued.Err? {
      return Err(issued.error);
    }
    IssueKeepsTokens(db.refreshTokens, db.users, newToken, s.userId, now, RefreshExpiration(config));
    db.refreshTokens := issued.value;
    r := Ok(Session(s.userId, newToken));
  }

  // ---------------------------------------------------------------------
  // completeRenterProfile, completeMerchantProfile
  // ---------------------------------------------------------------------

  datatype RenterProfile = RenterProfile(firstName: string, lastName: string, email: Option<string>)

  datatype MerchantProfile = MerchantProfile(
    firstName: string,
    lastName: string,
    email: Option<string>,
    businessName: string,
    addressLine1: string,
    addressLine2: Option<string>,
    city: string,
    state: string,
    postalCode: string,
    country: string,
    latitude: Option<real>,
    longitude: Option<real>)

  /** Both profile completions: the user must exist and be at PHONE_VERIFIED. */
  function ProfileCheck(users: seq<User>, userId: nat): (f: Option<Failure>)
    ensures f.None? <==> userId < |users| && users[userId].registrationStep == Some(PhoneVerified)
    ensures userId >= |users| ==> f == Some(Unauthorized(UserNotFound))
    ensures userId < |users| && users[userId].registrationStep != Some(PhoneVerified) ==>
              f == Some(Conflict(InvalidStep))
  {
    if userId >= |users| then Some(Unauthorized(UserNotFound))
    else if users[userId].registrationStep != Some(PhoneVerified) then Some(Conflict(InvalidStep))
    else None
  }

  /** The renter's row after profile completion; an omitted e-mail leaves the stored one. */
  function WithRenterProfile(u: User, dto: RenterProfile): (u': User)
    ensures u'.registrationStep == Some(ProfileCompleted)
    ensures u'.firstName == Some(dto.firstName) && u'.lastName == Some(dto.lastName)
    ensures u'.email == (if dto.email.Some? then dto.email else u.email)
    ensures u' == u.(firstName := u'.firstName, lastName := u'.lastName, email := u'.email,
                     registrationStep := u'.registrationStep)
  {
    u.(firstName := Some(dto.firstName), lastName := Some(dto.lastName), email := Keep(dto.email, u.email),
       registrationStep := Some(ProfileCompleted))
  }

  /** The stored value of an optional business column. */
  function StoredLine2(u: User): Option<string>
  {
    if u.business.Some? then u.business.value.addressLine2 else None
  }

  function StoredLatitude(u: User): Option<real>
  {
    if u.business.Some? then u.business.value.latitude else None
  }

  function StoredLongitude(u: User): Option<real>
  {
    if u.business.Some? then u.business.value.longitude else None
  }

  /**
   * The merchant's row after profile completion: names, business and address
   * are written; the optional columns that are omitted keep their values.
   */
  function WithMerchantProfile(u: User, dto: MerchantProfile): (u': User)
    ensures u'.registrationStep == Some(ProfileCompleted)
    ensures u'.firstName == Some(dto.firstName) && u'.lastName == Some(dto.lastName)
    ensures u'.email == (if dto.email.Some? then dto.email else u.email)
    ensures u'.business.Some?
    ensures var b := u'.business.value;
      && b.businessName == dto.businessName && b.addressLine1 == dto.addressLine1
      && b.city == dto.city && b.state == dto.state && b.postalCode == dto.postalCode && b.country == dto.country
    ensures var b := u'.business.value;
      && b.addressLine2 == (if dto.addressLine2.Some? then dto.addressLine2 else StoredLine2(u))
      && b.latitude == (if dto.latitude.Some? then dto.latitude else StoredLatitude(u))
      && b.longitude == (if dto.longitude.Some? then dto.longitude else StoredLongitude(u))
    ensures u' == u.(firstName := u'.firstName, lastName := u'.lastName, email := u'.email,
                     business := u'.business, registrationStep := u'.registrationStep)
  {
    var b := Business(dto.businessName, dto.addressLine1, Keep(dto.addressLine2, StoredLine2(u)),
                      dto.city, dto.state, dto.postalCode, dto.country,
                      Keep(dto.latitude, StoredLatitude(u)), Keep(dto.longitude, StoredLongitude(u)));
    u.(firstName := Some(dto.firstName), lastName := Some(dto.lastName), email := Keep(dto.email, u.email),
       business := Some(b), registrationStep := Some(ProfileCompleted))
  }

  method CompleteRenterProfile(db: Database, userId: nat, dto: RenterProfile) returns (r: Result<User>)
    requires db.Valid()
    modifies db`users
    ensures db.Valid()
    ensures ProfileCheck(old(db.users), userId).Some? ==>
      r == Err(ProfileCheck(old(db.users), userId).value) && db.users == old(db.users)
    ensures ProfileCheck(old(db.users), userId).None? ==>
      && r == Ok(WithRenterProfile(old(db.users)[userId], dto))
      && db.users == old(db.users)[userId := r.value]
  {
    var check := ProfileCheck(db.users, userId);
    if check.Some? {
      return Err(check.value);
    }
    var u := WithRenterProfile(db.users[userId], dto);
    IdentitiesKeepInvariants(db.users, db.users[userId := u], db.kycs, db.vehicles,
                             db.nextVehicleId, db.bookings, db.refreshTokens);
    db.users := db.users[userId := u];
    r := Ok(u);
  }

  /** `completeMerchantProfile`: the service itself does not check the caller's role. */
  method CompleteMerchantProfile(db: Database, userId: nat, dto: MerchantProfile) returns (r: Result<User>)
    requires db.Valid()
    modifies db`users
    ensures db.Valid()
    ensures ProfileCheck(old(db.users), userId).Some? ==>
      r == Err(ProfileCheck(old(db.users), userId).value) && db.users == old(db.users)
    ensures ProfileCheck(old(db.users), userId).None? ==>
      && r == Ok(WithMerchantProfile(old(db.users)[userId], dto))
      && db.users == old(db.users)[userId := r.value]
  {
    var check := ProfileCheck(db.users, userId);
    if check.Some? {
      return Err(check.value);
    }
    var u := WithMerchantProfile(db.users[userId], dto);
    IdentitiesKeepInvariants(db.users, db.users[userId := u], db.kycs, db.vehicles,
                             db.nextVehicleId, db.bookings, db.refreshTokens);
    db.users := db.users[userId := u];
    r := Ok(u);
  }

  /** A profile is completed once: afterwards both completions refuse with Conflict. */
  lemma ProfileCompletedOnce(users: seq<User>, userId: nat, renter: RenterProfile, merchant: MerchantProfile)
    requires ProfileCheck(users, userId).None?
    ensures ProfileCheck(users[userId := WithRenterProfile(users[userId], renter)], userId) == Some(Conflict(InvalidStep))
    ensures ProfileCheck(users[userId := WithMerchantProfile(users[userId], merchant)], userId) == Some(Conflict(InvalidStep))
  {
  }

  // ---------------------------------------------------------------------
  // submitKYC
  // ---------------------------------------------------------------------

  datatype KycSubmission = KycSubmission(licenseNumber: string, licenseImageKey: string, licenseExpiryDate: int)

  /** The guards of `submitKYC`, in order. */
  function SubmitKycCheck(users: seq<User>, kycs: seq<Kyc>, userId: nat): (f: Option<Failure>)
    ensures f.None? <==>
      && userId < |users| && users[userId].role == Renter
      && users[userId].registrationStep == Some(ProfileCompleted)
      && forall k :: 0 <= k < |kycs| ==> kycs[k].userId != userId
    ensures userId >= |users| ==> f == Some(Unauthorized(UserNotFound))
    ensures userId < |users| && users[userId].role != Renter ==> f == Some(Conflict(KycOnlyRenters))
    ensures (userId < |users| && users[userId].role == Renter &&
             users[userId].registrationStep != Some(ProfileCompleted)) ==> f == Some(Conflict(ProfileFirst))
    ensures (userId < |users| && users[userId].role == Renter &&
             users[userId].registrationStep == Some(ProfileCompleted) &&
             exists k :: 0 <= k < |kycs| && kycs[k].userId == userId) ==> f == Some(Conflict(KycAlreadySubmitted))
  {
    if userId >= |users| then Some(Unauthorized(UserNotFound))
    else if users[userId].role != Renter then Some(Conflict(KycOnlyRenters))
    else if users[userId].registrationStep != Some(ProfileCompleted) then Some(Conflict(ProfileFirst))
    else if KycIndex(kycs, userId).Some? then Some(Conflict(KycAlreadySubmitted))
    else None
  }

  /**
   * `submitKYC(userId, dto)`: one PENDING KYC record with the licence image's
   * public URL, and the user moves to KYC_PENDING. The URL is built after the
   * guards and before anything is written.
   */
  method SubmitKyc(db: Database, userId: nat, dto: KycSubmission, publicBase: string) returns (r: Result<nat>)
    requires db.Valid()
    modifies db`kycs, db`users
    ensures db.Valid()
    ensures SubmitKycCheck(old(db.users), old(db.kycs), userId).Some? ==>
      && r == Err(SubmitKycCheck(old(db.users), old(db.kycs), userId).value)
      && db.kycs == old(db.kycs) && db.users == old(db.users)
    ensures SubmitKycCheck(old(db.users), old(db.kycs), userId).None? ==>
      var url := Uploads.BuildPublicUrl(publicBase, dto.licenseImageKey);
      && (url.Err? ==> r == Err(url.error) && db.kycs == old(db.kycs) && db.users == old(db.users))
      && (url.Ok? ==>
            && r == Ok(|old(db.kycs)|)
            && db.kycs == old(db.kycs) + [Kyc(userId, dto.licenseNumber, url.value, dto.licenseExpiryDate,
                                              KycPendingReview, None, None)]
            && db.users == old(db.users)[userId := old(db.users)[userId].(registrationStep := Some(KycPending))])
  {
    var check := SubmitKycCheck(db.users, db.kycs, userId);
    if check.Some? {
      return Err(check.value);
    }
    var url := Uploads.BuildPublicUrl(publicBase, dto.licenseImageKey);
    if url.Err? {
      return Err(url.error);
    }
    r := Ok(|db.kycs|);
    StoreSubmission(db, Kyc(userId, dto.licenseNumber, url.value, dto.licenseExpiryDate, KycPendingReview, None, None));
  }

  /** The two writes of a successful submission: the KYC row, then the owner's step. */
  method StoreSubmission(db: Database, k: Kyc)
    requires db.Valid()
    requires k.userId < |db.users| && db.users[k.userId].role == Renter
    requires forall j :: 0 <= j < |db.kycs| ==> db.kycs[j].userId != k.userId
    modifies db`kycs, db`users
    ensures db.Valid()
    ensures db.kycs == old(db.kycs) + [k]
    ensures db.users == old(db.users)[k.userId := old(db.users)[k.userId].(registrationStep := Some(KycPending))]
  {
    var u := db.users[k.userId].(registrationStep := Some(KycPending));
    SubmissionKeepsInvariants(db.users, k.userId, u, db.kycs, k, db.vehicles, db.nextVehicleId,
                              db.bookings, db.refreshTokens);
    db.kycs := db.kycs + [k];
    db.users := db.users[k.userId := u];
  }

  /** A renter's first KYC record, with the step change beside it, keeps every table invariant. */
  lemma SubmissionKeepsInvariants(users: seq<User>, userId: nat, u: User, kycs: seq<Kyc>, k: Kyc,
                                  vehicles: seq<Vehicle>, nextVehicleId: nat, bookings: seq<Booking>,
                                  tokens: map<string, RefreshToken>)
    requires UsersOk(users) && KycsOk(kycs, users) && VehiclesOk(vehicles, users, nextVehicleId)
    requires BookingsOk(bookings, users) && TokensOk(tokens, users)
    requires userId < |users| && u.phone == users[userId].phone && u.role == users[userId].role
    requires k.userId == userId && users[userId].role == Renter
    requires forall j :: 0 <= j < |kycs| ==> kycs[j].userId != userId
    ensures var users' := users[userId := u];
      && UsersOk(users') && KycsOk(kycs + [k], users') && VehiclesOk(vehicles, users', nextVehicleId)
      && BookingsOk(bookings, users') && TokensOk(tokens, users')
  {
    var users' := users[userId := u];
    IdentitiesKeepInvariants(users, users', kycs, vehicles, nextVehicleId, bookings, tokens);
    var kycs' := kycs + [k];
    assert forall j :: 0 <= j < |kycs| ==> kycs'[j] == kycs[j];
  }

  /**
   * A rejected KYC record stays in the table, so its owner is back at
   * PROFILE_COMPLETED yet cannot submit again.
   */
  lemma RejectedKycBlocksResubmission(users: seq<User>, kycs: seq<Kyc>, kycId: nat, reason: string)
    requires KycsOk(kycs, users)
    requires KycReview.DecisionCheck(kycs, kycId).None?
    ensures var owner := kycs[kycId].userId;
      var users' := users[owner := KycReview.WithKycOutcome(users[owner], ProfileCompleted, LicenseRejected)];
      var kycs' := kycs[kycId := KycReview.Rejected(kycs[kycId], reason)];
      && users'[owner].registrationStep == Some(ProfileCompleted)
      && NextRegistrationStep(users'[owner].registrationStep, users'[owner].role) == "submit_kyc"
      && SubmitKycCheck(users', kycs', owner) == Some(Conflict(KycAlreadySubmitted))
  {
    var owner := kycs[kycId].userId;
    var kycs' := kycs[kycId := KycReview.Rejected(kycs[kycId], reason)];
    assert kycs'[kycId].userId == owner;
  }

  // ---------------------------------------------------------------------
  // getRegistrationStatus and getNextRegistrationStep
  // ---------------------------------------------------------------------

  /** `getNextRegistrationStep(step, role)`. Its fall-through 'unknown' cannot be reached. */
  function NextRegistrationStep(step: Option<RegistrationStep>, role: Role): (next: string)
    ensures next in {"complete_profile", "submit_kyc", "waiting_for_kyc_approval", "registration_complete"}
  {
    match step
    case None => "complete_profile"
    case Some(PhoneVerified) => "complete_profile"
    case Some(ProfileCompleted) => if role == Renter then "submit_kyc" else "registration_complete"
    case Some(KycPending) => "waiting_for_kyc_approval"
    case Some(KycApproved) => "registration_complete"
  }

  datatype RegistrationStatus = RegistrationStatus(user: User, nextStep: string)

  /** `getRegistrationStatus(userId)` */
  function GetRegistrationStatus(users: seq<User>, userId: nat): (r: Result<RegistrationStatus>)
    ensures r.Err? <==> userId >= |users|
    ensures r.Err? ==> r.error == Unauthorized(UserNotFound)
    ensures r.Ok? ==> r.value.user == users[userId]
    ensures r.Ok? ==> r.value.nextStep == NextRegistrationStep(users[userId].registrationStep, users[userId].role)
  {
    if userId >= |users| then Err(Unauthorized(UserNotFound))
    else Ok(RegistrationStatus(users[userId], NextRegistrationStep(users[userId].registrationStep, users[userId].role)))
  }

  /**
   * The advertised next step agrees with the guards: whoever may complete a
   * profile is told to, whoever may submit a KYC is told to, and a renter
   * told to submit one is refused only because a record already exists.
   */
  lemma NextStepAgreesWithGuards(users: seq<User>, kycs: seq<Kyc>, userId: nat)
    requires userId < |users|
    ensures var next := GetRegistrationStatus(users, userId).value.nextStep;
      && (ProfileCheck(users, userId).None? ==> next == "complete_profile")
      && (SubmitKycCheck(users, kycs, userId).None? ==> next == "submit_kyc")
      && (next == "submit_kyc" ==>
            SubmitKycCheck(users, kycs, userId).None? ||
            SubmitKycCheck(users, kycs, userId) == Some(Conflict(KycAlreadySubmitted)))
      && (next == "waiting_for_kyc_approval" <==> users[userId].registrationStep == Some(KycPending))
  {
  }

  // ---------------------------------------------------------------------
  // refresh and logout
  // ---------------------------------------------------------------------

  datatype Rotation = Rotation(result: Result<Session>, tokens: map<string, RefreshToken>)

  /**
   * `refresh(token)` on the refresh-token table. An expired token is deleted
   * before it is refused. On success the new token is stored before the
   * presented one is deleted, and a failure to store it is reported as an
   * Unauthorized error with the table unchanged.
   */
  function Rotate(tokens: map<string, RefreshToken>, token: string, now: int, newToken: string, expiration: string)
    : (r: Rotation)
    ensures token == "" ==> r == Rotation(Err(Unauthorized(RefreshRequired)), tokens)
    ensures token != "" && token !in tokens ==> r == Rotation(Err(Unauthorized(InvalidRefreshToken)), tokens)
    ensures token != "" && token in tokens && tokens[token].expiresAt < now ==>
              r == Rotation(Err(Unauthorized(RefreshExpired)), tokens - {token})
    ensures r.result.Err? ==> r.result.error.Unauthorized?
    ensures r.result.Ok? <==>
      token != "" && token in tokens && tokens[token].expiresAt >= now && newToken !in tokens
    ensures r.result.Ok? ==>
      && r.result.value == Session(tokens[token].userId, newToken)
      && token !in r.tokens && newToken in r.tokens
      && r.tokens[newToken].userId == tokens[token].userId
      && r.tokens[newToken].expiresAt == now + ParseExpirationToDays(expiration) * DayMs
      && (forall t :: t != token && t != newToken ==> (t in r.tokens <==> t in tokens))
      && (forall t :: t in tokens && t != token && t != newToken ==> r.tokens[t] == tokens[t])
    ensures token != "" && token in tokens && tokens[token].expiresAt >= now && newToken in tokens ==>
              r == Rotation(Err(Unauthorized(RefreshFailed)), tokens)
  {
    if token == "" then Rotation(Err(Unauthorized(RefreshRequired)), tokens)
    else if token !in tokens then Rotation(Err(Unauthorized(InvalidRefreshToken)), tokens)
    else if tokens[token].expiresAt < now then Rotation(Err(Unauthorized(RefreshExpired)), tokens - {token})
    else
      var userId := tokens[token].userId;
      match Issue(tokens, newToken, userId, now, expiration)
      case Err(_) => Rotation(Err(Unauthorized(RefreshFailed)), tokens)
      case Ok(issued) => Rotation(Ok(Session(userId, newToken)), issued - {token})
  }

  method Refresh(db: Database, token: string, now: int, newToken: string, config: Option<string>)
    returns (r: Result<Session>)
    requires db.Valid()
    modifies db`refreshTokens
    ensures db.Valid()
    ensures r == Rotate(old(db.refreshTokens), token, now, newToken, RefreshExpiration(config)).result
    ensures db.refreshTokens == Rotate(old(db.refreshTokens), token, now, newToken, RefreshExpiration(config)).tokens
  {
    var rotation := Rotate(db.refreshTokens, token, now, newToken, RefreshExpiration(config));
    db.refreshTokens := rotation.tokens;
    r := rotation.result;
  }

  /** Refresh tokens are one-time use: a token that was rotated is refused as invalid afterwards. */
  lemma RefreshTokenOneTimeUse(tokens: map<string, RefreshToken>, token: string, now: int, newToken: string,
                               expiration: string, later: int, newerToken: string)
    requires Rotate(tokens, token, now, newToken, expiration).result.Ok?
    ensures Rotate(Rotate(tokens, token, now, newToken, expiration).tokens, token, later, newerToken, expiration).result
            == Err(Unauthorized(InvalidRefreshToken))
  {
  }

  /** `logout(token)`: the rows with that token are deleted; an empty token changes nothing. */
  function LoggedOut(tokens: map<string, RefreshToken>, token: string): (r: map<string, RefreshToken>)
    ensures token != "" ==> token !in r
    ensures forall t :: t != token ==> (t in r <==> t in tokens) && (t in r ==> r[t] == tokens[t])
    ensures token == "" ==> r == tokens
  {
    if token == "" then tokens else tokens - {token}
  }

  /** `logout` never fails. */
  method Logout(db: Database, token: string)
    requires db.Valid()
    modifies db`refreshTokens
    ensures db.Valid()
    ensures db.refreshTokens == LoggedOut(old(db.refreshTokens), token)
  {
    db.refreshTokens := LoggedOut(db.refreshTokens, token);
  }

  /** Logging out twice is logging out once, and a logged-out token no longer refreshes. */
  lemma LogoutIdempotent(tokens: map<string, RefreshToken>, token: string, now: int, newToken: string, expiration: string)
    ensures LoggedOut(LoggedOut(tokens, token), token) == LoggedOut(tokens, token)
    ensures Rotate(LoggedOut(tokens, token), token, now, newToken, expiration).result.Err?
  {
  }

  // ---------------------------------------------------------------------
  // parseExpirationToDays
  // ---------------------------------------------------------------------

  /** The pattern `^(\d+)([dhms])$`. */
  predicate ExpirationFormat(s: string)
  {
    |s| >= 2 && AllDigits(s[..|s| - 1]) && s[|s| - 1] in "dhms"
  }

  /** Days in a unit: 1 for d, 24 hours, 1440 minutes, 86400 seconds. */
  function UnitsPerDay(unit: char): (n: nat)
    ensures n >= 1
  {
    match unit
    case 'd' => 1
    case 'h' => 24
    case 'm' => 24 * 60
    case _ => 24 * 60 * 60
  }

  /**
   * `parseExpirationToDays(expiration)`: a lifetime in days, rounded up; a
   * string not of the form digits-then-unit means 7 days.
   */
  function ParseExpirationToDays(s: string): (days: nat)
    ensures !ExpirationFormat(s) ==> days == 7
  {
    if !ExpirationFormat(s) then 7
    else
      var n := ParseNat(s[..|s| - 1]);
      var unit := s[|s| - 1];
      var d := if unit == 'd' then n else CeilDiv(n, UnitsPerDay(unit));
      if d < 0 then 0 else d
  }

  /**
   * A lifetime written as a number and a unit is charged as the number of
   * started days it spans: never shorter than asked, and less than one day
   * longer.
   */
  lemma ExpirationRoundsUpToDays(digits: string, unit: char)
    requires digits != [] && AllDigits(digits) && unit in "dhms"
    ensures var n, days := ParseNat(digits), ParseExpirationToDays(digits + [unit]);
      && (unit == 'd' ==> days == n)
      && (days - 1) * UnitsPerDay(unit) < n <= days * UnitsPerDay(unit)
  {
    var s := digits + [unit];
    assert s[..|s| - 1] == digits;
    var q := CeilDiv(ParseNat(digits), UnitsPerDay(unit));
    if unit != 'd' && q < 0 {
      MulMonotone(q, 0, UnitsPerDay(unit));
      assert false;
    }
  }

  /** Without configuration the refresh token lives 7 days. */
  lemma DefaultRefreshLifetime()
    ensures ParseExpirationToDays(RefreshExpiration(None)) == 7
  {
    assert "7d" == "7" + ['d'];
    ExpirationRoundsUpToDays("7", 'd');
  }
}
