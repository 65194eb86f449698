/**
 * src/users/users.service.ts: a renter uploads a driving licence, an admin
 * approves or rejects it, and admins list the licences awaiting review.
 * `licenseStatus` written here is the gate booking creation checks.
 */
module Users {
  import opened Common
  import opened Schema
  import Uploads

  const LicenseOnlyRenters := "Only renters can upload licenses"
  const LicenseApprovalAdminOnly := "Only admins can approve licenses"
  const LicenseApprovalRenterOnly := "License approval only applies to renter accounts"

  /**
   * `uploadLicense(userId, { licenseKey })` on the user table: the updated
   * row, or the exception. The URL is built only after the role check.
   */
  function UploadLicenseOutcome(users: seq<User>, userId: nat, publicBase: string, licenseKey: string): (r: Result<User>)
    ensures userId >= |users| ==> r == Err(NotFound(UserNotFound))
    ensures userId < |users| && users[userId].role != Renter ==> r == Err(Forbidden(LicenseOnlyRenters))
    ensures userId < |users| && users[userId].role == Renter ==>
      match Uploads.BuildPublicUrl(publicBase, licenseKey)
      case Err(e) => r == Err(e)
      case Ok(url) =>
        r.Ok? && r.value.licenseUrl == Some(url) && r.value.licenseStatus == Some(LicensePending) &&
        r.value == users[userId].(licenseUrl := Some(url), licenseStatus := Some(LicensePending))
  {
    if userId >= |users| then Err(NotFound(UserNotFound))
    else if users[userId].role != Renter then Err(Forbidden(LicenseOnlyRenters))
    else
      match Uploads.BuildPublicUrl(publicBase, licenseKey)
      case Err(e) => Err(e)
      case Ok(url) => Ok(users[userId].(licenseUrl := Some(url), licenseStatus := Some(LicensePending)))
  }

  method UploadLicense(db: Database, userId: nat, publicBase: string, licenseKey: string) returns (r: Result<User>)
    requires db.Valid()
    modifies db`users
    ensures db.Valid()
    ensures r == UploadLicenseOutcome(old(db.users), userId, publicBase, licenseKey)
    ensures db.users == if r.Ok? then old(db.users)[userId := r.value] else old(db.users)
  {
    r := UploadLicenseOutcome(db.users, userId, publicBase, licenseKey);
    if r.Ok? {
      IdentitiesKeepInvariants(db.users, db.users[userId := r.value], db.kycs, db.vehicles,
                               db.nextVehicleId, db.bookings, db.refreshTokens);
      db.users := db.users[userId := r.value];
    }
  }

  /**
   * The guards of `approveLicense(adminId, userId, dto)`, in order: the caller
   * must be an admin (checked before the target is read), the target must
   * exist and must be a renter.
   */
  function ApproveLicenseCheck(users: seq<User>, adminId: nat, userId: nat): (f: Option<Failure>)
    ensures f.None? <==> adminId < |users| && users[adminId].role == Admin &&
                         userId < |users| && users[userId].role == Renter
    ensures (adminId >= |users| || users[adminId].role != Admin) ==> f == Some(Forbidden(LicenseApprovalAdminOnly))
    ensures (adminId < |users| && users[adminId].role == Admin && userId >= |users|) ==>
              f == Some(NotFound(UserNotFound))
    ensures (adminId < |users| && users[adminId].role == Admin && userId < |users| && users[userId].role != Renter) ==>
              f == Some(BadRequest(LicenseApprovalRenterOnly))
  {
    if adminId >= |users| || users[adminId].role != Admin then Some(Forbidden(LicenseApprovalAdminOnly))
    else if userId >= |users| then Some(NotFound(UserNotFound))
    else if users[userId].role != Renter then Some(BadRequest(LicenseApprovalRenterOnly))
    else None
  }

  /** The row after the decision: the approval time is set exactly when the status is APPROVED. */
  function Decide(u: User, status: LicenseStatus, now: int): (u': User)
    ensures u'.licenseStatus == Some(status)
    ensures u'.licenseApprovedAt.Some? <==> status == LicenseApproved
    ensures u'.licenseApprovedAt.Some? ==> u'.licenseApprovedAt.value == now
    ensures u' == u.(licenseStatus := u'.licenseStatus, licenseApprovedAt := u'.licenseApprovedAt)
  {
    u.(licenseStatus := Some(status), licenseApprovedAt := if status == LicenseApproved then Some(now) else None)
  }

  /**
   * `approveLicense`: on success the target's licence status is the requested
   * one, and an approval e-mail is queued only for APPROVED.
   */
  method ApproveLicense(db: Database, adminId: nat, userId: nat, status: LicenseStatus, now: int)
    returns (r: Result<User>)
    requires db.Valid()
    modifies db`users, db`outbox
    ensures db.Valid()
    ensures r.Err? <==> ApproveLicenseCheck(old(db.users), adminId, userId).Some?
    ensures r.Err? ==> r.error == ApproveLicenseCheck(old(db.users), adminId, userId).value
    ensures r.Err? ==> db.users == old(db.users) && db.outbox == old(db.outbox)
    ensures r.Ok? ==> r.value == Decide(old(db.users)[userId], status, now)
    ensures r.Ok? ==> db.users == old(db.users)[userId := r.value]
    ensures r.Ok? ==> db.outbox == old(db.outbox) + (if status == LicenseApproved then [LicenseApprovalMail(userId)] else [])
  {
    var check := ApproveLicenseCheck(db.users, adminId, userId);
    if check.Some? {
      return Err(check.value);
    }
    var updated := Decide(db.users[userId], status, now);
    IdentitiesKeepInvariants(db.users, db.users[userId := updated], db.kycs, db.vehicles,
                             db.nextVehicleId, db.bookings, db.refreshTokens);
    db.users := db.users[userId := updated];
    if status == LicenseApproved {
      db.outbox := db.outbox + [LicenseApprovalMail(userId)];
    }
    r := Ok(updated);
  }

  predicate AwaitingLicenseReview(u: User)
  {
    u.role == Renter && u.licenseStatus == Some(LicensePending)
  }

  /** `getPendingLicenses()`: the renters whose licence is PENDING, newest account first. */
  function PendingLicenses(users: seq<User>): (ids: seq<nat>)
    ensures forall i :: i in ids <==> 0 <= i < |users| && AwaitingLicenseReview(users[i])
    ensures forall a, b :: 0 <= a < b < |ids| ==> ids[a] > ids[b]
  {
    LatestFirst(users, AwaitingLicenseReview)
  }

  /** An upload always puts the renter back in the review queue. */
  lemma UploadQueuesForReview(users: seq<User>, userId: nat, publicBase: string, licenseKey: string)
    requires UploadLicenseOutcome(users, userId, publicBase, licenseKey).Ok?
    ensures userId in PendingLicenses(users[userId := UploadLicenseOutcome(users, userId, publicBase, licenseKey).value])
  {
  }

  /** An admin's decision takes the renter out of the review queue, whatever it was. */
  lemma DecisionLeavesQueue(users: seq<User>, adminId: nat, userId: nat, status: LicenseStatus, now: int)
    requires ApproveLicenseCheck(users, adminId, userId).None?
    requires status != LicensePending
    ensures userId !in PendingLicenses(users[userId := Decide(users[userId], status, now)])
  {
  }
}
