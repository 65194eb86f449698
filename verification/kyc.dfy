/**
 * src/kyc/kyc.service.ts: an admin approves or rejects a renter's pending
 * KYC record; the decision is copied onto the owner's registration step and
 * licence status.
 */
module KycReview {
  import opened Common
  import opened Schema

  const KycNotFound := "KYC not found"
  const KycNotPending := "KYC is not pending"

  /** `findKYCById` then `verifyKYCPending`: the guards both decisions share. */
  function DecisionCheck(kycs: seq<Kyc>, kycId: nat): (f: Option<Failure>)
    ensures f.None? <==> kycId < |kycs| && kycs[kycId].status == KycPendingReview
    ensures kycId >= |kycs| ==> f == Some(NotFound(KycNotFound))
    ensures kycId < |kycs| && kycs[kycId].status != KycPendingReview ==> f == Some(BadRequest(KycNotPending))
  {
    if kycId >= |kycs| then Some(NotFound(KycNotFound))
    else if kycs[kycId].status != KycPendingReview then Some(BadRequest(KycNotPending))
    else None
  }

  /** The KYC row after `approveKYC`. */
  function Approved(k: Kyc, now: int): (k': Kyc)
    ensures k'.status == KycApprovedStatus && k'.verifiedAt == Some(now)
    ensures k' == k.(status := k'.status, verifiedAt := k'.verifiedAt)
  {
    k.(status := KycApprovedStatus, verifiedAt := Some(now))
  }

  /** The KYC row after `rejectKYC(reason)`. */
  function Rejected(k: Kyc, reason: string): (k': Kyc)
    ensures k'.status == KycRejectedStatus && k'.rejectionReason == Some(reason)
    ensures k' == k.(status := k'.status, rejectionReason := k'.rejectionReason)
  {
    k.(status := KycRejectedStatus, rejectionReason := Some(reason))
  }

  /** `updateUserKYCStatus(userId, step, licenseStatus)` on the owner's row. */
  function WithKycOutcome(u: User, step: RegistrationStep, license: LicenseStatus): (u': User)
    ensures u'.registrationStep == Some(step) && u'.licenseStatus == Some(license)
    ensures u' == u.(registrationStep := u'.registrationStep, licenseStatus := u'.licenseStatus)
  {
    u.(registrationStep := Some(step), licenseStatus := Some(license))
  }

  /**
   * `approveKYC(kycId)`: the record becomes APPROVED, its owner moves to
   * KYC_APPROVED with an APPROVED licence. No other row changes.
   */
  method ApproveKyc(db: Database, kycId: nat, now: int) returns (r: Result<Kyc>)
    requires db.Valid()
    modifies db`kycs, db`users
    ensures db.Valid()
    ensures r.Err? <==> DecisionCheck(old(db.kycs), kycId).Some?
    ensures r.Err? ==> r.error == DecisionCheck(old(db.kycs), kycId).value
    ensures r.Err? ==> db.kycs == old(db.kycs) && db.users == old(db.users)
    ensures r.Ok? ==>
      var owner := old(db.kycs)[kycId].userId;
      && r.value == Approved(old(db.kycs)[kycId], now)
      && db.kycs == old(db.kycs)[kycId := r.value]
      && db.users == old(db.users)[owner := WithKycOutcome(old(db.users)[owner], KycApproved, LicenseApproved)]
  {
    var check := DecisionCheck(db.kycs, kycId);
    if check.Some? {
      return Err(check.value);
    }
    var k := Approved(db.kycs[kycId], now);
    var owner := k.userId;
    var u := WithKycOutcome(db.users[owner], KycApproved, LicenseApproved);
    IdentitiesKeepInvariants(db.users, db.users[owner := u], db.kycs, db.vehicles,
                             db.nextVehicleId, db.bookings, db.refreshTokens);
    db.kycs := db.kycs[kycId := k];
    db.users := db.users[owner := u];
    r := Ok(k);
  }

  /**
   * `rejectKYC(kycId, reason)`: the record becomes REJECTED with the reason
   * and stays in the table; its owner goes back to PROFILE_COMPLETED with a
   * REJECTED licence.
   */
  method RejectKyc(db: Database, kycId: nat, reason: string) returns (r: Result<Kyc>)
    requires db.Valid()
    modifies db`kycs, db`users
    ensures db.Valid()
    ensures r.Err? <==> DecisionCheck(old(db.kycs), kycId).Some?
    ensures r.Err? ==> r.error == DecisionCheck(old(db.kycs), kycId).value
    ensures r.Err? ==> db.kycs == old(db.kycs) && db.users == old(db.users)
    ensures r.Ok? ==>
      var owner := old(db.kycs)[kycId].userId;
      && r.value == Rejected(old(db.kycs)[kycId], reason)
      && db.kycs == old(db.kycs)[kycId := r.value]
      && db.users == old(db.users)[owner := WithKycOutcome(old(db.users)[owner], ProfileCompleted, LicenseRejected)]
  {
    var check := DecisionCheck(db.kycs, kycId);
    if check.Some? {
      return Err(check.value);
    }
    var k := Rejected(db.kycs[kycId], reason);
    var owner := k.userId;
    var u := WithKycOutcome(db.users[owner], ProfileCompleted, LicenseRejected);
    IdentitiesKeepInvariants(db.users, db.users[owner := u], db.kycs, db.vehicles,
                             db.nextVehicleId, db.bookings, db.refreshTokens);
    db.kycs := db.kycs[kycId := k];
    db.users := db.users[owner := u];
    r := Ok(k);
  }

  predicate AwaitingReview(k: Kyc)
  {
    k.status == KycPendingReview
  }

  /** `getPendingKYCRequests()`: the PENDING records, oldest first. */
  function PendingRequests(kycs: seq<Kyc>): (ids: seq<nat>)
    ensures forall i :: i in ids <==> 0 <= i < |kycs| && kycs[i].status == KycPendingReview
    ensures forall a, b :: 0 <= a < b < |ids| ==> ids[a] < ids[b]
  {
    Positions(kycs, AwaitingReview)
  }

  /** A record is decided at most once: after either decision both decisions refuse it. */
  lemma DecidedOnce(kycs: seq<Kyc>, kycId: nat, now: int, reason: string)
    requires DecisionCheck(kycs, kycId).None?
    ensures DecisionCheck(kycs[kycId := Approved(kycs[kycId], now)], kycId) == Some(BadRequest(KycNotPending))
    ensures DecisionCheck(kycs[kycId := Rejected(kycs[kycId], reason)], kycId) == Some(BadRequest(KycNotPending))
  {
  }

  /** Deciding a record takes it, and only it, off the pending list. */
  lemma DecisionLeavesPendingList(kycs: seq<Kyc>, kycId: nat, now: int, reason: string)
    requires DecisionCheck(kycs, kycId).None?
    ensures var after := PendingRequests(kycs[kycId := Approved(kycs[kycId], now)]);
      forall i :: i in after <==> i in PendingRequests(kycs) && i != kycId
    ensures var after := PendingRequests(kycs[kycId := Rejected(kycs[kycId], reason)]);
      forall i :: i in after <==> i in PendingRequests(kycs) && i != kycId
  {
  }
}
