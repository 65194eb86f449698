/**
 * src/otp/otp.service.ts: one-time passwords delivered over WhatsApp.
 *
 * The service keeps the `oTP` table. Its configuration (expiry, attempt limit,
 * resend cooldown, optional fixed test code) is read once in the constructor,
 * so it is held in `const` fields; SHA-256 is the `hash` function field, the
 * clock is the `now` argument (milliseconds) and `Math.random()` is the
 * integer `draw` it is scaled to. The WhatsApp messages the service hands to
 * the delivery client are recorded in `sent`; a failed delivery is swallowed
 * by the service, so nothing else depends on it.
 */
module Otp {
  import opened Common
  import Helpers

  datatype OtpRecord = OtpRecord(
    id: nat,
    phone: string,
    digest: string,      // hash of the code, never the code itself
    expiresAt: int,
    verified: bool,
    attempts: nat,
    lastSentAt: int,
    createdAt: int)

  /** A WhatsApp OTP message handed to the delivery client. */
  datatype Delivery = Delivery(phone: string, code: string)

  const OtpInvalid := "Invalid OTP"
  const OtpExpired := "Invalid or expired OTP"
  const OtpMaxAttempts := "Maximum verification attempts exceeded"

  // Defaults of OTP_CONFIG (src/common/constants/config.ts).
  const DefaultExpiryMinutes := 5
  const DefaultMaxAttempts := 3
  const DefaultCooldownSeconds := 30

  /**
   * `findFirst` with a `where` filter `p` and `orderBy: { key: 'desc' }`: the
   * index of a matching row with the greatest key. Rows with equal keys are
   * returned latest-inserted first.
   */
  function Newest(rs: seq<OtpRecord>, p: OtpRecord -> bool, key: OtpRecord -> int): (i: Option<nat>)
    ensures i.None? <==> forall j :: 0 <= j < |rs| ==> !p(rs[j])
    ensures i.Some? ==> i.value < |rs| && p(rs[i.value])
    ensures i.Some? ==> forall j :: 0 <= j < |rs| && p(rs[j]) ==> key(rs[j]) <= key(rs[i.value])
    ensures i.Some? ==> forall j :: i.value < j < |rs| && p(rs[j]) ==> key(rs[j]) < key(rs[i.value])
  {
    if rs == [] then None
    else
      var n := |rs| - 1;
      var prev := Newest(rs[..n], p, key);
      if p(rs[n]) && (prev.None? || key(rs[prev.value]) <= key(rs[n])) then Some(n)
      else prev
  }

  /** The `where` of `findValidOTP`: this phone, not verified, expiring strictly after now. */
  predicate Verifiable(r: OtpRecord, phone: string, now: int)
  {
    r.phone == phone && !r.verified && r.expiresAt > now
  }

  /** The `where` of `checkResendCooldown`: this phone, sent within the cooldown. */
  predicate RecentlySent(r: OtpRecord, phone: string, now: int, cooldownSeconds: int)
  {
    r.phone == phone && r.lastSentAt >= now - cooldownSeconds * 1000
  }

  /** `findValidOTP(phone)`: the newest verifiable record by `createdAt`. */
  function FindValid(rs: seq<OtpRecord>, phone: string, now: int): (i: Option<nat>)
    ensures i.Some? ==> i.value < |rs| && Verifiable(rs[i.value], phone, now)
    ensures i.None? <==> forall j :: 0 <= j < |rs| ==> !Verifiable(rs[j], phone, now)
    ensures i.Some? ==> forall j :: 0 <= j < |rs| && Verifiable(rs[j], phone, now) ==>
                          rs[j].createdAt <= rs[i.value].createdAt
  {
    Newest(rs, r => Verifiable(r, phone, now), (r: OtpRecord) => r.createdAt)
  }

  /** The record `checkResendCooldown` finds: the most recently sent one within the cooldown. */
  function FindRecent(rs: seq<OtpRecord>, phone: string, now: int, cooldownSeconds: int): (i: Option<nat>)
    ensures i.Some? ==> i.value < |rs| && RecentlySent(rs[i.value], phone, now, cooldownSeconds)
    ensures i.None? <==> forall j :: 0 <= j < |rs| ==> !RecentlySent(rs[j], phone, now, cooldownSeconds)
    ensures i.Some? ==> forall j :: 0 <= j < |rs| && RecentlySent(rs[j], phone, now, cooldownSeconds) ==>
                          rs[j].lastSentAt <= rs[i.value].lastSentAt
  {
    Newest(rs, r => RecentlySent(r, phone, now, cooldownSeconds), (r: OtpRecord) => r.lastSentAt)
  }

  /** `Math.ceil((lastSentAt + cooldown·1000 − now) / 1000)`: the seconds left to wait. */
  function WaitSeconds(lastSentAt: int, now: int, cooldownSeconds: int): (w: int)
    ensures (w - 1) * 1000 < lastSentAt + cooldownSeconds * 1000 - now <= w * 1000
  {
    CeilDiv(lastSentAt + cooldownSeconds * 1000 - now, 1000)
  }

  /** A send within the cooldown and not from the future reports between 0 and the cooldown. */
  lemma WaitBounded(lastSentAt: int, now: int, cooldownSeconds: nat)
    requires now - cooldownSeconds * 1000 <= lastSentAt <= now
    ensures 0 <= WaitSeconds(lastSentAt, now, cooldownSeconds) <= cooldownSeconds
  {
  }

  ghost predicate DistinctIds(rs: seq<OtpRecord>)
  {
    forall k, l :: 0 <= k < l < |rs| ==> rs[k].id != rs[l].id
  }

  /** Deleting the row at index `i`. */
  function RemoveAt(rs: seq<OtpRecord>, i: nat): (r: seq<OtpRecord>)
    requires i < |rs|
    ensures |r| == |rs| - 1
    ensures forall j :: 0 <= j < i ==> r[j] == rs[j]
    ensures forall j :: i <= j < |r| ==> r[j] == rs[j + 1]
  {
    rs[..i] + rs[i + 1..]
  }

  /** With unique ids, deleting a row removes exactly that row. */
  lemma RemoveAtExactly(rs: seq<OtpRecord>, i: nat)
    requires i < |rs|
    requires forall k, l :: 0 <= k < l < |rs| ==> rs[k].id != rs[l].id
    ensures forall x :: x in RemoveAt(rs, i) <==> x in rs && x.id != rs[i].id
  {
    var r := RemoveAt(rs, i);
    forall x | x in rs && x.id != rs[i].id ensures x in r {
      var j :| 0 <= j < |rs| && rs[j] == x;
      if j < i { assert r[j] == x; } else { assert r[j - 1] == x; }
    }
  }

  class OtpService {
    const expiryMinutes: int
    const maxAttempts: nat
    const cooldownSeconds: nat
    /** `TEST_OTP`: a fixed code, or null. */
    const testOtp: Option<string>
    const hash: string -> string

    var records: seq<OtpRecord>
    var nextId: nat
    var sent: seq<Delivery>

    /**
     * Every stored record is unverified (a verified record is deleted at once)
     * and has been tried at most `maxAttempts` times; ids are unique and below
     * the next id to issue.
     */
    ghost predicate Valid()
      reads this
    {
      && (forall k :: 0 <= k < |records| ==>
            records[k].attempts <= maxAttempts && !records[k].verified && records[k].id < nextId)
      && DistinctIds(records)
    }

    constructor (expiryMinutes: int, maxAttempts: nat, cooldownSeconds: nat,
                 testOtp: Option<string>, hash: string -> string)
      ensures Valid()
      ensures this.expiryMinutes == expiryMinutes && this.maxAttempts == maxAttempts
      ensures this.cooldownSeconds == cooldownSeconds && this.testOtp == testOtp && this.hash == hash
      ensures records == [] && sent == []
    {
      this.expiryMinutes := expiryMinutes;
      this.maxAttempts := maxAttempts;
      this.cooldownSeconds := cooldownSeconds;
      this.testOtp := testOtp;
      this.hash := hash;
      records := [];
      nextId := 0;
      sent := [];
    }

    /** `TEST_OTP` is set to a non-empty code (the truthiness test of the source). */
    predicate TestMode()
    {
      testOtp.Some? && testOtp.value != ""
    }

    /** `this.testOTP || OTPUtils.generate()`: the code a send issues. */
    function IssuedCode(draw: nat): (code: string)
      requires draw < 900000
      ensures TestMode() ==> code == testOtp.value
      ensures !TestMode() ==> |code| == Helpers.OtpLength && AllDigits(code) && code[0] != '0'
    {
      if TestMode() then testOtp.value else Helpers.Generate(Helpers.OtpLength, draw)
    }

    /**
     * Whether `verifyOTP(phone, code)` succeeds on the current records: the
     * fixed test code, or a correct code for the newest verifiable record
     * while it has attempts left.
     */
    function Accepts(phone: string, code: string, now: int): bool
      reads this
    {
      || (TestMode() && code == testOtp.value)
      || (var sel := FindValid(records, phone, now);
          sel.Some? && records[sel.value].attempts < maxAttempts &&
          Helpers.Verify(hash, code, records[sel.value].digest))
    }

    /** The OTP table after `sendOTP(phone)`: unchanged inside the cooldown, else one new record. */
    function AfterSend(rs: seq<OtpRecord>, id: nat, phone: string, now: int, draw: nat): seq<OtpRecord>
      requires draw < 900000
    {
      if !TestMode() && FindRecent(rs, phone, now, cooldownSeconds).Some? then rs
      else rs + [OtpRecord(id, phone, hash(IssuedCode(draw)), Helpers.CalculateExpiry(now, expiryMinutes),
                           false, 0, now, now)]
    }

    /**
     * The OTP table after `verifyOTP(phone, code)`: the newest verifiable
     * record is deleted when the code is accepted, counts one more attempt
     * when the code is wrong, and is left alone when it is exhausted.
     */
    function AfterVerify(rs: seq<OtpRecord>, phone: string, code: string, now: int): seq<OtpRecord>
    {
      var sel := FindValid(rs, phone, now);
      if sel.None? then rs
      else if TestMode() && code == testOtp.value then RemoveAt(rs, sel.value)
      else if rs[sel.value].attempts >= maxAttempts then rs
      else if Helpers.Verify(hash, code, rs[sel.value].digest) then RemoveAt(rs, sel.value)
      else rs[sel.value := rs[sel.value].(attempts := rs[sel.value].attempts + 1)]
    }

    /**
     * `sendOTP(phone)`: outside test mode, a send within the cooldown is
     * refused with 429 and the remaining seconds; otherwise one record is
     * appended and (outside test mode) the code is handed to WhatsApp.
     */
    method SendOtp(phone: string, now: int, draw: nat) returns (r: Result<()>)
      requires Valid()
      requires draw < 900000
      modifies this
      ensures Valid()
      ensures r.Ok? <==> TestMode() || FindRecent(old(records), phone, now, cooldownSeconds).None?
      ensures r.Err? ==>
        var i := FindRecent(old(records), phone, now, cooldownSeconds).value;
        && r.error == TooManyRequests(WaitSeconds(old(records)[i].lastSentAt, now, cooldownSeconds))
        && records == old(records) && nextId == old(nextId) && sent == old(sent)
      ensures r.Ok? ==>
        && records == old(records) + [OtpRecord(old(nextId), phone, hash(IssuedCode(draw)),
                                               Helpers.CalculateExpiry(now, expiryMinutes),
                                               false, 0, now, now)]
        && nextId == old(nextId) + 1
        && sent == old(sent) + (if TestMode() then [] else [Delivery(phone, IssuedCode(draw))])
      ensures records == AfterSend(old(records), old(nextId), phone, now, draw)
    {
      if !TestMode() {
        var recent := FindRecent(records, phone, now, cooldownSeconds);
        if recent.Some? {
          return Err(TooManyRequests(WaitSeconds(records[recent.value].lastSentAt, now, cooldownSeconds)));
        }
      }
      var code := IssuedCode(draw);
      var expiresAt := Helpers.CalculateExpiry(now, expiryMinutes);
      records := records + [OtpRecord(nextId, phone, hash(code), expiresAt, false, 0, now, now)];
      nextId := nextId + 1;
      if !TestMode() {
        sent := sent + [Delivery(phone, code)];
      }
      r := Ok(());
    }

    /**
     * `verifyOTP(phone, otp)`. In test mode the fixed code always succeeds and
     * consumes the newest verifiable record if there is one. Otherwise the
     * newest verifiable record is required, must have attempts left, has its
     * attempt counted before the comparison, and is deleted when the code
     * matches.
     */
    method VerifyOtp(phone: string, code: string, now: int) returns (r: Result<bool>)
      requires Valid()
      modifies this
      ensures Valid()
      ensures nextId == old(nextId) && sent == old(sent)
      ensures r.Ok? ==> r.value
      ensures r.Ok? <==> old(Accepts(phone, code, now))
      ensures r.Err? ==> r.error.BadRequest?
      ensures var sel := FindValid(old(records), phone, now);
        TestMode() && code == testOtp.value ==>
          && r == Ok(true)
          && records == (if sel.Some? then RemoveAt(old(records), sel.value) else old(records))
      ensures var sel := FindValid(old(records), phone, now);
        !(TestMode() && code == testOtp.value) && sel.None? ==>
          r == Err(BadRequest(OtpExpired)) && records == old(records)
      ensures var sel := FindValid(old(records), phone, now);
        !(TestMode() && code == testOtp.value) && sel.Some? &&
        old(records)[sel.value].attempts >= maxAttempts ==>
          r == Err(BadRequest(OtpMaxAttempts)) && records == old(records)
      ensures var sel := FindValid(old(records), phone, now);
        !(TestMode() && code == testOtp.value) && sel.Some? &&
        old(records)[sel.value].attempts < maxAttempts ==>
          var rec := old(records)[sel.value];
          if Helpers.Verify(hash, code, rec.digest) then
            r == Ok(true) && records == RemoveAt(old(records), sel.value)
          else
            r == Err(BadRequest(OtpInvalid)) &&
            records == old(records)[sel.value := rec.(attempts := rec.attempts + 1)]
      ensures records == AfterVerify(old(records), phone, code, now)
    {
      var sel := FindValid(records, phone, now);
      if TestMode() && code == testOtp.value {
        if sel.Some? {
          MarkVerified(sel.value);
          Delete(sel.value);
        }
        return Ok(true);
      }
      if sel.None? {
        return Err(BadRequest(OtpExpired));
      }
      var i := sel.value;
      if records[i].attempts >= maxAttempts {
        return Err(BadRequest(OtpMaxAttempts));
      }
      IncrementAttempts(i);
      if !Helpers.Verify(hash, code, records[i].digest) {
        return Err(BadRequest(OtpInvalid));
      }
      MarkVerified(i);
      Delete(i);
      r := Ok(true);
    }

    /** `incrementAttempts(id)`, only ever called below the limit. */
    method IncrementAttempts(i: nat)
      requires Valid() && i < |records| && records[i].attempts < maxAttempts
      modifies this
      ensures Valid()
      ensures records == old(records)[i := old(records)[i].(attempts := old(records)[i].attempts + 1)]
      ensures nextId == old(nextId) && sent == old(sent)
    {
      records := records[i := records[i].(attempts := records[i].attempts + 1)];
    }

    /** `markAsVerified(id)` followed at once by `deleteOTP(id)`: the record leaves the table. */
    method MarkVerified(i: nat)
      requires Valid() && i < |records|
      modifies this
      ensures i < |records| && records == old(records)[i := old(records)[i].(verified := true)]
      ensures nextId == old(nextId) && sent == old(sent)
      ensures forall k :: 0 <= k < |records| && k != i ==> records[k] == old(records)[k]
      ensures forall k, l :: 0 <= k < l < |records| ==> records[k].id != records[l].id
      ensures forall k :: 0 <= k < |records| ==> records[k].attempts <= maxAttempts && records[k].id < nextId
      ensures forall k :: 0 <= k < |records| && k != i ==> !records[k].verified
    {
      records := records[i := records[i].(verified := true)];
    }

    /** `deleteOTP(id)` of the record just marked verified. */
    method Delete(i: nat)
      requires i < |records|
      requires forall k, l :: 0 <= k < l < |records| ==> records[k].id != records[l].id
      requires forall k :: 0 <= k < |records| ==> records[k].attempts <= maxAttempts && records[k].id < nextId
      requires forall k :: 0 <= k < |records| && k != i ==> !records[k].verified
      modifies this
      ensures Valid()
      ensures records == RemoveAt(old(records), i)
      ensures nextId == old(nextId) && sent == old(sent)
    {
      records := RemoveAt(records, i);
    }

    /** `cleanupExpiredOTPs()`: delete every record whose expiry is strictly before now. */
    method CleanupExpired(now: int) returns (count: nat)
      requires Valid()
      modifies this
      ensures Valid()
      ensures records == Filter(old(records), Unexpired(now))
      ensures forall x :: x in records <==> x in old(records) && x.expiresAt >= now
      ensures count == |old(records)| - |records|
      ensures nextId == old(nextId) && sent == old(sent)
    {
      var kept := Filter(records, Unexpired(now));
      FilterKeepsIdsDistinct(records, Unexpired(now));
      forall k | 0 <= k < |kept|
        ensures kept[k].attempts <= maxAttempts && !kept[k].verified && kept[k].id < nextId
      {
        assert kept[k] in records;
      }
      count := |records| - |kept|;
      records := kept;
    }
  }

  /** The rows `cleanupExpiredOTPs` keeps: those not expiring strictly before now. */
  function Unexpired(now: int): OtpRecord -> bool
  {
    (x: OtpRecord) => !Helpers.IsExpired(x.expiresAt, now)
  }

  /** Selecting rows keeps their ids distinct. */
  lemma {:induction false} FilterKeepsIdsDistinct(rs: seq<OtpRecord>, p: OtpRecord -> bool)
    requires DistinctIds(rs)
    ensures DistinctIds(Filter(rs, p))
  {
    if rs != [] {
      var init := rs[..|rs| - 1];
      var last := rs[|rs| - 1];
      FilterKeepsIdsDistinct(init, p);
      var before := Filter(init, p);
      if p(last) {
        var r := Filter(rs, p);
        assert r == before + [last];
        forall k, l | 0 <= k < l < |r| ensures r[k].id != r[l].id {
          if l < |before| {
            assert r[k] == before[k] && r[l] == before[l];
          } else {
            assert r[k] == before[k] && r[l] == last;
            assert before[k] in init;
            var j :| 0 <= j < |init| && init[j] == before[k];
            assert rs[j] == before[k];
          }
        }
      } else {
        assert Filter(rs, p) == before;
      }
    }
  }

  /**
   * A record that expires exactly now can no longer be verified, yet the
   * hourly cleanup (strictly before now) does not delete it.
   */
  lemma ExpiringNowIsLimbo(r: OtpRecord, phone: string, now: int)
    requires r.expiresAt == now
    ensures !Verifiable(r, phone, now)
    ensures !Helpers.IsExpired(r.expiresAt, now)
  {
  }
}
