/**
 * src/bookings/bookings.service.ts: a renter with an approved licence books
 * an available vehicle for a price of whole days, and the vehicle's merchant
 * moves the booking through PENDING -> ACCEPTED -> COMPLETED or
 * PENDING -> REJECTED.
 */
module Bookings {
  import opened Common
  import opened Schema
  import KycReview
  import Users

  const OnlyRenters := "Only renters can create bookings"
  const LicenseNotApproved := "Your driving license must be approved before booking"
  const VehicleNotAvailable := "Vehicle is not available"
  const DatesOutOfOrder := "endDate must be after startDate"
  const NotYourBooking := "You can only manage your own bookings"

  /** The body of a booking request. */
  datatype NewBooking = NewBooking(vehicleId: nat, startDate: int, endDate: int, renterNotes: Option<string>)

  // ---------------------------------------------------------------------
  // Price
  // ---------------------------------------------------------------------

  /** `Math.ceil((end - start) / DAY)`: the number of started days. */
  function Days(startDate: int, endDate: int): (d: int)
    ensures (d - 1) * DayMs < endDate - startDate <= d * DayMs
  {
    CeilDiv(endDate - startDate, DayMs)
  }

  /** A booking that ends after it starts lasts at least one day, and a partial day counts whole. */
  lemma DaysPositive(startDate: int, endDate: int)
    requires startDate < endDate
    ensures Days(startDate, endDate) >= 1
  {
    var d := Days(startDate, endDate);
    if d <= 0 {
      MulMonotone(d, 0, DayMs);
      assert false;
    }
  }

  /** An exact number of days is charged as that many days. */
  lemma WholeDaysExact(startDate: int, n: int)
    ensures Days(startDate, startDate + n * DayMs) == n
  {
    var d := Days(startDate, startDate + n * DayMs);
    if d < n {
      MulMonotone(d, n - 1, DayMs);
      assert false;
    } else if d > n {
      MulMonotone(n, d - 1, DayMs);
      assert false;
    }
  }

  /** As the source computes it, an end that is not after the start gives no positive day count. */
  lemma DaysNotPositive(startDate: int, endDate: int)
    requires endDate <= startDate
    ensures Days(startDate, endDate) <= 0
  {
    var d := Days(startDate, endDate);
    if d >= 1 {
      MulMonotone(0, d - 1, DayMs);
      assert false;
    }
  }

  /** `Number(vehicle.pricePerDay) * days`, in whole money units. */
  function Price(pricePerDay: int, startDate: int, endDate: int): int
  {
    pricePerDay * Days(startDate, endDate)
  }

  // ---------------------------------------------------------------------
  // create
  // ---------------------------------------------------------------------

  /** The booking gate: a renter whose licence is APPROVED. */
  predicate MayBook(u: User)
  {
    u.role == Renter && u.licenseStatus == Some(LicenseApproved)
  }

  /** The row `create` inserts for a vehicle. */
  function Placed(renterId: nat, v: Vehicle, dto: NewBooking): (b: Booking)
    ensures b.status == Pending && b.renterId == renterId && b.merchantId == v.merchantId
    ensures b.vehicleId == dto.vehicleId && b.startDate == dto.startDate && b.endDate == dto.endDate
    ensures b.renterNotes == dto.renterNotes && b.merchantNotes.None?
    ensures b.acceptedAt.None? && b.rejectedAt.None? && b.completedAt.None?
    ensures b.totalPrice == v.pricePerDay * Days(dto.startDate, dto.endDate)
  {
    Booking(renterId, v.merchantId, dto.vehicleId, dto.startDate, dto.endDate,
            Price(v.pricePerDay, dto.startDate, dto.endDate), dto.renterNotes, None, Pending, None, None, None)
  }

  /**
   * `create(renterId, dto)` exactly as the service is written: it reads the
   * renter's role without checking that the renter exists, and computes the
   * price without checking the dates.
   */
  function CreateAsWritten(users: seq<User>, vehicles: seq<Vehicle>, renterId: nat, dto: NewBooking): (r: Result<Booking>)
    ensures renterId >= |users| ==> r == Err(InternalError(UnexpectedError))
    ensures r.Ok? ==> exists i :: 0 <= i < |vehicles| && vehicles[i].id == dto.vehicleId &&
                        r.value == Placed(renterId, vehicles[i], dto)
  {
    if renterId >= |users| then Err(InternalError(UnexpectedError))
    else if users[renterId].role != Renter then Err(Forbidden(OnlyRenters))
    else if users[renterId].licenseStatus != Some(LicenseApproved) then Err(Forbidden(LicenseNotApproved))
    else
      match VehicleIndex(vehicles, dto.vehicleId)
      case None => Err(NotFound(VehicleNotFound))
      case Some(i) =>
        if !vehicles[i].isAvailable then Err(BadRequest(VehicleNotAvailable))
        else Ok(Placed(renterId, vehicles[i], dto))
  }

  /**
   * `create` with the two guards its unit tests require: an unknown renter
   * is NotFound, and an end that is not after the start is BadRequest, both
   * before anything is stored.
   */
  function CreateBooking(users: seq<User>, vehicles: seq<Vehicle>, renterId: nat, dto: NewBooking): (r: Result<Booking>)
    requires UniqueVehicleIds(vehicles)
    ensures renterId >= |users| ==> r == Err(NotFound(UserNotFound))
    ensures renterId < |users| && users[renterId].role != Renter ==> r == Err(Forbidden(OnlyRenters))
    ensures (renterId < |users| && users[renterId].role == Renter && !MayBook(users[renterId])) ==>
              r == Err(Forbidden(LicenseNotApproved))
    ensures (renterId < |users| && MayBook(users[renterId]) &&
             forall j :: 0 <= j < |vehicles| ==> vehicles[j].id != dto.vehicleId) ==>
              r == Err(NotFound(VehicleNotFound))
    ensures (renterId < |users| && MayBook(users[renterId]) &&
             exists i :: 0 <= i < |vehicles| && vehicles[i].id == dto.vehicleId && !vehicles[i].isAvailable) ==>
              r == Err(BadRequest(VehicleNotAvailable))
    ensures (renterId < |users| && MayBook(users[renterId]) &&
             (exists i :: 0 <= i < |vehicles| && vehicles[i].id == dto.vehicleId && vehicles[i].isAvailable) &&
             dto.endDate <= dto.startDate) ==>
              r == Err(BadRequest(DatesOutOfOrder))
    ensures r.Ok? <==>
      && renterId < |users| && MayBook(users[renterId])
      && (exists i :: 0 <= i < |vehicles| && vehicles[i].id == dto.vehicleId && vehicles[i].isAvailable)
      && dto.startDate < dto.endDate
    ensures r.Ok? ==>
      && (exists i :: 0 <= i < |vehicles| && vehicles[i].id == dto.vehicleId && r.value == Placed(renterId, vehicles[i], dto))
      && Days(dto.startDate, dto.endDate) >= 1
  {
    if renterId >= |users| then Err(NotFound(UserNotFound))
    else if users[renterId].role != Renter then Err(Forbidden(OnlyRenters))
    else if users[renterId].licenseStatus != Some(LicenseApproved) then Err(Forbidden(LicenseNotApproved))
    else
      match VehicleIndex(vehicles, dto.vehicleId)
      case None => Err(NotFound(VehicleNotFound))
      case Some(i) =>
        if !vehicles[i].isAvailable then Err(BadRequest(VehicleNotAvailable))
        else if dto.endDate <= dto.startDate then Err(BadRequest(DatesOutOfOrder))
        else
          DaysPositive(dto.startDate, dto.endDate);
          Ok(Placed(renterId, vehicles[i], dto))
  }

  /**
   * `create`: on success the booking is stored PENDING under the next id and
   * the merchant is sent a new-booking e-mail; on failure nothing is written.
   */
  method Create(db: Database, renterId: nat, dto: NewBooking) returns (r: Result<nat>)
    requires db.Valid()
    modifies db`bookings, db`outbox
    ensures db.Valid()
    ensures CreateBooking(old(db.users), old(db.vehicles), renterId, dto).Err? ==>
      && r == Err(CreateBooking(old(db.users), old(db.vehicles), renterId, dto).error)
      && db.bookings == old(db.bookings) && db.outbox == old(db.outbox)
    ensures CreateBooking(old(db.users), old(db.vehicles), renterId, dto).Ok? ==>
      var b := CreateBooking(old(db.users), old(db.vehicles), renterId, dto).value;
      && r == Ok(|old(db.bookings)|)
      && db.bookings == old(db.bookings) + [b]
      && db.outbox == old(db.outbox) + [NewBookingMail(b.merchantId, |old(db.bookings)|)]
  {
    var outcome := CreateBooking(db.users, db.vehicles, renterId, dto);
    if outcome.Err? {
      return Err(outcome.error);
    }
    var b := outcome.value;
    var id := |db.bookings|;
    assert b.merchantId < |db.users| by {
      var i :| 0 <= i < |db.vehicles| && db.vehicles[i].id == dto.vehicleId && b == Placed(renterId, db.vehicles[i], dto);
    }
    AppendBookingKeepsInvariants(db.bookings, b, db.users, db.reviews, db.messages);
    db.bookings := db.bookings + [b];
    db.outbox := db.outbox + [NewBookingMail(b.merchantId, id)];
    r := Ok(id);
  }

  // ---------------------------------------------------------------------
  // accept, reject, complete
  // ---------------------------------------------------------------------

  datatype Action = Accept | Reject | Complete

  /** The status an action starts from. */
  function From(a: Action): BookingStatus
  {
    match a
    case Accept => Pending
    case Reject => Pending
    case Complete => Accepted
  }

  function WrongStatus(a: Action): string
  {
    match a
    case Accept => "Only pending bookings can be accepted"
    case Reject => "Only pending bookings can be rejected"
    case Complete => "Only accepted bookings can be completed"
  }

  /** The guards of every transition, in order: the booking exists, the caller is its merchant, the status fits. */
  function ManageCheck(bookings: seq<Booking>, bookingId: nat, merchantId: nat, a: Action): (f: Option<Failure>)
    ensures f.None? <==> bookingId < |bookings| && bookings[bookingId].merchantId == merchantId &&
                         bookings[bookingId].status == From(a)
    ensures bookingId >= |bookings| ==> f == Some(NotFound(BookingNotFound))
    ensures bookingId < |bookings| && bookings[bookingId].merchantId != merchantId ==> f == Some(Forbidden(NotYourBooking))
    ensures (bookingId < |bookings| && bookings[bookingId].merchantId == merchantId &&
             bookings[bookingId].status != From(a)) ==> f == Some(BadRequest(WrongStatus(a)))
  {
    if bookingId >= |bookings| then Some(NotFound(BookingNotFound))
    else if bookings[bookingId].merchantId != merchantId then Some(Forbidden(NotYourBooking))
    else if bookings[bookingId].status != From(a) then Some(BadRequest(WrongStatus(a)))
    else None
  }

  /** The terms of a booking no transition touches. */
  predicate SameTerms(b: Booking, b': Booking)
  {
    && b'.renterId == b.renterId && b'.merchantId == b.merchantId && b'.vehicleId == b.vehicleId
    && b'.startDate == b.startDate && b'.endDate == b.endDate && b'.totalPrice == b.totalPrice
    && b'.renterNotes == b.renterNotes
  }

  /**
   * The row after a transition: the new status and its timestamp; accept and
   * reject store the merchant's notes when they are given. Complete takes no
   * notes.
   */
  function Apply(a: Action, b: Booking, notes: Option<string>, now: int): (b': Booking)
    ensures SameTerms(b, b')
  {
    match a
    case Accept => b.(status := Accepted, acceptedAt := Some(now), merchantNotes := Keep(notes, b.merchantNotes))
    case Reject => b.(status := Rejected, rejectedAt := Some(now), merchantNotes := Keep(notes, b.merchantNotes))
    case Complete => b.(status := Completed, completedAt := Some(now))
  }

  function Mail(a: Action, renterId: nat, bookingId: nat): Notification
  {
    match a
    case Accept => BookingAcceptedMail(renterId, bookingId)
    case Reject => BookingRejectedMail(renterId, bookingId)
    case Complete => BookingCompletedMail(renterId, bookingId)
  }

  /** The edges of the booking state machine. */
  predicate Edge(from: BookingStatus, to: BookingStatus)
  {
    (from == Pending && to == Accepted) || (from == Pending && to == Rejected) || (from == Accepted && to == Completed)
  }

  /**
   * `acceptBooking`, `rejectBooking` and `completeBooking`: when the guards
   * pass, the one booking moves along its edge and the renter is e-mailed;
   * otherwise nothing is written.
   */
  method Transition(db: Database, a: Action, bookingId: nat, merchantId: nat, notes: Option<string>, now: int)
    returns (r: Result<Booking>)
    requires db.Valid()
    modifies db`bookings, db`outbox
    ensures db.Valid()
    ensures ManageCheck(old(db.bookings), bookingId, merchantId, a).Some? ==>
      && r == Err(ManageCheck(old(db.bookings), bookingId, merchantId, a).value)
      && db.bookings == old(db.bookings) && db.outbox == old(db.outbox)
    ensures ManageCheck(old(db.bookings), bookingId, merchantId, a).None? ==>
      var b := old(db.bookings)[bookingId];
      && r == Ok(Apply(a, b, notes, now))
      && db.bookings == old(db.bookings)[bookingId := Apply(a, b, notes, now)]
      && db.outbox == old(db.outbox) + [Mail(a, b.renterId, bookingId)]
  {
    var check := ManageCheck(db.bookings, bookingId, merchantId, a);
    if check.Some? {
      return Err(check.value);
    }
    var b := db.bookings[bookingId];
    var b' := Apply(a, b, notes, now);
    PartiesKeepInvariants(db.bookings, db.bookings[bookingId := b'], db.users, db.reviews, db.messages);
    db.bookings := db.bookings[bookingId := b'];
    db.outbox := db.outbox + [Mail(a, b.renterId, bookingId)];
    r := Ok(b');
  }

  /**
   * Every transition that passes its guards follows an edge of the state
   * machine and changes only status, timestamps and merchant notes.
   */
  lemma TransitionFollowsEdge(bookings: seq<Booking>, bookingId: nat, merchantId: nat, a: Action,
                              notes: Option<string>, now: int)
    requires ManageCheck(bookings, bookingId, merchantId, a).None?
    ensures var b := bookings[bookingId];
      Edge(b.status, Apply(a, b, notes, now).status) && SameTerms(b, Apply(a, b, notes, now))
  {
  }

  /** REJECTED and COMPLETED are terminal: every transition on them is refused as a bad request. */
  lemma SettledIsTerminal(bookings: seq<Booking>, bookingId: nat, merchantId: nat, a: Action)
    requires bookingId < |bookings| && bookings[bookingId].merchantId == merchantId
    requires bookings[bookingId].status == Rejected || bookings[bookingId].status == Completed
    ensures ManageCheck(bookings, bookingId, merchantId, a) == Some(BadRequest(WrongStatus(a)))
    ensures forall to :: !Edge(bookings[bookingId].status, to)
  {
  }

  /** After a booking is accepted it can no longer be accepted or rejected, only completed. */
  lemma AcceptedOnlyCompletes(bookings: seq<Booking>, bookingId: nat, merchantId: nat, notes: Option<string>, now: int)
    requires ManageCheck(bookings, bookingId, merchantId, Accept).None?
    ensures var after := bookings[bookingId := Apply(Accept, bookings[bookingId], notes, now)];
      && ManageCheck(after, bookingId, merchantId, Accept) == Some(BadRequest(WrongStatus(Accept)))
      && ManageCheck(after, bookingId, merchantId, Reject) == Some(BadRequest(WrongStatus(Reject)))
      && ManageCheck(after, bookingId, merchantId, Complete).None?
  {
  }

  // ---------------------------------------------------------------------
  // findRenterBookings, findMerchantBookings
  // ---------------------------------------------------------------------

  function RentedBy(renterId: nat): Booking -> bool
  {
    (b: Booking) => b.renterId == renterId
  }

  function ManagedBy(merchantId: nat): Booking -> bool
  {
    (b: Booking) => b.merchantId == merchantId
  }

  /** `findRenterBookings(renterId)`: the renter's bookings, newest first. */
  function RenterBookings(bookings: seq<Booking>, renterId: nat): (ids: seq<nat>)
    ensures forall i :: i in ids <==> 0 <= i < |bookings| && bookings[i].renterId == renterId
    ensures forall a, b :: 0 <= a < b < |ids| ==> ids[a] > ids[b]
  {
    LatestFirst(bookings, RentedBy(renterId))
  }

  /** `findMerchantBookings(merchantId)`: the bookings of the merchant's vehicles, newest first. */
  function MerchantBookings(bookings: seq<Booking>, merchantId: nat): (ids: seq<nat>)
    ensures forall i :: i in ids <==> 0 <= i < |bookings| && bookings[i].merchantId == merchantId
    ensures forall a, b :: 0 <= a < b < |ids| ==> ids[a] > ids[b]
  {
    LatestFirst(bookings, ManagedBy(merchantId))
  }

  // ---------------------------------------------------------------------
  // The licence gate across services
  // ---------------------------------------------------------------------

  /** A KYC approval sets exactly the licence status booking creation requires. */
  lemma KycApprovalOpensGate(u: User)
    requires u.role == Renter
    ensures MayBook(KycReview.WithKycOutcome(u, KycApproved, LicenseApproved))
    ensures !MayBook(KycReview.WithKycOutcome(u, ProfileCompleted, LicenseRejected))
  {
  }

  /** Uploading a new licence puts it back under review, which closes the gate until a decision. */
  lemma LicenseUploadClosesGate(users: seq<User>, userId: nat, publicBase: string, licenseKey: string)
    requires Users.UploadLicenseOutcome(users, userId, publicBase, licenseKey).Ok?
    ensures !MayBook(Users.UploadLicenseOutcome(users, userId, publicBase, licenseKey).value)
  {
  }

  // ---------------------------------------------------------------------
  // The two guards the unit tests require and the service lacks
  // ---------------------------------------------------------------------

  /** As written, an unknown renter ends in a 500 response instead of NotFound. */
  lemma MissingRenterAsWritten(users: seq<User>, vehicles: seq<Vehicle>, renterId: nat, dto: NewBooking)
    requires UniqueVehicleIds(vehicles)
    requires renterId >= |users|
    ensures CreateAsWritten(users, vehicles, renterId, dto) == Err(InternalError(UnexpectedError))
    ensures CreateBooking(users, vehicles, renterId, dto) == Err(NotFound(UserNotFound))
  {
  }

  /**
   * As written, a request whose end is not after its start is stored as a
   * PENDING booking of zero or fewer days, at a price of at most zero.
   */
  lemma BackwardsDatesAsWritten(users: seq<User>, vehicles: seq<Vehicle>, renterId: nat, dto: NewBooking)
    requires UniqueVehicleIds(vehicles)
    requires renterId < |users| && MayBook(users[renterId])
    requires forall i :: 0 <= i < |vehicles| && vehicles[i].id == dto.vehicleId ==> vehicles[i].pricePerDay >= 0
    requires exists i :: 0 <= i < |vehicles| && vehicles[i].id == dto.vehicleId && vehicles[i].isAvailable
    requires dto.endDate <= dto.startDate
    ensures CreateAsWritten(users, vehicles, renterId, dto).Ok?
    ensures CreateAsWritten(users, vehicles, renterId, dto).value.totalPrice <= 0
    ensures CreateBooking(users, vehicles, renterId, dto) == Err(BadRequest(DatesOutOfOrder))
  {
    var i :| 0 <= i < |vehicles| && vehicles[i].id == dto.vehicleId && vehicles[i].isAvailable;
    assert VehicleIndex(vehicles, dto.vehicleId) == Some(i);
    DaysNotPositive(dto.startDate, dto.endDate);
    var d := Days(dto.startDate, dto.endDate);
    MulMonotone(d, 0, vehicles[i].pricePerDay + 1);
    assert vehicles[i].pricePerDay * d <= 0 by {
      if vehicles[i].pricePerDay > 0 { MulMonotone(d, 0, vehicles[i].pricePerDay); }
    }
  }
}
