/**
 * The rows of the Prisma tables the rental services share, and the database
 * holding them. Users, KYC records, bookings, reviews and messages are never
 * deleted by these services, so a row's id is its position in its table and
 * `createdAt` order is table order. Vehicles are deleted by `remove`, so they
 * carry their own ids, drawn from an increasing counter. Refresh tokens are
 * keyed by the token text.
 */
module Schema {
  import opened Common

  datatype Role = Renter | Merchant | Admin

  /** The enum value as Prisma spells it. */
  function RoleText(r: Role): (s: string)
    ensures |s| >= 5
  {
    match r
    case Renter => "RENTER"
    case Merchant => "MERCHANT"
    case Admin => "ADMIN"
  }

  datatype RegistrationStep = PhoneVerified | ProfileCompleted | KycPending | KycApproved
  datatype LicenseStatus = LicensePending | LicenseApproved | LicenseRejected
  datatype KycStatus = KycPendingReview | KycApprovedStatus | KycRejectedStatus
  datatype BookingStatus = Pending | Accepted | Rejected | Completed

  /** The business details a merchant's profile completion writes. */
  datatype Business = Business(
    businessName: string,
    addressLine1: string,
    addressLine2: Option<string>,
    city: string,
    state: string,
    postalCode: string,
    country: string,
    latitude: Option<real>,
    longitude: Option<real>)

  datatype User = User(
    phone: string,
    role: Role,
    phoneVerified: bool,
    registrationStep: Option<RegistrationStep>,
    firstName: Option<string>,
    lastName: Option<string>,
    email: Option<string>,
    business: Option<Business>,
    licenseUrl: Option<string>,
    licenseStatus: Option<LicenseStatus>,
    licenseApprovedAt: Option<int>)

  /** The row `verifyOTPAndAuthenticate` creates for an unknown phone. */
  function NewUser(phone: string, role: Role): (u: User)
    ensures u.phone == phone && u.role == role && u.phoneVerified
    ensures u.registrationStep == Some(PhoneVerified)
  {
    User(phone, role, true, Some(PhoneVerified), None, None, None, None, None, None, None)
  }

  datatype Kyc = Kyc(
    userId: nat,
    licenseNumber: string,
    licenseImageUrl: string,
    licenseExpiryDate: int,
    status: KycStatus,
    verifiedAt: Option<int>,
    rejectionReason: Option<string>)

  datatype Vehicle = Vehicle(
    id: nat,
    merchantId: nat,
    make: string,
    model: string,
    year: int,
    color: string,
    licensePlate: string,
    pricePerHour: int,
    pricePerDay: int,
    seats: int,
    fuelType: string,
    transmission: string,
    mileage: Option<int>,
    description: Option<string>,
    features: seq<string>,
    images: seq<string>,
    isAvailable: bool)

  datatype Booking = Booking(
    renterId: nat,
    merchantId: nat,
    vehicleId: nat,
    startDate: int,
    endDate: int,
    totalPrice: int,
    renterNotes: Option<string>,
    merchantNotes: Option<string>,
    status: BookingStatus,
    acceptedAt: Option<int>,
    rejectedAt: Option<int>,
    completedAt: Option<int>)

  datatype Review = Review(bookingId: nat, reviewerId: nat, rating: int, comment: Option<string>)

  datatype Message = Message(bookingId: nat, senderId: nat, receiverId: nat, content: string, isRead: bool)

  datatype RefreshToken = RefreshToken(userId: nat, expiresAt: int)

  /** An e-mail handed to the notifications service, which swallows every delivery failure. */
  datatype Notification =
    | NewBookingMail(merchantId: nat, bookingId: nat)
    | BookingAcceptedMail(renterId: nat, bookingId: nat)
    | BookingRejectedMail(renterId: nat, bookingId: nat)
    | BookingCompletedMail(renterId: nat, bookingId: nat)
    | LicenseApprovalMail(userId: nat)

  // ---------------------------------------------------------------------
  // Table invariants (unique columns and foreign keys)
  // ---------------------------------------------------------------------

  /** `phone` is a unique column. */
  ghost predicate UsersOk(users: seq<User>)
  {
    forall i, j :: 0 <= i < j < |users| ==> users[i].phone != users[j].phone
  }

  /** A KYC record belongs to a renter, and a user has at most one (`userId` is unique). */
  ghost predicate KycsOk(kycs: seq<Kyc>, users: seq<User>)
  {
    && (forall k :: 0 <= k < |kycs| ==> kycs[k].userId < |users| && users[kycs[k].userId].role == Renter)
    && (forall k, l :: 0 <= k < l < |kycs| ==> kycs[k].userId != kycs[l].userId)
  }

  /** Vehicle ids increase along the table and stay below the counter; plates are unique. */
  ghost predicate VehiclesOk(vehicles: seq<Vehicle>, users: seq<User>, nextVehicleId: nat)
  {
    && (forall i, j :: 0 <= i < j < |vehicles| ==> vehicles[i].id < vehicles[j].id)
    && (forall i :: 0 <= i < |vehicles| ==> vehicles[i].id < nextVehicleId && vehicles[i].merchantId < |users|)
    && (forall i, j :: 0 <= i < j < |vehicles| ==> vehicles[i].licensePlate != vehicles[j].licensePlate)
  }

  /** `id` is the vehicle table's primary key. */
  ghost predicate UniqueVehicleIds(vehicles: seq<Vehicle>)
  {
    forall i, j :: 0 <= i < j < |vehicles| ==> vehicles[i].id != vehicles[j].id
  }

  ghost predicate BookingsOk(bookings: seq<Booking>, users: seq<User>)
  {
    forall b :: 0 <= b < |bookings| ==> bookings[b].renterId < |users| && bookings[b].merchantId < |users|
  }

  /**
   * A review belongs to a completed booking, was written by its renter and
   * rates it from 1 to 5, and a booking has at most one review (`bookingId`
   * is unique).
   */
  ghost predicate ReviewsOk(reviews: seq<Review>, bookings: seq<Booking>)
  {
    && (forall k :: 0 <= k < |reviews| ==>
          && reviews[k].bookingId < |bookings|
          && 1 <= reviews[k].rating <= 5
          && bookings[reviews[k].bookingId].status == Completed
          && bookings[reviews[k].bookingId].renterId == reviews[k].reviewerId)
    && (forall k, l :: 0 <= k < l < |reviews| ==> reviews[k].bookingId != reviews[l].bookingId)
  }

  /** A message is sent between the two parties of its booking. */
  ghost predicate MessagesOk(messages: seq<Message>, bookings: seq<Booking>)
  {
    forall m :: 0 <= m < |messages| ==>
      && messages[m].bookingId < |bookings|
      && Party(bookings[messages[m].bookingId], messages[m].senderId)
      && Party(bookings[messages[m].bookingId], messages[m].receiverId)
  }

  predicate Party(b: Booking, userId: nat)
  {
    userId == b.renterId || userId == b.merchantId
  }

  ghost predicate TokensOk(tokens: map<string, RefreshToken>, users: seq<User>)
  {
    forall t :: t in tokens ==> tokens[t].userId < |users|
  }

  // ---------------------------------------------------------------------
  // How the invariants survive updates of one table
  // ---------------------------------------------------------------------

  /** Same users with the same phones and roles: what user updates keep. */
  ghost predicate SameIdentities(users: seq<User>, users': seq<User>)
  {
    |users'| == |users| &&
    forall i :: 0 <= i < |users| ==> users'[i].phone == users[i].phone && users'[i].role == users[i].role
  }

  lemma IdentitiesKeepInvariants(users: seq<User>, users': seq<User>, kycs: seq<Kyc>, vehicles: seq<Vehicle>,
                                 nextVehicleId: nat, bookings: seq<Booking>, tokens: map<string, RefreshToken>)
    requires SameIdentities(users, users')
    requires UsersOk(users) && KycsOk(kycs, users) && VehiclesOk(vehicles, users, nextVehicleId)
    requires BookingsOk(bookings, users) && TokensOk(tokens, users)
    ensures UsersOk(users') && KycsOk(kycs, users') && VehiclesOk(vehicles, users', nextVehicleId)
    ensures BookingsOk(bookings, users') && TokensOk(tokens, users')
  {
  }

  /** Booking updates that keep the parties and leave completed bookings alone. */
  ghost predicate SameParties(bookings: seq<Booking>, bookings': seq<Booking>)
  {
    |bookings'| == |bookings| &&
    forall b :: 0 <= b < |bookings| ==>
      && bookings'[b].renterId == bookings[b].renterId
      && bookings'[b].merchantId == bookings[b].merchantId
      && (bookings[b].status == Completed ==> bookings'[b].status == Completed)
  }

  lemma PartiesKeepInvariants(bookings: seq<Booking>, bookings': seq<Booking>, users: seq<User>,
                              reviews: seq<Review>, messages: seq<Message>)
    requires SameParties(bookings, bookings')
    requires BookingsOk(bookings, users) && ReviewsOk(reviews, bookings) && MessagesOk(messages, bookings)
    ensures BookingsOk(bookings', users) && ReviewsOk(reviews, bookings') && MessagesOk(messages, bookings')
  {
  }

  /** A new booking between two existing users keeps every booking-side invariant. */
  lemma AppendBookingKeepsInvariants(bookings: seq<Booking>, b: Booking, users: seq<User>,
                                     reviews: seq<Review>, messages: seq<Message>)
    requires b.renterId < |users| && b.merchantId < |users|
    requires BookingsOk(bookings, users) && ReviewsOk(reviews, bookings) && MessagesOk(messages, bookings)
    ensures BookingsOk(bookings + [b], users) && ReviewsOk(reviews, bookings + [b])
    ensures MessagesOk(messages, bookings + [b])
  {
    assert forall i :: 0 <= i < |bookings| ==> (bookings + [b])[i] == bookings[i];
  }

  /**
   * The database. Methods of the services take it and say, in their
   * `modifies` clauses, which tables they may write.
   */
  class Database {
    var users: seq<User>
    var kycs: seq<Kyc>
    var vehicles: seq<Vehicle>
    var nextVehicleId: nat
    var bookings: seq<Booking>
    var reviews: seq<Review>
    var messages: seq<Message>
    var refreshTokens: map<string, RefreshToken>
    var outbox: seq<Notification>

    ghost predicate Valid()
      reads this
    {
      && UsersOk(users)
      && KycsOk(kycs, users)
      && VehiclesOk(vehicles, users, nextVehicleId)
      && BookingsOk(bookings, users)
      && ReviewsOk(reviews, bookings)
      && MessagesOk(messages, bookings)
      && TokensOk(refreshTokens, users)
    }

    constructor ()
      ensures Valid()
      ensures users == [] && kycs == [] && vehicles == [] && bookings == []
      ensures reviews == [] && messages == [] && refreshTokens == map[] && outbox == []
    {
      users, kycs, vehicles, nextVehicleId := [], [], [], 0;
      bookings, reviews, messages, refreshTokens, outbox := [], [], [], map[], [];
    }
  }

  /** `user.findUnique({ where: { phone } })`: the position of the user with that phone. */
  function PhoneIndex(users: seq<User>, phone: string): (i: Option<nat>)
    ensures i.None? <==> forall j :: 0 <= j < |users| ==> users[j].phone != phone
    ensures i.Some? ==> i.value < |users| && users[i.value].phone == phone
  {
    if users == [] then None
    else if users[|users| - 1].phone == phone then Some(|users| - 1)
    else PhoneIndex(users[..|users| - 1], phone)
  }

  /** `kYC.findUnique({ where: { userId } })`, i.e. `user.kyc` */
  function KycIndex(kycs: seq<Kyc>, userId: nat): (k: Option<nat>)
    ensures k.None? <==> forall j :: 0 <= j < |kycs| ==> kycs[j].userId != userId
    ensures k.Some? ==> k.value < |kycs| && kycs[k.value].userId == userId
  {
    if kycs == [] then None
    else if kycs[|kycs| - 1].userId == userId then Some(|kycs| - 1)
    else KycIndex(kycs[..|kycs| - 1], userId)
  }

  /** `vehicle.findUnique({ where: { id } })`: the position of the vehicle with that id. */
  function VehicleIndex(vehicles: seq<Vehicle>, id: nat): (i: Option<nat>)
    ensures i.None? <==> forall j :: 0 <= j < |vehicles| ==> vehicles[j].id != id
    ensures i.Some? ==> i.value < |vehicles| && vehicles[i.value].id == id
  {
    if vehicles == [] then None
    else if vehicles[|vehicles| - 1].id == id then Some(|vehicles| - 1)
    else VehicleIndex(vehicles[..|vehicles| - 1], id)
  }

  /** `review.findUnique({ where: { bookingId } })`, i.e. `booking.review` */
  function ReviewIndex(reviews: seq<Review>, bookingId: nat): (k: Option<nat>)
    ensures k.None? <==> forall j :: 0 <= j < |reviews| ==> reviews[j].bookingId != bookingId
    ensures k.Some? ==> k.value < |reviews| && reviews[k.value].bookingId == bookingId
  {
    if reviews == [] then None
    else if reviews[|reviews| - 1].bookingId == bookingId then Some(|reviews| - 1)
    else ReviewIndex(reviews[..|reviews| - 1], bookingId)
  }
}
