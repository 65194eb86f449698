/**
 * src/vehicles/vehicles.service.ts: the availability search over a date
 * window, the listing queries, and the merchant-guarded create, update and
 * remove of the vehicle table. Image keys become public URLs through the
 * upload service's `buildPublicUrls`.
 */
module Vehicles {
  import opened Common
  import opened Schema
  import Uploads

  const MerchantOnly := "Only merchants can perform this action"
  const LicensePlateExists := "Vehicle with this license plate already exists"
  const NotOwner := "You can only manage your own vehicles"
  const EndNotAfterStart := "endDate must be after startDate"
  const VehicleDeleted := "Vehicle deleted successfully"

  // ---------------------------------------------------------------------
  // findAll: the search window and the availability filter
  // ---------------------------------------------------------------------

  /** The `dateRange` query: a start, and an end that may be omitted. */
  datatype DateRange = DateRange(startDate: int, endDate: Option<int>)

  /** The half-open window `[start, end)` a search asks about. */
  datatype Window = Window(start: int, end: int)

  /**
   * The window of `findAll`: none without a date range; with only a start,
   * the UTC day that begins there; refused when the end is not after the start.
   */
  function SearchWindow(range: Option<DateRange>): (w: Result<Option<Window>>)
    ensures range.None? ==> w == Ok(None)
    ensures range.Some? ==>
      var end := if range.value.endDate.Some? then range.value.endDate.value else range.value.startDate + DayMs;
      if end <= range.value.startDate then w == Err(BadRequest(EndNotAfterStart))
      else w == Ok(Some(Window(range.value.startDate, end)))
  {
    match range
    case None => Ok(None)
    case Some(DateRange(start, endDate)) =>
      var end := if endDate.Some? then endDate.value else start + DayMs;
      if end <= start then Err(BadRequest(EndNotAfterStart)) else Ok(Some(Window(start, end)))
  }

  /** A booking keeps the vehicle from a window: it is PENDING or ACCEPTED and overlaps it. */
  predicate Blocks(b: Booking, vehicleId: nat, w: Window)
  {
    && b.vehicleId == vehicleId
    && (b.status == Pending || b.status == Accepted)
    && b.startDate < w.end
    && b.endDate > w.start
  }

  predicate FreeIn(v: Vehicle, bookings: seq<Booking>, w: Window)
  {
    forall k :: 0 <= k < |bookings| ==> !Blocks(bookings[k], v.id, w)
  }

  /** The `where` of `findAll`: the `isAvailable` filter, and `bookings: { none: … }` for a window. */
  predicate Listed(v: Vehicle, bookings: seq<Booking>, isAvailable: Option<bool>, window: Option<Window>)
  {
    && (isAvailable.None? || v.isAvailable == isAvailable.value)
    && (window.None? || FreeIn(v, bookings, window.value))
  }

  function ListedBy(bookings: seq<Booking>, isAvailable: Option<bool>, window: Option<Window>): Vehicle -> bool
  {
    (v: Vehicle) => Listed(v, bookings, isAvailable, window)
  }

  /** `findAll(filters, dateRange)`: the listed vehicles, newest first. */
  function FindAll(vehicles: seq<Vehicle>, bookings: seq<Booking>, isAvailable: Option<bool>,
                   range: Option<DateRange>): (r: Result<seq<Vehicle>>)
    ensures r.Err? <==> SearchWindow(range).Err?
    ensures r.Err? ==> r.error == BadRequest(EndNotAfterStart)
    ensures r.Ok? ==> forall v :: v in r.value <==>
      v in vehicles && Listed(v, bookings, isAvailable, SearchWindow(range).value)
  {
    match SearchWindow(range)
    case Err(e) => Err(e)
    case Ok(window) => Ok(Reverse(Filter(vehicles, ListedBy(bookings, isAvailable, window))))
  }

  /** The search lists newest vehicles first. */
  lemma FindAllNewestFirst(vehicles: seq<Vehicle>, users: seq<User>, nextVehicleId: nat, bookings: seq<Booking>,
                           isAvailable: Option<bool>, range: Option<DateRange>)
    requires VehiclesOk(vehicles, users, nextVehicleId)
    requires FindAll(vehicles, bookings, isAvailable, range).Ok?
    ensures var found := FindAll(vehicles, bookings, isAvailable, range).value;
      forall a, b :: 0 <= a < b < |found| ==> found[a].id > found[b].id
  {
    var window := SearchWindow(range).value;
    NewestFirst(vehicles, ListedBy(bookings, isAvailable, window), (v: Vehicle) => v.id);
  }

  predicate Covers(start: int, end: int, t: int)
  {
    start <= t < end
  }

  /**
   * The blocking test is the overlap of half-open intervals: two non-empty
   * intervals overlap exactly when some instant lies in both.
   */
  lemma BlocksIffSharedInstant(b: Booking, vehicleId: nat, w: Window)
    requires b.vehicleId == vehicleId && (b.status == Pending || b.status == Accepted)
    requires b.startDate < b.endDate && w.start < w.end
    ensures Blocks(b, vehicleId, w) <==> exists t :: Covers(b.startDate, b.endDate, t) && Covers(w.start, w.end, t)
  {
    if Blocks(b, vehicleId, w) {
      var t := if b.startDate < w.start then w.start else b.startDate;
      assert Covers(b.startDate, b.endDate, t) && Covers(w.start, w.end, t);
    }
  }

  /**
   * A booking that ends where the window starts, or starts where it ends,
   * does not block; neither does a booking in any other status or for
   * another vehicle.
   */
  lemma TouchingOrSettledDoesNotBlock(b: Booking, vehicleId: nat, w: Window)
    requires || b.endDate == w.start || b.startDate == w.end
             || b.status == Rejected || b.status == Completed
             || b.vehicleId != vehicleId
    ensures !Blocks(b, vehicleId, w)
  {
  }

  /** Leaving out the end date asks about exactly one day. */
  lemma StartOnlyIsOneDay(start: int)
    ensures SearchWindow(Some(DateRange(start, None))) == Ok(Some(Window(start, start + DayMs)))
  {
  }

  // ---------------------------------------------------------------------
  // findMyVehicles and findOne
  // ---------------------------------------------------------------------

  function OwnedBy(merchantId: nat): Vehicle -> bool
  {
    (v: Vehicle) => v.merchantId == merchantId
  }

  /** `findMyVehicles(merchantId)`: the merchant's vehicles, newest first. */
  function MyVehicles(vehicles: seq<Vehicle>, merchantId: nat): (r: seq<Vehicle>)
    ensures forall v :: v in r <==> v in vehicles && v.merchantId == merchantId
  {
    Reverse(Filter(vehicles, OwnedBy(merchantId)))
  }

  /** A merchant's own listing is newest first. */
  lemma MyVehiclesNewestFirst(vehicles: seq<Vehicle>, users: seq<User>, nextVehicleId: nat, merchantId: nat)
    requires VehiclesOk(vehicles, users, nextVehicleId)
    ensures var mine := MyVehicles(vehicles, merchantId);
      forall a, b :: 0 <= a < b < |mine| ==> mine[a].id > mine[b].id
  {
    NewestFirst(vehicles, OwnedBy(merchantId), (v: Vehicle) => v.id);
  }

  function ActiveFor(vehicleId: nat): Booking -> bool
  {
    (b: Booking) => b.vehicleId == vehicleId && (b.status == Accepted || b.status == Pending)
  }

  /** `findOne(id)`: the vehicle with its PENDING and ACCEPTED bookings. */
  function FindOne(vehicles: seq<Vehicle>, bookings: seq<Booking>, id: nat): (r: Result<(Vehicle, seq<Booking>)>)
    ensures r.Err? <==> forall j :: 0 <= j < |vehicles| ==> vehicles[j].id != id
    ensures r.Err? ==> r.error == NotFound(VehicleNotFound)
    ensures r.Ok? ==> r.value.0 in vehicles && r.value.0.id == id
    ensures r.Ok? ==> forall b :: b in r.value.1 <==>
      b in bookings && b.vehicleId == id && (b.status == Pending || b.status == Accepted)
  {
    match VehicleIndex(vehicles, id)
    case None => Err(NotFound(VehicleNotFound))
    case Some(i) => Ok((vehicles[i], Filter(bookings, ActiveFor(id))))
  }

  // ---------------------------------------------------------------------
  // create, update, remove
  // ---------------------------------------------------------------------

  /** The body of a create request (`CreateVehicleDto` with the `imageKeys` the service reads). */
  datatype NewVehicle = NewVehicle(
    make: string, model: string, year: int, color: string, licensePlate: string,
    pricePerHour: int, pricePerDay: int, seats: int, fuelType: string, transmission: string,
    mileage: Option<int>, description: Option<string>, features: Option<seq<string>>,
    images: Option<seq<string>>, imageKeys: Option<seq<string>>, isAvailable: Option<bool>)

  /** The body of an update request: every field may be left out. */
  datatype VehicleChanges = VehicleChanges(
    make: Option<string>, model: Option<string>, year: Option<int>, color: Option<string>,
    pricePerHour: Option<int>, pricePerDay: Option<int>, seats: Option<int>,
    fuelType: Option<string>, transmission: Option<string>, mileage: Option<int>,
    description: Option<string>, features: Option<seq<string>>,
    images: Option<seq<string>>, imageKeys: Option<seq<string>>, isAvailable: Option<bool>)

  function Or<T>(given: Option<T>, current: T): (r: T)
    ensures given.Some? ==> r == given.value
    ensures given.None? ==> r == current
  {
    if given.Some? then given.value else current
  }

  /** `verifyMerchant` then `checkLicensePlateUnique`, the guards of `create`. */
  function CreateCheck(users: seq<User>, vehicles: seq<Vehicle>, merchantId: nat, licensePlate: string): (f: Option<Failure>)
    ensures f.None? <==> merchantId < |users| && users[merchantId].role == Merchant &&
                         forall j :: 0 <= j < |vehicles| ==> vehicles[j].licensePlate != licensePlate
    ensures merchantId >= |users| ==> f == Some(NotFound(UserNotFound))
    ensures merchantId < |users| && users[merchantId].role != Merchant ==> f == Some(Forbidden(MerchantOnly))
    ensures merchantId < |users| && users[merchantId].role == Merchant &&
            (exists j :: 0 <= j < |vehicles| && vehicles[j].licensePlate == licensePlate) ==>
              f == Some(Conflict(LicensePlateExists))
  {
    if merchantId >= |users| then Some(NotFound(UserNotFound))
    else if users[merchantId].role != Merchant then Some(Forbidden(MerchantOnly))
    else if exists j :: 0 <= j < |vehicles| && vehicles[j].licensePlate == licensePlate then
      Some(Conflict(LicensePlateExists))
    else None
  }

  /**
   * `mapCreateVehicleAssetKeys`: the images of a new vehicle are the URLs of
   * its image keys; any `images` sent directly are overwritten (with
   * `undefined`, so the column takes its empty default).
   */
  function CreateImages(publicBase: string, dto: NewVehicle): (r: Result<seq<string>>)
    ensures dto.imageKeys.None? ==> r == Ok([])
    ensures dto.imageKeys.Some? ==> r == Uploads.BuildPublicUrls(publicBase, dto.imageKeys.value)
  {
    if dto.imageKeys.Some? then Uploads.BuildPublicUrls(publicBase, dto.imageKeys.value) else Ok([])
  }

  function Created(id: nat, merchantId: nat, dto: NewVehicle, images: seq<string>): (v: Vehicle)
    ensures v.id == id && v.merchantId == merchantId && v.licensePlate == dto.licensePlate && v.images == images
  {
    Vehicle(id, merchantId, dto.make, dto.model, dto.year, dto.color, dto.licensePlate,
            dto.pricePerHour, dto.pricePerDay, dto.seats, dto.fuelType, dto.transmission,
            dto.mileage, dto.description, Or(dto.features, []), images, Or(dto.isAvailable, true))
  }

  /** `create(merchantId, dto)`: the caller becomes the owner of a new vehicle with a fresh id. */
  method Create(db: Database, merchantId: nat, dto: NewVehicle, publicBase: string) returns (r: Result<Vehicle>)
    requires db.Valid()
    modifies db`vehicles, db`nextVehicleId
    ensures db.Valid()
    ensures CreateCheck(old(db.users), old(db.vehicles), merchantId, dto.licensePlate).Some? ==>
      r == Err(CreateCheck(old(db.users), old(db.vehicles), merchantId, dto.licensePlate).value)
    ensures (CreateCheck(old(db.users), old(db.vehicles), merchantId, dto.licensePlate).None? &&
             CreateImages(publicBase, dto).Err?) ==> r == Err(CreateImages(publicBase, dto).error)
    ensures r.Err? ==> db.vehicles == old(db.vehicles) && db.nextVehicleId == old(db.nextVehicleId)
    ensures r.Ok? ==>
      && CreateCheck(old(db.users), old(db.vehicles), merchantId, dto.licensePlate).None?
      && CreateImages(publicBase, dto).Ok?
      && r.value == Created(old(db.nextVehicleId), merchantId, dto, CreateImages(publicBase, dto).value)
      && db.vehicles == old(db.vehicles) + [r.value]
      && db.nextVehicleId == old(db.nextVehicleId) + 1
  {
    var check := CreateCheck(db.users, db.vehicles, merchantId, dto.licensePlate);
    if check.Some? {
      return Err(check.value);
    }
    var images := CreateImages(publicBase, dto);
    if images.Err? {
      return Err(images.error);
    }
    var v := Created(db.nextVehicleId, merchantId, dto, images.value);
    db.vehicles := db.vehicles + [v];
    db.nextVehicleId := db.nextVehicleId + 1;
    r := Ok(v);
  }

  /** `verifyOwnership(vehicleMerchantId, requestMerchantId)` */
  function VerifyOwnership(vehicleMerchantId: nat, requestMerchantId: nat): (f: Option<Failure>)
    ensures f.None? <==> vehicleMerchantId == requestMerchantId
    ensures f.Some? ==> f.value == Forbidden(NotOwner)
  {
    if vehicleMerchantId != requestMerchantId then Some(Forbidden(NotOwner)) else None
  }

  /**
   * `mapUpdateVehicleAssetKeys(dto)`: the `images` value the update writes,
   * None meaning the column is left alone. Image keys, when sent, win over
   * `images`.
   */
  function UpdateImages(publicBase: string, dto: VehicleChanges): (r: Result<Option<seq<string>>>)
    ensures dto.imageKeys.None? ==> r == Ok(dto.images)
    ensures dto.imageKeys.Some? ==> (r.Ok? <==> Uploads.BuildPublicUrls(publicBase, dto.imageKeys.value).Ok?)
    ensures dto.imageKeys.Some? && r.Ok? ==>
      && r.value.Some?
      && |r.value.value| == |dto.imageKeys.value|
      && forall i :: 0 <= i < |dto.imageKeys.value| ==>
           Uploads.BuildPublicUrl(publicBase, dto.imageKeys.value[i]) == Ok(r.value.value[i])
  {
    if dto.imageKeys.None? then Ok(dto.images)
    else
      match Uploads.BuildPublicUrls(publicBase, dto.imageKeys.value)
      case Err(e) => Err(e)
      case Ok(urls) => Ok(Some(urls))
  }

  /** Prisma's `update` with the mapped data: a field left out keeps its value. */
  function Changed(v: Vehicle, dto: VehicleChanges, images: Option<seq<string>>): (v': Vehicle)
    ensures v'.id == v.id && v'.merchantId == v.merchantId && v'.licensePlate == v.licensePlate
    ensures v'.images == (if images.Some? then images.value else v.images)
    ensures v'.make == (if dto.make.Some? then dto.make.value else v.make)
    ensures v'.model == (if dto.model.Some? then dto.model.value else v.model)
    ensures v'.year == (if dto.year.Some? then dto.year.value else v.year)
    ensures v'.color == (if dto.color.Some? then dto.color.value else v.color)
    ensures v'.pricePerHour == (if dto.pricePerHour.Some? then dto.pricePerHour.value else v.pricePerHour)
    ensures v'.pricePerDay == (if dto.pricePerDay.Some? then dto.pricePerDay.value else v.pricePerDay)
    ensures v'.seats == (if dto.seats.Some? then dto.seats.value else v.seats)
    ensures v'.fuelType == (if dto.fuelType.Some? then dto.fuelType.value else v.fuelType)
    ensures v'.transmission == (if dto.transmission.Some? then dto.transmission.value else v.transmission)
    ensures v'.features == (if dto.features.Some? then dto.features.value else v.features)
    ensures v'.isAvailable == (if dto.isAvailable.Some? then dto.isAvailable.value else v.isAvailable)
    ensures v'.mileage == (if dto.mileage.Some? then dto.mileage else v.mileage)
    ensures v'.description == (if dto.description.Some? then dto.description else v.description)
  {
    v.(make := Or(dto.make, v.make), model := Or(dto.model, v.model), year := Or(dto.year, v.year),
       color := Or(dto.color, v.color), pricePerHour := Or(dto.pricePerHour, v.pricePerHour),
       pricePerDay := Or(dto.pricePerDay, v.pricePerDay), seats := Or(dto.seats, v.seats),
       fuelType := Or(dto.fuelType, v.fuelType), transmission := Or(dto.transmission, v.transmission),
       mileage := Keep(dto.mileage, v.mileage), description := Keep(dto.description, v.description),
       features := Or(dto.features, v.features), images := Or(images, v.images),
       isAvailable := Or(dto.isAvailable, v.isAvailable))
  }

  /** `findVehicleById` then `verifyOwnership`: the guards of update and remove. */
  function OwnerCheck(vehicles: seq<Vehicle>, id: nat, merchantId: nat): (f: Option<Failure>)
    requires UniqueVehicleIds(vehicles)
    ensures f.None? <==> exists j :: 0 <= j < |vehicles| && vehicles[j].id == id && vehicles[j].merchantId == merchantId
    ensures (forall j :: 0 <= j < |vehicles| ==> vehicles[j].id != id) ==> f == Some(NotFound(VehicleNotFound))
    ensures (exists j :: 0 <= j < |vehicles| && vehicles[j].id == id) && f.Some? ==> f == Some(Forbidden(NotOwner))
  {
    match VehicleIndex(vehicles, id)
    case None => Some(NotFound(VehicleNotFound))
    case Some(i) =>
      assert forall j :: 0 <= j < |vehicles| && vehicles[j].id == id ==> j == i;
      VerifyOwnership(vehicles[i].merchantId, merchantId)
  }

  /**
   * `update(id, merchantId, dto)`: only the owner may change a vehicle; its
   * id, owner and plate never change and fields left out keep their values.
   */
  method Update(db: Database, id: nat, merchantId: nat, dto: VehicleChanges, publicBase: string) returns (r: Result<Vehicle>)
    requires db.Valid()
    modifies db`vehicles
    ensures db.Valid()
    ensures OwnerCheck(old(db.vehicles), id, merchantId).Some? ==> r == Err(OwnerCheck(old(db.vehicles), id, merchantId).value)
    ensures (OwnerCheck(old(db.vehicles), id, merchantId).None? && UpdateImages(publicBase, dto).Err?) ==>
      r == Err(UpdateImages(publicBase, dto).error)
    ensures r.Err? ==> db.vehicles == old(db.vehicles)
    ensures r.Ok? ==>
      && OwnerCheck(old(db.vehicles), id, merchantId).None?
      && UpdateImages(publicBase, dto).Ok?
      && exists i :: 0 <= i < |old(db.vehicles)| && old(db.vehicles)[i].id == id &&
           r.value == Changed(old(db.vehicles)[i], dto, UpdateImages(publicBase, dto).value) &&
           db.vehicles == old(db.vehicles)[i := r.value]
  {
    var check := OwnerCheck(db.vehicles, id, merchantId);
    if check.Some? {
      return Err(check.value);
    }
    var images := UpdateImages(publicBase, dto);
    if images.Err? {
      return Err(images.error);
    }
    var i := VehicleIndex(db.vehicles, id).value;
    var v := Changed(db.vehicles[i], dto, images.value);
    db.vehicles := db.vehicles[i := v];
    r := Ok(v);
  }

  /** `remove(id, merchantId)`: only the owner may delete a vehicle; every other vehicle stays, in order. */
  method Remove(db: Database, id: nat, merchantId: nat) returns (r: Result<string>)
    requires db.Valid()
    modifies db`vehicles
    ensures db.Valid()
    ensures OwnerCheck(old(db.vehicles), id, merchantId).Some? ==>
      r == Err(OwnerCheck(old(db.vehicles), id, merchantId).value) && db.vehicles == old(db.vehicles)
    ensures OwnerCheck(old(db.vehicles), id, merchantId).None? ==>
      r == Ok(VehicleDeleted) && db.vehicles == Filter(old(db.vehicles), OtherThan(id))
  {
    var check := OwnerCheck(db.vehicles, id, merchantId);
    if check.Some? {
      return Err(check.value);
    }
    RemoveKeepsVehiclesOk(db.vehicles, db.users, db.nextVehicleId, id);
    db.vehicles := Filter(db.vehicles, OtherThan(id));
    r := Ok(VehicleDeleted);
  }

  function OtherThan(id: nat): Vehicle -> bool
  {
    (v: Vehicle) => v.id != id
  }

  /** Deleting rows keeps the table's keys increasing and its plates unique. */
  lemma RemoveKeepsVehiclesOk(vehicles: seq<Vehicle>, users: seq<User>, nextVehicleId: nat, id: nat)
    requires VehiclesOk(vehicles, users, nextVehicleId)
    ensures VehiclesOk(Filter(vehicles, OtherThan(id)), users, nextVehicleId)
  {
    var r := Filter(vehicles, OtherThan(id));
    forall i, j | 0 <= i < j < |r|
      ensures r[i].id < r[j].id && r[i].licensePlate != r[j].licensePlate
    {
      FilterPairs(vehicles, OtherThan(id), i, j);
    }
    forall i | 0 <= i < |r| ensures r[i].id < nextVehicleId && r[i].merchantId < |users| {
      assert r[i] in vehicles;
    }
  }
}
