/** The three Mongoose schemas of the core (Booking, Room, User) and the Hotel
    record they reference, as values. Dates are millisecond timestamps;
    `createdAt` is the creation stamp that the `timestamps` option adds. */
module Models {

  /** `status` enum of the Booking schema. */
  datatype BookingStatus = Pending | Paid | Cancelled

  /** `role` enum of the User schema. */
  datatype Role = UserRole | OwnerRole | AdminRole

  datatype Booking = Booking(
    id: string,
    user: string,
    room: string,
    hotel: string,
    checkInDate: int,
    checkOutDate: int,
    guests: int,
    totalPrice: int,
    status: BookingStatus,
    paymentMethod: string,
    isPaid: bool,
    createdAt: int)

  datatype Room = Room(
    id: string,
    hotel: string,
    roomType: string,
    pricePerNight: int,
    images: seq<string>,
    amenities: seq<string>,
    isAvailable: bool,
    createdAt: int)

  datatype Hotel = Hotel(
    id: string,
    name: string,
    address: string,
    contact: string,
    city: string,
    owner: string)

  datatype User = User(
    id: string,
    userName: string,
    email: string,
    role: Role,
    image: string,
    recentSearchedCities: seq<string>)

  const DefaultPaymentMethod: string := "Pay At Hotel"

  /** A `required: true` string path rejects a missing or empty value. */
  predicate Required(s: string)
  {
    s != ""
  }

  /** A booking as `Booking.create` stores it: the given fields plus the
      schema defaults for `status`, `paymentMethod` and `isPaid`. */
  function NewBooking(id: string, user: string, room: string, hotel: string,
                      checkInDate: int, checkOutDate: int, guests: int,
                      totalPrice: int, now: int): (b: Booking)
    ensures b.status == Pending && b.paymentMethod == DefaultPaymentMethod && !b.isPaid
    ensures b.id == id && b.user == user && b.room == room && b.hotel == hotel
    ensures b.checkInDate == checkInDate && b.checkOutDate == checkOutDate
    ensures b.guests == guests && b.totalPrice == totalPrice && b.createdAt == now
  {
    Booking(id, user, room, hotel, checkInDate, checkOutDate, guests, totalPrice,
            Pending, DefaultPaymentMethod, false, now)
  }

  /** A room as `Room.create` stores it: listed (`isAvailable`) by default. */
  function NewRoom(id: string, hotel: string, roomType: string, pricePerNight: int,
                   images: seq<string>, amenities: seq<string>, now: int): (r: Room)
    ensures r.isAvailable
    ensures r.id == id && r.hotel == hotel && r.roomType == roomType
    ensures r.pricePerNight == pricePerNight && r.images == images
    ensures r.amenities == amenities && r.createdAt == now
  {
    Room(id, hotel, roomType, pricePerNight, images, amenities, true, now)
  }

  /** A user as `User.create` stores it: role "user" and no recent cities. */
  function NewUser(id: string, userName: string, email: string, image: string): (u: User)
    ensures u.role == UserRole && u.recentSearchedCities == []
    ensures u.id == id && u.userName == userName && u.email == email && u.image == image
  {
    User(id, userName, email, UserRole, image, [])
  }

  /** Schema validation of `Booking.create`: the required string references are present. */
  predicate BookingValidates(b: Booking)
  {
    Required(b.user) && Required(b.room) && Required(b.hotel) && Required(b.paymentMethod)
  }

  /** Schema validation of `User.create`: `_id` and `userName` are required. */
  predicate UserValidates(u: User)
  {
    Required(u.id) && Required(u.userName) && Required(u.email)
  }

  /** The length of the longest id in `ids` (0 for none). */
  function MaxLength(ids: seq<string>): (m: nat)
    ensures forall i :: 0 <= i < |ids| ==> |ids[i]| <= m
  {
    if ids == [] then 0
    else
      var rest := MaxLength(ids[1..]);
      if |ids[0]| > rest then |ids[0]| else rest
  }

  /** The identifier the database assigns to a new record: one that no record
      in the collection holds yet. */
  function FreshId(ids: seq<string>): (r: string)
    ensures forall i :: 0 <= i < |ids| ==> ids[i] != r
  {
    seq(MaxLength(ids) + 1, _ => '0')
  }

  /** The `_id`s of a collection, in order. */
  function Ids<T>(s: seq<T>, id: T -> string): (ids: seq<string>)
    ensures |ids| == |s| && forall i :: 0 <= i < |s| ==> ids[i] == id(s[i])
  {
    seq(|s|, i requires 0 <= i < |s| => id(s[i]))
  }

  /** `_id` is unique within a collection. */
  predicate UniqueBookingIds(bs: seq<Booking>)
  {
    forall i, j :: 0 <= i < j < |bs| ==> bs[i].id != bs[j].id
  }
}
