/** The document store the controllers share: one collection per model. */
module Store {
  import opened Models

  /** The hotels of `owner` hold at most one record (the rule `registerHotel` keeps). */
  predicate AtMostOneHotelPerOwner(hs: seq<Hotel>)
  {
    forall i, j :: 0 <= i < j < |hs| ==> hs[i].owner != hs[j].owner
  }

  predicate UniqueRoomIds(rs: seq<Room>)
  {
    forall i, j :: 0 <= i < j < |rs| ==> rs[i].id != rs[j].id
  }

  predicate UniqueHotelIds(hs: seq<Hotel>)
  {
    forall i, j :: 0 <= i < j < |hs| ==> hs[i].id != hs[j].id
  }

  /** Every user is stored under its own `_id`. */
  predicate UsersKeyed(users: map<string, User>)
  {
    forall id :: id in users ==> users[id].id == id
  }

  class Database {
    var bookings: seq<Booking>
    var rooms: seq<Room>
    var hotels: seq<Hotel>
    var users: map<string, User>

    /** `_id` is unique in every collection and each owner has at most one hotel. */
    ghost predicate Valid()
      reads this
    {
      UniqueBookingIds(bookings) && UniqueRoomIds(rooms) && UniqueHotelIds(hotels)
      && AtMostOneHotelPerOwner(hotels) && UsersKeyed(users)
    }

    constructor ()
      ensures Valid()
      ensures bookings == [] && rooms == [] && hotels == [] && users == map[]
    {
      bookings, rooms, hotels, users := [], [], [], map[];
    }
  }
}

/** The filters the controllers pass to `find` and `findOne`. */
module Queries {
  import opened Models

  function BookingWithId(id: string): Booking -> bool { (b: Booking) => b.id == id }
  function BookingOfUser(user: string): Booking -> bool { (b: Booking) => b.user == user }
  function BookingOfHotel(hotel: string): Booking -> bool { (b: Booking) => b.hotel == hotel }
  function RoomWithId(id: string): Room -> bool { (r: Room) => r.id == id }
  function RoomOfHotel(hotel: string): Room -> bool { (r: Room) => r.hotel == hotel }
  function RoomIsListed(): Room -> bool { (r: Room) => r.isAvailable }
  function HotelWithId(id: string): Hotel -> bool { (h: Hotel) => h.id == id }
  function HotelOfOwner(owner: string): Hotel -> bool { (h: Hotel) => h.owner == owner }
  function BookingCreatedAt(): Booking -> int { (b: Booking) => b.createdAt }
  function RoomCreatedAt(): Room -> int { (r: Room) => r.createdAt }
  function BookingId(): Booking -> string { (b: Booking) => b.id }
  function RoomId(): Room -> string { (r: Room) => r.id }
  function HotelId(): Hotel -> string { (h: Hotel) => h.id }
}
