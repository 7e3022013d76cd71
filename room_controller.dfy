/** roomController.js: room creation, the two listings and the listing toggle.
    Image uploads are Cloudinary's: `uploads` holds the secure URLs in upload
    order, or `None` when an upload fails; `amenities` is the parsed JSON array,
    or `None` when `JSON.parse` throws. */
module RoomController {
  import opened Wrappers
  import opened Models
  import opened Listing
  import opened Queries
  import opened Store

  datatype RoomReply = RoomReply(status: int, room: Option<Room>)

  /** `createRoom` on the room collection. */
  function CreateRoomSpec(rooms: seq<Room>, hotels: seq<Hotel>, owner: string, roomType: string,
                          pricePerNight: int, uploads: Option<seq<string>>,
                          amenities: Option<seq<string>>, now: int): (r: (RoomReply, seq<Room>))
    ensures r.0.status == 404 <==> forall i :: 0 <= i < |hotels| ==> hotels[i].owner != owner
    ensures r.0.status == 404 || r.0.status == 500 || r.0.status == 201
    ensures r.0.status != 201 ==> r.1 == rooms && r.0.room.None?
    // with a hotel: 500 exactly when an upload fails, the amenities do not parse
    // or a required path of the room is empty; 201 otherwise
    ensures FirstIndex(hotels, HotelOfOwner(owner)).Some? ==>
      (r.0.status == 500 <==>
         uploads.None? || amenities.None? || !Required(roomType)
         || !Required(hotels[FirstIndex(hotels, HotelOfOwner(owner)).value].id))
    ensures r.0.status == 201 ==>
      && r.0.room.Some? && r.1 == rooms + [r.0.room.value]
      && var room := r.0.room.value;
      && (exists i :: 0 <= i < |hotels| && hotels[i].owner == owner && room.hotel == hotels[i].id)
      && room.roomType == roomType && room.pricePerNight == pricePerNight
      && uploads == Some(room.images) && amenities == Some(room.amenities)
      && room.isAvailable && room.createdAt == now
      && forall i :: 0 <= i < |rooms| ==> rooms[i].id != room.id
  {
    match FirstIndex(hotels, HotelOfOwner(owner))
    case None => (RoomReply(404, None), rooms)
    case Some(hi) =>
      if uploads.None? || amenities.None? || !Required(roomType) || !Required(hotels[hi].id) then
        (RoomReply(500, None), rooms)
      else
        var room := NewRoom(FreshId(Ids(rooms, RoomId())), hotels[hi].id, roomType, pricePerNight,
                            uploads.value, amenities.value, now);
        (RoomReply(201, Some(room)), rooms + [room])
  }

  /** `createRoom`: 404 without a hotel, 500 when an upload, the amenities parse
      or validation fails, otherwise the room is stored under the owner's hotel. */
  method CreateRoom(db: Database, owner: string, roomType: string, pricePerNight: int,
                    uploads: Option<seq<string>>, amenities: Option<seq<string>>, now: int)
    returns (reply: RoomReply)
    requires db.Valid()
    modifies db
    ensures db.Valid()
    ensures (reply, db.rooms) == CreateRoomSpec(old(db.rooms), db.hotels, owner, roomType, pricePerNight,
                                                uploads, amenities, now)
    ensures db.bookings == old(db.bookings) && db.hotels == old(db.hotels) && db.users == old(db.users)
  {
    var hotel := FirstIndex(db.hotels, HotelOfOwner(owner));
    if hotel.None? {
      return RoomReply(404, None);
    }
    if uploads.None? || amenities.None? || !Required(roomType) || !Required(db.hotels[hotel.value].id) {
      return RoomReply(500, None);
    }
    var room := NewRoom(FreshId(Ids(db.rooms, RoomId())), db.hotels[hotel.value].id, roomType, pricePerNight,
                        uploads.value, amenities.value, now);
    db.rooms := db.rooms + [room];
    reply := RoomReply(201, Some(room));
  }

  /** `getAllRooms`: exactly the listed rooms, newest first. */
  function AllRooms(rooms: seq<Room>): (r: seq<Room>)
    ensures forall i :: 0 <= i < |r| ==> r[i].isAvailable
    ensures forall i :: 0 <= i < |rooms| && rooms[i].isAvailable ==> rooms[i] in r
    ensures multiset(r) == multiset(Filter(rooms, RoomIsListed()))
    ensures SortedDesc(r, RoomCreatedAt())
  {
    var listed := Filter(rooms, RoomIsListed());
    var r := SortDesc(listed, RoomCreatedAt());
    assert forall i :: 0 <= i < |r| ==> r[i] in listed by {
      forall i | 0 <= i < |r| ensures r[i] in listed { assert r[i] in multiset(listed); }
    }
    assert forall i :: 0 <= i < |listed| ==> listed[i] in r by {
      forall i | 0 <= i < |listed| ensures listed[i] in r { assert listed[i] in multiset(r); }
    }
    r
  }

  /** `getOwnerRooms`: `None` (404) without a hotel, otherwise exactly the rooms of
      the owner's hotel, in collection order. */
  function OwnerRooms(hotels: seq<Hotel>, rooms: seq<Room>, owner: string): (r: Option<seq<Room>>)
    ensures r.None? <==> forall i :: 0 <= i < |hotels| ==> hotels[i].owner != owner
    ensures r.Some? ==>
      var h := hotels[FirstIndex(hotels, HotelOfOwner(owner)).value];
      && h.owner == owner
      && (forall i :: 0 <= i < |r.value| ==> r.value[i].hotel == h.id && r.value[i] in rooms)
      && (forall i :: 0 <= i < |rooms| && rooms[i].hotel == h.id ==> rooms[i] in r.value)
  {
    match FirstIndex(hotels, HotelOfOwner(owner))
    case None => None
    case Some(hi) => Some(Filter(rooms, RoomOfHotel(hotels[hi].id)))
  }

  /** `toggleRoomAvailability` on the room collection. */
  function ToggleSpec(rooms: seq<Room>, roomId: string): (r: (int, seq<Room>))
    ensures r.0 == 404 <==> forall i :: 0 <= i < |rooms| ==> rooms[i].id != roomId
    ensures r.0 == 404 || r.0 == 200
    ensures |r.1| == |rooms|
    ensures r.0 == 200 ==> exists i :: (0 <= i < |rooms| && rooms[i].id == roomId
      && r.1 == rooms[i := rooms[i].(isAvailable := !rooms[i].isAvailable)])
    ensures r.0 == 404 ==> r.1 == rooms
  {
    match FirstIndex(rooms, RoomWithId(roomId))
    case None => (404, rooms)
    case Some(i) => (200, rooms[i := rooms[i].(isAvailable := !rooms[i].isAvailable)])
  }

  /** Toggling twice restores the collection, with the same status both times. */
  lemma ToggleTwice(rooms: seq<Room>, roomId: string)
    ensures ToggleSpec(ToggleSpec(rooms, roomId).1, roomId) == (ToggleSpec(rooms, roomId).0, rooms)
  {
    match FirstIndex(rooms, RoomWithId(roomId))
    case None =>
    case Some(i) =>
      var flipped := rooms[i].(isAvailable := !rooms[i].isAvailable);
      FirstIndexAfterUpdate(rooms, RoomWithId(roomId), i, flipped);
      var once := rooms[i := flipped];
      assert once[i := once[i].(isAvailable := !once[i].isAvailable)] == rooms;
  }

  /** `toggleRoomAvailability`: 404 for an unknown room, otherwise that room's
      `isAvailable` is negated and nothing else changes. */
  method ToggleRoomAvailability(db: Database, roomId: string) returns (status: int)
    requires db.Valid()
    modifies db
    ensures db.Valid()
    ensures (status, db.rooms) == ToggleSpec(old(db.rooms), roomId)
    ensures db.bookings == old(db.bookings) && db.hotels == old(db.hotels) && db.users == old(db.users)
  {
    var found := FirstIndex(db.rooms, RoomWithId(roomId));
    if found.None? {
      return 404;
    }
    var roomData := db.rooms[found.value];
    roomData := roomData.(isAvailable := !roomData.isAvailable);
    db.rooms := db.rooms[found.value := roomData];
    status := 200;
  }
}
