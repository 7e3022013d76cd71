/** hotelController.js: `registerHotel`, which gives an owner their single hotel
    and promotes them to the "owner" role. */
module HotelController {
  import opened Wrappers
  import opened Models
  import opened Listing
  import opened Queries
  import opened Store

  /** The request body of `registerHotel`, with the caller's id as `owner`. */
  datatype Registration = Registration(owner: string, name: string, address: string,
                                       contact: string, city: string)

  datatype HotelReply = HotelReply(status: int, hotel: Option<Hotel>)

  /** `registerHotel` on the hotel and user collections. */
  function RegisterSpec(hotels: seq<Hotel>, users: map<string, User>, reg: Registration)
    : (r: (HotelReply, seq<Hotel>, map<string, User>))
    ensures r.0.status == 404 <==> exists i :: 0 <= i < |hotels| && hotels[i].owner == reg.owner
    ensures r.0.status == 404 ==> r.0.hotel.None? && r.1 == hotels && r.2 == users
    ensures r.0.status != 404 ==>
      && r.0.status == 201 && r.0.hotel.Some?
      && var h := r.0.hotel.value;
      && r.1 == hotels + [h]
      && h.owner == reg.owner && h.name == reg.name && h.address == reg.address
      && h.contact == reg.contact && h.city == reg.city
      && (forall i :: 0 <= i < |hotels| ==> hotels[i].id != h.id)
      && r.2.Keys == users.Keys
      && (forall u :: u in users && u != reg.owner ==> r.2[u] == users[u])
      && (reg.owner in users ==> r.2[reg.owner] == users[reg.owner].(role := OwnerRole))
    ensures AtMostOneHotelPerOwner(hotels) ==> AtMostOneHotelPerOwner(r.1)
    ensures UniqueHotelIds(hotels) ==> UniqueHotelIds(r.1)
  {
    if FirstIndex(hotels, HotelOfOwner(reg.owner)).Some? then
      (HotelReply(404, None), hotels, users)
    else
      var hotel := Hotel(FreshId(Ids(hotels, HotelId())), reg.name, reg.address, reg.contact,
                         reg.city, reg.owner);
      var promoted := if reg.owner in users then users[reg.owner := users[reg.owner].(role := OwnerRole)]
                      else users;
      (HotelReply(201, Some(hotel)), hotels + [hotel], promoted)
  }

  /** Once an owner has registered, a second registration is refused. */
  lemma SecondRegistrationRefused(hotels: seq<Hotel>, users: map<string, User>,
                                  first: Registration, second: Registration)
    requires RegisterSpec(hotels, users, first).0.status == 201
    requires second.owner == first.owner
    ensures var (_, hs, us) := RegisterSpec(hotels, users, first);
            RegisterSpec(hs, us, second) == (HotelReply(404, None), hs, us)
  {
    var hs := RegisterSpec(hotels, users, first).1;
    assert hs[|hotels|].owner == second.owner;
  }

  predicate HasHotel(hs: seq<Hotel>, owner: string)
  {
    exists i :: 0 <= i < |hs| && hs[i].owner == owner
  }

  /** A run of registrations, applied one after another. */
  function RegisterAll(hotels: seq<Hotel>, users: map<string, User>, regs: seq<Registration>)
    : (r: (seq<Hotel>, map<string, User>))
    decreases |regs|
  {
    if regs == [] then (hotels, users)
    else
      var (_, hs, us) := RegisterSpec(hotels, users, regs[0]);
      RegisterAll(hs, us, regs[1..])
  }

  /** Whatever registrations arrive, no owner ends up with two hotels and hotel
      ids stay unique; every registering owner ends up with a hotel. */
  lemma {:induction false} RegistrationsKeepOneHotelPerOwner(hotels: seq<Hotel>, users: map<string, User>,
                                                           regs: seq<Registration>)
    requires AtMostOneHotelPerOwner(hotels) && UniqueHotelIds(hotels)
    ensures AtMostOneHotelPerOwner(RegisterAll(hotels, users, regs).0)
    ensures UniqueHotelIds(RegisterAll(hotels, users, regs).0)
    ensures forall k :: 0 <= k < |regs| ==> HasHotel(RegisterAll(hotels, users, regs).0, regs[k].owner)
    decreases |regs|
  {
    if regs != [] {
      var (_, hs, us) := RegisterSpec(hotels, users, regs[0]);
      RegistrationsKeepOneHotelPerOwner(hs, us, regs[1..]);
      RegisterAllKeepsHotels(hs, us, regs[1..]);
      var all := RegisterAll(hotels, users, regs).0;
      assert all == RegisterAll(hs, us, regs[1..]).0;
      forall k | 0 <= k < |regs|
        ensures HasHotel(all, regs[k].owner)
      {
        if k == 0 {
          var j :| 0 <= j < |hs| && hs[j].owner == regs[0].owner;
          assert all[j] == hs[j];
        } else {
          assert regs[k] == regs[1..][k - 1];
        }
      }
    }
  }

  /** Registrations only ever append hotels. */
  lemma {:induction false} RegisterAllKeepsHotels(hotels: seq<Hotel>, users: map<string, User>,
                                                  regs: seq<Registration>)
    ensures hotels <= RegisterAll(hotels, users, regs).0
    decreases |regs|
  {
    if regs != [] {
      var (_, hs, us) := RegisterSpec(hotels, users, regs[0]);
      RegisterAllKeepsHotels(hs, us, regs[1..]);
    }
  }

  /** `registerHotel`: 404 when the owner already has a hotel, otherwise the
      hotel is stored and its owner is promoted. */
  method RegisterHotel(db: Database, reg: Registration) returns (reply: HotelReply)
    requires db.Valid()
    modifies db
    ensures db.Valid()
    ensures (reply, db.hotels, db.users) == RegisterSpec(old(db.hotels), old(db.users), reg)
    ensures db.bookings == old(db.bookings) && db.rooms == old(db.rooms)
  {
    var existing := FirstIndex(db.hotels, HotelOfOwner(reg.owner));
    if existing.Some? {
      return HotelReply(404, None);
    }
    var hotel := Hotel(FreshId(Ids(db.hotels, HotelId())), reg.name, reg.address, reg.contact,
                       reg.city, reg.owner);
    db.hotels := db.hotels + [hotel];
    if reg.owner in db.users {
      db.users := db.users[reg.owner := db.users[reg.owner].(role := OwnerRole)];
    }
    reply := HotelReply(201, Some(hotel));
  }
}
