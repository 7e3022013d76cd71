/** bookingController.js: availability, price, booking creation, the user and
    owner listings and the Stripe checkout request. */
module BookingController {
  import opened Wrappers
  import opened Models
  import opened Listing
  import opened Queries
  import opened Store

  const MsPerDay: int := 1000 * 60 * 60 * 24

  // ---------------------------------------------------------------- availability

  /** The `Booking.find` filter of `checkAvailability`: same room, stored check-in
      on or before the requested check-out and stored check-out on or after the
      requested check-in. Both bounds are inclusive. */
  predicate Conflicts(b: Booking, room: string, checkIn: int, checkOut: int): (c: bool)
    ensures b.checkInDate <= b.checkOutDate && checkIn <= checkOut ==>
      (c <==> b.room == room && Max(b.checkInDate, checkIn) <= Min(b.checkOutDate, checkOut))
  {
    b.room == room && b.checkInDate <= checkOut && b.checkOutDate >= checkIn
  }

  function Max(a: int, b: int): int { if a < b then b else a }
  function Min(a: int, b: int): int { if a < b then a else b }

  function ConflictsWith(room: string, checkIn: int, checkOut: int): Booking -> bool
  {
    (b: Booking) => Conflicts(b, room, checkIn, checkOut)
  }

  /** `checkAvailability`: available when the query finds no conflicting booking;
      a failing lookup (`lookupFailed`) is caught and reads as unavailable. */
  function CheckAvailability(bookings: seq<Booking>, room: string, checkIn: int, checkOut: int,
                             lookupFailed: bool): (available: bool)
    ensures available <==>
      !lookupFailed && forall i :: 0 <= i < |bookings| ==> !Conflicts(bookings[i], room, checkIn, checkOut)
  {
    if lookupFailed then false
    else
      var found := Filter(bookings, ConflictsWith(room, checkIn, checkOut));
      assert |found| > 0 ==> exists i :: 0 <= i < |bookings| && bookings[i] == found[0];
      |found| == 0
  }

  /** Back-to-back stays conflict: a booking that checks out on the requested
      check-in instant makes the room unavailable. */
  lemma BackToBackIsUnavailable(bookings: seq<Booking>, i: nat, checkOut: int)
    requires i < |bookings| && bookings[i].checkInDate <= bookings[i].checkOutDate <= checkOut
    ensures !CheckAvailability(bookings, bookings[i].room, bookings[i].checkOutDate, checkOut, false)
  {
    assert Conflicts(bookings[i], bookings[i].room, bookings[i].checkOutDate, checkOut);
  }

  // ---------------------------------------------------------------- price

  /** `Math.ceil(a / d)` on integers. */
  function CeilDiv(a: int, d: int): (q: int)
    requires d > 0
    ensures d * (q - 1) < a <= d * q
  {
    var m := (-a) / d;
    assert -a == d * m + (-a) % d;
    -m
  }

  /** The ceiling is the only integer with that property. */
  lemma CeilDivUnique(a: int, d: int, q: int)
    requires d > 0 && d * (q - 1) < a <= d * q
    ensures CeilDiv(a, d) == q
  {
    var c := CeilDiv(a, d);
    if c < q {
      assert d * c <= d * (q - 1) by { MulMonotone(d, c, q - 1); }
      assert false;
    } else if c > q {
      assert d * q <= d * (c - 1) by { MulMonotone(d, q, c - 1); }
      assert false;
    }
  }

  lemma MulMonotone(d: int, x: int, y: int)
    requires d > 0 && x <= y
    ensures d * x <= d * y
  {
    assert d * y - d * x == d * (y - x);
  }

  /** `diffDays`: the stay length in days, any started day counting as a whole one. */
  function Nights(checkIn: int, checkOut: int): (n: int)
    ensures MsPerDay * (n - 1) < checkOut - checkIn <= MsPerDay * n
    ensures checkIn < checkOut ==> n >= 1
    ensures checkOut <= checkIn ==> n <= 0
  {
    CeilDiv(checkOut - checkIn, MsPerDay)
  }

  /** `totalPrice = pricePerNight * diffDays`. */
  function TotalPrice(pricePerNight: int, checkIn: int, checkOut: int): (p: int)
    ensures pricePerNight >= 0 && checkIn < checkOut ==> p >= pricePerNight
  {
    var n := Nights(checkIn, checkOut);
    if pricePerNight > 0 && checkIn < checkOut then
      MulMonotone(pricePerNight, 1, n);
      pricePerNight * n
    else
      pricePerNight * n
  }

  /** A stay of exactly `k` days is billed `k` nights. */
  lemma WholeDays(checkIn: int, k: int)
    ensures Nights(checkIn, checkIn + k * MsPerDay) == k
  {
    CeilDivUnique(k * MsPerDay, MsPerDay, k);
  }

  /** A started day is billed as a whole night. */
  lemma PartialDayRoundsUp(checkIn: int, k: int, rest: int)
    requires 0 < rest < MsPerDay
    ensures Nights(checkIn, checkIn + k * MsPerDay + rest) == k + 1
  {
    CeilDivUnique(k * MsPerDay + rest, MsPerDay, k + 1);
  }

  /** There is no guard on the dates: a check-out on or before the check-in gives
      zero or fewer nights, so a non-negative rate gives a price of at most 0. */
  lemma NoDateGuard(pricePerNight: int, checkIn: int, checkOut: int)
    requires checkOut <= checkIn && pricePerNight >= 0
    ensures Nights(checkIn, checkOut) <= 0
    ensures TotalPrice(pricePerNight, checkIn, checkOut) <= 0
  {
    var n := Nights(checkIn, checkOut);
    if n > 0 {
      MulMonotone(MsPerDay, 0, n - 1);
      assert false;
    }
    assert pricePerNight * n == -(pricePerNight * (-n));
  }

  // ---------------------------------------------------------------- createBooking

  datatype BookingReply = BookingReply(status: int, booking: Option<Booking>)

  /** `createBooking` on the collections: the reply and the new booking collection. */
  function CreateBookingSpec(bookings: seq<Booking>, rooms: seq<Room>, hotels: seq<Hotel>,
                             user: string, room: string, checkIn: int, checkOut: int,
                             guests: int, now: int, lookupFailed: bool): (r: (BookingReply, seq<Booking>))
    ensures r.0.status == 404 || r.0.status == 500 || r.0.status == 201
    ensures r.0.status == 404 <==> !CheckAvailability(bookings, room, checkIn, checkOut, lookupFailed)
    ensures r.0.status != 201 ==> r.1 == bookings && r.0.booking == None
    // an available room is booked exactly when the room and its hotel are found
    // and the booking passes the schema's required checks; otherwise 500
    ensures CheckAvailability(bookings, room, checkIn, checkOut, lookupFailed) ==>
      (r.0.status == 201 <==>
         && FirstIndex(rooms, RoomWithId(room)).Some?
         && var ri := FirstIndex(rooms, RoomWithId(room)).value;
         && FirstIndex(hotels, HotelWithId(rooms[ri].hotel)).Some?
         && Required(user) && Required(room) && Required(rooms[ri].hotel))
    ensures r.0.status == 201 ==>
      && r.0.booking.Some?
      && r.1 == bookings + [r.0.booking.value]
      && var b := r.0.booking.value;
      && b.user == user && b.room == room && b.guests == guests
      && b.checkInDate == checkIn && b.checkOutDate == checkOut
      && b.status == Pending && !b.isPaid && b.createdAt == now
      && (forall i :: 0 <= i < |bookings| ==> bookings[i].id != b.id)
      && exists i :: 0 <= i < |rooms| && rooms[i].id == room && b.hotel == rooms[i].hotel
                     && b.totalPrice == TotalPrice(rooms[i].pricePerNight, checkIn, checkOut)
  {
    if !CheckAvailability(bookings, room, checkIn, checkOut, lookupFailed) then
      (BookingReply(404, None), bookings)
    else
      match FirstIndex(rooms, RoomWithId(room))
      case None => (BookingReply(500, None), bookings)
      case Some(ri) =>
        match FirstIndex(hotels, HotelWithId(rooms[ri].hotel))
        case None => (BookingReply(500, None), bookings)
        case Some(hi) =>
          var b := NewBooking(FreshId(Ids(bookings, BookingId())), user, room, hotels[hi].id,
                              checkIn, checkOut, guests,
                              TotalPrice(rooms[ri].pricePerNight, checkIn, checkOut), now);
          if !BookingValidates(b) then (BookingReply(500, None), bookings)
          else (BookingReply(201, Some(b)), bookings + [b])
  }

  /** An id no stored booking holds keeps the collection's ids unique. */
  lemma AppendFreshKeepsUnique(bookings: seq<Booking>, b: Booking)
    requires UniqueBookingIds(bookings)
    requires forall i :: 0 <= i < |bookings| ==> bookings[i].id != b.id
    ensures UniqueBookingIds(bookings + [b])
  {
  }

  /** `createBooking`: 404 when the room is unavailable, 500 when the room or its
      hotel is missing, otherwise the priced booking is inserted and returned. The
      confirmation mail is fire-and-forget and changes neither. */
  method CreateBooking(db: Database, user: string, room: string, checkIn: int, checkOut: int,
                       guests: int, now: int, lookupFailed: bool) returns (reply: BookingReply)
    requires db.Valid()
    modifies db
    ensures db.Valid()
    ensures (reply, db.bookings) == CreateBookingSpec(old(db.bookings), db.rooms, db.hotels, user, room,
                                                      checkIn, checkOut, guests, now, lookupFailed)
    ensures db.rooms == old(db.rooms) && db.hotels == old(db.hotels) && db.users == old(db.users)
  {
    var isAvailable := CheckAvailability(db.bookings, room, checkIn, checkOut, lookupFailed);
    if !isAvailable {
      return BookingReply(404, None);
    }
    var roomIndex := FirstIndex(db.rooms, RoomWithId(room));
    if roomIndex.None? {
      return BookingReply(500, None);  // roomData is null
    }
    var roomData := db.rooms[roomIndex.value];
    var hotelIndex := FirstIndex(db.hotels, HotelWithId(roomData.hotel));
    if hotelIndex.None? {
      return BookingReply(500, None);  // the populated hotel is null
    }
    var totalPrice := roomData.pricePerNight;
    var diffDays := CeilDiv(checkOut - checkIn, MsPerDay);
    totalPrice := totalPrice * diffDays;
    var booking := NewBooking(FreshId(Ids(db.bookings, BookingId())), user, room, db.hotels[hotelIndex.value].id,
                              checkIn, checkOut, guests, totalPrice, now);
    if !BookingValidates(booking) {
      return BookingReply(500, None);
    }
    AppendFreshKeepsUnique(db.bookings, booking);
    db.bookings := db.bookings + [booking];
    reply := BookingReply(201, Some(booking));
  }

  // ---------------------------------------------------------------- listings

  /** `getUserBookings`: the user's bookings, newest first. */
  function UserBookings(bookings: seq<Booking>, user: string): (r: seq<Booking>)
    ensures forall i :: 0 <= i < |r| ==> r[i].user == user
    ensures forall i :: 0 <= i < |bookings| && bookings[i].user == user ==> bookings[i] in r
    ensures multiset(r) == multiset(Filter(bookings, BookingOfUser(user)))
    ensures SortedDesc(r, BookingCreatedAt())
  {
    var mine := Filter(bookings, BookingOfUser(user));
    var r := SortDesc(mine, BookingCreatedAt());
    assert forall i :: 0 <= i < |r| ==> r[i] in mine by {
      forall i | 0 <= i < |r| ensures r[i] in mine { assert r[i] in multiset(mine); }
    }
    assert forall i :: 0 <= i < |mine| ==> mine[i] in r by {
      forall i | 0 <= i < |mine| ensures mine[i] in r { assert mine[i] in multiset(r); }
    }
    r
  }

  /** The `reduce` of `getHotelBookings`: the sum of the `totalPrice`s. */
  function Revenue(bs: seq<Booking>): (r: int)
    ensures (forall i :: 0 <= i < |bs| ==> bs[i].totalPrice >= 0) ==> r >= 0
    ensures (forall i :: 0 <= i < |bs| ==> bs[i].totalPrice >= 0) ==>
      forall i :: 0 <= i < |bs| ==> r >= bs[i].totalPrice
  {
    if bs == [] then 0 else bs[0].totalPrice + Revenue(bs[1..])
  }

  lemma {:induction false} RevenueInsert(x: Booking, s: seq<Booking>)
    requires SortedDesc(s, BookingCreatedAt())
    ensures Revenue(Insert(x, s, BookingCreatedAt())) == x.totalPrice + Revenue(s)
  {
    var key := BookingCreatedAt();
    if s == [] || key(x) >= key(s[0]) {
      var r := Insert(x, s, key);
      assert r == [x] + s;
      assert r[1..] == s;
    } else {
      var r := Insert(x, s, key);
      var rest := Insert(x, s[1..], key);
      assert r == [s[0]] + rest;
      assert r[1..] == rest;
      RevenueInsert(x, s[1..]);
    }
  }

  /** Sorting does not change the revenue. */
  lemma {:induction false} RevenueSort(s: seq<Booking>)
    ensures Revenue(SortDesc(s, BookingCreatedAt())) == Revenue(s)
  {
    if s != [] {
      RevenueSort(s[1..]);
      RevenueInsert(s[0], SortDesc(s[1..], BookingCreatedAt()));
    }
  }

  datatype Dashboard = Dashboard(bookings: seq<Booking>, totalBookings: int, totalRevenue: int)

  /** `getHotelBookings`: `None` (404) when the owner has no hotel; otherwise the
      hotel's bookings newest first, their number and their total price. */
  function HotelDashboard(hotels: seq<Hotel>, bookings: seq<Booking>, owner: string): (r: Option<Dashboard>)
    ensures r.None? <==> forall i :: 0 <= i < |hotels| ==> hotels[i].owner != owner
    ensures r.Some? ==>
      var h := hotels[FirstIndex(hotels, HotelOfOwner(owner)).value];
      var theirs := Filter(bookings, BookingOfHotel(h.id));
      && h.owner == owner
      && r.value.totalBookings == |theirs|
      && r.value.totalRevenue == Revenue(theirs)
      && multiset(r.value.bookings) == multiset(theirs)
      && SortedDesc(r.value.bookings, BookingCreatedAt())
  {
    match FirstIndex(hotels, HotelOfOwner(owner))
    case None => None
    case Some(hi) =>
      var theirs := Filter(bookings, BookingOfHotel(hotels[hi].id));
      var listed := SortDesc(theirs, BookingCreatedAt());
      RevenueSort(theirs);
      Some(Dashboard(listed, |listed|, Revenue(listed)))
  }

  // ---------------------------------------------------------------- stripePayment

  datatype LineItem = LineItem(currency: string, productName: string, unitAmount: int, quantity: int)

  /** The `checkout.sessions.create` request. */
  datatype CheckoutRequest = CheckoutRequest(lineItems: seq<LineItem>, mode: string,
                                             successUrl: string, cancelUrl: string,
                                             metadata: map<string, string>)

  datatype PaymentReply = PaymentReply(status: int, session: Option<CheckoutRequest>)

  /** `stripePayment`: a one-item checkout for the booking's total in cents, tagged
      with the booking id. A missing booking, room or hotel dereferences null and
      a failing Stripe call (`stripeFailed`) throws: both give 500. */
  function StripePayment(bookings: seq<Booking>, rooms: seq<Room>, hotels: seq<Hotel>,
                         bookingId: string, origin: string, stripeFailed: bool): (r: PaymentReply)
    ensures r.status == 200 || r.status == 500
    ensures r.status == 200 <==> r.session.Some?
    ensures r.status == 200 <==>
      && !stripeFailed
      && FirstIndex(bookings, BookingWithId(bookingId)).Some?
      && var b := bookings[FirstIndex(bookings, BookingWithId(bookingId)).value];
      && FirstIndex(rooms, RoomWithId(b.room)).Some?
      && FirstIndex(hotels, HotelWithId(rooms[FirstIndex(rooms, RoomWithId(b.room)).value].hotel)).Some?
    ensures r.status == 200 ==>
      && FirstIndex(bookings, BookingWithId(bookingId)).Some?
      && var b := bookings[FirstIndex(bookings, BookingWithId(bookingId)).value];
      && |r.session.value.lineItems| == 1
      && r.session.value.lineItems[0].unitAmount == 100 * b.totalPrice
      && r.session.value.lineItems[0].quantity == 1
      && r.session.value.metadata == map["bookingId" := bookingId]
    ensures stripeFailed ==> r.status == 500
  {
    match FirstIndex(bookings, BookingWithId(bookingId))
    case None => PaymentReply(500, None)
    case Some(bi) =>
      match FirstIndex(rooms, RoomWithId(bookings[bi].room))
      case None => PaymentReply(500, None)
      case Some(ri) =>
        match FirstIndex(hotels, HotelWithId(rooms[ri].hotel))
        case None => PaymentReply(500, None)
        case Some(hi) =>
          if stripeFailed then PaymentReply(500, None)
          else
            var item := LineItem("usd", hotels[hi].name, bookings[bi].totalPrice * 100, 1);
            PaymentReply(200, Some(CheckoutRequest([item], "payment",
                                                   origin + "/loader/my-bookings",
                                                   origin + "/my-bookings",
                                                   map["bookingId" := bookingId])))
  }
}
