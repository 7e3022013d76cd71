/** processBooking.js: the store update a booking queue message asks for. */
module ProcessBookingData {
  import opened Wrappers
  import opened Json
  import opened Models
  import opened Listing
  import opened Queries
  import opened Store

  /** What `processBooking` resolves to, or the error it rethrows. */
  datatype ProcessResult =
    | Returned(booking: Booking)
    | ReturnedNull
    | ReturnedUndefined
    | Threw(message: string)

  const IdRequired: string := "Booking ID is required for deletion"
  const NotFound: string := "Booking not found"
  const CastError: string := "CastError"
  const ValidationError: string := "ValidationError"
  const NullData: string := "TypeError: Cannot destructure null"

  /** A required String path: a non-empty string, anything else fails validation. */
  function RequiredString(v: Option<Json>): (r: Option<string>)
    ensures r.Some? <==> v.Some? && v.value.JStr? && v.value.s != ""
    ensures r.Some? ==> v == Some(JStr(r.value))
  {
    match v
    case Some(JStr(s)) => if s != "" then Some(s) else None
    case _ => None
  }

  /** A required Number or Date path (dates travel as millisecond numbers). */
  function RequiredNumber(v: Option<Json>): (r: Option<int>)
    ensures r.Some? <==> v.Some? && v.value.JNum?
    ensures r.Some? ==> v == Some(JNum(r.value))
  {
    match v
    case Some(JNum(n)) => Some(n)
    case _ => None
  }

  /** One path of an update document: an undefined value is dropped (the stored
      value stays), a number is set, anything else fails to cast. */
  function PatchNumber(v: Option<Json>, current: int): (r: Option<int>)
    ensures v.None? ==> r == Some(current)
    ensures v.Some? && v.value.JNum? ==> r == Some(v.value.n)
    ensures r.None? <==> v.Some? && !v.value.JNum?
  {
    match v
    case None => Some(current)
    case Some(JNum(n)) => Some(n)
    case _ => None
  }

  /** The update document `{ checkInDate, checkOutDate, guests }` casts: each
      path is undefined or a number. */
  predicate PatchCasts(data: Json)
  {
    PatchNumber(Get(data, "checkInDate"), 0).Some?
    && PatchNumber(Get(data, "checkOutDate"), 0).Some?
    && PatchNumber(Get(data, "guests"), 0).Some?
  }

  /** The update document applied to `b`. */
  function Patched(b: Booking, data: Json): (r: Booking)
    requires PatchCasts(data)
    ensures SameExceptSchedule(b, r)
    ensures Get(data, "checkInDate") == (if Get(data, "checkInDate").None? then None else Some(JNum(r.checkInDate)))
    ensures Get(data, "checkOutDate") == (if Get(data, "checkOutDate").None? then None else Some(JNum(r.checkOutDate)))
    ensures Get(data, "guests") == (if Get(data, "guests").None? then None else Some(JNum(r.guests)))
    ensures Get(data, "checkInDate").None? ==> r.checkInDate == b.checkInDate
    ensures Get(data, "checkOutDate").None? ==> r.checkOutDate == b.checkOutDate
    ensures Get(data, "guests").None? ==> r.guests == b.guests
  {
    b.(checkInDate := PatchNumber(Get(data, "checkInDate"), b.checkInDate).value,
       checkOutDate := PatchNumber(Get(data, "checkOutDate"), b.checkOutDate).value,
       guests := PatchNumber(Get(data, "guests"), b.guests).value)
  }

  /** `b'` differs from `b` at most in `checkInDate`, `checkOutDate` and `guests`. */
  predicate SameExceptSchedule(b: Booking, b': Booking)
  {
    b'.(checkInDate := b.checkInDate, checkOutDate := b.checkOutDate, guests := b.guests) == b
  }

  predicate NonEmptyStringAt(data: Json, key: string)
  {
    Get(data, key).Some? && Get(data, key).value.JStr? && Get(data, key).value.s != ""
  }

  predicate NumberAt(data: Json, key: string)
  {
    Get(data, key).Some? && Get(data, key).value.JNum?
  }

  /** The message passes the booking schema's `required` checks. */
  predicate CreateValidates(data: Json)
  {
    NonEmptyStringAt(data, "user") && NonEmptyStringAt(data, "room") && NonEmptyStringAt(data, "hotel")
    && NumberAt(data, "checkInDate") && NumberAt(data, "checkOutDate")
    && NumberAt(data, "totalPrice") && NumberAt(data, "guests")
  }

  /** `b` carries the message's user, room, hotel, dates, guests and price. */
  predicate CarriesMessage(b: Booking, data: Json)
  {
    Get(data, "user") == Some(JStr(b.user)) && Get(data, "room") == Some(JStr(b.room))
    && Get(data, "hotel") == Some(JStr(b.hotel))
    && Get(data, "checkInDate") == Some(JNum(b.checkInDate))
    && Get(data, "checkOutDate") == Some(JNum(b.checkOutDate))
    && Get(data, "guests") == Some(JNum(b.guests))
    && Get(data, "totalPrice") == Some(JNum(b.totalPrice))
  }

  /** The record `Booking.create` makes from the message, `None` when validation fails. */
  function Created(data: Json, id: string, now: int): (r: Option<Booking>)
    ensures r.Some? <==> CreateValidates(data)
    ensures r.Some? ==> CarriesMessage(r.value, data)
    ensures r.Some? ==> BookingValidates(r.value) && r.value.id == id && r.value.createdAt == now
    ensures r.Some? ==> r.value.status == Pending && !r.value.isPaid
  {
    var user := RequiredString(Get(data, "user"));
    var room := RequiredString(Get(data, "room"));
    var hotel := RequiredString(Get(data, "hotel"));
    var checkIn := RequiredNumber(Get(data, "checkInDate"));
    var checkOut := RequiredNumber(Get(data, "checkOutDate"));
    var totalPrice := RequiredNumber(Get(data, "totalPrice"));
    var guests := RequiredNumber(Get(data, "guests"));
    if user.None? || room.None? || hotel.None? || checkIn.None? || checkOut.None?
       || totalPrice.None? || guests.None? then None
    else
      Some(NewBooking(id, user.value, room.value, hotel.value, checkIn.value, checkOut.value,
                      guests.value, totalPrice.value, now))
  }

  function IsAction(data: Json, action: string): bool
  {
    IsString(Get(data, "action"), action)
  }

  /** `processBooking(data)` on the booking collection. */
  function ProcessBookingSpec(bookings: seq<Booking>, data: Json, now: int): (r: (ProcessResult, seq<Booking>))
    // errors are rethrown and leave the collection as it was
    ensures r.0.Threw? ==> r.1 == bookings
    ensures data.JNull? ==> r.0 == Threw(NullData)
    // delete
    ensures !data.JNull? && IsAction(data, "delete") && !Truthy(Get(data, "_id")) ==> r.0 == Threw(IdRequired)
    ensures !data.JNull? && IsAction(data, "delete") && r.0.Returned? ==>
      exists i :: 0 <= i < |bookings| && bookings[i] == r.0.booking && Get(data, "_id") == Some(JStr(bookings[i].id))
                  && r.1 == RemoveAt(bookings, i)
    ensures !data.JNull? && IsAction(data, "delete") && Truthy(Get(data, "_id")) && !Get(data, "_id").value.JStr? ==>
      r == (Threw(CastError), bookings)
    ensures !data.JNull? && IsAction(data, "delete") && Truthy(Get(data, "_id")) && Get(data, "_id").value.JStr? ==>
      (r.0 == Threw(NotFound) <==> forall i :: 0 <= i < |bookings| ==> bookings[i].id != Get(data, "_id").value.s)
    // a delete of a stored id removes that record outright and returns it
    ensures (!data.JNull? && IsAction(data, "delete") && Truthy(Get(data, "_id")) && Get(data, "_id").value.JStr?
             && FirstIndex(bookings, BookingWithId(Get(data, "_id").value.s)).Some?) ==>
      var i := FirstIndex(bookings, BookingWithId(Get(data, "_id").value.s)).value;
      r == (Returned(bookings[i]), RemoveAt(bookings, i))
    // update
    ensures !data.JNull? && IsAction(data, "update") ==>
      |r.1| == |bookings| && forall i :: 0 <= i < |bookings| ==>
        r.1[i] == bookings[i] || (SameExceptSchedule(bookings[i], r.1[i]) && Get(data, "_id") == Some(JStr(bookings[i].id)))
    ensures !data.JNull? && IsAction(data, "update") && Truthy(Get(data, "_id")) && Get(data, "_id").value.JStr?
      && (forall i :: 0 <= i < |bookings| ==> bookings[i].id != Get(data, "_id").value.s)
      ==> r.0 == (if PatchCasts(data) then ReturnedNull else Threw(CastError))
    ensures (!data.JNull? && IsAction(data, "update") && Truthy(Get(data, "_id"))
             && (!Get(data, "_id").value.JStr? || !PatchCasts(data))) ==> r == (Threw(CastError), bookings)
    // an update of a stored id patches that record and returns the new version
    ensures (!data.JNull? && IsAction(data, "update") && Truthy(Get(data, "_id")) && Get(data, "_id").value.JStr?
             && PatchCasts(data) && FirstIndex(bookings, BookingWithId(Get(data, "_id").value.s)).Some?) ==>
      var i := FirstIndex(bookings, BookingWithId(Get(data, "_id").value.s)).value;
      r.1 == bookings[i := Patched(bookings[i], data)] && r.0 == Returned(r.1[i])
    ensures !data.JNull? && IsAction(data, "update") && !Truthy(Get(data, "_id")) ==> r == (ReturnedUndefined, bookings)
    // create: one appended record, no availability check
    ensures !data.JNull? && IsAction(data, "create") ==>
      && (r.0 == Threw(ValidationError) <==> !CreateValidates(data))
      && (r.0 == Threw(ValidationError) || (r.0.Returned? && r.1 == bookings + [r.0.booking]))
      && (r.0.Returned? ==> CarriesMessage(r.0.booking, data)
                            && r.0.booking.status == Pending && !r.0.booking.isPaid && r.0.booking.createdAt == now
                            && forall i :: 0 <= i < |bookings| ==> bookings[i].id != r.0.booking.id)
    // any other action
    ensures !data.JNull? && !IsAction(data, "delete") && !IsAction(data, "update") && !IsAction(data, "create") ==>
      r == (ReturnedUndefined, bookings)
  {
    if data.JNull? then (Threw(NullData), bookings)
    else
      var id := Get(data, "_id");
      if IsAction(data, "delete") then
        if !Truthy(id) then (Threw(IdRequired), bookings)
        else if !id.value.JStr? then (Threw(CastError), bookings)
        else
          match FirstIndex(bookings, BookingWithId(id.value.s))
          case None => (Threw(NotFound), bookings)
          case Some(i) => (Returned(bookings[i]), RemoveAt(bookings, i))
      else if Truthy(id) && IsAction(data, "update") then
        if !id.value.JStr? || !PatchCasts(data) then (Threw(CastError), bookings)
        else
          match FirstIndex(bookings, BookingWithId(id.value.s))
          case None => (ReturnedNull, bookings)
          case Some(i) =>
            var b := Patched(bookings[i], data);
            (Returned(b), bookings[i := b])
      else if IsAction(data, "create") then
        match Created(data, FreshId(Ids(bookings, BookingId())), now)
        case None => (Threw(ValidationError), bookings)
        case Some(b) => (Returned(b), bookings + [b])
      else (ReturnedUndefined, bookings)
  }

  /** Removing one record keeps the other ids and loses that record's id. */
  lemma {:induction false} RemoveAtDropsId(bookings: seq<Booking>, i: nat)
    requires UniqueBookingIds(bookings) && i < |bookings|
    ensures UniqueBookingIds(RemoveAt(bookings, i))
    ensures forall j :: 0 <= j < |bookings| - 1 ==> RemoveAt(bookings, i)[j].id != bookings[i].id
  {
  }

  /** Every update keeps `_id`s unique: deletion removes one, an update keeps them,
      creation adds a fresh one. */
  lemma ProcessKeepsUniqueIds(bookings: seq<Booking>, data: Json, now: int)
    requires UniqueBookingIds(bookings)
    ensures UniqueBookingIds(ProcessBookingSpec(bookings, data, now).1)
  {
    var r := ProcessBookingSpec(bookings, data, now);
    if !data.JNull? && IsAction(data, "delete") && r.0.Returned? {
      var i := FirstIndex(bookings, BookingWithId(Get(data, "_id").value.s)).value;
      RemoveAtDropsId(bookings, i);
    }
  }

  /** Deletion is a hard delete: replaying a delete that succeeded fails with
      "Booking not found" and changes nothing. */
  lemma DeleteTwiceFails(bookings: seq<Booking>, data: Json, now: int)
    requires UniqueBookingIds(bookings)
    requires IsAction(data, "delete") && !data.JNull?
    requires ProcessBookingSpec(bookings, data, now).0.Returned?
    ensures var after := ProcessBookingSpec(bookings, data, now).1;
            ProcessBookingSpec(after, data, now) == (Threw(NotFound), after)
  {
    var id := Get(data, "_id").value.s;
    var i := FirstIndex(bookings, BookingWithId(id)).value;
    RemoveAtDropsId(bookings, i);
  }

  /** Creation does not look at the stored bookings: the same create message
      delivered twice stores two bookings that differ only in `_id`. */
  lemma DuplicateCreates(bookings: seq<Booking>, data: Json, now: int)
    requires IsAction(data, "create") && !data.JNull?
    requires ProcessBookingSpec(bookings, data, now).0.Returned?
    ensures var (first, once) := ProcessBookingSpec(bookings, data, now);
            var (second, twice) := ProcessBookingSpec(once, data, now);
            && second.Returned?
            && twice == bookings + [first.booking, second.booking]
            && first.booking.id != second.booking.id
            && second.booking == first.booking.(id := second.booking.id)
  {
    var once := ProcessBookingSpec(bookings, data, now).1;
    var b := ProcessBookingSpec(bookings, data, now).0.booking;
    assert once[|bookings|] == b;
  }

  /** `processBooking`: deletes, patches or inserts one booking as the message's
      `action` asks, and rethrows every error with the collection untouched. */
  method ProcessBooking(db: Database, data: Json, now: int) returns (result: ProcessResult)
    requires db.Valid()
    modifies db
    ensures db.Valid()
    ensures (result, db.bookings) == ProcessBookingSpec(old(db.bookings), data, now)
    ensures db.rooms == old(db.rooms) && db.hotels == old(db.hotels) && db.users == old(db.users)
  {
    ProcessKeepsUniqueIds(db.bookings, data, now);
    if data.JNull? {
      return Threw(NullData);
    }
    var id := Get(data, "_id");
    if IsAction(data, "delete") {
      if !Truthy(id) {
        return Threw(IdRequired);
      }
      if !id.value.JStr? {
        return Threw(CastError);
      }
      var found := FirstIndex(db.bookings, BookingWithId(id.value.s));
      if found.None? {
        return Threw(NotFound);
      }
      var i := found.value;
      result := Returned(db.bookings[i]);
      db.bookings := RemoveAt(db.bookings, i);
      return;
    }
    if Truthy(id) && IsAction(data, "update") {
      if !id.value.JStr? || !PatchCasts(data) {
        return Threw(CastError);
      }
      var found := FirstIndex(db.bookings, BookingWithId(id.value.s));
      if found.None? {
        return ReturnedNull;
      }
      var booking := Patched(db.bookings[found.value], data);
      db.bookings := db.bookings[found.value := booking];
      return Returned(booking);
    } else if IsAction(data, "create") {
      var created := Created(data, FreshId(Ids(db.bookings, BookingId())), now);
      if created.None? {
        return Threw(ValidationError);
      }
      db.bookings := db.bookings + [created.value];
      return Returned(created.value);
    }
    return ReturnedUndefined;
  }
}
