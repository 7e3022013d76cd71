/** stripeWebhooks.js: the payment reconciler. Signature checking is the Stripe
    library's: `constructed` is the event it builds from the raw body, the
    signature and the secret, or `None` when it throws. The checkout sessions
    Stripe holds are a map from payment intent to session metadata; `None`
    when listing them throws. */
module StripeWebhooks {
  import opened Wrappers
  import opened Models
  import opened Listing
  import opened Queries
  import opened Store
  import BookingController

  datatype StripeEvent = StripeEvent(id: string, eventType: string, paymentIntent: string)

  const PaymentSucceeded: string := "payment_intent.succeeded"
  const StripeMethod: string := "stripe"

  /** `{ isPaid: true, paymentMethod: "stripe" }`. */
  function MarkPaid(b: Booking): (b': Booking)
    ensures b'.isPaid && b'.paymentMethod == StripeMethod
    ensures b'.(isPaid := b.isPaid, paymentMethod := b.paymentMethod) == b
  {
    b.(isPaid := true, paymentMethod := StripeMethod)
  }

  /** The three gates before any event is read: a signature, a configured
      secret, and an event the library could build. */
  predicate Verified(signature: string, secret: string, constructed: Option<StripeEvent>)
  {
    signature != "" && secret != "" && constructed.Some?
  }

  /** The booking id in the metadata, when present and non-empty (`!bookingId`
      rejects both a missing and an empty id). */
  function BookingIdOf(metadata: map<string, string>): (r: Option<string>)
    ensures r.Some? <==> "bookingId" in metadata && metadata["bookingId"] != ""
    ensures r.Some? ==> r.value == metadata["bookingId"]
  {
    if "bookingId" in metadata && metadata["bookingId"] != "" then Some(metadata["bookingId"]) else None
  }

  /** `stripeWebhooks` on the booking collection: the HTTP status and the new collection. */
  function WebhookSpec(bookings: seq<Booking>, signature: string, secret: string,
                       constructed: Option<StripeEvent>,
                       sessions: Option<map<string, map<string, string>>>): (r: (int, seq<Booking>))
    // every early return leaves the collection as it was
    ensures r.0 != 200 ==> r.1 == bookings
    ensures signature == "" ==> r.0 == 400
    ensures signature != "" && secret == "" ==> r.0 == 500
    ensures signature != "" && secret != "" && constructed.None? ==> r.0 == 400
    ensures constructed.Some? && constructed.value.eventType != PaymentSucceeded ==> r.1 == bookings
    // past the three gates: the reply for each outcome of a verified event
    ensures Verified(signature, secret, constructed) && constructed.value.eventType != PaymentSucceeded ==>
      r == (200, bookings)
    ensures Verified(signature, secret, constructed) && constructed.value.eventType == PaymentSucceeded ==>
      && (sessions.None? ==> r.0 == 500)
      && (sessions.Some? && constructed.value.paymentIntent !in sessions.value ==> r.0 == 400)
      && ((sessions.Some? && constructed.value.paymentIntent in sessions.value
           && BookingIdOf(sessions.value[constructed.value.paymentIntent]).None?) ==> r.0 == 400)
    ensures (Verified(signature, secret, constructed) && constructed.value.eventType == PaymentSucceeded
             && sessions.Some? && constructed.value.paymentIntent in sessions.value
             && BookingIdOf(sessions.value[constructed.value.paymentIntent]).Some?) ==>
      var bookingId := BookingIdOf(sessions.value[constructed.value.paymentIntent]).value;
      match FirstIndex(bookings, BookingWithId(bookingId))
      case None => r == (404, bookings)
      case Some(i) => r == (200, bookings[i := MarkPaid(bookings[i])])
    // the one change: isPaid and paymentMethod of the bookings with that id
    ensures |r.1| == |bookings|
    ensures forall i :: 0 <= i < |bookings| ==>
      r.1[i] == bookings[i] || (r.1[i] == MarkPaid(bookings[i]) && r.0 == 200)
    ensures r.1 != bookings ==>
      && constructed.Some? && constructed.value.eventType == PaymentSucceeded
      && sessions.Some? && constructed.value.paymentIntent in sessions.value
      && BookingIdOf(sessions.value[constructed.value.paymentIntent]).Some?
      && forall i :: 0 <= i < |bookings| && r.1[i] != bookings[i] ==>
           bookings[i].id == BookingIdOf(sessions.value[constructed.value.paymentIntent]).value
  {
    if signature == "" then (400, bookings)
    else if secret == "" then (500, bookings)
    else match constructed
      case None => (400, bookings)
      case Some(event) =>
        if event.eventType != PaymentSucceeded then (200, bookings)
        else match sessions
          case None => (500, bookings)
          case Some(found) =>
            if event.paymentIntent !in found then (400, bookings)
            else match BookingIdOf(found[event.paymentIntent])
              case None => (400, bookings)
              case Some(bookingId) =>
                match FirstIndex(bookings, BookingWithId(bookingId))
                case None => (404, bookings)
                case Some(i) => (200, bookings[i := MarkPaid(bookings[i])])
  }

  /** Replaying an event after it was applied changes nothing more and gets the same answer. */
  lemma WebhookIsIdempotent(bookings: seq<Booking>, signature: string, secret: string,
                            constructed: Option<StripeEvent>,
                            sessions: Option<map<string, map<string, string>>>)
    ensures var (status, once) := WebhookSpec(bookings, signature, secret, constructed, sessions);
            WebhookSpec(once, signature, secret, constructed, sessions) == (status, once)
  {
    if signature != "" && secret != "" && constructed.Some? && constructed.value.eventType == PaymentSucceeded
       && sessions.Some? && constructed.value.paymentIntent in sessions.value
       && BookingIdOf(sessions.value[constructed.value.paymentIntent]).Some?
    {
      var bookingId := BookingIdOf(sessions.value[constructed.value.paymentIntent]).value;
      var found := FirstIndex(bookings, BookingWithId(bookingId));
      if found.Some? {
        var i := found.value;
        var once := bookings[i := MarkPaid(bookings[i])];
        FirstIndexAfterUpdate(bookings, BookingWithId(bookingId), i, MarkPaid(bookings[i]));
        assert once[i := MarkPaid(once[i])] == once;
      }
    }
  }

  /** Checkout and webhook together: the session `stripePayment` requests for a
      booking, once paid, marks exactly that booking paid by Stripe. */
  lemma CheckoutThenWebhookMarksPaid(bookings: seq<Booking>, rooms: seq<Room>, hotels: seq<Hotel>,
                                     bookingId: string, origin: string, signature: string, secret: string,
                                     event: StripeEvent)
    requires bookingId != "" && signature != "" && secret != "" && event.eventType == PaymentSucceeded
    requires BookingController.StripePayment(bookings, rooms, hotels, bookingId, origin, false).status == 200
    ensures var request := BookingController.StripePayment(bookings, rooms, hotels, bookingId, origin, false).session.value;
            var i := FirstIndex(bookings, BookingWithId(bookingId)).value;
            WebhookSpec(bookings, signature, secret, Some(event),
                        Some(map[event.paymentIntent := request.metadata]))
            == (200, bookings[i := MarkPaid(bookings[i])])
  {
  }

  /** `stripeWebhooks`: the verification gates, then for a succeeded payment the
      booking named in its checkout session's metadata is marked paid by Stripe. */
  method StripeWebhook(db: Database, signature: string, secret: string, constructed: Option<StripeEvent>,
                       sessions: Option<map<string, map<string, string>>>) returns (status: int)
    requires db.Valid()
    modifies db
    ensures db.Valid()
    ensures (status, db.bookings) == WebhookSpec(old(db.bookings), signature, secret, constructed, sessions)
    ensures db.rooms == old(db.rooms) && db.hotels == old(db.hotels) && db.users == old(db.users)
  {
    if signature == "" {
      return 400;  // No Stripe signature found
    }
    if secret == "" {
      return 500;  // Server configuration error
    }
    if constructed.None? {
      return 400;  // Webhook signature verification failed
    }
    var event := constructed.value;
    if event.eventType != PaymentSucceeded {
      return 200;  // unhandled event types are acknowledged
    }
    if sessions.None? {
      return 500;  // Webhook Error
    }
    if event.paymentIntent !in sessions.value {
      return 400;  // No checkout session found
    }
    var bookingId := BookingIdOf(sessions.value[event.paymentIntent]);
    if bookingId.None? {
      return 400;  // No bookingId in session metadata
    }
    var found := FirstIndex(db.bookings, BookingWithId(bookingId.value));
    if found.None? {
      return 404;  // Booking not found
    }
    var i := found.value;
    db.bookings := db.bookings[i := MarkPaid(db.bookings[i])];
    status := 200;
  }
}
