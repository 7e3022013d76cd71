# Hotel booking server core, in Dafny

A model of the server side of a hotel booking application (Express and
MongoDB in the original):

- **availability and pricing** (`checkAvailability` and the price computed in
  `createBooking`);
- **the booking store**: creation, the guest's and the owner's listings, and the
  owner's revenue dashboard;
- **payments**: the Stripe checkout request, and the webhook that marks a
  booking paid;
- **the booking queue**: `sendSQSMessage`, `receiveSQSMessage`,
  `deleteSQSMessage`, and `processBooking`, which applies a queued
  create, update or delete to the booking collection;
- **rooms and hotels**: room creation, the two room listings, the listing
  toggle, and hotel registration;
- **users**: the caller's profile data, the recent-searches list, and the
  Clerk webhook that keeps the user collection in step with Clerk.

Each MongoDB collection is a field of a `Store.Database` object. Bookings,
rooms and hotels are sequences of records, each carrying its own `_id`. Users
are a map keyed by their Clerk id. The SQS queue is a `SqsQueue.BookingQueue`
object holding its in-flight messages and the next receipt handle.

Each controller comes in two parts:
- a **specification function** that computes the reply and the new collection
  from the old one;
- a **method** that changes the database in place. Its postcondition ties the
  result to that function.

The properties the source promises are stated in the functions' own
postconditions and in lemmas about them.

Things outside the code are parameters, not modelled parts:
- clocks (`now`, in milliseconds);
- failures of outside calls (`lookupFailed`, `stripeFailed`, `sendFailed`,
  `receiveFailed`, `deleteFailed`);
- Cloudinary upload results;
- the outcome of Stripe and Svix signature checks (`constructed`, `verified`);
- Stripe's checkout sessions (`sessions`).

A fresh `_id` is `Models.FreshId`: a string longer than every id in the
collection.

Where the documented design and the code differ, the model follows the code:
- a booking delete is a hard delete, so a repeated delete fails with
  "Booking not found";
- a queued create does not re-check availability;
- the Stripe webhook sets `isPaid` and `paymentMethod` but never `status`;
- there is no check that check-out comes after check-in;
- the booking status enum is `pending`/`paid`/`cancelled`;
- the availability query counts both date bounds as inclusive, so a stay that
  starts on the day another one ends is refused, where back-to-back stays are
  meant to be bookable (BookingController.BackToBackIsUnavailable).

## Model

| member | source | states |
|---|---|---|
| Models.NewBooking | server/models/Booking.js:3-51 | a created booking has status "pending", payment method "Pay At Hotel" and `isPaid` false, and keeps the given fields |
| Models.NewRoom | server/models/Room.js:3-30 | a created room is listed (`isAvailable` true) and keeps the given fields |
| Models.NewUser | server/models/User.js:3-31 | a created user has role "user" and no recent searches |
| BookingController.Conflicts | server/controllers/bookingController.js:10 | for a stay and a booking whose check-in is not after their check-out, the booking conflicts exactly when it is for the same room and the two closed date ranges share an instant (the later check-in is not after the earlier check-out) |
| BookingController.CheckAvailability | server/controllers/bookingController.js:8-17 | available if and only if the lookup succeeded and no booking of that room has check-in ≤ requested check-out and check-out ≥ requested check-in |
| BookingController.BackToBackIsUnavailable | server/controllers/bookingController.js:10-11 | both bounds are inclusive: a booking that checks out at the requested check-in blocks the room |
| BookingController.CeilDiv | server/controllers/bookingController.js:46 | `Math.ceil(a / d)`: the q with d·(q−1) < a ≤ d·q |
| BookingController.CeilDivUnique | server/controllers/bookingController.js:46 | that q is unique |
| BookingController.Nights | server/controllers/bookingController.js:45-46 | the stay in days, any started day counting whole: the n with n−1 days < stay ≤ n days; at least 1 for a positive stay and at most 0 otherwise |
| BookingController.TotalPrice | server/controllers/bookingController.js:42-47 | rate times nights; a positive stay at a non-negative rate costs at least one night |
| BookingController.WholeDays | server/controllers/bookingController.js:41-47 | a stay of exactly k days is billed k nights |
| BookingController.PartialDayRoundsUp | server/controllers/bookingController.js:41-47 | a started day is billed as a whole night |
| BookingController.NoDateGuard | server/controllers/bookingController.js:43-47 | a check-out on or before the check-in is not refused; it gives zero or fewer nights and a price of at most 0 |
| BookingController.CreateBookingSpec | server/controllers/bookingController.js:31-84 | 404 if and only if the room is unavailable; when it is available, 201 exactly when the room and its hotel exist and user, room and hotel ids are non-empty, and 500 with no change otherwise; a 201 appends exactly one booking: the caller's, pending and unpaid, with a fresh id, the room's hotel, and the room's rate times the nights |
| BookingController.CreateBooking | server/controllers/bookingController.js:31-84 | the method follows CreateBookingSpec, keeps ids unique and touches only the booking collection |
| BookingController.AppendFreshKeepsUnique | server/controllers/bookingController.js:49-57 | appending a booking with a fresh id keeps booking ids unique |
| BookingController.UserBookings | server/controllers/bookingController.js:87-95 | exactly the user's bookings (same multiset as the filter), newest first |
| BookingController.Revenue | server/controllers/bookingController.js:106 | the sum of the `totalPrice`s: non-negative, and at least each single price, when no price is negative |
| BookingController.RevenueInsert | server/controllers/bookingController.js:104-106 | inserting a booking into the sorted list adds its price to the sum |
| BookingController.RevenueSort | server/controllers/bookingController.js:104-106 | sorting the bookings does not change the revenue |
| BookingController.HotelDashboard | server/controllers/bookingController.js:98-111 | no result (404) if and only if the owner has no hotel; otherwise that hotel's bookings newest first, their count, and the sum of their `totalPrice` |
| BookingController.StripePayment | server/controllers/bookingController.js:114-146 | 200 if and only if the booking, its room and the room's hotel exist and Stripe does not fail; then one line item of quantity 1 for 100 × total price, with metadata `{ bookingId }` |
| ProcessBookingData.RequiredString | server/models/Booking.js:4-18 | a required string path is accepted if and only if it holds a non-empty string, and then yields that string |
| ProcessBookingData.RequiredNumber | server/models/Booking.js:19-34 | a required number or date path is accepted if and only if it holds a number, and then yields that number |
| ProcessBookingData.PatchNumber | server/helpers/processBookingData/processBooking.js:23-27 | an absent path leaves the stored value as it is; a number replaces it; anything else is a cast failure |
| ProcessBookingData.Patched | server/helpers/processBookingData/processBooking.js:21-28 | an update sets check-in, check-out and guests to the message's numbers where given, keeps them where absent, and changes nothing else |
| ProcessBookingData.Created | server/helpers/processBookingData/processBooking.js:29-41 | a create succeeds if and only if the seven required paths validate; the booking then carries exactly the message's user, room, hotel, dates, price and guests, the fresh id and the clock, and is pending and unpaid |
| ProcessBookingData.ProcessBookingSpec | server/helpers/processBookingData/processBooking.js:3-46 | errors leave the collection unchanged; delete without `_id` throws "Booking ID is required for deletion"; a non-string id throws a cast error; delete throws "Booking not found" exactly when no booking has that id, and otherwise removes that booking and returns it; update with a found id replaces that booking by its patched form and returns it, and resolves null for an unknown id; update without an id and any other action resolve undefined with no change; create throws a validation error if and only if a required path is missing, and otherwise appends one booking that carries the message, pending and unpaid, with the clock and a fresh id |
| ProcessBookingData.ProcessBooking | server/helpers/processBookingData/processBooking.js:3-46 | the method follows ProcessBookingSpec and keeps the database valid |
| ProcessBookingData.RemoveAtDropsId | server/helpers/processBookingData/processBooking.js:13-17 | after a delete, ids stay unique and the deleted id is gone |
| ProcessBookingData.ProcessKeepsUniqueIds | server/helpers/processBookingData/processBooking.js:3-46 | every outcome keeps booking ids unique |
| ProcessBookingData.DeleteTwiceFails | server/helpers/processBookingData/processBooking.js:8-18 | replaying a successful delete throws "Booking not found" and changes nothing |
| ProcessBookingData.DuplicateCreates | server/helpers/processBookingData/processBooking.js:29-41 | a create delivered twice stores two bookings that differ only in `_id` |
| SqsSend.Envelope | server/helpers/SQS/sendData.js:14-17 | the body is `{ type, data }`; it has no top-level `action` or `_id` |
| SqsSend.SendSpec | server/helpers/SQS/sendData.js:4-27 | an unknown type throws "Invalid type" and changes nothing; for the booking type the result is true exactly when the send succeeds, and then exactly one message is enqueued, with the next handle; a failed send changes nothing |
| SqsSend.SendSQSMessage | server/helpers/SQS/sendData.js:4-27 | the method follows SendSpec and keeps handles unique |
| SqsDelete.DeleteSpec | server/helpers/SQS/deleteData.js:4-27 | an unknown type throws; for the booking type a failed delete resolves false and a successful one resolves true; then exactly the messages with other handles remain |
| SqsDelete.FilterKeepsUniqueHandles | server/helpers/SQS/deleteData.js:14-22 | deleting keeps receipt handles unique |
| SqsDelete.DeleteHead | server/helpers/SQS/deleteData.js:14-22 | deleting the head's handle leaves the rest of the queue in order |
| SqsDelete.DeleteSQSMessage | server/helpers/SQS/deleteData.js:4-27 | the method follows DeleteSpec |
| SqsReceive.DispatchSpec | server/helpers/SQS/receiveData.js:6-28 | an unknown type fails with "Invalid type"; an action other than create, update or delete fails with "Invalid action"; it completes exactly when `processBooking` does not throw, and then applies its change; failures change nothing |
| SqsReceive.ProcessMessageByType | server/helpers/SQS/receiveData.js:6-28 | the method follows DispatchSpec |
| SqsReceive.Settle | server/helpers/SQS/receiveData.js:54-59 | after the head message is dispatched: a failed dispatch resolves false with queue and bookings unchanged; a completed one resolves true with the dispatch's bookings and the head deleted, unless the delete fails, when the message stays |
| SqsReceive.ReceiveSpec | server/helpers/SQS/receiveData.js:30-64 | an unknown type throws before receiving; an empty queue gives true with no change; false exactly when the receive fails, the head has no parseable body, or its dispatch fails, and then queue and bookings are unchanged; when the dispatch completes, the result is true, the bookings are the dispatch's, and the head is deleted unless its delete fails |
| SqsReceive.ReceiveSQSMessage | server/helpers/SQS/receiveData.js:30-64 | the receive loop follows ReceiveSpec and never changes the next handle |
| SqsReceive.DeleteFailureKeepsMessage | server/helpers/SQS/receiveData.js:54-59 | a failed delete after a completed dispatch resolves `true`, applies the change and keeps the message for redelivery |
| SqsReceive.ProducedMessageIsNeverConsumed | server/helpers/SQS/receiveData.js:11-18 | a message shaped as `sendSQSMessage` writes it is refused, stays at the head and changes nothing |
| SqsReceive.SendThenReceive | server/helpers/SQS/receiveData.js:11-18 | end to end, a booking sent to an empty queue is never applied |
| SqsReceive.DispatchEnvelope | server/helpers/SQS/receiveData.js:6-28 | corrected dispatch: completes exactly when the body has the right `type` and a `data` member on which `processMessageByType` completes, and then applies exactly that; a failure changes nothing |
| SqsReceive.ReceiveEnvelopeSpec | server/helpers/SQS/receiveData.js:30-64 | the corrected receive loop: as ReceiveSpec, with the dispatch reading `body.data` |
| SqsReceive.SendThenReceiveEnvelope | server/helpers/SQS/sendData.js:14-17 | with dispatch on `body.data`, a sent booking is applied exactly as `processBooking(data)` applies it, and then deleted |
| StripeWebhooks.MarkPaid | server/controllers/stripeWebhooks.js:76-80 | sets `isPaid` and payment method "stripe" and nothing else |
| StripeWebhooks.BookingIdOf | server/controllers/stripeWebhooks.js:69-70 | a booking id is found exactly when the metadata holds a non-empty `bookingId`, and it is that value |
| StripeWebhooks.WebhookSpec | server/controllers/stripeWebhooks.js:4-99 | no signature gives 400; no secret gives 500; a failed verification gives 400; a verified event of another type gives 200 with no change; for `payment_intent.succeeded`, a failed session lookup gives 500, no session for the intent 400, no booking id in its metadata 400, an unknown booking 404, and otherwise 200 with exactly that booking marked paid; any non-200 reply changes nothing |
| StripeWebhooks.WebhookIsIdempotent | server/controllers/stripeWebhooks.js:54-94 | replaying an event changes nothing more and gets the same status |
| StripeWebhooks.CheckoutThenWebhookMarksPaid | server/controllers/stripeWebhooks.js:59-85 | the session `stripePayment` requests, once paid, marks exactly that booking paid |
| StripeWebhooks.StripeWebhook | server/controllers/stripeWebhooks.js:4-99 | the method follows WebhookSpec |
| RoomController.CreateRoomSpec | server/controllers/roomController.js:5-22 | replies 404, 500 or 201; 404 if and only if the owner has no hotel; with a hotel, 500 with no change exactly when an upload fails, the amenities do not parse, or the room type or the hotel id is empty; otherwise 201 with one listed room appended, under the owner's hotel, with the uploaded images |
| RoomController.CreateRoom | server/controllers/roomController.js:5-22 | the method follows CreateRoomSpec and keeps room ids unique |
| RoomController.AllRooms | server/controllers/roomController.js:25-38 | exactly the listed rooms, newest first |
| RoomController.OwnerRooms | server/controllers/roomController.js:41-52 | no result (404) if and only if the owner has no hotel; otherwise exactly the rooms of that hotel |
| RoomController.ToggleSpec | server/controllers/roomController.js:55-68 | 404 if and only if the room is unknown; otherwise only that room's `isAvailable` is negated |
| RoomController.ToggleTwice | server/controllers/roomController.js:62-63 | toggling twice restores the collection |
| RoomController.ToggleRoomAvailability | server/controllers/roomController.js:55-68 | the method follows ToggleSpec |
| HotelController.RegisterSpec | server/controllers/hotelController.js:4-20 | 404 if and only if the owner already has a hotel; otherwise one hotel with a fresh id is appended, the owner's role becomes "owner", and other users are unchanged; it keeps one hotel per owner and unique ids |
| HotelController.SecondRegistrationRefused | server/controllers/hotelController.js:9-13 | a second registration by the same owner is refused with no change |
| HotelController.RegisterAllKeepsHotels | server/controllers/hotelController.js:14 | registrations only ever append hotels |
| HotelController.RegistrationsKeepOneHotelPerOwner | server/controllers/hotelController.js:9-14 | after any run of registrations, each owner has at most one hotel, ids are unique, and every registering owner has a hotel |
| HotelController.RegisterHotel | server/controllers/hotelController.js:4-20 | the method follows RegisterSpec |
| UserController.GetUserData | server/controllers/userController.js:1-10 | the reply carries the caller's role and recent searches |
| UserController.RecentCitiesAfter | server/controllers/userController.js:13-22 | the new city is last; the list grows by one while it is shorter than three and keeps its length otherwise; the rest are the most recent older entries in order; from at most three entries, the result is the last three of the list plus the city |
| UserController.RepeatedCityIsKeptTwice | server/controllers/userController.js:17-22 | there is no de-duplication: a city searched again is stored again |
| UserController.StoreAllKeepsLastThree | server/controllers/userController.js:17-22 | starting from at most three entries, any run of searches leaves exactly the three most recent, oldest first |
| UserController.StoreRecentSearchedCities | server/controllers/userController.js:13-29 | 500 if and only if the city is empty (the schema requires each entry), and then nothing changes; otherwise 200 and only the caller's list changes, as RecentCitiesAfter says |
| ClerkWebhooks.DisplayName | server/controllers/clerkWebhooks.js:26 | the name is first name, a space, last name, and is never empty |
| ClerkWebhooks.CreatedDocument | server/controllers/clerkWebhooks.js:25-30 | the document built for `user.created` never validates against the user schema |
| ClerkWebhooks.ClerkSpec | server/controllers/clerkWebhooks.js:4-55 | as written: a failed verification or a payload without `body` gives 500 and no change; with a body, `user.created` always gives 500 and no change, `user.updated` gives 200 exactly when an email is present and sets only email and image of that user, `user.deleted` gives 200 and removes it, and other events give 200 with no change |
| ClerkWebhooks.ClerkDeliveryIsRejected | server/controllers/clerkWebhooks.js:17-20 | as written, every delivery shaped as Clerk sends it gives 500 and changes nothing |
| ClerkWebhooks.CreatedNeverStores | server/controllers/clerkWebhooks.js:24-31 | as written, `user.created` always gives 500 and stores nothing |
| ClerkWebhooks.UpdatedKeepsUserName | server/controllers/clerkWebhooks.js:33-40 | as written, `user.updated` never changes the stored name |
| ClerkWebhooks.ClerkIntendedSpec | server/controllers/clerkWebhooks.js:4-55 | intended: a failed verification gives 500; `user.created` gives 200 exactly when an email is present, the id and the email are non-empty and the id is new; `user.updated` gives 200 exactly when an email is present; `user.deleted` gives 200 and removes the id; other events give 200 with no change; failures change nothing; every user stays keyed by its own id |
| ClerkWebhooks.IntendedCreateStoresUser | server/controllers/clerkWebhooks.js:24-31 | intended: `user.created` for a new id stores exactly the user Clerk describes |
| ClerkWebhooks.IntendedUpdateIsIdempotent | server/controllers/clerkWebhooks.js:33-40 | intended: `user.updated` renames the user, and a replay changes nothing more |
| ClerkWebhooks.IntendedCreateThenDelete | server/controllers/clerkWebhooks.js:42-44 | intended: creating and then deleting a new id restores the collection |
| ClerkWebhooks.HandleClerkWebhook | server/controllers/clerkWebhooks.js:4-55 | the method follows ClerkSpec, the code as written |

## Left out

- Mail, uploads and outside services are parameters or left out:
  - the booking confirmation mail (nodemailer) is fire-and-forget and affects neither reply nor store;
  - Cloudinary uploads appear only as their resulting URLs;
  - Stripe session creation appears as the request value;
  - signature cryptography (Stripe, Svix) appears as its outcome;
  - the AWS SQS client is replaced by an in-memory queue.
- `populate`: listings return the bare records, not joined room, hotel and user documents.
- `updatedAt` is not modelled; `createdAt` is the `now` parameter. A replayed webhook that changes nothing in the model would still bump `updatedAt`.
- JS numbers and dates:
  - prices, guests and dates are unbounded integers, and dates are milliseconds;
  - `Number(...)` of a non-numeric string (NaN) and date-string parsing are not modelled.
- `checkAvailabilityApi` (server/controllers/bookingController.js:20-28) is not modelled separately: it replies 200 with CheckAvailability's result.
- Mongoose behaviour not modelled:
  - CastError for a malformed `_id` in the controllers, where ids are plain strings;
  - database failures in the controllers' own `try` blocks, except the lookup, Stripe and queue failures named above;
  - the `required` check on an empty `amenities` array.
- Hotel.js is not part of this model, so hotel registration applies no schema validation.
- ProcessBookingData.RequiredNumber, ProcessBookingData.PatchNumber: Mongoose's cast of a numeric string to a Number is not modelled (it needs JS string-to-number conversion); such a value counts as a validation or cast failure.
- ProcessBookingData.RequiredString: Mongoose's cast of a number to a String is not modelled; a number in a string path counts as a validation failure.
- ProcessBookingData.PatchNumber: `null` in an update, which Mongoose stores as null, is not modelled, because the stored fields are integers; it counts as a cast failure.
- ProcessBookingData.ProcessBookingSpec: the CastError for a string `_id` that is not a well-formed ObjectId is not modelled, because ids are plain strings; such an id is simply not found.
- UserController.StoreRecentSearchedCities: an absent `recentSearchedCity` is modelled as the empty string, which fails the same `required` check.
- The authentication middleware is not modelled. Caller ids are parameters. StoreRecentSearchedCities requires the caller to exist, which the middleware guarantees.
- Error texts are simplified:
  - the "Invalid action: <action>" message of `processMessageByType` is the constant "Invalid action";
  - TypeError messages are short constants.
- Not modelled in the receive loop: long polling (`WaitTimeSeconds`), visibility timeouts, redelivery timing, and the cron schedule that calls it. The model calls the receive step directly.
- Concurrency between requests or consumers is not modelled; every operation is atomic.
- The methods model the code as written. The corrected SQS consumer and Clerk handler are specification functions with their lemmas beside them; see Findings.

## Findings

| source | as written | input that shows it | evidently intended | confidence | as-written member | corrected member |
|---|---|---|---|---|---|---|
| server/helpers/SQS/receiveData.js:11-18 | dispatch reads `action` from the top level of the message body | any message `sendSQSMessage("booking", { action: "create", ... })` enqueues: its body is `{ type, data }`, so `body.action` is undefined and the message is refused as an invalid action, forever | read the action and the booking from `body.data` | medium, not executed | SqsReceive.SendThenReceive | SqsReceive.SendThenReceiveEnvelope |
| server/controllers/clerkWebhooks.js:17-20 | reads `{ data, type }` from `payload.body` | any Clerk delivery: the verified payload carries `type` and `data` at top level and has no `body`, so the destructuring throws and the reply is 500 | read `type` and `data` from the payload itself | medium, not executed | ClerkWebhooks.ClerkDeliveryIsRejected | ClerkWebhooks.IntendedCreateStoresUser |
| server/controllers/clerkWebhooks.js:25-30 | `user.created` creates `{ username, email, image }` | any `user.created` event: the document has no `_id` (required) and no `userName` (the schema's name path), so validation fails | create with `_id: data.id` and `userName` | high, not executed | ClerkWebhooks.CreatedNeverStores | ClerkWebhooks.IntendedCreateStoresUser |
| server/controllers/clerkWebhooks.js:34-39 | `user.updated` sets `username`, which strict mode drops | a `user.updated` event with a new first name: the stored `userName` stays the old one | update `userName` | high, not executed | ClerkWebhooks.UpdatedKeepsUserName | ClerkWebhooks.IntendedUpdateIsIdempotent |
