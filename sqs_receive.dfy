/** receiveData.js: `processMessageByType` and `receiveSQSMessage`, the consumer
    the cron job runs once a minute. */
module SqsReceive {
  import opened Wrappers
  import opened Json
  import opened Models
  import opened Store
  import opened SqsQueue
  import opened SqsSend
  import opened SqsDelete
  import opened ProcessBookingData

  /** `processMessageByType` either completes or throws. */
  datatype Completion = Completed | Failed(message: string)

  const InvalidAction: string := "Invalid action"
  const NullAction: string := "TypeError: Cannot read properties of null"

  /** `processMessageByType(type, data)`: only type "booking" with
      `data.action` create, update or delete reaches `processBooking`, whose
      errors are rethrown. */
  function DispatchSpec(messageType: string, data: Json, bookings: seq<Booking>, now: int)
    : (r: (Completion, seq<Booking>))
    ensures r.0.Failed? ==> r.1 == bookings
    ensures messageType != BookingType ==> r.0 == Failed(InvalidType)
    ensures messageType == BookingType && !data.JNull?
            && !IsAction(data, "create") && !IsAction(data, "update") && !IsAction(data, "delete")
            ==> r.0 == Failed(InvalidAction)
    ensures r.0 == Completed <==>
      && messageType == BookingType && !data.JNull?
      && (IsAction(data, "create") || IsAction(data, "update") || IsAction(data, "delete"))
      && !ProcessBookingSpec(bookings, data, now).0.Threw?
    ensures r.0 == Completed ==> r.1 == ProcessBookingSpec(bookings, data, now).1
  {
    if messageType != BookingType then (Failed(InvalidType), bookings)
    else if data.JNull? then (Failed(NullAction), bookings)
    else if IsAction(data, "create") || IsAction(data, "update") || IsAction(data, "delete") then
      match ProcessBookingSpec(bookings, data, now)
      case (Threw(message), _) => (Failed(message), bookings)
      case (_, after) => (Completed, after)
    else (Failed(InvalidAction), bookings)
  }

  /** What happens to the received message once it has been dispatched: kept on
      failure, deleted by its handle after success. */
  function Settle(messages: seq<QueueMessage>, bookings: seq<Booking>, deleteFailed: bool,
                  dispatched: (Completion, seq<Booking>)): (r: (Outcome, seq<QueueMessage>, seq<Booking>))
    requires messages != [] && UniqueHandles(messages)
    ensures dispatched.0.Failed? ==> r == (Resolved(false), messages, bookings)
    ensures dispatched.0 == Completed ==>
      r == (Resolved(true), if deleteFailed then messages else messages[1..], dispatched.1)
  {
    if dispatched.0.Failed? then (Resolved(false), messages, bookings)
    else
      var result := (Resolved(true), DeleteSpec(messages, BookingType, messages[0].handle, deleteFailed).1, dispatched.1);
      if deleteFailed then result else DeleteHead(messages); result
  }

  /** `receiveSQSMessage(type)` on the queue and the booking collection. */
  function ReceiveSpec(messages: seq<QueueMessage>, bookings: seq<Booking>, messageType: string,
                       receiveFailed: bool, deleteFailed: bool, now: int)
    : (r: (Outcome, seq<QueueMessage>, seq<Booking>))
    requires UniqueHandles(messages)
    // an unknown type throws before anything is received
    ensures messageType != BookingType ==> r == (Rejected(InvalidType), messages, bookings)
    ensures messageType == BookingType ==> r.0.Resolved?
    // a failed receive, parse or dispatch resolves to false and keeps the message
    ensures r.0 == Resolved(false) ==> r.1 == messages && r.2 == bookings
    // at most one message is taken, and it is deleted only after its dispatch completed
    ensures r.1 == messages || (messages != [] && r.1 == messages[1..])
    ensures r.1 != messages ==>
      && r.0 == Resolved(true) && messages[0].body.Some?
      && DispatchSpec(messageType, messages[0].body.value, bookings, now) == (Completed, r.2)
    ensures messageType == BookingType && !receiveFailed && messages == [] ==> r == (Resolved(true), [], bookings)
    // false exactly when the receive, the parse or the dispatch failed
    ensures messageType == BookingType ==>
      (r.0 == Resolved(false) <==>
         receiveFailed || (messages != [] && (messages[0].body.None?
                                              || DispatchSpec(messageType, messages[0].body.value, bookings, now).0.Failed?)))
    // a processed message is deleted unless the delete fails, and its change is kept either way
    ensures (messageType == BookingType && !receiveFailed && messages != [] && messages[0].body.Some?
             && DispatchSpec(messageType, messages[0].body.value, bookings, now).0 == Completed) ==>
      r == (Resolved(true), if deleteFailed then messages else messages[1..],
            DispatchSpec(messageType, messages[0].body.value, bookings, now).1)
  {
    if messageType != BookingType then (Rejected(InvalidType), messages, bookings)
    else if receiveFailed then (Resolved(false), messages, bookings)
    else if messages == [] then (Resolved(true), messages, bookings)
    else if messages[0].body.None? then (Resolved(false), messages, bookings)
    else Settle(messages, bookings, deleteFailed, DispatchSpec(messageType, messages[0].body.value, bookings, now))
  }

  /** `processMessageByType` on the store. */
  method ProcessMessageByType(db: Database, messageType: string, data: Json, now: int) returns (c: Completion)
    requires db.Valid()
    modifies db
    ensures db.Valid()
    ensures (c, db.bookings) == DispatchSpec(messageType, data, old(db.bookings), now)
    ensures db.rooms == old(db.rooms) && db.hotels == old(db.hotels) && db.users == old(db.users)
  {
    if messageType != BookingType {
      return Failed(InvalidType);
    }
    if data.JNull? {
      return Failed(NullAction);
    }
    if IsAction(data, "create") || IsAction(data, "update") || IsAction(data, "delete") {
      var result := ProcessBooking(db, data, now);
      if result.Threw? {
        return Failed(result.message);
      }
      return Completed;
    }
    return Failed(InvalidAction);
  }

  /** `receiveSQSMessage`: receive at most one message, dispatch it and delete it
      by its receipt handle; any failure before the delete resolves to false. */
  method ReceiveSQSMessage(q: BookingQueue, db: Database, messageType: string,
                           receiveFailed: bool, deleteFailed: bool, now: int) returns (r: Outcome)
    requires q.Valid() && db.Valid()
    modifies q, db
    ensures q.Valid() && db.Valid()
    ensures (r, q.messages, db.bookings)
            == ReceiveSpec(old(q.messages), old(db.bookings), messageType, receiveFailed, deleteFailed, now)
    ensures q.nextHandle == old(q.nextHandle)
    ensures db.rooms == old(db.rooms) && db.hotels == old(db.hotels) && db.users == old(db.users)
  {
    if messageType != BookingType {
      return Rejected(InvalidType);
    }
    if receiveFailed {
      return Resolved(false);
    }
    // MaxNumberOfMessages: 1
    var received := if q.messages == [] then [] else q.messages[..1];
    for i := 0 to |received|
      invariant q.Valid() && db.Valid()
      invariant q.nextHandle == old(q.nextHandle)
      invariant db.rooms == old(db.rooms) && db.hotels == old(db.hotels) && db.users == old(db.users)
      invariant i == 0 ==> q.messages == old(q.messages) && db.bookings == old(db.bookings)
      invariant i == 1 ==> (Resolved(true), q.messages, db.bookings)
                           == ReceiveSpec(old(q.messages), old(db.bookings), messageType, receiveFailed, deleteFailed, now)
    {
      var msg := received[i];
      if msg.body.None? {
        return Resolved(false);  // JSON.parse threw
      }
      var done := ProcessMessageByType(db, messageType, msg.body.value, now);
      if done.Failed? {
        return Resolved(false);
      }
      if !deleteFailed {
        DeleteHead(q.messages);
      }
      var _ := DeleteSQSMessage(q, messageType, msg.handle, deleteFailed);
    }
    return Resolved(true);
  }

  /** The producer nests `action` inside `data`, but the consumer reads it from the
      top level of the body: every message `sendSQSMessage` enqueues is rejected
      as "Invalid action", stays at the head of the queue and changes nothing, so
      the next receive meets it again. */
  lemma ProducedMessageIsNeverConsumed(messages: seq<QueueMessage>, bookings: seq<Booking>, data: Json,
                                       receiveFailed: bool, deleteFailed: bool, now: int)
    requires UniqueHandles(messages)
    requires messages != [] && messages[0].body == Some(Envelope(BookingType, data))
    ensures ReceiveSpec(messages, bookings, BookingType, receiveFailed, deleteFailed, now)
            == (Resolved(false), messages, bookings)
  {
    assert !IsAction(Envelope(BookingType, data), "create");
  }

  /** End to end: a booking sent to an empty queue is never applied. */
  lemma SendThenReceive(nextHandle: nat, bookings: seq<Booking>, data: Json,
                        receiveFailed: bool, deleteFailed: bool, now: int)
    ensures var (_, queued, _) := SendSpec([], nextHandle, BookingType, data, false);
            && queued == [QueueMessage(nextHandle, Some(Envelope(BookingType, data)))]
            && ReceiveSpec(queued, bookings, BookingType, receiveFailed, deleteFailed, now)
               == (Resolved(false), queued, bookings)
  {
    var queued := SendSpec([], nextHandle, BookingType, data, false).1;
    ProducedMessageIsNeverConsumed(queued, bookings, data, receiveFailed, deleteFailed, now);
  }

  /** A failed delete after a successful dispatch still resolves to true: the
      booking change is made and the message stays, to be delivered again. */
  lemma DeleteFailureKeepsMessage(messages: seq<QueueMessage>, bookings: seq<Booking>, now: int)
    requires UniqueHandles(messages) && messages != [] && messages[0].body.Some?
    requires DispatchSpec(BookingType, messages[0].body.value, bookings, now).0 == Completed
    ensures ReceiveSpec(messages, bookings, BookingType, false, true, now)
            == (Resolved(true), messages, DispatchSpec(BookingType, messages[0].body.value, bookings, now).1)
  {
  }

  // ------------------------------------------------------------ the consumer as intended

  /** Dispatch on the body `sendSQSMessage` writes: the type from `body.type`, the
      action and the booking fields from `body.data`. */
  function DispatchEnvelope(messageType: string, body: Json, bookings: seq<Booking>, now: int)
    : (r: (Completion, seq<Booking>))
    ensures r.0.Failed? ==> r.1 == bookings
    ensures r.0 == Completed <==>
      && Get(body, "type") == Some(JStr(messageType)) && Get(body, "data").Some?
      && DispatchSpec(messageType, Get(body, "data").value, bookings, now).0 == Completed
    ensures r.0 == Completed ==> r == DispatchSpec(messageType, Get(body, "data").value, bookings, now)
  {
    match Get(body, "data")
    case None => (Failed(InvalidAction), bookings)
    case Some(data) =>
      if Get(body, "type") != Some(JStr(messageType)) then (Failed(InvalidType), bookings)
      else DispatchSpec(messageType, data, bookings, now)
  }

  /** `receiveSQSMessage` with the dispatch reading `body.data.action`. */
  function ReceiveEnvelopeSpec(messages: seq<QueueMessage>, bookings: seq<Booking>, messageType: string,
                               receiveFailed: bool, deleteFailed: bool, now: int)
    : (r: (Outcome, seq<QueueMessage>, seq<Booking>))
    requires UniqueHandles(messages)
    ensures messageType != BookingType ==> r == (Rejected(InvalidType), messages, bookings)
    ensures messageType == BookingType ==>
      (r.0 == Resolved(false) <==>
         receiveFailed || (messages != [] && (messages[0].body.None?
                                              || DispatchEnvelope(messageType, messages[0].body.value, bookings, now).0.Failed?)))
    ensures r.0 == Resolved(false) ==> r.1 == messages && r.2 == bookings
    ensures (messageType == BookingType && !receiveFailed && messages != [] && messages[0].body.Some?
             && DispatchEnvelope(messageType, messages[0].body.value, bookings, now).0 == Completed) ==>
      r == (Resolved(true), if deleteFailed then messages else messages[1..],
            DispatchEnvelope(messageType, messages[0].body.value, bookings, now).1)
  {
    if messageType != BookingType then (Rejected(InvalidType), messages, bookings)
    else if receiveFailed then (Resolved(false), messages, bookings)
    else if messages == [] then (Resolved(true), messages, bookings)
    else if messages[0].body.None? then (Resolved(false), messages, bookings)
    else Settle(messages, bookings, deleteFailed, DispatchEnvelope(messageType, messages[0].body.value, bookings, now))
  }

  /** Round trip of the intended consumer: a booking message sent to an empty
      queue is applied exactly as `processBooking(data)` applies it, and deleted. */
  lemma SendThenReceiveEnvelope(nextHandle: nat, bookings: seq<Booking>, data: Json, now: int)
    requires !data.JNull?
    requires IsAction(data, "create") || IsAction(data, "update") || IsAction(data, "delete")
    requires !ProcessBookingSpec(bookings, data, now).0.Threw?
    ensures var (_, queued, _) := SendSpec([], nextHandle, BookingType, data, false);
            ReceiveEnvelopeSpec(queued, bookings, BookingType, false, false, now)
            == (Resolved(true), [], ProcessBookingSpec(bookings, data, now).1)
  {
  }

  /** The corrected dispatch reads exactly what the producer wrote: on the
      envelope `sendSQSMessage` builds, it is the dispatch of `data`. */
  lemma EnvelopeDispatchesData(data: Json, bookings: seq<Booking>, now: int)
    ensures DispatchEnvelope(BookingType, Envelope(BookingType, data), bookings, now)
            == DispatchSpec(BookingType, data, bookings, now)
  {
  }
}
