/** The booking queue behind BOOKING_QUEUE_URL: messages in arrival order, each
    with the receipt handle that deletes it. */
module SqsQueue {
  import opened Wrappers
  import opened Json

  /** The only message type with a queue. */
  const BookingType: string := "booking"
  const InvalidType: string := "Invalid type"

  /** `body` is the parsed message text; `None` when `JSON.parse` would throw. */
  datatype QueueMessage = QueueMessage(handle: nat, body: Option<Json>)

  /** What the async helpers resolve to (`true`/`false`) or throw. */
  datatype Outcome = Resolved(ok: bool) | Rejected(message: string)

  predicate UniqueHandles(messages: seq<QueueMessage>)
  {
    forall i, j :: 0 <= i < j < |messages| ==> messages[i].handle != messages[j].handle
  }

  class BookingQueue {
    var messages: seq<QueueMessage>
    var nextHandle: nat

    /** Handles are unique and below `nextHandle`. */
    ghost predicate Valid()
      reads this
    {
      UniqueHandles(messages) && forall i :: 0 <= i < |messages| ==> messages[i].handle < nextHandle
    }

    constructor ()
      ensures Valid() && messages == [] && nextHandle == 0
    {
      messages, nextHandle := [], 0;
    }
  }
}
