/** deleteData.js: `deleteSQSMessage(type, receiptHandle)`. */
module SqsDelete {
  import opened SqsQueue
  import opened Listing

  function HandleIsNot(handle: nat): QueueMessage -> bool { (m: QueueMessage) => m.handle != handle }

  /** `deleteSQSMessage` on the queue's messages. */
  function DeleteSpec(messages: seq<QueueMessage>, messageType: string, handle: nat, deleteFailed: bool)
    : (r: (Outcome, seq<QueueMessage>))
    ensures messageType != BookingType ==> r == (Rejected(InvalidType), messages)
    ensures r.0 != Resolved(true) ==> r.1 == messages
    ensures r.0 == Resolved(true) <==> messageType == BookingType && !deleteFailed
    ensures messageType == BookingType && deleteFailed ==> r.0 == Resolved(false)
    ensures r.0 == Resolved(true) ==>
      && (forall i :: 0 <= i < |r.1| ==> r.1[i].handle != handle && r.1[i] in messages)
      && (forall i :: 0 <= i < |messages| && messages[i].handle != handle ==> messages[i] in r.1)
  {
    if messageType != BookingType then (Rejected(InvalidType), messages)
    else if deleteFailed then (Resolved(false), messages)
    else (Resolved(true), Filter(messages, HandleIsNot(handle)))
  }

  lemma {:induction false} FilterKeepsUniqueHandles(messages: seq<QueueMessage>, p: QueueMessage -> bool)
    requires UniqueHandles(messages)
    ensures UniqueHandles(Filter(messages, p))
  {
    if messages != [] {
      FilterKeepsUniqueHandles(messages[1..], p);
      var rest := Filter(messages[1..], p);
      assert forall i :: 0 <= i < |rest| ==> rest[i].handle != messages[0].handle by {
        forall i | 0 <= i < |rest| ensures rest[i].handle != messages[0].handle {
          var k :| 0 <= k < |messages[1..]| && messages[1..][k] == rest[i];
          assert messages[k + 1] == rest[i];
        }
      }
    }
  }

  /** Deleting the first message by its handle leaves the rest in order. */
  lemma DeleteHead(messages: seq<QueueMessage>)
    requires messages != [] && UniqueHandles(messages)
    ensures DeleteSpec(messages, BookingType, messages[0].handle, false) == (Resolved(true), messages[1..])
  {
    FilterDropsHead(messages, HandleIsNot(messages[0].handle));
  }

  /** `deleteSQSMessage`: an unknown type throws; a failed delete resolves to false
      and keeps the message; otherwise the message with that handle is removed. */
  method DeleteSQSMessage(q: BookingQueue, messageType: string, handle: nat, deleteFailed: bool) returns (r: Outcome)
    requires q.Valid()
    modifies q
    ensures q.Valid() && q.nextHandle == old(q.nextHandle)
    ensures (r, q.messages) == DeleteSpec(old(q.messages), messageType, handle, deleteFailed)
  {
    if messageType != BookingType {
      return Rejected(InvalidType);
    }
    if deleteFailed {
      return Resolved(false);
    }
    FilterKeepsUniqueHandles(q.messages, HandleIsNot(handle));
    q.messages := Filter(q.messages, HandleIsNot(handle));
    r := Resolved(true);
  }
}
