/** sendData.js: `sendSQSMessage(type, data)`. */
module SqsSend {
  import opened Wrappers
  import opened Json
  import opened SqsQueue

  /** The message body `{ type, data }`. */
  function Envelope(messageType: string, data: Json): (body: Json)
    ensures Get(body, "type") == Some(JStr(messageType)) && Get(body, "data") == Some(data)
    ensures Get(body, "action") == None && Get(body, "_id") == None
  {
    JObj(map["type" := JStr(messageType), "data" := data])
  }

  /** `sendSQSMessage` on the queue's messages and next handle. */
  function SendSpec(messages: seq<QueueMessage>, nextHandle: nat, messageType: string, data: Json,
                    sendFailed: bool): (r: (Outcome, seq<QueueMessage>, nat))
    ensures messageType != BookingType ==> r == (Rejected(InvalidType), messages, nextHandle)
    ensures r.0 == Resolved(false) <==> messageType == BookingType && sendFailed
    ensures messageType == BookingType && !sendFailed ==> r.0 == Resolved(true)
    ensures r.0 != Resolved(true) ==> r.1 == messages && r.2 == nextHandle
    ensures r.0 == Resolved(true) ==>
      r.1 == messages + [QueueMessage(nextHandle, Some(Envelope(messageType, data)))] && r.2 == nextHandle + 1
  {
    if messageType != BookingType then (Rejected(InvalidType), messages, nextHandle)
    else if sendFailed then (Resolved(false), messages, nextHandle)
    else (Resolved(true), messages + [QueueMessage(nextHandle, Some(Envelope(messageType, data)))], nextHandle + 1)
  }

  /** `sendSQSMessage`: an unknown type throws before sending; a failed send
      resolves to false; otherwise one `{ type, data }` message is enqueued. */
  method SendSQSMessage(q: BookingQueue, messageType: string, data: Json, sendFailed: bool) returns (r: Outcome)
    requires q.Valid()
    modifies q
    ensures q.Valid()
    ensures (r, q.messages, q.nextHandle) == SendSpec(old(q.messages), old(q.nextHandle), messageType, data, sendFailed)
  {
    if messageType != BookingType {
      return Rejected(InvalidType);
    }
    var body := Envelope(messageType, data);
    if sendFailed {
      return Resolved(false);
    }
    q.messages := q.messages + [QueueMessage(q.nextHandle, Some(body))];
    q.nextHandle := q.nextHandle + 1;
    r := Resolved(true);
  }
}
