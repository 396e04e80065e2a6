/** The members of Client and the body of SenderTask::RunAtomic that work on them. */
module SendMembers {
  import opened Basics
  import opened SendSteps

  /** A whole round of sender `k` in the transition system. */
  function Round(s: State, k: SenderId, sent: int, wouldBlock: bool): State
    requires Enabled(s, Take(k))
  {
    var t := Apply(s, Take(k));
    if sent < 0 && wouldBlock then Apply(t, Retry(k)) else Apply(t, Finish(k, sent))
  }

  /** A whole dispatch by caller `c` to a connected endpoint `e`. */
  function Dispatch(s: State, c: CallerId, e: Endpoint, payload: Payload, isAsync: bool): State
    requires Enabled(s, Begin(c, e, payload, isAsync)) && e in s.queueOf && s.queueOf[e] in s.queues
  {
    Apply(Apply(s, Begin(c, e, payload, isAsync)), Push(c))
  }

  /** The transition system has this client's data on queue `q`. */
  predicate Shows(s: State, q: QueueId, messageId: nat, queue: seq<Msg>, results: map<MessageId, int>) {
    s.nextId == messageId && q in s.queues && s.queues[q] == queue && s.results == results
  }

  class Client {
    var messageId: nat
    var sendQueue: seq<Msg>
    var sendResults: map<MessageId, int>

    constructor ()
      ensures messageId == 0 && sendQueue == [] && sendResults == map[]
    {
      messageId, sendQueue, sendResults := 0, [], map[];
    }

    /** `serialized` is nothing when the message does not serialize; its id is used up then. */
    method DispatchSend(connected: bool, serialized: Option<Payload>, isAsync: bool) returns (id: Option<MessageId>)
      modifies this
      ensures sendResults == old(sendResults)
      ensures messageId == old(messageId) + if connected then 1 else 0
      ensures id.Some? <==> connected && serialized.Some?
      ensures id.Some? ==>
        id.value == messageId && sendQueue == old(sendQueue) + [Msg(messageId, serialized.value, isAsync)]
      ensures id.None? ==> sendQueue == old(sendQueue)
      ensures id.Some? ==>
        forall s: State, c: CallerId, e: Endpoint |
          && Enabled(s, Begin(c, e, serialized.value, isAsync)) && e in s.queueOf
          && Shows(s, s.queueOf[e], old(messageId), old(sendQueue), sendResults) ::
          Shows(Dispatch(s, c, e, serialized.value, isAsync), s.queueOf[e], messageId, sendQueue, sendResults)
    {
      if !connected {
        return None;
      }
      messageId := messageId + 1;
      if serialized.None? {
        return None;
      }
      sendQueue := sendQueue + [Msg(messageId, serialized.value, isAsync)];
      return Some(messageId);
    }

    /** The sender's callback. */
    method SendDone(id: MessageId, status: int)
      modifies this`sendResults
      ensures sendResults == old(sendResults)[id := status]
    {
      sendResults := sendResults[id := status];
    }

    /** The second half of Send: the result, if it is there, is read once. */
    method CollectResult(id: MessageId) returns (result: Option<int>)
      modifies this`sendResults
      ensures result == if id in old(sendResults) then Some(old(sendResults)[id]) else None
      ensures sendResults == old(sendResults) - {id}
      ensures forall s: State, c: CallerId |
        Enabled(s, Look(c)) && s.callers[c].id == id && s.results == old(sendResults) ::
        Apply(s, Look(c)).results == sendResults && (result.None? <==> c in Apply(s, Look(c)).callers)
    {
      if id !in sendResults {
        return None;
      }
      result := Some(sendResults[id]);
      sendResults := sendResults - {id};
    }

    /** One round of the sender task; `sent` is what send() returns and `wouldBlock` tells a
        timeout from a failure. */
    method SenderRunAtomic(sent: int, wouldBlock: bool)
      modifies this`sendQueue, this`sendResults
      ensures old(sendQueue) == [] ==> sendQueue == [] && sendResults == old(sendResults)
      ensures old(sendQueue) != [] && sent < 0 && wouldBlock ==>
        sendQueue == old(sendQueue)[1..] + [old(sendQueue)[0]] && sendResults == old(sendResults)
      ensures old(sendQueue) != [] && !(sent < 0 && wouldBlock) ==>
        var message := old(sendQueue)[0];
        && sendQueue == old(sendQueue)[1..]
        && sendResults == if message.isAsync then old(sendResults) else old(sendResults)[message.id := sent]
      ensures forall s: State, k: SenderId |
          Enabled(s, Take(k)) && Shows(s, s.serves[k], messageId, old(sendQueue), old(sendResults)) ::
          Shows(Round(s, k, sent, wouldBlock), s.serves[k], messageId, sendQueue, sendResults)
    {
      if sendQueue == [] {
        return;
      }
      var message := sendQueue[0];
      sendQueue := sendQueue[1..];
      if sent < 0 && wouldBlock {
        sendQueue := sendQueue + [message];
        return;
      }
      if !message.isAsync {
        SendDone(message.id, sent);
      }
    }
  }
}
