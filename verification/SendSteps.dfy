/** The send path as a transition system: callers of Send and SendAsync, send queues with
    sender tasks that serve them, and one shared table of results.  A `Server` makes a new
    queue with one sender for every accepted connection, and a peer that connects again
    leaves its old queue behind.  A `Client` has one queue, and one more sender on it each
    time connecting has failed. */
module SendSteps {
  type MessageId = nat
  type CallerId = nat
  type QueueId = nat
  type SenderId = nat
  type Endpoint = string
  type Payload = string

  datatype Msg = Msg(id: MessageId, payload: Payload, isAsync: bool)

  /** Who asked for a message to be sent; history. */
  datatype Request = Request(caller: CallerId, payload: Payload, isAsync: bool)

  /** The last send() call made for a message: the bytes it was given and its result. */
  datatype Outcome = Outcome(payload: Payload, result: int)

  datatype CallerPc =
    | Dispatching(msg: Msg, destination: Endpoint)   // has its id, has not pushed yet
    | Testing(id: MessageId)                         // about to look into the table
    | Asleep(id: MessageId)                          // blocked on send_results_updated_

  datatype SenderPc = Idle | Sending(msg: Msg) | OwesNotify

  /** Where a message is; history, kept to state that it is in one place only. */
  datatype Place =
    | AtCaller | Queued(q: QueueId) | InFlight(k: SenderId) | InTable(k: SenderId)
    | Collected | SentAsync | Refused

  datatype State = State(
    nextId: nat,                            // message_id_; not modelled: its wrap after 2^64 messages
    queueOf: map<Endpoint, QueueId>,        // send_queues_
    queues: map<QueueId, seq<Msg>>,
    senders: map<SenderId, SenderPc>,       // all sender tasks ever started
    serves: map<SenderId, QueueId>,         // the queue each of them was given
    results: map<MessageId, int>,           // send_results_
    callers: map<CallerId, CallerPc>,
    requests: map<MessageId, Request>,      // history
    outcomes: map<MessageId, Outcome>,      // history
    returned: map<MessageId, int>,          // history: what Send returned
    place: map<MessageId, Place>)           // history

  predicate Init(s: State) {
    && s.nextId == 0 && s.queueOf == map[] && s.queues == map[] && s.senders == map[] && s.serves == map[]
    && s.results == map[] && s.callers == map[] && s.requests == map[]
    && s.outcomes == map[] && s.returned == map[] && s.place == map[]
  }

  datatype Event =
    | Connect(e: Endpoint, q: QueueId)      // an endpoint gets a new queue
    | StartSender(k: SenderId, q: QueueId)  // a queue gets a sender, perhaps one more
    | Begin(c: CallerId, e: Endpoint, payload: Payload, isAsync: bool)
    | Refuse(c: CallerId)                   // the message does not serialize
    | Push(c: CallerId)
    | Look(c: CallerId)
    | Spurious(c: CallerId)
    | Take(k: SenderId)
    | Retry(k: SenderId)                     // send() timed out
    | Finish(k: SenderId, result: int)       // send() succeeded or failed for good
    | NotifyAll(k: SenderId)

  predicate Enabled(s: State, ev: Event) {
    match ev
    case Connect(e, q) => q !in s.queues
    case StartSender(k, q) => k !in s.senders && q in s.queues
    case Begin(c, e, p, a) => c !in s.callers
    case Refuse(c) => c in s.callers && s.callers[c].Dispatching?
    case Push(c) => c in s.callers && s.callers[c].Dispatching? &&
        (s.callers[c].destination in s.queueOf ==> s.queueOf[s.callers[c].destination] in s.queues)
    case Look(c) => c in s.callers && s.callers[c].Testing?
    case Spurious(c) => c in s.callers && s.callers[c].Asleep?
    case Take(k) =>
      && k in s.senders && s.senders[k].Idle? && k in s.serves
      && s.serves[k] in s.queues && s.queues[s.serves[k]] != []
    case Retry(k) => k in s.senders && s.senders[k].Sending? && k in s.serves && s.serves[k] in s.queues
    case Finish(k, r) => k in s.senders && s.senders[k].Sending?
    case NotifyAll(k) => k in s.senders && s.senders[k].OwesNotify?
  }

  function Apply(s: State, ev: Event): State
    requires Enabled(s, ev)
  {
    match ev
    case Connect(e, q) =>
      s.(queueOf := s.queueOf[e := q], queues := s.queues[q := []])
    case StartSender(k, q) =>
      s.(senders := s.senders[k := Idle], serves := s.serves[k := q])
    case Begin(c, e, p, a) =>
      var id := s.nextId + 1;
      s.(nextId := id, callers := s.callers[c := Dispatching(Msg(id, p, a), e)],
         requests := s.requests[id := Request(c, p, a)], place := s.place[id := AtCaller])
    case Refuse(c) =>
      s.(callers := s.callers - {c}, place := s.place[s.callers[c].msg.id := Refused])
    case Push(c) =>
      var m, e := s.callers[c].msg, s.callers[c].destination;
      if e !in s.queueOf then
        s.(callers := s.callers - {c}, place := s.place[m.id := Refused])
      else
        var q := s.queueOf[e];
        s.(queues := s.queues[q := s.queues[q] + [m]], place := s.place[m.id := Queued(q)],
           callers := if m.isAsync then s.callers - {c} else s.callers[c := Testing(m.id)])
    case Look(c) =>
      var id := s.callers[c].id;
      if id in s.results then
        s.(results := s.results - {id}, callers := s.callers - {c},
           returned := s.returned[id := s.results[id]], place := s.place[id := Collected])
      else s.(callers := s.callers[c := Asleep(id)])
    case Spurious(c) =>
      s.(callers := s.callers[c := Testing(s.callers[c].id)])
    case Take(k) =>
      var q := s.serves[k];
      var m := s.queues[q][0];
      s.(queues := s.queues[q := s.queues[q][1..]], senders := s.senders[k := Sending(m)],
         place := s.place[m.id := InFlight(k)])
    case Retry(k) =>
      var m, q := s.senders[k].msg, s.serves[k];
      s.(queues := s.queues[q := s.queues[q] + [m]], senders := s.senders[k := Idle],
         place := s.place[m.id := Queued(q)])
    case Finish(k, r) =>
      var m := s.senders[k].msg;
      var t := s.(outcomes := s.outcomes[m.id := Outcome(m.payload, r)]);
      if m.isAsync then
        t.(senders := t.senders[k := Idle], place := t.place[m.id := SentAsync])
      else
        t.(senders := t.senders[k := OwesNotify], results := t.results[m.id := r],
           place := t.place[m.id := InTable(k)])
    case NotifyAll(k) =>
      s.(senders := s.senders[k := Idle],
         callers := map c | c in s.callers ::
           if s.callers[c].Asleep? then Testing(s.callers[c].id) else s.callers[c])
  }

  predicate IsRun(states: seq<State>, events: seq<Event>) {
    && |states| == |events| + 1 && Init(states[0])
    && forall i :: 0 <= i < |events| ==> Enabled(states[i], events[i]) && states[i + 1] == Apply(states[i], events[i])
  }
}
