/** What the send path's answers have to do with the calls of a run: whose send() a result comes
    from, which queue a message goes to, and which message a sender takes. */
module SendHistory {
  import opened Basics
  import opened SendSteps
  import opened SendTheorems
  import opened SendGuarantees

  lemma OneMoreEvent(events: seq<Event>, i: nat)
    requires i < |events|
    ensures events[..i + 1][..|events[..i + 1]| - 1] == events[..i] && events[..i + 1][i] == events[i]
  {
  }

  // ---------- whose result it is ----------

  /** Event `b` is the call that was given id `id`. */
  predicate Asked(states: seq<State>, events: seq<Event>, b: nat, id: MessageId, r: Request)
    requires |states| > |events|
  {
    && b < |events| && events[b].Begin? && states[b].nextId + 1 == id
    && r == Request(events[b].c, events[b].payload, events[b].isAsync)
  }

  /** Event `j` is a send() of message `id`, with these bytes, that came to this result. */
  predicate Answered(states: seq<State>, events: seq<Event>, j: nat, id: MessageId, o: Outcome)
    requires |states| > |events|
  {
    && j < |events| && events[j].Finish? && events[j].k in states[j].senders
    && states[j].senders[events[j].k].Sending?
    && var m := states[j].senders[events[j].k].msg;
       m.id == id && o == Outcome(m.payload, events[j].result)
  }

  ghost predicate AskedBefore(states: seq<State>, events: seq<Event>, i: nat, id: MessageId, r: Request)
    requires |states| > |events|
  {
    exists b: nat :: b < i && Asked(states, events, b, id, r)
  }

  ghost predicate AnsweredBefore(states: seq<State>, events: seq<Event>, i: nat, id: MessageId, o: Outcome)
    requires |states| > |events|
  {
    exists j: nat :: j < i && Answered(states, events, j, id, o)
  }

  lemma BeforeLater(states: seq<State>, events: seq<Event>, i: nat, id: MessageId, r: Request, o: Outcome)
    requires |states| > |events|
    ensures AskedBefore(states, events, i, id, r) ==> AskedBefore(states, events, i + 1, id, r)
    ensures AnsweredBefore(states, events, i, id, o) ==> AnsweredBefore(states, events, i + 1, id, o)
  {
    hide Asked, Answered;
  }

  /** What a push, and a look into the table, leave alone. */
  lemma PushKeeps(s: State, c: CallerId)
    requires Enabled(s, Push(c))
    ensures var t := Apply(s, Push(c));
      && t.requests == s.requests && t.queueOf == s.queueOf && t.serves == s.serves
      && forall d :: d in t.callers && t.callers[d].Dispatching? ==> d in s.callers && s.callers[d] == t.callers[d]
  {
    var t := Apply(s, Push(c));
    if s.callers[c].destination in s.queueOf {
      assert t.requests == s.requests && t.queueOf == s.queueOf && t.serves == s.serves;
    } else {
      assert t.requests == s.requests && t.queueOf == s.queueOf && t.serves == s.serves;
    }
  }

  lemma LookKeeps(s: State, c: CallerId)
    requires Enabled(s, Look(c))
    ensures var t := Apply(s, Look(c));
      && t.requests == s.requests && t.queueOf == s.queueOf && t.serves == s.serves
      && forall d :: d in t.callers && t.callers[d].Dispatching? ==> d in s.callers && s.callers[d] == t.callers[d]
  {
    hide Apply;
    if s.callers[c].id in s.results {
      LookFinds(s, c);
    } else {
      LookMisses(s, c);
    }
  }

  lemma LookFinds(s: State, c: CallerId)
    requires Enabled(s, Look(c)) && s.callers[c].id in s.results
    ensures var t, id := Apply(s, Look(c)), s.callers[c].id;
      t == s.(results := s.results - {id}, callers := s.callers - {c},
              returned := s.returned[id := s.results[id]], place := s.place[id := Collected])
  {
  }

  lemma LookMisses(s: State, c: CallerId)
    requires Enabled(s, Look(c)) && s.callers[c].id !in s.results
    ensures Apply(s, Look(c)) == s.(callers := s.callers[c := Asleep(s.callers[c].id)])
  {
  }

  lemma FinishKeeps(s: State, k: SenderId, r: int)
    requires Enabled(s, Finish(k, r))
    ensures var t := Apply(s, Finish(k, r));
      t.requests == s.requests && t.queueOf == s.queueOf && t.serves == s.serves && t.callers == s.callers
  {
    hide Apply;
    if s.senders[k].msg.isAsync {
      FinishIsAsync(s, k, r);
    } else {
      FinishIsSync(s, k, r);
    }
  }

  lemma FinishIsAsync(s: State, k: SenderId, r: int)
    requires Enabled(s, Finish(k, r)) && s.senders[k].msg.isAsync
    ensures var m := s.senders[k].msg;
      Apply(s, Finish(k, r)) == s.(outcomes := s.outcomes[m.id := Outcome(m.payload, r)],
                                   senders := s.senders[k := Idle], place := s.place[m.id := SentAsync])
  {
  }

  lemma FinishIsSync(s: State, k: SenderId, r: int)
    requires Enabled(s, Finish(k, r)) && !s.senders[k].msg.isAsync
    ensures var m := s.senders[k].msg;
      Apply(s, Finish(k, r)) == s.(outcomes := s.outcomes[m.id := Outcome(m.payload, r)],
                                   senders := s.senders[k := OwesNotify], results := s.results[m.id := r],
                                   place := s.place[m.id := InTable(k)])
  {
  }

  predicate Simple(ev: Event) { !ev.Push? && !ev.Look? && !ev.Finish? }

  lemma SimpleRequests(s: State, ev: Event, id: MessageId)
    requires Enabled(s, ev) && Simple(ev) && id in Apply(s, ev).requests
    ensures var r := Apply(s, ev).requests[id];
      || (id in s.requests && r == s.requests[id])
      || (ev.Begin? && id == s.nextId + 1 && r == Request(ev.c, ev.payload, ev.isAsync))
  {
  }

  /** How a step changes requests and outcomes. */
  lemma RequestsStep(s: State, ev: Event, id: MessageId)
    requires Enabled(s, ev) && id in Apply(s, ev).requests
    ensures var r := Apply(s, ev).requests[id];
      || (id in s.requests && r == s.requests[id])
      || (ev.Begin? && id == s.nextId + 1 && r == Request(ev.c, ev.payload, ev.isAsync))
  {
    hide Apply;
    match ev
    case Look(c) => LookKeeps(s, c);
    case Push(c) => PushKeeps(s, c);
    case Finish(k, r) => FinishKeeps(s, k, r);
    case _ => SimpleRequests(s, ev, id);
  }

  lemma OutcomesStep(s: State, ev: Event, id: MessageId)
    requires Enabled(s, ev) && id in Apply(s, ev).outcomes
    ensures var o := Apply(s, ev).outcomes[id];
      || (id in s.outcomes && o == s.outcomes[id])
      || (ev.Finish? && id == s.senders[ev.k].msg.id && o == Outcome(s.senders[ev.k].msg.payload, ev.result))
  {
    hide Apply;
    match ev
    case Finish(k, r) => FinishOutcome(s, k, r);
    case Push(c) => PushOutcomes(s, c);
    case Look(c) => LookOutcomes(s, c);
    case _ => OtherOutcomes(s, ev);
  }

  lemma {:induction false} AllAsked(states: seq<State>, events: seq<Event>, i: nat, id: MessageId)
    requires IsRun(states, events) && i < |states| && id in states[i].requests
    ensures AskedBefore(states, events, i, id, states[i].requests[id])
  {
    hide Enabled, Apply, AskedBefore;
    if i > 0 {
      var s, ev, r := states[i - 1], events[i - 1], states[i].requests[id];
      RequestsStep(s, ev, id);
      if id in s.requests && r == s.requests[id] {
        AllAsked(states, events, i - 1, id);
        BeforeLater(states, events, i - 1, id, r, Outcome("", 0));
      } else {
        AskedNow(states, events, i - 1, id, r);
      }
    }
  }

  lemma AskedNow(states: seq<State>, events: seq<Event>, b: nat, id: MessageId, r: Request)
    requires |states| > |events| && Asked(states, events, b, id, r)
    ensures AskedBefore(states, events, b + 1, id, r)
  {
  }

  lemma AnsweredNow(states: seq<State>, events: seq<Event>, j: nat, id: MessageId, o: Outcome)
    requires |states| > |events| && Answered(states, events, j, id, o)
    ensures AnsweredBefore(states, events, j + 1, id, o)
  {
  }

  lemma {:induction false} AllAnswered(states: seq<State>, events: seq<Event>, i: nat, id: MessageId)
    requires IsRun(states, events) && i < |states| && id in states[i].outcomes
    ensures AnsweredBefore(states, events, i, id, states[i].outcomes[id])
  {
    hide Apply, AnsweredBefore;
    if i > 0 {
      var s, ev, o := states[i - 1], events[i - 1], states[i].outcomes[id];
      OutcomesStep(s, ev, id);
      if id in s.outcomes && o == s.outcomes[id] {
        AllAnswered(states, events, i - 1, id);
        BeforeLater(states, events, i - 1, id, Request(0, "", false), o);
      } else {
        AnsweredNow(states, events, i - 1, id, o);
      }
    }
  }

  /** What Send returns is the result of a send() of the very bytes that its own call passed,
      made under the id that this call was given. */
  lemma ReturnsItsOwnAnswer(states: seq<State>, events: seq<Event>, i: nat, id: MessageId)
    requires IsRun(states, events) && i < |states| && id in states[i].returned
    ensures exists b: nat, c: CallerId, payload: Payload, j: nat ::
      && b < i && Asked(states, events, b, id, Request(c, payload, false))
      && j < i && Answered(states, events, j, id, Outcome(payload, states[i].returned[id]))
  {
    hide Enabled, Apply, Asked, Answered;
    var s := states[i];
    OwnResult(states, events, i, id);
    AllAsked(states, events, i, id);
    AllAnswered(states, events, i, id);
    var b: nat :| b < i && Asked(states, events, b, id, s.requests[id]);
    var j: nat :| j < i && Answered(states, events, j, id, s.outcomes[id]);
    var r := s.requests[id];
    assert r == Request(r.caller, r.payload, false) && s.outcomes[id] == Outcome(r.payload, s.returned[id]);
  }

  // ---------- which queue, which message ----------

  /** The queue that endpoint `e` was given when it connected last. */
  function LatestQueue(events: seq<Event>, e: Endpoint): Option<QueueId> {
    if events == [] then None else
      var last := events[|events| - 1];
      if last.Connect? && last.e == e then Some(last.q) else LatestQueue(events[..|events| - 1], e)
  }

  /** The queue that sender `k` was started on. */
  function ServedQueue(events: seq<Event>, k: SenderId): Option<QueueId> {
    if events == [] then None else
      var last := events[|events| - 1];
      if last.StartSender? && last.k == k then Some(last.q) else ServedQueue(events[..|events| - 1], k)
  }

  /** The latest call of caller `c`. */
  function LatestCall(events: seq<Event>, c: CallerId): Option<Event> {
    if events == [] then None else
      var last := events[|events| - 1];
      if last.Begin? && last.c == c then Some(last) else LatestCall(events[..|events| - 1], c)
  }

  ghost predicate Routes(s: State, events: seq<Event>) {
    && (forall e ::
          LatestQueue(events, e) == if e in s.queueOf then Some(s.queueOf[e]) else None)
    && (forall k :: k in s.serves ==> ServedQueue(events, k) == Some(s.serves[k]))
    && (forall c :: c in s.callers && s.callers[c].Dispatching? ==>
          var p := s.callers[c];
          LatestCall(events, c) == Some(Begin(c, p.destination, p.msg.payload, p.msg.isAsync)))
  }

  lemma SimpleCallers(s: State, ev: Event, c: CallerId)
    requires Enabled(s, ev) && Simple(ev) && c in Apply(s, ev).callers && Apply(s, ev).callers[c].Dispatching?
    ensures var p := Apply(s, ev).callers[c];
      if ev.Begin? && ev.c == c then
        p.destination == ev.e && p.msg.payload == ev.payload && p.msg.isAsync == ev.isAsync
      else c in s.callers && s.callers[c] == p
  {
  }

  lemma CallersStep(s: State, ev: Event, c: CallerId)
    requires Enabled(s, ev) && c in Apply(s, ev).callers && Apply(s, ev).callers[c].Dispatching?
    ensures var p := Apply(s, ev).callers[c];
      if ev.Begin? && ev.c == c then
        p.destination == ev.e && p.msg.payload == ev.payload && p.msg.isAsync == ev.isAsync
      else c in s.callers && s.callers[c] == p
  {
    hide Apply;
    match ev
    case Look(d) => LookKeeps(s, d);
    case Push(d) => PushKeeps(s, d);
    case Finish(k, r) => FinishKeeps(s, k, r);
    case _ => SimpleCallers(s, ev, c);
  }

  lemma SimpleQueuesOf(s: State, ev: Event)
    requires Enabled(s, ev) && Simple(ev)
    ensures Apply(s, ev).queueOf == (if ev.Connect? then s.queueOf[ev.e := ev.q] else s.queueOf)
    ensures Apply(s, ev).serves == (if ev.StartSender? then s.serves[ev.k := ev.q] else s.serves)
  {
  }

  lemma QueuesOfStep(s: State, ev: Event)
    requires Enabled(s, ev)
    ensures Apply(s, ev).queueOf == (if ev.Connect? then s.queueOf[ev.e := ev.q] else s.queueOf)
    ensures Apply(s, ev).serves == (if ev.StartSender? then s.serves[ev.k := ev.q] else s.serves)
  {
    hide Apply;
    match ev
    case Look(c) => LookKeeps(s, c);
    case Push(c) => PushKeeps(s, c);
    case Finish(k, r) => FinishKeeps(s, k, r);
    case _ => SimpleQueuesOf(s, ev);
  }

  lemma RoutesStep(s: State, ev: Event, events: seq<Event>)
    requires Enabled(s, ev) && Routes(s, events)
    ensures Routes(Apply(s, ev), events + [ev])
  {
    hide Enabled, Apply;
    QueuesOfStep(s, ev);
    var all := events + [ev];
    assert all[..|all| - 1] == events && all[|all| - 1] == ev;
    forall c | c in Apply(s, ev).callers && Apply(s, ev).callers[c].Dispatching?
      ensures var p := Apply(s, ev).callers[c];
        LatestCall(all, c) == Some(Begin(c, p.destination, p.msg.payload, p.msg.isAsync))
    {
      CallersStep(s, ev, c);
    }
  }

  lemma {:induction false} AlwaysRoutes(states: seq<State>, events: seq<Event>, i: nat)
    requires IsRun(states, events) && i < |states|
    ensures Routes(states[i], events[..i])
  {
    hide Enabled, Apply;
    if i > 0 {
      AlwaysRoutes(states, events, i - 1);
      hide Routes;
      RoutesStep(states[i - 1], events[i - 1], events[..i - 1]);
      assert events[..i] == events[..i - 1] + [events[i - 1]];
    }
  }

  lemma PushStep(s: State, c: CallerId)
    requires Inv(s) && Enabled(s, Push(c))
    ensures var t, m, e := Apply(s, Push(c)), s.callers[c].msg, s.callers[c].destination;
      if e in s.queueOf then t.queues == s.queues[s.queueOf[e] := s.queues[s.queueOf[e]] + [m]]
      else t.queues == s.queues
  {
  }

  /** A message goes, with the bytes its caller passed, to the end of the queue that its
      destination was given when it connected last, and nowhere if it never did; and nothing
      else is queued or removed. */
  lemma PushedToLatestQueue(states: seq<State>, events: seq<Event>, i: nat, c: CallerId)
    requires IsRun(states, events) && i < |events| && events[i] == Push(c)
    ensures LatestCall(events[..i], c).Some? && LatestCall(events[..i], c).value.Begin?
    ensures var call, s, t := LatestCall(events[..i], c).value, states[i], states[i + 1];
      match LatestQueue(events[..i], call.e)
      case None => t.queues == s.queues
      case Some(q) =>
        && q in s.queues && t.queues.Keys == s.queues.Keys
        && (exists id :: t.queues[q] == s.queues[q] + [Msg(id, call.payload, call.isAsync)])
        && forall r :: r in s.queues && r != q ==> t.queues[r] == s.queues[r]
  {
    hide Apply;
    var s := states[i];
    RunInv(states, events, i);
    AlwaysRoutes(states, events, i);
    PushStep(s, c);
    var m := s.callers[c].msg;
    assert m == Msg(m.id, m.payload, m.isAsync);
    hide Inv, Routes;
  }

  /** A sender takes the first message of the queue it was started on. */
  lemma TakesTheFirst(states: seq<State>, events: seq<Event>, i: nat, k: SenderId)
    requires IsRun(states, events) && i < |events| && events[i] == Take(k)
    ensures ServedQueue(events[..i], k).Some?
    ensures var s, t, q := states[i], states[i + 1], ServedQueue(events[..i], k).value;
      && q in s.queues && s.queues[q] != [] && q in t.queues && k in t.senders
      && t.senders[k] == Sending(s.queues[q][0]) && s.queues[q] == [s.queues[q][0]] + t.queues[q]
      && forall r :: r in s.queues && r != q ==> r in t.queues && t.queues[r] == s.queues[r]
  {
    AlwaysRoutes(states, events, i);
  }
}
