/** What the send path guarantees its callers, over every run: any number of callers and
    connections and senders, any interleaving, any number of timed-out sends that are queued again. */
module SendGuarantees {
  import opened SendSteps
  import opened SendTheorems

  // Where a message can be seen, without the history.

  predicate HeldByCaller(s: State, id: MessageId) {
    exists c :: c in s.callers && s.callers[c].Dispatching? && s.callers[c].msg.id == id
  }

  predicate InSomeQueue(s: State, id: MessageId) {
    exists q :: q in s.queues && InQueue(s.queues[q], id)
  }

  predicate BeingSent(s: State, id: MessageId) {
    exists k :: k in s.senders && s.senders[k].Sending? && s.senders[k].msg.id == id
  }

  function One(b: bool): nat { if b then 1 else 0 }

  lemma SeenWhereItIs(s: State, id: MessageId)
    requires Inv(s) && id in s.place
    ensures HeldByCaller(s, id) <==> s.place[id].AtCaller?
    ensures InSomeQueue(s, id) <==> s.place[id].Queued?
    ensures BeingSent(s, id) <==> s.place[id].InFlight?
    ensures id in s.results <==> s.place[id].InTable?
    ensures id in s.returned <==> s.place[id].Collected?
  {
    assert id in s.requests;
    CallerSeen(s, id);
    QueueSeen(s, id);
    hide QueuesOk, DispatchersOk, WaitersOk, HeldByCaller, InSomeQueue;
    if s.place[id].InFlight? {
      var k := s.place[id].k;
      assert k in s.senders && s.senders[k].Sending? && s.senders[k].msg.id == id;
    }
  }

  lemma CallerSeen(s: State, id: MessageId)
    requires Inv(s) && id in s.place && id in s.requests
    ensures HeldByCaller(s, id) <==> s.place[id].AtCaller?
  {
    hide QueuesOk, SendersOk, TableOk, WaitersOk;
    if s.place[id].AtCaller? {
      var c := s.requests[id].caller;
      assert c in s.callers && s.callers[c].Dispatching? && s.callers[c].msg.id == id;
    }
  }

  lemma QueueSeen(s: State, id: MessageId)
    requires Inv(s) && id in s.place
    ensures InSomeQueue(s, id) <==> s.place[id].Queued?
    ensures forall q :: q in s.queues && InQueue(s.queues[q], id) ==> s.place[id] == Queued(q)
    ensures forall q :: q in s.queues ==> Distinct(s.queues[q])
  {
    hide DispatchersOk, SendersOk, TableOk, WaitersOk;
    forall q | q in s.queues && InQueue(s.queues[q], id) ensures s.place[id] == Queued(q) {
      var i :| 0 <= i < |s.queues[q]| && s.queues[q][i].id == id;
      assert s.queues[q][i] in s.queues[q];
    }
    if s.place[id].Queued? {
      assert InQueue(s.queues[s.place[id].q], id);
    }
  }

  /** Every message ever given an id is in at most one place: at its caller, in one queue and
      there once, with one sender, in the table, or collected.  A synchronous one that was
      not refused is in exactly one of them. */
  lemma ExactlyOnePlace(states: seq<State>, events: seq<Event>, i: nat, id: MessageId)
    requires IsRun(states, events) && i < |states| && 1 <= id <= states[i].nextId
    ensures var s := states[i];
      var places := One(HeldByCaller(s, id)) + One(InSomeQueue(s, id)) + One(BeingSent(s, id))
                  + One(id in s.results) + One(id in s.returned);
      && id in s.place && id in s.requests
      && places <= 1
      && (!s.requests[id].isAsync && s.place[id] != Refused ==> places == 1)
      && (forall q, r :: q in s.queues && r in s.queues && InQueue(s.queues[q], id) && InQueue(s.queues[r], id) ==>
            q == r)
      && (forall q :: q in s.queues ==> Distinct(s.queues[q]))
  {
    hide Enabled, Apply, HeldByCaller, InSomeQueue, BeingSent, InQueue;
    RunInv(states, events, i);
    var s := states[i];
    assert id in s.place;
    SeenWhereItIs(s, id);
    QueueSeen(s, id);
  }

  /** What Send returns is the result of the send() made for its own message, on the bytes
      its own caller gave it. */
  lemma OwnResult(states: seq<State>, events: seq<Event>, i: nat, id: MessageId)
    requires IsRun(states, events) && i < |states| && id in states[i].returned
    ensures var s := states[i];
      && id in s.requests && !s.requests[id].isAsync
      && id in s.outcomes && s.returned[id] == s.outcomes[id].result
      && s.outcomes[id].payload == s.requests[id].payload
  {
    hide Enabled, Apply;
    RunInv(states, events, i);
    hide QueuesOk, SendersOk, DispatchersOk, WaitersOk, WakeUpsOk;
  }

  /** A result is collected only by the caller that asked for the message. */
  lemma CollectedByItsCaller(states: seq<State>, events: seq<Event>, i: nat, c: CallerId)
    requires IsRun(states, events) && i < |events|
    requires events[i] == Look(c) && states[i].callers[c].id in states[i].results
    ensures var s, t, id := states[i], states[i + 1], states[i].callers[c].id;
      && id in s.requests && s.requests[id].caller == c
      && c !in t.callers && id !in t.results && id in t.returned && t.returned[id] == s.results[id]
  {
    RunInv(states, events, i);
    hide QueuesOk, SendersOk, DispatchersOk, TableOk, WakeUpsOk;
  }

  lemma OutcomePlace(s: State, id: MessageId)
    requires Inv(s) && id in s.outcomes
    ensures id in s.place && InResults(s.place[id])
  {
    hide QueuesOk, SendersOk, DispatchersOk, WaitersOk, WakeUpsOk;
  }

  lemma InFlightPlace(s: State, k: SenderId)
    requires Inv(s) && k in s.senders && s.senders[k].Sending?
    ensures s.senders[k].msg.id in s.place && s.place[s.senders[k].msg.id].InFlight?
  {
    SenderPlace(s, k);
  }

  /** Only a finished send() records an outcome, of its own message. */
  lemma PushOutcomes(s: State, c: CallerId)
    requires Enabled(s, Push(c))
    ensures Apply(s, Push(c)).outcomes == s.outcomes
  {
    if s.callers[c].destination in s.queueOf {
      assert Apply(s, Push(c)).outcomes == s.outcomes;
    }
  }

  lemma LookOutcomes(s: State, c: CallerId)
    requires Enabled(s, Look(c))
    ensures Apply(s, Look(c)).outcomes == s.outcomes
  {
    if s.callers[c].id in s.results {
      assert Apply(s, Look(c)).outcomes == s.outcomes;
    }
  }

  lemma OtherOutcomes(s: State, ev: Event)
    requires Enabled(s, ev) && !ev.Finish? && !ev.Push? && !ev.Look?
    ensures Apply(s, ev).outcomes == s.outcomes
  {
  }

  lemma FinishOutcome(s: State, k: SenderId, r: int)
    requires Enabled(s, Finish(k, r))
    ensures var m := s.senders[k].msg;
      Apply(s, Finish(k, r)).outcomes == s.outcomes[m.id := Outcome(m.payload, r)]
  {
  }

  lemma OutcomeStep(s: State, ev: Event, id: MessageId)
    requires Inv(s) && Enabled(s, ev) && id in s.outcomes
    ensures var t := Apply(s, ev); id in t.outcomes && t.outcomes[id] == s.outcomes[id]
  {
    hide Inv, Apply;
    OutcomePlace(s, id);
    match ev
    case Finish(k, r) =>
      InFlightPlace(s, k);
      FinishOutcome(s, k, r);
    case Push(c) => PushOutcomes(s, c);
    case Look(c) => LookOutcomes(s, c);
    case _ => OtherOutcomes(s, ev);
  }

  /** No message is sent again once its send() has succeeded or failed for good. */
  lemma {:induction false} SentOnce(states: seq<State>, events: seq<Event>, i: nat, j: nat, id: MessageId)
    requires IsRun(states, events) && i <= j < |states| && id in states[i].outcomes
    ensures id in states[j].outcomes && states[j].outcomes[id] == states[i].outcomes[id]
  {
    hide Enabled, Apply, Inv;
    if i < j {
      SentOnce(states, events, i, j - 1, id);
      RunInv(states, events, j - 1);
      OutcomeStep(states[j - 1], events[j - 1], id);
    }
  }

  /** The table holds only results that a caller is still waiting to collect, so at most one
      per caller. */
  lemma TableHoldsOnlyAwaited(states: seq<State>, events: seq<Event>, i: nat)
    requires IsRun(states, events) && i < |states|
    ensures var s := states[i];
      && (forall id :: id in s.results ==>
            id in s.requests && s.requests[id].caller in s.callers && WaitsFor(s.callers[s.requests[id].caller], id))
      && |s.results| <= |s.callers|
  {
    hide Enabled, Apply;
    RunInv(states, events, i);
    var s := states[i];
    hide QueuesOk, SendersOk, DispatchersOk, WakeUpsOk;
    forall id | id in s.results
      ensures id in s.requests && s.requests[id].caller in s.callers && WaitsFor(s.callers[s.requests[id].caller], id)
    {
      ResultAwaited(s, id);
    }
    Injects(s.results.Keys, s.callers);
  }

  lemma ResultAwaited(s: State, id: MessageId)
    requires Inv(s) && id in s.results
    ensures id in s.requests && s.requests[id].caller in s.callers && WaitsFor(s.callers[s.requests[id].caller], id)
  {
    hide QueuesOk, SendersOk, DispatchersOk, WakeUpsOk;
  }

  /** Callers each wait for one id, so a set of awaited ids is no larger than the callers. */
  lemma {:induction false} Injects(ids: set<MessageId>, callers: map<CallerId, CallerPc>)
    requires forall id :: id in ids ==> exists c :: c in callers && WaitsFor(callers[c], id)
    ensures |ids| <= |callers|
    decreases ids
  {
    if ids != {} {
      var id :| id in ids;
      var c :| c in callers && WaitsFor(callers[c], id);
      var fewer := callers - {c};
      assert callers.Keys == fewer.Keys + {c} && |callers| == |callers.Keys| && |fewer| == |fewer.Keys|;
      forall k | k in ids - {id} ensures exists d :: d in fewer && WaitsFor(fewer[d], k) {
        var d :| d in callers && WaitsFor(callers[d], k);
        assert d in fewer && WaitsFor(fewer[d], k);
      }
      Injects(ids - {id}, fewer);
    }
  }

  /** A caller asleep although its result is there is owed a notify_all. */
  lemma NoLostResult(states: seq<State>, events: seq<Event>, i: nat, c: CallerId)
    requires IsRun(states, events) && i < |states|
    requires c in states[i].callers && states[i].callers[c].Asleep? && states[i].callers[c].id in states[i].results
    ensures exists k :: k in states[i].senders && states[i].senders[k].OwesNotify?
  {
    hide Enabled, Apply;
    RunInv(states, events, i);
    hide QueuesOk, SendersOk, DispatchersOk, WaitersOk;
  }
}
