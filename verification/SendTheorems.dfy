/** Send results never cross: the invariant of the send path and what it means for callers. */
module SendTheorems {
  import opened SendSteps

  // Each group names the components it depends on.

  ghost predicate Ids(nextId: nat, place: map<MessageId, Place>, requests: map<MessageId, Request>) {
    && (forall id :: id in place <==> 1 <= id <= nextId)
    && requests.Keys == place.Keys
  }

  predicate Matches(m: Msg, requests: map<MessageId, Request>) {
    m.id in requests && requests[m.id].payload == m.payload && requests[m.id].isAsync == m.isAsync
  }

  predicate InQueue(q: seq<Msg>, id: MessageId) {
    exists i :: 0 <= i < |q| && q[i].id == id
  }

  ghost predicate Distinct(q: seq<Msg>) {
    forall i, j :: 0 <= i < j < |q| ==> q[i].id != q[j].id
  }

  ghost predicate QueuesOk(queueOf: map<Endpoint, QueueId>, queues: map<QueueId, seq<Msg>>,
                           place: map<MessageId, Place>, requests: map<MessageId, Request>)
  {
    && (forall e :: e in queueOf ==> queueOf[e] in queues)
    && (forall q :: q in queues ==> Distinct(queues[q]))
    && (forall q, m :: q in queues && m in queues[q] ==>
          Matches(m, requests) && m.id in place && place[m.id] == Queued(q))
    && (forall id :: id in place && place[id].Queued? ==> place[id].q in queues && InQueue(queues[place[id].q], id))
  }

  ghost predicate SendersOk(senders: map<SenderId, SenderPc>, place: map<MessageId, Place>,
                            requests: map<MessageId, Request>)
  {
    && (forall k :: k in senders && senders[k].Sending? ==>
          Matches(senders[k].msg, requests) && senders[k].msg.id in place && place[senders[k].msg.id] == InFlight(k))
    && (forall id :: id in place && place[id].InFlight? ==>
          place[id].k in senders && senders[place[id].k].Sending? && senders[place[id].k].msg.id == id)
  }

  ghost predicate TableOk(results: map<MessageId, int>, outcomes: map<MessageId, Outcome>,
                          returned: map<MessageId, int>,
                          place: map<MessageId, Place>, requests: map<MessageId, Request>)
  {
    && (forall id :: id in results <==> id in place && place[id].InTable?)
    && (forall id :: id in returned <==> id in place && place[id].Collected?)
    && (forall id :: id in outcomes <==>
          id in place && (place[id].InTable? || place[id].Collected? || place[id].SentAsync?))
    && (forall id :: id in outcomes ==> id in requests && outcomes[id].payload == requests[id].payload)
    && (forall id :: id in results ==> results[id] == outcomes[id].result)
    && (forall id :: id in returned ==> returned[id] == outcomes[id].result)
  }

  predicate WaitsFor(p: CallerPc, id: MessageId) { !p.Dispatching? && p.id == id }

  predicate OnItsWay(p: Place) { p.Queued? || p.InFlight? || p.InTable? }

  /** A message is at its caller exactly while that caller is dispatching it. */
  ghost predicate DispatchersOk(callers: map<CallerId, CallerPc>, place: map<MessageId, Place>,
                                requests: map<MessageId, Request>)
  {
    && (forall c :: c in callers && callers[c].Dispatching? ==>
          var m := callers[c].msg;
          Matches(m, requests) && m.id in place && place[m.id].AtCaller? && requests[m.id].caller == c)
    && (forall id :: id in place && id in requests && place[id].AtCaller? ==>
          var c := requests[id].caller;
          c in callers && callers[c].Dispatching? && callers[c].msg.id == id)
  }

  /** A synchronous message is on its way exactly while its caller waits for it. */
  ghost predicate WaitersOk(callers: map<CallerId, CallerPc>, place: map<MessageId, Place>,
                            requests: map<MessageId, Request>)
  {
    && (forall c :: c in callers && !callers[c].Dispatching? ==>
          var id := callers[c].id;
          id in requests && requests[id].caller == c && !requests[id].isAsync && id in place && OnItsWay(place[id]))
    && (forall id :: id in place && id in requests && OnItsWay(place[id]) && !requests[id].isAsync ==>
          requests[id].caller in callers && WaitsFor(callers[requests[id].caller], id))
  }

  /** Only synchronous messages go through the table. */
  ghost predicate SyncOnly(place: map<MessageId, Place>, requests: map<MessageId, Request>) {
    forall id :: id in place && id in requests ==>
      && (place[id].InTable? || place[id].Collected? ==> !requests[id].isAsync)
      && (place[id].SentAsync? ==> requests[id].isAsync)
  }

  ghost predicate WakeUpsOk(callers: map<CallerId, CallerPc>, senders: map<SenderId, SenderPc>,
                            place: map<MessageId, Place>)
  {
    forall c :: c in callers && callers[c].Asleep? && callers[c].id in place && place[callers[c].id].InTable? ==>
      place[callers[c].id].k in senders && senders[place[callers[c].id].k].OwesNotify?
  }

  ghost predicate Inv(s: State) {
    && Ids(s.nextId, s.place, s.requests)
    && QueuesOk(s.queueOf, s.queues, s.place, s.requests)
    && SendersOk(s.senders, s.place, s.requests)
    && TableOk(s.results, s.outcomes, s.returned, s.place, s.requests)
    && DispatchersOk(s.callers, s.place, s.requests)
    && WaitersOk(s.callers, s.place, s.requests)
    && SyncOnly(s.place, s.requests)
    && WakeUpsOk(s.callers, s.senders, s.place)
  }

  // ---------- moving one message ----------

  predicate Extends(requests: map<MessageId, Request>, more: map<MessageId, Request>) {
    forall id :: id in requests ==> id in more && more[id] == requests[id]
  }

  predicate InResults(p: Place) { p.InTable? || p.Collected? || p.SentAsync? }

  lemma MoveQueues(s: State, id: MessageId, p: Place, more: map<MessageId, Request>)
    requires QueuesOk(s.queueOf, s.queues, s.place, s.requests) && Extends(s.requests, more)
    requires !p.Queued? && (id in s.place ==> !s.place[id].Queued?)
    ensures QueuesOk(s.queueOf, s.queues, s.place[id := p], more)
  {
  }

  lemma MoveSenders(s: State, id: MessageId, p: Place, more: map<MessageId, Request>)
    requires SendersOk(s.senders, s.place, s.requests) && Extends(s.requests, more)
    requires !p.InFlight? && (id in s.place ==> !s.place[id].InFlight?)
    ensures SendersOk(s.senders, s.place[id := p], more)
  {
  }

  lemma MoveTable(s: State, id: MessageId, p: Place, more: map<MessageId, Request>)
    requires TableOk(s.results, s.outcomes, s.returned, s.place, s.requests) && Extends(s.requests, more)
    requires !InResults(p) && (id in s.place ==> !InResults(s.place[id]))
    ensures TableOk(s.results, s.outcomes, s.returned, s.place[id := p], more)
  {
  }

  lemma MoveDispatchers(s: State, id: MessageId, p: Place)
    requires DispatchersOk(s.callers, s.place, s.requests)
    requires !p.AtCaller? && (id in s.place ==> !s.place[id].AtCaller?)
    ensures DispatchersOk(s.callers, s.place[id := p], s.requests)
  {
  }

  lemma MoveWaiters(s: State, id: MessageId, p: Place)
    requires WaitersOk(s.callers, s.place, s.requests)
    requires id in s.place && id in s.requests && OnItsWay(s.place[id])
    requires OnItsWay(p) || s.requests[id].isAsync
    ensures WaitersOk(s.callers, s.place[id := p], s.requests)
  {
  }

  /** Appending one message to a queue. */
  lemma EnqueueOk(s: State, q: QueueId, m: Msg)
    requires QueuesOk(s.queueOf, s.queues, s.place, s.requests) && q in s.queues
    requires m.id in s.place && !s.place[m.id].Queued? && Matches(m, s.requests)
    ensures QueuesOk(s.queueOf, s.queues[q := s.queues[q] + [m]], s.place[m.id := Queued(q)], s.requests)
  {
    var was, now := s.queues[q], s.queues[q] + [m];
    assert Distinct(now) by {
      assert forall i :: 0 <= i < |was| ==> was[i] in was;
    }
    forall id | InQueue(was, id) ensures InQueue(now, id) {
      var i :| 0 <= i < |was| && was[i].id == id;
      assert now[i].id == id;
    }
    assert now[|was|].id == m.id;
  }

  /** The rest of a queue has the same messages, but for the first. */
  lemma RestOfQueue(was: seq<Msg>)
    requires was != [] && Distinct(was)
    ensures var now := was[1..];
      && Distinct(now) && (forall m :: m in now ==> m in was && m.id != was[0].id)
      && (forall id :: InQueue(now, id) <==> InQueue(was, id) && id != was[0].id)
  {
    var now := was[1..];
    forall m | m in now ensures m in was && m.id != was[0].id {
      var i :| 0 <= i < |now| && now[i] == m;
      assert was[i + 1] == m;
    }
    forall id ensures InQueue(now, id) <==> InQueue(was, id) && id != was[0].id {
      if i :| 0 <= i < |was| && was[i].id == id && id != was[0].id {
        assert now[i - 1].id == id;
      }
      if i :| 0 <= i < |now| && now[i].id == id {
        assert was[i + 1].id == id;
      }
    }
  }

  /** Taking the first message of a queue. */
  lemma DequeueOk(s: State, q: QueueId, k: SenderId)
    requires QueuesOk(s.queueOf, s.queues, s.place, s.requests) && q in s.queues && s.queues[q] != []
    ensures var m := s.queues[q][0];
      QueuesOk(s.queueOf, s.queues[q := s.queues[q][1..]], s.place[m.id := InFlight(k)], s.requests)
  {
    hide InQueue, Distinct;
    RestOfQueue(s.queues[q]);
    assert s.queues[q][0] in s.queues[q];
  }

  // ---------- preservation ----------

  lemma ConnectQueues(s: State, ev: Event)
    requires Inv(s) && Enabled(s, ev) && ev.Connect?
    ensures var t := Apply(s, ev); QueuesOk(t.queueOf, t.queues, t.place, t.requests)
  {
    hide Matches, InQueue, SendersOk, TableOk, DispatchersOk, WaitersOk, SyncOnly, WakeUpsOk;
  }

  lemma ConnectInv(s: State, ev: Event)
    requires Inv(s) && Enabled(s, ev) && ev.Connect?
    ensures Inv(Apply(s, ev))
  {
    hide Matches, QueuesOk, TableOk, DispatchersOk, WaitersOk;
    ConnectQueues(s, ev);
  }

  lemma StartSenderInv(s: State, ev: Event)
    requires Inv(s) && Enabled(s, ev) && ev.StartSender?
    ensures Inv(Apply(s, ev))
  {
    hide Matches, QueuesOk, TableOk, DispatchersOk, WaitersOk;
  }

  lemma BeginCallers(s: State, c: CallerId, m: Msg, e: Endpoint, r: Request)
    requires Ids(s.nextId, s.place, s.requests) && c !in s.callers
    requires m.id == s.nextId + 1 && r == Request(c, m.payload, m.isAsync)
    requires DispatchersOk(s.callers, s.place, s.requests) && WaitersOk(s.callers, s.place, s.requests)
    ensures var callers := s.callers[c := Dispatching(m, e)];
      && DispatchersOk(callers, s.place[m.id := AtCaller], s.requests[m.id := r])
      && WaitersOk(callers, s.place[m.id := AtCaller], s.requests[m.id := r])
  {
  }

  lemma BeginInv(s: State, ev: Event)
    requires Inv(s) && Enabled(s, ev) && ev.Begin?
    ensures Inv(Apply(s, ev))
  {
    hide QueuesOk, SendersOk, TableOk, DispatchersOk, WaitersOk;
    var t := Apply(s, ev);
    MoveQueues(s, t.nextId, AtCaller, t.requests);
    MoveSenders(s, t.nextId, AtCaller, t.requests);
    MoveTable(s, t.nextId, AtCaller, t.requests);
    BeginCallers(s, ev.c, Msg(t.nextId, ev.payload, ev.isAsync), ev.e, Request(ev.c, ev.payload, ev.isAsync));
  }

  lemma RefuseCallers(s: State, c: CallerId)
    requires c in s.callers && s.callers[c].Dispatching?
    requires DispatchersOk(s.callers, s.place, s.requests) && WaitersOk(s.callers, s.place, s.requests)
    ensures var id := s.callers[c].msg.id;
      && DispatchersOk(s.callers - {c}, s.place[id := Refused], s.requests)
      && WaitersOk(s.callers - {c}, s.place[id := Refused], s.requests)
  {
  }

  lemma RefuseOk(s: State, c: CallerId)
    requires Inv(s) && c in s.callers && s.callers[c].Dispatching?
    ensures Inv(s.(callers := s.callers - {c}, place := s.place[s.callers[c].msg.id := Refused]))
  {
    hide QueuesOk, SendersOk, TableOk, DispatchersOk, WaitersOk;
    var id := s.callers[c].msg.id;
    DispatcherPlace(s, c);
    MoveQueues(s, id, Refused, s.requests);
    MoveSenders(s, id, Refused, s.requests);
    MoveTable(s, id, Refused, s.requests);
    RefuseCallers(s, c);
  }

  lemma DispatcherPlace(s: State, c: CallerId)
    requires DispatchersOk(s.callers, s.place, s.requests) && c in s.callers && s.callers[c].Dispatching?
    ensures var m := s.callers[c].msg;
      Matches(m, s.requests) && m.id in s.place && s.place[m.id].AtCaller? && s.requests[m.id].caller == c
  {
  }

  lemma RefuseInv(s: State, ev: Event)
    requires Inv(s) && Enabled(s, ev) && ev.Refuse?
    ensures Inv(Apply(s, ev))
  {
    hide Inv;
    RefuseOk(s, ev.c);
  }

  lemma PushCallers(s: State, c: CallerId, q: QueueId)
    requires c in s.callers && s.callers[c].Dispatching?
    requires DispatchersOk(s.callers, s.place, s.requests) && WaitersOk(s.callers, s.place, s.requests)
    ensures var m := s.callers[c].msg;
      var callers := if m.isAsync then s.callers - {c} else s.callers[c := Testing(m.id)];
      && DispatchersOk(callers, s.place[m.id := Queued(q)], s.requests)
      && WaitersOk(callers, s.place[m.id := Queued(q)], s.requests)
  {
  }

  lemma PushOk(s: State, c: CallerId, q: QueueId)
    requires Inv(s) && c in s.callers && s.callers[c].Dispatching? && q in s.queues
    ensures var m := s.callers[c].msg;
      Inv(s.(queues := s.queues[q := s.queues[q] + [m]], place := s.place[m.id := Queued(q)],
             callers := if m.isAsync then s.callers - {c} else s.callers[c := Testing(m.id)]))
  {
    hide QueuesOk, SendersOk, TableOk, DispatchersOk, WaitersOk;
    var m := s.callers[c].msg;
    DispatcherPlace(s, c);
    EnqueueOk(s, q, m);
    MoveSenders(s, m.id, Queued(q), s.requests);
    MoveTable(s, m.id, Queued(q), s.requests);
    PushCallers(s, c, q);
  }

  lemma PushInv(s: State, ev: Event)
    requires Inv(s) && Enabled(s, ev) && ev.Push?
    ensures Inv(Apply(s, ev))
  {
    hide Inv;
    var e := s.callers[ev.c].destination;
    if e in s.queueOf {
      PushOk(s, ev.c, s.queueOf[e]);
    } else {
      RefuseOk(s, ev.c);
    }
  }

  lemma CollectTable(s: State, id: MessageId)
    requires TableOk(s.results, s.outcomes, s.returned, s.place, s.requests) && id in s.results
    ensures TableOk(s.results - {id}, s.outcomes, s.returned[id := s.results[id]], s.place[id := Collected],
                    s.requests)
  {
  }

  lemma CollectCallers(s: State, c: CallerId)
    requires c in s.callers && !s.callers[c].Dispatching?
    requires DispatchersOk(s.callers, s.place, s.requests) && WaitersOk(s.callers, s.place, s.requests)
    ensures var id := s.callers[c].id;
      && DispatchersOk(s.callers - {c}, s.place[id := Collected], s.requests)
      && WaitersOk(s.callers - {c}, s.place[id := Collected], s.requests)
  {
  }

  lemma WaiterPlace(s: State, c: CallerId)
    requires WaitersOk(s.callers, s.place, s.requests) && c in s.callers && !s.callers[c].Dispatching?
    ensures var id := s.callers[c].id;
      && id in s.place && OnItsWay(s.place[id])
      && id in s.requests && s.requests[id].caller == c && !s.requests[id].isAsync
  {
  }

  lemma ResultPlace(s: State, id: MessageId)
    requires TableOk(s.results, s.outcomes, s.returned, s.place, s.requests)
    ensures id in s.results <==> id in s.place && s.place[id].InTable?
  {
  }

  lemma CollectInv(s: State, ev: Event)
    requires Inv(s) && Enabled(s, ev) && ev.Look? && s.callers[ev.c].id in s.results
    ensures Inv(Apply(s, ev))
  {
    hide QueuesOk, SendersOk, TableOk, DispatchersOk, WaitersOk;
    var id := s.callers[ev.c].id;
    WaiterPlace(s, ev.c);
    ResultPlace(s, id);
    MoveQueues(s, id, Collected, s.requests);
    MoveSenders(s, id, Collected, s.requests);
    CollectTable(s, id);
    CollectCallers(s, ev.c);
  }

  lemma SwitchWaiter(s: State, c: CallerId, p: CallerPc)
    requires c in s.callers && !s.callers[c].Dispatching? && !p.Dispatching? && p.id == s.callers[c].id
    requires DispatchersOk(s.callers, s.place, s.requests) && WaitersOk(s.callers, s.place, s.requests)
    ensures DispatchersOk(s.callers[c := p], s.place, s.requests) && WaitersOk(s.callers[c := p], s.place, s.requests)
  {
  }

  lemma LookInv(s: State, ev: Event)
    requires Inv(s) && Enabled(s, ev) && ev.Look?
    ensures Inv(Apply(s, ev))
  {
    hide QueuesOk, SendersOk, TableOk, DispatchersOk, WaitersOk;
    var id := s.callers[ev.c].id;
    if id in s.results {
      CollectInv(s, ev);
    } else {
      ResultPlace(s, id);
      SwitchWaiter(s, ev.c, Asleep(id));
    }
  }

  lemma SpuriousInv(s: State, ev: Event)
    requires Inv(s) && Enabled(s, ev) && ev.Spurious?
    ensures Inv(Apply(s, ev))
  {
    hide QueuesOk, SendersOk, TableOk, DispatchersOk, WaitersOk;
    SwitchWaiter(s, ev.c, Testing(s.callers[ev.c].id));
  }

  lemma SenderPlace(s: State, k: SenderId)
    requires SendersOk(s.senders, s.place, s.requests) && k in s.senders && s.senders[k].Sending?
    ensures var m := s.senders[k].msg;
      Matches(m, s.requests) && m.id in s.place && s.place[m.id] == InFlight(k)
  {
  }

  lemma QueuePlace(s: State, q: QueueId)
    requires QueuesOk(s.queueOf, s.queues, s.place, s.requests) && q in s.queues && s.queues[q] != []
    ensures var m := s.queues[q][0];
      Matches(m, s.requests) && m.id in s.place && s.place[m.id] == Queued(q)
  {
    assert s.queues[q][0] in s.queues[q];
  }

  lemma TakeInv(s: State, ev: Event)
    requires Inv(s) && Enabled(s, ev) && ev.Take?
    ensures Inv(Apply(s, ev))
  {
    hide QueuesOk, TableOk, DispatchersOk, WaitersOk;
    var q := s.serves[ev.k];
    var m := s.queues[q][0];
    QueuePlace(s, q);
    DequeueOk(s, q, ev.k);
    MoveTable(s, m.id, InFlight(ev.k), s.requests);
    MoveDispatchers(s, m.id, InFlight(ev.k));
    MoveWaiters(s, m.id, InFlight(ev.k));
  }

  lemma RetryInv(s: State, ev: Event)
    requires Inv(s) && Enabled(s, ev) && ev.Retry?
    ensures Inv(Apply(s, ev))
  {
    hide QueuesOk, TableOk, DispatchersOk, WaitersOk;
    var m, q := s.senders[ev.k].msg, s.serves[ev.k];
    EnqueueOk(s, q, m);
    MoveTable(s, m.id, Queued(q), s.requests);
    MoveDispatchers(s, m.id, Queued(q));
    MoveWaiters(s, m.id, Queued(q));
  }

  lemma FinishTable(s: State, m: Msg, k: SenderId, r: int)
    requires TableOk(s.results, s.outcomes, s.returned, s.place, s.requests)
    requires Matches(m, s.requests) && m.id in s.place && s.place[m.id].InFlight?
    ensures var outcomes := s.outcomes[m.id := Outcome(m.payload, r)];
      && TableOk(s.results[m.id := r], outcomes, s.returned, s.place[m.id := InTable(k)], s.requests)
      && TableOk(s.results, outcomes, s.returned, s.place[m.id := SentAsync], s.requests)
  {
  }

  lemma FinishSenders(s: State, k: SenderId, p: Place, pc: SenderPc)
    requires SendersOk(s.senders, s.place, s.requests) && k in s.senders && s.senders[k].Sending?
    requires !p.InFlight? && !pc.Sending?
    ensures SendersOk(s.senders[k := pc], s.place[s.senders[k].msg.id := p], s.requests)
  {
  }

  lemma FinishAsync(s: State, k: SenderId, r: int)
    requires Inv(s) && k in s.senders && s.senders[k].Sending? && s.senders[k].msg.isAsync
    ensures var m := s.senders[k].msg;
      Inv(s.(outcomes := s.outcomes[m.id := Outcome(m.payload, r)], senders := s.senders[k := Idle],
             place := s.place[m.id := SentAsync]))
  {
    hide QueuesOk, SendersOk, TableOk, DispatchersOk, WaitersOk;
    var m := s.senders[k].msg;
    SenderPlace(s, k);
    MoveQueues(s, m.id, SentAsync, s.requests);
    FinishSenders(s, k, SentAsync, Idle);
    FinishTable(s, m, k, r);
    MoveDispatchers(s, m.id, SentAsync);
    MoveWaiters(s, m.id, SentAsync);
  }

  lemma FinishSync(s: State, k: SenderId, r: int)
    requires Inv(s) && k in s.senders && s.senders[k].Sending? && !s.senders[k].msg.isAsync
    ensures var m := s.senders[k].msg;
      Inv(s.(outcomes := s.outcomes[m.id := Outcome(m.payload, r)], senders := s.senders[k := OwesNotify],
             results := s.results[m.id := r], place := s.place[m.id := InTable(k)]))
  {
    hide QueuesOk, SendersOk, TableOk, DispatchersOk, WaitersOk;
    var m := s.senders[k].msg;
    SenderPlace(s, k);
    MoveQueues(s, m.id, InTable(k), s.requests);
    FinishSenders(s, k, InTable(k), OwesNotify);
    FinishTable(s, m, k, r);
    MoveDispatchers(s, m.id, InTable(k));
    MoveWaiters(s, m.id, InTable(k));
  }

  lemma FinishInv(s: State, ev: Event)
    requires Inv(s) && Enabled(s, ev) && ev.Finish?
    ensures Inv(Apply(s, ev))
  {
    hide Inv;
    if s.senders[ev.k].msg.isAsync {
      FinishAsync(s, ev.k, ev.result);
    } else {
      FinishSync(s, ev.k, ev.result);
    }
  }

  lemma NotifyDispatchers(s: State, ev: Event)
    requires DispatchersOk(s.callers, s.place, s.requests) && Enabled(s, ev) && ev.NotifyAll?
    ensures DispatchersOk(Apply(s, ev).callers, s.place, s.requests)
  {
  }

  lemma NotifyWaiters(s: State, ev: Event)
    requires WaitersOk(s.callers, s.place, s.requests) && Enabled(s, ev) && ev.NotifyAll?
    ensures WaitersOk(Apply(s, ev).callers, s.place, s.requests)
  {
  }

  lemma NotifyAllInv(s: State, ev: Event)
    requires Inv(s) && Enabled(s, ev) && ev.NotifyAll?
    ensures Inv(Apply(s, ev))
  {
    hide QueuesOk, TableOk, DispatchersOk, WaitersOk;
    NotifyDispatchers(s, ev);
    NotifyWaiters(s, ev);
  }

  lemma StepInv(s: State, ev: Event)
    requires Inv(s) && Enabled(s, ev)
    ensures Inv(Apply(s, ev))
  {
    hide Inv, Apply, Enabled;
    match ev
    case Connect(_, _) => ConnectInv(s, ev);
    case StartSender(_, _) => StartSenderInv(s, ev);
    case Begin(_, _, _, _) => BeginInv(s, ev);
    case Refuse(_) => RefuseInv(s, ev);
    case Push(_) => PushInv(s, ev);
    case Look(_) => LookInv(s, ev);
    case Spurious(_) => SpuriousInv(s, ev);
    case Take(_) => TakeInv(s, ev);
    case Retry(_) => RetryInv(s, ev);
    case Finish(_, _) => FinishInv(s, ev);
    case NotifyAll(_) => NotifyAllInv(s, ev);
  }

  lemma {:induction false} RunInv(states: seq<State>, events: seq<Event>, i: nat)
    requires IsRun(states, events) && i < |states|
    ensures Inv(states[i])
  {
    hide Apply, Enabled;
    if i > 0 {
      RunInv(states, events, i - 1);
      StepInv(states[i - 1], events[i - 1]);
    }
  }
}
