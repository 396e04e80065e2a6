/** Exactly-once multicast, stated on the events of a run. */
module MulticastTheorems {
  import opened CoordinatorSteps
  import opened CoordinatorTheorems

  /** In conforming runs there is exactly one messenger per connected participant, none for
      others, and the tables agree. */
  lemma OneMessengerPerConnected(states: seq<State>, events: seq<Event>, i: nat, p: Id)
    requires IsConformingRun(states, events) && i < |states|
    ensures TablesAgree(states[i].core)
    ensures |MessengersOf(states[i].core, p)| == if p in states[i].core.connected then 1 else 0
  {
    hide Apply, Enabled, Conforms;
    RunInv(states, events, i);
  }

  /** A broadcast's record, apart from who came back, never changes. */
  predicate SameBroadcast(a: Broadcast, b: Broadcast) {
    && a.text == b.text && a.origin == b.origin && a.time == b.time
    && a.connectedAt == b.connectedAt && a.registeredAt == b.registeredAt
  }

  lemma {:induction false} RecordStays(states: seq<State>, events: seq<Event>, i: nat, j: nat, u: nat)
    requires IsConformingRun(states, events) && i <= j < |states| && u < |states[i].broadcasts|
    ensures |states[i].broadcasts| <= |states[j].broadcasts|
    ensures SameBroadcast(states[i].broadcasts[u], states[j].broadcasts[u])
    ensures states[i].core.threshold == states[j].core.threshold
  {
    hide Enabled, Conforms;
    if i < j {
      RecordStays(states, events, i, j - 1, u);
    }
  }

  /** The record a multicast event leaves. */
  lemma RecordMade(states: seq<State>, events: seq<Event>, k: nat)
    requires IsConformingRun(states, events) && k < |events| && events[k].MulticastEvent?
    ensures var s, t := states[k], states[k + 1];
      var u := s.core.nextUid;
      && |s.broadcasts| == u && |t.broadcasts| == u + 1
      && t.broadcasts[u] == Broadcast(events[k].text, Lookup(s.core, events[k].sender).id, t.core.clock,
                                      s.core.connected, s.core.table.Keys, map[])
  {
    RunInv(states, events, k);
    hide Enabled, Conforms, LogOk, TimesOk, DeliveredOk, OneMessengerEach;
  }

  predicate IsReconnectOf(e: Event, p: Id) { e.ReconnectEvent? && e.id == p }

  /** No reconnection of `p` among the events from `k` up to `l`. */
  predicate NoReconnect(events: seq<Event>, k: nat, l: nat, p: Id)
    requires k <= l <= |events|
  {
    forall i :: k <= i < l ==> !IsReconnectOf(events[i], p)
  }

  /** For somebody registered but not connected at broadcast `k`, `firstBack` records the
      clock of the first reconnection after it. */
  lemma {:induction false} FirstBackIs(states: seq<State>, events: seq<Event>, k: nat, j: nat, p: Id)
    requires IsConformingRun(states, events) && k < j < |states| && events[k].MulticastEvent?
    requires p in states[k].core.table && p !in states[k].core.connected
    ensures var u := states[k].core.nextUid;
      && u < |states[j].broadcasts|
      && (p !in states[j].broadcasts[u].firstBack <==> NoReconnect(events, k + 1, j, p))
      && (forall l :: k < l < j && IsReconnectOf(events[l], p) && NoReconnect(events, k + 1, l, p) ==>
            && p in states[j].broadcasts[u].firstBack
            && states[j].broadcasts[u].firstBack[p] == states[l + 1].core.clock)
    decreases j
  {
    hide Enabled, Conforms;
    var u := states[k].core.nextUid;
    RecordMade(states, events, k);
    if k + 1 < j {
      FirstBackIs(states, events, k, j - 1, p);
      RecordStays(states, events, k + 1, j - 1, u);
      var b, c := states[j - 1].broadcasts[u], states[j].broadcasts[u];
      var e := events[j - 1];
      assert c == if e.ReconnectEvent? then NoteBack(b, e.id, states[j].core.clock) else b;
    }
  }

  /** Exactly-once multicast.  Event `k` of a conforming run is a multicast, and somebody is
      connected.  At every later point each participant has been sent
      - exactly one copy, if it was connected then;
      - no copy, if it was not registered then, in particular if it registered later;
      - otherwise one copy or none: one exactly when it has reconnected since and its first
        reconnection came within the threshold. */
  lemma ExactlyOnce(states: seq<State>, events: seq<Event>, k: nat, j: nat, p: Id)
    requires IsConformingRun(states, events) && k < j < |states| && events[k].MulticastEvent?
    requires states[k].core.connected != {}
    ensures var c, copies := states[k].core, states[j].delivered(p, states[k].core.nextUid);
      && (p in c.connected ==> copies == 1)
      && (p !in c.table ==> copies == 0)
      && (p in c.table && p !in c.connected ==>
            && copies <= 1
            && (NoReconnect(events, k + 1, j, p) ==> copies == 0)
            && (forall l :: k < l < j && IsReconnectOf(events[l], p) && NoReconnect(events, k + 1, l, p) ==>
                  (copies == 1 <==> states[l + 1].core.clock - states[k + 1].core.clock <= c.threshold)))
  {
    hide Apply, Enabled, Conforms;
    RecordMade(states, events, k);
    var u := states[k].core.nextUid;
    RecordStays(states, events, k + 1, j, u);
    Thresholds(states, events, k);
    RunInv(states, events, k);
    RunInv(states, events, j);
    if p in states[k].core.table && p !in states[k].core.connected {
      FirstBackIs(states, events, k, j, p);
    }
    hide TablesAgree, LogOk, TimesOk, HistoryOk, OneMessengerEach, NoReconnect;
    assert states[j].delivered(p, u) == Expected(states[j].broadcasts, states[j].core.threshold, p, u);
  }

  lemma Thresholds(states: seq<State>, events: seq<Event>, k: nat)
    requires IsConformingRun(states, events) && k < |events|
    ensures states[k + 1].core.threshold == states[k].core.threshold
  {
    hide Enabled, Conforms;
  }

  /** A multicast made while nobody is connected is never delivered to anybody. */
  lemma LostWithoutAudience(states: seq<State>, events: seq<Event>, k: nat, j: nat, p: Id)
    requires IsConformingRun(states, events) && k < j < |states| && events[k].MulticastEvent?
    requires states[k].core.connected == {}
    ensures states[j].delivered(p, states[k].core.nextUid) == 0
  {
    hide Apply, Enabled, Conforms;
    RecordMade(states, events, k);
    var u := states[k].core.nextUid;
    RecordStays(states, events, k + 1, j, u);
    RunInv(states, events, j);
    hide TablesAgree, LogOk, TimesOk, HistoryOk, OneMessengerEach;
    assert states[j].delivered(p, u) == Expected(states[j].broadcasts, states[j].core.threshold, p, u);
  }

  /** What a reconnecting participant is sent are messages somebody really broadcast, with
      their own text and origin. */
  lemma MissedAreGenuine(states: seq<State>, events: seq<Event>, i: nat, m: Message)
    requires IsConformingRun(states, events) && i < |states| && m in states[i].core.log
    ensures m.uid < |states[i].broadcasts|
    ensures var b := states[i].broadcasts[m.uid];
      m.text == b.text && m.origin == b.origin && m.timestamp == b.time && b.connectedAt != {}
  {
    hide Apply, Enabled, Conforms;
    RunInv(states, events, i);
  }

  // ---------- outside conforming runs ----------

  /** Why reconnecting must follow disconnecting: after a Reconnect the next broadcast reaches
      the participant exactly once if and only if it was not connected before; otherwise it
      has two messengers and is sent two copies. */
  lemma OnceIffItWasAway(states: seq<State>, events: seq<Event>, i: nat, p: Id, sock: int, sender: Id, text: string)
    requires IsConformingRun(states, events) && i < |states| && p in states[i].core.table
    ensures var s := states[i];
      var r := Apply(s, ReconnectEvent(p, sock, true));
      var t := Apply(r, MulticastEvent(sender, text));
      && (t.delivered(p, r.core.nextUid) == 1 <==> p !in s.core.connected)
      && (p in s.core.connected ==> |MessengersOf(r.core, p)| == 2 && t.delivered(p, r.core.nextUid) == 2)
  {
    hide Conforms, TimesOk;
    RunInv(states, events, i);
    var s := states[i];
    var r := Apply(s, ReconnectEvent(p, sock, true));
    var t := Apply(r, MulticastEvent(sender, text));
    var again, u := Reconnecting(s.core, p, sock, true), s.core.nextUid;
    AddMessengerOk(s.core, again);
    var was := MessengersOf(s.core, p);
    assert MessengersOf(r.core, p) == was + {s.core.nextMessenger};
    assert s.core.nextMessenger !in was;
    MissedIs(r.core, s.broadcasts, again.disconnectTime, r.core.clock, u);
    assert s.delivered(p, u) == Expected(s.broadcasts, s.core.threshold, p, u) == 0;
    assert MissedCopies(r.core, again, r.core.clock, u) == 0;
    assert r.delivered(p, u) == 0;
    assert t.delivered(p, u) == LiveCopies(r.core, p);
  }
}
