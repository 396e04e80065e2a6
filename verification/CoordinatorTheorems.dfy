/** What the coordinator guarantees over every run of its handlers. */
module CoordinatorTheorems {
  import opened Basics
  import opened CoordinatorSteps

  // ---------- every run ----------

  /** The two tables agree. */
  predicate TablesAgree(c: Core) {
    && c.connected <= c.table.Keys
    && (forall id :: id in c.table ==>
          && c.table[id].id == id
          && (id in c.connected <==> c.table[id].connected))
    && (forall m :: m in c.messengers ==> m < c.nextMessenger)
  }

  lemma TablesStep(s: State, e: Event)
    requires TablesAgree(s.core) && Enabled(s, e)
    ensures TablesAgree(Apply(s, e).core)
  {
  }

  /** In every run, conforming or not and however often the ids wrap, the connected set is
      exactly the ids whose record has `connected` set. */
  lemma {:induction false} TablesAlwaysAgree(states: seq<State>, events: seq<Event>, i: nat)
    requires IsRun(states, events) && i < |states|
    ensures TablesAgree(states[i].core)
    ensures states[i].core.connected == set id | id in states[i].core.table && states[i].core.table[id].connected
  {
    hide Apply, Enabled;
    if i > 0 {
      TablesAlwaysAgree(states, events, i - 1);
      TablesStep(states[i - 1], events[i - 1]);
    }
  }

  // ---------- conforming runs ----------

  /** Exactly one messenger for each connected participant, and none for anybody else. */
  ghost predicate OneMessengerEach(c: Core) {
    forall p :: if p in c.connected then exists m :: MessengersOf(c, p) == {m} else MessengersOf(c, p) == {}
  }

  /** Registered but not connected when the broadcast was made, and not back since. */
  predicate Away(b: Broadcast, p: Id) {
    p in b.registeredAt && p !in b.connectedAt && p !in b.firstBack
  }

  ghost predicate HistoryOk(c: Core, bs: seq<Broadcast>) {
    && |bs| == c.nextUid
    && forall u :: 0 <= u < |bs| ==>
      && bs[u].time <= c.clock
      && bs[u].connectedAt <= bs[u].registeredAt
  }

  function Logged(bs: seq<Broadcast>, u: nat): Message
    requires u < |bs|
  {
    Message(bs[u].text, bs[u].time, bs[u].origin, u)
  }

  /** The log holds the broadcasts that somebody was connected to receive. */
  ghost predicate LogOk(c: Core, bs: seq<Broadcast>) {
    && (forall m :: m in c.log ==> m.uid < |bs| && bs[m.uid].connectedAt != {} && m == Logged(bs, m.uid))
    && (forall u :: 0 <= u < |bs| && bs[u].connectedAt != {} ==> Logged(bs, u) in c.log)
  }

  /** Comparing a broadcast's time with the last disconnection tells who missed it. */
  ghost predicate TimesOk(c: Core, bs: seq<Broadcast>) {
    && (forall p :: p in c.table ==> c.table[p].disconnectTime <= c.clock)
    && (forall p, u :: p in c.table && 0 <= u < |bs| && bs[u].connectedAt != {} ==>
          if p in c.connected then !Away(bs[u], p)
          else (bs[u].time > c.table[p].disconnectTime <==> Away(bs[u], p)))
  }

  /** The number of copies of broadcast `u` that participant `p` must have been sent. */
  function Expected(bs: seq<Broadcast>, threshold: nat, p: Id, u: nat): nat {
    if u >= |bs| || bs[u].connectedAt == {} || p !in bs[u].registeredAt then 0
    else if p in bs[u].connectedAt then 1
    else if p in bs[u].firstBack && bs[u].firstBack[p] - bs[u].time <= threshold then 1
    else 0
  }

  ghost predicate DeliveredOk(s: State) {
    forall p, u :: s.delivered(p, u) == Expected(s.broadcasts, s.core.threshold, p, u)
  }

  ghost predicate Inv(s: State) {
    && TablesAgree(s.core) && OneMessengerEach(s.core)
    && HistoryOk(s.core, s.broadcasts) && LogOk(s.core, s.broadcasts) && TimesOk(s.core, s.broadcasts)
    && DeliveredOk(s)
  }

  // ---------- messengers ----------

  lemma AddMessengerOk(c: Core, p: Participant)
    requires forall m :: m in c.messengers ==> m < c.nextMessenger
    ensures forall q ::
      MessengersOf(AddMessenger(c, p), q) == MessengersOf(c, q) + (if q == p.id then {c.nextMessenger} else {})
  {
  }

  lemma DeleteMessengerOk(c: Core, id: Id, m: Option<nat>)
    requires Determines(c, id, m)
    ensures forall q :: MessengersOf(c.(messengers := Without(c.messengers, m)), q)
                     == MessengersOf(c, q) - (if q == id && m.Some? then {m.value} else {})
  {
  }

  lemma MessengersStep(s: State, e: Event)
    requires TablesAgree(s.core) && OneMessengerEach(s.core) && Enabled(s, e) && Conforms(s, e)
    ensures OneMessengerEach(Apply(s, e).core)
  {
    var c, d := s.core, Apply(s, e).core;
    match e
    case RegisterEvent(id, sock, port, hostname, connects) =>
      var p := NewParticipant(id, sock, port, hostname, c.clock + 1);
      AddMessengerOk(c, p);
      NewMessenger(c, d, p.id);
    case ReconnectEvent(id, sock, connects) =>
      AddMessengerOk(c, Reconnecting(c, id, sock, connects));
      NewMessenger(c, d, id);
    case DeregisterEvent(id, m) =>
      DeleteMessengerOk(c, id, m);
      OldMessenger(c, d, id, m);
    case DisconnectEvent(id, m) =>
      DeleteMessengerOk(c, id, m);
      OldMessenger(c, d, id, m);
    case MulticastEvent(_, _) =>
      assert forall q :: MessengersOf(d, q) == MessengersOf(c, q);
  }

  lemma NewMessenger(c: Core, d: Core, id: Id)
    requires OneMessengerEach(c) && id !in c.connected && d.connected == c.connected + {id}
    requires forall q :: MessengersOf(d, q) == MessengersOf(c, q) + (if q == id then {c.nextMessenger} else {})
    ensures OneMessengerEach(d)
  {
    forall q ensures if q in d.connected then exists m :: MessengersOf(d, q) == {m} else MessengersOf(d, q) == {} {
      if q == id {
        assert MessengersOf(d, q) == {c.nextMessenger};
      } else {
        assert MessengersOf(d, q) == MessengersOf(c, q);
      }
    }
  }

  lemma OldMessenger(c: Core, d: Core, id: Id, m: Option<nat>)
    requires OneMessengerEach(c) && Determines(c, id, m) && d.connected == c.connected - {id}
    requires forall q :: MessengersOf(d, q) == MessengersOf(c, q) - (if q == id && m.Some? then {m.value} else {})
    ensures OneMessengerEach(d)
  {
    forall q ensures if q in d.connected then exists k :: MessengersOf(d, q) == {k} else MessengersOf(d, q) == {} {
      if q != id {
        assert MessengersOf(d, q) == MessengersOf(c, q);
      } else if m.Some? {
        assert id in c.connected;
        var k :| MessengersOf(c, q) == {k};
        assert m.value == k;
      }
    }
  }

  /** A broadcast is sent and logged exactly when somebody is connected. */
  lemma AudienceIsConnected(c: Core)
    requires OneMessengerEach(c)
    ensures HasAudience(c) <==> c.connected != {}
    ensures forall p :: LiveCopies(c, p) == if p in c.connected then 1 else 0
  {
    if p :| p in c.connected {
      var m :| MessengersOf(c, p) == {m};
      assert m in MessengersOf(c, p);
    }
  }

  // ---------- the log and the missed messages ----------

  lemma MissedIs(c: Core, bs: seq<Broadcast>, disconnection: Time, reconnection: Time, u: nat)
    requires LogOk(c, bs)
    ensures var found := set m | m in Missed(c, disconnection, reconnection) && m.uid == u;
      found == if u < |bs| && bs[u].connectedAt != {}
                  && IsMissed(Logged(bs, u), disconnection, reconnection, c.threshold)
               then {Logged(bs, u)} else {}
  {
  }

  /** What a conforming reconnection sends is what the participant was away for and is not
      too old. */
  lemma ReconnectDelivers(s: State, id: Id, sock: int, u: nat)
    requires Inv(s) && id in s.core.table && id !in s.core.connected
    ensures var d, p := Reconnect(s.core, id, sock, true), Reconnecting(s.core, id, sock, true);
      MissedCopies(d, p, d.clock, u) ==
      if u < |s.broadcasts| && s.broadcasts[u].connectedAt != {} && Away(s.broadcasts[u], id)
         && d.clock - s.broadcasts[u].time <= s.core.threshold then 1 else 0
  {
    hide OneMessengerEach, HistoryOk, DeliveredOk;
    var d, p := Reconnect(s.core, id, sock, true), Reconnecting(s.core, id, sock, true);
    MissedIs(d, s.broadcasts, p.disconnectTime, d.clock, u);
  }

  // ---------- preservation ----------

  lemma QuietInv(s: State, e: Event)
    requires Inv(s) && Enabled(s, e) && Conforms(s, e) && !e.ReconnectEvent? && !e.MulticastEvent?
    ensures Inv(Apply(s, e))
  {
    TablesStep(s, e);
    MessengersStep(s, e);
    hide OneMessengerEach, MessengersOf;
  }

  lemma ReconnectDelivered(s: State, e: Event)
    requires Inv(s) && Enabled(s, e) && Conforms(s, e) && e.ReconnectEvent?
    ensures DeliveredOk(Apply(s, e))
  {
    hide TablesAgree, OneMessengerEach, MessengersOf, LogOk, TimesOk, MissedCopies;
    var t := Apply(s, e);
    forall p, u ensures t.delivered(p, u) == Expected(t.broadcasts, t.core.threshold, p, u) {
      ReconnectDelivers(s, e.id, e.sock, u);
      OwnRecord(s, e.id);
      assert s.delivered(p, u) == Expected(s.broadcasts, s.core.threshold, p, u);
    }
  }

  lemma OwnRecord(s: State, id: Id)
    requires Inv(s) && id in s.core.table
    ensures s.core.table[id].id == id
  {
  }

  lemma ReconnectInv(s: State, e: Event)
    requires Inv(s) && Enabled(s, e) && Conforms(s, e) && e.ReconnectEvent?
    ensures Inv(Apply(s, e))
  {
    hide TablesAgree, OneMessengerEach, MessengersOf, MissedCopies, DeliveredOk;
    TablesStep(s, e);
    MessengersStep(s, e);
    ReconnectDelivered(s, e);
    OwnRecord(s, e.id);
  }

  lemma MulticastInv(s: State, e: Event)
    requires Inv(s) && Enabled(s, e) && Conforms(s, e) && e.MulticastEvent?
    ensures Inv(Apply(s, e))
  {
    TablesStep(s, e);
    MessengersStep(s, e);
    AudienceIsConnected(s.core);
    hide OneMessengerEach, MessengersOf, LiveCopies, HasAudience;
  }

  lemma StepInv(s: State, e: Event)
    requires Inv(s) && Enabled(s, e) && Conforms(s, e)
    ensures Inv(Apply(s, e))
  {
    hide Inv, Apply, Enabled, Conforms;
    match e
    case ReconnectEvent(_, _, _) => ReconnectInv(s, e);
    case MulticastEvent(_, _) => MulticastInv(s, e);
    case RegisterEvent(_, _, _, _, _) => QuietInv(s, e);
    case DeregisterEvent(_, _) => QuietInv(s, e);
    case DisconnectEvent(_, _) => QuietInv(s, e);
  }

  lemma {:induction false} RunInv(states: seq<State>, events: seq<Event>, i: nat)
    requires IsConformingRun(states, events) && i < |states|
    ensures Inv(states[i])
  {
    hide Apply, Enabled, Conforms;
    if i > 0 {
      RunInv(states, events, i - 1);
      StepInv(states[i - 1], events[i - 1]);
    } else {
      assert forall p :: MessengersOf(states[0].core, p) == {};
    }
  }
}
