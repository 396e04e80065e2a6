/** The coordinator's classes and their methods, loops included, proved to have the effect
    that the handler steps describe. */
module CoordinatorMembers {
  import opened Basics
  import opened IdSearch
  import opened CoordinatorSteps

  class ParticipantManager {
    var idToParticipant: map<Id, Participant>
    var connectedParticipants: set<Id>

    constructor ()
      ensures idToParticipant == map[] && connectedParticipants == {}
    {
      idToParticipant, connectedParticipants := map[], {};
    }

    method RegisterParticipant(p: Participant)
      modifies this
      ensures idToParticipant == old(idToParticipant)[p.id := p]
      ensures connectedParticipants == old(connectedParticipants) + {p.id}
    {
      idToParticipant := idToParticipant[p.id := p];
      connectedParticipants := connectedParticipants + {p.id};
    }

    method DeregisterParticipant(p: Participant)
      modifies this
      ensures idToParticipant == old(idToParticipant) - {p.id}
      ensures connectedParticipants == old(connectedParticipants) - {p.id}
    {
      idToParticipant := idToParticipant - {p.id};
      connectedParticipants := connectedParticipants - {p.id};
    }

    method IsConnected(p: Participant) returns (connected: bool)
      ensures connected <==> p.id in connectedParticipants
    {
      connected := p.id in connectedParticipants;
    }

    /** `now` is read from the clock. */
    method DisconnectParticipant(p: Participant, now: Time) returns (ok: bool)
      modifies this
      ensures ok <==> p.id in old(connectedParticipants)
      ensures connectedParticipants == old(connectedParticipants) - {p.id}
      ensures !ok ==> idToParticipant == old(idToParticipant)
      ensures ok ==> idToParticipant == old(idToParticipant)[p.id :=
        (if p.id in old(idToParticipant) then old(idToParticipant)[p.id] else NOBODY)
          .(connected := false, disconnectTime := now)]
    {
      if p.id !in connectedParticipants {
        return false;
      }
      var record := if p.id in idToParticipant then idToParticipant[p.id] else NOBODY;
      idToParticipant := idToParticipant[p.id := record.(connected := false, disconnectTime := now)];
      connectedParticipants := connectedParticipants - {p.id};
      return true;
    }

    method ReconnectParticipant(p: Participant) returns (ok: bool)
      modifies this
      ensures ok <==> p.id in old(idToParticipant)
      ensures !ok ==> idToParticipant == old(idToParticipant) && connectedParticipants == old(connectedParticipants)
      ensures ok ==> idToParticipant == old(idToParticipant)[p.id := old(idToParticipant)[p.id].(connected := true)]
      ensures ok ==> connectedParticipants == old(connectedParticipants) + {p.id}
    {
      if p.id !in idToParticipant {
        return false;
      }
      idToParticipant := idToParticipant[p.id := idToParticipant[p.id].(connected := true)];
      connectedParticipants := connectedParticipants + {p.id};
      return true;
    }

    /** The caller's variable keeps its initial value when the id is unknown. */
    method GetParticipant(id: Id) returns (p: Participant)
      ensures p == if id in idToParticipant then idToParticipant[id] else NOBODY
    {
      p := NOBODY;
      if id in idToParticipant {
        p := idToParticipant[id];
      }
    }
  }

  class MessageLog {
    const threshold: nat
    var messages: set<Message>

    constructor (threshold: nat)
      ensures this.threshold == threshold && messages == {}
    {
      this.threshold := threshold;
      messages := {};
    }

    method Insert(m: Message)
      modifies this
      ensures messages == old(messages) + {m}
    {
      messages := messages + {m};
    }

    method GetMissedMessages(disconnection: Time, reconnection: Time) returns (missed: set<Message>)
      ensures forall m :: m in missed <==> m in messages && IsMissed(m, disconnection, reconnection, threshold)
      ensures forall m :: m in missed <==>
        m in messages && m.timestamp > disconnection && reconnection - m.timestamp <= threshold
    {
      missed := {};
      var todo := messages;
      while todo != {}
        invariant todo <= messages
        invariant forall m :: m in missed <==>
          m in messages && m !in todo && IsMissed(m, disconnection, reconnection, threshold)
        decreases todo
      {
        var m :| m in todo;
        if m.timestamp > disconnection && reconnection - m.timestamp <= threshold {
          missed := missed + {m};
        }
        todo := todo - {m};
      }
    }
  }

  /** The messengers among `ms` that serve participant `p`. */
  function Serving(ms: set<nat>, messengers: map<nat, Participant>, p: Id): (found: set<nat>)
    ensures found <= ms
  {
    set m | m in ms && m in messengers && messengers[m].id == p
  }

  /** One send(): for whom, on which socket, and the message with its number. */
  datatype Delivery = Delivery(to: Id, sock: int, text: string, origin: Id, uid: nat)

  class MessengerManager {
    var messengers: map<nat, Participant>
    var nextMessenger: nat
    /** What has been handed to send() so far: recipient and number of the broadcast. */
    ghost var sent: multiset<(Id, nat)>
    /** The same in full, in order. */
    ghost var deliveries: seq<Delivery>

    constructor ()
      ensures messengers == map[] && nextMessenger == 0 && sent == multiset{} && deliveries == []
    {
      messengers, nextMessenger, sent, deliveries := map[], 0, multiset{}, [];
    }

    /** Messenger::SendMessage, on the socket of its participant. */
    ghost method SendMessage(p: Participant, text: string, origin: Id, uid: nat)
      modifies this`sent, this`deliveries
      ensures deliveries == old(deliveries) + [Delivery(p.id, p.sock, text, origin, uid)]
      ensures sent == old(sent) + multiset{(p.id, uid)}
    {
      deliveries := deliveries + [Delivery(p.id, p.sock, text, origin, uid)];
      sent := sent + multiset{(p.id, uid)};
    }

    method AddMessenger(p: Participant) returns (m: nat)
      modifies this
      ensures m == old(nextMessenger) && nextMessenger == old(nextMessenger) + 1
      ensures messengers == old(messengers)[m := p] && sent == old(sent) && deliveries == old(deliveries)
    {
      m := nextMessenger;
      messengers := messengers[m := p];
      nextMessenger := nextMessenger + 1;
    }

    method DeleteMessenger(m: Option<nat>)
      modifies this
      ensures messengers == Without(old(messengers), m)
      ensures nextMessenger == old(nextMessenger) && sent == old(sent) && deliveries == old(deliveries)
    {
      match m
      case Some(k) => messengers := messengers - {k};
      case None =>
    }

    /** Sends to every messenger whose participant is connected, whether or not the sends
        succeed, and logs the message at the first of them, with the time read then; the
        result tells whether it was logged. */
    method BroadcastMessage(text: string, origin: Id, uid: nat, now: Time,
                            participants: ParticipantManager, log: MessageLog) returns (isLogged: bool)
      modifies this`sent, this`deliveries, log
      ensures isLogged <==> exists m :: m in messengers && messengers[m].id in participants.connectedParticipants
      ensures log.messages == old(log.messages) + if isLogged then {Message(text, now, origin, uid)} else {}
      ensures SentThrough(old(sent), sent, uid, participants.connectedParticipants, messengers.Keys, messengers)
      ensures DeliveredLive(old(deliveries), deliveries, Content(text, origin, uid),
                            participants.connectedParticipants, messengers)
    {
      hide SentThrough, DeliveredLive;
      isLogged := false;
      var todo := messengers.Keys;
      ghost var done: set<nat> := {};
      SentNothing(sent, uid, participants.connectedParticipants, messengers);
      NoneLive(deliveries, Content(text, origin, uid), participants.connectedParticipants, messengers);
      while todo != {}
        invariant todo !! done && todo + done == messengers.Keys
        invariant isLogged <==>
          exists m :: m in done && m in messengers && messengers[m].id in participants.connectedParticipants
        invariant log.messages == old(log.messages) + if isLogged then {Message(text, now, origin, uid)} else {}
        invariant SentThrough(old(sent), sent, uid, participants.connectedParticipants, done, messengers)
        invariant DeliveredLive(old(deliveries), deliveries, Content(text, origin, uid),
                                participants.connectedParticipants, messengers)
        decreases todo
      {
        ghost var before := sent;
        var m :| m in todo;
        var p := messengers[m];
        var connected := participants.IsConnected(p);
        if connected {
          OneMoreLive(old(deliveries), deliveries, Content(text, origin, uid),
                      participants.connectedParticipants, messengers, m);
          SendMessage(p, text, origin, uid);
          if !isLogged {
            log.Insert(Message(text, now, origin, uid));
            isLogged := true;
          }
        }
        SentOnce(old(sent), before, uid, participants.connectedParticipants, done, messengers, m);
        todo, done := todo - {m}, done + {m};
      }
      assert done == messengers.Keys;
    }

    /** Sends a messenger's participant the messages it missed, in any order, until a send()
        fails; `succeeds` tells which do. */
    method SendMissedMessages(p: Participant, reconnection: Time, log: MessageLog, succeeds: Message -> bool)
      returns (ok: bool, ghost tried: set<Message>)
      modifies this`sent, this`deliveries
      ensures DeliveredMissed(old(deliveries), deliveries, p, tried)
      ensures SentEach(old(sent), sent, p.id, tried)
      ensures forall m :: m in tried ==>
        m in log.messages && IsMissed(m, p.disconnectTime, reconnection, log.threshold)
      ensures ok <==>
        forall m :: m in log.messages && IsMissed(m, p.disconnectTime, reconnection, log.threshold) ==> succeeds(m)
      ensures ok ==>
        forall m :: m in log.messages && IsMissed(m, p.disconnectTime, reconnection, log.threshold) ==> m in tried
    {
      hide SentEach, DeliveredMissed;
      var todo := log.GetMissedMessages(p.disconnectTime, reconnection);
      ghost var missed := todo;
      tried := {};
      SentNone(sent, p.id);
      NoneMissed(deliveries, p);
      while todo != {}
        invariant todo !! tried && todo + tried == missed
        invariant forall m :: m in tried ==> succeeds(m)
        invariant SentEach(old(sent), sent, p.id, tried)
        invariant DeliveredMissed(old(deliveries), deliveries, p, tried)
        decreases todo
      {
        var m :| m in todo;
        SentOneMore(old(sent), sent, p.id, tried, m);
        OneMoreMissed(old(deliveries), deliveries, p, tried, m);
        SendMessage(p, m.text, m.origin, m.uid);
        todo, tried := todo - {m}, tried + {m};
        if !succeeds(m) {
          return false, tried;
        }
      }
      return true, tried;
    }
  }

  /** What is sent of one broadcast. */
  datatype Content = Content(text: string, origin: Id, uid: nat)

  function ThroughMessenger(p: Participant, c: Content): Delivery {
    Delivery(p.id, p.sock, c.text, c.origin, c.uid)
  }

  /** From `was` to `now` every send was of this content, through the messenger of a connected
      participant, to it and on its socket. */
  ghost predicate DeliveredLive(was: seq<Delivery>, now: seq<Delivery>, c: Content, connected: set<Id>,
                                messengers: map<nat, Participant>)
  {
    && was <= now
    && forall i :: |was| <= i < |now| ==>
         exists m :: m in messengers && messengers[m].id in connected && now[i] == ThroughMessenger(messengers[m], c)
  }

  lemma NoneLive(was: seq<Delivery>, c: Content, connected: set<Id>, messengers: map<nat, Participant>)
    ensures DeliveredLive(was, was, c, connected, messengers)
  {
  }

  lemma OneMoreLive(was: seq<Delivery>, now: seq<Delivery>, c: Content, connected: set<Id>,
                    messengers: map<nat, Participant>, m: nat)
    requires DeliveredLive(was, now, c, connected, messengers) && m in messengers && messengers[m].id in connected
    ensures DeliveredLive(was, now + [ThroughMessenger(messengers[m], c)], c, connected, messengers)
  {
  }

  function OfMessage(p: Participant, m: Message): Delivery {
    ThroughMessenger(p, Content(m.text, m.origin, m.uid))
  }

  /** From `was` to `now` every send was of one of these messages, to `p` and on its socket. */
  ghost predicate DeliveredMissed(was: seq<Delivery>, now: seq<Delivery>, p: Participant, ms: set<Message>) {
    was <= now && forall i :: |was| <= i < |now| ==> OfOne(now[i], p, ms)
  }

  ghost predicate OfOne(d: Delivery, p: Participant, ms: set<Message>) {
    exists m :: m in ms && d == OfMessage(p, m)
  }

  lemma OfOneOfMore(d: Delivery, p: Participant, ms: set<Message>, more: set<Message>)
    requires OfOne(d, p, ms) && ms <= more
    ensures OfOne(d, p, more)
  {
    var m :| m in ms && d == OfMessage(p, m);
    assert m in more;
  }

  lemma NoneMissed(was: seq<Delivery>, p: Participant)
    ensures DeliveredMissed(was, was, p, {})
  {
  }

  lemma OneMoreMissed(was: seq<Delivery>, now: seq<Delivery>, p: Participant, ms: set<Message>, m: Message)
    requires DeliveredMissed(was, now, p, ms)
    ensures DeliveredMissed(was, now + [OfMessage(p, m)], p, ms + {m})
  {
    var more := now + [OfMessage(p, m)];
    forall i | |was| <= i < |more| ensures OfOne(more[i], p, ms + {m}) {
      if i < |now| {
        OfOneOfMore(now[i], p, ms, ms + {m});
      } else {
        assert m in ms + {m};
      }
    }
  }

  lemma FromLog(was: seq<Delivery>, now: seq<Delivery>, p: Participant, some: set<Message>, ms: set<Message>)
    requires DeliveredMissed(was, now, p, some) && some <= ms
    ensures DeliveredMissed(was, now, p, ms)
  {
    forall i | |was| <= i < |now| ensures OfOne(now[i], p, ms) {
      OfOneOfMore(now[i], p, some, ms);
    }
  }

  /** From `was` to `now` one copy of broadcast `uid` went out through each messenger among
      `ms` that serves a connected participant, and nothing else did. */
  ghost predicate SentThrough(was: multiset<(Id, nat)>, now: multiset<(Id, nat)>, uid: nat, connected: set<Id>,
                              ms: set<nat>, messengers: map<nat, Participant>)
  {
    forall p, u ::
      now[(p, u)] == was[(p, u)] + (if u == uid && p in connected then |Serving(ms, messengers, p)| else 0)
  }

  lemma SentNothing(sent: multiset<(Id, nat)>, uid: nat, connected: set<Id>, messengers: map<nat, Participant>)
    ensures SentThrough(sent, sent, uid, connected, {}, messengers)
  {
    assert forall p :: Serving({}, messengers, p) == {};
  }

  lemma SentOnce(was: multiset<(Id, nat)>, now: multiset<(Id, nat)>, uid: nat, connected: set<Id>,
                 ms: set<nat>, messengers: map<nat, Participant>, m: nat)
    requires SentThrough(was, now, uid, connected, ms, messengers) && m in messengers && m !in ms
    ensures var p := messengers[m].id;
      SentThrough(was, if p in connected then now + multiset{(p, uid)} else now, uid, connected, ms + {m}, messengers)
  {
    ServingGrows(ms, messengers, m);
  }

  lemma ServingGrows(done: set<nat>, messengers: map<nat, Participant>, m: nat)
    requires m in messengers && m !in done
    ensures forall p :: |Serving(done + {m}, messengers, p)|
                     == |Serving(done, messengers, p)| + (if messengers[m].id == p then 1 else 0)
  {
    forall p
      ensures |Serving(done + {m}, messengers, p)|
           == |Serving(done, messengers, p)| + (if messengers[m].id == p then 1 else 0)
    {
      assert Serving(done + {m}, messengers, p) ==
        Serving(done, messengers, p) + if messengers[m].id == p then {m} else {};
    }
  }

  /** From `was` to `now` one copy of each message in `ms` went to participant `p`. */
  ghost predicate SentEach(was: multiset<(Id, nat)>, now: multiset<(Id, nat)>, p: Id, ms: set<Message>) {
    forall q, u :: now[(q, u)] == was[(q, u)] + (if q == p then |Numbered(ms, u)| else 0)
  }

  lemma SentNone(sent: multiset<(Id, nat)>, p: Id)
    ensures SentEach(sent, sent, p, {})
  {
    assert forall u :: Numbered({}, u) == {};
  }

  lemma SentOneMore(was: multiset<(Id, nat)>, now: multiset<(Id, nat)>, p: Id, ms: set<Message>, m: Message)
    requires SentEach(was, now, p, ms) && m !in ms
    ensures SentEach(was, now + multiset{(p, m.uid)}, p, ms + {m})
  {
    NumberedGrows(ms, m);
  }

  function Numbered(ms: set<Message>, u: nat): (found: set<Message>)
    ensures found <= ms
  {
    set m | m in ms && m.uid == u
  }

  lemma NumberedGrows(done: set<Message>, m: Message)
    requires m !in done
    ensures forall u :: |Numbered(done + {m}, u)| == |Numbered(done, u)| + (if m.uid == u then 1 else 0)
  {
    forall u ensures |Numbered(done + {m}, u)| == |Numbered(done, u)| + (if m.uid == u then 1 else 0) {
      assert Numbered(done + {m}, u) == Numbered(done, u) + if m.uid == u then {m} else {};
    }
  }

  class Coordinator {
    const participants: ParticipantManager
    const messengerManager: MessengerManager
    const log: MessageLog
    var id: nat
    var clock: Time
    var nextUid: nat

    constructor (participants: ParticipantManager, messengerManager: MessengerManager, log: MessageLog)
      ensures this.participants == participants && this.messengerManager == messengerManager && this.log == log
      ensures id == 0 && clock == 0 && nextUid == 0
    {
      this.participants, this.messengerManager, this.log := participants, messengerManager, log;
      id, clock, nextUid := 0, 0, 0;
    }

    ghost function View(): Core
      reads this, participants, messengerManager, log
    {
      Core(id, participants.idToParticipant, participants.connectedParticipants, messengerManager.messengers,
           messengerManager.nextMessenger, log.messages, log.threshold, clock, nextUid)
    }

    /** Copies of broadcast `u` sent to participant `p` so far. */
    ghost function Sent(p: Id, u: nat): nat
      reads this, messengerManager
    {
      messengerManager.sent[(p, u)]
    }

    method Now() returns (now: Time)
      modifies this`clock
      ensures clock == old(clock) + 1 && now == clock
    {
      clock := clock + 1;
      now := clock;
    }

    /** Counts up from the last id, modulo 2^32, to the first that no connected participant
        has.  Participants that are registered but not connected are not looked at. */
    method GenerateID() returns (newId: nat)
      requires id < UINT32_MODULUS && |participants.connectedParticipants| < UINT32_MODULUS
      modifies this`id
      ensures newId == id < UINT32_MODULUS && id !in participants.connectedParticipants
      ensures NextFree(old(id), id, 0x1_0000_0000, participants.connectedParticipants)
      ensures exists k :: FirstFree(old(id), k, UINT32_MODULUS, participants.connectedParticipants)
                       && id == Nth(old(id), k, UINT32_MODULUS)
    {
      ghost var start, k := id, 1;
      var duplicate := false;
      id := (id + 1) % UINT32_MODULUS;
      duplicate := IsTaken(duplicate);
      while duplicate
        invariant 1 <= k <= UINT32_MODULUS && id == Nth(start, k, UINT32_MODULUS)
        invariant duplicate <==> id in participants.connectedParticipants
        invariant forall j :: 1 <= j < k ==> Nth(start, j, UINT32_MODULUS) in participants.connectedParticipants
        decreases UINT32_MODULUS - k
      {
        SearchGoesOn(start, k, UINT32_MODULUS, participants.connectedParticipants);
        NextNth(start, k, UINT32_MODULUS);
        id := (id + 1) % UINT32_MODULUS;
        k := k + 1;
        duplicate := IsTaken(duplicate);
      }
      assert FirstFree(start, k, UINT32_MODULUS, participants.connectedParticipants);
      FirstFreeIsNext(start, k, UINT32_MODULUS, participants.connectedParticipants);
      newId := id;
    }

    /** The inner loop of GenerateID; with nobody connected the flag keeps its value. */
    method IsTaken(before: bool) returns (duplicate: bool)
      requires before ==> participants.connectedParticipants != {}
      ensures duplicate <==> id in participants.connectedParticipants
    {
      duplicate := before;
      var todo := participants.connectedParticipants;
      while todo != {}
        invariant todo <= participants.connectedParticipants
        invariant todo != participants.connectedParticipants ==> !duplicate
        invariant todo == participants.connectedParticipants ==> duplicate == before
        invariant id in participants.connectedParticipants ==> id in todo
        decreases todo
      {
        var other :| other in todo;
        if other == id {
          return true;
        }
        duplicate := false;
        todo := todo - {other};
      }
    }

    /** The first messenger met that serves this id, in whatever order they come. */
    method DetermineMessenger(someId: Id) returns (found: Option<nat>)
      ensures match found
              case Some(m) => m in Serving(messengerManager.messengers.Keys, messengerManager.messengers, someId)
              case None => Serving(messengerManager.messengers.Keys, messengerManager.messengers, someId) == {}
    {
      var todo := messengerManager.messengers.Keys;
      while todo != {}
        invariant todo <= messengerManager.messengers.Keys
        invariant forall m :: m in messengerManager.messengers && m !in todo ==>
          messengerManager.messengers[m].id != someId
        decreases todo
      {
        var m :| m in todo;
        if messengerManager.messengers[m].id == someId {
          return Some(m);
        }
        todo := todo - {m};
      }
      return None;
    }

    method HandleRegister(sock: int, port: nat, hostname: string, connects: bool) returns (newId: Id)
      requires id < UINT32_MODULUS && |participants.connectedParticipants| < UINT32_MODULUS
      modifies this, participants, messengerManager
      ensures exists k :: FirstFree(old(id), k, UINT32_MODULUS, old(participants.connectedParticipants))
                       && newId == Nth(old(id), k, UINT32_MODULUS)
      ensures View() == Register(old(View()), newId, sock, port, hostname, connects)
      ensures var p := messengerManager.messengers[old(messengerManager.nextMessenger)];
        p.id == newId && p.port == port && p.hostname == hostname && p.sock == (if connects then sock else 0)
      ensures forall p, u :: Sent(p, u) == old(Sent(p, u))
    {
      newId := GenerateID();
      var now := Now();
      var participant := NewParticipant(newId, if connects then sock else 0, port, hostname, now);
      if connects {
        participants.RegisterParticipant(participant);
      }
      var _ := messengerManager.AddMessenger(participant);
    }

    method HandleDeregister(someId: Id) returns (m: Option<nat>)
      modifies participants, messengerManager
      ensures Determines(old(View()), someId, m)
      ensures View() == Deregister(old(View()), someId, m)
      ensures forall p, u :: Sent(p, u) == old(Sent(p, u))
    {
      var participant := participants.GetParticipant(someId);
      m := DetermineMessenger(someId);
      assert MessengersOf(View(), someId)
          == Serving(messengerManager.messengers.Keys, messengerManager.messengers, someId);
      participants.DeregisterParticipant(participant);
      messengerManager.DeleteMessenger(m);
    }

    method HandleDisconnect(someId: Id) returns (m: Option<nat>)
      modifies this, participants, messengerManager
      ensures Determines(old(View()), someId, m)
      ensures View() == Disconnect(old(View()), someId, m)
      ensures forall p, u :: Sent(p, u) == old(Sent(p, u))
    {
      var participant := participants.GetParticipant(someId);
      m := DetermineMessenger(someId);
      assert MessengersOf(View(), someId)
          == Serving(messengerManager.messengers.Keys, messengerManager.messengers, someId);
      var now := Now();
      var _ := participants.DisconnectParticipant(participant, now);
      messengerManager.DeleteMessenger(m);
    }

    /** The missed messages are sent whether or not connecting succeeds; if it does not, on
        the socket of the old record.  `succeeds` tells which sends do. */
    method HandleReconnect(someId: Id, sock: int, connects: bool, succeeds: Message -> bool) returns (ok: bool)
      modifies this, participants, messengerManager
      ensures View() == Reconnect(old(View()), someId, sock, connects)
      ensures var p := Reconnecting(old(View()), someId, sock, connects);
        && (ok <==> forall m :: m in Missed(View(), p.disconnectTime, clock) ==> succeeds(m))
        && forall q, u ::
             var copies := if q == p.id then MissedCopies(View(), p, clock, u) else 0;
             if ok then Sent(q, u) == old(Sent(q, u)) + copies
             else old(Sent(q, u)) <= Sent(q, u) <= old(Sent(q, u)) + copies
      ensures var p := messengerManager.messengers[old(messengerManager.nextMessenger)];
        var record := old(Lookup(View(), someId));
        && p.id == record.id && p.port == record.port && p.hostname == record.hostname
        && p.sock == (if connects then sock else record.sock)
        && DeliveredMissed(old(messengerManager.deliveries), messengerManager.deliveries, p, log.messages)
    {
      hide DeliveredMissed;
      var participant := participants.GetParticipant(someId);
      if connects {
        participant := participant.(sock := sock);
        var _ := participants.ReconnectParticipant(participant);
      }
      var _ := messengerManager.AddMessenger(participant);
      var now := Now();
      ghost var tried;
      ghost var was := messengerManager.deliveries;
      ok, tried := messengerManager.SendMissedMessages(participant, now, log, succeeds);
      TriedCopies(View(), participant, now, tried, ok);
      FromLog(was, messengerManager.deliveries, participant, tried, log.messages);
    }

    method HandleMulticast(sender: Id, text: string)
      modifies this, messengerManager, log
      ensures View() == Multicast(old(View()), sender, text)
      ensures forall p, u :: Sent(p, u) == old(Sent(p, u))
                              + (if u == old(nextUid) then LiveCopies(old(View()), p) else 0)
      ensures DeliveredLive(old(messengerManager.deliveries), messengerManager.deliveries,
                            Content(text, old(Lookup(View(), sender)).id, old(nextUid)),
                            participants.connectedParticipants, messengerManager.messengers)
    {
      hide DeliveredLive;
      var participant := participants.GetParticipant(sender);
      var uid := nextUid;
      nextUid := nextUid + 1;
      var isLogged := messengerManager.BroadcastMessage(text, participant.id, uid, clock + 1, participants, log);
      if isLogged {
        var _ := Now();
      }
      LiveCopiesAre(View());
    }
  }

  lemma LiveCopiesAre(c: Core)
    ensures forall p :: MessengersOf(c, p) == Serving(c.messengers.Keys, c.messengers, p)
  {
  }

  /** How many copies were sent if those among the missed messages that are in `tried` were. */
  lemma TriedCopies(c: Core, p: Participant, now: Time, tried: set<Message>, all: bool)
    requires forall m :: m in tried ==> m in Missed(c, p.disconnectTime, now)
    requires all ==> forall m :: m in Missed(c, p.disconnectTime, now) ==> m in tried
    ensures forall u :: |Numbered(tried, u)| <= MissedCopies(c, p, now, u)
    ensures all ==> forall u :: |Numbered(tried, u)| == MissedCopies(c, p, now, u)
  {
    forall u
      ensures |Numbered(tried, u)| <= MissedCopies(c, p, now, u)
      ensures all ==> |Numbered(tried, u)| == MissedCopies(c, p, now, u)
    {
      var missed := set m | m in Missed(c, p.disconnectTime, now) && m.uid == u;
      SubsetSize(Numbered(tried, u), missed);
      assert all ==> Numbered(tried, u) == missed;
    }
  }
}
