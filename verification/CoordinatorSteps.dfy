/** The publish/subscribe coordinator: each request handler as one atomic step on the
    participant tables, the messengers and the message log.  Connecting to a participant may
    succeed or fail; sends are counted when they are made, and every one succeeds.  Every reading of the steady
    clock is later than the one before. */
module CoordinatorSteps {
  import opened Basics
  import opened IdSearch

  type Id = nat
  type Time = nat

  /** Records are compared and hashed by id alone. */
  datatype Participant = Participant(
    id: Id, sock: int, port: nat, hostname: string, connected: bool, disconnectTime: Time)

  /** What a failed lookup leaves in the caller's variable. */
  const NOBODY := Participant(0, 0, 0, "", false, 0)

  /** A logged message; `uid` numbers the multicast requests and is history. */
  datatype Message = Message(text: string, timestamp: Time, origin: Id, uid: nat)

  datatype Core = Core(
    counter: nat,                   // id_
    table: map<Id, Participant>,    // id_to_participant_
    connected: set<Id>,             // connected_participants_, whose equality is by id
    messengers: map<nat, Participant>,   // messengers_, each object with the participant it was built for
    nextMessenger: nat,             // identity of the next messenger object
    log: set<Message>,              // coordinator_messages_
    threshold: nat,                 // td_
    clock: Time,                    // the last reading of the steady clock
    nextUid: nat)                   // history: multicast requests so far

  // ---------- lookups ----------

  function Lookup(c: Core, id: Id): Participant {
    if id in c.table then c.table[id] else NOBODY
  }

  function MessengersOf(c: Core, id: Id): (ms: set<nat>)
    ensures ms <= c.messengers.Keys
  {
    set m | m in c.messengers && c.messengers[m].id == id
  }

  /** DetermineMessenger: some messenger of that id, if there is one. */
  predicate Determines(c: Core, id: Id, m: Option<nat>) {
    match m
    case Some(k) => k in MessengersOf(c, id)
    case None => MessengersOf(c, id) == {}
  }

  function Without(messengers: map<nat, Participant>, m: Option<nat>): map<nat, Participant> {
    match m
    case Some(k) => messengers - {k}
    case None => messengers
  }

  // ---------- the participant tables ----------

  function TableRegister(c: Core, p: Participant): Core {
    c.(table := c.table[p.id := p], connected := c.connected + {p.id})
  }

  function TableDeregister(c: Core, p: Participant): Core {
    c.(table := c.table - {p.id}, connected := c.connected - {p.id})
  }

  /** operator[] would create a missing record; `now` is when the clock was read. */
  function TableDisconnect(c: Core, p: Participant, now: Time): Core {
    if p.id !in c.connected then c
    else
      var record := Lookup(c, p.id).(connected := false, disconnectTime := now);
      c.(table := c.table[p.id := record], connected := c.connected - {p.id})
  }

  function TableReconnect(c: Core, p: Participant): Core {
    if p.id !in c.table then c
    else c.(table := c.table[p.id := c.table[p.id].(connected := true)], connected := c.connected + {p.id})
  }

  function AddMessenger(c: Core, p: Participant): Core {
    c.(messengers := c.messengers[c.nextMessenger := p], nextMessenger := c.nextMessenger + 1)
  }

  // ---------- the log ----------

  /** GetMissedMessages: sent after the disconnection and not too old at the reconnection. */
  predicate IsMissed(m: Message, disconnection: Time, reconnection: Time, threshold: nat) {
    m.timestamp > disconnection && reconnection - m.timestamp <= threshold
  }

  function Missed(c: Core, disconnection: Time, reconnection: Time): set<Message> {
    set m | m in c.log && IsMissed(m, disconnection, reconnection, c.threshold)
  }

  // ---------- handlers ----------

  /** The participant a Register request creates. */
  function NewParticipant(id: Id, sock: int, port: nat, hostname: string, now: Time): Participant {
    Participant(id, sock, port, hostname, true, now)
  }

  /** Register; `id` is what GenerateID returned. */
  function Register(c: Core, id: Id, sock: int, port: nat, hostname: string, connects: bool): Core {
    var now := c.clock + 1;
    var p := NewParticipant(id, if connects then sock else 0, port, hostname, now);
    var d := c.(counter := id, clock := now);
    AddMessenger(if connects then TableRegister(d, p) else d, p)
  }

  function Deregister(c: Core, id: Id, m: Option<nat>): Core {
    TableDeregister(c, Lookup(c, id)).(messengers := Without(c.messengers, m))
  }

  function Disconnect(c: Core, id: Id, m: Option<nat>): Core {
    TableDisconnect(c.(clock := c.clock + 1), Lookup(c, id), c.clock + 1).(messengers := Without(c.messengers, m))
  }

  /** The record a Reconnect request works on: a copy, with the new socket. */
  function Reconnecting(c: Core, id: Id, sock: int, connects: bool): Participant {
    if connects then Lookup(c, id).(sock := sock) else Lookup(c, id)
  }

  function Reconnect(c: Core, id: Id, sock: int, connects: bool): Core {
    var p := Reconnecting(c, id, sock, connects);
    AddMessenger(if connects then TableReconnect(c, p) else c, p).(clock := c.clock + 1)
  }

  /** Some messenger serves a connected participant, so the broadcast is sent and logged. */
  predicate HasAudience(c: Core) {
    exists m :: m in c.messengers && c.messengers[m].id in c.connected
  }

  /** The message is stamped and logged at the first messenger it is sent through. */
  function Multicast(c: Core, sender: Id, text: string): Core {
    var d := c.(nextUid := c.nextUid + 1);
    if HasAudience(c)
    then d.(clock := c.clock + 1, log := c.log + {Message(text, c.clock + 1, Lookup(c, sender).id, c.nextUid)})
    else d
  }

  /** How many copies of a broadcast reach participant `p` at once: one per messenger. */
  function LiveCopies(c: Core, p: Id): nat {
    if p in c.connected then |MessengersOf(c, p)| else 0
  }

  /** How many logged messages of number `uid` a reconnecting participant is sent. */
  function MissedCopies(c: Core, p: Participant, reconnection: Time, uid: nat): nat {
    |set m | m in Missed(c, p.disconnectTime, reconnection) && m.uid == uid|
  }

  // ---------- runs ----------

  /** What the run has to say about one broadcast later on; history. */
  datatype Broadcast = Broadcast(
    text: string, origin: Id, time: Time,
    connectedAt: set<Id>, registeredAt: set<Id>,
    firstBack: map<Id, Time>)      // first reconnection of those who were away

  datatype State = State(
    core: Core,
    delivered: Deliveries,         // copies of broadcast `uid` handed to send() for a participant
    broadcasts: seq<Broadcast>)

  datatype Event =
    | RegisterEvent(id: Id, sock: int, port: nat, hostname: string, connects: bool)
    | DeregisterEvent(id: Id, m: Option<nat>)
    | DisconnectEvent(id: Id, m: Option<nat>)
    | ReconnectEvent(id: Id, sock: int, connects: bool)
    | MulticastEvent(sender: Id, text: string)

  predicate Init(s: State) {
    && s.core.counter == 0 && s.core.table == map[] && s.core.connected == {} && s.core.messengers == map[]
    && s.core.log == {} && s.core.nextUid == 0 && s.broadcasts == []
  }

  ghost predicate NothingDelivered(s: State) {
    forall p, u :: s.delivered(p, u) == 0
  }

  /** What GenerateID returns: the first id, counting up modulo 2^32 from the last one, that no
      connected participant has. */
  ghost predicate Generates(c: Core, id: Id) {
    exists k :: FirstFree(c.counter, k, UINT32_MODULUS, c.connected) && id == Nth(c.counter, k, UINT32_MODULUS)
  }

  ghost predicate Enabled(s: State, e: Event) {
    match e
    case RegisterEvent(id, _, _, _, _) => Generates(s.core, id)
    case DeregisterEvent(id, m) => Determines(s.core, id, m)
    case DisconnectEvent(id, m) => Determines(s.core, id, m)
    case ReconnectEvent(_, _, _) => true
    case MulticastEvent(_, _) => true
  }

  type Deliveries = (Id, nat) -> nat

  function DeliverMissed(f: Deliveries, c: Core, p: Participant): Deliveries {
    (q: Id, u: nat) => f(q, u) + if q == p.id then MissedCopies(c, p, c.clock, u) else 0
  }

  function DeliverLive(f: Deliveries, c: Core): Deliveries {
    (q: Id, u: nat) => f(q, u) + if u == c.nextUid then LiveCopies(c, q) else 0
  }

  function NoteBack(b: Broadcast, p: Id, now: Time): Broadcast {
    if p in b.registeredAt && p !in b.connectedAt && p !in b.firstBack
    then b.(firstBack := b.firstBack[p := now]) else b
  }

  ghost function Apply(s: State, e: Event): State
    requires Enabled(s, e)
  {
    var c := s.core;
    match e
    case RegisterEvent(id, sock, port, hostname, connects) =>
      s.(core := Register(c, id, sock, port, hostname, connects))
    case DeregisterEvent(id, m) => s.(core := Deregister(c, id, m))
    case DisconnectEvent(id, m) => s.(core := Disconnect(c, id, m))
    case ReconnectEvent(id, sock, connects) =>
      var d := Reconnect(c, id, sock, connects);
      var p := Reconnecting(c, id, sock, connects);
      s.(core := d,
         delivered := DeliverMissed(s.delivered, d, p),
         broadcasts := seq(|s.broadcasts|, i requires 0 <= i < |s.broadcasts| =>
           NoteBack(s.broadcasts[i], id, d.clock)))
    case MulticastEvent(sender, text) =>
      var d := Multicast(c, sender, text);
      s.(core := d,
         delivered := DeliverLive(s.delivered, c),
         broadcasts := s.broadcasts
           + [Broadcast(text, Lookup(c, sender).id, d.clock, c.connected, c.table.Keys, map[])])
  }

  ghost predicate IsRun(states: seq<State>, events: seq<Event>) {
    && |states| == |events| + 1 && Init(states[0]) && NothingDelivered(states[0])
    && forall i :: 0 <= i < |events| ==> Enabled(states[i], events[i]) && states[i + 1] == Apply(states[i], events[i])
  }

  /** An id that nobody has, and nobody had when a broadcast was made. */
  predicate Fresh(s: State, id: Id) {
    id !in s.core.table && forall u :: 0 <= u < |s.broadcasts| ==> id !in s.broadcasts[u].registeredAt
  }

  /** Participants follow register, (disconnect, reconnect)*, deregister, connecting to them
      succeeds, and ids are not used again. */
  predicate Conforms(s: State, e: Event) {
    match e
    case RegisterEvent(id, _, _, _, connects) => connects && Fresh(s, id)
    case DeregisterEvent(id, _) => id in s.core.table
    case DisconnectEvent(id, _) => id in s.core.connected
    case ReconnectEvent(id, _, connects) => connects && id in s.core.table && id !in s.core.connected
    case MulticastEvent(_, _) => true
  }

  ghost predicate IsConformingRun(states: seq<State>, events: seq<Event>) {
    IsRun(states, events) && forall i :: 0 <= i < |events| ==> Conforms(states[i], events[i])
  }
}
