/** What the coordinator's messengers and records have to do with the requests of a run: where
    a participant is served, and what a failed connection changes. */
module CoordinatorHistory {
  import opened Basics
  import opened CoordinatorSteps
  import opened CoordinatorTheorems

  lemma OneMoreEvent(events: seq<Event>, i: nat)
    requires i < |events|
    ensures events[..i + 1][..|events[..i + 1]| - 1] == events[..i] && events[..i + 1][i] == events[i]
  {
  }

  // ---------- one request ----------

  /** What a Register request makes: a messenger for a participant with the new id and the
      sender's port and host name, on the socket that was connected or none; and the record of
      it, if connecting succeeded.  Nothing else changes in the tables. */
  lemma RegisterMakes(states: seq<State>, events: seq<Event>, i: nat)
    requires IsRun(states, events) && i < |events| && events[i].RegisterEvent?
    ensures var c, d, e := states[i].core, states[i + 1].core, events[i];
      && c.nextMessenger !in c.messengers && d.messengers.Keys == c.messengers.Keys + {c.nextMessenger}
      && (forall m :: m in c.messengers ==> d.messengers[m] == c.messengers[m])
      && var p := d.messengers[c.nextMessenger];
         && p.id == e.id && p.port == e.port && p.hostname == e.hostname && p.connected
         && p.sock == (if e.connects then e.sock else 0) && c.clock < p.disconnectTime == d.clock
         && (if e.connects then
               && d.table.Keys == c.table.Keys + {e.id} && d.connected == c.connected + {e.id} && d.table[e.id] == p
               && (forall q :: q in c.table && q != e.id ==> d.table[q] == c.table[q])
             else d.table == c.table && d.connected == c.connected)
  {
    TablesAlwaysAgree(states, events, i);
  }

  /** What a Reconnect request makes: a messenger for the participant as recorded, but on the
      socket that was connected, if connecting succeeded; then the record is marked connected
      and keeps everything else, its old socket included.  A failed connection changes neither
      table. */
  lemma ReconnectMakes(states: seq<State>, events: seq<Event>, i: nat)
    requires IsRun(states, events) && i < |events| && events[i].ReconnectEvent? && events[i].id in states[i].core.table
    ensures var c, d, e := states[i].core, states[i + 1].core, events[i];
      && c.nextMessenger !in c.messengers && d.messengers.Keys == c.messengers.Keys + {c.nextMessenger}
      && (forall m :: m in c.messengers ==> d.messengers[m] == c.messengers[m])
      && var p, record := d.messengers[c.nextMessenger], c.table[e.id];
         && p.id == e.id && p.port == record.port && p.hostname == record.hostname
         && p.disconnectTime == record.disconnectTime
         && p.sock == (if e.connects then e.sock else record.sock)
         && (if e.connects then
               && d.table.Keys == c.table.Keys && d.connected == c.connected + {e.id}
               && d.table[e.id] == record.(connected := true)
               && (forall q :: q in c.table && q != e.id ==> d.table[q] == c.table[q])
             else d.table == c.table && d.connected == c.connected)
  {
    TablesAlwaysAgree(states, events, i);
  }

  /** What a Disconnect request does to a connected participant: its record is marked and dated,
      and keeps everything else; a messenger of it is gone, and nothing else. */
  lemma DisconnectMakes(states: seq<State>, events: seq<Event>, i: nat)
    requires IsRun(states, events) && i < |events| && events[i].DisconnectEvent?
    requires events[i].id in states[i].core.connected
    ensures var c, d, e := states[i].core, states[i + 1].core, events[i];
      && d.table.Keys == c.table.Keys && d.connected == c.connected - {e.id} && c.clock < d.clock
      && d.table[e.id] == c.table[e.id].(connected := false, disconnectTime := d.clock)
      && (forall q :: q in c.table && q != e.id ==> d.table[q] == c.table[q])
      && (forall m :: m in d.messengers <==> m in c.messengers && e.m != Some(m))
      && (forall m :: m in d.messengers ==> d.messengers[m] == c.messengers[m])
      && (e.m.Some? ==> e.m.value in c.messengers && c.messengers[e.m.value].id == e.id)
  {
    TablesAlwaysAgree(states, events, i);
  }

  /** What a Deregister request does to a registered participant: it leaves both tables, and a
      messenger of it is gone. */
  lemma DeregisterMakes(states: seq<State>, events: seq<Event>, i: nat)
    requires IsRun(states, events) && i < |events| && events[i].DeregisterEvent?
    requires events[i].id in states[i].core.table
    ensures var c, d, e := states[i].core, states[i + 1].core, events[i];
      && d.table.Keys == c.table.Keys - {e.id} && d.connected == c.connected - {e.id}
      && (forall q :: q in d.table ==> d.table[q] == c.table[q])
      && (forall m :: m in d.messengers <==> m in c.messengers && e.m != Some(m))
      && (forall m :: m in d.messengers ==> d.messengers[m] == c.messengers[m])
      && (e.m.Some? ==> e.m.value in c.messengers && c.messengers[e.m.value].id == e.id)
  {
    TablesAlwaysAgree(states, events, i);
  }

  // ---------- whole runs ----------

  /** The socket that the latest Register or Reconnect request of participant `p` connected. */
  function LatestSocket(events: seq<Event>, p: Id): Option<int> {
    if events == [] then None
    else match events[|events| - 1]
      case RegisterEvent(id, sock, _, _, connects) =>
        if id == p && connects then Some(sock) else LatestSocket(events[..|events| - 1], p)
      case ReconnectEvent(id, sock, connects) =>
        if id == p && connects then Some(sock) else LatestSocket(events[..|events| - 1], p)
      case _ => LatestSocket(events[..|events| - 1], p)
  }

  /** The address that the latest Register request with id `p` came from. */
  function Address(events: seq<Event>, p: Id): Option<(nat, string)> {
    if events == [] then None
    else match events[|events| - 1]
      case RegisterEvent(id, _, port, hostname, _) =>
        if id == p then Some((port, hostname)) else Address(events[..|events| - 1], p)
      case _ => Address(events[..|events| - 1], p)
  }

  predicate ServedRight(r: Participant, sock: Option<int>, address: Option<(nat, string)>) {
    sock == Some(r.sock) && address == Some((r.port, r.hostname))
  }

  ghost predicate AllServedRight(c: Core, events: seq<Event>) {
    && (forall m :: m in c.messengers ==>
          ServedRight(c.messengers[m], LatestSocket(events, c.messengers[m].id), Address(events, c.messengers[m].id)))
    && (forall p :: p in c.table ==> Address(events, p) == Some((c.table[p].port, c.table[p].hostname)))
  }

  /** Those who are not connected have no messenger. */
  lemma NoMessengerFor(c: Core, p: Id)
    requires OneMessengerEach(c) && p !in c.connected
    ensures forall m :: m in c.messengers ==> c.messengers[m].id != p
  {
    forall m | m in c.messengers ensures c.messengers[m].id != p {
      assert m !in MessengersOf(c, p);
    }
  }

  lemma ServedStep(states: seq<State>, events: seq<Event>, i: nat)
    requires IsConformingRun(states, events) && i < |events| && AllServedRight(states[i].core, events[..i])
    ensures AllServedRight(states[i + 1].core, events[..i + 1])
  {
    hide Apply, Enabled, Conforms, AllServedRight;
    var e := events[i];
    if e.RegisterEvent? {
      RegisterServes(states, events, i);
    } else if e.ReconnectEvent? {
      ReconnectServes(states, events, i);
    } else {
      OthersServe(states, events, i);
    }
  }

  lemma RegisterServes(states: seq<State>, events: seq<Event>, i: nat)
    requires IsConformingRun(states, events) && i < |events| && AllServedRight(states[i].core, events[..i])
    requires events[i].RegisterEvent?
    ensures AllServedRight(states[i + 1].core, events[..i + 1])
  {
    var e := events[i];
    RunInv(states, events, i);
    RegisterMakes(states, events, i);
    OneMoreEvent(events, i);
    assert e.id !in states[i].core.connected && e.connects;
    NoMessengerFor(states[i].core, e.id);
    hide Apply, Enabled, Conforms, Inv;
  }

  lemma ReconnectServes(states: seq<State>, events: seq<Event>, i: nat)
    requires IsConformingRun(states, events) && i < |events| && AllServedRight(states[i].core, events[..i])
    requires events[i].ReconnectEvent?
    ensures AllServedRight(states[i + 1].core, events[..i + 1])
  {
    var e := events[i];
    RunInv(states, events, i);
    assert e.id in states[i].core.table && e.id !in states[i].core.connected && e.connects;
    ReconnectMakes(states, events, i);
    OneMoreEvent(events, i);
    NoMessengerFor(states[i].core, e.id);
    hide Apply, Enabled, Conforms, Inv;
  }

  lemma OthersServe(states: seq<State>, events: seq<Event>, i: nat)
    requires IsConformingRun(states, events) && i < |events| && AllServedRight(states[i].core, events[..i])
    requires !events[i].RegisterEvent? && !events[i].ReconnectEvent?
    ensures AllServedRight(states[i + 1].core, events[..i + 1])
  {
    OneMoreEvent(events, i);
    TablesAlwaysAgree(states, events, i);
    hide Apply, Enabled, Conforms;
    LeavesMessengers(states[i], events[i]);
  }

  lemma LeavesMessengers(s: State, e: Event)
    requires TablesAgree(s.core) && Enabled(s, e) && !e.RegisterEvent? && !e.ReconnectEvent?
    ensures var c, d := s.core, Apply(s, e).core;
      && (forall m :: m in d.messengers ==> m in c.messengers && d.messengers[m] == c.messengers[m])
      && (forall p :: p in d.table ==>
            p in c.table && d.table[p].port == c.table[p].port && d.table[p].hostname == c.table[p].hostname)
  {
  }

  lemma {:induction false} AlwaysServedRight(states: seq<State>, events: seq<Event>, i: nat)
    requires IsConformingRun(states, events) && i < |states|
    ensures AllServedRight(states[i].core, events[..i])
  {
    hide Apply, Enabled, Conforms;
    if i > 0 {
      AlwaysServedRight(states, events, i - 1);
      hide AllServedRight;
      ServedStep(states, events, i - 1);
    }
  }

  /** In conforming runs the one messenger of a connected participant works on the socket that
      its latest Register or Reconnect request connected, at the address it registered from. */
  lemma ServedOnLatestSocket(states: seq<State>, events: seq<Event>, i: nat, p: Id)
    requires IsConformingRun(states, events) && i < |states| && p in states[i].core.connected
    ensures exists m ::
      && MessengersOf(states[i].core, p) == {m} && m in states[i].core.messengers
      && ServedRight(states[i].core.messengers[m], LatestSocket(events[..i], p), Address(events[..i], p))
  {
    hide Apply, Enabled, Conforms;
    RunInv(states, events, i);
    AlwaysServedRight(states, events, i);
    var m :| MessengersOf(states[i].core, p) == {m};
    assert m in MessengersOf(states[i].core, p);
  }
}
