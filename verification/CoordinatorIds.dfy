/** The coordinator's ids: fresh until the 32-bit counter wraps, and what happens then. */
module CoordinatorIds {
  import opened Basics
  import opened IdSearch
  import opened CoordinatorSteps
  import opened CoordinatorTheorems

  // ---------- before the counter wraps ----------

  function Registrations(events: seq<Event>): nat {
    if events == [] then 0
    else Registrations(events[..|events| - 1]) + if events[|events| - 1].RegisterEvent? then 1 else 0
  }

  /** All ids that are or were in use are among the first `n`. */
  predicate AtMost(s: State, n: nat) {
    && (forall id :: id in s.core.table ==> id <= n)
    && (forall u :: 0 <= u < |s.broadcasts| ==> forall id :: id in s.broadcasts[u].registeredAt ==> id <= n)
  }

  lemma NextIsFresh(s: State, id: Id)
    requires TablesAgree(s.core) && AtMost(s, s.core.counter) && s.core.counter + 1 < UINT32_MODULUS
    requires Generates(s.core, id)
    ensures id == s.core.counter + 1 && Fresh(s, id)
  {
    var c := s.core;
    assert FirstFree(c.counter, 1, UINT32_MODULUS, c.connected);
    var k :| FirstFree(c.counter, k, UINT32_MODULUS, c.connected) && id == Nth(c.counter, k, UINT32_MODULUS);
    FirstFreeUnique(c.counter, 1, k, UINT32_MODULUS, c.connected);
  }

  lemma AtMostStep(s: State, e: Event, n: nat)
    requires Enabled(s, e) && TablesAgree(s.core) && AtMost(s, n) && s.core.counter <= n
    requires e.RegisterEvent? ==> e.id <= n
    ensures AtMost(Apply(s, e), n)
    ensures Apply(s, e).core.counter == if e.RegisterEvent? then e.id else s.core.counter
  {
  }

  /** In every run the first 2^32 - 1 registrations get the numbers from 1 on, and no number that
      anybody has or had. */
  lemma {:induction false} FreshUntilWrap(states: seq<State>, events: seq<Event>, i: nat)
    requires IsRun(states, events) && i < |states| && Registrations(events[..i]) < UINT32_MODULUS
    ensures states[i].core.counter == Registrations(events[..i]) && AtMost(states[i], states[i].core.counter)
    ensures i < |events| && events[i].RegisterEvent? && Registrations(events[..i]) + 1 < UINT32_MODULUS ==>
      events[i].id == Registrations(events[..i]) + 1 && Fresh(states[i], events[i].id)
  {
    hide Apply, Generates, AtMost, TablesAgree, Fresh;
    if i > 0 {
      assert events[..i][..i - 1] == events[..i - 1];
      FreshUntilWrap(states, events, i - 1);
      TablesAlwaysAgree(states, events, i - 1);
      var s, e := states[i - 1], events[i - 1];
      AtMostMore(s, s.core.counter, s.core.counter + 1);
      AtMostStep(s, e, if e.RegisterEvent? then s.core.counter + 1 else s.core.counter);
    } else {
      NobodyYet(states[0]);
    }
    if i < |events| && events[i].RegisterEvent? && Registrations(events[..i]) + 1 < UINT32_MODULUS {
      TablesAlwaysAgree(states, events, i);
      NextIsFresh(states[i], events[i].id);
    }
  }

  lemma AtMostMore(s: State, n: nat, m: nat)
    requires AtMost(s, n) && n <= m
    ensures AtMost(s, m)
  {
  }

  lemma NobodyYet(s: State)
    requires Init(s)
    ensures AtMost(s, 0)
  {
  }

  /** So runs with fewer registrations conform as far as ids go. */
  lemma IdsConform(states: seq<State>, events: seq<Event>, i: nat)
    requires IsRun(states, events) && i < |events| && events[i].RegisterEvent? && events[i].connects
    requires Registrations(events[..i]) + 1 < UINT32_MODULUS
    ensures Conforms(states[i], events[i])
  {
    hide Apply, Generates, AtMost;
    FreshUntilWrap(states, events, i);
  }

  // ---------- after it has wrapped ----------

  /** GenerateID looks at connected participants only.  It hands out the id of a registered
      participant if and only if one that is registered but away comes before the first id
      that is not registered. */
  lemma HandsOutRegisteredIff(c: Core, k: nat, l: nat)
    requires c.connected <= c.table.Keys
    requires FirstFree(c.counter, k, UINT32_MODULUS, c.connected)
    requires FirstFree(c.counter, l, UINT32_MODULUS, c.table.Keys)
    ensures Nth(c.counter, k, UINT32_MODULUS) in c.table <==>
      exists j: nat :: 1 <= j < l && Nth(c.counter, j, UINT32_MODULUS) in c.table.Keys - c.connected
  {
    hide Nth;
    if j: nat :| 1 <= j < l && Nth(c.counter, j, UINT32_MODULUS) in c.table.Keys - c.connected {
      assert k <= j;
    }
  }

  ghost predicate Reachable(s: State) {
    exists states, events :: IsRun(states, events) && states[|events|] == s
  }

  lemma ReachStep(s: State, e: Event) returns (t: State)
    requires Reachable(s) && Enabled(s, e)
    ensures Reachable(t) && t == Apply(s, e)
  {
    hide Enabled, Apply, Init;
    t := Apply(s, e);
    var states, events :| IsRun(states, events) && states[|events|] == s;
    var states', events' := states + [t], events + [e];
    assert IsRun(states', events') && states'[|events'|] == t;
  }

  /** Participant 1 is away, nobody else is registered, and `n` is the last id handed out. */
  predicate OnlyOneAway(c: Core, n: nat) {
    c.counter == n && c.connected == {} && c.messengers == map[] && c.table.Keys == {1} && !c.table[1].connected
  }

  lemma NextGenerated(c: Core, n: nat)
    requires c.counter == n < UINT32_MODULUS && c.connected == {}
    ensures Generates(c, (n + 1) % UINT32_MODULUS)
  {
    assert FirstFree(n, 1, UINT32_MODULUS, {});
    assert Nth(n, 1, UINT32_MODULUS) == (n + 1) % UINT32_MODULUS;
  }

  /** The messenger of a participant who has just registered with no others around. */
  lemma OnlyMessenger(c: Core, id: Id, sock: int)
    requires c.messengers == map[]
    ensures var d := Register(c, id, sock, 0, "", true);
      d.messengers.Keys == {c.nextMessenger} && Determines(d, id, Some(c.nextMessenger))
      && d.messengers - {c.nextMessenger} == map[]
  {
  }

  /** Somebody else comes and goes. */
  lemma ComesAndGoes(s: State, n: nat) returns (t: State)
    requires Reachable(s) && OnlyOneAway(s.core, n) && n < UINT32_MODULUS && (n + 1) % UINT32_MODULUS != 1
    ensures Reachable(t) && OnlyOneAway(t.core, (n + 1) % UINT32_MODULUS)
  {
    hide Reachable, Generates, Determines;
    var id, m := (n + 1) % UINT32_MODULUS, s.core.nextMessenger;
    NextGenerated(s.core, n);
    OnlyMessenger(s.core, id, 1);
    var r := ReachStep(s, RegisterEvent(id, 1, 0, "", true));
    assert r.core.table[id].id == id;
    t := ReachStep(r, DeregisterEvent(id, Some(m)));
    assert t.core.table.Keys == {1};
  }

  /** The first participant registers and disconnects. */
  lemma FirstIsAway() returns (t: State)
    ensures Reachable(t) && OnlyOneAway(t.core, 1)
  {
    hide Reachable, Generates, Determines;
    var core := Core(0, map[], {}, map[], 0, {}, 0, 0, 0);
    var s := State(core, (p: Id, u: nat) => 0, []);
    ReachStart(s);
    NextGenerated(core, 0);
    OnlyMessenger(core, 1, 1);
    var r := ReachStep(s, RegisterEvent(1, 1, 0, "", true));
    assert r.core.table[1].id == 1 && r.core.connected == {1};
    t := ReachStep(r, DisconnectEvent(1, Some(0)));
    assert t.core.connected == {};
  }

  lemma ReachStart(s: State)
    requires Init(s) && NothingDelivered(s)
    ensures Reachable(s)
  {
    var states, events: seq<Event> := [s], [];
    assert IsRun(states, events) && states[|events|] == s;
  }

  lemma {:induction false} CountsUp(n: nat) returns (t: State)
    requires 1 <= n < UINT32_MODULUS
    ensures Reachable(t) && OnlyOneAway(t.core, n)
  {
    hide Reachable, OnlyOneAway;
    if n == 1 {
      t := FirstIsAway();
    } else {
      t := CountsUp(n - 1);
      t := ComesAndGoes(t, n - 1);
    }
  }

  /** There is a run in which the ids have wrapped while participant 1 was away: the next
      registration takes its id, and its record is gone. */
  lemma RegisteredIdReused() returns (s: State, e: Event)
    ensures Reachable(s) && Enabled(s, e) && e == RegisterEvent(1, 1, 0, "", true)
    ensures 1 in s.core.table && !s.core.table[1].connected && !Fresh(s, 1)
    ensures Apply(s, e).core.table.Keys == {1} && Apply(s, e).core.table[1] != s.core.table[1]
  {
    hide Reachable, Generates;
    s := CountsUp(UINT32_MODULUS - 1);
    s := ComesAndGoes(s, UINT32_MODULUS - 1);
    NextGenerated(s.core, 0);
    e := RegisterEvent(1, 1, 0, "", true);
  }
}
