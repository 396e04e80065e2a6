/** What the file locks have to do with the calls of a run: every Get, Put, Delete and MakeDir
    acts once, under the locks its own call asks for. */
module FileLockHistory {
  import opened Basics
  import opened FileLocks
  import opened FileLockTheorems

  lemma OneMoreEvent(events: seq<Event>, i: nat)
    requires i < |events|
    ensures events[..i + 1][..|events[..i + 1]| - 1] == events[..i] && events[..i + 1][i] == events[i]
  {
  }

  /** The latest call of thread `t`. */
  function LatestCall(events: seq<Event>, t: nat): Option<Op> {
    if events == [] then None else
      var last := events[|events| - 1];
      if last.Call? && last.t == t then Some(last.op) else LatestCall(events[..|events| - 1], t)
  }

  function CallsMade(events: seq<Event>, t: nat): nat {
    if events == [] then 0 else
      var last := events[|events| - 1];
      CallsMade(events[..|events| - 1], t) + if last.Call? && last.t == t then 1 else 0
  }

  function ActsDone(events: seq<Event>, t: nat): nat {
    if events == [] then 0 else
      var last := events[|events| - 1];
      ActsDone(events[..|events| - 1], t) + if last == Act(t) then 1 else 0
  }

  /** The file operation of the current call is still to come. */
  predicate BeforeAct(p: Phase) {
    p.AtRead? || p.AsleepRead? || p.WokenRead? || p.AtWrite? || p.AsleepWrite? || p.WokenWrite? || p.Active?
  }

  /** A step changes a thread's operation only by calling. */
  lemma StepOp(s: State, e: Event, t: nat)
    requires Inv(s) && Enabled(s, e) && t < |s.phases|
    ensures var p, q := s.phases[t], Apply(s, e).phases[t];
      && |Apply(s, e).phases| == |s.phases|
      && (e.Call? && e.t == t ==> p.Idle? && !q.Idle? && q.op == e.op && BeforeAct(q))
      && (!(e.Call? && e.t == t) && !q.Idle? ==> !p.Idle? && q.op == p.op)
      && (e == Act(t) ==> BeforeAct(p) && !BeforeAct(q))
      && (!(e.Call? && e.t == t) && e != Act(t) ==> (BeforeAct(q) <==> BeforeAct(p)))
  {
    if e.LockWrite? { WriteIsFree(s, e.t); }
  }

  ghost predicate FollowsCall(p: Phase, call: Option<Op>) {
    !p.Idle? ==> call == Some(p.op)
  }

  lemma {:induction false} AlwaysFollows(states: seq<State>, events: seq<Event>, i: nat, t: nat)
    requires IsRun(states, events) && i < |states| && t < |states[i].phases|
    ensures |states[i].phases| == |states[0].phases|
    ensures FollowsCall(states[i].phases[t], LatestCall(events[..i], t))
    ensures CallsMade(events[..i], t) == ActsDone(events[..i], t) + if BeforeAct(states[i].phases[t]) then 1 else 0
  {
    hide Apply, Enabled, Inv;
    if i > 0 {
      SameThreads(states, events, i - 1);
      AlwaysFollows(states, events, i - 1, t);
      RunInv(states, events, i - 1);
      OneMoreEvent(events, i - 1);
      StepOp(states[i - 1], events[i - 1], t);
    }
  }

  lemma SameThreads(states: seq<State>, events: seq<Event>, i: nat)
    requires IsRun(states, events) && i < |events|
    ensures |states[i + 1].phases| == |states[i].phases|
  {
  }

  /** Every call acts once: a thread has acted as often as it has called, but for the call in
      which it has not acted yet. */
  lemma OneActPerCall(states: seq<State>, events: seq<Event>, i: nat, t: nat)
    requires IsRun(states, events) && i < |states| && t < |states[i].phases|
    ensures CallsMade(events[..i], t) == ActsDone(events[..i], t) + if BeforeAct(states[i].phases[t]) then 1 else 0
    ensures states[i].phases[t].Idle? ==> CallsMade(events[..i], t) == ActsDone(events[..i], t)
  {
    AlwaysFollows(states, events, i, t);
  }

  /** When a thread acts on a file, the path of its latest call is locked for reading, and locked
      for writing exactly if that call writes; and nobody else can act on that path. */
  lemma ActsUnderItsLocks(states: seq<State>, events: seq<Event>, i: nat, t: nat)
    requires IsRun(states, events) && i < |events| && events[i] == Act(t)
    ensures LatestCall(events[..i], t).Some?
    ensures var s, op := states[i], LatestCall(events[..i], t).value;
      && op.key in s.read && (op.key in s.write <==> op.writes)
      && forall u: nat :: u != t && Enabled(s, Act(u)) ==>
           LatestCall(events[..i], u).Some? && LatestCall(events[..i], u).value.key != op.key
  {
    hide Apply;
    var s := states[i];
    RunInv(states, events, i);
    AlwaysFollows(states, events, i, t);
    var k := s.phases[t].op.key;
    assert ReadHolder(s, t, k);
    if s.phases[t].op.writes {
      assert WriteHolder(s, t, k);
    } else if k in s.write {
      var u: nat :| WriteHolder(s, u, k);
      WriteOwner(s, u, u, k);
    }
    forall u: nat | u != t && Enabled(s, Act(u))
      ensures LatestCall(events[..i], u).Some? && LatestCall(events[..i], u).value.key != k
    {
      AlwaysFollows(states, events, i, u);
      assert ReadHolder(s, u, s.phases[u].op.key);
    }
  }

  /** Locks do not outlive calls: a locked path is that of the latest call of a thread that has
      not returned. */
  lemma LockedForACall(states: seq<State>, events: seq<Event>, i: nat, k: Key)
    requires IsRun(states, events) && i < |states| && (k in states[i].read || k in states[i].write)
    ensures exists t: nat :: t < |states[i].phases| && !states[i].phases[t].Idle?
                          && LatestCall(events[..i], t).Some? && LatestCall(events[..i], t).value.key == k
  {
    hide Apply, Enabled;
    RunInv(states, events, i);
    WriterHoldsRead(states, events, i, k);
    var t: nat :| ReadHolder(states[i], t, k);
    AlwaysFollows(states, events, i, t);
  }

  /** A writer gets there: it calls, locks twice and is in the file, with both locks. */
  lemma WriterActive(k: Key)
    ensures Reachable({k}, State([Active(Op(k, true))], {k}, {k}))
  {
    hide Reachable;
    var op, keys := Op(k, true), {k};
    ReachStart(keys, 1);
    assert Init(1) == State([Idle], {}, {});
    ReachStep(keys, State([Idle], {}, {}), Call(0, op), State([AtRead(op)], {}, {}));
    ReachStep(keys, State([AtRead(op)], {}, {}), LockRead(0), State([AtWrite(op)], keys, {}));
    ReachStep(keys, State([AtWrite(op)], keys, {}), LockWrite(0), State([Active(op)], keys, keys));
  }
}
