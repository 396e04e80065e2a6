/** What the file locks guarantee, in every state of every run. */
module FileLockTheorems {
  import opened FileLocks

  // ---------- safety ----------

  /** At most one operation, reading or writing, is inside the locks of a path. */
  lemma OneOperationPerPath(states: seq<State>, events: seq<Event>, i: nat, t: nat, u: nat)
    requires IsRun(states, events) && i < |states| && t < |states[i].phases| && u < |states[i].phases|
    requires HoldsRead(states[i].phases[t]) && HoldsRead(states[i].phases[u])
    requires states[i].phases[t].op.key == states[i].phases[u].op.key
    ensures t == u
  {
    RunInv(states, events, i);
    assert ReadHolder(states[i], t, states[i].phases[t].op.key);
    assert ReadHolder(states[i], u, states[i].phases[t].op.key);
  }

  /** A locked key has exactly one holder; a path locked for writing is locked for reading,
      by the same thread. */
  lemma WriterHoldsRead(states: seq<State>, events: seq<Event>, i: nat, k: Key)
    requires IsRun(states, events) && i < |states|
    ensures k in states[i].read <==> exists t: nat :: ReadHolder(states[i], t, k)
    ensures k in states[i].write ==>
      exists t: nat :: WriteHolder(states[i], t, k) && ReadHolder(states[i], t, k)
    ensures states[i].write <= states[i].read
  {
    var s := states[i];
    RunInv(states, events, i);
    forall k | k in s.write ensures exists t: nat :: WriteHolder(s, t, k) && ReadHolder(s, t, k) {
      var t: nat :| WriteHolder(s, t, k);
      WriteOwner(s, t, t, k);
    }
  }

  /** The write lock is never contended: whoever asks for it gets it at once. */
  lemma WriteLockAtOnce(states: seq<State>, events: seq<Event>, i: nat)
    requires IsRun(states, events) && i < |events| && events[i].LockWrite?
    ensures states[i].phases[events[i].t].AtWrite?
    ensures states[i + 1].phases[events[i].t] == Active(states[i].phases[events[i].t].op)
  {
    RunInv(states, events, i);
    WriteIsFree(states[i], events[i].t);
  }

  /** `t` asks for a lock that `u` holds. */
  predicate WaitsFor(s: State, t: nat, u: nat) {
    && t < |s.phases| && u < |s.phases|
    && var p, q := s.phases[t], s.phases[u];
       || ((p.AtRead? || p.AsleepRead? || p.WokenRead?) && HoldsRead(q) && q.op.key == p.op.key)
       || ((p.AtWrite? || p.AsleepWrite? || p.WokenWrite?) && HoldsWrite(q) && q.op.key == p.op.key)
  }

  /** Nobody who holds a lock waits for one, so chains of waiting are one link long and
      there is no cycle. */
  lemma NoWaitCycle(states: seq<State>, events: seq<Event>, i: nat, chain: seq<nat>)
    requires IsRun(states, events) && i < |states| && |chain| >= 2
    requires forall j :: 0 <= j < |chain| - 1 ==> WaitsFor(states[i], chain[j], chain[j + 1])
    ensures |chain| == 2 && chain[0] != chain[1]
    ensures chain[0] < |states[i].phases| && !HoldsRead(states[i].phases[chain[0]])
  {
    var s := states[i];
    RunInv(states, events, i);
    assert WaitsFor(s, chain[0], chain[0 + 1]);
    WaiterHoldsNothing(s, chain[0], chain[1]);
    if |chain| > 2 {
      assert WaitsFor(s, chain[1], chain[1 + 1]);
      WaiterHoldsNothing(s, chain[1], chain[2]);
      assert false;
    }
  }

  lemma WaiterHoldsNothing(s: State, t: nat, u: nat)
    requires Inv(s) && WaitsFor(s, t, u)
    ensures !HoldsRead(s.phases[t]) && HoldsRead(s.phases[u])
  {
    if s.phases[t].AtWrite? {
      WriteIsFree(s, t);
      assert WriteHolder(s, u, s.phases[t].op.key);
    }
  }

  // ---------- everything comes to an end ----------

  /** An upper bound on the steps a thread still causes. */
  function Weight(p: Phase): nat {
    match p
    case Idle => 0
    case OwesRead(_) => 2
    case AtUnlockRead(_) => 3
    case OwesWrite(_) => 5
    case AtUnlockWrite(_) => 6
    case Active(_) => 7
    case AtWrite(_) => 8
    case AsleepWrite(_) => 9
    case WokenWrite(_) => 10
    case AsleepRead(_) => 11
    case WokenRead(_) => 12
    case AtRead(_) => 13
  }

  function Work(ps: seq<Phase>): nat {
    if ps == [] then 0 else Weight(ps[0]) + Work(ps[1..])
  }

  lemma {:induction false} WorkMove(ps: seq<Phase>, t: nat, p: Phase)
    requires t < |ps|
    ensures Work(ps[t := p]) == Work(ps) - Weight(ps[t]) + Weight(p)
  {
    if t == 0 {
      assert ps[t := p][1..] == ps[1..];
    } else {
      WorkMove(ps[1..], t - 1, p);
      assert ps[t := p][1..] == ps[1..][t - 1 := p];
    }
  }

  lemma {:induction false} WorkBound(ps: seq<Phase>)
    ensures Work(ps) <= 13 * |ps|
  {
    if ps != [] { WorkBound(ps[1..]); }
  }

  /** A step of an operation that has already begun. */
  predicate GoesOn(e: Event) { !e.Call? && !e.SpuriousWake? }

  lemma StepWorks(s: State, e: Event)
    requires Inv(s) && Enabled(s, e) && GoesOn(e)
    ensures Work(Apply(s, e).phases) < Work(s.phases)
  {
    hide Work;
    if e.LockWrite? { WriteIsFree(s, e.t); }
    WorkMove(s.phases, e.t, Apply(s, e).phases[e.t]);
    if e.NotifyRead? && ReadSleeper(s, e.chosen) {
      WorkMove(s.phases[e.t := Idle], e.chosen, Woken(s.phases[e.chosen]));
    }
  }

  /** While an operation is under way, some operation can go on: there is no deadlock,
      although notify_one may wake a thread that waits for another file. */
  lemma NeverStuck(s: State, t: nat)
    requires Inv(s) && t < |s.phases| && !s.phases[t].Idle?
    ensures exists e :: Enabled(s, e) && GoesOn(e)
  {
    if s.phases[t].AsleepRead? {
      assert ReadSleeper(s, t);
      var u :| 0 <= u < |s.phases| && Moving(s.phases[u]);
      CanGoOn(s, u);
    } else {
      CanGoOn(s, t);
    }
  }

  lemma CanGoOn(s: State, u: nat)
    requires Inv(s) && u < |s.phases| && !s.phases[u].Idle? && !s.phases[u].AsleepRead?
    ensures exists e :: Enabled(s, e) && GoesOn(e)
  {
    var p := s.phases[u];
    assert OnlyAtWrite(p);
    match p {
      case AtRead(_) => assert Enabled(s, LockRead(u));
      case WokenRead(_) => assert Enabled(s, LockRead(u));
      case AtWrite(_) => assert Enabled(s, LockWrite(u));
      case Active(_) => assert Enabled(s, Act(u));
      case AtUnlockWrite(_) => assert Enabled(s, UnlockWrite(u));
      case AtUnlockRead(_) => assert Enabled(s, UnlockRead(u));
      case OwesWrite(_) => assert Enabled(s, NotifyWrite(u, 0));
      case OwesRead(_) =>
        if c: nat :| ReadSleeper(s, c) {
          assert Enabled(s, NotifyRead(u, c));
        } else {
          assert Enabled(s, NotifyRead(u, 0));
        }
    }
  }

  /** A spurious wake-up costs one step more. */
  lemma SpuriousWakeCosts(s: State, e: Event)
    requires Inv(s) && Enabled(s, e) && e.SpuriousWake?
    ensures Work(Apply(s, e).phases) == Work(s.phases) + 1
  {
    hide Work;
    WorkMove(s.phases, e.t, Apply(s, e).phases[e.t]);
  }

  /** The steps of operations under way, and the spurious wake-ups, from `from` on. */
  function StepsFrom(events: seq<Event>, from: nat): nat
    decreases |events| - from
  {
    if from >= |events| then 0 else StepsFrom(events, from + 1) + if GoesOn(events[from]) then 1 else 0
  }

  function WakesFrom(events: seq<Event>, from: nat): nat
    decreases |events| - from
  {
    if from >= |events| then 0 else WakesFrom(events, from + 1) + if events[from].SpuriousWake? then 1 else 0
  }

  /** Once no new calls are made, the operations under way take no more steps than their
      weight plus one for every spurious wake-up, under any schedule; and when nothing can go
      on any more, every operation has returned and no lock is left. */
  lemma {:induction false} OperationsEnd(states: seq<State>, events: seq<Event>, from: nat)
    requires IsRun(states, events) && from <= |events|
    requires forall i :: from <= i < |events| ==> !events[i].Call?
    ensures StepsFrom(events, from) <= Work(states[from].phases) + WakesFrom(events, from)
    ensures Work(states[from].phases) <= 13 * |states[from].phases|
    ensures (forall e :: GoesOn(e) ==> !Enabled(states[|events|], e)) ==>
      && states[|events|].read == {} && states[|events|].write == {}
      && forall t :: 0 <= t < |states[|events|].phases| ==> states[|events|].phases[t].Idle?
    decreases |events| - from
  {
    hide Work, Enabled, Apply, Inv;
    WorkBound(states[from].phases);
    if from < |events| {
      RunInv(states, events, from);
      if GoesOn(events[from]) {
        StepWorks(states[from], events[from]);
      } else {
        SpuriousWakeCosts(states[from], events[from]);
      }
      OperationsEnd(states, events, from + 1);
    } else {
      RunInv(states, events, |events|);
      if forall e :: GoesOn(e) ==> !Enabled(states[|events|], e) {
        Quiet(states[|events|]);
      }
    }
  }

  lemma Quiet(s: State)
    requires Inv(s) && forall e :: GoesOn(e) ==> !Enabled(s, e)
    ensures forall t :: 0 <= t < |s.phases| ==> s.phases[t].Idle?
    ensures s.read == {} && s.write == {}
  {
    forall t | 0 <= t < |s.phases| ensures s.phases[t].Idle? {
      if !s.phases[t].Idle? { NeverStuck(s, t); }
    }
  }

  // ---------- when the right thread is woken ----------

  /** Nobody sleeps on a free file without a wake-up on its way. */
  ghost predicate Prompt(s: State) {
    (exists t: nat :: ReadSleeper(s, t) && s.phases[t].op.key !in s.read) ==>
      exists u :: 0 <= u < |s.phases| && (s.phases[u].WokenRead? || s.phases[u].OwesRead?)
  }

  ghost predicate CallsOnly(events: seq<Event>, keys: set<Key>) {
    forall i :: 0 <= i < |events| && events[i].Call? ==> events[i].op.key in keys
  }

  /** States of runs that only touch the given paths. */
  ghost predicate Reachable(keys: set<Key>, s: State) {
    exists states, events :: IsRun(states, events) && CallsOnly(events, keys) && states[|events|] == s
  }

  ghost predicate AlwaysPrompt(keys: set<Key>) {
    forall s :: Reachable(keys, s) ==> Prompt(s)
  }

  ghost predicate OneKey(s: State, k: Key) {
    forall t :: 0 <= t < |s.phases| && !s.phases[t].Idle? ==> s.phases[t].op.key == k
  }

  lemma OneKeyStep(s: State, e: Event, k: Key)
    requires Inv(s) && Enabled(s, e) && OneKey(s, k) && Prompt(s) && (e.Call? ==> e.op.key == k)
    ensures OneKey(Apply(s, e), k) && Prompt(Apply(s, e))
  {
    hide Inv;
    var r := Apply(s, e);
    if t: nat :| ReadSleeper(r, t) && k !in r.read {
      if e.UnlockRead? {
        assert r.phases[e.t].OwesRead?;
      } else if e.NotifyRead? {
        assert ReadSleeper(s, t);
        assert r.phases[e.chosen].WokenRead?;
      } else if e.SpuriousWake? && s.phases[e.t].AsleepRead? {
        assert r.phases[e.t].WokenRead?;
      } else {
        assert ReadSleeper(s, t) && s.phases[t].op.key !in s.read;
        var u :| 0 <= u < |s.phases| && (s.phases[u].WokenRead? || s.phases[u].OwesRead?);
        assert u < |r.phases| && (r.phases[u].WokenRead? || r.phases[u].OwesRead?);
      }
    }
  }

  lemma {:induction false} OneKeyRun(states: seq<State>, events: seq<Event>, k: Key, i: nat)
    requires IsRun(states, events) && CallsOnly(events, {k}) && i < |states|
    ensures OneKey(states[i], k) && Prompt(states[i])
  {
    hide Enabled, Apply, Prompt, Inv;
    if i > 0 {
      OneKeyRun(states, events, k, i - 1);
      RunInv(states, events, i - 1);
      OneKeyStep(states[i - 1], events[i - 1], k);
    } else {
      StartsPrompt(states[0]);
    }
  }

  lemma StartsPrompt(s: State)
    requires exists n: nat :: s == Init(n)
    ensures Prompt(s)
  {
  }

  lemma ReachStart(keys: set<Key>, n: nat)
    ensures Reachable(keys, Init(n))
  {
    var states, events: seq<Event> := [Init(n)], [];
    assert IsRun(states, events) && CallsOnly(events, keys) && states[|events|] == Init(n);
  }

  lemma ReachStep(keys: set<Key>, s: State, e: Event, r: State)
    requires Reachable(keys, s) && Enabled(s, e) && (e.Call? ==> e.op.key in keys) && Apply(s, e) == r
    ensures Reachable(keys, r)
  {
    hide Enabled, Apply;
    var states, events :| IsRun(states, events) && CallsOnly(events, keys) && states[|events|] == s;
    var states', events' := states + [r], events + [e];
    assert IsRun(states', events') && CallsOnly(events', keys) && states'[|events'|] == r;
  }

  /** Four threads and the keys locked for reading. */
  function Four(a: Phase, b: Phase, c: Phase, d: Phase, read: set<Key>): State {
    State([a, b, c, d], read, {})
  }

  lemma TwoActive(p: Key, q: Key)
    requires p != q
    ensures Reachable({p, q}, Four(Active(Op(p, false)), Active(Op(q, false)), Idle, Idle, {p, q}))
  {
    hide Reachable;
    var keys, x, y := {p, q}, Op(p, false), Op(q, false);
    ReachStart(keys, 4);
    assert Init(4) == Four(Idle, Idle, Idle, Idle, {});
    ReachStep(keys, Init(4), Call(0, x), Four(AtRead(x), Idle, Idle, Idle, {}));
    ReachStep(keys, Four(AtRead(x), Idle, Idle, Idle, {}), LockRead(0), Four(Active(x), Idle, Idle, Idle, {p}));
    ReachStep(keys, Four(Active(x), Idle, Idle, Idle, {p}), Call(1, y), Four(Active(x), AtRead(y), Idle, Idle, {p}));
    ReachStep(keys, Four(Active(x), AtRead(y), Idle, Idle, {p}), LockRead(1),
              Four(Active(x), Active(y), Idle, Idle, keys));
  }

  /** Two threads are in the files, and two more wait for them, one for each. */
  lemma TwoWaiting(p: Key, q: Key)
    requires p != q
    ensures var x, y := Op(p, false), Op(q, false);
      Reachable({p, q}, Four(Active(x), Active(y), AsleepRead(x), AsleepRead(y), {p, q}))
  {
    hide Reachable;
    TwoActive(p, q);
    var keys, x, y := {p, q}, Op(p, false), Op(q, false);
    var a, b := Active(x), Active(y);
    ReachStep(keys, Four(a, b, Idle, Idle, keys), Call(2, x), Four(a, b, AtRead(x), Idle, keys));
    ReachStep(keys, Four(a, b, AtRead(x), Idle, keys), LockRead(2), Four(a, b, AsleepRead(x), Idle, keys));
    ReachStep(keys, Four(a, b, AsleepRead(x), Idle, keys), Call(3, y), Four(a, b, AsleepRead(x), AtRead(y), keys));
    ReachStep(keys, Four(a, b, AsleepRead(x), AtRead(y), keys), LockRead(3),
              Four(a, b, AsleepRead(x), AsleepRead(y), keys));
  }

  /** The first file is given back, but the notification goes to the thread that waits for
      the second; the thread that waits for the first sleeps on. */
  lemma WrongThreadWoken(p: Key, q: Key)
    requires p != q
    ensures var x, y := Op(p, false), Op(q, false);
      Reachable({p, q}, Four(Idle, Active(y), AsleepRead(x), AsleepRead(y), {q}))
  {
    hide Reachable;
    TwoWaiting(p, q);
    var keys, x, y := {p, q}, Op(p, false), Op(q, false);
    var s0 := Four(Active(x), Active(y), AsleepRead(x), AsleepRead(y), keys);
    var s1 := Four(AtUnlockRead(x), Active(y), AsleepRead(x), AsleepRead(y), keys);
    var s2 := Four(OwesRead(x), Active(y), AsleepRead(x), AsleepRead(y), {q});
    var s3 := Four(Idle, Active(y), AsleepRead(x), WokenRead(y), {q});
    ReachStep(keys, s0, Act(0), s1);
    ReachStep(keys, s1, UnlockRead(0), s2);
    assert ReadSleeper(s2, 3);
    ReachStep(keys, s2, NotifyRead(0, 3), s3);
    ReachStep(keys, s3, LockRead(3), Four(Idle, Active(y), AsleepRead(x), AsleepRead(y), {q}));
  }

  lemma NotPrompt(p: Key, q: Key)
    requires p != q
    ensures !AlwaysPrompt({p, q})
  {
    hide Reachable;
    WrongThreadWoken(p, q);
    var x, y := Op(p, false), Op(q, false);
    var last := Four(Idle, Active(y), AsleepRead(x), AsleepRead(y), {q});
    assert ReadSleeper(last, 2) && last.phases[2].op.key !in last.read;
    assert !Prompt(last);
  }

  lemma MoreKeys(some: set<Key>, keys: set<Key>)
    requires some <= keys && AlwaysPrompt(keys)
    ensures AlwaysPrompt(some)
  {
    hide Enabled, Apply, Prompt;
    forall s | Reachable(some, s) ensures Prompt(s) {
      var states, events :| IsRun(states, events) && CallsOnly(events, some) && states[|events|] == s;
      assert CallsOnly(events, keys);
      assert Reachable(keys, s);
    }
  }

  /** The condition variable is shared by all files, so the right thread is always woken
      in time exactly when there is just one file. */
  lemma PromptIffOnePath(keys: set<Key>)
    ensures AlwaysPrompt(keys) <==> forall p, q :: p in keys && q in keys ==> p == q
  {
    hide Enabled, Apply, Prompt;
    if p, q :| p in keys && q in keys && p != q {
      NotPrompt(p, q);
      if AlwaysPrompt(keys) { MoreKeys({p, q}, keys); }
    } else {
      var k: Key := if p :| p in keys then p else "";
      forall s | Reachable(keys, s) ensures Prompt(s) {
        var states, events :| IsRun(states, events) && CallsOnly(events, keys) && states[|events|] == s;
        assert CallsOnly(events, {k});
        OneKeyRun(states, events, k, |events|);
      }
    }
  }
}
