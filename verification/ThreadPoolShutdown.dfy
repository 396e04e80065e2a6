/** Shutdown of the thread pool: whatever the schedule, it starts no thread, ends, and joins
    every thread exactly once. */
module PoolShutdown {
  import opened PoolSteps
  import opened PoolInvariant
  import opened PoolTheorems

  /** Steps of the pool's own threads and of its destructor. */
  predicate Internal(e: Event) { !e.Caller? }

  // ---------- how much is left to do ----------

  /** Steps a task thread can still take once it must stop at its next status check. */
  function ThreadRank(p: ThreadPc): nat {
    match p
    case Ready => 8
    case SettingUp | Iterating => 7
    case Reporting(_) => 6
    case Cleaning => 4
    case Counting => 3
    case Pushing => 2
    case Notifying => 1
    case Exited => 0
  }

  function DispatcherRank(d: DispatcherPc): nat {
    match d
    case AtTop | Blocked => 4
    case Woken => 3
    case Reserved => 2
    case Popped(_) => 1
    case DispatcherExited => 0
  }

  function JoinerRank(j: JoinerPc): nat {
    match j
    case Joining(_) => 4
    case OwesNotify => 3
    case Idle => 2
    case Got(_) => 1
    case JoinerExited => 0
  }

  function DestructorRank(x: DestructorPc, threads: set<Handle>): nat {
    match x
    case NotStarted => |threads| + 8
    case PushDispatch => |threads| + 7
    case PushJoinable => |threads| + 6
    case NotifyDone => |threads| + 5
    case NotifyAvailable => |threads| + 4
    case AwaitDispatcher => |threads| + 3
    case AwaitJoiner => |threads| + 2
    case JoinTasks(done) => |threads - done| + 1
    case Destroyed => 0
  }

  ghost function ThreadsRank(pc: map<Handle, ThreadPc>, hs: set<Handle>): nat
    requires hs <= pc.Keys
  {
    if hs == {} then 0 else
      var h :| h in hs;
      ThreadRank(pc[h]) + ThreadsRank(pc, hs - {h})
  }

  lemma {:induction false} ThreadsRankSplit(pc: map<Handle, ThreadPc>, hs: set<Handle>, h: Handle)
    requires hs <= pc.Keys && h in hs
    ensures ThreadsRank(pc, hs) == ThreadRank(pc[h]) + ThreadsRank(pc, hs - {h})
    decreases hs
  {
    var k :| k in hs && ThreadsRank(pc, hs) == ThreadRank(pc[k]) + ThreadsRank(pc, hs - {k});
    if k != h {
      ThreadsRankSplit(pc, hs - {k}, h);
      ThreadsRankSplit(pc, hs - {h}, k);
      assert hs - {k} - {h} == hs - {h} - {k};
    }
  }

  lemma {:induction false} ThreadsRankFrame(pc: map<Handle, ThreadPc>, qc: map<Handle, ThreadPc>, hs: set<Handle>)
    requires hs <= pc.Keys && hs <= qc.Keys
    requires forall h :: h in hs ==> pc[h] == qc[h]
    ensures ThreadsRank(pc, hs) == ThreadsRank(qc, hs)
    decreases hs
  {
    if hs != {} {
      var h :| h in hs;
      ThreadsRankSplit(pc, hs, h);
      ThreadsRankSplit(qc, hs, h);
      ThreadsRankFrame(pc, qc, hs - {h});
    }
  }

  /** One thread moves: the sum changes by the change of its rank. */
  lemma ThreadsRankMove(pc: map<Handle, ThreadPc>, h: Handle, p: ThreadPc)
    requires h in pc
    ensures var qc := pc[h := p];
      && qc.Keys == pc.Keys
      && ThreadsRank(qc, qc.Keys) + ThreadRank(pc[h]) == ThreadsRank(pc, pc.Keys) + ThreadRank(p)
  {
    var qc := pc[h := p];
    assert qc.Keys == pc.Keys;
    ThreadsRankSplit(pc, pc.Keys, h);
    ThreadsRankSplit(qc, qc.Keys, h);
    ThreadsRankFrame(pc, qc, pc.Keys - {h});
  }

  /** An upper bound on the internal steps left once the pool is closing. */
  ghost function Rank(s: State): nat {
    DispatcherRank(s.dispatcher) + JoinerRank(s.joiner)
    + DestructorRank(s.destructor, s.sh.threads) + ThreadsRank(s.pc, s.pc.Keys)
  }

  // ---------- every internal step is progress ----------

  /** What closing freezes: no thread is started or forgotten any more. */
  ghost predicate ClosedStep(s: State, t: State, internal: bool) {
    && t.sh.closing
    && t.pc.Keys == s.pc.Keys
    && t.sh.threads == s.sh.threads
    && (if internal then Rank(t) < Rank(s) else Rank(t) == Rank(s))
  }

  lemma CallerClosed(s: State, e: CallerStep)
    requires Inv(s) && s.sh.closing && CallerEnabled(s, e)
    ensures ClosedStep(s, CallerApply(s, e), false)
  {
  }

  lemma DispatcherClosed(s: State, e: DispatcherStep)
    requires Inv(s) && s.sh.closing && DispatcherEnabled(s, e)
    ensures ClosedStep(s, DispatcherApply(s, e), true)
  {
  }

  lemma JoinerClosed(s: State, e: JoinerStep)
    requires Inv(s) && s.sh.closing && JoinerEnabled(s, e)
    ensures ClosedStep(s, JoinerApply(s, e), true)
  {
  }

  lemma TaskClosed(s: State, e: TaskStep)
    requires Inv(s) && s.sh.closing && TaskEnabled(s, e)
    ensures ClosedStep(s, TaskApply(s, e), true)
  {
    hide JoinableQueue, DispatchQueue, Joins, WaiterWakeUps, Phases, CallsMatch, Statuses, Slots, DispatcherWakeUp;
    hide ThreadsRank;
    ThreadsRankMove(s.pc, e.h, TaskApply(s, e).pc[e.h]);
  }

  lemma JoinTaskClosed(s: State, e: DestructorStep)
    requires s.sh.closing && DestructorEnabled(s, e) && e.JoinTask?
    ensures ClosedStep(s, DestructorApply(s, e), true)
  {
    hide ThreadsRank;
    var done := s.destructor.joinedSoFar;
    assert s.sh.threads - (done + {e.h}) == (s.sh.threads - done) - {e.h};
  }

  lemma NotifyClosed(s: State, e: DestructorStep)
    requires s.sh.closing && DestructorEnabled(s, e) && (e.CloseNotifyDone? || e.CloseNotifyAvailable?)
    ensures ClosedStep(s, DestructorApply(s, e), true)
  {
    hide ThreadsRank;
  }

  lemma DestructorClosed(s: State, e: DestructorStep)
    requires Inv(s) && s.sh.closing && DestructorEnabled(s, e)
    ensures ClosedStep(s, DestructorApply(s, e), true)
  {
    hide InvCore, Lifecycle, ThreadsRank, WakeWaiters, WakeDispatcher;
    NotBeforeClosing(s);
    if e.JoinTask? {
      JoinTaskClosed(s, e);
    } else if e.CloseNotifyDone? || e.CloseNotifyAvailable? {
      NotifyClosed(s, e);
    } else if e.JoinJoiner? {
      assert s.sh.threads - {} == s.sh.threads;
    }
  }

  lemma NotBeforeClosing(s: State)
    requires Inv(s) && s.sh.closing
    ensures !s.destructor.NotStarted?
  {
  }

  lemma StepClosed(s: State, e: Event)
    requires Inv(s) && s.sh.closing && Enabled(s, e)
    ensures ClosedStep(s, Apply(s, e), Internal(e))
  {
    hide Inv, ClosedStep, CallerApply, DispatcherApply, JoinerApply, TaskApply, DestructorApply;
    match e
    case Caller(c) => CallerClosed(s, c);
    case Dispatcher(d) => DispatcherClosed(s, d);
    case Joiner(j) => JoinerClosed(s, j);
    case Task(t) => TaskClosed(s, t);
    case Destructor(x) => DestructorClosed(s, x);
  }

  function InternalSteps(events: seq<Event>): nat {
    if events == [] then 0
    else InternalSteps(events[..|events| - 1]) + if Internal(events[|events| - 1]) then 1 else 0
  }

  /** After should_close_ is set no thread is created, every thread not yet joined is marked
      cancelled, and the number of internal steps still possible is bounded by the rank of
      the closing state, under any schedule. */
  lemma {:induction false} ShutdownIsFinite(states: seq<State>, events: seq<Event>, i: nat)
    requires IsPath(states, events) && Inv(states[0]) && states[0].sh.closing && i < |states|
    ensures Inv(states[i]) && states[i].sh.closing
    ensures states[i].pc.Keys == states[0].pc.Keys && states[i].sh.threads == states[0].sh.threads
    ensures LiveThreads(states[i]) <= states[i].sh.cancelled
    ensures InternalSteps(events[..i]) + Rank(states[i]) <= Rank(states[0])
  {
    hide Apply, Enabled, Rank;
    if i > 0 {
      ShutdownIsFinite(states, events, i - 1);
      StepInv(states[i - 1], events[i - 1]);
      StepClosed(states[i - 1], events[i - 1]);
      assert events[..i][..i - 1] == events[..i - 1];
    }
  }

  // ---------- and some internal step is always possible ----------

  lemma ThreadAlwaysMoves(s: State, h: Handle)
    requires Inv(s) && s.sh.closing && h in s.pc && !s.pc[h].Exited?
    ensures exists t: TaskStep :: TaskEnabled(s, t)
  {
    hide Inv;
    InvJoiner(s);
    InvCalls(s);
    match s.pc[h]
    case SettingUp => assert TaskEnabled(s, TaskSetUp(h, Running));
    case Reporting(_) => assert TaskEnabled(s, TaskReport(h));
    case Ready => assert TaskEnabled(s, TaskBegin(h));
    case Iterating => assert TaskEnabled(s, TaskIterate(h, Running));
    case Cleaning => assert TaskEnabled(s, TaskCleanUp(h));
    case Counting => assert TaskEnabled(s, TaskCount(h));
    case Pushing => assert TaskEnabled(s, TaskPush(h));
    case Notifying => assert TaskEnabled(s, TaskNotify(h));
  }

  lemma InvCalls(s: State)
    requires Inv(s)
    ensures s.calls.Keys == s.pc.Keys
  {
  }

  lemma InvJoiner(s: State)
    requires Inv(s) && s.sh.closing
    ensures !s.joiner.Joining?
  {
  }

  /** A closing pool that is not destroyed yet can always take an internal step: neither the
      service loops nor the destructor can get stuck. */
  lemma ShutdownProgress(s: State)
    requires Inv(s) && s.sh.closing && !s.destructor.Destroyed?
    ensures exists e: Event :: Internal(e) && Enabled(s, e)
  {
    InvJoiner(s);
    match s.destructor
    case PushDispatch => Witness(s, Destructor(ClosePushDispatch));
    case PushJoinable => Witness(s, Destructor(ClosePushJoinable));
    case NotifyDone => Witness(s, Destructor(CloseNotifyDone));
    case NotifyAvailable => Witness(s, Destructor(CloseNotifyAvailable));
    case AwaitDispatcher => DispatcherExits(s);
    case AwaitJoiner => JoinerExits(s);
    case JoinTasks(done) =>
      if s.sh.threads - done != {} {
        var h :| h in s.sh.threads - done;
        if s.pc[h].Exited? {
          Witness(s, Destructor(JoinTask(h)));
        } else {
          ThreadAlwaysMoves(s, h);
          var t: TaskStep :| TaskEnabled(s, t);
          Witness(s, Task(t));
        }
      } else {
        assert done == s.sh.threads by { assert s.sh.threads == done + (s.sh.threads - done); }
        Witness(s, Destructor(FinishClose));
      }
  }

  lemma Witness(s: State, e: Event)
    requires Internal(e) && Enabled(s, e)
    ensures exists f: Event :: Internal(f) && Enabled(s, f)
  {
  }

  lemma DispatcherExits(s: State)
    requires Inv(s) && s.destructor.AwaitDispatcher?
    ensures exists e: Event :: Internal(e) && Enabled(s, e)
  {
    InvJoiner(s);
    match s.dispatcher
    case AtTop => Witness(s, Dispatcher(DispatchCheck));
    case Blocked => Witness(s, Joiner(JoinerNotify));
    case Woken => Witness(s, Dispatcher(DispatchRecheck));
    case Reserved => Witness(s, Dispatcher(DispatchPop));
    case Popped(_) => Witness(s, Dispatcher(DispatchLaunch));
    case DispatcherExited => Witness(s, Destructor(JoinDispatcher));
  }

  lemma JoinerExits(s: State)
    requires Inv(s) && s.destructor.AwaitJoiner?
    ensures exists e: Event :: Internal(e) && Enabled(s, e)
  {
    InvJoiner(s);
    match s.joiner
    case Idle => Witness(s, Joiner(JoinerPop));
    case Got(_) => Witness(s, Joiner(JoinerLock));
    case OwesNotify => Witness(s, Joiner(JoinerNotify));
    case JoinerExited => Witness(s, Destructor(JoinJoiner));
    case Joining(_) => assert false;
  }

  /** Every thread ever created is joined exactly once, by the joiner or by the destructor:
      never twice on the way, never before it has ended, and none missing at the end, when
      both service loops have left. */
  lemma JoinedExactlyOnce(states: seq<State>, events: seq<Event>, i: nat, h: Handle)
    requires IsRun(states, events) && i < |states|
    ensures var s := states[i];
      && s.joined[h] <= 1
      && (s.joined[h] == 1 ==> h in s.pc && s.pc[h].Exited?)
      && (s.destructor.Destroyed? ==>
            s.dispatcher.DispatcherExited? && s.joiner.JoinerExited? && (h in s.pc ==> s.joined[h] == 1))
  {
    RunInv(states, events, i);
  }

  /** Shutdown completes: whenever a closing pool has come to rest, which by
      `ShutdownIsFinite` it must, the destructor has returned and every thread ever created
      has ended and been joined exactly once. */
  lemma ShutdownCompletes(states: seq<State>, events: seq<Event>, i: nat, h: Handle)
    requires IsRun(states, events) && i < |states| && states[i].sh.closing
    requires forall e: Event :: Internal(e) ==> !Enabled(states[i], e)
    ensures states[i].destructor.Destroyed?
    ensures h in states[i].pc ==> states[i].pc[h].Exited? && states[i].joined[h] == 1
  {
    RunInv(states, events, i);
    if !states[i].destructor.Destroyed? {
      ShutdownProgress(states[i]);
    }
    JoinedExactlyOnce(states, events, i, h);
  }
}
