/** What the thread pool guarantees over whole runs. */
module PoolTheorems {
  import opened Basics
  import opened PoolSteps
  import opened PoolInvariant

  // ---------- every reachable state ----------

  lemma {:induction false} PathInv(states: seq<State>, events: seq<Event>, i: nat)
    requires IsPath(states, events) && Inv(states[0]) && i < |states|
    ensures Inv(states[i])
  {
    hide Apply, Enabled, Inv;
    if i > 0 {
      PathInv(states, events, i - 1);
      StepInv(states[i - 1], events[i - 1]);
    }
  }

  /** Every state of every run satisfies the invariant. */
  lemma RunInv(states: seq<State>, events: seq<Event>, i: nat)
    requires IsRun(states, events) && i < |states|
    ensures Inv(states[i])
  {
    InitInv(states[0]);
    PathInv(states, events, i);
  }

  /** The task threads that have not ended. */
  function LiveThreads(s: State): set<Handle> {
    set h | h in s.pc && !s.pc[h].Exited?
  }

  /** Slot accounting: before closing, pool_size_ counts the thread objects plus the
      dispatcher's reservation, never underflows and never passes a nonzero limit; so the
      running threads stay within the limit. */
  lemma SlotAccounting(states: seq<State>, events: seq<Event>, i: nat)
    requires IsRun(states, events) && i < |states| && !states[i].sh.closing
    ensures var s := states[i];
      && s.sh.poolSize == |s.sh.threads| + (if HoldsSlot(s.dispatcher) then 1 else 0)
      && (s.joiner.Joining? ==> s.sh.poolSize >= 1)
      && (s.max != 0 ==> |LiveThreads(s)| <= s.sh.poolSize <= s.max)
  {
    RunInv(states, events, i);
    var s := states[i];
    SubsetSize(LiveThreads(s), s.sh.threads);
    if s.joiner.Joining? {
      assert InJoinable(s.joinableQ, s.joiner, s.joiner.h);
      SubsetSize({s.joiner.h}, s.sh.threads);
    }
  }

  /** Joining under the mutex is safe: the handle has a thread object, its task is still
      owned, its thread needs the mutex no more, and a step that needs no mutex is possible
      that ends the thread or the join. */
  lemma JoinUnderMutex(states: seq<State>, events: seq<Event>, i: nat)
    requires IsRun(states, events) && i < |states| && states[i].joiner.Joining?
    ensures var s := states[i]; var h := s.joiner.h;
      && h in s.sh.threads && h in s.sh.tasks && h in s.pc && PastMutex(s.pc[h])
      && (Enabled(s, Task(TaskNotify(h))) || Enabled(s, Joiner(JoinerFinish)))
  {
    RunInv(states, events, i);
    assert InJoinable(states[i].joinableQ, states[i].joiner, states[i].joiner.h);
  }

  /** No dangling task pointer: a task object is owned by the pool from the moment its thread
      exists until that thread has been joined; and the handle the dispatcher is about to
      start always finds its task and starts it for the first time. */
  lemma TaskPointersValid(states: seq<State>, events: seq<Event>, i: nat, h: Handle)
    requires IsRun(states, events) && i < |states|
    ensures var s := states[i];
      && (h in s.pc && !s.pc[h].Exited? ==> h in s.sh.tasks)
      && (h in s.pc && s.joined[h] == 0 ==> h in s.sh.tasks)
      && (s.dispatcher == Popped(h) && !s.sh.closing ==> h in s.sh.tasks && h !in s.pc)
  {
    RunInv(states, events, i);
    var s := states[i];
    if s.dispatcher == Popped(h) && !s.sh.closing {
      assert InDispatch(s.dispatchQ, s.dispatcher, h);
    }
  }

  // ---------- wake-ups ----------

  /** What lets an owed notify_all happen: the thread's own next step, or, when that step
      waits for the mutex, a step that brings the joiner closer to releasing it. */
  predicate ThreadCanMove(s: State, h: Handle) {
    || Enabled(s, Task(TaskCleanUp(h))) || Enabled(s, Task(TaskCount(h)))
    || Enabled(s, Task(TaskPush(h))) || Enabled(s, Task(TaskNotify(h)))
    || (s.joiner.Joining? && (Enabled(s, Task(TaskNotify(s.joiner.h))) || Enabled(s, Joiner(JoinerFinish))))
  }

  /** A caller asleep in WaitForCompletion on a finished task is always owed the notify_all
      of that task's thread, and nothing can keep that thread from reaching it. */
  lemma NoLostCompletion(states: seq<State>, events: seq<Event>, i: nat, w: nat)
    requires IsRun(states, events) && i < |states|
    requires w in states[i].waiters && states[i].waiters[w].Sleeping?
    ensures var s := states[i]; var h := s.waiters[w].h;
      && h in s.sh.status
      && (s.sh.status[h] != Running ==> h in s.pc && OwesDone(s.pc[h]) && ThreadCanMove(s, h))
  {
    hide Ownership, DispatchQueue, JoinableQueue, Statuses, Joins, Phases, CallsMatch;
    RunInv(states, events, i);
    if states[i].joiner.Joining? {
      JoinUnderMutex(states, events, i);
    }
  }

  /** A dispatcher asleep while a slot is free is always owed a notify_one: by the joiner
      before closing, by the joiner or the destructor after it. */
  lemma NoLostSlot(states: seq<State>, events: seq<Event>, i: nat)
    requires IsRun(states, events) && i < |states| && states[i].dispatcher.Blocked?
    ensures var s := states[i];
      && (!s.sh.closing && s.sh.poolSize < s.max ==> s.joiner.OwesNotify?)
      && (s.sh.closing ==> s.joiner.OwesNotify? || OwesAvailable(s.destructor))
  {
    RunInv(states, events, i);
  }

  // ---------- the life of one task ----------

  /** The calls on a dispatched task are SetUp, RunAtomic*, and CleanUp once at the end. */
  lemma CallOrder(states: seq<State>, events: seq<Event>, i: nat, h: Handle)
    requires IsRun(states, events) && i < |states| && h in states[i].pc
    ensures var s := states[i];
      && h in s.calls
      && (s.calls[h] == [] || BodyCalls(s.calls[h])
          || (s.calls[h][|s.calls[h]| - 1] == CleanUpCall && BodyCalls(s.calls[h][..|s.calls[h]| - 1])))
      && (s.pc[h].Exited? ==> |s.calls[h]| > 0 && s.calls[h][|s.calls[h]| - 1] == CleanUpCall)
  {
    RunInv(states, events, i);
  }

  /** Cancelled before finishing: recorded as cancelled and still running, or ended so. */
  predicate CancelTook(s: State, h: Handle) {
    h in s.sh.status &&
    ((s.sh.status[h] == Running && h in s.sh.cancelled) || s.sh.status[h] == Cancelled)
  }

  /** How often RunAtomic has begun. */
  function Runs(s: State, h: Handle): nat {
    if h in s.calls then multiset(s.calls[h])[RunCall] else 0
  }

  /** Iterations begun, plus the one that is already allowed to begin. */
  function CommittedRuns(s: State, h: Handle): nat {
    Runs(s, h) + if h in s.pc && s.pc[h].Ready? then 1 else 0
  }

  predicate Doomed(s: State, h: Handle) {
    h in s.sh.cancelled || (h in s.pc && PastLoop(s.pc[h]))
  }

  /** What one step may do to the life of task `h`. */
  ghost predicate LifeStep(s: State, t: State, h: Handle) {
    && (h in s.sh.status && s.sh.status[h] != Running ==> h in t.sh.status && t.sh.status[h] == s.sh.status[h])
    && (CancelTook(s, h) ==> CancelTook(t, h))
    && (Doomed(s, h) ==> Doomed(t, h) && CommittedRuns(t, h) <= CommittedRuns(s, h))
  }

  lemma CallerLife(s: State, e: CallerStep, h: Handle)
    requires Inv(s) && CallerEnabled(s, e)
    ensures LifeStep(s, CallerApply(s, e), h)
  {
    hide JoinableQueue, DispatchQueue, Joins, WaiterWakeUps, Phases, CallsMatch, Slots, DispatcherWakeUp;
  }

  lemma DispatcherLife(s: State, e: DispatcherStep, h: Handle)
    requires Inv(s) && DispatcherEnabled(s, e)
    ensures LifeStep(s, DispatcherApply(s, e), h)
  {
    hide Ownership, JoinableQueue, Joins, WaiterWakeUps, Phases, CallsMatch, Slots, DispatcherWakeUp;
    hide DistinctTasks, MustWait;
    if s.dispatcher.Popped? {
      assert InDispatch(s.dispatchQ, s.dispatcher, s.dispatcher.h);
    }
  }

  lemma JoinerLife(s: State, e: JoinerStep, h: Handle)
    requires Inv(s) && JoinerEnabled(s, e)
    ensures LifeStep(s, JoinerApply(s, e), h)
  {
    if e.JoinerFinish? {
      assert InJoinable(s.joinableQ, s.joiner, s.joiner.h);
    }
  }

  lemma TaskLife(s: State, e: TaskStep, h: Handle)
    requires Inv(s) && TaskEnabled(s, e)
    ensures LifeStep(s, TaskApply(s, e), h)
  {
    hide Ownership, JoinableQueue, DispatchQueue, Joins, WaiterWakeUps, Phases, CallsMatch;
  }

  lemma DestructorLife(s: State, e: DestructorStep, h: Handle)
    requires Inv(s) && DestructorEnabled(s, e)
    ensures LifeStep(s, DestructorApply(s, e), h)
  {
  }

  lemma StepLife(s: State, e: Event, h: Handle)
    requires Inv(s) && Enabled(s, e)
    ensures LifeStep(s, Apply(s, e), h)
  {
    hide Inv, LifeStep, CallerApply, DispatcherApply, JoinerApply, TaskApply, DestructorApply;
    match e
    case Caller(c) => CallerLife(s, c, h);
    case Dispatcher(d) => DispatcherLife(s, d, h);
    case Joiner(j) => JoinerLife(s, j, h);
    case Task(t) => TaskLife(s, t, h);
    case Destructor(x) => DestructorLife(s, x, h);
  }

  /** A terminal status never changes again. */
  lemma {:induction false} TerminalForever(states: seq<State>, events: seq<Event>, i: nat, j: nat, h: Handle)
    requires IsRun(states, events) && i <= j < |states|
    requires h in states[i].sh.status && states[i].sh.status[h] != Running
    ensures h in states[j].sh.status && states[j].sh.status[h] == states[i].sh.status[h]
  {
    hide Apply, Enabled, Inv;
    if i < j {
      TerminalForever(states, events, i, j - 1, h);
      RunInv(states, events, j - 1);
      StepLife(states[j - 1], events[j - 1], h);
    }
  }

  /** A task still RUNNING when its cancellation is recorded can only end as CANCELLED. */
  lemma {:induction false} CancelWins(states: seq<State>, events: seq<Event>, i: nat, j: nat, h: Handle)
    requires IsRun(states, events) && i <= j < |states|
    requires h in states[i].sh.cancelled && h in states[i].sh.status && states[i].sh.status[h] == Running
    ensures CancelTook(states[j], h)
    ensures states[j].sh.status[h] in {Running, Cancelled}
  {
    hide Apply, Enabled, Inv;
    if i < j {
      CancelWins(states, events, i, j - 1, h);
      RunInv(states, events, j - 1);
      StepLife(states[j - 1], events[j - 1], h);
    }
  }

  /** Once a cancellation is recorded at most one further RunAtomic begins, and only if the
      thread had already been told to go on. */
  lemma {:induction false} CancelStopsIterations(states: seq<State>, events: seq<Event>, i: nat, j: nat, h: Handle)
    requires IsRun(states, events) && i <= j < |states| && h in states[i].sh.cancelled
    ensures Doomed(states[j], h)
    ensures Runs(states[j], h) <= CommittedRuns(states[j], h) <= CommittedRuns(states[i], h) <= Runs(states[i], h) + 1
  {
    hide Apply, Enabled, Inv;
    if i < j {
      CancelStopsIterations(states, events, i, j - 1, h);
      RunInv(states, events, j - 1);
      StepLife(states[j - 1], events[j - 1], h);
    }
  }
}
