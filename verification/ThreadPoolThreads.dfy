/** The loops of the pool's threads and the calls of its users, with the steps of all others
    going on in between, and the proof that what they do is a path of the transition system:
    the program counters there are the places in this code. */
module PoolThreads {
  import opened Basics
  import opened PoolSteps
  import opened PoolInvariant
  import opened PoolMembers
  import PoolTheorems
  import PoolShutdown
  import PoolProgress
  import PoolHistory

  /** The pool's path goes on from where it was. */
  ghost predicate Extends(pool: ThreadPool, states: seq<State>, events: seq<Event>)
    reads pool
  {
    states <= pool.states && events <= pool.events
  }

  /** Waits for the mutex.  The only one to keep it for more than a step is the joiner, and the
      thread it joins can always end. */
  method Lock(pool: ThreadPool, me: Actor)
    requires pool.Valid() && me != TheJoiner
    requires me.TaskThread? ==> me.h in pool.Now().pc && !PastMutex(pool.Now().pc[me.h])
    modifies pool
    ensures pool.Valid() && MutexFree(pool.Now())
    ensures Undisturbed(me, old(pool.Now()), pool.Now())
    ensures old(pool.states) <= pool.states && Rests(me, old(pool.events), pool.events)
  {
    hide Inv, IsPath, CallerApply, DispatcherApply, TaskApply, DestructorApply;
    pool.Interfere(me);
    if pool.Now().joiner.Joining? {
      ghost var s := pool.Now();
      FinishJoin(pool, me);
      UndisturbedTwice(me, old(pool.Now()), s, pool.Now());
    }
  }

  method FinishJoin(pool: ThreadPool, me: Actor)
    requires pool.Valid() && pool.Now().joiner.Joining? && me != TheJoiner
    requires me.TaskThread? ==> me.h in pool.Now().pc && !PastMutex(pool.Now().pc[me.h])
    modifies pool
    ensures pool.Valid() && MutexFree(pool.Now())
    ensures Undisturbed(me, old(pool.Now()), pool.Now())
    ensures old(pool.states) <= pool.states && Rests(me, old(pool.events), pool.events)
  {
    hide Inv, IsPath, Undisturbed, CallerApply, DispatcherApply, TaskApply, DestructorApply;
    var s := pool.Now();
    JoinedThread(s);
    if !s.pc[s.joiner.h].Exited? {
      NotifyEnds(s, s.joiner.h);
      pool.PerformOther(me, Task(TaskNotify(s.joiner.h)));
      ghost var t := pool.Now();
      pool.PerformOther(me, Joiner(JoinerFinish));
      UndisturbedTwice(me, s, t, pool.Now());
    } else {
      pool.PerformOther(me, Joiner(JoinerFinish));
    }
  }

  lemma JoinedThread(s: State)
    requires Inv(s) && s.joiner.Joining?
    ensures var h := s.joiner.h;
      h in s.pc && h in s.calls && PastMutex(s.pc[h]) && (s.pc[h].Notifying? || s.pc[h].Exited?)
  {
    assert InJoinable(s.joinableQ, s.joiner, s.joiner.h);
  }

  lemma NotifyEnds(s: State, h: Handle)
    requires TaskEnabled(s, TaskNotify(h))
    ensures var t := TaskApply(s, TaskNotify(h)); h in t.pc && t.pc[h].Exited? && t.joiner == s.joiner
  {
  }

  // ---------- RunTask ----------

  function Rounds(n: nat): seq<Call> { seq(n, _ => RunCall) }

  /** The thread of task `h` stands at `p` and has made these calls. */
  predicate StandsAt(s: State, h: Handle, p: ThreadPc, calls: seq<Call>) {
    h in s.pc && h in s.calls && s.pc[h] == p && s.calls[h] == calls
  }

  lemma StaysAt(s: State, t: State, h: Handle, p: ThreadPc, calls: seq<Call>)
    requires StandsAt(s, h, p, calls) && Undisturbed(TaskThread(h), s, t)
    ensures StandsAt(t, h, p, calls) && KeepsEnd(s, t, h)
  {
  }

  /** UpdateTaskStatus, called by the task's thread. */
  method ReportStatus(pool: ThreadPool, h: Handle, status: Status, ghost calls: seq<Call>) returns (keepGoing: bool)
    requires pool.Valid() && StandsAt(pool.Now(), h, Reporting(status), calls)
    modifies pool
    ensures pool.Valid() && Extends(pool, old(pool.states), old(pool.events))
    ensures StandsAt(pool.Now(), h, if keepGoing then Ready else Cleaning, calls)
    ensures h in pool.handleToStatus
    ensures pool.handleToStatus[h] == if h in pool.cancelledTasks then Cancelled else status
    ensures keepGoing <==> pool.handleToStatus[h] == Running
  {
    hide Inv, IsPath;
    ghost var s := pool.Now();
    Lock(pool, TaskThread(h));
    StaysAt(s, pool.Now(), h, Reporting(status), calls);
    var before := pool.Now();
    keepGoing := pool.UpdateTaskStatus(h, status);
    pool.Took(Task(TaskReport(h)), before);
  }

  /** A call of the task's thread into its task. */
  method CallTask(pool: ThreadPool, e: TaskStep, ghost p: ThreadPc, ghost calls: seq<Call>)
    requires pool.Valid() && StandsAt(pool.Now(), e.h, p, calls)
    requires match e
      case TaskSetUp(_, _) => p.SettingUp?
      case TaskBegin(_) => p.Ready?
      case TaskIterate(_, _) => p.Iterating?
      case TaskCleanUp(_) => p.Cleaning?
      case _ => false
    modifies pool
    ensures pool.Valid() && Extends(pool, old(pool.states), old(pool.events))
    ensures KeepsEnd(old(pool.Now()), pool.Now(), e.h)
    ensures match e
      case TaskSetUp(h, status) => StandsAt(pool.Now(), h, Reporting(status), calls + [SetUpCall])
      case TaskBegin(h) => StandsAt(pool.Now(), h, Iterating, calls + [RunCall])
      case TaskIterate(h, status) => StandsAt(pool.Now(), h, Reporting(status), calls)
      case TaskCleanUp(h) => StandsAt(pool.Now(), h, Counting, calls + [CleanUpCall])
      case _ => true
  {
    hide Inv, IsPath, Undisturbed;
    ghost var s := pool.Now();
    pool.Interfere(TaskThread(e.h));
    StaysAt(s, pool.Now(), e.h, p, calls);
    pool.Perform(Task(e));
  }

  /** The end of RunTask: count, push, notify. */
  method AnnounceEnd(pool: ThreadPool, h: Handle, ghost calls: seq<Call>)
    requires pool.Valid() && StandsAt(pool.Now(), h, Counting, calls)
    modifies pool
    ensures pool.Valid() && Extends(pool, old(pool.states), old(pool.events))
    ensures StandsAt(pool.Now(), h, Exited, calls)
    ensures KeepsEnd(old(pool.Now()), pool.Now(), h)
  {
    hide Inv, IsPath;
    ghost var s := pool.Now();
    Lock(pool, TaskThread(h));
    StaysAt(s, pool.Now(), h, Counting, calls);
    var before := pool.Now();
    pool.numCompletedTasks := (pool.numCompletedTasks + 1) % UINT32_MODULUS;
    pool.Took(Task(TaskCount(h)), before);
    PushAndNotify(pool, h, calls);
  }

  method PushAndNotify(pool: ThreadPool, h: Handle, ghost calls: seq<Call>)
    requires pool.Valid() && StandsAt(pool.Now(), h, Pushing, calls)
    modifies pool
    ensures pool.Valid() && Extends(pool, old(pool.states), old(pool.events))
    ensures StandsAt(pool.Now(), h, Exited, calls)
    ensures KeepsEnd(old(pool.Now()), pool.Now(), h)
  {
    hide Inv, IsPath, Undisturbed;
    ghost var s := pool.Now();
    pool.Interfere(TaskThread(h));
    StaysAt(s, pool.Now(), h, Pushing, calls);
    var before := pool.Now();
    pool.joinableQueue := pool.joinableQueue + [h];
    pool.Took(Task(TaskPush(h)), before);
    s := pool.Now();
    pool.Interfere(TaskThread(h));
    StaysAt(s, pool.Now(), h, Notifying, calls);
    pool.Perform(Task(TaskNotify(h)));
  }

  /** RunTask for at most `budget` iterations, whatever SetUp and RunAtomic return and whatever
      the others do: one SetUp, an iteration as long as UpdateTaskStatus says so, then CleanUp
      and the thread's end.  The task's status is then what it returned last, or CANCELLED if
      it was cancelled when that was reported. */
  method RunTask(pool: ThreadPool, h: Handle, budget: nat)
    returns (finished: bool, returned: Status, wasCancelled: bool, ghost iterations: nat)
    requires pool.Valid() && StandsAt(pool.Now(), h, SettingUp, [])
    modifies pool
    ensures pool.Valid() && Extends(pool, old(pool.states), old(pool.events))
    ensures iterations <= budget && (!finished ==> iterations == budget)
    ensures if finished then StandsAt(pool.Now(), h, Exited, [SetUpCall] + Rounds(iterations) + [CleanUpCall])
            else StandsAt(pool.Now(), h, Ready, [SetUpCall] + Rounds(iterations))
    ensures finished ==> h in pool.handleToStatus
    ensures finished ==> pool.handleToStatus[h] == if wasCancelled then Cancelled else returned
    ensures finished ==> wasCancelled || returned != Running
  {
    hide Inv, IsPath, Apply, Enabled, StandsAt, ThreadPool.Valid;
    var status: Status := *;
    CallTask(pool, TaskSetUp(h, status), SettingUp, []);
    iterations := 0;
    assert [] + [SetUpCall] == [SetUpCall] + Rounds(0);
    var keepGoing := ReportStatus(pool, h, status, [SetUpCall] + Rounds(0));
    returned, wasCancelled := status, h in pool.cancelledTasks;
    var i := 0;
    while keepGoing && i < budget
      invariant pool.Valid() && Extends(pool, old(pool.states), old(pool.events))
      invariant iterations == i <= budget
      invariant StandsAt(pool.Now(), h, if keepGoing then Ready else Cleaning, [SetUpCall] + Rounds(i))
      invariant h in pool.handleToStatus && (keepGoing <==> pool.handleToStatus[h] == Running)
      invariant pool.handleToStatus[h] == if wasCancelled then Cancelled else returned
      decreases budget - i
    {
      CallTask(pool, TaskBegin(h), Ready, [SetUpCall] + Rounds(i));
      assert [SetUpCall] + Rounds(i) + [RunCall] == [SetUpCall] + Rounds(i + 1);
      status := *;
      CallTask(pool, TaskIterate(h, status), Iterating, [SetUpCall] + Rounds(i + 1));
      keepGoing := ReportStatus(pool, h, status, [SetUpCall] + Rounds(i + 1));
      returned, wasCancelled := status, h in pool.cancelledTasks;
      i := i + 1;
      iterations := i;
    }
    if keepGoing {
      return false, returned, wasCancelled, i;
    }
    CallTask(pool, TaskCleanUp(h), Cleaning, [SetUpCall] + Rounds(i));
    AnnounceEnd(pool, h, [SetUpCall] + Rounds(i) + [CleanUpCall]);
    return true, returned, wasCancelled, i;
  }

  // ---------- DispatcherThread ----------

  /** How often the dispatcher has been through its second critical section. */
  ghost function Launches(events: seq<Event>): nat { multiset(events)[Dispatcher(DispatchLaunch)] }

  /** The wait for a free slot, for at most `budget` wake-ups. */
  method WaitForSlot(pool: ThreadPool, budget: nat) returns (reserved: bool)
    requires pool.Valid() && pool.Now().dispatcher == Blocked
    modifies pool
    ensures pool.Valid() && Extends(pool, old(pool.states), old(pool.events))
    ensures Launches(pool.events) == Launches(old(pool.events))
    ensures pool.Now().dispatcher == if reserved then Reserved else Blocked
  {
    hide Inv, IsPath;
    reserved := false;
    var i := 0;
    while !reserved && i < budget
      invariant pool.Valid() && Extends(pool, old(pool.states), old(pool.events))
      invariant Launches(pool.events) == Launches(old(pool.events))
      invariant pool.Now().dispatcher == if reserved then Reserved else Blocked
      decreases budget - i
    {
      reserved := WakeUp(pool);
      i := i + 1;
    }
  }

  /** The dispatcher is woken, or wakes up for no reason, and waits for the mutex. */
  method LeaveSleep(pool: ThreadPool)
    requires pool.Valid() && pool.Now().dispatcher == Blocked
    modifies pool
    ensures pool.Valid() && Extends(pool, old(pool.states), old(pool.events))
    ensures Launches(pool.events) == Launches(old(pool.events))
    ensures pool.Now().dispatcher == Woken && MutexFree(pool.Now())
  {
    hide Inv, IsPath, CallerApply, JoinerApply, TaskApply, DestructorApply;
    pool.Interfere(TheDispatcher);
    if pool.Now().dispatcher == Blocked {
      pool.Perform(Dispatcher(DispatchSpurious));
    }
    Lock(pool, TheDispatcher);
  }

  /** It is woken and tests again. */
  method WakeUp(pool: ThreadPool) returns (reserved: bool)
    requires pool.Valid() && pool.Now().dispatcher == Blocked
    modifies pool
    ensures pool.Valid() && Extends(pool, old(pool.states), old(pool.events))
    ensures Launches(pool.events) == Launches(old(pool.events))
    ensures pool.Now().dispatcher == if reserved then Reserved else Blocked
  {
    hide Inv, IsPath, CallerApply, JoinerApply, TaskApply, DestructorApply;
    LeaveSleep(pool);
    var before := pool.Now();
    reserved := pool.ReserveAfterWait();
    pool.Took(Dispatcher(DispatchRecheck), before);
  }

  /** The first critical section of the loop. */
  method ReserveOrWait(pool: ThreadPool, budget: nat) returns (reserved: bool)
    requires pool.Valid() && pool.Now().dispatcher == AtTop
    modifies pool
    ensures pool.Valid() && Extends(pool, old(pool.states), old(pool.events))
    ensures Launches(pool.events) == Launches(old(pool.events))
    ensures pool.Now().dispatcher == if reserved then Reserved else Blocked
  {
    hide Inv, IsPath;
    Lock(pool, TheDispatcher);
    var before := pool.Now();
    var mustWait := pool.ReserveSlot();
    pool.Took(Dispatcher(DispatchCheck), before);
    reserved := true;
    if mustWait {
      reserved := WaitForSlot(pool, budget);
    }
  }

  /** Pops the next handle, if others push one. */
  method PopDispatch(pool: ThreadPool) returns (popped: bool, handle: Handle)
    requires pool.Valid() && pool.Now().dispatcher == Reserved
    modifies pool
    ensures pool.Valid() && Extends(pool, old(pool.states), old(pool.events))
    ensures Launches(pool.events) == Launches(old(pool.events))
    ensures pool.Now().dispatcher == if popped then Popped(handle) else Reserved
    ensures !popped ==> pool.dispatchQueue == []
  {
    hide Inv, IsPath;
    pool.Interfere(TheDispatcher);
    if pool.dispatchQueue == [] {
      return false, 0;
    }
    var before := pool.Now();
    handle := pool.dispatchQueue[0];
    pool.dispatchQueue := pool.dispatchQueue[1..];
    pool.Took(Dispatcher(DispatchPop), before);
    return true, handle;
  }

  lemma OwnedTask(s: State)
    requires Inv(s) && s.dispatcher.Popped? && !s.sh.closing
    ensures s.dispatcher.h in s.sh.tasks
  {
    PoppedTask(s);
  }

  /** The second critical section: leave if closing, else start the task's thread. */
  method StartThread(pool: ThreadPool, handle: Handle) returns (exit: bool)
    requires pool.Valid() && pool.Now().dispatcher == Popped(handle)
    modifies pool
    ensures pool.Valid() && Extends(pool, old(pool.states), old(pool.events))
    ensures Launches(pool.events) == Launches(old(pool.events)) + 1
    ensures pool.Now().dispatcher == if exit then DispatcherExited else AtTop
    ensures exit <==> pool.shouldClose
    ensures !exit ==>
      && StandsAt(pool.Now(), handle, SettingUp, [])
      && handle in pool.handleToTask && handle in pool.handleToThread
  {
    hide Inv, IsPath, CallerApply, JoinerApply, TaskApply, DestructorApply;
    Lock(pool, TheDispatcher);
    var before := pool.Now();
    exit := pool.shouldClose;
    if !exit {
      OwnedTask(before);
      pool.handleToThread := pool.handleToThread + {handle};
    }
    pool.Took(Dispatcher(DispatchLaunch), before);
  }

  /** DispatcherThread for at most `budget` rounds: it leaves only once the pool is closing, and
      otherwise has started a thread in every round, or waits: for a slot it has asked for
      `budget` times, or for a task when there is none. */
  method DispatcherThread(pool: ThreadPool, budget: nat) returns (exited: bool, ghost started: nat)
    requires pool.Valid() && pool.Now().dispatcher == AtTop
    modifies pool
    ensures pool.Valid() && Extends(pool, old(pool.states), old(pool.events))
    ensures started <= budget
    ensures Launches(pool.events) == Launches(old(pool.events)) + started + if exited then 1 else 0
    ensures exited ==> pool.Now().dispatcher == DispatcherExited && pool.shouldClose
    ensures !exited ==>
      if started == budget then pool.Now().dispatcher == AtTop
      else pool.Now().dispatcher == Blocked || (pool.Now().dispatcher == Reserved && pool.dispatchQueue == [])
  {
    hide Inv, IsPath, Apply, Enabled, ThreadPool.Valid;
    started := 0;
    for i := 0 to budget
      invariant pool.Valid() && Extends(pool, old(pool.states), old(pool.events))
      invariant pool.Now().dispatcher == AtTop && started == i
      invariant Launches(pool.events) == Launches(old(pool.events)) + i
    {
      var reserved := ReserveOrWait(pool, budget);
      if !reserved {
        return false, i;
      }
      var popped, handle := PopDispatch(pool);
      if !popped {
        return false, i;
      }
      var exit := StartThread(pool, handle);
      if exit {
        return true, i;
      }
      started := i + 1;
    }
    return false, budget;
  }

  // ---------- JoinerThread ----------

  /** How often the joiner has taken a handle, and how often it has joined a thread. */
  ghost function Pops(events: seq<Event>): nat { multiset(events)[Joiner(JoinerPop)] }
  ghost function Joined(events: seq<Event>): nat { multiset(events)[Joiner(JoinerFinish)] }

  method PopJoinable(pool: ThreadPool) returns (popped: bool, handle: Handle)
    requires pool.Valid() && pool.Now().joiner == Idle
    modifies pool
    ensures pool.Valid() && Extends(pool, old(pool.states), old(pool.events))
    ensures Pops(pool.events) == Pops(old(pool.events)) + (if popped then 1 else 0)
    ensures Joined(pool.events) == Joined(old(pool.events))
    ensures pool.Now().joiner == if popped then Got(handle) else Idle
    ensures !popped ==> pool.joinableQueue == []
  {
    hide Inv, IsPath;
    pool.Interfere(TheJoiner);
    if pool.joinableQueue == [] {
      return false, 0;
    }
    var before := pool.Now();
    handle := pool.joinableQueue[0];
    pool.joinableQueue := pool.joinableQueue[1..];
    pool.Took(Joiner(JoinerPop), before);
    return true, handle;
  }

  /** thread.join() under the mutex: the thread has ended when it returns. */
  method JoinThread(pool: ThreadPool, handle: Handle)
    requires pool.Valid() && pool.Now().joiner == Joining(handle)
    modifies pool
    ensures pool.Valid() && old(pool.states) <= pool.states && Rests(TheJoiner, old(pool.events), pool.events)
    ensures pool.Now().joiner == Joining(handle) && handle in pool.Now().pc && pool.Now().pc[handle].Exited?
  {
    hide Inv, IsPath, CallerApply, DispatcherApply, DestructorApply;
    pool.Interfere(TheJoiner);
    JoinedThread(pool.Now());
    if !pool.Now().pc[handle].Exited? {
      NotifyEnds(pool.Now(), handle);
      pool.PerformOther(TheJoiner, Task(TaskNotify(handle)));
    }
  }

  /** The tables are cleared. */
  method FinishJoined(pool: ThreadPool, handle: Handle)
    requires pool.Valid() && pool.Now().joiner == Joining(handle)
    requires handle in pool.Now().pc && pool.Now().pc[handle].Exited?
    modifies pool
    ensures pool.Valid() && pool.Now().joiner == JoinerPc.OwesNotify
    ensures pool.events == old(pool.events) + [Joiner(JoinerFinish)]
    ensures pool.states == old(pool.states) + [pool.Now()]
  {
    hide Inv, IsPath, CallerApply, DispatcherApply, TaskApply, DestructorApply;
    var before := pool.Now();
    pool.FinalizeTask(handle);
    pool.Took(Joiner(JoinerFinish), before);
  }

  /** The dispatcher is notified. */
  method NotifyDispatcher(pool: ThreadPool)
    requires pool.Valid() && pool.Now().joiner == JoinerPc.OwesNotify
    modifies pool
    ensures pool.Valid() && Extends(pool, old(pool.states), old(pool.events))
    ensures pool.Now().joiner == Idle
    ensures Pops(pool.events) == Pops(old(pool.events)) && Joined(pool.events) == Joined(old(pool.events))
  {
    hide Inv, IsPath, CallerApply, DispatcherApply, TaskApply, DestructorApply;
    pool.Interfere(TheJoiner);
    pool.Perform(Joiner(JoinerNotify));
  }

  /** The joiner takes the mutex, and leaves if the pool is closing. */
  method LockJoiner(pool: ThreadPool, handle: Handle) returns (exit: bool)
    requires pool.Valid() && pool.Now().joiner == Got(handle)
    modifies pool
    ensures pool.Valid() && Extends(pool, old(pool.states), old(pool.events))
    ensures pool.Now().joiner == if exit then JoinerExited else Joining(handle)
    ensures exit <==> pool.shouldClose
    ensures Pops(pool.events) == Pops(old(pool.events)) && Joined(pool.events) == Joined(old(pool.events))
  {
    hide Inv, IsPath, CallerApply, DispatcherApply, TaskApply, DestructorApply;
    pool.Interfere(TheJoiner);
    exit := pool.shouldClose;
    pool.Perform(Joiner(JoinerLock));
  }

  /** The critical section for one finished task. */
  method JoinPopped(pool: ThreadPool, handle: Handle) returns (exit: bool)
    requires pool.Valid() && pool.Now().joiner == Got(handle)
    modifies pool
    ensures pool.Valid() && Extends(pool, old(pool.states), old(pool.events))
    ensures pool.Now().joiner == if exit then JoinerExited else Idle
    ensures exit ==> pool.shouldClose
    ensures Pops(pool.events) == Pops(old(pool.events))
    ensures Joined(pool.events) == Joined(old(pool.events)) + if exit then 0 else 1
  {
    hide Inv, IsPath, Apply, Enabled, ThreadPool.Valid;
    exit := LockJoiner(pool, handle);
    if !exit {
      JoinThread(pool, handle);
      FinishJoined(pool, handle);
      NotifyDispatcher(pool);
    }
  }

  /** JoinerThread for at most `budget` rounds: every join returns; it leaves only once the pool
      is closing, and otherwise has joined a thread in every round or waits on an empty
      queue. */
  method JoinerThread(pool: ThreadPool, budget: nat) returns (exited: bool, ghost joined: nat)
    requires pool.Valid() && pool.Now().joiner == Idle
    modifies pool
    ensures pool.Valid() && Extends(pool, old(pool.states), old(pool.events))
    ensures joined <= budget
    ensures Joined(pool.events) == Joined(old(pool.events)) + joined
    ensures Pops(pool.events) == Pops(old(pool.events)) + joined + if exited then 1 else 0
    ensures pool.Now().joiner == if exited then JoinerExited else Idle
    ensures exited ==> pool.shouldClose
    ensures !exited && joined < budget ==> pool.joinableQueue == []
  {
    hide Inv, IsPath, Apply, Enabled, ThreadPool.Valid;
    joined := 0;
    for i := 0 to budget
      invariant pool.Valid() && Extends(pool, old(pool.states), old(pool.events))
      invariant pool.Now().joiner == Idle && joined == i
      invariant Joined(pool.events) == Joined(old(pool.events)) + i && Pops(pool.events) == Pops(old(pool.events)) + i
    {
      var popped, handle := PopJoinable(pool);
      if !popped {
        return false, i;
      }
      var exit := JoinPopped(pool, handle);
      if exit {
        return true, i;
      }
      joined := i + 1;
    }
    return false, budget;
  }

  // ---------- the destructor ----------

  /** The destructor's critical section. */
  method BeginDestruction(pool: ThreadPool)
    requires pool.Valid() && pool.Now().destructor == NotStarted
    modifies pool
    ensures pool.Valid() && Extends(pool, old(pool.states), old(pool.events))
    ensures pool.shouldClose
    ensures pool.Now().destructor == PushDispatch && pool.handleToTask <= pool.cancelledTasks
  {
    hide Inv, IsPath, CallerApply, DispatcherApply, JoinerApply, TaskApply;
    Lock(pool, TheDestructor);
    var before := pool.Now();
    pool.CloseAll();
    pool.Took(Destructor(BeginClose), before);
  }

  /** The two dummies. */
  method PushDummies(pool: ThreadPool)
    requires pool.Valid() && pool.Now().destructor == PushDispatch && pool.shouldClose
    modifies pool
    ensures pool.Valid() && Extends(pool, old(pool.states), old(pool.events))
    ensures pool.shouldClose
    ensures pool.Now().destructor == NotifyDone
  {
    hide Inv, IsPath, CallerApply, DispatcherApply, JoinerApply, TaskApply;
    pool.Interfere(TheDestructor);
    var before := pool.Now();
    pool.dispatchQueue := pool.dispatchQueue + [0];
    pool.Took(Destructor(ClosePushDispatch), before);
    pool.Interfere(TheDestructor);
    before := pool.Now();
    pool.joinableQueue := pool.joinableQueue + [0];
    pool.Took(Destructor(ClosePushJoinable), before);
  }

  /** The two notifications. */
  method NotifyServiceThreads(pool: ThreadPool)
    requires pool.Valid() && pool.Now().destructor == NotifyDone && pool.shouldClose
    modifies pool
    ensures pool.Valid() && Extends(pool, old(pool.states), old(pool.events))
    ensures pool.shouldClose
    ensures pool.Now().destructor == AwaitDispatcher
  {
    hide Inv, IsPath, CallerApply, DispatcherApply, JoinerApply, TaskApply;
    pool.Interfere(TheDestructor);
    pool.Perform(Destructor(CloseNotifyDone));
    pool.Interfere(TheDestructor);
    pool.Perform(Destructor(CloseNotifyAvailable));
  }

  /** Where the destructor stands once it only joins. */
  predicate OnlyJoins(x: DestructorPc) { x.AwaitDispatcher? || x.AwaitJoiner? || x.JoinTasks? }

  /** The thread the destructor joins has not ended yet. */
  predicate StillWaits(s: State) {
    match s.destructor
    case AwaitDispatcher => !s.dispatcher.DispatcherExited?
    case AwaitJoiner => !s.joiner.JoinerExited?
    case JoinTasks(done) => exists h :: h in s.sh.threads && h !in done && !(h in s.pc && s.pc[h].Exited?)
    case _ => false
  }

  function JoinsLeft(s: State): nat { PoolShutdown.DestructorRank(s.destructor, s.sh.threads) }

  /** A join of a task's thread, or the end, once only these are left. */
  method JoinOneTask(pool: ThreadPool) returns (destroyed: bool, waits: bool)
    requires pool.Valid() && pool.Now().destructor.JoinTasks? && pool.shouldClose
    modifies pool
    ensures pool.Valid() && Extends(pool, old(pool.states), old(pool.events))
    ensures pool.shouldClose
    ensures pool.handleToThread == old(pool.handleToThread)
    ensures if destroyed then pool.Now().destructor.Destroyed? else pool.Now().destructor.JoinTasks?
    ensures if waits then pool.Now() == old(pool.Now()) && !destroyed && StillWaits(pool.Now())
            else JoinsLeft(pool.Now()) < JoinsLeft(old(pool.Now()))
  {
    hide Inv, IsPath, CallerApply, DispatcherApply, JoinerApply, TaskApply;
    var s := pool.Now();
    var done := s.destructor.joinedSoFar;
    destroyed, waits := false, false;
    if h :| h in s.sh.threads && h !in done && h in s.pc && s.pc[h].Exited? {
      assert s.sh.threads - (done + {h}) == (s.sh.threads - done) - {h};
      pool.Perform(Destructor(JoinTask(h)));
    } else if done == s.sh.threads {
      pool.Perform(Destructor(FinishClose));
      destroyed := true;
    } else {
      SomethingLeft(s, done);
      waits := true;
    }
  }

  /** The next join, unless it has to wait. */
  method JoinNext(pool: ThreadPool) returns (destroyed: bool, waits: bool)
    requires pool.Valid() && OnlyJoins(pool.Now().destructor) && pool.shouldClose
    modifies pool
    ensures pool.Valid() && Extends(pool, old(pool.states), old(pool.events))
    ensures pool.shouldClose
    ensures pool.handleToThread == old(pool.handleToThread)
    ensures if destroyed then pool.Now().destructor.Destroyed? else OnlyJoins(pool.Now().destructor)
    ensures if waits
            then pool.Now().destructor == old(pool.Now()).destructor && !destroyed && StillWaits(pool.Now())
            else JoinsLeft(pool.Now()) < JoinsLeft(old(pool.Now()))
  {
    hide Inv, IsPath, CallerApply, DispatcherApply, JoinerApply, TaskApply;
    pool.Interfere(TheDestructor);
    var s := pool.Now();
    if s.destructor.AwaitDispatcher? {
      destroyed, waits := false, !s.dispatcher.DispatcherExited?;
      if !waits { pool.Perform(Destructor(JoinDispatcher)); }
    } else if s.destructor.AwaitJoiner? {
      destroyed, waits := false, !s.joiner.JoinerExited?;
      assert s.sh.threads - {} == s.sh.threads;
      if !waits { pool.Perform(Destructor(JoinJoiner)); }
    } else {
      destroyed, waits := JoinOneTask(pool);
    }
  }

  lemma SomethingLeft(s: State, done: set<Handle>)
    requires Inv(s) && s.destructor == JoinTasks(done) && done != s.sh.threads
    ensures exists h :: h in s.sh.threads && h !in done
  {
    assert done <= s.sh.threads;
  }

  /** The destructor: it cancels every task it owns, wakes both service threads, and then only
      joins, until it is through or at a thread that has not ended yet. */
  method Destroy(pool: ThreadPool) returns (destroyed: bool)
    requires pool.Valid() && pool.Now().destructor == NotStarted
    modifies pool
    ensures pool.Valid() && Extends(pool, old(pool.states), old(pool.events))
    ensures pool.shouldClose
    ensures if destroyed then pool.Now().destructor.Destroyed? else StillWaits(pool.Now())
  {
    hide Inv, IsPath, Apply, Enabled, ThreadPool.Valid;
    BeginDestruction(pool);
    PushDummies(pool);
    NotifyServiceThreads(pool);
    destroyed := false;
    var waits := false;
    while !destroyed && !waits
      invariant pool.Valid() && Extends(pool, old(pool.states), old(pool.events))
      invariant pool.shouldClose
      invariant if destroyed then pool.Now().destructor.Destroyed? else OnlyJoins(pool.Now().destructor)
      invariant waits ==> StillWaits(pool.Now())
      decreases JoinsLeft(pool.Now()), !waits
    {
      destroyed, waits := JoinNext(pool);
    }
  }

  // ---------- callers ----------

  /** AddTask, unless the pool is gone: the task is owned, RUNNING, and on its way to the
      dispatcher; each task is added once. */
  method AddTask(pool: ThreadPool, handle: Handle) returns (added: bool)
    requires pool.Valid() && handle != 0 && handle !in pool.Now().added
    modifies pool
    ensures pool.Valid() && Extends(pool, old(pool.states), old(pool.events))
    ensures if added then pool.dispatchQueue != [] && pool.dispatchQueue[|pool.dispatchQueue| - 1] == handle
                          && handle in pool.handleToTask && handle in pool.Now().added
            else pool.Now().destructor.Destroyed?
  {
    hide Inv, IsPath, DispatcherApply, JoinerApply, TaskApply, DestructorApply;
    Lock(pool, Adder(handle));
    if pool.Now().destructor.Destroyed? {
      return false;
    }
    var before := pool.Now();
    pool.handleToTask := pool.handleToTask + {handle};
    pool.handleToStatus := pool.handleToStatus[handle := Running];
    pool.Took(Caller(AddRegister(handle)), before);
    added := PushTask(pool, handle);
  }

  method PushTask(pool: ThreadPool, handle: Handle) returns (pushed: bool)
    requires pool.Valid() && handle in pool.Now().adding
    modifies pool
    ensures pool.Valid() && Extends(pool, old(pool.states), old(pool.events))
    ensures if pushed then pool.dispatchQueue != [] && pool.dispatchQueue[|pool.dispatchQueue| - 1] == handle
                           && handle in pool.handleToTask && handle in pool.Now().added
            else pool.Now().destructor.Destroyed?
  {
    hide Inv, IsPath, DispatcherApply, JoinerApply, TaskApply, DestructorApply;
    pool.Interfere(Adder(handle));
    if pool.Now().destructor.Destroyed? {
      return false;
    }
    BeingAdded(pool.Now(), handle);
    var before := pool.Now();
    pool.dispatchQueue := pool.dispatchQueue + [handle];
    pool.Took(Caller(AddPush(handle)), before);
    return true;
  }

  lemma BeingAdded(s: State, h: Handle)
    requires Inv(s) && h in s.adding
    ensures h in s.sh.tasks && h in s.added
  {
  }

  /** CancelTask, unless the pool is gone. */
  method CancelTask(pool: ThreadPool, handle: Handle) returns (cancelled: bool)
    requires pool.Valid() && handle != 0
    modifies pool
    ensures pool.Valid() && Extends(pool, old(pool.states), old(pool.events))
    ensures if cancelled then handle in pool.cancelledTasks else pool.Now().destructor.Destroyed?
  {
    hide Inv, IsPath, DispatcherApply, JoinerApply, TaskApply, DestructorApply;
    Lock(pool, Canceller);
    if pool.Now().destructor.Destroyed? {
      return false;
    }
    var before := pool.Now();
    pool.cancelledTasks := pool.cancelledTasks + {handle};
    pool.Took(Caller(Cancel(handle)), before);
    return true;
  }

  /** The caller is asleep or awake in WaitForCompletion. */
  predicate Waits(s: State, w: nat, h: Handle) { w in s.waiters && s.waiters[w].h == h }

  /** The test before the wait. */
  method BeginWait(pool: ThreadPool, w: nat, handle: Handle) returns (gone: bool, running: bool)
    requires pool.Valid() && handle != 0 && w !in pool.Now().waiters
    modifies pool
    ensures pool.Valid() && Extends(pool, old(pool.states), old(pool.events))
    ensures (gone ==> pool.Now().destructor.Destroyed?)
    ensures !gone ==> handle in pool.handleToStatus && (running <==> pool.handleToStatus[handle] == Running)
    ensures !gone ==> if running then Waits(pool.Now(), w, handle) else w !in pool.Now().waiters
  {
    hide Inv, IsPath, DispatcherApply, JoinerApply, TaskApply, DestructorApply;
    Lock(pool, Waiting(w));
    if pool.Now().destructor.Destroyed? {
      return true, true;
    }
    var before := pool.Now();
    running := pool.MustWaitFor(handle);
    pool.Took(Caller(WaitBegin(w, handle)), before);
    return false, running;
  }

  /** A wake-up, notified or not, and the test after it. */
  method WaitAgain(pool: ThreadPool, w: nat, handle: Handle) returns (gone: bool, running: bool)
    requires pool.Valid() && Waits(pool.Now(), w, handle)
    modifies pool
    ensures pool.Valid() && Extends(pool, old(pool.states), old(pool.events))
    ensures (gone ==> pool.Now().destructor.Destroyed?)
    ensures !gone ==> handle in pool.handleToStatus && (running <==> pool.handleToStatus[handle] == Running)
    ensures !gone ==> if running then Waits(pool.Now(), w, handle) else w !in pool.Now().waiters
  {
    hide Inv, IsPath, DispatcherApply, JoinerApply, TaskApply, DestructorApply;
    pool.Interfere(Waiting(w));
    if pool.Now().destructor.Destroyed? {
      return true, true;
    }
    if pool.Now().waiters[w].Sleeping? {
      pool.Perform(Caller(WaitSpurious(w)));
    }
    Lock(pool, Waiting(w));
    if pool.Now().destructor.Destroyed? {
      return true, true;
    }
    WaitedFor(pool.Now(), w);
    running := pool.handleToStatus[handle] == Running;
    pool.Perform(Caller(WaitRecheck(w)));
    return false, running;
  }

  lemma WaitedFor(s: State, w: nat)
    requires Inv(s) && w in s.waiters
    ensures s.waiters[w].h in s.sh.status
  {
  }

  /** WaitForCompletion(task), for at most `budget` wake-ups: it returns only when the status is
      terminal, and otherwise still waits for it. */
  method WaitForCompletion(pool: ThreadPool, w: nat, handle: Handle, budget: nat) returns (completed: bool)
    requires pool.Valid() && handle != 0 && w !in pool.Now().waiters
    modifies pool
    ensures pool.Valid() && Extends(pool, old(pool.states), old(pool.events))
    ensures completed ==>
      w !in pool.Now().waiters && handle in pool.handleToStatus && pool.handleToStatus[handle] != Running
    ensures !completed ==> Waits(pool.Now(), w, handle) || pool.Now().destructor.Destroyed?
  {
    hide Inv, IsPath, Apply, Enabled, ThreadPool.Valid;
    var gone, running := BeginWait(pool, w, handle);
    var i := 0;
    while !gone && running && i < budget
      invariant pool.Valid() && Extends(pool, old(pool.states), old(pool.events))
      invariant (gone ==> pool.Now().destructor.Destroyed?)
      invariant !gone ==> handle in pool.handleToStatus && (running <==> pool.handleToStatus[handle] == Running)
      invariant !gone ==> if running then Waits(pool.Now(), w, handle) else w !in pool.Now().waiters
      decreases budget - i
    {
      gone, running := WaitAgain(pool, w, handle);
      i := i + 1;
    }
    return !gone && !running;
  }

  // ---------- the object and the transition system ----------

  /** A pool since its construction: what it has done is a run of the transition system, so
      every theorem about runs is about this object. */
  lemma ObjectRuns(pool: ThreadPool)
    requires pool.Valid() && Init(pool.states[0])
    ensures IsRun(pool.states, pool.events) && pool.states[|pool.events|] == pool.Now()
  {
  }

  /** For example these, on the members themselves. */
  lemma ObjectGuarantees(pool: ThreadPool, h: Handle)
    requires pool.Valid() && Init(pool.states[0])
    ensures !pool.shouldClose ==>
      && pool.poolSize == |pool.handleToThread| + (if HoldsSlot(pool.Now().dispatcher) then 1 else 0)
      && (pool.maxPoolSize != 0 ==> |PoolTheorems.LiveThreads(pool.Now())| <= pool.poolSize <= pool.maxPoolSize)
    ensures h in pool.Now().pc && !pool.Now().pc[h].Exited? ==> h in pool.handleToTask
    ensures pool.Now().destructor.Destroyed? && h in pool.Now().pc ==>
      pool.Now().pc[h].Exited? && pool.Now().joined[h] == 1
    ensures h in pool.handleToStatus && pool.handleToStatus[h] != Running ==>
      PoolHistory.Recorded(pool.states, pool.events, |pool.events|, h, pool.handleToStatus[h])
    ensures pool.numCompletedTasks == PoolHistory.Counted(pool.events) % 0x1_0000_0000
    ensures !pool.shouldClose && h in pool.Now().added && pool.Now().joined[h] == 0 ==>
      exists e: Event :: PoolProgress.Advances(e) && Enabled(pool.Now(), e)
  {
    hide Inv, Enabled, Apply, IsRun, IsPath, PoolHistory.Recorded;
    ObjectRuns(pool);
    var i := |pool.events|;
    assert |pool.states| == i + 1 by { PathLength(pool); }
    if !pool.shouldClose {
      PoolTheorems.SlotAccounting(pool.states, pool.events, i);
      if h in pool.Now().added && pool.Now().joined[h] == 0 {
        PoolProgress.NoTaskStuck(pool.states, pool.events, i, h);
      }
    }
    if h in pool.handleToStatus && pool.handleToStatus[h] != Running {
      PoolHistory.FinalStatus(pool.states, pool.events, i, h);
    }
    assert pool.events[..i] == pool.events;
    PoolHistory.CompletedCount(pool.states, pool.events, i);
    PoolTheorems.TaskPointersValid(pool.states, pool.events, i, h);
    PoolShutdown.JoinedExactlyOnce(pool.states, pool.events, i, h);
  }

  lemma PathLength(pool: ThreadPool)
    requires pool.Valid()
    ensures |pool.states| == |pool.events| + 1
  {
  }
}
