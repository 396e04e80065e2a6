/** The members of ThreadPool, the bodies of its critical sections, and who takes which step
    of the transition system. */
module PoolMembers {
  import opened PoolSteps
  import opened PoolInvariant

  /** The threads of control: each runs one piece of the pool's code. */
  datatype Actor =
    | Adder(h: Handle)        // a caller in AddTask
    | Canceller               // a caller in CancelTask
    | Waiting(w: nat)         // a caller in WaitForCompletion(task)
    | TheDispatcher | TheJoiner | TheDestructor
    | TaskThread(h: Handle)   // in RunTask

  function ActorOf(e: Event): Actor {
    match e
    case Caller(AddRegister(h)) => Adder(h)
    case Caller(AddPush(h)) => Adder(h)
    case Caller(Cancel(_)) => Canceller
    case Caller(WaitBegin(w, _)) => Waiting(w)
    case Caller(WaitSpurious(w)) => Waiting(w)
    case Caller(WaitRecheck(w)) => Waiting(w)
    case Dispatcher(_) => TheDispatcher
    case Joiner(_) => TheJoiner
    case Task(t) => TaskThread(t.h)
    case Destructor(_) => TheDestructor
  }

  /** A terminal status stays. */
  predicate KeepsEnd(s: State, t: State, h: Handle) {
    h in s.sh.status && s.sh.status[h] != Running ==> h in t.sh.status && t.sh.status[h] == s.sh.status[h]
  }

  /** What steps of others may do to where an actor stands: notify it, and nothing else; and
      while the pool closes, no thread is started or forgotten. */
  predicate Undisturbed(me: Actor, s: State, t: State) {
    match me
    case Adder(h) => (h in s.adding ==> h in t.adding) && (h !in s.added ==> h !in t.added)
    case Canceller => true
    case Waiting(w) =>
      && (w in s.waiters <==> w in t.waiters)
      && (w in s.waiters ==>
            t.waiters[w].h == s.waiters[w].h && (s.waiters[w].Rechecking? ==> t.waiters[w].Rechecking?))
    case TheDispatcher => t.dispatcher == s.dispatcher || (s.dispatcher.Blocked? && t.dispatcher.Woken?)
    case TheJoiner => t.joiner == s.joiner
    case TheDestructor =>
      t.destructor == s.destructor && (s.sh.closing ==> t.sh.closing && t.sh.threads == s.sh.threads)
    case TaskThread(h) =>
      && (h in s.pc ==> h in t.pc && t.pc[h] == s.pc[h] && (h in s.calls ==> h in t.calls && t.calls[h] == s.calls[h]))
      && KeepsEnd(s, t, h)
  }

  lemma CallersDisturb(me: Actor, s: State, c: CallerStep)
    requires Inv(s) && CallerEnabled(s, c) && ActorOf(Caller(c)) != me
    ensures Undisturbed(me, s, CallerApply(s, c))
  {
    hide DispatchQueue, JoinableQueue, Slots, DispatcherWakeUp, WaiterWakeUps, Phases, Joins, Lifecycle;
  }

  lemma DispatcherDisturbs(me: Actor, s: State, d: DispatcherStep)
    requires Inv(s) && DispatcherEnabled(s, d) && me != TheDispatcher
    ensures Undisturbed(me, s, DispatcherApply(s, d))
  {
    hide Ownership, JoinableQueue, Statuses, Slots, DispatcherWakeUp, WaiterWakeUps, Phases, Joins, CallsMatch;
    if s.dispatcher.Popped? {
      assert InDispatch(s.dispatchQ, s.dispatcher, s.dispatcher.h);
    }
  }

  lemma JoinerDisturbs(me: Actor, s: State, j: JoinerStep)
    requires Inv(s) && JoinerEnabled(s, j) && me != TheJoiner
    ensures Undisturbed(me, s, JoinerApply(s, j))
  {
    hide Ownership, DispatchQueue, Statuses, Slots, DispatcherWakeUp, WaiterWakeUps, Phases, Joins, Lifecycle;
  }

  lemma TasksDisturb(me: Actor, s: State, t: TaskStep)
    requires TaskEnabled(s, t) && me != TaskThread(t.h)
    ensures Undisturbed(me, s, TaskApply(s, t))
  {
  }

  lemma DestructorDisturbs(me: Actor, s: State, x: DestructorStep)
    requires DestructorEnabled(s, x) && me != TheDestructor
    ensures Undisturbed(me, s, DestructorApply(s, x))
  {
  }

  lemma OthersStep(me: Actor, s: State, e: Event)
    requires Inv(s) && Enabled(s, e) && ActorOf(e) != me
    ensures Undisturbed(me, s, Apply(s, e))
  {
    hide Inv, Undisturbed, CallerApply, DispatcherApply, JoinerApply, TaskApply, DestructorApply;
    match e
    case Caller(c) => CallersDisturb(me, s, c);
    case Dispatcher(d) => DispatcherDisturbs(me, s, d);
    case Joiner(j) => JoinerDisturbs(me, s, j);
    case Task(t) => TasksDisturb(me, s, t);
    case Destructor(x) => DestructorDisturbs(me, s, x);
  }

  /** `me` has not made a step from `was` to `now`. */
  ghost predicate Rests(me: Actor, was: seq<Event>, now: seq<Event>) {
    was <= now && forall e :: ActorOf(e) == me ==> multiset(now)[e] == multiset(was)[e]
  }

  lemma UndisturbedTwice(me: Actor, s: State, t: State, u: State)
    requires Undisturbed(me, s, t) && Undisturbed(me, t, u)
    ensures Undisturbed(me, s, u)
  {
  }

  class ThreadPool {
    const maxPoolSize: nat
    var handleToTask: set<Handle>
    var handleToStatus: map<Handle, Status>
    var handleToThread: set<Handle>
    var cancelledTasks: set<Handle>
    var poolSize: int
    var numCompletedTasks: nat
    var shouldClose: bool
    var dispatchQueue: seq<Handle>
    var joinableQueue: seq<Handle>

    /** Where the actors stand and what has happened; of this record the members above have
        the shared data and the queues. */
    var control: State
    /** The path of the transition system so far. */
    ghost var states: seq<State>
    ghost var events: seq<Event>

    function View(): Shared
      reads this
    {
      Shared(handleToTask, handleToStatus, handleToThread, cancelledTasks, poolSize, numCompletedTasks, shouldClose)
    }

    function Now(): State
      reads this
    {
      control.(sh := View(), max := maxPoolSize, dispatchQ := dispatchQueue, joinableQ := joinableQueue)
    }

    /** The pool's state is the end of a path of the transition system. */
    ghost predicate Valid()
      reads this
    {
      IsPath(states, events) && states[|events|] == Now() && Inv(Now())
    }

    constructor (numThreads: nat)
      ensures maxPoolSize == numThreads && Valid() && Init(Now()) && states == [Now()] && events == []
    {
      maxPoolSize := numThreads;
      handleToTask, handleToStatus, handleToThread, cancelledTasks := {}, map[], {}, {};
      poolSize, numCompletedTasks, shouldClose := 0, 0, false;
      dispatchQueue, joinableQueue := [], [];
      control := State(Shared({}, map[], {}, {}, 0, 0, false), numThreads, [], [], AtTop, Idle, NotStarted,
                       map[], {}, map[], {}, map[], multiset{});
      new;
      InitInv(Now());
      states, events := [Now()], [];
    }

    // ---------- critical sections and queue operations ----------

    /** The dispatcher's test before it waits; it reserves a slot if it need not. */
    method ReserveSlot() returns (mustWait: bool)
      modifies this`poolSize
      ensures mustWait == MustWait(old(View()), maxPoolSize)
      ensures View() == if mustWait then old(View()) else Reserve(old(View()))
    {
      if maxPoolSize != 0 && poolSize >= maxPoolSize && !shouldClose {
        return true;
      }
      poolSize := poolSize + 1;
      return false;
    }

    /** The dispatcher's test while it waits; it reserves a slot once that holds. */
    method ReserveAfterWait() returns (goOn: bool)
      modifies this`poolSize
      ensures goOn == MayLeaveWait(old(View()), maxPoolSize)
      ensures View() == if goOn then Reserve(old(View())) else old(View())
    {
      goOn := poolSize < maxPoolSize || shouldClose;
      if goOn {
        poolSize := poolSize + 1;
      }
    }

    /** The joiner's critical section, after the thread's join has returned. */
    method FinalizeTask(handle: Handle)
      modifies this`handleToTask, this`handleToThread, this`cancelledTasks, this`poolSize
      ensures View() == Finalize(old(View()), handle)
    {
      handleToTask := handleToTask - {handle};
      handleToThread := handleToThread - {handle};
      cancelledTasks := cancelledTasks - {handle};
      poolSize := poolSize - 1;
    }

    /** The result tells the thread to run another iteration. */
    method UpdateTaskStatus(handle: Handle, status: Status) returns (keepGoing: bool)
      modifies this`handleToStatus
      ensures View() == Report(old(View()), handle, status)
      ensures handleToStatus == old(handleToStatus)[handle := if handle in cancelledTasks then Cancelled else status]
      ensures keepGoing <==> handleToStatus[handle] == Running
    {
      var effective := status;
      if handle in cancelledTasks {
        effective := Cancelled;
      }
      handleToStatus := handleToStatus[handle := effective];
      return effective == Running;
    }

    /** The test that decides whether WaitForCompletion(task) blocks; it creates the entry. */
    method MustWaitFor(handle: Handle) returns (running: bool)
      modifies this`handleToStatus
      ensures View() == TouchStatus(old(View()), handle)
      ensures running <==> View().status[handle] == Running
    {
      if handle !in handleToStatus {
        handleToStatus := handleToStatus[handle := Running];
      }
      running := handleToStatus[handle] == Running;
    }

    /** The destructor's critical section: a loop that cancels every known task. */
    method CloseAll()
      modifies this`cancelledTasks, this`shouldClose
      ensures View() == Close(old(View()))
    {
      var todo := handleToTask;
      while todo != {}
        invariant todo <= handleToTask
        invariant View() == old(View()).(cancelled := old(cancelledTasks) + (handleToTask - todo))
        decreases todo
      {
        var handle :| handle in todo;
        cancelledTasks := cancelledTasks + {handle};
        todo := todo - {handle};
      }
      shouldClose := true;
    }

    // ---------- steps ----------

    /** The members have just changed from `before` by the step `e`: the actors move on. */
    method Took(e: Event, before: State)
      requires IsPath(states, events) && states[|events|] == before && Inv(before)
      requires Enabled(before, e)
      requires var t := Apply(before, e);
        View() == t.sh && dispatchQueue == t.dispatchQ && joinableQueue == t.joinableQ && maxPoolSize == t.max
      modifies this`control, this`states, this`events
      ensures Valid() && Now() == Apply(before, e)
      ensures events == old(events) + [e] && states == old(states) + [Now()]
    {
      hide Inv, Enabled, Apply;
      control := Apply(before, e);
      StepInv(before, e);
      states, events := states + [Now()], events + [e];
    }

    /** A step of another actor. */
    method Perform(e: Event)
      requires Valid() && Enabled(Now(), e)
      modifies this
      ensures Valid() && Now() == Apply(old(Now()), e)
      ensures events == old(events) + [e] && states == old(states) + [Now()]
    {
      hide Inv, Enabled;
      var before := Now();
      var t := Apply(before, e);
      MaxKept(before, e);
      handleToTask, handleToStatus, handleToThread := t.sh.tasks, t.sh.status, t.sh.threads;
      cancelledTasks, poolSize := t.sh.cancelled, t.sh.poolSize;
      numCompletedTasks, shouldClose := t.sh.completed, t.sh.closing;
      dispatchQueue, joinableQueue := t.dispatchQ, t.joinableQ;
      Took(e, before);
    }

    /** A step of somebody else than `me`. */
    method PerformOther(me: Actor, e: Event)
      requires Valid() && Enabled(Now(), e) && ActorOf(e) != me
      modifies this
      ensures Valid() && Now() == Apply(old(Now()), e) && Undisturbed(me, old(Now()), Now())
      ensures old(states) <= states && Rests(me, old(events), events)
    {
      hide Inv, Enabled, Apply, IsPath;
      OthersStep(me, Now(), e);
      Perform(e);
    }

    /** Any number of steps of other actors. */
    method Interfere(me: Actor)
      requires Valid()
      modifies this
      ensures Valid() && Undisturbed(me, old(Now()), Now())
      ensures old(states) <= states && Rests(me, old(events), events)
    {
      hide Inv, Enabled, Apply, IsPath;
      var n: int := *;
      for i := 0 to if n > 0 then n else 0
        invariant Valid() && Undisturbed(me, old(Now()), Now())
        invariant old(states) <= states && Rests(me, old(events), events)
      {
        var e: Event := *;
        if Enabled(Now(), e) && ActorOf(e) != me {
          UndisturbedTwice(me, old(Now()), Now(), Apply(Now(), e)) by { OthersStep(me, Now(), e); }
          PerformOther(me, e);
        }
      }
    }
  }

  lemma MaxKept(s: State, e: Event)
    requires Enabled(s, e)
    ensures Apply(s, e).max == s.max
  {
  }
}
