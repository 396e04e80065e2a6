/** The thread pool as a transition system.

    `Shared` holds the members of the pool that its mutex protects; each function on it is
    the effect of one critical section.  `State` adds the two internal queues, a program
    counter per actor (dispatcher, joiner, destructor, task threads, blocked callers) and
    the history that the theorems talk about.  `Apply` is one atomic step of one actor: one
    critical section, one queue operation, one notification or one call into a task.

    The joiner keeps the mutex while it waits for a task thread, so that is the only place
    where holding the mutex spans two steps (`Joining`). */
module PoolSteps {
  import opened Basics

  /** Handles of tasks are positive; 0 is the dummy the destructor pushes. */
  type Handle = nat

  datatype Status = Running | Done | Failed | Cancelled

  datatype Shared = Shared(
    tasks: set<Handle>,            // keys of handle_to_task_
    status: map<Handle, Status>,   // handle_to_status_
    threads: set<Handle>,          // keys of handle_to_thread_
    cancelled: set<Handle>,        // cancelled_tasks_
    poolSize: int,                 // pool_size_; an int, so that not underflowing is a theorem
    completed: nat,                // num_completed_tasks_, which may wrap
    closing: bool)                 // should_close_

  // ---------- critical sections ----------

  function Register(sh: Shared, h: Handle): Shared {
    sh.(tasks := sh.tasks + {h}, status := sh.status[h := Running])
  }

  function RecordCancel(sh: Shared, h: Handle): Shared {
    sh.(cancelled := sh.cancelled + {h})
  }

  predicate MustWait(sh: Shared, max: nat) {
    max != 0 && sh.poolSize >= max && !sh.closing
  }

  predicate MayLeaveWait(sh: Shared, max: nat) {
    sh.poolSize < max || sh.closing
  }

  function Reserve(sh: Shared): Shared {
    sh.(poolSize := sh.poolSize + 1)
  }

  function Launch(sh: Shared, h: Handle): Shared {
    sh.(threads := sh.threads + {h})
  }

  function Finalize(sh: Shared, h: Handle): Shared {
    sh.(tasks := sh.tasks - {h}, threads := sh.threads - {h},
        cancelled := sh.cancelled - {h}, poolSize := sh.poolSize - 1)
  }

  /** The status that UpdateTaskStatus really records. */
  function Effective(sh: Shared, h: Handle, st: Status): Status {
    if h in sh.cancelled then Cancelled else st
  }

  function Report(sh: Shared, h: Handle, st: Status): Shared {
    sh.(status := sh.status[h := Effective(sh, h, st)])
  }

  function CountCompleted(sh: Shared): Shared {
    sh.(completed := (sh.completed + 1) % UINT32_MODULUS)
  }

  function Close(sh: Shared): Shared {
    sh.(cancelled := sh.cancelled + sh.tasks, closing := true)
  }

  /** WaitForCompletion reads with operator[], which creates a missing entry as RUNNING. */
  function TouchStatus(sh: Shared, h: Handle): Shared {
    if h in sh.status then sh else sh.(status := sh.status[h := Running])
  }

  // ---------- program counters ----------

  /** Where a task thread is inside RunTask. */
  datatype ThreadPc =
    | SettingUp                // in SetUp
    | Reporting(st: Status)    // about to enter UpdateTaskStatus with this status
    | Ready                    // told to go on, RunAtomic not begun yet
    | Iterating                // in RunAtomic
    | Cleaning                 // loop left, CleanUp not finished
    | Counting                 // about to take the mutex for the last time
    | Pushing                  // about to push its handle to joinable_queue_
    | Notifying                // about to notify task_done_
    | Exited

  datatype DispatcherPc = AtTop | Blocked | Woken | Reserved | Popped(h: Handle) | DispatcherExited

  datatype JoinerPc = Idle | Got(h: Handle) | Joining(h: Handle) | OwesNotify | JoinerExited

  datatype DestructorPc =
    | NotStarted | PushDispatch | PushJoinable | NotifyDone | NotifyAvailable
    | AwaitDispatcher | AwaitJoiner | JoinTasks(joinedSoFar: set<Handle>) | Destroyed

  /** A caller inside WaitForCompletion(task). */
  datatype Waiter = Sleeping(h: Handle) | Rechecking(h: Handle)

  datatype Call = SetUpCall | RunCall | CleanUpCall

  datatype State = State(
    sh: Shared,
    max: nat,                          // max_pool_size_
    dispatchQ: seq<Handle>,
    joinableQ: seq<Handle>,
    dispatcher: DispatcherPc,
    joiner: JoinerPc,
    destructor: DestructorPc,
    pc: map<Handle, ThreadPc>,         // every task thread ever created
    adding: set<Handle>,               // AddTask calls between critical section and Push
    waiters: map<nat, Waiter>,
    added: set<Handle>,                // history: tasks handed to AddTask
    calls: map<Handle, seq<Call>>,     // history: calls made on each dispatched task
    joined: multiset<Handle>)          // history: join() calls that returned

  predicate Init(s: State) {
    && s.sh == Shared({}, map[], {}, {}, 0, 0, false)
    && s.dispatchQ == [] && s.joinableQ == []
    && s.dispatcher == AtTop && s.joiner == Idle && s.destructor == NotStarted
    && s.pc == map[] && s.adding == {} && s.waiters == map[]
    && s.added == {} && s.calls == map[] && s.joined == multiset{}
  }

  predicate MutexFree(s: State) { !s.joiner.Joining? }

  // ---------- notifications ----------

  function WakeDispatcher(s: State): State {
    if s.dispatcher.Blocked? then s.(dispatcher := Woken) else s
  }

  function WakeWaiters(s: State): State {
    s.(waiters := map w | w in s.waiters :: Rechecking(s.waiters[w].h))
  }

  // ---------- callers ----------

  datatype CallerStep =
    | AddRegister(h: Handle) | AddPush(h: Handle) | Cancel(h: Handle)
    | WaitBegin(w: nat, h: Handle) | WaitSpurious(w: nat) | WaitRecheck(w: nat)

  predicate CallerEnabled(s: State, e: CallerStep) {
    !s.destructor.Destroyed? &&
    match e
    case AddRegister(h) => MutexFree(s) && h != 0 && h !in s.added   // each task is added once
    case AddPush(h) => h in s.adding
    case Cancel(h) => MutexFree(s) && h != 0
    case WaitBegin(w, h) => MutexFree(s) && h != 0 && w !in s.waiters
    case WaitSpurious(w) => w in s.waiters && s.waiters[w].Sleeping?
    case WaitRecheck(w) => MutexFree(s) && w in s.waiters && s.waiters[w].Rechecking? && s.waiters[w].h in s.sh.status
  }

  function CallerApply(s: State, e: CallerStep): State
    requires CallerEnabled(s, e)
  {
    match e
    case AddRegister(h) =>
      s.(sh := Register(s.sh, h), adding := s.adding + {h}, added := s.added + {h})
    case AddPush(h) =>
      s.(dispatchQ := s.dispatchQ + [h], adding := s.adding - {h})
    case Cancel(h) =>
      s.(sh := RecordCancel(s.sh, h))
    case WaitBegin(w, h) =>
      var t := s.(sh := TouchStatus(s.sh, h));
      if t.sh.status[h].Running? then t.(waiters := t.waiters[w := Sleeping(h)]) else t
    case WaitSpurious(w) =>
      s.(waiters := s.waiters[w := Rechecking(s.waiters[w].h)])
    case WaitRecheck(w) =>
      var h := s.waiters[w].h;
      if s.sh.status[h].Running? then s.(waiters := s.waiters[w := Sleeping(h)])
      else s.(waiters := s.waiters - {w})
  }

  // ---------- dispatcher ----------

  datatype DispatcherStep = DispatchCheck | DispatchSpurious | DispatchRecheck | DispatchPop | DispatchLaunch

  predicate DispatcherEnabled(s: State, e: DispatcherStep) {
    match e
    case DispatchCheck => s.dispatcher.AtTop? && MutexFree(s)
    case DispatchSpurious => s.dispatcher.Blocked?
    case DispatchRecheck => s.dispatcher.Woken? && MutexFree(s)
    case DispatchPop => s.dispatcher.Reserved? && s.dispatchQ != []
    case DispatchLaunch => s.dispatcher.Popped? && MutexFree(s)
  }

  function DispatcherApply(s: State, e: DispatcherStep): State
    requires DispatcherEnabled(s, e)
  {
    match e
    case DispatchCheck =>
      if MustWait(s.sh, s.max) then s.(dispatcher := Blocked)
      else s.(sh := Reserve(s.sh), dispatcher := Reserved)
    case DispatchSpurious =>
      s.(dispatcher := Woken)
    case DispatchRecheck =>
      if MayLeaveWait(s.sh, s.max) then s.(sh := Reserve(s.sh), dispatcher := Reserved)
      else s.(dispatcher := Blocked)
    case DispatchPop =>
      s.(dispatcher := Popped(s.dispatchQ[0]), dispatchQ := s.dispatchQ[1..])
    case DispatchLaunch =>
      var h := s.dispatcher.h;
      if s.sh.closing then s.(dispatcher := DispatcherExited)
      else s.(sh := Launch(s.sh, h), pc := s.pc[h := SettingUp], calls := s.calls[h := []], dispatcher := AtTop)
  }

  // ---------- joiner ----------

  datatype JoinerStep = JoinerPop | JoinerLock | JoinerFinish | JoinerNotify

  predicate JoinerEnabled(s: State, e: JoinerStep) {
    match e
    case JoinerPop => s.joiner.Idle? && s.joinableQ != []
    case JoinerLock => s.joiner.Got?
    case JoinerFinish => s.joiner.Joining? && s.joiner.h in s.pc && s.pc[s.joiner.h].Exited?
    case JoinerNotify => s.joiner.OwesNotify?
  }

  function JoinerApply(s: State, e: JoinerStep): State
    requires JoinerEnabled(s, e)
  {
    match e
    case JoinerPop =>
      s.(joiner := Got(s.joinableQ[0]), joinableQ := s.joinableQ[1..])
    case JoinerLock =>
      if s.sh.closing then s.(joiner := JoinerExited) else s.(joiner := Joining(s.joiner.h))
    case JoinerFinish =>
      var h := s.joiner.h;
      s.(sh := Finalize(s.sh, h), joined := s.joined + multiset{h}, joiner := OwesNotify)
    case JoinerNotify =>
      WakeDispatcher(s).(joiner := Idle)
  }

  // ---------- task threads ----------

  datatype TaskStep =
    | TaskSetUp(h: Handle, st: Status) | TaskReport(h: Handle) | TaskBegin(h: Handle)
    | TaskIterate(h: Handle, st: Status) | TaskCleanUp(h: Handle) | TaskCount(h: Handle)
    | TaskPush(h: Handle) | TaskNotify(h: Handle)

  predicate TaskEnabled(s: State, e: TaskStep) {
    e.h in s.pc && e.h in s.calls &&
    match e
    case TaskSetUp(h, _) => s.pc[h].SettingUp?
    case TaskReport(h) => s.pc[h].Reporting? && MutexFree(s)
    case TaskBegin(h) => s.pc[h].Ready?
    case TaskIterate(h, _) => s.pc[h].Iterating?
    case TaskCleanUp(h) => s.pc[h].Cleaning?
    case TaskCount(h) => s.pc[h].Counting? && MutexFree(s)
    case TaskPush(h) => s.pc[h].Pushing?
    case TaskNotify(h) => s.pc[h].Notifying?
  }

  function TaskApply(s: State, e: TaskStep): State
    requires TaskEnabled(s, e)
  {
    match e
    case TaskSetUp(h, st) =>
      s.(pc := s.pc[h := Reporting(st)], calls := s.calls[h := s.calls[h] + [SetUpCall]])
    case TaskReport(h) =>
      var st := s.pc[h].st;
      s.(sh := Report(s.sh, h, st),
         pc := s.pc[h := if Effective(s.sh, h, st).Running? then Ready else Cleaning])
    case TaskBegin(h) =>
      s.(pc := s.pc[h := Iterating], calls := s.calls[h := s.calls[h] + [RunCall]])
    case TaskIterate(h, st) =>
      s.(pc := s.pc[h := Reporting(st)])
    case TaskCleanUp(h) =>
      s.(pc := s.pc[h := Counting], calls := s.calls[h := s.calls[h] + [CleanUpCall]])
    case TaskCount(h) =>
      s.(sh := CountCompleted(s.sh), pc := s.pc[h := Pushing])
    case TaskPush(h) =>
      s.(pc := s.pc[h := Notifying], joinableQ := s.joinableQ + [h])
    case TaskNotify(h) =>
      WakeWaiters(s).(pc := s.pc[h := Exited])
  }

  // ---------- destructor ----------

  datatype DestructorStep =
    | BeginClose | ClosePushDispatch | ClosePushJoinable | CloseNotifyDone | CloseNotifyAvailable
    | JoinDispatcher | JoinJoiner | JoinTask(h: Handle) | FinishClose

  predicate DestructorEnabled(s: State, e: DestructorStep) {
    match e
    case BeginClose => s.destructor.NotStarted? && MutexFree(s)
    case ClosePushDispatch => s.destructor.PushDispatch?
    case ClosePushJoinable => s.destructor.PushJoinable?
    case CloseNotifyDone => s.destructor.NotifyDone?
    case CloseNotifyAvailable => s.destructor.NotifyAvailable?
    case JoinDispatcher => s.destructor.AwaitDispatcher? && s.dispatcher.DispatcherExited?
    case JoinJoiner => s.destructor.AwaitJoiner? && s.joiner.JoinerExited?
    case JoinTask(h) =>
      && s.destructor.JoinTasks? && h in s.sh.threads && h !in s.destructor.joinedSoFar
      && h in s.pc && s.pc[h].Exited?
    case FinishClose => s.destructor.JoinTasks? && s.destructor.joinedSoFar == s.sh.threads
  }

  function DestructorApply(s: State, e: DestructorStep): State
    requires DestructorEnabled(s, e)
  {
    match e
    case BeginClose => s.(sh := Close(s.sh), destructor := PushDispatch)
    case ClosePushDispatch => s.(dispatchQ := s.dispatchQ + [0], destructor := PushJoinable)
    case ClosePushJoinable => s.(joinableQ := s.joinableQ + [0], destructor := NotifyDone)
    case CloseNotifyDone => WakeWaiters(s).(destructor := NotifyAvailable)
    case CloseNotifyAvailable => WakeDispatcher(s).(destructor := AwaitDispatcher)
    case JoinDispatcher => s.(destructor := AwaitJoiner)
    case JoinJoiner => s.(destructor := JoinTasks({}))
    case JoinTask(h) =>
      s.(joined := s.joined + multiset{h}, destructor := JoinTasks(s.destructor.joinedSoFar + {h}))
    case FinishClose => s.(destructor := Destroyed)
  }

  // ---------- runs ----------

  datatype Event =
    | Caller(c: CallerStep) | Dispatcher(d: DispatcherStep) | Joiner(j: JoinerStep)
    | Task(t: TaskStep) | Destructor(x: DestructorStep)

  predicate Enabled(s: State, e: Event) {
    match e
    case Caller(c) => CallerEnabled(s, c)
    case Dispatcher(d) => DispatcherEnabled(s, d)
    case Joiner(j) => JoinerEnabled(s, j)
    case Task(t) => TaskEnabled(s, t)
    case Destructor(x) => DestructorEnabled(s, x)
  }

  function Apply(s: State, e: Event): State
    requires Enabled(s, e)
  {
    match e
    case Caller(c) => CallerApply(s, c)
    case Dispatcher(d) => DispatcherApply(s, d)
    case Joiner(j) => JoinerApply(s, j)
    case Task(t) => TaskApply(s, t)
    case Destructor(x) => DestructorApply(s, x)
  }

  /** `states` is the path that the schedule `events` takes, each step being possible. */
  predicate IsPath(states: seq<State>, events: seq<Event>) {
    && |states| == |events| + 1
    && forall i :: 0 <= i < |events| ==> Enabled(states[i], events[i]) && states[i + 1] == Apply(states[i], events[i])
  }

  predicate IsRun(states: seq<State>, events: seq<Event>) {
    IsPath(states, events) && Init(states[0])
  }
}
