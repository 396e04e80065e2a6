/** The inductive invariant of the thread pool and its preservation by every step. */
module PoolInvariant {
  import opened PoolSteps

  /** The thread's loop is over: its status is terminal. */
  predicate PastLoop(p: ThreadPc) {
    p.Cleaning? || p.Counting? || p.Pushing? || p.Notifying? || p.Exited?
  }

  /** The thread will never take the pool mutex again. */
  predicate PastMutex(p: ThreadPc) { p.Notifying? || p.Exited? }

  /** The thread still has its notify_all on task_done_ ahead of it. */
  predicate OwesDone(p: ThreadPc) { PastLoop(p) && !p.Exited? }

  predicate HoldsSlot(d: DispatcherPc) { d.Reserved? || d.Popped? }

  /** A handle is on its way to the dispatcher. */
  predicate InDispatch(q: seq<Handle>, popped: DispatcherPc, h: Handle) {
    h in q || popped == Popped(h)
  }

  /** A handle is on its way to being joined by the joiner. */
  predicate InJoinable(q: seq<Handle>, j: JoinerPc, h: Handle) {
    h in q || j == Got(h) || j == Joining(h)
  }

  ghost predicate DistinctTasks(q: seq<Handle>) {
    forall i, j :: 0 <= i < j < |q| && q[i] == q[j] ==> q[i] == 0
  }

  // Each group of the invariant names the components it depends on, so that a step that
  // leaves those alone keeps the group for free.

  /** Who owns what: a task object lives in handle_to_task_ from AddTask until its thread is joined. */
  ghost predicate Ownership(added: set<Handle>, adding: set<Handle>, tasks: set<Handle>,
                            threads: set<Handle>, pc: map<Handle, ThreadPc>)
  {
    && 0 !in added
    && tasks <= added
    && adding <= tasks
    && threads <= tasks
    && threads <= pc.Keys <= added
    && adding !! pc.Keys
    && (forall h :: h in pc && h !in threads ==> pc[h].Exited?)
    && (forall h :: h in added && h !in pc ==> h in tasks)
  }

  /** A queued task is owned and not started; until closing every such task is queued once its
      caller has pushed it; the dummy appears only when closing. */
  ghost predicate DispatchQueue(q: seq<Handle>, d: DispatcherPc, closing: bool,
                                tasks: set<Handle>, adding: set<Handle>, started: set<Handle>)
  {
    && DistinctTasks(q)
    && (forall h :: InDispatch(q, d, h) ==> if h == 0 then closing else h in tasks && h !in started && h !in adding)
    && (d.Popped? && d.h != 0 ==> d.h !in q)
    && (!closing ==> forall h :: h in tasks && h !in started && h !in adding ==> InDispatch(q, d, h))
  }

  /** A handle waiting to be joined has a thread object, and that thread is past the mutex;
      while the joiner lives, every such thread is waiting to be joined. */
  ghost predicate JoinableQueue(q: seq<Handle>, j: JoinerPc, closing: bool,
                                threads: set<Handle>, pc: map<Handle, ThreadPc>)
  {
    && DistinctTasks(q)
    && (forall h :: InJoinable(q, j, h) ==> if h == 0 then closing else h in threads && h in pc && PastMutex(pc[h]))
    && (j.Got? || j.Joining? ==> j.h == 0 || j.h !in q)
    && (j.Joining? ==> !closing)
    && (!j.JoinerExited? ==> forall h :: h in threads && h in pc && PastMutex(pc[h]) ==> InJoinable(q, j, h))
  }

  /** A status is terminal exactly when the task's thread has left its loop. */
  ghost predicate Statuses(added: set<Handle>, status: map<Handle, Status>, pc: map<Handle, ThreadPc>) {
    && (forall h :: h in added ==> h in status)
    && (forall h :: h in status ==> (status[h] != Running <==> h in pc && PastLoop(pc[h])))
  }

  /** Before closing, a slot is a thread object or the dispatcher's reservation. */
  ghost predicate Slots(poolSize: int, threads: set<Handle>, d: DispatcherPc, max: nat, closing: bool) {
    !closing ==>
      && poolSize == |threads| + (if HoldsSlot(d) then 1 else 0)
      && (max != 0 ==> poolSize <= max)
  }

  /** Destructor phases before its notify_one on thread_available_. */
  predicate OwesAvailable(x: DestructorPc) {
    x.PushDispatch? || x.PushJoinable? || x.NotifyDone? || x.NotifyAvailable?
  }

  /** A blocked dispatcher that could go on is owed a notification. */
  ghost predicate DispatcherWakeUp(d: DispatcherPc, j: JoinerPc, x: DestructorPc,
                                   poolSize: int, max: nat, closing: bool)
  {
    && (d.Blocked? || d.Woken? ==> max != 0)
    && (d.Blocked? && (poolSize < max || closing) ==> j.OwesNotify? || OwesAvailable(x))
  }

  /** A caller asleep on a finished task is owed a notify_all by that task's thread. */
  ghost predicate WaiterWakeUps(waiters: map<nat, Waiter>, status: map<Handle, Status>, pc: map<Handle, ThreadPc>) {
    forall w :: w in waiters ==>
      && waiters[w].h in status
      && (waiters[w].Sleeping? && status[waiters[w].h] != Running ==>
            waiters[w].h in pc && OwesDone(pc[waiters[w].h]))
  }

  /** What closing has already achieved in each phase of the destructor. */
  ghost predicate Phases(x: DestructorPc, d: DispatcherPc, j: JoinerPc, closing: bool,
                         dispatchQ: seq<Handle>, joinableQ: seq<Handle>)
  {
    && (closing <==> !x.NotStarted?)
    && (d.DispatcherExited? || j.JoinerExited? ==> closing)
    && (closing && !x.PushDispatch? && !d.Popped? && !d.DispatcherExited? ==> dispatchQ != [])
    && (closing && !x.PushDispatch? && !x.PushJoinable? && !j.Got? && !j.JoinerExited? ==> joinableQ != [])
    && (x.AwaitJoiner? || x.JoinTasks? || x.Destroyed? ==> d.DispatcherExited?)
    && (x.JoinTasks? || x.Destroyed? ==> j.JoinerExited?)
  }

  predicate JoinedByDestructor(x: DestructorPc, threads: set<Handle>, h: Handle) {
    h in threads &&
    match x
    case JoinTasks(done) => h in done
    case Destroyed => true
    case _ => false
  }

  /** No thread is joined twice, none is forgotten, none is joined before it has exited. */
  ghost predicate Joins(joined: multiset<Handle>, x: DestructorPc, threads: set<Handle>, pc: map<Handle, ThreadPc>) {
    && (x.JoinTasks? ==> x.joinedSoFar <= threads)
    && (forall h :: h in pc && JoinedByDestructor(x, threads, h) ==> pc[h].Exited?)
    && (forall h :: joined[h] == if h in pc && (h !in threads || JoinedByDestructor(x, threads, h)) then 1 else 0)
  }

  predicate BodyCalls(c: seq<Call>) {
    && 0 < |c| && c[0] == SetUpCall
    && forall i :: 1 <= i < |c| ==> c[i] == RunCall
  }

  /** One SetUp, then iterations, then at most one CleanUp, in step with the thread's pc. */
  predicate CallsMatch(p: ThreadPc, c: seq<Call>) {
    match p
    case SettingUp => c == []
    case Reporting(_) | Ready | Iterating | Cleaning => BodyCalls(c)
    case Counting | Pushing | Notifying | Exited =>
      |c| > 0 && c[|c| - 1] == CleanUpCall && BodyCalls(c[..|c| - 1])
  }

  ghost predicate Lifecycle(pc: map<Handle, ThreadPc>, calls: map<Handle, seq<Call>>) {
    && calls.Keys == pc.Keys
    && forall h :: h in pc ==> CallsMatch(pc[h], calls[h])
  }

  /** Everything but the call histories. */
  ghost predicate InvCore(s: State) {
    && Ownership(s.added, s.adding, s.sh.tasks, s.sh.threads, s.pc)
    && DispatchQueue(s.dispatchQ, s.dispatcher, s.sh.closing, s.sh.tasks, s.adding, s.pc.Keys)
    && JoinableQueue(s.joinableQ, s.joiner, s.sh.closing, s.sh.threads, s.pc)
    && Statuses(s.added, s.sh.status, s.pc)
    && Slots(s.sh.poolSize, s.sh.threads, s.dispatcher, s.max, s.sh.closing)
    && DispatcherWakeUp(s.dispatcher, s.joiner, s.destructor, s.sh.poolSize, s.max, s.sh.closing)
    && WaiterWakeUps(s.waiters, s.sh.status, s.pc)
    && Phases(s.destructor, s.dispatcher, s.joiner, s.sh.closing, s.dispatchQ, s.joinableQ)
    && (s.sh.closing ==> s.sh.threads <= s.sh.cancelled)
    && Joins(s.joined, s.destructor, s.sh.threads, s.pc)
  }

  ghost predicate Inv(s: State) {
    InvCore(s) && Lifecycle(s.pc, s.calls)
  }

  lemma InitInv(s: State)
    requires Init(s)
    ensures Inv(s)
  {
  }

  // ---------- preservation, step by step ----------

  /** Adding and cancelling. */
  lemma AddTaskInv(s: State, e: CallerStep)
    requires Inv(s) && CallerEnabled(s, e)
    requires e.AddRegister? || e.AddPush? || e.Cancel?
    ensures Inv(CallerApply(s, e))
  {
  }

  /** A caller starts to wait for a task. */
  lemma WaitBeginInv(s: State, e: CallerStep)
    requires Inv(s) && CallerEnabled(s, e)
    requires e.WaitBegin?
    ensures Inv(CallerApply(s, e))
  {
    hide DispatchQueue, JoinableQueue, Slots, DispatcherWakeUp, Phases, Joins, Lifecycle;
    assert Inv(s.(sh := TouchStatus(s.sh, e.h)));
  }

  /** A waiting caller wakes up and looks again. */
  lemma WaitOnInv(s: State, e: CallerStep)
    requires Inv(s) && CallerEnabled(s, e)
    requires e.WaitSpurious? || e.WaitRecheck?
    ensures Inv(CallerApply(s, e))
  {
    hide Ownership, DispatchQueue, JoinableQueue, Statuses, Slots, DispatcherWakeUp, Phases, Joins, Lifecycle;
  }

  /** As long as it holds no handle, the dispatcher's position says nothing about the queue. */
  lemma DispatcherMoves(s: State, d: DispatcherPc)
    requires InvCore(s) && !s.dispatcher.Popped? && !d.Popped?
    ensures DispatchQueue(s.dispatchQ, d, s.sh.closing, s.sh.tasks, s.adding, s.pc.Keys)
  {
    assert forall h :: InDispatch(s.dispatchQ, d, h) ==> InDispatch(s.dispatchQ, s.dispatcher, h);
  }

  /** The dispatcher looks for a slot. */
  lemma ReserveInv(s: State, e: DispatcherStep)
    requires Inv(s) && DispatcherEnabled(s, e)
    requires !e.DispatchLaunch? && !e.DispatchPop?
    ensures Inv(DispatcherApply(s, e))
  {
    hide Ownership, DispatchQueue, JoinableQueue, Statuses, WaiterWakeUps, Joins, Lifecycle;
    DispatcherMoves(s, DispatcherApply(s, e).dispatcher);
  }

  /** The dispatcher takes a handle. */
  lemma DispatchPopInv(s: State, e: DispatcherStep)
    requires Inv(s) && DispatcherEnabled(s, e)
    requires e.DispatchPop?
    ensures Inv(DispatcherApply(s, e))
  {
  }

  /** A fresh thread joins the bookkeeping. */
  lemma NewThread(s: State, h: Handle)
    requires InvCore(s) && h in s.sh.tasks && h !in s.pc && h !in s.adding && !s.sh.closing
    ensures var threads, pc := s.sh.threads + {h}, s.pc[h := SettingUp];
      && Ownership(s.added, s.adding, s.sh.tasks, threads, pc)
      && JoinableQueue(s.joinableQ, s.joiner, s.sh.closing, threads, pc)
      && Statuses(s.added, s.sh.status, pc)
      && WaiterWakeUps(s.waiters, s.sh.status, pc)
      && Joins(s.joined, s.destructor, threads, pc)
  {
  }

  lemma NewThreadSlot(s: State, h: Handle)
    requires InvCore(s) && s.dispatcher == Popped(h) && h !in s.pc && !s.sh.closing
    ensures Slots(s.sh.poolSize, s.sh.threads + {h}, AtTop, s.max, s.sh.closing)
  {
    hide DispatchQueue, JoinableQueue, Statuses, DispatcherWakeUp, WaiterWakeUps, Phases, Joins;
  }

  /** The handle leaves the dispatcher and the task counts as started. */
  lemma NewThreadQueue(q: seq<Handle>, h: Handle, tasks: set<Handle>, adding: set<Handle>, started: set<Handle>)
    requires DispatchQueue(q, Popped(h), false, tasks, adding, started) && h != 0
    ensures DispatchQueue(q, AtTop, false, tasks, adding, started + {h})
  {
    hide DistinctTasks;
    forall k | InDispatch(q, AtTop, k) ensures InDispatch(q, Popped(h), k) && k != h {
    }
    forall k | k in tasks && k !in started + {h} && k !in adding ensures InDispatch(q, AtTop, k) {
      assert InDispatch(q, Popped(h), k);
    }
  }

  lemma NewThreadCalls(s: State, h: Handle)
    requires Lifecycle(s.pc, s.calls)
    ensures Lifecycle(s.pc[h := SettingUp], s.calls[h := []])
  {
  }

  lemma PoppedTask(s: State)
    requires InvCore(s) && s.dispatcher.Popped? && !s.sh.closing
    ensures var h := s.dispatcher.h; h != 0 && h in s.sh.tasks && h !in s.pc && h !in s.adding
  {
    assert InDispatch(s.dispatchQ, s.dispatcher, s.dispatcher.h);
  }

  /** The dispatcher starts a thread. */
  lemma LaunchInv(s: State, e: DispatcherStep)
    requires Inv(s) && DispatcherEnabled(s, e) && e.DispatchLaunch? && !s.sh.closing
    ensures Inv(DispatcherApply(s, e))
  {
    hide Ownership, DispatchQueue, JoinableQueue, Statuses, Slots, WaiterWakeUps, Joins, Lifecycle;
    PoppedTask(s);
    NewThread(s, s.dispatcher.h);
    NewThreadSlot(s, s.dispatcher.h);
    NewThreadQueue(s.dispatchQ, s.dispatcher.h, s.sh.tasks, s.adding, s.pc.Keys);
    NewThreadCalls(s, s.dispatcher.h);
    assert s.pc[s.dispatcher.h := SettingUp].Keys == s.pc.Keys + {s.dispatcher.h};
  }

  /** The dispatcher leaves. */
  lemma LeaveInv(s: State, e: DispatcherStep)
    requires Inv(s) && DispatcherEnabled(s, e) && e.DispatchLaunch? && s.sh.closing
    ensures Inv(DispatcherApply(s, e))
  {
    hide Ownership, JoinableQueue, Statuses, WaiterWakeUps, Joins, Lifecycle;
    forall h | InDispatch(s.dispatchQ, DispatcherExited, h) ensures InDispatch(s.dispatchQ, s.dispatcher, h) {
    }
  }

  /** The joiner takes a handle. */
  lemma JoinerPopInv(s: State, e: JoinerStep)
    requires Inv(s) && JoinerEnabled(s, e)
    requires e.JoinerPop?
    ensures Inv(JoinerApply(s, e))
  {
  }

  /** The joiner locks, and then starts to join or exits. */
  lemma JoinerLockInv(s: State, e: JoinerStep)
    requires Inv(s) && JoinerEnabled(s, e)
    requires e.JoinerLock?
    ensures Inv(JoinerApply(s, e))
  {
  }

  /** The joiner announces a free slot. */
  lemma JoinerNotifyInv(s: State, e: JoinerStep)
    requires Inv(s) && JoinerEnabled(s, e)
    requires e.JoinerNotify?
    ensures Inv(JoinerApply(s, e))
  {
    if s.dispatcher.Blocked? {
      DispatcherMoves(s, Woken);
    }
  }

  /** The joiner joins a thread and frees its slot. */
  lemma JoinerFinishInv(s: State, e: JoinerStep)
    requires Inv(s) && JoinerEnabled(s, e)
    requires e.JoinerFinish?
    ensures Inv(JoinerApply(s, e))
  {
    hide Statuses, WaiterWakeUps, Lifecycle;
  }

  /** One thread moves inside a phase. */
  predicate SamePhase(p: ThreadPc, q: ThreadPc) {
    PastLoop(p) == PastLoop(q) && PastMutex(p) == PastMutex(q) && p.Exited? == q.Exited?
  }

  lemma MoveOwned(s: State, h: Handle, p: ThreadPc)
    requires InvCore(s) && h in s.pc && p.Exited? == s.pc[h].Exited?
    ensures var pc := s.pc[h := p];
      && Ownership(s.added, s.adding, s.sh.tasks, s.sh.threads, pc)
      && Joins(s.joined, s.destructor, s.sh.threads, pc)
  {
    hide DispatchQueue, JoinableQueue, Statuses, Slots, DispatcherWakeUp, WaiterWakeUps, Phases;
  }

  lemma MoveJoinable(s: State, h: Handle, p: ThreadPc)
    requires InvCore(s) && h in s.pc && PastMutex(p) == PastMutex(s.pc[h])
    ensures JoinableQueue(s.joinableQ, s.joiner, s.sh.closing, s.sh.threads, s.pc[h := p])
  {
    hide Ownership, DispatchQueue, Statuses, Slots, DispatcherWakeUp, WaiterWakeUps, Phases, Joins;
  }

  lemma MoveStatus(s: State, h: Handle, p: ThreadPc)
    requires InvCore(s) && h in s.pc && PastLoop(p) == PastLoop(s.pc[h]) && p.Exited? == s.pc[h].Exited?
    ensures var pc := s.pc[h := p];
      Statuses(s.added, s.sh.status, pc) && WaiterWakeUps(s.waiters, s.sh.status, pc)
  {
    hide Ownership, DispatchQueue, JoinableQueue, Slots, DispatcherWakeUp, Phases, Joins;
  }

  /** Moving one thread inside a phase touches nothing but its own call history. */
  lemma MoveThread(s: State, h: Handle, p: ThreadPc)
    requires InvCore(s) && h in s.pc && SamePhase(p, s.pc[h])
    ensures InvCore(s.(pc := s.pc[h := p]))
  {
    hide Ownership, DispatchQueue, JoinableQueue, Statuses, Slots, DispatcherWakeUp, WaiterWakeUps, Phases, Joins;
    MoveOwned(s, h, p);
    MoveJoinable(s, h, p);
    MoveStatus(s, h, p);
    assert s.pc[h := p].Keys == s.pc.Keys;
  }

  /** The call history stays in step with the thread. */
  lemma TaskLifecycle(s: State, e: TaskStep)
    requires Lifecycle(s.pc, s.calls) && TaskEnabled(s, e)
    ensures var t := TaskApply(s, e); Lifecycle(t.pc, t.calls)
  {
  }

  /** UpdateTaskStatus. */
  lemma TaskReportInv(s: State, e: TaskStep)
    requires InvCore(s) && TaskEnabled(s, e)
    requires e.TaskReport?
    ensures InvCore(TaskApply(s, e))
  {
  }

  /** The thread announces that it can be joined. */
  lemma TaskPushInv(s: State, e: TaskStep)
    requires InvCore(s) && TaskEnabled(s, e)
    requires e.TaskPush?
    ensures InvCore(TaskApply(s, e))
  {
    hide DispatchQueue, Statuses, Slots, DispatcherWakeUp, WaiterWakeUps, Joins;
    MoveOwned(s, e.h, Notifying);
    MoveStatus(s, e.h, Notifying);
    assert TaskApply(s, e).pc.Keys == s.pc.Keys;
  }

  /** The thread wakes the waiting callers and ends. */
  lemma TaskNotifyInv(s: State, e: TaskStep)
    requires InvCore(s) && TaskEnabled(s, e)
    requires e.TaskNotify?
    ensures InvCore(TaskApply(s, e))
  {
    hide DispatchQueue, Slots, DispatcherWakeUp, Phases;
    assert TaskApply(s, e).pc.Keys == s.pc.Keys;
  }

  /** The destructor closes the pool and fills the queues. */
  lemma CloseInv(s: State, e: DestructorStep)
    requires Inv(s) && DestructorEnabled(s, e)
    requires e.BeginClose? || e.ClosePushDispatch? || e.ClosePushJoinable?
    ensures Inv(DestructorApply(s, e))
  {
  }

  /** The destructor notifies, and waits for the service threads. */
  lemma CloseWaitInv(s: State, e: DestructorStep)
    requires Inv(s) && DestructorEnabled(s, e)
    requires !(e.BeginClose? || e.ClosePushDispatch? || e.ClosePushJoinable? || e.JoinTask?)
    ensures Inv(DestructorApply(s, e))
  {
    if s.dispatcher.Blocked? {
      DispatcherMoves(s, Woken);
    }
  }

  /** The destructor joins a task thread. */
  lemma JoinTaskInv(s: State, e: DestructorStep)
    requires Inv(s) && DestructorEnabled(s, e)
    requires e.JoinTask?
    ensures Inv(DestructorApply(s, e))
  {
    hide DispatchQueue, JoinableQueue, Statuses, Slots, WaiterWakeUps, Lifecycle;
  }

  lemma TaskMoveInv(s: State, e: TaskStep)
    requires InvCore(s) && TaskEnabled(s, e) && !e.TaskReport? && !e.TaskPush? && !e.TaskNotify?
    ensures InvCore(TaskApply(s, e))
  {
    MoveThread(s, e.h, TaskApply(s, e).pc[e.h]);
  }

  lemma TaskInv(s: State, e: TaskStep)
    requires Inv(s) && TaskEnabled(s, e)
    ensures Inv(TaskApply(s, e))
  {
    TaskLifecycle(s, e);
    match e
    case TaskReport(_) => TaskReportInv(s, e);
    case TaskPush(_) => TaskPushInv(s, e);
    case TaskNotify(_) => TaskNotifyInv(s, e);
    case _ => TaskMoveInv(s, e);
  }

  lemma CallerInv(s: State, e: CallerStep)
    requires Inv(s) && CallerEnabled(s, e)
    ensures Inv(CallerApply(s, e))
  {
    hide Inv, CallerApply;
    match e
    case AddRegister(_) => AddTaskInv(s, e);
    case AddPush(_) => AddTaskInv(s, e);
    case Cancel(_) => AddTaskInv(s, e);
    case WaitBegin(_, _) => WaitBeginInv(s, e);
    case WaitSpurious(_) => WaitOnInv(s, e);
    case WaitRecheck(_) => WaitOnInv(s, e);
  }

  lemma DispatcherInv(s: State, e: DispatcherStep)
    requires Inv(s) && DispatcherEnabled(s, e)
    ensures Inv(DispatcherApply(s, e))
  {
    hide Inv, DispatcherApply;
    match e
    case DispatchLaunch => if s.sh.closing { LeaveInv(s, e); } else { LaunchInv(s, e); }
    case DispatchPop => DispatchPopInv(s, e);
    case _ => ReserveInv(s, e);
  }

  lemma JoinerInv(s: State, e: JoinerStep)
    requires Inv(s) && JoinerEnabled(s, e)
    ensures Inv(JoinerApply(s, e))
  {
    hide Inv, JoinerApply;
    match e
    case JoinerPop => JoinerPopInv(s, e);
    case JoinerLock => JoinerLockInv(s, e);
    case JoinerFinish => JoinerFinishInv(s, e);
    case JoinerNotify => JoinerNotifyInv(s, e);
  }

  lemma DestructorInv(s: State, e: DestructorStep)
    requires Inv(s) && DestructorEnabled(s, e)
    ensures Inv(DestructorApply(s, e))
  {
    hide Inv, DestructorApply;
    match e
    case JoinTask(_) => JoinTaskInv(s, e);
    case BeginClose => CloseInv(s, e);
    case ClosePushDispatch => CloseInv(s, e);
    case ClosePushJoinable => CloseInv(s, e);
    case _ => CloseWaitInv(s, e);
  }

  /** Every step of every actor keeps the invariant. */
  lemma StepInv(s: State, e: Event)
    requires Inv(s) && Enabled(s, e)
    ensures Inv(Apply(s, e))
  {
    hide Inv, CallerApply, DispatcherApply, JoinerApply, TaskApply, DestructorApply;
    match e
    case Caller(c) => CallerInv(s, c);
    case Dispatcher(d) => DispatcherInv(s, d);
    case Joiner(j) => JoinerInv(s, j);
    case Task(t) => TaskInv(s, t);
    case Destructor(x) => DestructorInv(s, x);
  }
}
