/** What the pool's records have to do with the events of a run: which status a task ends with,
    in which order tasks are started and joined, and what is counted. */
module PoolHistory {
  import opened Basics
  import opened PoolSteps
  import opened PoolInvariant
  import opened PoolTheorems

  // ---------- statuses ----------

  /** What task `h` returned last, from SetUp or RunAtomic. */
  function LastReturned(events: seq<Event>, h: Handle): Option<Status> {
    if events == [] then None
    else match events[|events| - 1]
      case Task(TaskSetUp(k, st)) => if k == h then Some(st) else LastReturned(events[..|events| - 1], h)
      case Task(TaskIterate(k, st)) => if k == h then Some(st) else LastReturned(events[..|events| - 1], h)
      case _ => LastReturned(events[..|events| - 1], h)
  }

  /** The `j`th event is the report with which the thread of task `h` left its loop; what is
      recorded is what the task had returned, or CANCELLED if it was cancelled before that. */
  ghost predicate FinalReport(states: seq<State>, events: seq<Event>, j: nat, h: Handle, recorded: Status)
    requires |states| == |events| + 1
  {
    && j < |events| && events[j] == Task(TaskReport(h)) && LastReturned(events[..j], h).Some?
    && recorded == (if h in states[j].sh.cancelled then Cancelled else LastReturned(events[..j], h).value)
  }

  /** Within `i` events there is such a report, and the task has returned nothing since. */
  ghost predicate Recorded(states: seq<State>, events: seq<Event>, i: nat, h: Handle, recorded: Status)
    requires |states| == |events| + 1 && i < |states|
  {
    exists j: nat :: j < i && FinalReport(states, events, j, h, recorded)
                  && LastReturned(events[..i], h) == LastReturned(events[..j], h)
  }

  /** What is known of task `h` after `i` events. */
  ghost predicate Told(states: seq<State>, events: seq<Event>, i: nat, h: Handle)
    requires |states| == |events| + 1 && i < |states|
  {
    var s := states[i];
    h in s.pc ==>
      && (s.pc[h].Reporting? ==> LastReturned(events[..i], h) == Some(s.pc[h].st))
      && (PastLoop(s.pc[h]) ==>
            h in s.sh.status && Recorded(states, events, i, h, s.sh.status[h]))
  }

  lemma OneMoreEvent(events: seq<Event>, i: nat)
    requires i < |events|
    ensures events[..i + 1][..|events[..i + 1]| - 1] == events[..i] && events[..i + 1][i] == events[i]
  {
  }

  /** The thread of task `h` has not come to a report or past its loop by this step. */
  predicate KeepsReport(s: State, t: State, h: Handle) {
    h in t.pc ==>
      && (t.pc[h].Reporting? ==> h in s.pc && s.pc[h] == t.pc[h])
      && (PastLoop(t.pc[h]) ==> h in s.pc && PastLoop(s.pc[h]))
  }

  lemma DispatcherKeeps(s: State, d: DispatcherStep, h: Handle)
    requires DispatcherEnabled(s, d)
    ensures KeepsReport(s, DispatcherApply(s, d), h)
  {
  }

  lemma TaskKeeps(s: State, e: TaskStep, h: Handle)
    requires TaskEnabled(s, e) && e != TaskReport(h) && !(e.h == h && (e.TaskSetUp? || e.TaskIterate?))
    ensures KeepsReport(s, TaskApply(s, e), h)
  {
  }

  lemma OthersKeep(s: State, e: Event, h: Handle)
    requires Enabled(s, e) && !e.Dispatcher? && !e.Task?
    ensures KeepsReport(s, Apply(s, e), h)
  {
    assert Apply(s, e).pc == s.pc;
  }

  /** A step that neither is the thread's report nor returns from the task. */
  lemma QuietStep(s: State, e: Event, h: Handle)
    requires Enabled(s, e)
    requires e != Task(TaskReport(h)) && !(e.Task? && e.t.h == h && (e.t.TaskSetUp? || e.t.TaskIterate?))
    ensures KeepsReport(s, Apply(s, e), h)
  {
    hide KeepsReport, CallerApply, DispatcherApply, JoinerApply, TaskApply, DestructorApply;
    match e
    case Dispatcher(d) => DispatcherKeeps(s, d, h);
    case Task(t) => TaskKeeps(s, t, h);
    case _ => OthersKeep(s, e, h);
  }

  lemma ReturnStep(s: State, e: Event, h: Handle, st: Status)
    requires Enabled(s, e) && (e == Task(TaskSetUp(h, st)) || e == Task(TaskIterate(h, st)))
    ensures Apply(s, e).pc[h] == Reporting(st)
  {
  }

  /** What one report records, and that it touches no other task's status. */
  lemma ReportRecords(s: State, h: Handle)
    requires TaskEnabled(s, TaskReport(h))
    ensures var t := TaskApply(s, TaskReport(h));
      && t.sh.status.Keys == s.sh.status.Keys + {h}
      && (forall k :: k in s.sh.status && k != h ==> t.sh.status[k] == s.sh.status[k])
      && t.sh.status[h] == (if h in s.sh.cancelled then Cancelled else s.pc[h].st)
      && t.pc[h] == (if t.sh.status[h].Running? then Ready else Cleaning)
  {
  }

  lemma {:induction false} AlwaysTold(states: seq<State>, events: seq<Event>, i: nat, h: Handle)
    requires IsRun(states, events) && i < |states|
    ensures Told(states, events, i, h)
  {
    hide Apply, Enabled, Inv;
    if i == 0 {
      return;
    }
    AlwaysTold(states, events, i - 1, h);
    RunInv(states, events, i - 1);
    var s, e, t := states[i - 1], events[i - 1], states[i];
    OneMoreEvent(events, i - 1);
    if h !in t.pc {
      return;
    }
    ToldStep(states, events, i, h);
  }

  lemma ToldStep(states: seq<State>, events: seq<Event>, i: nat, h: Handle)
    requires IsRun(states, events) && 0 < i < |states| && Inv(states[i - 1]) && h in states[i].pc
    requires Told(states, events, i - 1, h)
    ensures Told(states, events, i, h)
  {
    hide Apply, Enabled, Inv, Recorded;
    var s, e, t := states[i - 1], events[i - 1], states[i];
    OneMoreEvent(events, i - 1);
    StepLife(s, e, h);
    if e == Task(TaskReport(h)) {
      ReportTold(states, events, i, h);
    } else if e.Task? && e.t.h == h && (e.t.TaskSetUp? || e.t.TaskIterate?) {
      ReturnStep(s, e, h, e.t.st);
    } else {
      QuietStep(s, e, h);
      if PastLoop(t.pc[h]) {
        TerminalPastLoop(s, h);
        RecordedStays(states, events, i, h, s.sh.status[h]);
      }
    }
  }

  lemma RecordedStays(states: seq<State>, events: seq<Event>, i: nat, h: Handle, recorded: Status)
    requires |states| == |events| + 1 && 0 < i < |states| && Recorded(states, events, i - 1, h, recorded)
    requires LastReturned(events[..i], h) == LastReturned(events[..i - 1], h)
    ensures Recorded(states, events, i, h, recorded)
  {
    hide FinalReport;
    var j: nat :| j < i - 1 && FinalReport(states, events, j, h, recorded)
               && LastReturned(events[..i - 1], h) == LastReturned(events[..j], h);
    assert FinalReport(states, events, j, h, recorded);
  }

  lemma TerminalPastLoop(s: State, h: Handle)
    requires Inv(s) && h in s.pc && PastLoop(s.pc[h])
    ensures h in s.sh.status && s.sh.status[h] != Running
  {
  }

  lemma ReportTold(states: seq<State>, events: seq<Event>, i: nat, h: Handle)
    requires IsRun(states, events) && 0 < i < |states| && events[i - 1] == Task(TaskReport(h))
    requires Told(states, events, i - 1, h)
    ensures Told(states, events, i, h)
  {
    var s, t := states[i - 1], states[i];
    OneMoreEvent(events, i - 1);
    ReportRecords(s, h);
    hide TaskApply;
    assert LastReturned(events[..i], h) == LastReturned(events[..i - 1], h);
    assert FinalReport(states, events, i - 1, h, t.sh.status[h]);
  }

  /** A task that is not RUNNING any more has the status its SetUp or RunAtomic returned last, or
      CANCELLED if it was cancelled before its thread reported that. */
  lemma FinalStatus(states: seq<State>, events: seq<Event>, i: nat, h: Handle)
    requires IsRun(states, events) && i < |states|
    requires h in states[i].sh.status && states[i].sh.status[h] != Running
    ensures Recorded(states, events, i, h, states[i].sh.status[h])
  {
    hide Apply, Enabled, Inv, Recorded;
    RunInv(states, events, i);
    AlwaysTold(states, events, i, h);
    LoopIsOver(states[i], h);
  }

  lemma LoopIsOver(s: State, h: Handle)
    requires Inv(s) && h in s.sh.status && s.sh.status[h] != Running
    ensures h in s.pc && PastLoop(s.pc[h])
  {
  }

  /** So one that was never cancelled has exactly the status its task returned last. */
  lemma UncancelledStatus(states: seq<State>, events: seq<Event>, i: nat, h: Handle)
    requires IsRun(states, events) && i < |states|
    requires h in states[i].sh.status && states[i].sh.status[h] != Running
    requires forall j :: 0 <= j < i ==> h !in states[j].sh.cancelled
    ensures LastReturned(events[..i], h) == Some(states[i].sh.status[h])
  {
    hide Apply, Enabled;
    FinalStatus(states, events, i, h);
  }

  // ---------- the order of tasks ----------

  /** What a step pushes to the dispatch queue, and to the queue of ended threads. */
  function Pushes(e: Event): seq<Handle> {
    match e
    case Caller(AddPush(h)) => [h]
    case Destructor(ClosePushDispatch) => [0]
    case _ => []
  }

  function PushesEnded(e: Event): seq<Handle> {
    match e
    case Task(TaskPush(h)) => [h]
    case Destructor(ClosePushJoinable) => [0]
    case _ => []
  }

  function Pushed(events: seq<Event>): seq<Handle> {
    if events == [] then [] else Pushed(events[..|events| - 1]) + Pushes(events[|events| - 1])
  }

  function PushedEnded(events: seq<Event>): seq<Handle> {
    if events == [] then [] else PushedEnded(events[..|events| - 1]) + PushesEnded(events[|events| - 1])
  }

  /** What a step of the dispatcher deals with: it starts the thread of the handle in its hand,
      or drops it because the pool is closing. */
  function Deals(s: State, e: Event): seq<Handle> {
    if e == Dispatcher(DispatchLaunch) && s.dispatcher.Popped? then [s.dispatcher.h] else []
  }

  function Dealt(states: seq<State>, events: seq<Event>): seq<Handle>
    requires |states| >= |events|
  {
    if events == [] then []
    else Dealt(states, events[..|events| - 1]) + Deals(states[|events| - 1], events[|events| - 1])
  }

  /** The handles the joiner has in hand after its pops, in order. */
  function TakenEnded(states: seq<State>, events: seq<Event>): seq<Handle>
    requires |states| > |events|
  {
    if events == [] then []
    else
      var after := states[|events|].joiner;
      TakenEnded(states, events[..|events| - 1])
      + if events[|events| - 1] == Joiner(JoinerPop) && after.Got? then [after.h] else []
  }

  function InHand(d: DispatcherPc): seq<Handle> { if d.Popped? then [d.h] else [] }

  lemma DispatcherOrder(s: State, d: DispatcherStep)
    requires DispatcherEnabled(s, d)
    ensures var t := DispatcherApply(s, d);
      InHand(s.dispatcher) + s.dispatchQ == Deals(s, Dispatcher(d)) + InHand(t.dispatcher) + t.dispatchQ
  {
    if d.DispatchPop? {
      assert s.dispatchQ == [s.dispatchQ[0]] + s.dispatchQ[1..];
    }
  }

  lemma OthersOrder(s: State, e: Event)
    requires Enabled(s, e) && !e.Dispatcher?
    ensures var t := Apply(s, e); InHand(t.dispatcher) == InHand(s.dispatcher) && t.dispatchQ == s.dispatchQ + Pushes(e)
  {
    assert s.dispatchQ + [] == s.dispatchQ;
    match e
    case Caller(_) =>
    case Joiner(_) =>
    case Task(_) =>
    case Destructor(_) =>
  }

  lemma Regroup(pushed: seq<Handle>, dealt: seq<Handle>, hand: seq<Handle>, q: seq<Handle>,
                deals: seq<Handle>, hand': seq<Handle>, q': seq<Handle>)
    requires pushed == dealt + hand + q && hand + q == deals + hand' + q'
    ensures pushed == (dealt + deals) + hand' + q'
  {
    assert pushed == dealt + (hand + q);
  }

  /** Tasks are started in the order in which they were pushed: the handles dealt with, the one
      in the dispatcher's hand and those in the queue are all that were pushed, in order. */
  lemma {:induction false} StartedInOrder(states: seq<State>, events: seq<Event>, i: nat)
    requires IsRun(states, events) && i < |states|
    ensures Pushed(events[..i]) == Dealt(states, events[..i]) + InHand(states[i].dispatcher) + states[i].dispatchQ
  {
    hide Apply, Enabled, Deals, Pushes;
    if i > 0 {
      StartedInOrder(states, events, i - 1);
      OneMoreEvent(events, i - 1);
      var s, e, t := states[i - 1], events[i - 1], states[i];
      if e.Dispatcher? {
        NothingPushed(e);
        Unfold(s, e.d);
        DispatcherOrder(s, e.d);
        Regroup(Pushed(events[..i - 1]), Dealt(states, events[..i - 1]), InHand(s.dispatcher), s.dispatchQ,
                Deals(s, e), InHand(t.dispatcher), t.dispatchQ);
      } else {
        NothingDealt(s, e);
        OthersOrder(s, e);
      }
    }
  }

  lemma Unfold(s: State, d: DispatcherStep)
    requires Enabled(s, Dispatcher(d))
    ensures DispatcherEnabled(s, d) && Apply(s, Dispatcher(d)) == DispatcherApply(s, d)
  {
  }

  lemma NothingPushed(e: Event)
    requires e.Dispatcher?
    ensures Pushes(e) == []
  {
  }

  lemma NothingDealt(s: State, e: Event)
    requires !e.Dispatcher?
    ensures Deals(s, e) == []
  {
  }

  lemma EndedStep(s: State, e: Event)
    requires Enabled(s, e)
    ensures var t := Apply(s, e);
      if e == Joiner(JoinerPop) then t.joiner.Got? && s.joinableQ == [t.joiner.h] + t.joinableQ && PushesEnded(e) == []
      else t.joinableQ == s.joinableQ + PushesEnded(e)
  {
    assert s.joinableQ + [] == s.joinableQ;
    match e
    case Joiner(_) =>
    case Caller(_) =>
    case Dispatcher(_) =>
    case Task(_) =>
    case Destructor(_) =>
  }

  /** Ended threads are joined in the order in which they announced themselves. */
  lemma {:induction false} JoinedInOrder(states: seq<State>, events: seq<Event>, i: nat)
    requires IsRun(states, events) && i < |states|
    ensures PushedEnded(events[..i]) == TakenEnded(states, events[..i]) + states[i].joinableQ
  {
    hide Apply, Enabled, PushesEnded;
    if i > 0 {
      JoinedInOrder(states, events, i - 1);
      OneMoreEvent(events, i - 1);
      EndedStep(states[i - 1], events[i - 1]);
    }
  }

  // ---------- what is counted and erased ----------

  /** How many threads have come past the end of RunTask's last critical section. */
  function Counted(events: seq<Event>): nat {
    if events == [] then 0
    else Counted(events[..|events| - 1]) + match events[|events| - 1] case Task(TaskCount(_)) => 1 case _ => 0
  }

  lemma CountStep(s: State, e: Event)
    requires Enabled(s, e)
    ensures Apply(s, e).sh.completed ==
      match e case Task(TaskCount(_)) => (s.sh.completed + 1) % 0x1_0000_0000 case _ => s.sh.completed
  {
    match e
    case Joiner(_) =>
    case Caller(_) =>
    case Dispatcher(_) =>
    case Task(_) =>
    case Destructor(_) =>
  }

  /** num_completed_tasks_ is the number of finished tasks, modulo 2^32. */
  lemma {:induction false} CompletedCount(states: seq<State>, events: seq<Event>, i: nat)
    requires IsRun(states, events) && i < |states|
    ensures states[i].sh.completed == Counted(events[..i]) % 0x1_0000_0000
  {
    hide Apply, Enabled;
    if i > 0 {
      CompletedCount(states, events, i - 1);
      OneMoreEvent(events, i - 1);
      CountStep(states[i - 1], events[i - 1]);
    }
  }

  /** Finalizing a task takes its handle, the one last popped, out of the three tables that own
      it, frees its slot, and leaves every status as it is. */
  lemma FinalizedMeans(states: seq<State>, events: seq<Event>, i: nat)
    requires IsRun(states, events) && i < |events| && events[i] == Joiner(JoinerFinish)
    ensures var s, t := states[i], states[i + 1]; var h := s.joiner.h;
      && s.joiner == Joining(h) && s.pc[h].Exited? && h in s.sh.tasks && h in s.sh.threads
      && h !in t.sh.tasks && h !in t.sh.threads && h !in t.sh.cancelled
      && (forall k :: k != h ==>
            && (k in t.sh.tasks <==> k in s.sh.tasks) && (k in t.sh.threads <==> k in s.sh.threads)
            && (k in t.sh.cancelled <==> k in s.sh.cancelled))
      && t.sh.status == s.sh.status && t.sh.poolSize == s.sh.poolSize - 1
  {
    hide CallerApply, DispatcherApply, TaskApply, DestructorApply;
    JoinUnderMutex(states, events, i);
  }

  /** After a notify_all on task_done_, by an ending task thread or by the destructor, no caller of
      WaitForCompletion is asleep, and everybody who waited still waits for the same task. */
  lemma NotifyAllWakes(s: State, e: Event)
    requires Enabled(s, e) && (e == Destructor(CloseNotifyDone) || (e.Task? && e.t.TaskNotify?))
    ensures var t := Apply(s, e);
      && t.waiters.Keys == s.waiters.Keys
      && forall w :: w in t.waiters ==> t.waiters[w] == Rechecking(s.waiters[w].h)
  {
    hide CallerApply, DispatcherApply, JoinerApply;
  }
}
