/** Before closing: no task is ever stuck, whatever the others wait for. */
module PoolProgress {
  import opened PoolSteps
  import opened PoolInvariant
  import opened PoolTheorems

  /** A step by which the pool gets on with its tasks: one of the service threads or of a task
      thread, but no spurious wake-up; or the push that a caller of AddTask still owes. */
  predicate Advances(e: Event) {
    match e
    case Caller(c) => c.AddPush?
    case Dispatcher(d) => !d.DispatchSpurious?
    case Joiner(_) => true
    case Task(_) => true
    case Destructor(_) => false
  }

  ghost predicate CanAdvance(s: State) {
    exists e: Event :: Advances(e) && Enabled(s, e)
  }

  lemma By(s: State, e: Event)
    requires Advances(e) && Enabled(s, e)
    ensures CanAdvance(s)
  {
  }

  /** While the joiner joins under the mutex, the thread it joins or the joiner itself goes on. */
  lemma MutexComesFree(s: State)
    requires Inv(s) && !MutexFree(s)
    ensures CanAdvance(s)
  {
    var h := s.joiner.h;
    assert InJoinable(s.joinableQ, s.joiner, h);
    hide Inv, CanAdvance;
    if s.pc[h].Exited? {
      By(s, Joiner(JoinerFinish));
    } else {
      By(s, Task(TaskNotify(h)));
    }
  }

  lemma HasCalls(s: State, h: Handle)
    requires Inv(s) && h in s.pc
    ensures h in s.calls
  {
  }

  /** A thread that has not ended goes on, or waits for the mutex. */
  lemma ThreadAdvances(s: State, h: Handle)
    requires Inv(s) && h in s.pc && !s.pc[h].Exited?
    ensures CanAdvance(s)
  {
    hide Inv, CanAdvance;
    HasCalls(s, h);
    if !MutexFree(s) {
      MutexComesFree(s);
    } else {
      match s.pc[h]
      case SettingUp => By(s, Task(TaskSetUp(h, Running)));
      case Reporting(_) => By(s, Task(TaskReport(h)));
      case Ready => By(s, Task(TaskBegin(h)));
      case Iterating => By(s, Task(TaskIterate(h, Running)));
      case Cleaning => By(s, Task(TaskCleanUp(h)));
      case Counting => By(s, Task(TaskCount(h)));
      case Pushing => By(s, Task(TaskPush(h)));
      case Notifying => By(s, Task(TaskNotify(h)));
    }
  }

  lemma EndedIsJoinable(s: State, h: Handle)
    requires Inv(s) && !s.sh.closing && h in s.sh.threads && s.pc[h].Exited?
    ensures !s.joiner.JoinerExited? && (s.joiner.Idle? ==> s.joinableQ != [])
  {
    assert InJoinable(s.joinableQ, s.joiner, h);
  }

  /** A thread object is joined in the end, or its thread goes on. */
  lemma ThreadObjectAdvances(s: State, h: Handle)
    requires Inv(s) && !s.sh.closing && h in s.sh.threads && h in s.pc
    ensures CanAdvance(s)
  {
    hide Inv, CanAdvance;
    if !s.pc[h].Exited? {
      ThreadAdvances(s, h);
    } else {
      EndedIsJoinable(s, h);
      match s.joiner
      case Idle => By(s, Joiner(JoinerPop));
      case Got(_) => By(s, Joiner(JoinerLock));
      case Joining(_) => MutexComesFree(s);
      case OwesNotify => By(s, Joiner(JoinerNotify));
    }
  }

  /** A blocked dispatcher is owed a notification, or all slots are taken by threads. */
  lemma BlockedMeans(s: State)
    requires Inv(s) && !s.sh.closing && s.dispatcher.Blocked?
    ensures s.joiner.OwesNotify? || exists h :: h in s.sh.threads && h in s.pc
  {
    if !s.joiner.OwesNotify? {
      assert |s.sh.threads| > 0;
      var h :| h in s.sh.threads;
      assert h in s.pc;
    }
  }

  /** With a task in the dispatch queue or in hand the dispatcher goes on, or what it waits for
      does. */
  lemma DispatcherAdvances(s: State, h: Handle)
    requires Inv(s) && !s.sh.closing && InDispatch(s.dispatchQ, s.dispatcher, h) && !s.dispatcher.DispatcherExited?
    ensures CanAdvance(s)
  {
    hide Inv, CanAdvance;
    if !MutexFree(s) {
      MutexComesFree(s);
    } else {
      match s.dispatcher
      case AtTop => By(s, Dispatcher(DispatchCheck));
      case Woken => By(s, Dispatcher(DispatchRecheck));
      case Reserved => By(s, Dispatcher(DispatchPop));
      case Popped(_) => By(s, Dispatcher(DispatchLaunch));
      case Blocked =>
        BlockedMeans(s);
        if s.joiner.OwesNotify? {
          By(s, Joiner(JoinerNotify));
        } else {
          var k :| k in s.sh.threads && k in s.pc;
          ThreadObjectAdvances(s, k);
        }
    }
  }

  /** Where a task is that has been added and whose thread has not been joined. */
  lemma TaskIsSomewhere(s: State, h: Handle)
    requires Inv(s) && !s.sh.closing && h in s.added && s.joined[h] == 0
    ensures !s.destructor.Destroyed? && !s.dispatcher.DispatcherExited?
    ensures h in s.adding || InDispatch(s.dispatchQ, s.dispatcher, h) || (h in s.sh.threads && h in s.pc)
  {
  }

  lemma TaskAdvances(s: State, h: Handle)
    requires Inv(s) && !s.sh.closing && h in s.added && s.joined[h] == 0
    ensures CanAdvance(s)
  {
    hide Inv, CanAdvance;
    TaskIsSomewhere(s, h);
    if h in s.adding {
      By(s, Caller(AddPush(h)));
    } else if h in s.sh.threads && h in s.pc {
      ThreadObjectAdvances(s, h);
    } else {
      DispatcherAdvances(s, h);
    }
  }

  /** No deadlock: in every state of every run before closing, while a task has been added and
      its thread has not been joined, some thread of the pool can go on or the caller that adds
      it owes its push. */
  lemma NoTaskStuck(states: seq<State>, events: seq<Event>, i: nat, h: Handle)
    requires IsRun(states, events) && i < |states| && !states[i].sh.closing
    requires h in states[i].added && states[i].joined[h] == 0
    ensures exists e: Event :: Advances(e) && Enabled(states[i], e)
  {
    hide Inv, Enabled, Apply;
    RunInv(states, events, i);
    TaskAdvances(states[i], h);
  }
}
