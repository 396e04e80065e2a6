/** What the queue's steps have to do with the calls of a run: every Push pushes its own
    argument, once, and a Pop gives up exactly when its time is up. */
module QueueHistory {
  import opened Basics
  import opened BlockingQueue

  lemma OneMoreEvent<T>(events: seq<Event<T>>, i: nat)
    requires i < |events|
    ensures events[..i + 1][..|events[..i + 1]| - 1] == events[..i] && events[..i + 1][i] == events[i]
  {
  }

  // ---------- pushing ----------

  /** The argument of thread `t`'s latest call of Push. */
  function Argument<T>(events: seq<Event<T>>, t: Tid): Option<T> {
    if events == [] then None
    else match events[|events| - 1]
      case Push(u, x) => if u == t then Some(x) else Argument(events[..|events| - 1], t)
      case _ => Argument(events[..|events| - 1], t)
  }

  /** The thread waits in Push. */
  predicate InPush<T>(s: State<T>, t: Tid) { t in s.sleepingProducers || t in s.wokenProducers }

  ghost predicate ArgumentKept<T>(s: State<T>, argument: Option<T>, t: Tid) {
    InPush(s, t) ==> t in s.element && argument == Some(s.element[t])
  }

  lemma KeepStep<T(!new)>(s: State<T>, e: Event<T>, argument: Option<T>, t: Tid)
    requires Inv(s) && Enabled(s, e) && ArgumentKept(s, argument, t)
    ensures ArgumentKept(Apply(s, e), if e.Push? && e.t == t then Some(e.x) else argument, t)
  {
  }

  lemma {:induction false} ArgumentsKept<T(!new)>(states: seq<State<T>>, events: seq<Event<T>>, i: nat, t: Tid)
    requires IsRun(states, events) && i < |states|
    ensures ArgumentKept(states[i], Argument(events[..i], t), t)
  {
    hide Apply, Enabled, Inv, ArgumentKept;
    if i == 0 {
      NobodyWaits(states[0], Argument(events[..0], t), t);
    } else {
      ArgumentsKept(states, events, i - 1, t);
      RunInv(states, events, i - 1);
      OneMoreEvent(events, i - 1);
      KeepStep(states[i - 1], events[i - 1], Argument(events[..i - 1], t), t);
    }
  }

  lemma NobodyWaits<T(!new)>(s: State<T>, argument: Option<T>, t: Tid)
    requires Init(s)
    ensures ArgumentKept(s, argument, t)
  {
  }

  /** Which step pushes, and what. */
  lemma PushStep<T(!new)>(s: State<T>, e: Event<T>)
    requires Inv(s) && Enabled(s, e)
    ensures var t := Apply(s, e);
      if e.Push? && !InPush(t, e.t) then t.pushed == s.pushed + [e.x]
      else if e.PushAgain? && !InPush(t, e.t) then e.t in s.element && t.pushed == s.pushed + [s.element[e.t]]
      else t.pushed == s.pushed
  {
  }

  /** Whenever something is pushed, it is the argument of the latest Push of the thread that
      pushes it. */
  lemma PushesItsArgument<T(!new)>(states: seq<State<T>>, events: seq<Event<T>>, i: nat)
    requires IsRun(states, events) && i < |events| && states[i + 1].pushed != states[i].pushed
    ensures events[i].Push? || events[i].PushAgain?
    ensures Argument(events[..i + 1], events[i].t).Some?
    ensures states[i + 1].pushed == states[i].pushed + [Argument(events[..i + 1], events[i].t).value]
  {
    hide Apply, Enabled, Inv;
    RunInv(states, events, i);
    PushStep(states[i], events[i]);
    OneMoreEvent(events, i);
    var t := events[i].t;
    ArgumentsKept(states, events, i, t);
    if events[i].PushAgain? { WasWoken(states[i], events[i]); }
  }

  lemma WasWoken<T(!new)>(s: State<T>, e: Event<T>)
    requires Enabled(s, e) && e.PushAgain?
    ensures InPush(s, e.t)
  {
  }

  /** How often thread `t` has called Push, and how often it has pushed. */
  function PushCalls<T>(events: seq<Event<T>>, t: Tid): nat {
    if events == [] then 0 else
      var last := events[|events| - 1];
      PushCalls(events[..|events| - 1], t) + if last.Push? && last.t == t then 1 else 0
  }

  function PushesDone<T(==)>(states: seq<State<T>>, events: seq<Event<T>>, t: Tid): nat
    requires |states| > |events|
  {
    if events == [] then 0
    else
      var i := |events| - 1;
      PushesDone(states, events[..i], t)
      + if events[i].t == t && |states[i + 1].pushed| > |states[i].pushed| then 1 else 0
  }

  lemma PusherWaits<T(!new)>(s: State<T>, e: Event<T>, t: Tid)
    requires Inv(s) && Enabled(s, e) && (e.Push? || e.PushAgain?)
    ensures e.t == t ==> (InPush(s, t) <==> e.PushAgain?)
    ensures e.t != t ==> (InPush(Apply(s, e), t) <==> InPush(s, t))
  {
  }

  lemma PopperLeavesPushes<T(!new)>(s: State<T>, e: Event<T>, t: Tid)
    requires Inv(s) && Enabled(s, e) && (e.Pop? || e.PopAgain?)
    ensures InPush(Apply(s, e), t) <==> InPush(s, t)
  {
  }

  lemma WakersLeavePushes<T(!new)>(s: State<T>, e: Event<T>, t: Tid)
    requires Inv(s) && Enabled(s, e) && (e.NotifyNotEmpty? || e.WakeConsumer? || e.WakeProducer?)
    ensures InPush(Apply(s, e), t) <==> InPush(s, t)
  {
  }

  lemma WaitStep<T(!new)>(s: State<T>, e: Event<T>, t: Tid)
    requires Inv(s) && Enabled(s, e)
    ensures
      if e.Push? && e.t == t then !InPush(s, t)
      else if e.PushAgain? && e.t == t then InPush(s, t)
      else InPush(Apply(s, e), t) == InPush(s, t)
  {
    hide Inv, Enabled, Apply, InPush;
    if e.Push? || e.PushAgain? {
      PusherWaits(s, e, t);
    } else if e.Pop? || e.PopAgain? {
      PopperLeavesPushes(s, e, t);
    } else {
      WakersLeavePushes(s, e, t);
    }
  }

  /** Every call of Push pushes once: a thread has pushed as often as it has called, but for the
      call in which it still waits. */
  lemma {:induction false} OnePushPerCall<T(!new)>(states: seq<State<T>>, events: seq<Event<T>>, i: nat, t: Tid)
    requires IsRun(states, events) && i < |states|
    ensures PushCalls(events[..i], t) == PushesDone(states, events[..i], t) + if InPush(states[i], t) then 1 else 0
  {
    hide Apply, Enabled, Inv;
    if i > 0 {
      OnePushPerCall(states, events, i - 1, t);
      RunInv(states, events, i - 1);
      OneMoreEvent(events, i - 1);
      PushStep(states[i - 1], events[i - 1]);
      WaitStep(states[i - 1], events[i - 1], t);
    }
  }

  // ---------- popping ----------

  predicate InPop<T>(s: State<T>, t: Tid) { t in s.sleepingConsumers || t in s.wokenConsumers }

  /** The time of the Pop in which `t` waits is up. */
  function TimeIsUp<T>(events: seq<Event<T>>, t: Tid): bool {
    if events == [] then false
    else match events[|events| - 1]
      case WakeConsumer(u, b) => if u == t then b else TimeIsUp(events[..|events| - 1], t)
      case Pop(u, _) => u != t && TimeIsUp(events[..|events| - 1], t)
      case PopAgain(u, _) => u != t && TimeIsUp(events[..|events| - 1], t)
      case _ => TimeIsUp(events[..|events| - 1], t)
  }

  ghost predicate TimesKept<T>(s: State<T>, up: bool, t: Tid) {
    && (t in s.timedOut <==> up)
    && (t in s.timedOut ==> t in s.wokenConsumers)
  }

  lemma TimeStep<T(!new)>(s: State<T>, e: Event<T>, up: bool, t: Tid)
    requires Inv(s) && Enabled(s, e) && TimesKept(s, up, t)
    ensures var up' := match e
        case WakeConsumer(u, b) => if u == t then b else up
        case Pop(u, _) => u != t && up
        case PopAgain(u, _) => u != t && up
        case _ => up;
      TimesKept(Apply(s, e), up', t)
  {
  }

  lemma {:induction false} TimesAreKept<T(!new)>(states: seq<State<T>>, events: seq<Event<T>>, i: nat, t: Tid)
    requires IsRun(states, events) && i < |states|
    ensures TimesKept(states[i], TimeIsUp(events[..i], t), t)
  {
    hide Apply, Enabled, Inv;
    if i > 0 {
      TimesAreKept(states, events, i - 1, t);
      RunInv(states, events, i - 1);
      OneMoreEvent(events, i - 1);
      TimeStep(states[i - 1], events[i - 1], TimeIsUp(events[..i - 1], t), t);
    }
  }

  lemma PopStep<T(!new)>(s: State<T>, e: Event<T>)
    requires Inv(s) && Enabled(s, e) && (e.Pop? || e.PopAgain?)
    ensures var r := Apply(s, e);
      if s.items != [] then r.popped == s.popped + [s.items[0]] && r.items == s.items[1..] && !InPop(r, e.t)
      else
        && r.popped == s.popped && r.items == s.items
        && (InPop(r, e.t) <==> e.t in r.sleepingConsumers)
        && (InPop(r, e.t) <==> e.Pop? || e.t !in s.timedOut)
  {
  }

  /** A Pop that looks at the queue takes the first element if there is one; on an empty queue it
      goes to sleep, unless it has been waiting and its time is up: then it returns. */
  lemma PopOutcome<T(!new)>(states: seq<State<T>>, events: seq<Event<T>>, i: nat)
    requires IsRun(states, events) && i < |events| && (events[i].Pop? || events[i].PopAgain?)
    ensures var s, r, t := states[i], states[i + 1], events[i].t;
      if s.items != [] then r.popped == s.popped + [s.items[0]] && !InPop(r, t)
      else r.popped == s.popped && (InPop(r, t) <==> !(events[i].PopAgain? && TimeIsUp(events[..i], t)))
  {
    hide Apply, Enabled, Inv;
    RunInv(states, events, i);
    TimesAreKept(states, events, i, events[i].t);
    PopStep(states[i], events[i]);
  }
}
