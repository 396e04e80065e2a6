/** The bounded blocking queue: any number of producers and consumers, one mutex, two
    condition variables with notify_one, timed waits and spurious wake-ups.

    A thread outside the sets below is not inside a queue operation.  One step is one
    stretch of a thread between taking and giving up the mutex, or one notification that
    is made after giving it up. */
module BlockingQueue {
  import opened Basics

  type Tid = nat

  datatype State<T> = State(
    items: seq<T>,                  // queue_
    max: nat,                       // max_length_, 0 for no limit
    sleepingConsumers: set<Tid>,    // blocked on queue_not_empty_
    wokenConsumers: set<Tid>,       // out of that wait, about to test again
    timedOut: set<Tid>,             // those of them whose time is up
    owing: set<Tid>,                // producers that have pushed and still owe their notify_one
    sleepingProducers: set<Tid>,    // blocked on queue_not_full_
    wokenProducers: set<Tid>,       // out of that wait, about to test again
    element: map<Tid, T>,           // what each of those producers wants to push
    pushed: seq<T>,                 // history: all elements ever pushed
    popped: seq<T>)                 // history: all elements ever popped

  predicate Init<T>(s: State<T>) {
    && s.items == [] && s.pushed == [] && s.popped == []
    && s.sleepingConsumers == {} && s.wokenConsumers == {} && s.timedOut == {} && s.owing == {}
    && s.sleepingProducers == {} && s.wokenProducers == {}
  }

  function Busy<T>(s: State<T>): set<Tid> {
    s.sleepingConsumers + s.wokenConsumers + s.owing + s.sleepingProducers + s.wokenProducers
  }

  predicate Full<T>(s: State<T>) { s.max != 0 && |s.items| >= s.max }

  /** `chosen` is the sleeper a notify_one picks; it is ignored when nobody sleeps. */
  datatype Event<T> =
    | Push(t: Tid, x: T)
    | PushAgain(t: Tid)
    | NotifyNotEmpty(t: Tid, chosen: Tid)
    | Pop(t: Tid, chosen: Tid)
    | PopAgain(t: Tid, chosen: Tid)
    | WakeConsumer(t: Tid, timedOut: bool)
    | WakeProducer(t: Tid)

  predicate Enabled<T>(s: State<T>, e: Event<T>) {
    match e
    case Push(t, _) => t !in Busy(s)
    case PushAgain(t) => t in s.wokenProducers && t in s.element
    case NotifyNotEmpty(t, c) => t in s.owing && (s.sleepingConsumers != {} ==> c in s.sleepingConsumers)
    case Pop(t, c) => t !in Busy(s) && (s.sleepingProducers != {} ==> c in s.sleepingProducers)
    case PopAgain(t, c) => t in s.wokenConsumers && (s.sleepingProducers != {} ==> c in s.sleepingProducers)
    case WakeConsumer(t, _) => t in s.sleepingConsumers
    case WakeProducer(t) => t in s.sleepingProducers
  }

  function Enqueue<T>(s: State<T>, t: Tid, x: T): State<T> {
    s.(items := s.items + [x], owing := s.owing + {t}, pushed := s.pushed + [x])
  }

  /** Popping notifies one sleeping producer while the mutex is still held. */
  function Dequeue<T>(s: State<T>, chosen: Tid): State<T>
    requires s.items != []
  {
    var t := s.(items := s.items[1..], popped := s.popped + [s.items[0]]);
    if chosen in t.sleepingProducers then
      t.(sleepingProducers := t.sleepingProducers - {chosen}, wokenProducers := t.wokenProducers + {chosen})
    else t
  }

  function Apply<T>(s: State<T>, e: Event<T>): State<T>
    requires Enabled(s, e)
  {
    match e
    case Push(t, x) =>
      if Full(s) then s.(sleepingProducers := s.sleepingProducers + {t}, element := s.element[t := x])
      else Enqueue(s, t, x)
    case PushAgain(t) =>
      var r := s.(wokenProducers := s.wokenProducers - {t});
      if |s.items| < s.max then Enqueue(r, t, s.element[t])
      else r.(sleepingProducers := r.sleepingProducers + {t})
    case NotifyNotEmpty(t, c) =>
      var r := s.(owing := s.owing - {t});
      if c in r.sleepingConsumers
      then r.(sleepingConsumers := r.sleepingConsumers - {c}, wokenConsumers := r.wokenConsumers + {c})
      else r
    case Pop(t, c) =>
      if s.items == [] then s.(sleepingConsumers := s.sleepingConsumers + {t}) else Dequeue(s, c)
    case PopAgain(t, c) =>
      var r := s.(wokenConsumers := s.wokenConsumers - {t}, timedOut := s.timedOut - {t});
      if s.items != [] then Dequeue(r, c)
      else if t in s.timedOut then r   // PopTimed returns false
      else r.(sleepingConsumers := r.sleepingConsumers + {t})
    case WakeConsumer(t, timedOut) =>
      s.(sleepingConsumers := s.sleepingConsumers - {t}, wokenConsumers := s.wokenConsumers + {t},
         timedOut := if timedOut then s.timedOut + {t} else s.timedOut)
    case WakeProducer(t) =>
      s.(sleepingProducers := s.sleepingProducers - {t}, wokenProducers := s.wokenProducers + {t})
  }

  predicate IsRun<T(!new,==)>(states: seq<State<T>>, events: seq<Event<T>>) {
    && |states| == |events| + 1 && Init(states[0])
    && forall i :: 0 <= i < |events| ==> Enabled(states[i], events[i]) && states[i + 1] == Apply(states[i], events[i])
  }

  // ---------- the wake-up invariant ----------

  ghost predicate Disjoint<T>(s: State<T>) {
    && (forall t :: t in s.sleepingConsumers ==> t !in s.wokenConsumers)
    && (forall t :: t in s.sleepingProducers ==> t !in s.wokenProducers && t !in s.owing && t in s.element)
    && (forall t :: t in s.wokenProducers ==> t !in s.owing && t in s.element)
  }

  /** While a consumer sleeps, every item is covered by a wake-up: one already delivered to a
      consumer that has not tested again yet, or one that a producer still owes. */
  ghost predicate ItemsCovered<T>(s: State<T>) {
    s.sleepingConsumers != {} ==> |s.items| <= |s.wokenConsumers| + |s.owing|
  }

  /** While a producer sleeps, every free slot is covered by a delivered wake-up. */
  ghost predicate SlotsCovered<T>(s: State<T>) {
    && (s.sleepingProducers != {} || s.wokenProducers != {} ==> s.max != 0)
    && (s.sleepingProducers != {} ==> s.max - |s.items| <= |s.wokenProducers|)
  }

  ghost predicate Contents<T>(s: State<T>) {
    && s.popped + s.items == s.pushed
    && (s.max != 0 ==> |s.items| <= s.max)
  }

  ghost predicate Inv<T>(s: State<T>) {
    Disjoint(s) && ItemsCovered(s) && SlotsCovered(s) && Contents(s)
  }

  lemma DequeueInv<T(!new)>(s: State<T>, chosen: Tid)
    requires Disjoint(s) && SlotsCovered(s) && Contents(s) && s.items != []
    requires s.sleepingProducers != {} ==> chosen in s.sleepingProducers
    ensures var t := Dequeue(s, chosen); Disjoint(t) && SlotsCovered(t) && Contents(t)
  {
    assert s.popped + s.items == (s.popped + [s.items[0]]) + s.items[1..];
  }

  lemma PushInv<T(!new)>(s: State<T>, e: Event<T>)
    requires Inv(s) && Enabled(s, e) && e.Push?
    ensures Inv(Apply(s, e))
  {
    assert s.popped + (s.items + [e.x]) == s.pushed + [e.x];
  }

  lemma PushAgainInv<T(!new)>(s: State<T>, e: Event<T>)
    requires Inv(s) && Enabled(s, e) && e.PushAgain?
    ensures Inv(Apply(s, e))
  {
    var x := s.element[e.t];
    assert s.popped + (s.items + [x]) == s.pushed + [x];
  }

  lemma NotifyInv<T(!new)>(s: State<T>, e: Event<T>)
    requires Inv(s) && Enabled(s, e) && e.NotifyNotEmpty?
    ensures Inv(Apply(s, e))
  {
  }

  lemma PopInv<T(!new)>(s: State<T>, e: Event<T>)
    requires Inv(s) && Enabled(s, e) && e.Pop?
    ensures Inv(Apply(s, e))
  {
    if s.items != [] { DequeueInv(s, e.chosen); }
  }

  lemma PopAgainInv<T(!new)>(s: State<T>, e: Event<T>)
    requires Inv(s) && Enabled(s, e) && e.PopAgain?
    ensures Inv(Apply(s, e))
  {
    if s.items != [] {
      DequeueInv(s.(wokenConsumers := s.wokenConsumers - {e.t}, timedOut := s.timedOut - {e.t}), e.chosen);
    }
  }

  lemma WakeInv<T(!new)>(s: State<T>, e: Event<T>)
    requires Inv(s) && Enabled(s, e) && (e.WakeConsumer? || e.WakeProducer?)
    ensures Inv(Apply(s, e))
  {
  }

  lemma StepInv<T(!new)>(s: State<T>, e: Event<T>)
    requires Inv(s) && Enabled(s, e)
    ensures Inv(Apply(s, e))
  {
    hide Inv, Apply;
    match e
    case Push(_, _) => PushInv(s, e);
    case PushAgain(_) => PushAgainInv(s, e);
    case NotifyNotEmpty(_, _) => NotifyInv(s, e);
    case Pop(_, _) => PopInv(s, e);
    case PopAgain(_, _) => PopAgainInv(s, e);
    case WakeConsumer(_, _) => WakeInv(s, e);
    case WakeProducer(_) => WakeInv(s, e);
  }

  lemma {:induction false} RunInv<T(!new)>(states: seq<State<T>>, events: seq<Event<T>>, i: nat)
    requires IsRun(states, events) && i < |states|
    ensures Inv(states[i])
  {
    hide Apply, Enabled;
    if i > 0 {
      RunInv(states, events, i - 1);
      StepInv(states[i - 1], events[i - 1]);
    }
  }

  // ---------- theorems ----------

  /** No wake-up is lost, whatever the schedule and the timeouts: wake-ups owed or delivered
      but not acted on number at least min(items, sleeping consumers), and on the other side
      at least min(free slots, sleeping producers). */
  lemma NoLostWakeUps<T(!new)>(states: seq<State<T>>, events: seq<Event<T>>, i: nat)
    requires IsRun(states, events) && i < |states|
    ensures var s := states[i];
      && Min(|s.items|, |s.sleepingConsumers|) <= |s.wokenConsumers| + |s.owing|
      && (s.max != 0 ==> Min(s.max - |s.items|, |s.sleepingProducers|) <= |s.wokenProducers|)
      && (s.max == 0 ==> s.sleepingProducers == {})
  {
    hide Enabled, Apply;
    RunInv(states, events, i);
  }

  /** Nobody is left behind: when no wake-up is under way, consumers sleep only on an empty
      queue and producers only on a full one. */
  lemma QuietMeansRightlyAsleep<T(!new)>(states: seq<State<T>>, events: seq<Event<T>>, i: nat)
    requires IsRun(states, events) && i < |states|
    requires states[i].owing == {} && states[i].wokenConsumers == {} && states[i].wokenProducers == {}
    ensures var s := states[i];
      && (s.sleepingConsumers != {} ==> s.items == [])
      && (s.sleepingProducers != {} ==> s.max != 0 && |s.items| == s.max)
  {
    hide Enabled, Apply;
    RunInv(states, events, i);
  }

  /** First in, first out, nothing lost or doubled, and never longer than a nonzero maximum. */
  lemma FifoWithinBound<T(!new)>(states: seq<State<T>>, events: seq<Event<T>>, i: nat)
    requires IsRun(states, events) && i < |states|
    ensures var s := states[i];
      && s.popped + s.items == s.pushed
      && s.popped <= s.pushed
      && (s.max != 0 ==> |s.items| <= s.max)
  {
    hide Enabled, Apply;
    RunInv(states, events, i);
  }

  /** What Empty tells its caller: everything that was ever pushed has been popped, and a Pop
      made now would sleep. */
  lemma EmptyMeansAllPopped<T(!new)>(states: seq<State<T>>, events: seq<Event<T>>, i: nat, t: Tid, chosen: Tid)
    requires IsRun(states, events) && i < |states|
    ensures var s := states[i];
      && (s.items == [] <==> s.popped == s.pushed)
      && (Enabled(s, Pop(t, chosen)) ==> (s.items == [] <==> t in Apply(s, Pop(t, chosen)).sleepingConsumers))
  {
    RunInv(states, events, i);
    assert |states[i].popped + states[i].items| == |states[i].pushed|;
  }

  // ---------- the members of the class ----------

  /** Queue's own data and the stretches of Push and PopTimed that run under the mutex. */
  class Queue<T(!new)> {
    const maxLength: nat
    var queue: seq<T>

    constructor (maxLength: nat)
      ensures this.maxLength == maxLength && queue == []
    {
      this.maxLength := maxLength;
      queue := [];
    }

    /** Push under the mutex: true if the caller has to wait instead. */
    method PushLocked(element: T) returns (mustWait: bool)
      modifies this
      ensures mustWait <==> maxLength != 0 && old(|queue|) >= maxLength
      ensures queue == if mustWait then old(queue) else old(queue) + [element]
      ensures forall s: State<T>, t: Tid |
        Enabled(s, Push(t, element)) && s.items == old(queue) && s.max == maxLength ::
        var r := Apply(s, Push(t, element));
        r.items == queue && (mustWait <==> t in r.sleepingProducers) && (!mustWait <==> t in r.owing)
    {
      if maxLength != 0 && |queue| >= maxLength {
        return true;
      }
      queue := queue + [element];
      return false;
    }

    /** PopTimed under the mutex: nothing if the caller has to wait instead. */
    method PopLocked() returns (element: Option<T>)
      modifies this
      ensures element.None? <==> old(queue) == []
      ensures old(queue) == (if element.Some? then [element.value] else []) + queue
      ensures forall s: State<T>, t: Tid, c: Tid | Enabled(s, Pop(t, c)) && s.items == old(queue) ::
        var r := Apply(s, Pop(t, c));
        r.items == queue && (element.None? <==> t in r.sleepingConsumers)
    {
      if queue == [] {
        return None;
      }
      element := Some(queue[0]);
      queue := queue[1..];
    }

    /** True exactly if a Pop made now would sleep. */
    method Empty() returns (empty: bool)
      ensures empty <==> queue == []
      ensures forall s: State<T>, t: Tid, c: Tid | Enabled(s, Pop(t, c)) && s.items == queue ::
        empty <==> t in Apply(s, Pop(t, c)).sleepingConsumers
    {
      empty := queue == [];
    }
  }
}
