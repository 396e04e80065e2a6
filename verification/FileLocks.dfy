/** The two-level file lock: reading a file takes its read lock, changing it takes the read
    lock and then the write lock; the locks live in two access managers, each a set of
    locked keys, a mutex and one condition variable shared by all files.

    One step is one stretch of a thread between taking and giving up a manager's mutex, one
    notification, or one file operation.  A key is a normalised absolute path. */
module FileLocks {
  type Key = string

  datatype Op = Op(key: Key, writes: bool)

  /** Where a thread stands in Get (which does not write) or in Put, Delete or MakeDir. */
  datatype Phase =
    | Idle
    | AtRead(op: Op)          // about to lock for reading
    | AsleepRead(op: Op)      // in the wait of LockFile on the read manager
    | WokenRead(op: Op)       // out of that wait, about to test again
    | AtWrite(op: Op)         // has the read lock, about to lock for writing
    | AsleepWrite(op: Op)
    | WokenWrite(op: Op)
    | Active(op: Op)          // in the file operation
    | AtUnlockWrite(op: Op)
    | OwesWrite(op: Op)       // write lock given up, notify_one still to be made
    | AtUnlockRead(op: Op)
    | OwesRead(op: Op)        // read lock given up, notify_one still to be made

  datatype State = State(phases: seq<Phase>, read: set<Key>, write: set<Key>)

  function Init(threads: nat): State {
    State(seq(threads, _ => Idle), {}, {})
  }

  /** `chosen` is the sleeper a notify_one picks; it is ignored when nobody sleeps. */
  datatype Event =
    | Call(t: nat, op: Op)
    | LockRead(t: nat)
    | LockWrite(t: nat)
    | Act(t: nat)
    | UnlockWrite(t: nat)
    | NotifyWrite(t: nat, chosen: nat)
    | UnlockRead(t: nat)
    | NotifyRead(t: nat, chosen: nat)
    | SpuriousWake(t: nat)

  predicate ReadSleeper(s: State, t: nat) { t < |s.phases| && s.phases[t].AsleepRead? }
  predicate WriteSleeper(s: State, t: nat) { t < |s.phases| && s.phases[t].AsleepWrite? }

  ghost predicate Enabled(s: State, e: Event) {
    e.t < |s.phases| &&
    var p := s.phases[e.t];
    match e
    case Call(_, _) => p.Idle?
    case LockRead(_) => p.AtRead? || p.WokenRead?
    case LockWrite(_) => p.AtWrite? || p.WokenWrite?
    case Act(_) => p.Active?
    case UnlockWrite(_) => p.AtUnlockWrite?
    case NotifyWrite(_, c) => p.OwesWrite? && ((exists u: nat :: WriteSleeper(s, u)) ==> WriteSleeper(s, c))
    case UnlockRead(_) => p.AtUnlockRead?
    case NotifyRead(_, c) => p.OwesRead? && ((exists u: nat :: ReadSleeper(s, u)) ==> ReadSleeper(s, c))
    case SpuriousWake(_) => p.AsleepRead? || p.AsleepWrite?
  }

  function Move(s: State, t: nat, p: Phase): State
    requires t < |s.phases|
  {
    s.(phases := s.phases[t := p])
  }

  function Woken(p: Phase): Phase
    requires p.AsleepRead? || p.AsleepWrite?
  {
    if p.AsleepRead? then WokenRead(p.op) else WokenWrite(p.op)
  }

  ghost function Apply(s: State, e: Event): State
    requires Enabled(s, e)
  {
    var p := s.phases[e.t];
    match e
    case Call(t, op) => Move(s, t, AtRead(op))
    case LockRead(t) =>
      if p.op.key in s.read then Move(s, t, AsleepRead(p.op))
      else Move(s, t, if p.op.writes then AtWrite(p.op) else Active(p.op)).(read := s.read + {p.op.key})
    case LockWrite(t) =>
      if p.op.key in s.write then Move(s, t, AsleepWrite(p.op))
      else Move(s, t, Active(p.op)).(write := s.write + {p.op.key})
    case Act(t) => Move(s, t, if p.op.writes then AtUnlockWrite(p.op) else AtUnlockRead(p.op))
    case UnlockWrite(t) => Move(s, t, OwesWrite(p.op)).(write := s.write - {p.op.key})
    case NotifyWrite(t, c) =>
      var r := Move(s, t, AtUnlockRead(p.op));
      if WriteSleeper(s, c) then Move(r, c, Woken(s.phases[c])) else r
    case UnlockRead(t) => Move(s, t, OwesRead(p.op)).(read := s.read - {p.op.key})
    case NotifyRead(t, c) =>
      var r := Move(s, t, Idle);
      if ReadSleeper(s, c) then Move(r, c, Woken(s.phases[c])) else r
    case SpuriousWake(t) => Move(s, t, Woken(p))
  }

  ghost predicate IsRun(states: seq<State>, events: seq<Event>) {
    && |states| == |events| + 1 && (exists n: nat :: states[0] == Init(n))
    && forall i :: 0 <= i < |events| ==> Enabled(states[i], events[i]) && states[i + 1] == Apply(states[i], events[i])
  }

  // ---------- the invariant ----------

  predicate HoldsRead(p: Phase) {
    p.AtWrite? || p.AsleepWrite? || p.WokenWrite? || p.Active? || p.AtUnlockWrite? || p.OwesWrite? || p.AtUnlockRead?
  }

  predicate HoldsWrite(p: Phase) {
    (p.Active? && p.op.writes) || p.AtUnlockWrite?
  }

  predicate ReadHolder(s: State, t: nat, k: Key) {
    t < |s.phases| && HoldsRead(s.phases[t]) && s.phases[t].op.key == k
  }

  predicate WriteHolder(s: State, t: nat, k: Key) {
    t < |s.phases| && HoldsWrite(s.phases[t]) && s.phases[t].op.key == k
  }

  ghost predicate ReadLocks(s: State) {
    && (forall k :: k in s.read <==> exists t: nat :: ReadHolder(s, t, k))
    && (forall t: nat, u: nat, k :: ReadHolder(s, t, k) && ReadHolder(s, u, k) ==> t == u)
  }

  /** Nobody ever sleeps on the write manager, and only writers come to it. */
  predicate OnlyAtWrite(p: Phase) {
    !p.AsleepWrite? && !p.WokenWrite? && (p.AtWrite? ==> p.op.writes)
  }

  ghost predicate WriteLocks(s: State) {
    && (forall k :: k in s.write <==> exists t: nat :: WriteHolder(s, t, k))
    && (forall t :: 0 <= t < |s.phases| ==> OnlyAtWrite(s.phases[t]))
  }

  /** Somebody who will still go on and make a notify_one on the read manager's variable. */
  predicate Moving(p: Phase) { HoldsRead(p) || p.WokenRead? || p.OwesRead? }

  ghost predicate SleepersCovered(s: State) {
    (exists t: nat :: ReadSleeper(s, t)) ==> exists u: nat :: 0 <= u < |s.phases| && Moving(s.phases[u])
  }

  ghost predicate Inv(s: State) { ReadLocks(s) && WriteLocks(s) && SleepersCovered(s) }

  lemma InitInv(n: nat)
    ensures Inv(Init(n))
  {
  }

  /** A thread at the write lock finds it free: whoever had it would have the read lock. */
  lemma WriteIsFree(s: State, t: nat)
    requires ReadLocks(s) && WriteLocks(s) && t < |s.phases| && s.phases[t].AtWrite?
    ensures s.phases[t].op.key !in s.write
  {
    var k := s.phases[t].op.key;
    if k in s.write {
      var u: nat :| WriteHolder(s, u, k);
      assert ReadHolder(s, u, k) && ReadHolder(s, t, k);
    }
  }

  /** A step moves the locks of its own thread only. */
  lemma OthersKeep(s: State, e: Event, u: nat, k: Key)
    requires Enabled(s, e) && u != e.t
    ensures ReadHolder(Apply(s, e), u, k) <==> ReadHolder(s, u, k)
    ensures WriteHolder(Apply(s, e), u, k) <==> WriteHolder(s, u, k)
  {
  }

  /** What a step does to the locks of its own thread and to the lock sets. */
  lemma OwnLocks(s: State, e: Event, k: Key)
    requires Inv(s) && Enabled(s, e)
    ensures
      var r := Apply(s, e);
      var own := if e.Call? then e.op.key else s.phases[e.t].op.key;
      if k != own then
        && (k in r.read <==> k in s.read) && (k in r.write <==> k in s.write)
        && !ReadHolder(r, e.t, k) && !ReadHolder(s, e.t, k) && !WriteHolder(r, e.t, k) && !WriteHolder(s, e.t, k)
      else
        && (if e.UnlockRead? then k !in r.read && ReadHolder(s, e.t, k) && !ReadHolder(r, e.t, k)
            else if ReadHolder(r, e.t, k) && !ReadHolder(s, e.t, k) then k !in s.read && k in r.read
            else (k in r.read <==> k in s.read) && (ReadHolder(r, e.t, k) <==> ReadHolder(s, e.t, k)))
        && (if e.UnlockWrite? then k !in r.write && WriteHolder(s, e.t, k) && !WriteHolder(r, e.t, k)
            else if WriteHolder(r, e.t, k) && !WriteHolder(s, e.t, k) then k !in s.write && k in r.write
            else (k in r.write <==> k in s.write) && (WriteHolder(r, e.t, k) <==> WriteHolder(s, e.t, k)))
  {
    if e.LockWrite? { WriteIsFree(s, e.t); }
  }

  lemma StepReadLocks(s: State, e: Event)
    requires Inv(s) && Enabled(s, e)
    ensures ReadLocks(Apply(s, e))
  {
    hide Apply, ReadHolder;
    var r := Apply(s, e);
    forall u: nat, k | u != e.t ensures ReadHolder(r, u, k) <==> ReadHolder(s, u, k) { OthersKeep(s, e, u, k); }
    forall k ensures k in r.read <==> exists t: nat :: ReadHolder(r, t, k) { OwnLocks(s, e, k); }
    forall t: nat, u: nat, k | ReadHolder(r, t, k) && ReadHolder(r, u, k) ensures t == u { OwnLocks(s, e, k); }
  }

  lemma StepWriteLocks(s: State, e: Event)
    requires Inv(s) && Enabled(s, e)
    ensures WriteLocks(Apply(s, e))
  {
    var r := Apply(s, e);
    if e.LockWrite? { WriteIsFree(s, e.t); }
    forall k ensures k in r.write <==> exists t: nat :: WriteHolder(r, t, k) { StepWriteLock(s, e, k); }
  }

  lemma StepWriteLock(s: State, e: Event, k: Key)
    requires Inv(s) && Enabled(s, e)
    ensures k in Apply(s, e).write <==> exists t: nat :: WriteHolder(Apply(s, e), t, k)
  {
    hide Apply, WriteHolder;
    var r := Apply(s, e);
    forall u: nat | u != e.t ensures WriteHolder(r, u, k) <==> WriteHolder(s, u, k) { OthersKeep(s, e, u, k); }
    OwnLocks(s, e, k);
    if e.UnlockWrite? {
      forall u: nat | WriteHolder(s, u, k) && WriteHolder(s, e.t, k) ensures u == e.t { WriteOwner(s, u, e.t, k); }
    }
  }

  lemma WriteOwner(s: State, t: nat, u: nat, k: Key)
    requires ReadLocks(s) && WriteHolder(s, t, k) && WriteHolder(s, u, k)
    ensures t == u && ReadHolder(s, t, k)
  {
    assert ReadHolder(s, t, k) && ReadHolder(s, u, k);
  }

  lemma StepSleepersCovered(s: State, e: Event)
    requires Inv(s) && Enabled(s, e)
    ensures SleepersCovered(Apply(s, e))
  {
    var r := Apply(s, e);
    if t: nat :| ReadSleeper(r, t) {
      if e.LockRead? && s.phases[e.t].op.key in s.read {
        // Falling asleep: the holder of the key goes on.
        var u: nat :| ReadHolder(s, u, s.phases[e.t].op.key);
        assert Moving(r.phases[u]);
      } else if e.NotifyRead? {
        assert ReadSleeper(s, t);
        assert Moving(r.phases[e.chosen]);
      } else if e.SpuriousWake? {
        assert s.phases[e.t].AsleepRead?;
        assert Moving(r.phases[e.t]);
      } else {
        assert ReadSleeper(s, t);
        var u :| 0 <= u < |s.phases| && Moving(s.phases[u]);
        assert Moving(r.phases[u]);
      }
    }
  }

  lemma StepInv(s: State, e: Event)
    requires Inv(s) && Enabled(s, e)
    ensures Inv(Apply(s, e))
  {
    hide Apply, Enabled;
    StepReadLocks(s, e);
    StepWriteLocks(s, e);
    StepSleepersCovered(s, e);
  }

  lemma {:induction false} RunInv(states: seq<State>, events: seq<Event>, i: nat)
    requires IsRun(states, events) && i < |states|
    ensures Inv(states[i])
  {
    hide Apply, Enabled, Inv;
    if i == 0 {
      var n: nat :| states[0] == Init(n);
      InitInv(n);
    } else {
      RunInv(states, events, i - 1);
      StepInv(states[i - 1], events[i - 1]);
    }
  }
}
