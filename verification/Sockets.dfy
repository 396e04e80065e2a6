/** A connected socket, as the file transfer sees it: a byte stream, and for every send() and
    recv() a result that the environment has decided on. */
module Sockets {
  import opened Basics
  import opened WireFormat

  type pos = n: int | n > 0 witness 1

  /** What one call comes to. */
  datatype IoResult =
    | Moved(n: pos)   // this many bytes, or as many as there are
    | Closed          // 0: the peer has disconnected
    | TimedOut        // -1, with errno EAGAIN or EWOULDBLOCK
    | Broken          // -1, with any other errno

  /** The results of all calls to come, by the number of the call. */
  type Plan = nat -> IoResult

  /** What a failed call returns. */
  function Code(r: IoResult): (code: int)
    ensures !r.Moved? ==> code <= 0 && (code < 0 <==> !r.Closed?)
  {
    match r
    case Moved(n) => n
    case Closed => 0
    case TimedOut | Broken => -1
  }

  predicate AllMoved(plan: Plan, from: nat, end: nat) {
    forall i: nat :: from <= i < end ==> plan(i).Moved?
  }

  function Failures(plan: Plan, from: nat, end: nat): nat
    decreases end
  {
    if end <= from then 0 else Failures(plan, from, end - 1) + if plan(end - 1).Moved? then 0 else 1
  }

  /** How many of `total` bytes the calls numbered from `from` up to `end` move, at most `size`
      at a time. */
  function BytesMoved(plan: Plan, from: nat, end: nat, total: nat, size: nat): (n: nat)
    ensures n <= total
    decreases end
  {
    if end <= from then 0 else
      var before := BytesMoved(plan, from, end - 1, total, size);
      match plan(end - 1)
      case Moved(n) => before + Min(Min(n, size), total - before)
      case _ => before
  }

  /** One call more. */
  lemma NextMoved(plan: Plan, from: nat, i: nat, total: nat, size: nat)
    requires from <= i
    ensures var before := BytesMoved(plan, from, i, total, size);
      BytesMoved(plan, from, i + 1, total, size) ==
      match plan(i)
      case Moved(n) => before + Min(Min(n, size), total - before)
      case _ => before
  {
  }

  lemma NoneMoved(plan: Plan, from: nat, total: nat, size: nat)
    ensures BytesMoved(plan, from, from, total, size) == 0
  {
  }

  lemma {:induction false} BytesMovedGrow(plan: Plan, from: nat, mid: nat, end: nat, total: nat, size: nat)
    requires mid <= end
    ensures BytesMoved(plan, from, mid, total, size) <= BytesMoved(plan, from, end, total, size)
    decreases end
  {
    if mid != end { BytesMovedGrow(plan, from, mid, end - 1, total, size); }
  }

  /** Counting may stop and go on at any call. */
  lemma {:induction false} BytesMovedSplit(plan: Plan, from: nat, mid: nat, end: nat, total: nat, size: nat)
    requires from <= mid <= end
    ensures var before := BytesMoved(plan, from, mid, total, size);
      BytesMoved(plan, from, end, total, size) == before + BytesMoved(plan, mid, end, total - before, size)
    decreases end
  {
    if mid != end { BytesMovedSplit(plan, from, mid, end - 1, total, size); }
  }

  lemma {:induction false} FailuresSplit(plan: Plan, from: nat, mid: nat, end: nat)
    requires from <= mid <= end
    ensures Failures(plan, from, end) == Failures(plan, from, mid) + Failures(plan, mid, end)
    decreases end
  {
    if mid != end { FailuresSplit(plan, from, mid, end - 1); }
  }

  /** A stretch of calls of which only the last may fail. */
  lemma {:induction false} FailuresOf(plan: Plan, from: nat, end: nat)
    ensures Failures(plan, from, end) == 0 <==> AllMoved(plan, from, end)
    ensures end > from && AllMoved(plan, from, end - 1) && !plan(end - 1).Moved? ==> Failures(plan, from, end) == 1
    decreases end
  {
    if end > from { FailuresOf(plan, from, end - 1); }
  }

  class Socket {
    const sendPlan: Plan
    const recvPlan: Plan
    var sends: nat        // calls of send() so far
    var recvs: nat        // calls of recv() so far
    var stream: bytes     // written and not read
    var timedOut: bool    // errno says that the last call timed out

    constructor (sendPlan: Plan, recvPlan: Plan, stream: bytes)
      ensures this.sendPlan == sendPlan && this.recvPlan == recvPlan
      ensures sends == recvs == 0 && this.stream == stream && !timedOut
    {
      this.sendPlan, this.recvPlan, this.stream := sendPlan, recvPlan, stream;
      sends, recvs, timedOut := 0, 0, false;
    }

    method Send(data: bytes) returns (n: int)
      modifies this
      ensures sends == old(sends) + 1 && recvs == old(recvs) && (timedOut <==> sendPlan(old(sends)).TimedOut?)
      ensures match sendPlan(old(sends))
        case Moved(k) => n == Min(k, |data|) && stream == old(stream) + data[..n]
        case r => n == Code(r) && stream == old(stream)
    {
      var r := sendPlan(sends);
      sends, timedOut := sends + 1, r.TimedOut?;
      match r
      case Moved(k) =>
        n := Min(k, |data|);
        stream := stream + data[..n];
      case _ => n := Code(r);
    }

    /** At the end of the stream there is nothing to deliver, and the result is 0. */
    method Recv(size: nat) returns (n: int, data: bytes)
      modifies this
      ensures recvs == old(recvs) + 1 && sends == old(sends) && (timedOut <==> recvPlan(old(recvs)).TimedOut?)
      ensures match recvPlan(old(recvs))
        case Moved(k) =>
          n == Min(Min(k, size), |old(stream)|) && data == old(stream)[..n] && stream == old(stream)[n..]
        case r => n == Code(r) && stream == old(stream)
    {
      data := [];
      var r := recvPlan(recvs);
      recvs, timedOut := recvs + 1, r.TimedOut?;
      match r
      case Moved(k) =>
        n := Min(Min(k, size), |stream|);
        data, stream := stream[..n], stream[n..];
      case _ => n := Code(r);
    }
  }
}
