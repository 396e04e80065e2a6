/** Frames going out through send(), as the environment's plan has it, when a failed call is
    made again: the chunk starts over, and what was sent of it stays on the stream. */
module SendRuns {
  import opened Basics
  import opened WireFormat
  import opened Sockets

  /** The frame being sent, how much of it this call has sent, and all bytes sent so far. */
  datatype Sending = Sending(frame: nat, offset: nat, out: bytes)

  function SendStep(frames: seq<bytes>, s: Sending, r: IoResult): Sending {
    if s.frame >= |frames| || s.offset >= |frames[s.frame]| then s else
      var f := frames[s.frame];
      match r
      case Moved(n) =>
        var end := s.offset + Min(n, |f| - s.offset);
        if end == |f| then Sending(s.frame + 1, 0, s.out + f[s.offset..])
        else Sending(s.frame, end, s.out + f[s.offset..end])
      case _ => s.(offset := 0)
  }

  function SendRun(frames: seq<bytes>, plan: Plan, from: nat, end: nat): Sending
    decreases end
  {
    if end <= from then Sending(0, 0, []) else SendStep(frames, SendRun(frames, plan, from, end - 1), plan(end - 1))
  }

  predicate NonEmpty(frames: seq<bytes>) {
    forall i :: 0 <= i < |frames| ==> frames[i] != []
  }

  /** A call of send() fails after others have sent part of the same frame. */
  predicate Torn(frames: seq<bytes>, plan: Plan, from: nat, end: nat) {
    exists i: nat :: from <= i < end && !plan(i).Moved? && SendRun(frames, plan, from, i).offset > 0
  }

  predicate InFrames(frames: seq<bytes>, s: Sending) {
    if s.frame < |frames| then s.offset < |frames[s.frame]| else s.frame == |frames| && s.offset == 0
  }

  /** What is out if no frame was torn: whole frames, then the part sent of the next. */
  function Whole(frames: seq<bytes>, frame: nat, offset: nat): bytes {
    if frame < |frames| && offset <= |frames[frame]| then Concat(frames[..frame]) + frames[frame][..offset]
    else Concat(frames)
  }

  lemma ConcatNext(frames: seq<bytes>, k: nat)
    requires k < |frames|
    ensures Concat(frames[..k + 1]) == Concat(frames[..k]) + frames[k]
    ensures k + 1 == |frames| ==> frames[..k + 1] == frames
  {
    assert frames[..k + 1] == frames[..k] + [frames[k]];
    ConcatAppend(frames[..k], frames[k]);
  }

  /** One step of a run keeps the bytes whole, or keeps them too many. */
  lemma StepWhole(frames: seq<bytes>, s: Sending, r: IoResult)
    requires NonEmpty(frames) && s.frame < |frames| && s.offset < |frames[s.frame]|
    ensures var t := SendStep(frames, s, r);
      && InFrames(frames, t)
      && (r.Moved? || s.offset == 0 ==>
            |t.out| - |Whole(frames, t.frame, t.offset)| == |s.out| - |Whole(frames, s.frame, s.offset)|)
      && (r.Moved? && s.out == Whole(frames, s.frame, s.offset) ==> t.out == Whole(frames, t.frame, t.offset))
      && (!r.Moved? ==>
            && t == Sending(s.frame, 0, s.out)
            && |Whole(frames, t.frame, t.offset)| == |Whole(frames, s.frame, s.offset)| - s.offset)
  {
    var f := frames[s.frame];
    ConcatNext(frames, s.frame);
    match r
    case Moved(n) =>
      var end := s.offset + Min(n, |f| - s.offset);
      assert f[..end] == f[..s.offset] + f[s.offset..end];
      if end == |f| {
        assert f[..end] == f && f[s.offset..end] == f[s.offset..];
        if s.frame + 1 < |frames| {
          assert Whole(frames, s.frame + 1, 0) == Concat(frames[..s.frame + 1]);
        }
      }
    case _ =>
  }

  /** Never too few bytes, too many exactly if a frame was torn, and the right ones else. */
  lemma {:induction false} RunWhole(frames: seq<bytes>, plan: Plan, from: nat, end: nat)
    requires NonEmpty(frames)
    ensures var s := SendRun(frames, plan, from, end);
      && InFrames(frames, s)
      && |s.out| >= |Whole(frames, s.frame, s.offset)|
      && (Torn(frames, plan, from, end) ==> |s.out| > |Whole(frames, s.frame, s.offset)|)
      && (!Torn(frames, plan, from, end) ==> s.out == Whole(frames, s.frame, s.offset))
    decreases end
  {
    hide SendStep, Whole;
    if end <= from {
      StartWhole(frames);
    } else {
      RunWhole(frames, plan, from, end - 1);
      var s, r := SendRun(frames, plan, from, end - 1), plan(end - 1);
      TornGrows(frames, plan, from, end);
      if s.frame < |frames| {
        StepWhole(frames, s, r);
        if !r.Moved? && s.offset == 0 { StepStays(frames, s, r); }
      } else {
        StepStays(frames, s, r);
      }
    }
  }

  lemma StartWhole(frames: seq<bytes>)
    ensures Whole(frames, 0, 0) == []
  {
    assert frames[..0] == [];
  }

  lemma StepStays(frames: seq<bytes>, s: Sending, r: IoResult)
    requires s.frame >= |frames| || (!r.Moved? && s.offset == 0)
    ensures SendStep(frames, s, r) == s
  {
  }

  lemma TornGrows(frames: seq<bytes>, plan: Plan, from: nat, end: nat)
    requires from < end
    ensures Torn(frames, plan, from, end) <==>
      Torn(frames, plan, from, end - 1) || (!plan(end - 1).Moved? && SendRun(frames, plan, from, end - 1).offset > 0)
  {
    hide SendRun;
  }

  /** Frames that are all out are intact if and only if none was torn. */
  lemma IntactIff(frames: seq<bytes>, plan: Plan, from: nat, end: nat)
    requires NonEmpty(frames) && SendRun(frames, plan, from, end).frame == |frames|
    ensures SendRun(frames, plan, from, end).out == Concat(frames) <==> !Torn(frames, plan, from, end)
  {
    hide SendRun, Torn;
    RunWhole(frames, plan, from, end);
  }

  /** As long as no call fails, and also after the first that does, a prefix is out. */
  lemma PrefixOut(frames: seq<bytes>, plan: Plan, from: nat, end: nat)
    requires NonEmpty(frames) && (forall i: nat :: from <= i < end - 1 ==> plan(i).Moved?)
    ensures var s := SendRun(frames, plan, from, end);
      s.out <= Concat(frames) && (s.out == Concat(frames) <==> s.frame == |frames|)
  {
    hide SendStep;
    RunWhole(frames, plan, from, end);
    var s := SendRun(frames, plan, from, end);
    if end > from && !plan(end - 1).Moved? {
      RunWhole(frames, plan, from, end - 1);
      var before := SendRun(frames, plan, from, end - 1);
      if before.frame < |frames| {
        StepWhole(frames, before, plan(end - 1));
      } else {
        StepStays(frames, before, plan(end - 1));
      }
      WholeIsPrefix(frames, before.frame, before.offset);
    } else {
      WholeIsPrefix(frames, s.frame, s.offset);
    }
  }

  lemma WholeIsPrefix(frames: seq<bytes>, frame: nat, offset: nat)
    requires NonEmpty(frames) && frame <= |frames| && (frame < |frames| ==> offset < |frames[frame]|)
    ensures Whole(frames, frame, offset) <= Concat(frames)
    ensures Whole(frames, frame, offset) == Concat(frames) <==> frame == |frames|
  {
    if frame < |frames| {
      ConcatSplit(frames, frame);
      ConcatSplit(frames, frame + 1);
      ConcatNext(frames, frame);
      assert Concat(frames) == Concat(frames[..frame]) + (frames[frame] + Concat(frames[frame + 1..]));
    }
  }

  lemma {:induction false} ConcatSplit(frames: seq<bytes>, k: nat)
    requires k <= |frames|
    ensures Concat(frames) == Concat(frames[..k]) + Concat(frames[k..])
  {
    if k == 0 {
      assert frames[..0] == [] && frames[0..] == frames;
    } else {
      ConcatSplit(frames[1..], k - 1);
      assert frames[..k][1..] == frames[1..][..k - 1] && frames[1..][k - 1..] == frames[k..];
    }
  }

  /** The calls of send() one frame takes, as part of a run. */
  lemma {:induction false} FrameRun(frames: seq<bytes>, plan: Plan, from: nat, mid: nat, end: nat)
    requires from <= mid <= end
    requires var s := SendRun(frames, plan, from, mid);
      && s.frame < |frames| && s.offset == 0 && AllMoved(plan, mid, end)
      && BytesMoved(plan, mid, end, |frames[s.frame]|, |frames[s.frame]|) < |frames[s.frame]|
    ensures var s, t := SendRun(frames, plan, from, mid), SendRun(frames, plan, from, end);
      var f := frames[s.frame];
      var n := BytesMoved(plan, mid, end, |f|, |f|);
      t == Sending(s.frame, n, s.out + f[..n])
    decreases end
  {
    var s := SendRun(frames, plan, from, mid);
    var f := frames[s.frame];
    if mid == end {
      assert s.out + f[..0] == s.out;
    } else {
      FrameRun(frames, plan, from, mid, end - 1);
      var n, m := BytesMoved(plan, mid, end - 1, |f|, |f|), BytesMoved(plan, mid, end, |f|, |f|);
      assert f[..m] == f[..n] + f[n..m];
    }
  }

  lemma LastSend(frames: seq<bytes>, k: nat, n: nat, m: nat, out: bytes, r: IoResult)
    requires k < |frames| && n < |frames[k]|
    requires m == match r case Moved(j) => n + Min(Min(j, |frames[k]|), |frames[k]| - n) case _ => n
    requires r.Moved? <==> m == |frames[k]|
    ensures SendStep(frames, Sending(k, n, out + frames[k][..n]), r)
         == Sending(if r.Moved? then k + 1 else k, 0, out + frames[k][..m])
  {
    var f := frames[k];
    assert f[..|f|] == f[..n] + f[n..];
  }

  /** The last of them completes the frame, or fails and the frame starts over. */
  lemma FrameEnds(frames: seq<bytes>, plan: Plan, from: nat, mid: nat, end: nat)
    requires from <= mid < end && AllMoved(plan, mid, end - 1)
    requires var s := SendRun(frames, plan, from, mid); s.frame < |frames| && s.offset == 0
    requires var size := |frames[SendRun(frames, plan, from, mid).frame]|;
      && BytesMoved(plan, mid, end - 1, size, size) < size
      && (plan(end - 1).Moved? <==> BytesMoved(plan, mid, end, size, size) == size)
    ensures var s, t := SendRun(frames, plan, from, mid), SendRun(frames, plan, from, end);
      var f := frames[s.frame];
      && t.offset == 0 && t.frame == (if plan(end - 1).Moved? then s.frame + 1 else s.frame)
      && t.out == s.out + f[..BytesMoved(plan, mid, end, |f|, |f|)]
  {
    hide SendStep;
    var s := SendRun(frames, plan, from, mid);
    var size := |frames[s.frame]|;
    FrameRun(frames, plan, from, mid, end - 1);
    LastSend(frames, s.frame, BytesMoved(plan, mid, end - 1, size, size), BytesMoved(plan, mid, end, size, size),
             s.out, plan(end - 1));
  }
}
