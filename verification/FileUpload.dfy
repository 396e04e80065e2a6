/** Sending a whole file: the loop that stops at the first failure, and UploadTask, which
    tries again after a time-out. */
module FileUpload {
  import opened Basics
  import opened WireFormat
  import opened Sockets
  import opened SendRuns
  import opened ChunkedFiles
  import PoolSteps

  /** The sender stands before the `k`th chunk. */
  lemma SendsChunk(file: bytes, k: nat)
    requires k < |Chunks(file)|
    ensures k * CHUNK_SIZE <= |file|
    ensures ChunkAt(file, k * CHUNK_SIZE) == Chunks(file)[k]
    ensures k * CHUNK_SIZE + |Chunks(file)[k].contents| == Min((k + 1) * CHUNK_SIZE, |file|)
  {
  }

  lemma AllSentWhen(file: bytes, k: nat)
    requires k <= |Chunks(file)|
    ensures Min(k * CHUNK_SIZE, |file|) == |file| <==> k == |Chunks(file)|
  {
  }

  lemma FramesNonEmpty(encode: Encoder, decode: Decoder, file: bytes)
    requires Faithful(encode, decode)
    ensures NonEmpty(FramesOf(encode, decode, file))
    ensures Concat(FramesOf(encode, decode, file)) == Wire(encode, decode, file, 0)
  {
    var frames := FramesOf(encode, decode, file);
    hide Chunks, FramesOf;
    forall i | 0 <= i < |frames| ensures frames[i] != [] { WireStep(encode, decode, file, i); }
    assert frames[0..] == frames;
  }

  /** The sender is working on `file`, has sent `k` chunks of it, and since the call of send()
      numbered `from` has put on the stream what the plan makes of that. */
  ghost predicate Sends(sender: ChunkedFileSender, decode: Decoder, file: bytes, from: nat, before: bytes, k: nat)
    reads sender, sender.socket
    requires Faithful(sender.encode, decode)
  {
    && sender.Valid() && sender.fileContents == file && k <= |Chunks(file)|
    && sender.totalBytesSent == Min(k * CHUNK_SIZE, |file|)
    && from <= sender.socket.sends
    && var s := SendRun(FramesOf(sender.encode, decode, file), sender.socket.sendPlan, from, sender.socket.sends);
       s.frame == k && s.offset == 0 && sender.socket.stream == before + s.out
  }

  /** One call of SendNextChunk: a positive result and one more chunk if its last send()
      succeeds, else that one's result and no more chunks. */
  method SendOne(sender: ChunkedFileSender, decode: Decoder, file: bytes,
                 ghost from: nat, ghost before: bytes, ghost k: nat)
    returns (result: int, done: bool)
    requires Faithful(sender.encode, decode) && |file| < UINT32_MODULUS
    requires Sends(sender, decode, file, from, before, k) && k < |Chunks(file)|
    modifies sender, sender.socket
    ensures old(sender.socket.sends) < sender.socket.sends && sender.socket.recvs == old(sender.socket.recvs)
    ensures AllMoved(sender.socket.sendPlan, old(sender.socket.sends), sender.socket.sends - 1)
    ensures var last := sender.socket.sendPlan(sender.socket.sends - 1);
      && (if last.Moved? then result > 0 else result == Code(last))
      && (sender.socket.timedOut <==> last.TimedOut?)
      && Sends(sender, decode, file, from, before, if last.Moved? then k + 1 else k)
      && (done <==> last.Moved? && k + 1 == |Chunks(file)|)
  {
    hide Chunks, ChunkAt, Wire, Frame, FramesOf, ChunkCount, BytesMoved, SendRun;
    WireStep(sender.encode, decode, file, k);
    SendsChunk(file, k);
    AllSentWhen(file, k);
    AllSentWhen(file, k + 1);
    ghost var mid := sender.socket.sends;
    result := sender.SendNextChunk();
    done := sender.SentCompleteFile();
    FrameEnds(FramesOf(sender.encode, decode, file), sender.socket.sendPlan, from, mid, sender.socket.sends);
  }

  /** Starts on a new file. */
  method Begin(sender: ChunkedFileSender, decode: Decoder, file: bytes) returns (done: bool)
    requires Faithful(sender.encode, decode) && |file| < UINT32_MODULUS
    modifies sender
    ensures Sends(sender, decode, file, sender.socket.sends, sender.socket.stream, 0)
    ensures done <==> |Chunks(file)| == 0
  {
    AllSentWhen(file, 0);
    sender.SetFileContents(file);
    done := sender.SentCompleteFile();
    assert sender.socket.stream + [] == sender.socket.stream;
  }

  /** The sending loop, until it is done or a call fails.  It completes if and only if it may
      make as many calls as there are chunks and no send() fails; whatever parts the bytes
      are taken in, the stream grows by a prefix of the file's frames, by all of them exactly
      when it completes, and every successful call sends one chunk. */
  method Upload(sender: ChunkedFileSender, decode: Decoder, file: bytes, calls: nat)
    returns (done: bool, successes: nat)
    requires Faithful(sender.encode, decode) && |file| < UINT32_MODULUS
    modifies sender, sender.socket
    ensures sender.Valid() && old(sender.socket.sends) <= sender.socket.sends
    ensures sender.socket.recvs == old(sender.socket.recvs)
    ensures done <==>
      calls >= |Chunks(file)| && AllMoved(sender.socket.sendPlan, old(sender.socket.sends), sender.socket.sends)
    ensures successes <= |Chunks(file)| && (done <==> successes == |Chunks(file)|)
    ensures Sends(sender, decode, file, old(sender.socket.sends), old(sender.socket.stream), successes)
    ensures !done ==>
      || successes == calls
      || (old(sender.socket.sends) < sender.socket.sends && !sender.socket.sendPlan(sender.socket.sends - 1).Moved?)
    ensures old(sender.socket.stream) <= sender.socket.stream
    ensures var sent := sender.socket.stream[|old(sender.socket.stream)|..];
      && sent <= Wire(sender.encode, decode, file, 0)
      && (done <==> sent == Wire(sender.encode, decode, file, 0))
  {
    hide Chunks, Wire, ChunkCount, FramesOf, ChunkedFileSender.Valid, SendRun;
    ghost var from, before, plan := sender.socket.sends, sender.socket.stream, sender.socket.sendPlan;
    done := Begin(sender, decode, file);
    successes := 0;
    var failed := false;
    while !done && !failed && successes < calls
      invariant Sends(sender, decode, file, from, before, successes)
      invariant sender.socket.recvs == old(sender.socket.recvs)
      invariant done <==> successes == |Chunks(file)|
      invariant successes <= calls
      invariant forall i: nat :: from <= i < sender.socket.sends - 1 ==> plan(i).Moved?
      invariant sender.socket.sends > from ==> (failed <==> !plan(sender.socket.sends - 1).Moved?)
      invariant failed ==> from < sender.socket.sends && !done
      decreases calls - successes, !failed
    {
      var result;
      result, done := SendOne(sender, decode, file, from, before, successes);
      if result <= 0 {
        failed := true;
      } else {
        successes := successes + 1;
      }
    }
    FramesNonEmpty(sender.encode, decode, file);
    PrefixOut(FramesOf(sender.encode, decode, file), plan, from, sender.socket.sends);
    assert sender.socket.stream[|before|..]
        == SendRun(FramesOf(sender.encode, decode, file), plan, from, sender.socket.sends).out;
  }

  /** UploadTask::RunAtomic. */
  method UploadRunAtomic(sender: ChunkedFileSender, decode: Decoder, file: bytes,
                         ghost from: nat, ghost before: bytes, ghost k: nat)
    returns (status: PoolSteps.Status)
    requires Faithful(sender.encode, decode) && |file| < UINT32_MODULUS
    requires Sends(sender, decode, file, from, before, k)
    modifies sender, sender.socket
    ensures old(sender.socket.sends) <= sender.socket.sends
    ensures k == |Chunks(file)| ==>
      && status == PoolSteps.Done && sender.socket.sends == old(sender.socket.sends)
      && Sends(sender, decode, file, from, before, k)
    ensures k < |Chunks(file)| ==>
      && old(sender.socket.sends) < sender.socket.sends
      && AllMoved(sender.socket.sendPlan, old(sender.socket.sends), sender.socket.sends - 1)
      && var last := sender.socket.sendPlan(sender.socket.sends - 1);
         && Sends(sender, decode, file, from, before, if last.Moved? then k + 1 else k)
         && status == (match last
                       case Moved(_) | TimedOut => PoolSteps.Running
                       case Closed => PoolSteps.Done
                       case Broken => PoolSteps.Failed)
  {
    hide Chunks, FramesOf, SendRun, ChunkCount, AllMoved;
    AllSentWhen(file, k);
    var complete := sender.SentCompleteFile();
    if complete {
      return PoolSteps.Done;
    }
    var sendResult, _ := SendOne(sender, decode, file, from, before, k);
    if sendResult < 0 {
      return if sender.socket.timedOut then PoolSteps.Running else PoolSteps.Failed;
    }
    return if sendResult == 0 then PoolSteps.Done else PoolSteps.Running;
  }

  /** No send() fails but by timing out. */
  predicate OnlyTimeOuts(plan: Plan, from: nat, end: int) {
    forall i: nat :: from <= i < end ==> plan(i).Moved? || plan(i).TimedOut?
  }

  /** One iteration's calls of send(), of which only the last may fail. */
  lemma IterationCounts(plan: Plan, from: nat, mid: nat, end: nat)
    requires from <= mid < end && OnlyTimeOuts(plan, from, mid) && AllMoved(plan, mid, end - 1)
    ensures Failures(plan, from, end) == Failures(plan, from, mid) + if plan(end - 1).Moved? then 0 else 1
    ensures OnlyTimeOuts(plan, from, end) <==> plan(end - 1).Moved? || plan(end - 1).TimedOut?
  {
    FailuresSplit(plan, from, mid, end);
    FailuresOf(plan, mid, end);
  }

  lemma NoTimeOutsYet(plan: Plan, from: nat)
    ensures OnlyTimeOuts(plan, from, from) && Failures(plan, from, from) == 0
  {
  }

  lemma UploadIntact(encode: Encoder, decode: Decoder, file: bytes, plan: Plan, from: nat, end: nat, before: bytes)
    requires Faithful(encode, decode)
    requires SendRun(FramesOf(encode, decode, file), plan, from, end).frame == |Chunks(file)|
    ensures var frames := FramesOf(encode, decode, file);
      before + SendRun(frames, plan, from, end).out == before + Wire(encode, decode, file, 0)
      <==> !Torn(frames, plan, from, end)
  {
    hide Chunks, Wire, FramesOf, SendRun, Torn;
    FramesNonEmpty(encode, decode, file);
    var frames := FramesOf(encode, decode, file);
    IntactIff(frames, plan, from, end);
    var out := SendRun(frames, plan, from, end).out;
    assert (before + out)[|before|..] == out;
    assert (before + Wire(encode, decode, file, 0))[|before|..] == Wire(encode, decode, file, 0);
  }

  /** UploadTask run for any number of iterations.  All frames go out if and only if the
      iterations suffice for the chunks and the time-outs and nothing else fails; and then
      the file is intact on the stream if and only if no send() timed out in the middle of
      a frame, because the chunk then starts over and what was sent of it stays. */
  method RunUpload(sender: ChunkedFileSender, decode: Decoder, file: bytes, calls: nat)
    returns (status: PoolSteps.Status)
    requires Faithful(sender.encode, decode) && |file| < UINT32_MODULUS
    modifies sender, sender.socket
    ensures sender.Valid() && old(sender.socket.sends) <= sender.socket.sends
    ensures var frames := FramesOf(sender.encode, decode, file);
      var plan, from, end := sender.socket.sendPlan, old(sender.socket.sends), sender.socket.sends;
      var s := SendRun(frames, plan, from, end);
      && sender.socket.stream == old(sender.socket.stream) + s.out
      && (s.frame == |Chunks(file)| <==>
            calls >= |Chunks(file)| + Failures(plan, from, end) && OnlyTimeOuts(plan, from, end))
      && (s.frame == |Chunks(file)| ==>
            (sender.socket.stream == old(sender.socket.stream) + Wire(sender.encode, decode, file, 0)
             <==> !Torn(frames, plan, from, end)))
      && (status.Running? ==> calls == s.frame + Failures(plan, from, end))
      && (status.Failed? <==> end > from && plan(end - 1).Broken?)
      && (status.Done? <==>
            || (end > from && plan(end - 1).Closed?)
            || (s.frame == |Chunks(file)| && calls > |Chunks(file)| + Failures(plan, from, end)))
  {
    hide Chunks, Wire, ChunkCount, FramesOf, ChunkedFileSender.Valid, SendRun, Torn, Failures, OnlyTimeOuts;
    ghost var from, before, plan := sender.socket.sends, sender.socket.stream, sender.socket.sendPlan;
    NoTimeOutsYet(plan, from);
    var _ := Begin(sender, decode, file);
    ghost var k := 0;
    status := PoolSteps.Running;
    var i := 0;
    while status.Running? && i < calls
      invariant Sends(sender, decode, file, from, before, k) && i <= calls && !status.Cancelled?
      invariant status.Running? ==>
        OnlyTimeOuts(plan, from, sender.socket.sends) && i == k + Failures(plan, from, sender.socket.sends)
      invariant sender.socket.sends > from ==>
        && (status.Failed? <==> plan(sender.socket.sends - 1).Broken?)
        && (plan(sender.socket.sends - 1).Closed? ==> status.Done?)
      invariant status.Failed? ==>
        from < sender.socket.sends && !OnlyTimeOuts(plan, from, sender.socket.sends) && k < |Chunks(file)|
      invariant status.Done? ==>
        if OnlyTimeOuts(plan, from, sender.socket.sends) then
          k == |Chunks(file)| && i == k + Failures(plan, from, sender.socket.sends) + 1
        else
          from < sender.socket.sends && plan(sender.socket.sends - 1).Closed? && k < |Chunks(file)|
      decreases calls - i
    {
      ghost var mid := sender.socket.sends;
      ghost var complete := k == |Chunks(file)|;
      status := UploadRunAtomic(sender, decode, file, from, before, k);
      if !complete {
        IterationCounts(plan, from, mid, sender.socket.sends);
        if plan(sender.socket.sends - 1).Moved? { k := k + 1; }
      }
      i := i + 1;
    }
    if k == |Chunks(file)| {
      UploadIntact(sender.encode, decode, file, plan, from, sender.socket.sends, before);
    }
  }
}
