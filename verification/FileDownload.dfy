/** Receiving a whole file, however its bytes are cut up and however often a read fails. */
module FileDownload {
  import opened Basics
  import opened WireFormat
  import opened MessageParsing
  import opened Sockets
  import opened ChunkedFiles

  /** Where the calls of recv() numbered from `from` up to `end` have got to on a stream of
      `total` bytes. */
  function Position(plan: Plan, from: nat, end: nat, total: nat): nat {
    BytesMoved(plan, from, end, total, CLIENT_BUFFER_SIZE)
  }

  /** The receiver has `k` chunks of the file; the rest, then `tail`, is unread. */
  ghost predicate HasChunks(receiver: ChunkedFileReceiver, encode: Encoder, file: bytes, tail: bytes, k: nat)
    reads receiver, receiver.parser, receiver.parser.partialLength, receiver.socket
    requires Faithful(encode, receiver.parser.decode)
  {
    && receiver.Valid() && k <= |Chunks(file)|
    && receiver.Unread() == Wire(encode, receiver.parser.decode, file, k) + tail
    && receiver.fileContents == Joined(Chunks(file)[..k])
    && (receiver.completeFile <==> 0 < k == |Chunks(file)|)
  }

  /** What the calls of recv() from `from` up to `end` have left of `stream`; no call was made
      once `size` bytes had been read. */
  ghost predicate HasRead(plan: Plan, from: nat, end: nat, stream: bytes, left: bytes, size: nat) {
    && from <= end && left == stream[Position(plan, from, end, |stream|)..]
    && forall i: nat :: from <= i < end ==> Position(plan, from, i, |stream|) < size
  }

  lemma NextArrives(encode: Encoder, decode: Decoder, file: bytes, tail: bytes, k: nat)
    requires Faithful(encode, decode) && k < |Chunks(file)|
    ensures var unread := Wire(encode, decode, file, k) + tail;
      && HasFrame(unread) && decode(Payload(unread)) == Some(Chunks(file)[k])
      && Rest(unread) == Wire(encode, decode, file, k + 1) + tail
      && FrameSize(unread) <= |Wire(encode, decode, file, k)|
    ensures Joined(Chunks(file)[..k + 1]) == Joined(Chunks(file)[..k]) + Chunks(file)[k].contents
    ensures Chunks(file)[k].contents != [] && (Chunks(file)[k].isLast <==> k + 1 == |Chunks(file)|)
  {
    ChunksOfFile(file);
    hide Chunks, Wire, Frame, FramesOf, HasFrame, Payload, FrameSize;
    WireStep(encode, decode, file, k);
    var payload, rest := encode(Chunks(file)[k]).value, Wire(encode, decode, file, k + 1);
    assert (Frame(payload) + rest) + tail == Frame(payload) + (rest + tail);
    FrameSplits(payload, rest + tail);
    assert Chunks(file)[..k + 1][..k] == Chunks(file)[..k];
  }

  /** A front of the unread bytes has the first frame exactly when it is long enough. */
  lemma FrontHasFrame(unread: bytes, n: nat)
    requires HasFrame(unread) && n <= |unread|
    ensures HasFrame(unread[..n]) <==> n >= FrameSize(unread)
  {
    if n >= LENGTH_BYTES {
      assert unread[..n][..LENGTH_BYTES] == unread[..LENGTH_BYTES];
    }
  }

  lemma FrontOf(pending: bytes, stream: bytes, n: nat)
    requires n <= |stream|
    ensures pending + stream[..n] == (pending + stream)[..|pending| + n]
    ensures (pending + stream[..n]) + stream[n..] == pending + stream
  {
  }

  /** When a whole message is on its way, reading stops with it exactly if no call fails, and
      no call is made beyond it. */
  lemma ReadsOneFrame(plan: Plan, from: nat, end: nat, pending: bytes, stream: bytes)
    requires HasFrame(pending + stream) && StopsWhenRead(plan, from, end, pending, stream)
    ensures from <= end && (HasFrame(pending + ReadUpTo(plan, from, end, stream)) <==> AllMoved(plan, from, end))
    ensures Failures(plan, from, end) == if AllMoved(plan, from, end) then 0 else 1
    ensures forall i: nat :: from <= i < end ==>
      |pending| + Position(plan, from, i, |stream|) < FrameSize(pending + stream)
  {
    hide HasFrame, FrameSize, BytesMoved;
    FailuresOf(plan, from, end);
    forall i: nat | from <= i < end
      ensures |pending| + Position(plan, from, i, |stream|) < FrameSize(pending + stream)
    {
      var n := Position(plan, from, i, |stream|);
      FrontOf(pending, stream, n);
      FrontHasFrame(pending + stream, |pending| + n);
      assert stream[..n] == ReadUpTo(plan, from, i, stream);
    }
  }

  /** The bytes that were pending or read, once the first message is off them. */
  lemma TakesFront(pending: bytes, stream: bytes, n: nat)
    requires n <= |stream| && HasFrame(pending + stream[..n])
    ensures var unread := pending + stream;
      && HasFrame(unread) && Payload(unread) == Payload(pending + stream[..n])
      && Rest(pending + stream[..n]) + stream[n..] == Rest(unread)
  {
    FrontOf(pending, stream, n);
    FrameStable(pending + stream[..n], stream[n..]);
  }

  lemma HasReadMore(plan: Plan, from: nat, mid: nat, end: nat, stream: bytes, left: bytes, size: nat)
    requires HasRead(plan, from, mid, stream, left, size) && mid <= end
    requires forall i: nat :: mid <= i < end ==>
      |stream| - |left| + Position(plan, mid, i, |left|) < size
    ensures HasRead(plan, from, end, stream, left[Position(plan, mid, end, |left|)..], size)
  {
    forall i: nat | mid <= i <= end
      ensures Position(plan, from, i, |stream|) == |stream| - |left| + Position(plan, mid, i, |left|)
    {
      BytesMovedSplit(plan, from, mid, i, |stream|, CLIENT_BUFFER_SIZE);
    }
  }

  /** One call on a connection that carries a file: the next chunk with a positive result if
      no recv() fails, else nothing, and exactly one recv() has failed; complete exactly on
      the last chunk. */
  method ReceiveOne(receiver: ChunkedFileReceiver, encode: Encoder, file: bytes, tail: bytes,
                    ghost from: nat, ghost stream: bytes, ghost k: nat)
    returns (result: int)
    requires Faithful(encode, receiver.parser.decode)
    requires HasChunks(receiver, encode, file, tail, k) && k < |Chunks(file)|
    requires stream == Wire(encode, receiver.parser.decode, file, 0) + tail
    requires HasRead(receiver.socket.recvPlan, from, receiver.socket.recvs, stream, receiver.socket.stream,
                     |stream| - |tail|)
    modifies receiver, receiver.parser, receiver.parser.partialLength, receiver.socket
    ensures old(receiver.socket.recvs) <= receiver.socket.recvs && receiver.socket.sends == old(receiver.socket.sends)
    ensures var moved := AllMoved(receiver.socket.recvPlan, old(receiver.socket.recvs), receiver.socket.recvs);
      && (if moved then result == |Chunks(file)[k].contents| > 0 else result <= 0)
      && HasChunks(receiver, encode, file, tail, if moved then k + 1 else k)
      && Failures(receiver.socket.recvPlan, old(receiver.socket.recvs), receiver.socket.recvs)
         == (if moved then 0 else 1)
    ensures HasRead(receiver.socket.recvPlan, from, receiver.socket.recvs, stream, receiver.socket.stream,
                    |stream| - |tail|)
  {
    hide Chunks, Wire, Joined, FramesOf, HasFrame, Payload, Rest, FrameSize;
    hide BytesMoved, HasRead, Failures, StopsWhenRead;
    hide MessageParser.Valid, MessageParser.Pending;
    ghost var decode := receiver.parser.decode;
    ghost var mid, left, pending := receiver.socket.recvs, receiver.socket.stream, receiver.parser.Pending();
    ghost var plan := receiver.socket.recvPlan;
    NextArrives(encode, decode, file, tail, k);
    WireShrinks(encode, decode, file, k);
    assert |pending| + |left| == |Wire(encode, decode, file, k)| + |tail|;
    result := receiver.ReceiveNextChunk();
    ghost var end := receiver.socket.recvs;
    ReadsOneFrame(plan, mid, end, pending, left);
    ghost var n := Position(plan, mid, end, |left|);
    FrontOf(pending, left, n);
    assert left[..n] == ReadUpTo(plan, mid, end, left);
    if AllMoved(plan, mid, end) {
      TakesFront(pending, left, n);
    }
    HasReadMore(plan, from, mid, end, stream, left, |stream| - |tail|);
  }

  lemma Begins(receiver: ChunkedFileReceiver, encode: Encoder, file: bytes, tail: bytes)
    requires Faithful(encode, receiver.parser.decode) && receiver.Valid()
    requires receiver.fileContents == [] && !receiver.completeFile && receiver.parser.Pending() == []
    requires receiver.socket.stream == Wire(encode, receiver.parser.decode, file, 0) + tail
    ensures HasChunks(receiver, encode, file, tail, 0)
    ensures HasRead(receiver.socket.recvPlan, receiver.socket.recvs, receiver.socket.recvs, receiver.socket.stream,
                    receiver.socket.stream, |receiver.socket.stream| - |tail|)
  {
    assert receiver.Unread() == receiver.socket.stream;
  }

  lemma Completed(receiver: ChunkedFileReceiver, encode: Encoder, file: bytes, tail: bytes, k: nat)
    requires Faithful(encode, receiver.parser.decode) && HasChunks(receiver, encode, file, tail, k)
    ensures receiver.Valid() && k <= |Chunks(file)|
    ensures receiver.completeFile <==> 0 < k == |Chunks(file)|
    ensures receiver.completeFile ==> receiver.fileContents == file
    ensures receiver.completeFile ==> receiver.parser.Pending() + receiver.socket.stream == tail
  {
    ChunksOfFile(file);
    assert Chunks(file)[..|Chunks(file)|] == Chunks(file);
    WireEnds(encode, receiver.parser.decode, file);
  }

  /** Some call of recv() ends where the file ends on the stream. */
  ghost predicate EndsOnBoundary(plan: Plan, from: nat, total: nat, size: nat) {
    exists i: nat :: Position(plan, from, i, total) == size
  }

  /** When all of `size` bytes have been read and no call was made after that, more has been
      read exactly if no call ends there. */
  lemma BoundaryIff(plan: Plan, from: nat, end: nat, stream: bytes, left: bytes, size: nat)
    requires HasRead(plan, from, end, stream, left, size) && 0 < size && |stream| - |left| >= size
    ensures |stream| - |left| == size <==> EndsOnBoundary(plan, from, |stream|, size)
  {
    hide BytesMoved;
    if i: nat :| Position(plan, from, i, |stream|) == size {
      if i >= end {
        BytesMovedGrow(plan, from, end, i, |stream|, CLIENT_BUFFER_SIZE);
      } else if i < from {
        NothingMoved(plan, from, i, |stream|);
      }
    }
  }

  lemma NothingMoved(plan: Plan, from: nat, i: nat, total: nat)
    requires i < from
    ensures Position(plan, from, i, total) == 0
  {
  }

  lemma SuffixKept(pending: bytes, left: bytes, tail: bytes)
    requires pending + left == tail
    ensures left == tail <==> |left| == |tail|
    ensures left == tail[|tail| - |left|..]
  {
  }

  /** The receiving loop, for any number of calls.  It completes if and only if the calls
      suffice for the chunks and for the failed reads in between, after exactly as many
      successes as the file has chunks, and what it hands over is the file that was sent.
      Of the bytes that follow the file all are kept if and only if some read ended exactly
      at the end of the file. */
  method Download(receiver: ChunkedFileReceiver, encode: Encoder, file: bytes, tail: bytes, calls: nat)
    returns (done: bool, contents: bytes, successes: nat)
    requires Faithful(encode, receiver.parser.decode) && receiver.Valid() && file != []
    requires receiver.fileContents == [] && !receiver.completeFile && receiver.parser.Pending() == []
    requires receiver.socket.stream == Wire(encode, receiver.parser.decode, file, 0) + tail
    modifies receiver, receiver.parser, receiver.parser.partialLength, receiver.socket
    ensures receiver.Valid() && old(receiver.socket.recvs) <= receiver.socket.recvs && successes <= |Chunks(file)|
    ensures receiver.socket.sends == old(receiver.socket.sends)
    ensures done <==> calls >= |Chunks(file)|
                               + Failures(receiver.socket.recvPlan, old(receiver.socket.recvs), receiver.socket.recvs)
    ensures done <==> successes == |Chunks(file)|
    ensures !done ==>
      calls == successes + Failures(receiver.socket.recvPlan, old(receiver.socket.recvs), receiver.socket.recvs)
    ensures done ==> contents == file
    ensures done ==>
      && |receiver.socket.stream| <= |tail| && receiver.socket.stream == tail[|tail| - |receiver.socket.stream|..]
      && (receiver.socket.stream == tail <==>
            EndsOnBoundary(receiver.socket.recvPlan, old(receiver.socket.recvs), |old(receiver.socket.stream)|,
                           |old(receiver.socket.stream)| - |tail|))
    ensures !done ==> HasChunks(receiver, encode, file, tail, successes)
  {
    hide Chunks, Wire, FramesOf, HasChunks, HasRead, ChunkedFileReceiver.Valid, MessageParser.Pending, EndsOnBoundary;
    ghost var from, stream, plan := receiver.socket.recvs, receiver.socket.stream, receiver.socket.recvPlan;
    ChunksOfFile(file);
    successes, contents, done := 0, [], false;
    Begins(receiver, encode, file, tail);
    var i := 0;
    while i < calls && !done
      invariant HasChunks(receiver, encode, file, tail, successes) && i <= calls
      invariant successes <= |Chunks(file)| && (done <==> successes == |Chunks(file)|)
      invariant from <= receiver.socket.recvs && receiver.socket.sends == old(receiver.socket.sends)
      invariant HasRead(plan, from, receiver.socket.recvs, stream, receiver.socket.stream, |stream| - |tail|)
      invariant i == successes + Failures(plan, from, receiver.socket.recvs)
    {
      ghost var mid := receiver.socket.recvs;
      var result := ReceiveOne(receiver, encode, file, tail, from, stream, successes);
      FailuresSplit(plan, from, mid, receiver.socket.recvs);
      if result > 0 {
        successes := successes + 1;
      }
      Completed(receiver, encode, file, tail, successes);
      done := receiver.HasCompleteFile();
      i := i + 1;
    }
    Completed(receiver, encode, file, tail, successes);
    if done {
      WireShrinks(encode, receiver.parser.decode, file, 0);
      SuffixKept(receiver.parser.Pending(), receiver.socket.stream, tail);
      BoundaryIff(plan, from, receiver.socket.recvs, stream, receiver.socket.stream, |stream| - |tail|);
      contents := receiver.GetFileContents();
    }
  }

  /** The receiver of an empty file, of which nothing is ever sent, never completes. */
  method DownloadNothing(receiver: ChunkedFileReceiver, calls: nat) returns (done: bool)
    requires receiver.Valid() && !receiver.completeFile
    requires receiver.parser.Pending() == [] && receiver.socket.stream == []
    modifies receiver, receiver.parser, receiver.parser.partialLength, receiver.socket
    ensures !done && receiver.Valid() && receiver.parser.Pending() == [] && receiver.socket.stream == []
    ensures receiver.socket.recvs >= old(receiver.socket.recvs) + calls
    ensures receiver.socket.sends == old(receiver.socket.sends)
  {
    done := false;
    for i := 0 to calls
      invariant receiver.Valid() && !receiver.completeFile
      invariant receiver.parser.Pending() == [] && receiver.socket.stream == []
      invariant receiver.socket.recvs >= old(receiver.socket.recvs) + i
      invariant receiver.socket.sends == old(receiver.socket.sends)
    {
      var _ := receiver.ReceiveNextChunk();
    }
    done := receiver.HasCompleteFile();
  }
}
