/** Sending a file in chunks over a byte stream and putting it together at the other end.
    The message library is a pair of functions; at every call the socket moves as much of
    the data as it likes, or fails. */
module ChunkedFiles {
  import opened Basics
  import opened WireFormat
  import opened MessageParsing
  import opened Sockets

  const CHUNK_SIZE: nat := 1000
  const CLIENT_BUFFER_SIZE: nat := 4096
  const INT_LIMIT: nat := 0x8000_0000

  datatype FileContents = FileContents(contents: bytes, isLast: bool)

  type Encoder = FileContents -> Option<bytes>
  type Decoder = bytes -> Option<FileContents>

  // ---------- the chunks of a file ----------

  function ChunkAt(file: bytes, offset: nat): FileContents
    requires offset <= |file|
  {
    FileContents(file[offset..offset + Min(CHUNK_SIZE, |file| - offset)], offset + CHUNK_SIZE >= |file|)
  }

  function ChunkCount(n: nat): nat { (n + CHUNK_SIZE - 1) / CHUNK_SIZE }

  function Chunks(file: bytes): seq<FileContents> {
    seq(ChunkCount(|file|), i requires 0 <= i < ChunkCount(|file|) => ChunkAt(file, i * CHUNK_SIZE))
  }

  function Joined(cs: seq<FileContents>): bytes {
    if cs == [] then [] else Joined(cs[..|cs| - 1]) + cs[|cs| - 1].contents
  }

  lemma {:induction false} ChunksJoined(file: bytes, k: nat)
    requires k <= |Chunks(file)|
    ensures Joined(Chunks(file)[..k]) == file[..Min(k * CHUNK_SIZE, |file|)]
  {
    if k > 0 {
      ChunksJoined(file, k - 1);
      assert Chunks(file)[..k][..k - 1] == Chunks(file)[..k - 1];
    }
  }

  /** The chunks are the file: as few as possible, none empty, only the last one flagged. */
  lemma ChunksOfFile(file: bytes)
    ensures var cs := Chunks(file);
      && 1000 * |cs| >= |file| > 1000 * (|cs| - 1)
      && Joined(cs) == file
      && forall i :: 0 <= i < |cs| ==>
           && (cs[i].isLast <==> i == |cs| - 1)
           && 0 < |cs[i].contents| <= 1000
           && (!cs[i].isLast ==> |cs[i].contents| == 1000)
  {
    var cs := Chunks(file);
    ChunksJoined(file, |cs|);
    assert cs[..|cs|] == cs;
  }

  // ---------- the bytes they travel as ----------

  /** What is asked of the message library: a chunk can be encoded and comes back. */
  ghost predicate Faithful(encode: Encoder, decode: Decoder) {
    forall c: FileContents :: |c.contents| <= CHUNK_SIZE ==>
      encode(c).Some? && decode(encode(c).value) == Some(c) && |encode(c).value| < INT_LIMIT - LENGTH_BYTES
  }

  /** The frames of a file's chunks, as they go over the connection. */
  ghost function FramesOf(encode: Encoder, decode: Decoder, file: bytes): (frames: seq<bytes>)
    requires Faithful(encode, decode)
    ensures |frames| == |Chunks(file)|
  {
    ChunksOfFile(file);
    seq(|Chunks(file)|, i requires 0 <= i < |Chunks(file)| => Frame(encode(Chunks(file)[i]).value))
  }

  /** The frames from the `k`th on, as one byte string. */
  ghost function Wire(encode: Encoder, decode: Decoder, file: bytes, k: nat): bytes
    requires Faithful(encode, decode) && k <= |Chunks(file)|
  {
    Concat(FramesOf(encode, decode, file)[k..])
  }

  /** The next chunk's frame is in front, and what follows it is the rest of the file. */
  lemma WireStep(encode: Encoder, decode: Decoder, file: bytes, k: nat)
    requires Faithful(encode, decode) && k < |Chunks(file)|
    ensures var c, frame := encode(Chunks(file)[k]), FramesOf(encode, decode, file)[k];
      && c.Some? && |c.value| < INT_LIMIT - LENGTH_BYTES && decode(c.value) == Some(Chunks(file)[k])
      && frame == Frame(c.value) && frame != []
      && Wire(encode, decode, file, k) == frame + Wire(encode, decode, file, k + 1)
  {
    ChunksOfFile(file);
    hide ChunkAt, Chunks, ChunkCount;
    assert |Chunks(file)[k].contents| <= CHUNK_SIZE;
    var frames := FramesOf(encode, decode, file);
    assert frames[k..][1..] == frames[k + 1..];
  }

  lemma WireEnds(encode: Encoder, decode: Decoder, file: bytes)
    requires Faithful(encode, decode)
    ensures Wire(encode, decode, file, |Chunks(file)|) == []
  {
  }

  lemma {:induction false} WireShrinks(encode: Encoder, decode: Decoder, file: bytes, k: nat)
    requires Faithful(encode, decode) && k <= |Chunks(file)|
    ensures |Wire(encode, decode, file, k)| <= |Wire(encode, decode, file, 0)|
    ensures Wire(encode, decode, file, k) == [] <==> k == |Chunks(file)|
  {
    hide Chunks, Wire, FramesOf;
    if k > 0 {
      WireShrinks(encode, decode, file, k - 1);
      WireStep(encode, decode, file, k - 1);
    }
    if k < |Chunks(file)| {
      WireStep(encode, decode, file, k);
    } else {
      WireEnds(encode, decode, file);
    }
  }

  // ---------- the sender ----------

  /** The calls of send() one frame of `size` bytes takes: at least one, all but the last
      moving some bytes but not all, and the last failing or moving the rest. */
  predicate StopsWhenSent(plan: Plan, from: nat, end: nat, size: nat) {
    && from < end && AllMoved(plan, from, end - 1)
    && (forall i: nat :: from <= i < end ==> BytesMoved(plan, from, i, size, size) < size)
    && (plan(end - 1).Moved? <==> BytesMoved(plan, from, end, size, size) == size)
  }

  class ChunkedFileSender {
    const socket: Socket
    const encode: Encoder
    var outgoing: bytes
    var fileContents: bytes
    var totalBytesSent: nat

    predicate Valid()
      reads this
    {
      totalBytesSent <= |fileContents| && totalBytesSent < UINT32_MODULUS
    }

    constructor (socket: Socket, encode: Encoder)
      ensures Valid() && this.socket == socket && this.encode == encode
      ensures fileContents == [] && totalBytesSent == 0
    {
      this.socket, this.encode := socket, encode;
      outgoing, fileContents, totalBytesSent := [], [], 0;
    }

    method SetFileContents(contents: bytes)
      modifies this
      ensures Valid() && fileContents == contents && totalBytesSent == 0
    {
      fileContents := contents;
      totalBytesSent := 0;
    }

    /** The message a call would send now. */
    function NextPayload(): Option<bytes>
      reads this
      requires Valid()
    {
      encode(ChunkAt(fileContents, totalBytesSent))
    }

    /** The loop of SendNextChunk. */
    method SendOutgoing() returns (result: int)
      requires outgoing != []
      modifies socket
      ensures socket.recvs == old(socket.recvs)
      ensures StopsWhenSent(socket.sendPlan, old(socket.sends), socket.sends, |outgoing|)
      ensures var last, n := socket.sendPlan(socket.sends - 1), |outgoing|;
        && socket.stream == old(socket.stream)
             + outgoing[..BytesMoved(socket.sendPlan, old(socket.sends), socket.sends, n, n)]
        && (socket.timedOut <==> last.TimedOut?)
        && result == if last.Moved? then n else Code(last)
    {
      hide BytesMoved;
      ghost var start, n := socket.sends, |outgoing|;
      NoneMoved(socket.sendPlan, start, n, n);
      var messageBytesSent := 0;
      while messageBytesSent < |outgoing|
        invariant 0 <= messageBytesSent <= n && start <= socket.sends && socket.recvs == old(socket.recvs)
        invariant messageBytesSent == BytesMoved(socket.sendPlan, start, socket.sends, n, n)
        invariant AllMoved(socket.sendPlan, start, socket.sends)
        invariant forall i: nat :: start <= i < socket.sends ==> BytesMoved(socket.sendPlan, start, i, n, n) < n
        invariant socket.stream == old(socket.stream) + outgoing[..messageBytesSent]
        invariant socket.sends > start ==> !socket.timedOut
        decreases n - messageBytesSent
      {
        NextMoved(socket.sendPlan, start, socket.sends, n, n);
        var sendResult := socket.Send(outgoing[messageBytesSent..]);
        if sendResult <= 0 {
          return sendResult;
        }
        assert outgoing[..messageBytesSent + sendResult]
            == outgoing[..messageBytesSent] + outgoing[messageBytesSent..][..sendResult];
        messageBytesSent := messageBytesSent + sendResult;
      }
      return messageBytesSent;
    }

    /** The call sends until the frame of the next chunk is out, and stops early only at a
        send() that fails: which of the two it is, what is on the stream then, and the result
        follow from the environment's plan. */
    method SendNextChunk() returns (result: int)
      requires Valid()
      requires NextPayload().Some? ==> |NextPayload().value| < INT_LIMIT - LENGTH_BYTES
      modifies this`outgoing, this`totalBytesSent, socket
      ensures Valid() && socket.recvs == old(socket.recvs)
      ensures old(NextPayload()).None? ==>
        && result == -1 && totalBytesSent == old(totalBytesSent)
        && socket.sends == old(socket.sends) && socket.stream == old(socket.stream)
      ensures old(NextPayload()).Some? ==>
        var frame := Frame(old(NextPayload()).value);
        && StopsWhenSent(socket.sendPlan, old(socket.sends), socket.sends, |frame|)
        && socket.stream == old(socket.stream)
             + frame[..BytesMoved(socket.sendPlan, old(socket.sends), socket.sends, |frame|, |frame|)]
        && var last := socket.sendPlan(socket.sends - 1);
           && (socket.timedOut <==> last.TimedOut?)
           && (if last.Moved? then
                 && result == |frame|
                 && totalBytesSent == U32(old(totalBytesSent) + |ChunkAt(fileContents, old(totalBytesSent)).contents|)
               else result == Code(last) && totalBytesSent == old(totalBytesSent))
    {
      hide StopsWhenSent, BytesMoved;
      var actualSize := Min(CHUNK_SIZE, |fileContents| - totalBytesSent);
      var message := FileContents(fileContents[totalBytesSent..totalBytesSent + actualSize],
                                  totalBytesSent + CHUNK_SIZE >= |fileContents|);
      assert message == ChunkAt(fileContents, totalBytesSent);
      var ok;
      ok, outgoing := Serialize(message, encode);
      if !ok {
        return -1;
      }
      result := SendOutgoing();
      if result > 0 {
        totalBytesSent := U32(totalBytesSent + actualSize);
      }
    }

    /** The 32-bit counter never reaches the size of a file of 4 GiB or more. */
    method SentCompleteFile() returns (complete: bool)
      requires Valid()
      ensures complete <==> totalBytesSent == |fileContents|
      ensures |fileContents| >= 0x1_0000_0000 ==> !complete
    {
      complete := totalBytesSent == |fileContents|;
    }
  }

  // ---------- the receiver ----------

  /** The calls of recv() one message takes when `pending` is there and `stream` is coming:
      none if the message is there; else as long as it is not, up to the first call that
      fails or finds the stream at its end. */
  ghost predicate StopsWhenRead(plan: Plan, from: nat, end: nat, pending: bytes, stream: bytes) {
    && from <= end && (forall i: nat :: from <= i < end - 1 ==> plan(i).Moved?)
    && (forall i: nat :: from <= i < end ==> !HasFrame(pending + ReadUpTo(plan, from, i, stream)))
    && if HasFrame(pending + ReadUpTo(plan, from, end, stream)) then AllMoved(plan, from, end)
       else from < end && (plan(end - 1).Moved? ==> ReadUpTo(plan, from, end, stream) == stream)
  }

  /** What the calls of recv() numbered from `from` up to `end` read of `stream`. */
  function ReadUpTo(plan: Plan, from: nat, end: nat, stream: bytes): bytes {
    stream[..BytesMoved(plan, from, end, |stream|, CLIENT_BUFFER_SIZE)]
  }

  /** A read takes what recv() has, but never more than 4096 bytes. */
  lemma ReadSize(plan: Plan, from: nat, i: nat, stream: bytes)
    requires from <= i
    ensures var was, now := ReadUpTo(plan, from, i, stream), ReadUpTo(plan, from, i + 1, stream);
      && was <= now && |now| - |was| <= 4096
      && (plan(i).Moved? && plan(i).n >= 4096 && |stream| - |was| >= 4096 ==> |now| - |was| == 4096)
      && (plan(i).Moved? && |was| < |stream| ==> |now| > |was|)
      && (!plan(i).Moved? ==> now == was)
  {
    NextMoved(plan, from, i, |stream|, CLIENT_BUFFER_SIZE);
  }

  class ChunkedFileReceiver {
    const socket: Socket
    const parser: MessageParser<FileContents>
    var fileContents: bytes
    var completeFile: bool

    ghost predicate Valid()
      reads this, parser, parser.partialLength
    {
      parser.Valid()
    }

    /** All bytes that are still to be looked at: those the parser holds, then the stream. */
    ghost function Unread(): bytes
      reads this, parser, parser.partialLength, socket
      requires Valid()
    {
      parser.Pending() + socket.stream
    }

    constructor (socket: Socket, decode: Decoder)
      ensures Valid() && this.socket == socket && parser.decode == decode
      ensures fresh(parser) && fresh(parser.partialLength)
      ensures fileContents == [] && !completeFile && parser.Pending() == []
    {
      this.socket := socket;
      parser := new MessageParser(decode);
      fileContents, completeFile := [], false;
    }

    /** The loop of ReceiveNextChunk: reads until a message is complete. */
    method ReadMessage() returns (complete: bool, result: int)
      requires Valid()
      modifies parser, parser.partialLength, socket
      ensures Valid() && socket.sends == old(socket.sends)
      ensures StopsWhenRead(socket.recvPlan, old(socket.recvs), socket.recvs,
                            old(parser.Pending()), old(socket.stream))
      ensures var data := ReadUpTo(socket.recvPlan, old(socket.recvs), socket.recvs, old(socket.stream));
        && parser.Pending() == old(parser.Pending()) + data && old(socket.stream) == data + socket.stream
      ensures complete <==> HasFrame(parser.Pending())
      ensures !complete ==>
        var last := socket.recvPlan(socket.recvs - 1);
        result == if last.Moved? then 0 else Code(last)
    {
      hide HasFrame, BytesMoved, MessageParser.Valid, MessageParser.Pending;
      ghost var start, pending, stream := socket.recvs, parser.Pending(), socket.stream;
      ghost var plan := socket.recvPlan;
      complete := parser.HasCompleteMessage();
      result := 0;
      assert pending + [] == pending;
      NoneMoved(plan, start, |stream|, CLIENT_BUFFER_SIZE);
      while !complete
        invariant Valid() && start <= socket.recvs && socket.sends == old(socket.sends)
        invariant complete <==> HasFrame(parser.Pending())
        invariant AllMoved(plan, start, socket.recvs)
        invariant forall i: nat :: start <= i < socket.recvs ==> !HasFrame(pending + ReadUpTo(plan, start, i, stream))
        invariant parser.Pending() == pending + ReadUpTo(plan, start, socket.recvs, stream)
        invariant socket.stream == stream[BytesMoved(plan, start, socket.recvs, |stream|, CLIENT_BUFFER_SIZE)..]
        decreases |socket.stream|, !complete
      {
        ghost var before := ReadUpTo(plan, start, socket.recvs, stream);
        NextMoved(plan, start, socket.recvs, |stream|, CLIENT_BUFFER_SIZE);
        var bytesRead, buffer := socket.Recv(CLIENT_BUFFER_SIZE);
        if bytesRead <= 0 {
          return false, bytesRead;
        }
        assert before + buffer == ReadUpTo(plan, start, socket.recvs, stream);
        parser.FitsSplit(buffer);
        parser.AddNewData(buffer);
        complete := parser.HasCompleteMessage();
      }
    }

    /** Whether the call takes a message, which one, and what it leaves, follows from the
        bytes pending, the stream and the environment's plan. */
    method ReceiveNextChunk() returns (result: int)
      requires Valid()
      modifies this, parser, parser.partialLength, socket
      ensures Valid() && socket.sends == old(socket.sends)
      ensures StopsWhenRead(socket.recvPlan, old(socket.recvs), socket.recvs,
                            old(parser.Pending()), old(socket.stream))
      ensures var data := ReadUpTo(socket.recvPlan, old(socket.recvs), socket.recvs, old(socket.stream));
        var pending := old(parser.Pending()) + data;
        && old(socket.stream) == data + socket.stream
        && if HasFrame(pending) then
             && parser.Pending() == Rest(pending)
             && match parser.decode(Payload(pending))
                case Some(m) =>
                  && result == |m.contents| && fileContents == old(fileContents) + m.contents
                  && completeFile == (old(completeFile) || m.isLast)
                case None =>
                  result == -1 && fileContents == old(fileContents) && completeFile == old(completeFile)
           else
             && parser.Pending() == pending
             && result == (var last := socket.recvPlan(socket.recvs - 1); if last.Moved? then 0 else Code(last))
             && fileContents == old(fileContents) && completeFile == old(completeFile)
    {
      hide HasFrame, Rest, Payload, StopsWhenRead, ReadUpTo, MessageParser.Valid, MessageParser.Pending;
      var complete;
      complete, result := ReadMessage();
      if !complete {
        return;
      }
      var message := parser.GetMessage();
      if message.None? {
        return -1;
      }
      fileContents := fileContents + message.value.contents;
      if message.value.isLast {
        completeFile := true;
      }
      return |message.value.contents|;
    }

    method HasCompleteFile() returns (complete: bool)
      ensures complete == completeFile
    {
      complete := completeFile;
    }

    /** Hands over the file.  What follows the file is kept if and only if nothing of it had
        been read along with it, which HasPartialMessage tells before the call. */
    method GetFileContents() returns (contents: bytes)
      requires Valid()
      modifies this, parser
      ensures Valid() && contents == old(fileContents) && fileContents == [] && !completeFile
      ensures parser.Pending() == [] && Unread() == socket.stream
      ensures Unread() == old(Unread()) <==> old(parser.Pending()) == []
    {
      contents := fileContents;
      Reset();
      assert |old(Unread())| == |old(parser.Pending())| + |socket.stream|;
    }

    method Reset()
      requires Valid()
      modifies this, parser
      ensures Valid() && fileContents == [] && !completeFile && parser.Pending() == []
      ensures Unread() == socket.stream
    {
      parser.ResetParser();
      fileContents := [];
      completeFile := false;
    }
  }
}
