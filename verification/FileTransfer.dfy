/** A file from one end of a connection to the other, and two files that do not make it. */
module FileTransfer {
  import opened Basics
  import opened WireFormat
  import opened Sockets
  import opened SendRuns
  import opened ChunkedFiles
  import opened FileUpload
  import opened FileDownload

  /** Both ends on one connection.  When no send() and no recv() fails, a nonempty file
      arrives, whatever parts its bytes are taken and delivered in, as soon as both ends may
      make as many calls as it has chunks.  In general it arrives if and only if no send()
      fails and the receiver's calls also suffice for its failed reads; what arrives is what
      was sent, in one chunk per successful call, and nothing is left over.  An empty file is
      sent at once and never arrives. */
  method Transfer(socket: Socket, encode: Encoder, decode: Decoder, file: bytes, sends: nat, receives: nat)
    returns (sent: bool, received: bool, contents: bytes, chunksSent: nat, chunksReceived: nat)
    requires Faithful(encode, decode) && |file| < UINT32_MODULUS && socket.stream == []
    modifies socket
    ensures old(socket.sends) <= socket.sends && old(socket.recvs) <= socket.recvs
    ensures var n := ChunkCount(|file|);
      && (sent <==> sends >= n && AllMoved(socket.sendPlan, old(socket.sends), socket.sends))
      && (received <==>
            file != [] && sent && receives >= n + Failures(socket.recvPlan, old(socket.recvs), socket.recvs))
      && (received ==> contents == file && chunksSent == chunksReceived == n && socket.stream == [])
    ensures
      && AllMoved(socket.sendPlan, old(socket.sends), socket.sends)
      && AllMoved(socket.recvPlan, old(socket.recvs), socket.recvs)
      && sends >= ChunkCount(|file|) && receives >= ChunkCount(|file|) && file != []
      ==> received
    ensures file == [] ==> sent && !received
  {
    hide Wire, Faithful;
    received, contents, chunksReceived := false, [], 0;
    ghost var recvs := socket.recvs;
    var sender := new ChunkedFileSender(socket, encode);
    sent, chunksSent := Upload(sender, decode, file, sends);
    ChunksOfFile(file);
    assert socket.stream[0..] == socket.stream;
    if sent {
      var receiver := new ChunkedFileReceiver(socket, decode);
      if file != [] {
        assert Wire(encode, decode, file, 0) + [] == socket.stream;
        received, contents, chunksReceived := Download(receiver, encode, file, [], receives);
      } else {
        WireEnds(encode, decode, file);
        var _ := DownloadNothing(receiver, receives);
      }
    }
    FailuresOf(socket.recvPlan, recvs, socket.recvs);
  }

  // ---------- files that do not make it ----------

  /** A message library for the examples: the flag, then the contents. */
  function PlainEncode(c: FileContents): Option<bytes> {
    Some([if c.isLast then 1 else 0] + c.contents)
  }

  function PlainDecode(b: bytes): Option<FileContents> {
    if b == [] then None else Some(FileContents(b[1..], b[0] == 1))
  }

  lemma PlainIsFaithful()
    ensures Faithful(PlainEncode, PlainDecode)
  {
    forall c: FileContents | |c.contents| <= CHUNK_SIZE
      ensures PlainEncode(c).Some? && PlainDecode(PlainEncode(c).value) == Some(c)
      ensures |PlainEncode(c).value| < INT_LIMIT - LENGTH_BYTES
    {
    }
  }

  /** The file of one byte 7: one chunk, in a frame of six bytes. */
  lemma OneByteFile()
    requires Faithful(PlainEncode, PlainDecode)
    ensures FramesOf(PlainEncode, PlainDecode, [7]) == [[0, 0, 0, 2, 1, 7]] && |Chunks([7])| == 1
    ensures Wire(PlainEncode, PlainDecode, [7], 0) == [0, 0, 0, 2, 1, 7]
  {
    var file: bytes := [7];
    var chunk, payload: bytes := FileContents(file, true), [1, 7];
    assert ChunkAt(file, 0) == chunk && |Chunks(file)| == 1 && Chunks(file)[0] == chunk;
    assert PlainEncode(chunk).value == payload;
    assert Htonl(2) == [0, 0, 0, 2];
    var f: bytes := [0, 0, 0, 2, 1, 7];
    assert Frame(payload) == f;
    var frames := FramesOf(PlainEncode, PlainDecode, file);
    assert frames == [f];
    assert frames[0..] == [f] && [f][1..] == [];
    assert Concat([f]) == f + Concat([]);
  }

  /** One byte goes out, the next call times out, and then all is well again. */
  function TearingPlan(i: nat): IoResult {
    if i == 0 then Moved(1) else if i == 1 then TimedOut else Moved(100)
  }

  /** A retried upload that tears a frame: the receiver finds the length 0 where the length 2
      should be, takes an empty message that does not decode, and never sees the file. */
  lemma TornUpload()
    ensures Faithful(PlainEncode, PlainDecode)
    ensures var frames := FramesOf(PlainEncode, PlainDecode, [7]);
      var s := SendRun(frames, TearingPlan, 0, 3);
      && Torn(frames, TearingPlan, 0, 3) && s.frame == |Chunks([7])|
      && s.out == [0, 0, 0, 0, 2, 1, 7] != Wire(PlainEncode, PlainDecode, [7], 0)
      && Frames(s.out) == [[]] && Residue(s.out) == [2, 1, 7] && PlainDecode([]) == None
  {
    PlainIsFaithful();
    OneByteFile();
    var f: bytes := [0, 0, 0, 2, 1, 7];
    var frames, plan := [f], TearingPlan;
    assert SendRun(frames, plan, 0, 0) == Sending(0, 0, []);
    assert SendRun(frames, plan, 0, 1) == Sending(0, 1, [0]);
    assert SendRun(frames, plan, 0, 2) == Sending(0, 0, [0]);
    assert SendRun(frames, plan, 0, 3) == Sending(1, 0, [0] + f);
    assert !plan(1).Moved? && SendRun(frames, plan, 0, 1).offset > 0;
    TornStream([0] + f);
  }

  lemma TornStream(p: bytes)
    requires p == [0, 0, 0, 0, 2, 1, 7]
    ensures Frames(p) == [[]] && Residue(p) == [2, 1, 7]
  {
    assert p[..LENGTH_BYTES] == [0, 0, 0, 0];
    assert HasFrame(p) && FrameSize(p) == LENGTH_BYTES;
    assert Payload(p) == [] && Rest(p) == [2, 1, 7];
    assert !HasFrame(Rest(p));
  }

  /** No read of up to 100 bytes ends where that file ends when a byte follows it. */
  lemma NoReadEndsThere(plan: Plan)
    requires forall i: nat :: plan(i) == Moved(100)
    ensures !EndsOnBoundary(plan, 0, 7, 6)
  {
    forall i: nat ensures Position(plan, 0, i, 7) != 6 {
      assert Position(plan, 0, 0, 7) == 0;
      assert Position(plan, 0, 1, 7) == 7;
      if i >= 1 { BytesMovedGrow(plan, 0, 1, i, 7, CLIENT_BUFFER_SIZE); }
    }
  }

  /** A file of one byte with another byte behind it, received with reads of up to 100 bytes:
      the file arrives, and the byte that follows it is gone. */
  method FollowingByteLost() returns (contents: bytes, left: bytes)
    ensures contents == [7] && left == []
  {
    PlainIsFaithful();
    OneByteFile();
    hide Wire, Chunks, Faithful, EndsOnBoundary, FramesOf;
    var file, tail: bytes := [7], [9];
    var plan: Plan := (_: nat) => Moved(100);
    var socket := new Socket(plan, plan, [0, 0, 0, 2, 1, 7, 9]);
    assert socket.stream == [0, 0, 0, 2, 1, 7] + tail;
    var receiver := new ChunkedFileReceiver(socket, PlainDecode);
    NoReadEndsThere(plan);
    var done;
    var successes;
    done, contents, successes := Download(receiver, PlainEncode, file, tail, 1);
    FailuresOf(plan, 0, socket.recvs);
    left := socket.stream;
  }
}
