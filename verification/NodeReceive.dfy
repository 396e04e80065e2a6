/** Node::DoReceive: builds one message from a queue of chunks that may come from many
    endpoints, and keeps what it read too much of for the next call. */
module NodeReceive {
  import opened Basics
  import opened WireFormat
  import opened MessageParsing

  datatype Endpoint = Endpoint(hostname: string, port: nat)

  /** What one recv() delivered; a status that is not positive reports a failed peer. */
  datatype Chunk = Chunk(message: bytes, endpoint: Endpoint, status: int)

  /** Sizes are passed through an int, so a chunk is smaller than 2 GiB. */
  const CHUNK_LIMIT := 0x8000_0000

  predicate ChunksFit(cs: seq<Chunk>) {
    forall i :: 0 <= i < |cs| ==> |cs[i].message| < CHUNK_LIMIT
  }

  // ---------- chunk sequences, endpoint by endpoint ----------

  /** The bytes of one endpoint, in order. */
  function BytesFrom(e: Endpoint, cs: seq<Chunk>): bytes {
    if cs == [] then [] else
      var last := cs[|cs| - 1];
      BytesFrom(e, cs[..|cs| - 1]) + if last.endpoint == e then last.message else []
  }

  /** The chunks of all other endpoints, in order. */
  function Others(e: Endpoint, cs: seq<Chunk>): (others: seq<Chunk>)
    ensures ChunksFit(cs) ==> ChunksFit(others)
  {
    if cs == [] then [] else
      var last := cs[|cs| - 1];
      Others(e, cs[..|cs| - 1]) + if last.endpoint != e then [last] else []
  }

  predicate AllGood(e: Endpoint, cs: seq<Chunk>) {
    forall i :: 0 <= i < |cs| && cs[i].endpoint == e ==> cs[i].status > 0
  }

  lemma {:induction false} BytesFromConcat(e: Endpoint, a: seq<Chunk>, b: seq<Chunk>)
    ensures BytesFrom(e, a + b) == BytesFrom(e, a) + BytesFrom(e, b)
    decreases |b|
  {
    if b == [] {
      assert a + b == a;
    } else {
      BytesFromConcat(e, a, b[..|b| - 1]);
      assert (a + b)[..|a + b| - 1] == a + b[..|b| - 1];
    }
  }

  lemma {:induction false} BytesFromOthers(e: Endpoint, r: Endpoint, cs: seq<Chunk>)
    ensures BytesFrom(e, Others(r, cs)) == if e == r then [] else BytesFrom(e, cs)
  {
    if cs != [] {
      BytesFromOthers(e, r, cs[..|cs| - 1]);
      BytesFromConcat(e, Others(r, cs[..|cs| - 1]), if cs[|cs| - 1].endpoint != r then [cs[|cs| - 1]] else []);
    }
  }

  /** Putting aside is done chunk by chunk, in order, and each chunk is kept as it is. */
  lemma {:induction false} OthersConcat(r: Endpoint, a: seq<Chunk>, b: seq<Chunk>)
    ensures Others(r, a + b) == Others(r, a) + Others(r, b)
    decreases |b|
  {
    if b == [] {
      assert a + b == a;
    } else {
      OthersConcat(r, a, b[..|b| - 1]);
      assert (a + b)[..|a + b| - 1] == a + b[..|b| - 1];
    }
  }

  lemma OthersOfOne(r: Endpoint, c: Chunk)
    ensures Others(r, []) == [] && Others(r, [c]) == if c.endpoint == r then [] else [c]
  {
    assert [c][..0] == [];
  }

  lemma BytesFromPrefix(e: Endpoint, cs: seq<Chunk>, m: nat, n: nat)
    requires m <= n <= |cs|
    ensures BytesFrom(e, cs[..n]) == BytesFrom(e, cs[..m]) + BytesFrom(e, cs[m..n])
  {
    assert cs[..n] == cs[..m] + cs[m..n];
    BytesFromConcat(e, cs[..m], cs[m..n]);
  }

  // ---------- what one call does ----------

  datatype Outcome<+M> =
    | NotConnected
    | TimedOut
    | PeerFailed
    | Received(source: Endpoint, message: Option<M>)   // None: the payload did not decode

  /** After `n` chunks the call has no complete message and no failed read yet. */
  ghost predicate StillReading(input: seq<Chunk>, n: nat) {
    n <= |input| &&
    (n > 0 ==>
       var r := input[0].endpoint;
       AllGood(r, input[..n]) && !HasFrame(BytesFrom(r, input[..n])))
  }

  /** The `n`th chunk completes the first message of the first chunk's endpoint. */
  ghost predicate Completes(input: seq<Chunk>, n: nat) {
    && 0 < n <= |input| && StillReading(input, n - 1)
    && var r := input[0].endpoint;
       AllGood(r, input[..n]) && HasFrame(BytesFrom(r, input[..n]))
  }

  ghost predicate Fails(input: seq<Chunk>, n: nat) {
    && 0 < n <= |input| && StillReading(input, n - 1)
    && input[n - 1].endpoint == input[0].endpoint && input[n - 1].status <= 0
  }

  function OverflowChunk(rest: bytes, r: Endpoint): seq<Chunk> {
    if rest == [] then [] else [Chunk(rest, r, |rest|)]
  }

  /** The backlog a successful call leaves: the chunks put aside, then the overflow. */
  ghost function BacklogAfter(input: seq<Chunk>, n: nat): seq<Chunk>
    requires Completes(input, n)
  {
    var r := input[0].endpoint;
    Others(r, input[..n]) + OverflowChunk(Rest(BytesFrom(r, input[..n])), r)
  }

  /** The receive queue is touched only once the entry backlog has run out. */
  function QueueAfter(entry: seq<Chunk>, queue: seq<Chunk>, n: nat): seq<Chunk>
    requires n <= |entry| + |queue|
  {
    if n <= |entry| then queue else queue[n - |entry|..]
  }

  // ---------- the receive loop, on values ----------

  /** The loop's state after `n` chunks: what the parser holds and what was put aside. */
  ghost predicate Reading(input: seq<Chunk>, n: nat, r: Endpoint, pending: bytes, aside: seq<Chunk>) {
    && n <= |input|
    && if n == 0 then pending == [] && aside == [] else
         && r == input[0].endpoint && AllGood(r, input[..n])
         && pending == BytesFrom(r, input[..n]) && aside == Others(r, input[..n])
  }

  /** Where the `n`th chunk comes from. */
  ghost predicate Position(entry: seq<Chunk>, queue: seq<Chunk>, n: nat,
                           unProcessed: seq<Chunk>, receiveQueue: seq<Chunk>)
  {
    && n <= |entry| + |queue|
    && unProcessed == (if n <= |entry| then entry[n..] else [])
    && receiveQueue == QueueAfter(entry, queue, n)
  }

  lemma ReadOther(input: seq<Chunk>, n: nat, r: Endpoint, pending: bytes, aside: seq<Chunk>)
    requires Reading(input, n, r, pending, aside) && 0 < n < |input| && input[n].endpoint != r
    ensures Reading(input, n + 1, r, pending, aside + [input[n]])
  {
    assert input[..n + 1][..n] == input[..n];
  }

  lemma ReadOwn(input: seq<Chunk>, n: nat, r: Endpoint, pending: bytes, aside: seq<Chunk>)
    requires Reading(input, n, r, pending, aside) && n < |input|
    requires input[n].endpoint == r && (n == 0 ==> r == input[0].endpoint) && input[n].status > 0
    ensures Reading(input, n + 1, r, pending + input[n].message, aside)
  {
    assert input[..n + 1][..n] == input[..n];
    assert n == 0 ==> input[..n] == [] && pending + input[n].message == input[n].message;
  }

  lemma AsideAfterFailure(input: seq<Chunk>, n: nat, r: Endpoint, pending: bytes, aside: seq<Chunk>)
    requires 0 < n <= |input| && Reading(input, n - 1, r, pending, aside) && StillReading(input, n - 1)
    requires input[n - 1].endpoint == r == input[0].endpoint && input[n - 1].status <= 0
    ensures Fails(input, n) && aside == Others(r, input[..n])
  {
    assert input[..n][..n - 1] == input[..n - 1];
  }

  lemma LoopStart(entry: seq<Chunk>, queue: seq<Chunk>, r: Endpoint)
    ensures Position(entry, queue, 0, entry, queue) && queue == QueueAfter(entry, queue, 0)
    ensures Reading(entry + queue, 0, r, [], [])
    ensures StillReading(entry + queue, 0) && !HasFrame([])
  {
  }

  lemma AnyEndpoint(input: seq<Chunk>, r: Endpoint, r': Endpoint, pending: bytes, aside: seq<Chunk>)
    requires Reading(input, 0, r, pending, aside)
    ensures Reading(input, 0, r', pending, aside)
  {
  }

  lemma ReadingOutcome(input: seq<Chunk>, n: nat, r: Endpoint, pending: bytes, aside: seq<Chunk>)
    requires Reading(input, n, r, pending, aside) && n > 0 && StillReading(input, n - 1)
    ensures if HasFrame(pending) then Completes(input, n) else StillReading(input, n)
  {
  }

  lemma AsideAfterTimeout(input: seq<Chunk>, r: Endpoint, pending: bytes, aside: seq<Chunk>)
    requires Reading(input, |input|, r, pending, aside)
    ensures aside == if input == [] then [] else Others(input[0].endpoint, input)
  {
    assert input[..|input|] == input;
  }

  lemma AsideAfterMessage(input: seq<Chunk>, n: nat, r: Endpoint, pending: bytes, aside: seq<Chunk>)
    requires Reading(input, n, r, pending, aside) && Completes(input, n)
    ensures HasFrame(pending) && pending == BytesFrom(r, input[..n])
    ensures BacklogAfter(input, n) ==
      if Rest(pending) == [] then aside else aside + [Chunk(Rest(pending), r, |Rest(pending)|)]
  {
  }

  lemma OverflowFromLastChunk(before: bytes, last: bytes)
    requires !HasFrame(before) && HasFrame(before + last)
    ensures |Rest(before + last)| <= |last|
  {
    if |before| >= LENGTH_BYTES {
      assert (before + last)[..LENGTH_BYTES] == before[..LENGTH_BYTES];
    }
  }

  class Node<M> {
    const decode: bytes -> Option<M>
    var unProcessedMessages: seq<Chunk>
    /** The chunks that popping the receive queue will deliver before it times out. */
    var receiveQueue: seq<Chunk>

    constructor (decode: bytes -> Option<M>)
      ensures this.decode == decode && unProcessedMessages == [] && receiveQueue == []
    {
      this.decode := decode;
      unProcessedMessages, receiveQueue := [], [];
    }

    /** The next chunk: from the local backlog if it has one, else from the queue. */
    method NextResponse(unProcessed: seq<Chunk>, ghost entry: seq<Chunk>, ghost queue: seq<Chunk>, ghost n: nat)
      returns (response: Option<Chunk>, rest: seq<Chunk>)
      requires ChunksFit(entry) && ChunksFit(queue) && Position(entry, queue, n, unProcessed, receiveQueue)
      modifies this`receiveQueue
      ensures response.None? ==> n == |entry + queue| && receiveQueue == old(receiveQueue)
      ensures response.Some? ==>
        && n < |entry + queue| && response.value == (entry + queue)[n] && |response.value.message| < CHUNK_LIMIT
        && Position(entry, queue, n + 1, rest, receiveQueue)
        && receiveQueue == QueueAfter(entry, queue, n + 1) && ChunksFit(receiveQueue)
    {
      if unProcessed != [] {
        return Some(unProcessed[0]), unProcessed[1..];
      }
      if receiveQueue == [] {
        return None, [];
      }
      response, rest := Some(receiveQueue[0]), [];
      receiveQueue := receiveQueue[1..];
    }

    /** One round of the loop, once a chunk is in hand; `first` tells that it is the first. */
    method ProcessChunk(parser: MessageParser<M>, chunk: Chunk, first: bool, reading: Endpoint,
                        ghost input: seq<Chunk>, ghost n: nat)
      returns (complete: bool, failed: bool, endpoint: Endpoint)
      requires parser.Valid() && ChunksFit(unProcessedMessages)
      requires n < |input| && chunk == input[n] && |chunk.message| < CHUNK_LIMIT
      requires (first <==> n == 0) && (n > 0 ==> reading == input[0].endpoint)
      requires Reading(input, n, reading, parser.Pending(), unProcessedMessages) && StillReading(input, n)
      requires !HasFrame(parser.Pending())
      modifies this`unProcessedMessages, parser, parser.partialLength
      ensures parser.Valid() && ChunksFit(unProcessedMessages) && endpoint == input[0].endpoint
      ensures failed ==> Fails(input, n + 1) && unProcessedMessages == Others(endpoint, input[..n + 1])
      ensures !failed ==> Reading(input, n + 1, endpoint, parser.Pending(), unProcessedMessages)
      ensures !failed ==> complete == HasFrame(parser.Pending())
      ensures !failed ==> if complete then Completes(input, n + 1) && |Rest(parser.Pending())| < CHUNK_LIMIT
                          else StillReading(input, n + 1)
    {
      hide BytesFrom, Others, AllGood, Reading, Position, Completes, StillReading, Fails, BacklogAfter, QueueAfter;
      hide MessageParser.Valid, MessageParser.Pending, HasFrame, Rest, Payload;
      ghost var before := parser.Pending();
      endpoint := reading;
      complete, failed := false, false;
      if first {
        endpoint := chunk.endpoint;
        AnyEndpoint(input, reading, endpoint, before, unProcessedMessages);
      } else if chunk.endpoint != reading {
        ReadOther(input, n, reading, before, unProcessedMessages);
        unProcessedMessages := unProcessedMessages + [chunk];
        ReadingOutcome(input, n + 1, reading, before, unProcessedMessages);
        return;
      }
      if chunk.status <= 0 {
        AsideAfterFailure(input, n + 1, endpoint, before, unProcessedMessages);
        failed := true;
        return;
      }
      ReadOwn(input, n, endpoint, before, unProcessedMessages);
      parser.FitsSplit(chunk.message);
      parser.AddNewData(chunk.message);
      complete := parser.HasCompleteMessage();
      if complete {
        OverflowFromLastChunk(before, chunk.message);
      }
      ReadingOutcome(input, n + 1, endpoint, parser.Pending(), unProcessedMessages);
    }

    method DoReceive(connected: bool) returns (outcome: Outcome<M>, ghost n: nat)
      requires ChunksFit(unProcessedMessages) && ChunksFit(receiveQueue)
      modifies this
      ensures ChunksFit(unProcessedMessages) && ChunksFit(receiveQueue)
      ensures n <= |old(unProcessedMessages)| + |old(receiveQueue)|
      ensures receiveQueue == QueueAfter(old(unProcessedMessages), old(receiveQueue), n)
      ensures outcome.NotConnected? <==> !connected
      ensures var input := old(unProcessedMessages) + old(receiveQueue);
        match outcome
        case NotConnected => n == 0 && unProcessedMessages == old(unProcessedMessages)
        case TimedOut =>
          && n == |input| && StillReading(input, n)
          && unProcessedMessages == if input == [] then [] else Others(input[0].endpoint, input)
        case PeerFailed =>
          Fails(input, n) && unProcessedMessages == Others(input[0].endpoint, input[..n])
        case Received(source, message) =>
          && Completes(input, n) && source == input[0].endpoint
          && message == decode(Payload(BytesFrom(source, input[..n])))
          && unProcessedMessages == BacklogAfter(input, n)
    {
      hide BytesFrom, Others, AllGood, Reading, Position, Completes, StillReading, Fails, BacklogAfter, QueueAfter;
      hide MessageParser.Valid, MessageParser.Pending, HasFrame, Rest, Payload;
      n := 0;
      ghost var entry, queue := unProcessedMessages, receiveQueue;
      ghost var input := entry + queue;
      var readingEndpoint := Endpoint("", 0);
      LoopStart(entry, queue, readingEndpoint);
      if !connected {
        return NotConnected, 0;
      }
      var parser := new MessageParser<M>(decode);
      var unProcessed := unProcessedMessages;
      unProcessedMessages := [];
      var setReadingEndpoint := false;

      var complete := parser.HasCompleteMessage();
      while !complete
        invariant parser.Valid() && fresh(parser) && fresh(parser.partialLength) && parser.decode == decode
        invariant n <= |input| && (setReadingEndpoint <==> n > 0) && (n > 0 ==> readingEndpoint == input[0].endpoint)
        invariant Position(entry, queue, n, unProcessed, receiveQueue) && receiveQueue == QueueAfter(entry, queue, n)
        invariant Reading(input, n, readingEndpoint, parser.Pending(), unProcessedMessages)
        invariant ChunksFit(unProcessedMessages) && ChunksFit(receiveQueue)
        invariant complete == HasFrame(parser.Pending())
        invariant if complete then n > 0 && Completes(input, n) && |Rest(parser.Pending())| < CHUNK_LIMIT
                  else StillReading(input, n)
        decreases |input| - n
      {
        var response;
        response, unProcessed := NextResponse(unProcessed, entry, queue, n);
        if response.None? {
          AsideAfterTimeout(input, readingEndpoint, parser.Pending(), unProcessedMessages);
          return TimedOut, n;
        }
        var failed;
        complete, failed, readingEndpoint :=
          ProcessChunk(parser, response.value, !setReadingEndpoint, readingEndpoint, input, n);
        setReadingEndpoint := true;
        n := n + 1;
        if failed {
          return PeerFailed, n;
        }
      }

      AsideAfterMessage(input, n, readingEndpoint, parser.Pending(), unProcessedMessages);
      var overflow := parser.GetOverflow();
      assert overflow == Rest(parser.Pending());
      if overflow != [] {
        unProcessedMessages := unProcessedMessages + [Chunk(overflow, readingEndpoint, |overflow|)];
      }
      assert unProcessedMessages == BacklogAfter(input, n);
      var message := parser.GetMessage();
      return Received(readingEndpoint, message), n;
    }
  }
}
