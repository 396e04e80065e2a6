/** What DoReceive guarantees: with many peers no endpoint's bytes are mixed up, and exactly
    when none are lost; with one peer the messages are the frames of its byte stream. */
module ReceiveTheorems {
  import opened Basics
  import opened WireFormat
  import opened ParserRuns
  import opened NodeReceive

  // ---------- many peers ----------

  /** The part of the entry backlog that a call reading `n` chunks looks at. */
  function Kept(entry: seq<Chunk>, n: nat): seq<Chunk> {
    if n <= |entry| then entry[..n] else entry
  }

  /** From the bytes `before` of endpoint `e`, a call that returned `payload` from `source`
      takes exactly that frame if `e` is the source, and nothing otherwise. */
  predicate TakesFrame(e: Endpoint, source: Endpoint, payload: bytes, before: bytes, after: bytes) {
    if e == source then HasFrame(before) && Payload(before) == payload && Rest(before) == after
    else before == after
  }

  /** The bytes of `e` after a successful call: the new backlog, then the rest of the queue. */
  ghost function BytesAfter(e: Endpoint, entry: seq<Chunk>, queue: seq<Chunk>, n: nat): bytes
    requires Completes(entry + queue, n)
  {
    BytesFrom(e, BacklogAfter(entry + queue, n) + QueueAfter(entry, queue, n))
  }

  ghost function PayloadRead(input: seq<Chunk>, n: nat): bytes
    requires Completes(input, n)
  {
    Payload(BytesFrom(input[0].endpoint, input[..n]))
  }

  lemma InputSplit(entry: seq<Chunk>, queue: seq<Chunk>, n: nat)
    requires n <= |entry| + |queue|
    ensures Kept(entry, n) + queue == (entry + queue)[..n] + QueueAfter(entry, queue, n)
  {
  }

  lemma OverflowBytes(e: Endpoint, r: Endpoint, rest: bytes)
    ensures BytesFrom(e, OverflowChunk(rest, r)) == if e == r then rest else []
  {
    OneChunk(e, Chunk(rest, r, |rest|));
  }

  lemma OneChunk(e: Endpoint, c: Chunk)
    ensures BytesFrom(e, [c]) == if c.endpoint == e then c.message else []
  {
    assert [c][..0] == [];
  }

  /** Endpoint isolation: of the bytes the call looked at, the message is one frame of one
      endpoint, and every endpoint keeps all its other bytes, in order. */
  lemma Isolation(entry: seq<Chunk>, queue: seq<Chunk>, n: nat, e: Endpoint)
    requires Completes(entry + queue, n)
    ensures TakesFrame(e, (entry + queue)[0].endpoint, PayloadRead(entry + queue, n),
                       BytesFrom(e, Kept(entry, n) + queue), BytesAfter(e, entry, queue, n))
  {
    hide BytesFrom, Others, HasFrame, Payload, Rest, QueueAfter, Kept;
    var input := entry + queue;
    var r, q := input[0].endpoint, QueueAfter(entry, queue, n);
    var own := BytesFrom(r, input[..n]);
    var overflow := OverflowChunk(Rest(own), r);
    InputSplit(entry, queue, n);
    BytesFromConcat(e, input[..n], q);
    BytesFromConcat(e, Others(r, input[..n]) + overflow, q);
    BytesFromConcat(e, Others(r, input[..n]), overflow);
    BytesFromOthers(e, r, input[..n]);
    OverflowBytes(e, r, Rest(own));
    if e == r {
      FrameStable(own, BytesFrom(r, q));
    }
  }

  /** What a successful call leaves as backlog: every chunk it looked at that came from another
      endpoint, unchanged and in order, and behind them, if there is any, the overflow. */
  lemma BacklogOrder(input: seq<Chunk>, n: nat, i: nat, j: nat)
    requires Completes(input, n) && i < j < n
    requires input[i].endpoint != input[0].endpoint && input[j].endpoint != input[0].endpoint
    ensures var r, rest := input[0].endpoint, Rest(BytesFrom(input[0].endpoint, input[..n]));
      exists before: seq<Chunk>, between: seq<Chunk>, after: seq<Chunk> ::
        BacklogAfter(input, n) == before + [input[i]] + between + [input[j]] + after
            + (if rest == [] then [] else [Chunk(rest, r, |rest|)])
  {
    hide BytesFrom, HasFrame, Rest, Others, StillReading;
    var r := input[0].endpoint;
    var a, b, c := input[..i], input[i + 1..j], input[j + 1..n];
    assert input[..n] == (((a + [input[i]]) + b) + [input[j]]) + c;
    OthersConcat(r, ((a + [input[i]]) + b) + [input[j]], c);
    OthersConcat(r, (a + [input[i]]) + b, [input[j]]);
    OthersConcat(r, a + [input[i]], b);
    OthersConcat(r, a, [input[i]]);
    OthersOfOne(r, input[i]);
    OthersOfOne(r, input[j]);
    assert BacklogAfter(input, n) == Others(r, a) + [input[i]] + Others(r, b) + [input[j]] + Others(r, c)
        + OverflowChunk(Rest(BytesFrom(r, input[..n])), r);
  }

  /** The bytes that are missing after the call are those of the undrained entry backlog. */
  lemma MissingBytes(entry: seq<Chunk>, queue: seq<Chunk>, n: nat, e: Endpoint)
    requires n <= |entry|
    ensures BytesFrom(e, entry + queue) == BytesFrom(e, entry[..n]) + BytesFrom(e, entry[n..]) + BytesFrom(e, queue)
    ensures BytesFrom(e, Kept(entry, n) + queue) == BytesFrom(e, entry[..n]) + BytesFrom(e, queue)
  {
    BytesFromConcat(e, entry, queue);
    BytesFromConcat(e, entry[..n], entry[n..]);
    assert entry == entry[..n] + entry[n..];
    BytesFromConcat(e, entry[..n], queue);
  }

  /** The call conserves endpoint `e`: relative to all bytes pending before the call. */
  ghost predicate Conserves(e: Endpoint, entry: seq<Chunk>, queue: seq<Chunk>, n: nat)
    requires Completes(entry + queue, n)
  {
    TakesFrame(e, (entry + queue)[0].endpoint, PayloadRead(entry + queue, n),
               BytesFrom(e, entry + queue), BytesAfter(e, entry, queue, n))
  }

  /** The chunks of the backlog before the `k`th already hold a complete message of the
      endpoint that comes first; a caller can test this before the call. */
  predicate CompleteBefore(entry: seq<Chunk>, k: nat) {
    0 < k < |entry| && HasFrame(BytesFrom(entry[0].endpoint, entry[..k]))
  }

  /** These are the chunks of the backlog that the call does not get to. */
  lemma UndrainedChunks(entry: seq<Chunk>, queue: seq<Chunk>, n: nat, k: nat)
    requires Completes(entry + queue, n) && k < |entry|
    ensures n <= k <==> CompleteBefore(entry, k)
  {
    hide HasFrame;
    var input := entry + queue;
    var r := entry[0].endpoint;
    assert entry[..k] == input[..k];
    if n <= k {
      BytesFromPrefix(r, input, n, k);
      FrameStable(BytesFrom(r, input[..n]), BytesFrom(r, input[n..k]));
    } else if CompleteBefore(entry, k) {
      BytesFromPrefix(r, input, k, n - 1);
      FrameStable(BytesFrom(r, input[..k]), BytesFrom(r, input[k..n - 1]));
    }
  }

  /** A call loses no bytes of any endpoint if and only if no chunk with bytes follows, in the
      entry backlog, chunks that already hold a message of the first endpoint. */
  lemma ConservedExactlyWhen(entry: seq<Chunk>, queue: seq<Chunk>, n: nat)
    requires Completes(entry + queue, n)
    ensures (forall e :: Conserves(e, entry, queue, n)) <==>
      !exists k: nat :: CompleteBefore(entry, k) && entry[k].message != []
  {
    hide BytesFrom, Others, HasFrame, Payload, Rest, QueueAfter, Completes, BacklogAfter, CompleteBefore, TakesFrame;
    if k: nat :| k < |entry| && CompleteBefore(entry, k) && entry[k].message != [] {
      UndrainedChunks(entry, queue, n, k);
      var e := entry[k].endpoint;
      Isolation(entry, queue, n, e);
      MissingBytes(entry, queue, n, e);
      LostBytes(e, entry, n, k);
      LongerLeavesMore(e, (entry + queue)[0].endpoint, PayloadRead(entry + queue, n),
                       BytesFrom(e, entry + queue), BytesFrom(e, Kept(entry, n) + queue),
                       BytesAfter(e, entry, queue, n));
      assert !Conserves(e, entry, queue, n);
    } else {
      InRange(entry);
      forall e ensures Conserves(e, entry, queue, n) {
        Isolation(entry, queue, n, e);
        if n < |entry| {
          MissingBytes(entry, queue, n, e);
          forall k | n <= k < |entry| ensures entry[k].message == [] { UndrainedChunks(entry, queue, n, k); }
          NothingLost(e, entry[n..]);
          assert BytesFrom(e, entry + queue) == BytesFrom(e, Kept(entry, n) + queue);
        } else {
          assert Kept(entry, n) == entry;
        }
      }
    }
  }

  lemma InRange(entry: seq<Chunk>)
    ensures forall k: nat :: CompleteBefore(entry, k) ==> k < |entry|
  {
  }

  lemma {:induction false} NothingLost(e: Endpoint, cs: seq<Chunk>)
    requires forall i :: 0 <= i < |cs| ==> cs[i].message == []
    ensures BytesFrom(e, cs) == []
  {
    if cs != [] { NothingLost(e, cs[..|cs| - 1]); }
  }

  /** The notices of endpoint `e` that its connection failed or was closed. */
  function Notices(e: Endpoint, cs: seq<Chunk>): nat {
    if cs == [] then 0 else
      var last := cs[|cs| - 1];
      Notices(e, cs[..|cs| - 1]) + if last.endpoint == e && last.status <= 0 then 1 else 0
  }

  lemma {:induction false} NoticesConcat(e: Endpoint, a: seq<Chunk>, b: seq<Chunk>)
    ensures Notices(e, a + b) == Notices(e, a) + Notices(e, b)
    decreases |b|
  {
    if b == [] {
      assert a + b == a;
    } else {
      NoticesConcat(e, a, b[..|b| - 1]);
      assert (a + b)[..|a + b| - 1] == a + b[..|b| - 1];
    }
  }

  lemma {:induction false} NoticesPutAside(e: Endpoint, r: Endpoint, cs: seq<Chunk>)
    requires AllGood(r, cs)
    ensures Notices(e, Others(r, cs)) == Notices(e, cs)
  {
    if cs != [] {
      var last := cs[|cs| - 1];
      NoticesPutAside(e, r, cs[..|cs| - 1]);
      NoticesConcat(e, Others(r, cs[..|cs| - 1]), if last.endpoint != r then [last] else []);
      OneNotice(e, last);
    }
  }

  lemma OneNotice(e: Endpoint, c: Chunk)
    ensures Notices(e, [c]) == if c.endpoint == e && c.status <= 0 then 1 else 0
  {
    assert [c][..0] == [];
  }

  /** After the call the notices are those it looked at and those still in the queue. */
  lemma NoticesAfter(entry: seq<Chunk>, queue: seq<Chunk>, n: nat, e: Endpoint)
    requires Completes(entry + queue, n)
    ensures Notices(e, BacklogAfter(entry + queue, n) + QueueAfter(entry, queue, n))
         == Notices(e, Kept(entry, n)) + Notices(e, queue)
  {
    hide BytesFrom, HasFrame, Rest, Notices, Others, Kept, QueueAfter, StillReading;
    var input := entry + queue;
    var r, q := input[0].endpoint, QueueAfter(entry, queue, n);
    var overflow := OverflowChunk(Rest(BytesFrom(r, input[..n])), r);
    NoNotice(e, Rest(BytesFrom(r, input[..n])), r);
    NoticesConcat(e, Others(r, input[..n]) + overflow, q);
    NoticesConcat(e, Others(r, input[..n]), overflow);
    NoticesPutAside(e, r, input[..n]);
    InputSplit(entry, queue, n);
    NoticesConcat(e, input[..n], q);
    NoticesConcat(e, Kept(entry, n), queue);
  }

  lemma NoNotice(e: Endpoint, rest: bytes, r: Endpoint)
    ensures Notices(e, OverflowChunk(rest, r)) == 0
  {
    OneNotice(e, Chunk(rest, r, |rest|));
  }

  /** The call keeps the notices of endpoint `e`. */
  ghost predicate KeepsNotices(e: Endpoint, entry: seq<Chunk>, queue: seq<Chunk>, n: nat)
    requires Completes(entry + queue, n)
  {
    Notices(e, BacklogAfter(entry + queue, n) + QueueAfter(entry, queue, n)) == Notices(e, entry + queue)
  }

  /** It keeps them exactly if there are none in the part of the backlog it does not get to. */
  lemma KeptUnlessUndrained(e: Endpoint, entry: seq<Chunk>, queue: seq<Chunk>, n: nat)
    requires Completes(entry + queue, n)
    ensures n >= |entry| ==> KeepsNotices(e, entry, queue, n)
    ensures n < |entry| ==> (KeepsNotices(e, entry, queue, n) <==> Notices(e, entry[n..]) == 0)
  {
    hide BytesFrom, Notices, Others, HasFrame, QueueAfter, StillReading, AllGood, BacklogAfter;
    NoticesAfter(entry, queue, n, e);
    NoticesConcat(e, entry, queue);
    if n < |entry| {
      assert entry == entry[..n] + entry[n..] && Kept(entry, n) == entry[..n];
      NoticesConcat(e, entry[..n], entry[n..]);
    } else {
      assert Kept(entry, n) == entry;
    }
  }

  /** The call keeps every notice of a failed peer if and only if none follows, in the entry
      backlog, chunks that already hold a message of the first endpoint. */
  lemma NoticesConservedExactlyWhen(entry: seq<Chunk>, queue: seq<Chunk>, n: nat)
    requires Completes(entry + queue, n)
    ensures (forall e :: KeepsNotices(e, entry, queue, n))
      <==> !exists k: nat :: CompleteBefore(entry, k) && entry[k].status <= 0
  {
    hide KeepsNotices, Completes, CompleteBefore, Notices;
    InRange(entry);
    if k: nat :| CompleteBefore(entry, k) && entry[k].status <= 0 {
      UndrainedChunks(entry, queue, n, k);
      NoticeLost(entry, n, k);
      KeptUnlessUndrained(entry[k].endpoint, entry, queue, n);
      assert !KeepsNotices(entry[k].endpoint, entry, queue, n);
    } else {
      forall e ensures KeepsNotices(e, entry, queue, n) {
        KeptUnlessUndrained(e, entry, queue, n);
        if n < |entry| {
          forall k | n <= k < |entry| ensures entry[k].status > 0 { UndrainedChunks(entry, queue, n, k); }
          NoNotices(e, entry[n..]);
        }
      }
    }
  }

  lemma NoticeLost(entry: seq<Chunk>, n: nat, k: nat)
    requires n <= k < |entry| && entry[k].status <= 0
    ensures Notices(entry[k].endpoint, entry[n..]) > 0
  {
    var e := entry[k].endpoint;
    assert entry[n..] == entry[n..k] + ([entry[k]] + entry[k + 1..]);
    NoticesConcat(e, entry[n..k], [entry[k]] + entry[k + 1..]);
    NoticesConcat(e, [entry[k]], entry[k + 1..]);
    OneNotice(e, entry[k]);
  }

  lemma {:induction false} NoNotices(e: Endpoint, cs: seq<Chunk>)
    requires forall i :: 0 <= i < |cs| ==> cs[i].status > 0
    ensures Notices(e, cs) == 0
  {
    if cs != [] { NoNotices(e, cs[..|cs| - 1]); }
  }

  /** In particular a backlog of at most one chunk is safe. */
  lemma ShortBacklogIsSafe(entry: seq<Chunk>, queue: seq<Chunk>, n: nat, e: Endpoint)
    requires Completes(entry + queue, n) && |entry| <= 1
    ensures Conserves(e, entry, queue, n)
  {
    assert Kept(entry, n) == entry;
    Isolation(entry, queue, n, e);
  }

  lemma LostBytes(e: Endpoint, entry: seq<Chunk>, n: nat, k: nat)
    requires n <= k < |entry| && entry[k].endpoint == e && entry[k].message != []
    ensures BytesFrom(e, entry[n..]) != []
  {
    assert entry[n..] == entry[n..k] + ([entry[k]] + entry[k + 1..]);
    BytesFromConcat(e, entry[n..k], [entry[k]] + entry[k + 1..]);
    BytesFromConcat(e, [entry[k]], entry[k + 1..]);
    OneChunk(e, entry[k]);
  }

  lemma LongerLeavesMore(e: Endpoint, source: Endpoint, payload: bytes, long: bytes, short: bytes, after: bytes)
    requires |long| > |short| && TakesFrame(e, source, payload, short, after)
    ensures !TakesFrame(e, source, payload, long, after)
  {
  }

  // How bytes are lost, starting from nothing: two peers send one empty message each, and
  // b's is followed by a byte.

  const PEER_A := Endpoint("a", 1)
  const PEER_B := Endpoint("b", 2)
  const FRAME_A: Chunk := Chunk([0, 0, 0, 0], PEER_A, 4)
  const OVERFLOW_B: Chunk := Chunk([7], PEER_B, 1)

  /** What is in the receive queue at first. */
  function Arrivals(): seq<Chunk> {
    [Chunk([0], PEER_B, 1), FRAME_A, Chunk([0, 0, 0, 7], PEER_B, 4)]
  }

  /** The first call takes b's message and leaves a's chunk and b's overflow as backlog. */
  lemma BacklogArises()
    ensures Completes([] + Arrivals(), 3) && PayloadRead([] + Arrivals(), 3) == []
    ensures BacklogAfter([] + Arrivals(), 3) == [FRAME_A, OVERFLOW_B] && QueueAfter([], Arrivals(), 3) == []
  {
    hide BytesFrom, Others, HasFrame, Rest, Payload;
    var input := [] + Arrivals();
    var x, y, z := input[0], input[1], input[2];
    assert input[..1] == [x] && input[..2] == [x] + [y] && input[..3] == [x] + [y] + [z];
    TwoOfThree(x, y, z);
    FiveBytes([0, 0, 0, 0, 7]);
    assert x.message + z.message == [0, 0, 0, 0, 7];
    assert StillReading(input, 2);
  }

  lemma TwoOfThree(x: Chunk, y: Chunk, z: Chunk)
    requires x.endpoint == z.endpoint == PEER_B && y.endpoint == PEER_A
    ensures BytesFrom(PEER_B, [x]) == BytesFrom(PEER_B, [x] + [y]) == x.message
    ensures BytesFrom(PEER_B, [x] + [y] + [z]) == x.message + z.message
    ensures Others(PEER_B, [x] + [y] + [z]) == [y]
  {
    OneChunk(PEER_B, x);
    OneChunk(PEER_B, y);
    OneChunk(PEER_B, z);
    BytesFromConcat(PEER_B, [x], [y]);
    BytesFromConcat(PEER_B, [x] + [y], [z]);
    var cs := [x] + [y] + [z];
    assert cs[..2] == [x] + [y] && ([x] + [y])[..1] == [x] && [x][..0] == [];
    assert Others(PEER_B, []) == [] && Others(PEER_B, [x]) == [] && Others(PEER_B, [x] + [y]) == [y];
  }

  lemma FiveBytes(p: bytes)
    requires p == [0, 0, 0, 0, 7]
    ensures HasFrame(p) && Payload(p) == [] && Rest(p) == [7] && !HasFrame([0])
  {
    assert p[..LENGTH_BYTES] == [0, 0, 0, 0];
  }

  /** A call on a backlog that begins with a's message reads that chunk and no other. */
  lemma FirstChunkCompletes(second: Chunk)
    ensures var entry := [FRAME_A, second]; Completes(entry + [], 1) && CompleteBefore(entry, 1)
  {
    var entry := [FRAME_A, second];
    assert entry + [] == entry && entry[..0] == [] && entry[..1] == [FRAME_A];
    OneChunk(PEER_A, FRAME_A);
    ZeroFrame(FRAME_A.message);
    hide BytesFrom, HasFrame;
    assert StillReading(entry, 0);
  }

  /** The second call takes a's message and loses b's byte. */
  lemma BacklogCanBeLost()
    ensures var entry := [FRAME_A, OVERFLOW_B];
      && Completes(entry + [], 1) && CompleteBefore(entry, 1)
      && BytesFrom(PEER_B, entry + []) == [7] && BytesAfter(PEER_B, entry, [], 1) == []
  {
    hide BytesFrom, Completes, CompleteBefore, BacklogAfter, QueueAfter;
    var entry := [FRAME_A, OVERFLOW_B];
    assert entry + [] == [FRAME_A] + [OVERFLOW_B] && Kept(entry, 1) + [] == [FRAME_A];
    FirstChunkCompletes(OVERFLOW_B);
    OneChunk(PEER_B, FRAME_A);
    OneChunk(PEER_B, OVERFLOW_B);
    BytesFromConcat(PEER_B, [FRAME_A], [OVERFLOW_B]);
    Isolation(entry, [], 1, PEER_B);
  }

  /** Had b disconnected instead, the call would lose the notice of that, and no bytes. */
  lemma NoticeCanBeLost()
    ensures var entry := [FRAME_A, Chunk([], PEER_B, 0)];
      && Completes(entry + [], 1) && CompleteBefore(entry, 1)
      && Notices(PEER_B, entry + []) == 1
      && Notices(PEER_B, BacklogAfter(entry + [], 1) + QueueAfter(entry, [], 1)) == 0
      && forall e :: Conserves(e, entry, [], 1)
  {
    hide BytesFrom, HasFrame, Completes, BacklogAfter, Notices, QueueAfter;
    var closed := Chunk([], PEER_B, 0);
    var entry := [FRAME_A, closed];
    assert entry + [] == [FRAME_A] + [closed] && Kept(entry, 1) == [FRAME_A];
    FirstChunkCompletes(closed);
    OneNotice(PEER_B, FRAME_A);
    OneNotice(PEER_B, closed);
    NoticesConcat(PEER_B, [FRAME_A], [closed]);
    NoticesAfter(entry, [], 1, PEER_B);
    NoNotices(PEER_B, []);
    ConservedExactlyWhen(entry, [], 1);
    assert !exists k: nat :: CompleteBefore(entry, k) && entry[k].message != [];
  }

  lemma ZeroFrame(p: bytes)
    requires p == [0, 0, 0, 0]
    ensures HasFrame(p) && !HasFrame([])
  {
  }

  // ---------- one peer ----------

  predicate GoodChunk(r: Endpoint, c: Chunk) {
    c.endpoint == r && c.status > 0 && |c.message| < CHUNK_LIMIT
  }

  predicate AllFrom(r: Endpoint, cs: seq<Chunk>) {
    forall i :: 0 <= i < |cs| ==> GoodChunk(r, cs[i])
  }

  lemma {:induction false} NoOthers(r: Endpoint, cs: seq<Chunk>)
    requires AllFrom(r, cs)
    ensures Others(r, cs) == []
  {
    if cs != [] {
      NoOthers(r, cs[..|cs| - 1]);
    }
  }

  /** One successful call on a single peer: the backlog holds at most one chunk again and the
      frame taken is the first of the peer's stream. */
  lemma SinglePeerCall(r: Endpoint, entry: seq<Chunk>, queue: seq<Chunk>, n: nat)
    requires |entry| <= 1 && AllFrom(r, entry) && AllFrom(r, queue) && Completes(entry + queue, n)
    requires ChunksFit(BacklogAfter(entry + queue, n))
    ensures var stream, backlog := BytesFrom(r, entry + queue), BacklogAfter(entry + queue, n);
      && |backlog| <= 1 && AllFrom(r, backlog) && AllFrom(r, QueueAfter(entry, queue, n))
      && HasFrame(stream) && PayloadRead(entry + queue, n) == Payload(stream)
      && BytesAfter(r, entry, queue, n) == Rest(stream)
  {
    hide BytesFrom, HasFrame, Payload, Rest, StillReading, AllGood;
    var input := entry + queue;
    assert input[0].endpoint == r;
    assert AllFrom(r, input[..n]);
    NoOthers(r, input[..n]);
    Isolation(entry, queue, n, r);
    assert n >= 1;
    assert Kept(entry, n) == entry;
  }

  /** With a complete frame in the stream the call can neither block nor fail. */
  lemma SinglePeerReturns(r: Endpoint, input: seq<Chunk>, n: nat)
    requires AllFrom(r, input) && HasFrame(BytesFrom(r, input))
    ensures !Fails(input, n)
    ensures !(n == |input| && StillReading(input, n))
  {
    assert input[..|input|] == input;
  }

  datatype NetOp = Arrive(chunk: Chunk) | Receive

  function ToOps(ops: seq<NetOp>): seq<Op> {
    seq(|ops|, i requires 0 <= i < |ops| =>
      match ops[i] case Arrive(c) => Feed(c.message) case Receive => Get)
  }

  /** Chunks come from one peer, and each Receive is one that returns: a complete frame has
      arrived by then (a Receive that blocks takes effect when it does). */
  predicate PeerSchedule(r: Endpoint, p: bytes, ops: seq<NetOp>)
    decreases |ops|
  {
    ops == [] ||
    match ops[0]
    case Arrive(c) => GoodChunk(r, c) && PeerSchedule(r, p + c.message, ops[1..])
    case Receive => HasFrame(p) && PeerSchedule(r, Rest(p), ops[1..])
  }

  /** Over every run with a single peer the backlog holds at most one chunk between calls and
      the messages are those the byte-string splitter gives, so by `AnyInterleaving` the
      frames of the peer's stream in order, whether or not their payloads decode. */
  method RunNode<M>(node: Node<M>, r: Endpoint, ops: seq<NetOp>) returns (messages: seq<Option<M>>)
    requires |node.unProcessedMessages| <= 1
    requires AllFrom(r, node.unProcessedMessages) && AllFrom(r, node.receiveQueue)
    requires PeerSchedule(r, BytesFrom(r, node.unProcessedMessages + node.receiveQueue), ops)
    modifies node
    ensures |node.unProcessedMessages| <= 1
    ensures AllFrom(r, node.unProcessedMessages) && AllFrom(r, node.receiveQueue)
    ensures var (out, rest) := Splitter(old(BytesFrom(r, node.unProcessedMessages + node.receiveQueue)), ToOps(ops));
      && messages == DecodeAll(node.decode, out)
      && BytesFrom(r, node.unProcessedMessages + node.receiveQueue) == rest
  {
    hide HasFrame, Payload, Rest, BytesFrom, Others;
    hide Completes, StillReading, Fails, BacklogAfter, QueueAfter, ChunksFit;
    messages := [];
    ghost var out: seq<bytes> := [];
    ghost var start := BytesFrom(r, node.unProcessedMessages + node.receiveQueue);
    ghost var stream := start;
    var i := 0;
    assert ops[0..] == ops;
    while i < |ops|
      invariant 0 <= i <= |ops| && |node.unProcessedMessages| <= 1
      invariant AllFrom(r, node.unProcessedMessages) && AllFrom(r, node.receiveQueue)
      invariant stream == BytesFrom(r, node.unProcessedMessages + node.receiveQueue)
      invariant PeerSchedule(r, stream, ops[i..])
      invariant messages == DecodeAll(node.decode, out)
      invariant Splitter(start, ToOps(ops)).0 == out + Splitter(stream, ToOps(ops[i..])).0
      invariant Splitter(start, ToOps(ops)).1 == Splitter(stream, ToOps(ops[i..])).1
    {
      assert ops[i..][1..] == ops[i + 1..];
      assert ToOps(ops[i..])[1..] == ToOps(ops[i + 1..]);
      match ops[i] {
        case Arrive(c) =>
          ArriveBytes(r, node.unProcessedMessages + node.receiveQueue, c);
          assert node.unProcessedMessages + (node.receiveQueue + [c])
              == (node.unProcessedMessages + node.receiveQueue) + [c];
          node.receiveQueue := node.receiveQueue + [c];
          stream := stream + c.message;
        case Receive =>
          ghost var payload := Payload(stream);
          var message := ReceiveOne(node, r);
          messages := messages + [message];
          out := out + [payload];
          stream := Rest(stream);
      }
      i := i + 1;
    }
    assert ToOps(ops[i..]) == [];
  }

  lemma ArriveBytes(r: Endpoint, cs: seq<Chunk>, c: Chunk)
    requires c.endpoint == r
    ensures BytesFrom(r, cs + [c]) == BytesFrom(r, cs) + c.message
  {
    assert (cs + [c])[..|cs|] == cs;
  }

  /** One Receive that returns, on a single peer. */
  method ReceiveOne<M>(node: Node<M>, r: Endpoint) returns (message: Option<M>)
    requires |node.unProcessedMessages| <= 1
    requires AllFrom(r, node.unProcessedMessages) && AllFrom(r, node.receiveQueue)
    requires HasFrame(BytesFrom(r, node.unProcessedMessages + node.receiveQueue))
    modifies node
    ensures |node.unProcessedMessages| <= 1
    ensures AllFrom(r, node.unProcessedMessages) && AllFrom(r, node.receiveQueue)
    ensures var stream := old(BytesFrom(r, node.unProcessedMessages + node.receiveQueue));
      message == node.decode(Payload(stream))
      && BytesFrom(r, node.unProcessedMessages + node.receiveQueue) == Rest(stream)
  {
    hide HasFrame, Payload, Rest, BytesFrom, Others, Completes, StillReading, Fails, BacklogAfter, QueueAfter;
    ghost var entry, queue := node.unProcessedMessages, node.receiveQueue;
    assert AllFrom(r, entry + queue);
    var outcome, n := node.DoReceive(true);
    SinglePeerReturns(r, entry + queue, n);
    message := None;
    match outcome
    case Received(_, m) =>
      SinglePeerCall(r, entry, queue, n);
      message := m;
  }
}
