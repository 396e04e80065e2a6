/** Whole conversations with the parser: any interleaving of feeding and getting, and the
    feed-then-drain loop its users write. */
module ParserRuns {
  import opened Basics
  import opened WireFormat
  import opened MessageParsing

  datatype Op = Feed(data: bytes) | Get

  function Fed(ops: seq<Op>): bytes {
    if ops == [] then []
    else (match ops[0] case Feed(data) => data case Get => []) + Fed(ops[1..])
  }

  /** The byte-string splitter: payloads given out, and the bytes not given out yet. */
  function Splitter(p: bytes, ops: seq<Op>): (seq<bytes>, bytes)
    decreases |ops|
  {
    if ops == [] then ([], p)
    else match ops[0]
      case Feed(data) => Splitter(p + data, ops[1..])
      case Get =>
        if HasFrame(p) then
          var (out, rest) := Splitter(Rest(p), ops[1..]);
          ([Payload(p)] + out, rest)
        else Splitter(p, ops[1..])
  }

  /** No buffer, with the overflow it is added to, reaches 4 GiB. */
  predicate OpsFit(p: bytes, ops: seq<Op>)
    decreases |ops|
  {
    ops == [] ||
    match ops[0]
    case Feed(data) =>
      (if HasFrame(p) then |Rest(p)| else 0) + |data| < UINT32_MODULUS && OpsFit(p + data, ops[1..])
    case Get => OpsFit(if HasFrame(p) then Rest(p) else p, ops[1..])
  }

  function DecodeAll<M>(decode: bytes -> Option<M>, ps: seq<bytes>): seq<Option<M>> {
    seq(|ps|, i requires 0 <= i < |ps| => decode(ps[i]))
  }

  lemma DecodeAllConcat<M>(decode: bytes -> Option<M>, ps: seq<bytes>, qs: seq<bytes>)
    ensures DecodeAll(decode, ps + qs) == DecodeAll(decode, ps) + DecodeAll(decode, qs)
  {
  }

  lemma DecodeOneMore<M>(decode: bytes -> Option<M>, ps: seq<bytes>, p: bytes)
    ensures DecodeAll(decode, []) == [] && DecodeAll(decode, ps + [p]) == DecodeAll(decode, ps) + [decode(p)]
  {
  }

  /** What AnyInterleaving says, of one split of a stream. */
  ghost predicate Accounts(out: seq<bytes>, rest: bytes, stream: bytes) {
    && out + Frames(rest) == Frames(stream) && Residue(rest) == Residue(stream)
    && AllEncodable(out) && EncodeAll(out) + rest == stream
  }

  lemma GetFrames(p: bytes, fed: bytes, out: seq<bytes>, rest: bytes)
    requires HasFrame(p) && out + Frames(rest) == Frames(Rest(p) + fed) && Residue(rest) == Residue(Rest(p) + fed)
    ensures [Payload(p)] + out + Frames(rest) == Frames(p + fed) && Residue(rest) == Residue(p + fed)
  {
    FrameStable(p, fed);
    hide HasFrame, Payload, Rest;
    assert [Payload(p)] + out + Frames(rest) == [Payload(p)] + (out + Frames(rest));
  }

  lemma EncodeFirst(payload: bytes, out: seq<bytes>)
    requires Encodable(payload) && AllEncodable(out)
    ensures AllEncodable([payload] + out) && EncodeAll([payload] + out) == Frame(payload) + EncodeAll(out)
  {
    hide Frame;
    assert ([payload] + out)[1..] == out;
  }

  /** Getting the first message of `p` when the rest is accounted for. */
  lemma GetAccounts(p: bytes, fed: bytes, out: seq<bytes>, rest: bytes)
    requires HasFrame(p) && Accounts(out, rest, Rest(p) + fed)
    ensures Accounts([Payload(p)] + out, rest, p + fed)
  {
    hide HasFrame, Payload, Rest, Frames, Residue, EncodeAll, Frame;
    GetFrames(p, fed, out, rest);
    SplitIsFrame(p);
    EncodeFirst(Payload(p), out);
    calc {
      EncodeAll([Payload(p)] + out) + rest;
      Frame(Payload(p)) + (EncodeAll(out) + rest);
      Frame(Payload(p)) + (Rest(p) + fed);
      (Frame(Payload(p)) + Rest(p)) + fed;
      p + fed;
    }
  }

  /** Under any interleaving the payloads given out and those still pending are the frames
      of the whole stream, in order, and not a byte is lost or invented. */
  lemma {:induction false} AnyInterleaving(p: bytes, ops: seq<Op>)
    ensures var (out, rest) := Splitter(p, ops);
      && out + Frames(rest) == Frames(p + Fed(ops))
      && Residue(rest) == Residue(p + Fed(ops))
      && AllEncodable(out) && EncodeAll(out) + rest == p + Fed(ops)
    decreases |ops|
  {
    hide HasFrame, Payload, Rest, Frames, Residue, EncodeAll;
    Interleaving(p, ops);
  }

  lemma {:induction false} Interleaving(p: bytes, ops: seq<Op>)
    ensures Accounts(Splitter(p, ops).0, Splitter(p, ops).1, p + Fed(ops))
    decreases |ops|
  {
    hide HasFrame, Payload, Rest, Accounts;
    if ops == [] {
      assert p + Fed(ops) == p;
      NothingGiven(p);
    } else {
      match ops[0] {
        case Feed(data) =>
          Interleaving(p + data, ops[1..]);
          assert p + Fed(ops) == (p + data) + Fed(ops[1..]);
        case Get =>
          assert Fed(ops) == Fed(ops[1..]);
          if HasFrame(p) {
            Interleaving(Rest(p), ops[1..]);
            GetAccounts(p, Fed(ops), Splitter(Rest(p), ops[1..]).0, Splitter(Rest(p), ops[1..]).1);
          } else {
            Interleaving(p, ops[1..]);
          }
      }
    }
  }

  lemma NothingGiven(p: bytes)
    ensures Accounts([], p, p)
  {
  }

  /** However a stream of serialized messages is cut up and however feeding and getting
      interleave, what comes out is a prefix of the messages; it is all of them exactly when
      nothing is pending any more. */
  lemma FramingRoundTrip(ps: seq<bytes>, ops: seq<Op>)
    requires AllEncodable(ps) && Fed(ops) <= EncodeAll(ps)
    ensures var (out, rest) := Splitter([], ops);
      && out <= ps
      && (Fed(ops) == EncodeAll(ps) ==> out + Frames(rest) == ps && (out == ps <==> rest == []))
  {
    var (out, rest) := Splitter([], ops);
    AnyInterleaving([], ops);
    assert [] + Fed(ops) == Fed(ops);
    PrefixOfStream(ps, Fed(ops));
    if Fed(ops) == EncodeAll(ps) && out == ps {
      assert |rest| == 0;
    }
  }

  /** The parser object behaves like the splitter, call for call. */
  method RunParser<M>(parser: MessageParser<M>, ops: seq<Op>) returns (messages: seq<Option<M>>)
    requires parser.Valid() && OpsFit(parser.Pending(), ops)
    modifies parser, parser.partialLength
    ensures parser.Valid()
    ensures var (out, rest) := Splitter(old(parser.Pending()), ops);
      messages == DecodeAll(parser.decode, out) && parser.Pending() == rest
  {
    hide HasFrame, Payload, Rest, FrameSize, MessageParser.Valid, MessageParser.Pending;
    messages := [];
    ghost var out: seq<bytes> := [];
    ghost var start := parser.Pending();
    var i := 0;
    assert ops[i..] == ops;
    while i < |ops|
      invariant 0 <= i <= |ops| && parser.Valid()
      invariant OpsFit(parser.Pending(), ops[i..])
      invariant messages == DecodeAll(parser.decode, out)
      invariant Splitter(start, ops).0 == out + Splitter(parser.Pending(), ops[i..]).0
      invariant Splitter(start, ops).1 == Splitter(parser.Pending(), ops[i..]).1
    {
      ghost var p := parser.Pending();
      assert ops[i..][1..] == ops[i + 1..];
      match ops[i] {
        case Feed(data) =>
          parser.FitsSplit(data);
          parser.AddNewData(data);
        case Get =>
          var complete := parser.HasCompleteMessage();
          var message := parser.GetMessage();
          if complete {
            messages := messages + [message];
            out := out + [Payload(p)];
          }
      }
      i := i + 1;
    }
  }

  lemma FirstFrame(p: bytes)
    ensures if HasFrame(p)
            then Frames(p) == [Payload(p)] + Frames(Rest(p)) && Residue(p) == Residue(Rest(p)) && |Rest(p)| < |p|
            else Frames(p) == [] && Residue(p) == p
  {
  }

  /** Gets messages until there is no complete one. */
  method Drain<M>(parser: MessageParser<M>) returns (messages: seq<Option<M>>)
    requires parser.Valid()
    modifies parser, parser.partialLength
    ensures parser.Valid()
    ensures messages == DecodeAll(parser.decode, Frames(old(parser.Pending())))
    ensures parser.Pending() == Residue(old(parser.Pending())) && !HasFrame(parser.Pending())
  {
    hide HasFrame, Payload, Rest, FrameSize, Frames, Residue, DecodeAll;
    hide MessageParser.Valid, MessageParser.Pending;
    messages := [];
    ghost var out: seq<bytes> := [];
    ghost var start := parser.Pending();
    DecodeOneMore(parser.decode, [], []);
    var complete := parser.HasCompleteMessage();
    while complete
      invariant parser.Valid() && complete == HasFrame(parser.Pending())
      invariant messages == DecodeAll(parser.decode, out)
      invariant out + Frames(parser.Pending()) == Frames(start)
      invariant Residue(parser.Pending()) == Residue(start)
      decreases |parser.Pending()|
    {
      ghost var p := parser.Pending();
      FirstFrame(p);
      assert out + ([Payload(p)] + Frames(Rest(p))) == (out + [Payload(p)]) + Frames(Rest(p));
      DecodeOneMore(parser.decode, out, Payload(p));
      var message := parser.GetMessage();
      messages := messages + [message];
      out := out + [Payload(p)];
      complete := parser.HasCompleteMessage();
    }
    FirstFrame(parser.Pending());
    assert out == Frames(start);
  }

  lemma StreamGrows(start: bytes, segments: seq<bytes>, i: nat)
    requires i < |segments|
    ensures var soFar, more := start + Concat(segments[..i]), start + Concat(segments[..i + 1]);
      && Frames(more) == Frames(soFar) + Frames(Residue(soFar) + segments[i])
      && Residue(more) == Residue(Residue(soFar) + segments[i])
      && !HasFrame(Residue(soFar))
  {
    var soFar := start + Concat(segments[..i]);
    FramesAppend(soFar, segments[i]);
    ConcatAppend(segments[..i], segments[i]);
    assert segments[..i + 1] == segments[..i] + [segments[i]];
    assert start + Concat(segments[..i + 1]) == soFar + segments[i];
  }

  /** Feed each buffer as it arrives and drain the parser after it. */
  method ReceiveSegments<M>(parser: MessageParser<M>, segments: seq<bytes>) returns (messages: seq<Option<M>>)
    requires parser.Valid() && !HasFrame(parser.Pending())
    requires forall i :: 0 <= i < |segments| ==> |segments[i]| < UINT32_MODULUS
    modifies parser, parser.partialLength
    ensures parser.Valid()
    ensures var stream := old(parser.Pending()) + Concat(segments);
      messages == DecodeAll(parser.decode, Frames(stream)) && parser.Pending() == Residue(stream)
  {
    messages := [];
    assert DecodeAll(parser.decode, []) == [];
    ghost var start := parser.Pending();
    assert start + Concat(segments[..0]) == start;
    assert Frames(start) == [] && Residue(start) == start;
    hide HasFrame, Payload, Rest, FrameSize, Frames, Residue, DecodeAll, Concat;
    hide MessageParser.Valid, MessageParser.Pending;
    var i := 0;
    while i < |segments|
      invariant 0 <= i <= |segments| && parser.Valid() && !HasFrame(parser.Pending())
      invariant messages == DecodeAll(parser.decode, Frames(start + Concat(segments[..i])))
      invariant parser.Pending() == Residue(start + Concat(segments[..i]))
    {
      StreamGrows(start, segments, i);
      parser.FitsSplit(segments[i]);
      parser.AddNewData(segments[i]);
      ghost var pending := parser.Pending();
      var more := Drain(parser);
      messages := messages + more;
      DecodeAllConcat(parser.decode, Frames(start + Concat(segments[..i])), Frames(pending));
      i := i + 1;
    }
    assert segments[..i] == segments;
  }

  /** Feeding and draining any segmentation of serialized messages returns exactly them. */
  lemma DrainedRoundTrip(ps: seq<bytes>, segments: seq<bytes>)
    requires AllEncodable(ps) && Concat(segments) == EncodeAll(ps)
    ensures Frames([] + Concat(segments)) == ps && Residue([] + Concat(segments)) == []
  {
    RoundTrip(ps, []);
    assert [] + Concat(segments) == EncodeAll(ps) + [];
  }
}
