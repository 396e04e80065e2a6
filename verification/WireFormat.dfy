/** The wire format: a 4-byte length in network byte order (Appendix B of RFC 791), then
    that many payload bytes.  Everything the parser is proved against is stated here on
    plain byte strings. */
module WireFormat {
  import opened Basics

  type byte = x: int | 0 <= x < 256
  type bytes = seq<byte>

  const LENGTH_BYTES := 4

  /** What a cast to uint32_t keeps. */
  function U32(n: nat): (r: nat)
    ensures n < UINT32_MODULUS ==> r == n
  {
    n % UINT32_MODULUS
  }

  /** The bytes of a 32-bit length, most significant first. */
  function Htonl(n: nat): (b: bytes)
    requires n < UINT32_MODULUS
    ensures |b| == LENGTH_BYTES && Ntohl(b) == n
  {
    var high := n / 0x100;
    var higher := high / 0x100;
    [higher / 0x100, higher % 0x100, high % 0x100, n % 0x100]
  }

  function Ntohl(b: bytes): (n: nat)
    requires |b| == LENGTH_BYTES
    ensures n < UINT32_MODULUS
  {
    (((b[0] as int) * 0x100 + b[1]) * 0x100 + b[2]) * 0x100 + b[3]
  }

  lemma HtonlNtohl(b: bytes)
    requires |b| == LENGTH_BYTES
    ensures Htonl(Ntohl(b)) == b
  {
    var higher: int := (b[0] as int) * 0x100 + b[1];
    var high: int := higher * 0x100 + b[2];
    assert Ntohl(b) == high * 0x100 + b[3];
    assert Ntohl(b) / 0x100 == high;
    assert high / 0x100 == higher;
  }

  /** Network byte order: the bytes have these weights, the first the greatest. */
  lemma LengthWeights(n: nat)
    requires n < 0x1_0000_0000
    ensures var b := Htonl(n);
      |b| == 4 && 0x100_0000 * (b[0] as int) + 0x1_0000 * (b[1] as int) + 0x100 * (b[2] as int) + b[3] == n
  {
  }

  /** Shifting a number by a byte shifts the bytes to the front. */
  lemma LengthShifts(n: nat, b: byte)
    requires n < 0x100_0000
    ensures Htonl(b) == [0, 0, 0, b]
    ensures Htonl(0x100 * n + b) == Htonl(n)[1..] + [b]
  {
    var m := 0x100 * n + b;
    assert m / 0x100 == n && m % 0x100 == b;
  }

  // ---------- one frame ----------

  predicate Encodable(payload: bytes) { |payload| < UINT32_MODULUS }

  function Frame(payload: bytes): bytes
    requires Encodable(payload)
  {
    Htonl(|payload|) + payload
  }

  predicate HasFrame(p: bytes) {
    |p| >= LENGTH_BYTES && |p| - LENGTH_BYTES >= Ntohl(p[..LENGTH_BYTES])
  }

  function FrameSize(p: bytes): (n: nat)
    requires HasFrame(p)
    ensures LENGTH_BYTES <= n <= |p|
  {
    LENGTH_BYTES + Ntohl(p[..LENGTH_BYTES])
  }

  function Payload(p: bytes): bytes
    requires HasFrame(p)
  {
    p[LENGTH_BYTES..FrameSize(p)]
  }

  function Rest(p: bytes): bytes
    requires HasFrame(p)
  {
    p[FrameSize(p)..]
  }

  // ---------- a stream of frames ----------

  /** The payloads of all complete frames at the front of a byte string. */
  function Frames(p: bytes): seq<bytes>
    decreases |p|
  {
    if HasFrame(p) then [Payload(p)] + Frames(Rest(p)) else []
  }

  /** What is left of a byte string after its complete frames. */
  function Residue(p: bytes): bytes
    decreases |p|
  {
    if HasFrame(p) then Residue(Rest(p)) else p
  }

  predicate AllEncodable(ps: seq<bytes>) {
    forall i :: 0 <= i < |ps| ==> Encodable(ps[i])
  }

  function EncodeAll(ps: seq<bytes>): bytes
    requires AllEncodable(ps)
  {
    if ps == [] then [] else Frame(ps[0]) + EncodeAll(ps[1..])
  }

  function Concat(segments: seq<bytes>): bytes {
    if segments == [] then [] else segments[0] + Concat(segments[1..])
  }

  // ---------- laws ----------

  /** A serialized message at the front of a stream is split off again, whatever follows. */
  lemma FrameSplits(payload: bytes, tail: bytes)
    requires Encodable(payload)
    ensures var p := Frame(payload) + tail;
      HasFrame(p) && Payload(p) == payload && Rest(p) == tail
  {
    var p := Frame(payload) + tail;
    assert p[..LENGTH_BYTES] == Htonl(|payload|);
  }

  /** Conversely a split-off frame is the serialization of its payload. */
  lemma SplitIsFrame(p: bytes)
    requires HasFrame(p)
    ensures Encodable(Payload(p)) && Frame(Payload(p)) + Rest(p) == p
  {
    HtonlNtohl(p[..LENGTH_BYTES]);
    assert p == p[..LENGTH_BYTES] + p[LENGTH_BYTES..FrameSize(p)] + p[FrameSize(p)..];
  }

  /** More bytes never change a frame that is already complete. */
  lemma FrameStable(p: bytes, q: bytes)
    requires HasFrame(p)
    ensures HasFrame(p + q) && Payload(p + q) == Payload(p) && Rest(p + q) == Rest(p) + q
  {
    assert (p + q)[..LENGTH_BYTES] == p[..LENGTH_BYTES];
  }

  /** Splitting a longer stream goes on where splitting its front stopped. */
  lemma {:induction false} FramesAppend(p: bytes, q: bytes)
    ensures Frames(p + q) == Frames(p) + Frames(Residue(p) + q)
    ensures Residue(p + q) == Residue(Residue(p) + q)
    ensures !HasFrame(Residue(p))
    decreases |p|
  {
    if HasFrame(p) {
      FrameStable(p, q);
      FramesAppend(Rest(p), q);
    }
  }

  /** Decoding what was encoded gives the messages back, in order, whatever follows. */
  lemma {:induction false} RoundTrip(ps: seq<bytes>, tail: bytes)
    requires AllEncodable(ps)
    ensures Frames(EncodeAll(ps) + tail) == ps + Frames(tail)
    ensures Residue(EncodeAll(ps) + tail) == Residue(tail)
  {
    hide HasFrame, Payload, Rest;
    if ps == [] {
      assert EncodeAll(ps) + tail == tail;
    } else {
      var rest := EncodeAll(ps[1..]) + tail;
      assert EncodeAll(ps) + tail == Frame(ps[0]) + rest;
      FrameSplits(ps[0], rest);
      RoundTrip(ps[1..], tail);
      assert ps == [ps[0]] + ps[1..];
    }
  }

  /** Splitting loses nothing: frames re-encoded, then the residue, are the stream. */
  lemma {:induction false} Reassembles(p: bytes)
    ensures AllEncodable(Frames(p)) && EncodeAll(Frames(p)) + Residue(p) == p
    decreases |p|
  {
    if HasFrame(p) {
      SplitIsFrame(p);
      Reassembles(Rest(p));
      assert Frames(p)[1..] == Frames(Rest(p));
      assert EncodeAll(Frames(p)) + Residue(p) == Frame(Payload(p)) + (EncodeAll(Frames(Rest(p))) + Residue(Rest(p)));
    }
  }

  /** While a stream of messages is arriving, what has been split off is a prefix of it. */
  lemma PrefixOfStream(ps: seq<bytes>, front: bytes)
    requires AllEncodable(ps) && front <= EncodeAll(ps)
    ensures Frames(front) <= ps
    ensures Frames(front) == ps <==> front == EncodeAll(ps)
  {
    var all := EncodeAll(ps);
    var back := all[|front|..];
    assert front + back == all && all + [] == all;
    FramesAppend(front, back);
    assert Frames(front) <= Frames(all);
    RoundTrip(ps, []);
    assert Frames(all) == ps;
    if Frames(front) == ps {
      Reassembles(front);
      assert front == all[..|front|] && |all| <= |front|;
    }
  }

  lemma {:induction false} ConcatAppend(segments: seq<bytes>, last: bytes)
    ensures Concat(segments + [last]) == Concat(segments) + last
  {
    if segments != [] {
      ConcatAppend(segments[1..], last);
      assert (segments + [last])[1..] == segments[1..] + [last];
    }
  }
}
