/** The incremental parser, method by method, and its refinement of the splitter in
    `WireFormat`: adding data appends to a byte string, getting a message takes the first
    frame off it. */
module MessageParsing {
  import opened Basics
  import opened WireFormat

  datatype ParserState = ParsingLength | ParsingMessage | ParsingDone

  /** `encode` stands for the message library's serializer; it may refuse a message. */
  method Serialize<M>(message: M, encode: M -> Option<bytes>) returns (ok: bool, serialized: bytes)
    requires encode(message).Some? ==> Encodable(encode(message).value)
    ensures ok <==> encode(message).Some?
    ensures ok ==> serialized == Frame(encode(message).value)
    ensures ok ==>
      && |serialized| >= 4 && serialized[4..] == encode(message).value
      && |serialized[4..]| == 0x100_0000 * (serialized[0] as int) + 0x1_0000 * (serialized[1] as int)
                              + 0x100 * (serialized[2] as int) + serialized[3]
  {
    match encode(message)
    case None => return false, [];
    case Some(payload) =>
      var messageSize := U32(|payload|);
      LengthWeights(messageSize);
      serialized := Htonl(messageSize);
      serialized := serialized + payload[..messageSize];
      return true, serialized;
  }

  /** Three consecutive pieces of a buffer, copied to where they belong. */
  lemma Glue(length: bytes, message: bytes, overflow: bytes, before: bytes, data: bytes, k: nat, copied: nat)
    requires k + copied <= |data| && (copied > 0 ==> overflow == [])
    requires length + message + overflow == before + data[..k]
    ensures length + (message + data[k..k + copied]) + (overflow + data[k + copied..]) == before + data
  {
    var tail := data[k + copied..];
    assert length + (message + data[k..k + copied]) + (overflow + tail)
        == (length + message + overflow) + data[k..k + copied] + tail;
    assert data == data[..k] + data[k..k + copied] + tail;
  }

  class MessageParser<M> {
    /** Stands for ParseFromArray of the message type. */
    const decode: bytes -> Option<M>

    var state: ParserState
    const partialLength: array<byte>
    var gotLengthBytes: nat
    var partialMessage: bytes
    var expectedLength: nat
    var overflow: bytes

    /** The parser's state is determined by the bytes it has not given out yet, up to stale
        bytes in the length buffer. */
    ghost predicate Valid()
      reads this, partialLength
    {
      && partialLength.Length == LENGTH_BYTES
      && |overflow| < UINT32_MODULUS
      && match state
         case ParsingLength =>
           && gotLengthBytes < LENGTH_BYTES && partialMessage == [] && overflow == []
           && expectedLength == UINT32_MODULUS - 1
         case ParsingMessage =>
           && gotLengthBytes == LENGTH_BYTES && expectedLength == Ntohl(partialLength[..])
           && |partialMessage| < expectedLength && overflow == []
         case ParsingDone =>
           && gotLengthBytes == LENGTH_BYTES && expectedLength == Ntohl(partialLength[..])
           && |partialMessage| == expectedLength
    }

    /** The bytes added and not yet given out as part of a message. */
    ghost function Pending(): bytes
      reads this, partialLength
      requires Valid()
    {
      partialLength[..gotLengthBytes] + partialMessage + overflow
    }

    /** A buffer the parser's 32-bit sizes can describe. */
    predicate Fits(data: bytes)
      reads this
    {
      |overflow| + |data| < UINT32_MODULUS
    }

    constructor (decode: bytes -> Option<M>)
      ensures Valid() && Pending() == [] && fresh(partialLength) && this.decode == decode
    {
      this.decode := decode;
      state := ParsingLength;
      partialLength := new byte[4](_ => 0);
      gotLengthBytes := 0;
      partialMessage := [];
      expectedLength := UINT32_MODULUS - 1;
      overflow := [];
    }

    /** Copies length bytes; the result is how many. */
    method ParseLength(data: bytes) returns (consumed: nat)
      requires Valid() && Fits(data)
      modifies this`state, this`gotLengthBytes, this`expectedLength, partialLength
      ensures consumed == if old(state).ParsingLength? then Min(|data|, LENGTH_BYTES - old(gotLengthBytes)) else 0
      ensures !old(state).ParsingLength? ==>
        state == old(state) && gotLengthBytes == old(gotLengthBytes)
        && expectedLength == old(expectedLength) && partialLength[..] == old(partialLength[..])
      ensures old(state).ParsingLength? ==>
        && gotLengthBytes == old(gotLengthBytes) + consumed
        && partialLength[..gotLengthBytes] == old(partialLength[..gotLengthBytes]) + data[..consumed]
        && (if gotLengthBytes == LENGTH_BYTES
            then state.ParsingMessage? && expectedLength == Ntohl(partialLength[..])
            else state.ParsingLength? && expectedLength == old(expectedLength))
    {
      if state != ParsingLength {
        return 0;
      }
      consumed := Min(U32(|data|), LENGTH_BYTES - gotLengthBytes);
      ghost var start := gotLengthBytes;
      forall i | 0 <= i < consumed {
        partialLength[gotLengthBytes + i] := data[i];
      }
      gotLengthBytes := gotLengthBytes + consumed;
      assert partialLength[..gotLengthBytes] == old(partialLength[..start]) + data[..consumed];
      if gotLengthBytes == LENGTH_BYTES {
        state := ParsingMessage;
        expectedLength := Ntohl(partialLength[..]);
      }
    }

    /** Copies payload bytes from an offset on; the result is how many. */
    method ParseMessage(data: bytes, startOffset: nat) returns (consumed: nat)
      requires startOffset <= |data| && Fits(data)
      requires state.ParsingMessage? ==> |partialMessage| <= expectedLength < UINT32_MODULUS
      modifies this`state, this`partialMessage
      ensures !old(state).ParsingMessage? ==>
        consumed == 0 && state == old(state) && partialMessage == old(partialMessage)
      ensures old(state).ParsingMessage? ==>
        && consumed == Min(|data| - startOffset, expectedLength - old(|partialMessage|))
        && partialMessage == old(partialMessage) + data[startOffset..startOffset + consumed]
        && state == (if |partialMessage| == expectedLength then ParsingDone else ParsingMessage)
    {
      if state != ParsingMessage {
        return 0;
      }
      var remainingData := U32(|data| - startOffset);
      var currentLength := U32(|partialMessage|);
      consumed := Min(remainingData, expectedLength - currentLength);
      partialMessage := partialMessage + data[startOffset..startOffset + consumed];
      if |partialMessage| == expectedLength {
        state := ParsingDone;
      }
    }

    /** Keeps what follows a complete message for later. */
    method SaveOverflow(data: bytes, startOffset: nat)
      requires startOffset <= |data| && Fits(data)
      modifies this`overflow
      ensures overflow == if state.ParsingDone? then old(overflow) + data[startOffset..] else old(overflow)
    {
      if state != ParsingDone {
        return;
      }
      overflow := overflow + data[startOffset..];
    }

    /** Adding data appends to the pending bytes and leaves the parser in the state those
        bytes determine; so it does not matter how a stream is cut into buffers. */
    method AddNewData(data: bytes)
      requires Valid() && Fits(data)
      modifies this, partialLength
      ensures Valid() && Pending() == old(Pending()) + data
    {
      hide Ntohl;
      ghost var before := Pending();
      ghost var overflow0 := overflow;
      var dataOffset := ParseLength(data);
      ghost var length, message, k := partialLength[..gotLengthBytes], partialMessage, dataOffset;
      assert length + message + overflow == before + data[..k];
      var copied := ParseMessage(data, dataOffset);
      dataOffset := dataOffset + copied;
      SaveOverflow(data, dataOffset);
      assert state.ParsingDone? || dataOffset == |data|;
      Glue(length, message, overflow0, before, data, k, copied);
      assert partialLength[..gotLengthBytes] == length;
    }

    method HasCompleteMessage() returns (complete: bool)
      requires Valid()
      ensures complete <==> HasFrame(Pending())
    {
      complete := state == ParsingDone;
      PendingShape();
    }

    method HasOverflow() returns (some: bool)
      requires Valid()
      ensures some <==> overflow != []
      ensures some <==> HasFrame(Pending()) && Rest(Pending()) != []
    {
      some := overflow != [];
      PendingShape();
    }

    method GetOverflow() returns (data: bytes)
      requires Valid()
      ensures data == overflow
      ensures data == if HasFrame(Pending()) then Rest(Pending()) else []
    {
      data := overflow;
      PendingShape();
    }

    method HasPartialMessage() returns (some: bool)
      requires Valid()
      ensures some <==> Pending() != []
    {
      some := partialMessage != [] || gotLengthBytes != 0;
    }

    method ResetParser()
      requires Valid()
      modifies this
      ensures Valid() && Pending() == []
    {
      state := ParsingLength;
      gotLengthBytes := 0;
      partialMessage := [];
      expectedLength := UINT32_MODULUS - 1;
      overflow := [];
    }

    /** Takes the first frame off the pending bytes, even when its payload does not decode. */
    method GetMessage() returns (message: Option<M>)
      requires Valid()
      modifies this, partialLength
      ensures Valid()
      ensures old(HasFrame(Pending())) ==>
        message == decode(Payload(old(Pending()))) && Pending() == Rest(old(Pending()))
      ensures !old(HasFrame(Pending())) ==> message == None && Pending() == old(Pending())
    {
      PendingShape();
      if state != ParsingDone {
        return None;
      }
      message := decode(partialMessage);
      var newMessageData := overflow;
      ResetParser();
      AddNewData(newMessageData);
    }

    /** Whether a buffer fits can be told from the pending bytes. */
    lemma FitsSplit(data: bytes)
      requires Valid()
      ensures Fits(data) <==> (if HasFrame(Pending()) then |Rest(Pending())| else 0) + |data| < UINT32_MODULUS
    {
      PendingShape();
    }

    /** The fields spelled out in terms of the pending bytes. */
    lemma PendingShape()
      requires Valid()
      ensures state.ParsingDone? <==> HasFrame(Pending())
      ensures state.ParsingDone? ==> partialMessage == Payload(Pending()) && overflow == Rest(Pending())
      ensures !state.ParsingDone? ==> overflow == []
      ensures state.ParsingLength? ==> gotLengthBytes == |Pending()|
    {
      if gotLengthBytes == LENGTH_BYTES {
        assert Pending()[..LENGTH_BYTES] == partialLength[..];
      }
    }

    /** Two parsers with the same pending bytes are in the same state, up to stale length
        bytes: the state is a function of the bytes, not of how they arrived. */
    lemma Canonical(other: MessageParser<M>)
      requires Valid() && other.Valid() && Pending() == other.Pending()
      ensures state == other.state && gotLengthBytes == other.gotLengthBytes
      ensures partialLength[..gotLengthBytes] == other.partialLength[..gotLengthBytes]
      ensures partialMessage == other.partialMessage && overflow == other.overflow
      ensures expectedLength == other.expectedLength
    {
      PendingShape();
      other.PendingShape();
      assert partialLength[..gotLengthBytes] == Pending()[..gotLengthBytes];
      assert other.partialLength[..other.gotLengthBytes] == other.Pending()[..other.gotLengthBytes];
      assert partialMessage + overflow == Pending()[gotLengthBytes..];
      assert other.partialMessage + other.overflow == other.Pending()[other.gotLengthBytes..];
      if gotLengthBytes == LENGTH_BYTES {
        assert partialLength[..] == partialLength[..gotLengthBytes];
        assert other.partialLength[..] == other.partialLength[..gotLengthBytes];
      }
      if !state.ParsingDone? {
        assert partialMessage + overflow == partialMessage;
        assert other.partialMessage + other.overflow == other.partialMessage;
      }
    }
  }
}
