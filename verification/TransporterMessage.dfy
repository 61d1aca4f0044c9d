/** The transporter message as the Go type is: one buffer of header and payload,
    read into, written over and sent from in place, and reused between messages
    (shared/protocol/message.definition.go, shared/protocol/payload.definition.go). */
module TransporterMessage {
  import opened Bytes
  import opened Frames
  import opened Payloads
  import opened Wrappers

  datatype WriteResult = Wrote(out: seq<byte>) | WriteFailed | WritePanics

  class Message {
    const buffer: array<byte>
    const crc: Crc

    ghost predicate Valid()
    {
      buffer.Length == BUFFER_SIZE
    }

    constructor (crc: Crc)
      ensures Valid() && this.crc == crc && fresh(buffer)
      ensures LengthOf(buffer[..]) == 0
    {
      this.crc := crc;
      this.buffer := new byte[BUFFER_SIZE](_ => 0);
    }

    ghost function Image(): (b: seq<byte>)
      requires Valid()
      reads buffer
      ensures |b| == BUFFER_SIZE
    {
      buffer[..]
    }

    /** The length in the header is one the buffer can hold. */
    ghost predicate Bounded()
      requires Valid()
      reads buffer
    {
      LengthOf(Image()) <= MAX_PAYLOAD_SIZE
    }

    /** Payload(): header length bytes of the payload part. */
    ghost function Payload(): seq<byte>
      requires Valid() && Bounded()
      reads buffer
    {
      buffer[HEADER_SIZE..HEADER_SIZE + LengthOf(Image())]
    }

    /** Bytes(): the message as it goes on the wire, WireSize() bytes. */
    ghost function Wire(): (w: seq<byte>)
      requires Valid() && Bounded()
      reads buffer
      ensures |w| == HEADER_SIZE + LengthOf(Image())
    {
      buffer[..HEADER_SIZE + LengthOf(Image())]
    }

    ghost predicate WellFormed()
      requires Valid()
      reads buffer
    {
      Bounded() && IsFrame(Wire(), crc)
    }

    lemma HeaderOfWire()
      requires Valid() && Bounded()
      ensures CommandOf(Wire()) == CommandOf(Image()) && LengthOf(Wire()) == LengthOf(Image())
      ensures CrcOf(Wire()) == CrcOf(Image()) && Wire()[HEADER_SIZE..] == Payload()
    {
      var w, b := Wire(), Image();
      assert w[0..4] == b[0..4] && w[4..8] == b[4..8] && w[8..12] == b[8..12];
    }

    /** PutUint32 at an index of the buffer. */
    method Put(at: nat, value: u32)
      requires Valid() && at + 4 <= BUFFER_SIZE
      modifies buffer
      ensures buffer[..] == old(buffer[..at]) + Put32(value) + old(buffer[at + 4..])
    {
      var bytes := Put32(value);
      buffer[at], buffer[at + 1], buffer[at + 2], buffer[at + 3] := bytes[0], bytes[1], bytes[2], bytes[3];
    }

    method CopyIn(at: nat, bytes: seq<byte>)
      requires Valid() && at + |bytes| <= BUFFER_SIZE
      modifies buffer
      ensures buffer[..at] == old(buffer[..at]) && buffer[at..at + |bytes|] == bytes
      ensures buffer[at + |bytes|..] == old(buffer[at + |bytes|..])
    {
      var i := 0;
      while i < |bytes|
        invariant 0 <= i <= |bytes|
        invariant forall k :: 0 <= k < i ==> buffer[at + k] == bytes[k]
        invariant forall k :: 0 <= k < at || at + i <= k < BUFFER_SIZE ==> buffer[k] == old(buffer[k])
      {
        buffer[at + i] := bytes[i];
        i := i + 1;
      }
    }

    /** SetDirectCommand: nothing but the command changes. */
    method SetDirectCommand(command: u32)
      requires Valid()
      modifies buffer
      ensures CommandOf(Image()) == command
      ensures Image() == Put32(command) + old(Image())[4..]
    {
      Put(0, command);
      assert Image()[0..4] == Put32(command);
      GetPut32(command);
    }

    /** updatePayloadMetadata: length and checksum of the bytes now in the payload part. */
    method UpdatePayloadMetadata(length: u32)
      requires Valid() && length <= MAX_PAYLOAD_SIZE
      modifies buffer
      ensures WellFormed() && LengthOf(Image()) == length
      ensures Payload() == old(buffer[HEADER_SIZE..HEADER_SIZE + length])
      ensures CommandOf(Image()) == old(CommandOf(Image()))
    {
      ghost var payloadPart := buffer[HEADER_SIZE..];
      assert buffer[HEADER_SIZE..HEADER_SIZE + length] == payloadPart[..length];
      var sum := crc(buffer[HEADER_SIZE..HEADER_SIZE + length]);
      Put(4, length);
      assert buffer[HEADER_SIZE..] == payloadPart;
      Put(8, sum);
      assert buffer[HEADER_SIZE..] == payloadPart;
      GetPut32(length);
      GetPut32(sum);
      assert Image()[0..4] == old(Image()[0..4]);
      assert Image()[4..8] == Put32(length) && Image()[8..12] == Put32(sum);
      assert Image()[HEADER_SIZE..HEADER_SIZE + length] == payloadPart[..length];
      HeaderOfWire();
    }

    /** Read: io.ReadFull of the header, the length check, io.ReadFull of the payload, the CRC check. What
        was taken off the stream lies over the old bytes, also where the stream ends inside the header. */
    method Read(stream: seq<byte>) returns (result: ReadResult)
      requires Valid()
      modifies buffer
      ensures result == ReadFrame(stream, crc)
      ensures Image() == Spliced(old(Image()), 0, TakenOff(stream))
      ensures result.Accepted? ==> WellFormed() && Wire() == result.frame
    {
      ReadFull(0, if |stream| < HEADER_SIZE then stream else stream[..HEADER_SIZE]);
      if |stream| < HEADER_SIZE {
        return Rejected(ShortHeader);
      }
      var length := LengthOf(stream);
      if length > MAX_PAYLOAD_SIZE {
        return Rejected(TooLarge);
      }
      var end := if |stream| < HEADER_SIZE + length then |stream| else HEADER_SIZE + length;
      ReadFull(HEADER_SIZE, stream[HEADER_SIZE..end]);
      SplicedInTwo(old(Image()), stream, end);
      if end < HEADER_SIZE + length {
        return Rejected(ShortPayload);
      }
      if length > 0 && crc(stream[HEADER_SIZE..end]) != CrcOf(stream) {
        return Rejected(BadCrc);
      }
      FrameRead(stream, end);
      return Accepted(stream[..end], stream[end..]);
    }

    /** io.ReadFull into the buffer at an index, as far as the stream goes. */
    method ReadFull(at: nat, bytes: seq<byte>)
      requires Valid() && at + |bytes| <= BUFFER_SIZE
      modifies buffer
      ensures Image() == Spliced(old(Image()), at, bytes)
    {
      CopyIn(at, bytes);
      assert buffer[..] == buffer[..at] + buffer[at..at + |bytes|] + buffer[at + |bytes|..];
    }

    lemma FrameRead(stream: seq<byte>, end: nat)
      requires Valid() && end <= |stream| && ReadFrame(stream, crc) == Accepted(stream[..end], stream[end..])
      requires end <= BUFFER_SIZE && Image()[..end] == stream[..end]
      ensures WellFormed() && Wire() == stream[..end]
    {
      ReadIsSound(stream, crc);
      SliceOfSlice(Image(), 0, end, 4, 8);
      assert Image()[0..end] == Image()[..end];
    }

    /** Write: header, then payload if any. A header that promises more than the buffer holds makes
        Go's slicing panic. */
    method Write(out: seq<byte>, headerOk: bool, payloadOk: bool) returns (result: WriteResult)
      requires Valid()
      ensures result.Wrote? ==> Bounded() && result.out == out + Wire()
      ensures result.WritePanics? <==> headerOk && !Bounded()
      ensures headerOk && payloadOk && Bounded() ==> result.Wrote?
    {
      if !headerOk {
        return WriteFailed;
      }
      var sent := out + buffer[..HEADER_SIZE];
      var length := Get32(buffer[4..8]);
      assert buffer[4..8] == Image()[4..8];
      if length > MAX_PAYLOAD_SIZE {
        return WritePanics;
      }
      if length > 0 {
        if !payloadOk {
          return WriteFailed;
        }
        sent := sent + buffer[HEADER_SIZE..HEADER_SIZE + length];
      }
      assert sent == out + Wire();
      return Wrote(sent);
    }

    /** SendGuestLeft and SendCreateRoom on a pooled message: set the command, then Write. The receiver
        accepts it exactly when the message was well-formed before; and Write panics exactly when the
        length left behind exceeds the buffer. */
    method SendBareCommand(command: u32, headerOk: bool, payloadOk: bool) returns (result: WriteResult)
      requires Valid()
      modifies buffer
      ensures Image() == Put32(command) + old(Image())[4..]
      ensures result.WritePanics? <==> headerOk && !old(Bounded())
      ensures headerOk && payloadOk ==>
        (old(WellFormed()) <==> result.Wrote? && ReadFrame(result.out, crc) == Accepted(result.out, []))
      ensures result.Wrote? ==> old(Bounded()) && Carries(result.out, command, old(Payload()))
    {
      ghost var before := Image();
      SetDirectCommand(command);
      CommandReplaced(before, Image(), command, crc);
      result := Write([], headerOk, payloadOk);
      assert result.Wrote? ==> result.out == Wire();
    }

    /** The header of a refused message stays in the buffer, and one cut short lies over the bytes of the
        header before it: after a Read a message of which only the command is set panics exactly when
        the header left in the buffer declares more than the limit. */
    method ReadThenBareCommand(stream: seq<byte>, command: u32) returns (read: ReadResult, sent: WriteResult)
      requires Valid()
      modifies buffer
      ensures read == ReadFrame(stream, crc)
      ensures sent.WritePanics? <==> LengthOf(HeaderLeft(old(Image()), stream)) > MAX_PAYLOAD_SIZE
      ensures |stream| >= HEADER_SIZE ==> (sent.WritePanics? <==> read == Rejected(TooLarge))
      ensures read.Accepted? ==>
        && sent.Wrote? && ReadFrame(sent.out, crc) == Accepted(sent.out, [])
        && Carries(sent.out, command, read.frame[HEADER_SIZE..])
    {
      ghost var before := Image();
      read := Read(stream);
      HeaderLeftIs(before, Image(), stream);
      if read.Accepted? {
        HeaderOfWire();
      }
      sent := SendBareCommand(command, true, true);
    }

    /** SetRawPayload; the length is checked and recorded in uint32, and the copy stops at the end of the
        buffer, so data of 2^32 bytes or more can be accepted and is then cut. */
    method SetRawPayload(data: seq<byte>) returns (ok: bool)
      requires Valid()
      modifies buffer
      ensures ok <==> Wrap32(|data|) <= MAX_PAYLOAD_SIZE
      ensures ok ==> WellFormed() && Payload() == data[..Wrap32(|data|)]
      ensures |data| <= MAX_PAYLOAD_SIZE ==> ok && Payload() == data
      ensures ok ==> CommandOf(Image()) == old(CommandOf(Image()))
      ensures !ok ==> Image() == old(Image())
    {
      var length := Wrap32(|data|);
      assert |data| <= MAX_PAYLOAD_SIZE ==> length == |data|;
      if length > MAX_PAYLOAD_SIZE {
        return false;
      }
      var copied := if |data| <= MAX_PAYLOAD_SIZE then data else data[..MAX_PAYLOAD_SIZE];
      CopyIn(HEADER_SIZE, copied);
      assert Image()[0..4] == old(Image()[0..4]);
      assert buffer[HEADER_SIZE..HEADER_SIZE + |copied|] == copied;
      SliceOfSlice(Image(), HEADER_SIZE, HEADER_SIZE + |copied|, 0, length);
      UpdatePayloadMetadata(length);
      return true;
    }

    /** writeInt and writeString: the field goes in at the offset, after the fields already written
        there; or there is no space and nothing changes; or the check lets a wrapped end through, and
        the panic comes after the length was stored, unless already its own place is out of range. */
    method WriteField(ghost done: seq<Field>, offset: nat, f: Field) returns (placed: Placed)
      requires Valid() && offset <= MAX_PAYLOAD_SIZE
      requires PlaceAll(0, done) == Written(offset) && Image()[HEADER_SIZE..HEADER_SIZE + offset] == EncodeAll(done)
      modifies buffer
      ensures placed == Place(offset, f) == PlaceAll(0, done + [f])
      ensures Image()[..HEADER_SIZE] == old(Image())[..HEADER_SIZE]
      ensures placed.Written? ==>
        && placed.offset <= MAX_PAYLOAD_SIZE
        && Image()[HEADER_SIZE..HEADER_SIZE + placed.offset] == EncodeAll(done + [f])
      ensures placed.NoSpace? ==> Image() == old(Image())
      ensures placed.Panics? ==> f.Text? && Image() == LengthStored(old(Image()), offset, CutLength(f.s))
    {
      PlaceIsFit(offset, f);
      PlaceSnoc(0, done, f);
      placed := Place(offset, f);
      if placed.Written? {
        EncodeSnoc(done, f);
        StoreField(EncodeAll(done), Encode(f), offset);
      } else if placed.Panics? && offset + 4 <= MAX_PAYLOAD_SIZE {
        StoreLength(offset, CutLength(f.s));
      }
    }

    /** The encoded field goes behind the payload bytes already there. */
    method StoreField(ghost done: seq<byte>, bytes: seq<byte>, offset: nat)
      requires Valid() && offset == |done| && offset + |bytes| <= MAX_PAYLOAD_SIZE
      requires Image()[HEADER_SIZE..HEADER_SIZE + offset] == done
      modifies buffer
      ensures Image()[..HEADER_SIZE] == old(Image())[..HEADER_SIZE]
      ensures Image()[HEADER_SIZE..HEADER_SIZE + offset + |bytes|] == done + bytes
    {
      CopyIn(HEADER_SIZE + offset, bytes);
      ghost var before, after, start := old(Image()), Image(), HEADER_SIZE + offset;
      assert after[..start] == before[..start];
      SliceOfSlice(after, 0, start, 0, HEADER_SIZE);
      SliceOfSlice(before, 0, start, 0, HEADER_SIZE);
      SliceOfSlice(after, 0, start, HEADER_SIZE, start);
      SliceOfSlice(before, 0, start, HEADER_SIZE, start);
      SliceJoin(after, HEADER_SIZE, start, start + |bytes|);
    }

    method StoreLength(offset: nat, length: u32)
      requires Valid() && offset + 4 <= MAX_PAYLOAD_SIZE
      modifies buffer
      ensures Image() == LengthStored(old(Image()), offset, length)
      ensures Image()[..HEADER_SIZE] == old(Image())[..HEADER_SIZE]
    {
      Put(HEADER_SIZE + offset, length);
    }

    /** Set of a payload of one field; of two; of three. On failure the header stays as it was. */
    method SetOne(f: Field) returns (placed: Placed)
      requires Valid()
      modifies buffer
      ensures placed == PlaceAll(0, [f])
      ensures placed.Written? ==> WellFormed() && Payload() == EncodeAll([f])
      ensures CommandOf(Image()) == old(CommandOf(Image()))
      ensures !placed.Written? ==> Image()[..HEADER_SIZE] == old(Image())[..HEADER_SIZE]
    {
      placed := WriteField([], 0, f);
      CommandStays(old(Image()), Image());
      assert [] + [f] == [f];
      if placed.Written? {
        UpdatePayloadMetadata(placed.offset);
      }
    }

    method WriteTwo(f: Field, g: Field) returns (placed: Placed)
      requires Valid()
      modifies buffer
      ensures placed == PlaceAll(0, [f, g])
      ensures Image()[..HEADER_SIZE] == old(Image())[..HEADER_SIZE]
      ensures placed.Written? ==>
        placed.offset <= MAX_PAYLOAD_SIZE && Image()[HEADER_SIZE..HEADER_SIZE + placed.offset] == EncodeAll([f, g])
    {
      placed := WriteField([], 0, f);
      assert [] + [f] == [f] && [f] + [g] == [f, g];
      PlaceSnoc(0, [f], g);
      if placed.Written? {
        placed := WriteField([f], placed.offset, g);
      }
    }

    method SetTwo(f: Field, g: Field) returns (placed: Placed)
      requires Valid()
      modifies buffer
      ensures placed == PlaceAll(0, [f, g])
      ensures placed.Written? ==> WellFormed() && Payload() == EncodeAll([f, g])
      ensures CommandOf(Image()) == old(CommandOf(Image()))
      ensures !placed.Written? ==> Image()[..HEADER_SIZE] == old(Image())[..HEADER_SIZE]
    {
      placed := WriteTwo(f, g);
      CommandStays(old(Image()), Image());
      if placed.Written? {
        UpdatePayloadMetadata(placed.offset);
      }
    }

    method SetThree(f: Field, g: Field, h: Field) returns (placed: Placed)
      requires Valid()
      modifies buffer
      ensures placed == PlaceAll(0, [f, g, h])
      ensures placed.Written? ==> WellFormed() && Payload() == EncodeAll([f, g, h])
      ensures CommandOf(Image()) == old(CommandOf(Image()))
      ensures !placed.Written? ==> Image()[..HEADER_SIZE] == old(Image())[..HEADER_SIZE]
    {
      placed := WriteTwo(f, g);
      assert [f, g] + [h] == [f, g, h];
      PlaceSnoc(0, [f, g], h);
      if placed.Written? {
        placed := WriteField([f, g], placed.offset, h);
      }
      CommandStays(old(Image()), Image());
      if placed.Written? {
        UpdatePayloadMetadata(placed.offset);
      }
    }

    /** The typed Set methods: on success the message is well-formed and carries exactly the encoded
        value; on failure neither command, nor length, nor checksum changed. */
    method SetPayload(p: Payloads.Payload) returns (placed: Placed)
      requires Valid()
      modifies buffer
      ensures placed == PlaceAll(0, Fields(p))
      ensures placed.Written? ==> WellFormed() && Payload() == EncodeAll(Fields(p))
      ensures CommandOf(Image()) == old(CommandOf(Image()))
      ensures !placed.Written? ==> Image()[..HEADER_SIZE] == old(Image())[..HEADER_SIZE]
    {
      match p {
        case ErrorPayload(code, message) => placed := SetTwo(Num(code), Text(message));
        case Connect(version) => placed := SetOne(Num(version));
        case ConnectResponse(clientId) => placed := SetOne(Text(clientId));
        case CreateRoomResponse(roomId) => placed := SetOne(Text(roomId));
        case ConnectRoom(roomId, clientId, key) => placed := SetThree(Text(roomId), Text(clientId), Text(key));
        case ConnectRoomResult(accepted, clientId, key) =>
          placed := SetThree(Num(accepted), Text(clientId), Text(key));
      }
    }

    /** readInt, in uint32 arithmetic: no offset wraps, and the result is a function of the bytes below
        PayloadLength alone. */
    method ReadInt(offset: nat) returns (result: Option<(nat, int)>)
      requires Valid() && Bounded() && offset <= LengthOf(Image())
      ensures result == DecodeNum(Payload(), offset)
      ensures result.Some? ==> offset <= result.value.0 <= LengthOf(Image())
    {
      ghost var image := Image();
      assert buffer[4..8] == image[4..8];
      var length := Get32(buffer[4..8]);
      var newOffset := Wrap32(offset + 4);
      Unwrapped(offset + 4);
      if length < newOffset {
        return None;
      }
      SliceOfSlice(image, HEADER_SIZE, HEADER_SIZE + length, offset, newOffset);
      return Some((newOffset, Get32(buffer[HEADER_SIZE + offset..HEADER_SIZE + newOffset])));
    }

    /** readString, likewise; the declared length is compared with what remains, which cannot wrap. */
    method ReadString(offset: nat) returns (result: Option<(nat, seq<byte>)>)
      requires Valid() && Bounded() && offset <= LengthOf(Image())
      ensures result == DecodeText(Payload(), offset)
      ensures result.Some? ==> offset <= result.value.0 <= LengthOf(Image())
    {
      ghost var image := Image();
      assert buffer[4..8] == image[4..8];
      var length := Get32(buffer[4..8]);
      var dataOffset := Wrap32(offset + 4);
      Unwrapped(offset + 4);
      if length < dataOffset {
        return None;
      }
      SliceOfSlice(image, HEADER_SIZE, HEADER_SIZE + length, offset, dataOffset);
      var n := Get32(buffer[HEADER_SIZE + offset..HEADER_SIZE + dataOffset]);
      var remaining := Wrap32(length - dataOffset);
      Unwrapped(length - dataOffset);
      if n > remaining {
        return None;
      }
      var newOffset := Wrap32(dataOffset + n);
      Unwrapped(dataOffset + n);
      SliceOfSlice(image, HEADER_SIZE, HEADER_SIZE + length, dataOffset, newOffset);
      return Some((newOffset, buffer[HEADER_SIZE + dataOffset..HEADER_SIZE + newOffset]));
    }

    method GetErrorPayload() returns (result: Option<Payloads.Payload>)
      requires Valid() && Bounded()
      ensures result == GetError(Payload())
    {
      var code := ReadInt(0);
      if code.None? {
        return None;
      }
      var message := ReadString(code.value.0);
      return if message.None? then None else Some(ErrorPayload(code.value.1, message.value.1));
    }

    method GetPayloadConnectRoom() returns (result: Option<Payloads.Payload>)
      requires Valid() && Bounded()
      ensures result == GetConnectRoom(Payload())
    {
      var roomId := ReadString(0);
      if roomId.None? {
        return None;
      }
      var clientId := ReadString(roomId.value.0);
      if clientId.None? {
        return None;
      }
      var key := ReadString(clientId.value.0);
      return if key.None? then None else Some(ConnectRoom(roomId.value.1, clientId.value.1, key.value.1));
    }

    method GetPayloadConnectRoomResponse() returns (result: Option<Payloads.Payload>)
      requires Valid() && Bounded()
      ensures result == GetConnectRoomResult(Payload())
    {
      var accepted := ReadInt(0);
      if accepted.None? {
        return None;
      }
      var clientId := ReadString(accepted.value.0);
      if clientId.None? {
        return None;
      }
      var key := ReadString(clientId.value.0);
      return if key.None? then None else Some(ConnectRoomResult(accepted.value.1, clientId.value.1, key.value.1));
    }

    /** The typed Get methods. */
    method GetPayload(t: PayloadType) returns (result: Option<Payloads.Payload>)
      requires Valid() && Bounded()
      ensures result == Get(t, Payload())
    {
      match t {
        case TError => result := GetErrorPayload();
        case TConnect =>
          var version := ReadInt(0);
          result := if version.None? then None else Some(Connect(version.value.1));
        case TConnectResponse =>
          var clientId := ReadString(0);
          result := if clientId.None? then None else Some(ConnectResponse(clientId.value.1));
        case TCreateRoomResponse =>
          var roomId := ReadString(0);
          result := if roomId.None? then None else Some(CreateRoomResponse(roomId.value.1));
        case TConnectRoom => result := GetPayloadConnectRoom();
        case TConnectRoomResult => result := GetPayloadConnectRoomResponse();
      }
    }
  }

  lemma Unwrapped(n: nat)
    requires n < TWO32
    ensures Wrap32(n) == n
  {
  }

  lemma SliceOfSlice(b: seq<byte>, lo: nat, hi: nat, i: nat, j: nat)
    requires lo <= hi <= |b| && i <= j <= hi - lo
    ensures b[lo..hi][i..j] == b[lo + i..lo + j]
  {
    var x, y := b[lo..hi][i..j], b[lo + i..lo + j];
    assert |x| == |y| && forall k :: 0 <= k < |x| ==> x[k] == y[k];
  }

  lemma SliceJoin(b: seq<byte>, lo: nat, mid: nat, hi: nat)
    requires lo <= mid <= hi <= |b|
    ensures b[lo..hi] == b[lo..mid] + b[mid..hi]
  {
  }

  lemma CommandReplaced(before: seq<byte>, after: seq<byte>, command: u32, crc: Crc)
    requires |before| == BUFFER_SIZE && after == Put32(command) + before[4..]
    ensures LengthOf(after) == LengthOf(before)
    ensures var n := HEADER_SIZE + LengthOf(before); LengthOf(before) <= MAX_PAYLOAD_SIZE ==>
      && (ReadFrame(after[..n], crc) == Accepted(after[..n], []) <==> IsFrame(before[..n], crc))
      && Carries(after[..n], command, before[HEADER_SIZE..n])
  {
    BareCommandReadable(before, command, crc);
    assert after[4..8] == before[4..8];
  }

  /** The buffer with only a string's length written at the offset, if it has its place there. */
  function LengthStored(b: seq<byte>, offset: nat, length: u32): seq<byte>
    requires |b| == BUFFER_SIZE
  {
    if offset + 4 > MAX_PAYLOAD_SIZE then b
    else b[..HEADER_SIZE + offset] + Put32(length) + b[HEADER_SIZE + offset + 4..]
  }

  /** Bytes written over others at an index. */
  function Spliced(before: seq<byte>, at: nat, bytes: seq<byte>): (b: seq<byte>)
    requires at + |bytes| <= |before|
    ensures |b| == |before|
  {
    before[..at] + bytes + before[at + |bytes|..]
  }

  lemma SplicedInTwo(before: seq<byte>, stream: seq<byte>, end: nat)
    requires HEADER_SIZE <= end <= |stream| && end <= |before|
    ensures Spliced(Spliced(before, 0, stream[..HEADER_SIZE]), HEADER_SIZE, stream[HEADER_SIZE..end]) ==
      Spliced(before, 0, stream[..end])
    ensures Spliced(before, 0, stream[..end])[..end] == stream[..end]
  {
    var first := Spliced(before, 0, stream[..HEADER_SIZE]);
    assert first == stream[..HEADER_SIZE] + before[HEADER_SIZE..];
    assert Spliced(before, 0, stream[..end]) == stream[..end] + before[end..];
  }

  /** The header in the buffer after a Read. */
  function HeaderLeft(before: seq<byte>, stream: seq<byte>): (h: seq<byte>)
    requires |before| == BUFFER_SIZE
    ensures |h| == HEADER_SIZE
  {
    if |stream| >= HEADER_SIZE then stream[..HEADER_SIZE] else stream + before[|stream|..HEADER_SIZE]
  }

  lemma HeaderLeftIs(before: seq<byte>, after: seq<byte>, stream: seq<byte>)
    requires |before| == BUFFER_SIZE && after == Spliced(before, 0, TakenOff(stream))
    ensures after[..HEADER_SIZE] == HeaderLeft(before, stream)
    ensures LengthOf(after) == LengthOf(HeaderLeft(before, stream))
    ensures |stream| >= HEADER_SIZE ==> LengthOf(after) == LengthOf(stream)
  {
    LengthStays(after, HeaderLeft(before, stream));
    if |stream| >= HEADER_SIZE {
      LengthStays(stream, HeaderLeft(before, stream));
    }
  }

  /** Seven bytes of a header over an empty message are enough: bytes 4 to 6 come from the stream and
      byte 7 from the message before, which is 0 as its length was in range. */
  lemma CutHeaderExceedsLimit(before: seq<byte>, stream: seq<byte>)
    requires |before| == BUFFER_SIZE && LengthOf(before) <= MAX_PAYLOAD_SIZE && |stream| == 7
    ensures LengthOf(HeaderLeft(before, stream)) > MAX_PAYLOAD_SIZE <==>
      Get32([stream[4], stream[5], stream[6], 0]) > MAX_PAYLOAD_SIZE
  {
    assert before[4..8][3] == before[7] == 0;
    assert HeaderLeft(before, stream)[4..8] == [stream[4], stream[5], stream[6], 0];
  }

  lemma LengthStays(before: seq<byte>, after: seq<byte>)
    requires |before| >= HEADER_SIZE && |after| >= HEADER_SIZE && after[..HEADER_SIZE] == before[..HEADER_SIZE]
    ensures LengthOf(after) == LengthOf(before)
  {
    assert before[4..8] == before[..HEADER_SIZE][4..8] && after[4..8] == after[..HEADER_SIZE][4..8];
  }

  lemma CommandStays(before: seq<byte>, after: seq<byte>)
    requires |before| >= HEADER_SIZE && |after| >= HEADER_SIZE && after[..HEADER_SIZE] == before[..HEADER_SIZE]
    ensures CommandOf(after) == CommandOf(before)
  {
    assert before[0..4] == before[..HEADER_SIZE][0..4] && after[0..4] == after[..HEADER_SIZE][0..4];
  }
}
