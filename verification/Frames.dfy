/** The transporter's wire format (shared/protocol/message.definition.go):
    a 12-byte header of command, payload length and payload CRC-32, all
    little-endian, and the payload. The checksum is whatever function the
    parameter `crc` is; nothing depends on which. */
module Frames {
  import opened Bytes

  const MAX_PAYLOAD_SIZE: nat := 0xF000
  const HEADER_SIZE: nat := 0x000C

  type Crc = seq<byte> -> u32

  /** The header fields of anything that starts with a header. */
  function CommandOf(b: seq<byte>): u32 requires |b| >= HEADER_SIZE { Get32(b[0..4]) }
  function LengthOf(b: seq<byte>): u32 requires |b| >= HEADER_SIZE { Get32(b[4..8]) }
  function CrcOf(b: seq<byte>): u32 requires |b| >= HEADER_SIZE { Get32(b[8..12]) }

  /** A whole message as it stands on the wire. */
  predicate IsFrame(f: seq<byte>, crc: Crc) {
    && |f| >= HEADER_SIZE
    && LengthOf(f) == |f| - HEADER_SIZE <= MAX_PAYLOAD_SIZE
    && (LengthOf(f) > 0 ==> crc(f[HEADER_SIZE..]) == CrcOf(f))
  }

  /** The frame of a command and a payload, as the Set methods build it. */
  function MakeFrame(command: u32, payload: seq<byte>, crc: Crc): (f: seq<byte>)
    requires |payload| <= MAX_PAYLOAD_SIZE
    ensures |f| == HEADER_SIZE + |payload|
  {
    Put32(command) + Put32(|payload|) + Put32(crc(payload)) + payload
  }

  lemma MakeFrameIsFrame(command: u32, payload: seq<byte>, crc: Crc)
    requires |payload| <= MAX_PAYLOAD_SIZE
    ensures var f := MakeFrame(command, payload, crc);
      IsFrame(f, crc) && CommandOf(f) == command && f[HEADER_SIZE..] == payload
  {
    var f := MakeFrame(command, payload, crc);
    assert f[0..4] == Put32(command) && f[4..8] == Put32(|payload|) && f[8..12] == Put32(crc(payload));
    GetPut32(command);
    GetPut32(|payload|);
    GetPut32(crc(payload));
  }

  datatype ReadError = ShortHeader | TooLarge | ShortPayload | BadCrc

  datatype ReadResult =
    | Accepted(frame: seq<byte>, rest: seq<byte>)
    | Rejected(error: ReadError)

  /** Read on a stream that holds these bytes and then ends. */
  function ReadFrame(stream: seq<byte>, crc: Crc): ReadResult {
    if |stream| < HEADER_SIZE then Rejected(ShortHeader)
    else
      var n := LengthOf(stream);
      if n > MAX_PAYLOAD_SIZE then Rejected(TooLarge)
      else if |stream| < HEADER_SIZE + n then Rejected(ShortPayload)
      else if n > 0 && crc(stream[HEADER_SIZE..HEADER_SIZE + n]) != CrcOf(stream) then Rejected(BadCrc)
      else Accepted(stream[..HEADER_SIZE + n], stream[HEADER_SIZE + n..])
  }

  /** The bytes Read takes off the stream before it returns, whatever its answer. */
  function TakenOff(stream: seq<byte>): (b: seq<byte>)
    ensures |b| <= HEADER_SIZE + MAX_PAYLOAD_SIZE && b <= stream
    ensures |stream| < HEADER_SIZE ==> b == stream
    ensures |stream| >= HEADER_SIZE ==> |b| >= HEADER_SIZE
  {
    if |stream| < HEADER_SIZE then stream
    else if LengthOf(stream) > MAX_PAYLOAD_SIZE then stream[..HEADER_SIZE]
    else if |stream| < HEADER_SIZE + LengthOf(stream) then stream
    else stream[..HEADER_SIZE + LengthOf(stream)]
  }

  lemma ReadTakesFrame(f: seq<byte>, rest: seq<byte>, crc: Crc)
    requires IsFrame(f, crc)
    ensures ReadFrame(f + rest, crc) == Accepted(f, rest)
  {
    var stream := f + rest;
    assert stream[0..4] == f[0..4] && stream[4..8] == f[4..8] && stream[8..12] == f[8..12];
    assert stream[HEADER_SIZE..|f|] == f[HEADER_SIZE..];
    assert stream[..|f|] == f && stream[|f|..] == rest;
  }

  lemma ReadIsSound(stream: seq<byte>, crc: Crc)
    requires ReadFrame(stream, crc).Accepted?
    ensures var r := ReadFrame(stream, crc); IsFrame(r.frame, crc) && stream == r.frame + r.rest
  {
    var f, rest := ReadFrame(stream, crc).frame, ReadFrame(stream, crc).rest;
    assert stream[0..4] == f[0..4] && stream[4..8] == f[4..8] && stream[8..12] == f[8..12];
    assert stream[HEADER_SIZE..|f|] == f[HEADER_SIZE..];
    assert stream == f + rest;
  }

  /** Read accepts exactly the streams that begin with a frame, and takes exactly that frame. */
  lemma ReadAcceptsFrames(stream: seq<byte>, f: seq<byte>, rest: seq<byte>, crc: Crc)
    ensures ReadFrame(stream, crc) == Accepted(f, rest) <==> IsFrame(f, crc) && stream == f + rest
  {
    if IsFrame(f, crc) && stream == f + rest {
      ReadTakesFrame(f, rest, crc);
    }
    if ReadFrame(stream, crc) == Accepted(f, rest) {
      ReadIsSound(stream, crc);
    }
  }

  /** Repeated Reads until one is rejected. */
  datatype Parsed = Parsed(frames: seq<seq<byte>>, rest: seq<byte>)

  function ParseAll(stream: seq<byte>, crc: Crc): Parsed
    decreases |stream|
  {
    match ReadFrame(stream, crc)
    case Rejected(_) => Parsed([], stream)
    case Accepted(f, rest) =>
      if |rest| < |stream| then
        var more := ParseAll(rest, crc);
        Parsed([f] + more.frames, more.rest)
      else Parsed([], stream)
  }

  lemma ParseOne(stream: seq<byte>, f: seq<byte>, rest: seq<byte>, crc: Crc)
    requires ReadFrame(stream, crc) == Accepted(f, rest)
    ensures ParseAll(stream, crc) ==
      var more := ParseAll(rest, crc); Parsed([f] + more.frames, more.rest)
  {
    ReadIsSound(stream, crc);
  }

  function Concat(fs: seq<seq<byte>>): seq<byte> {
    if fs == [] then [] else Concat(fs[..|fs| - 1]) + fs[|fs| - 1]
  }

  lemma ConcatSnoc(fs: seq<seq<byte>>, f: seq<byte>)
    ensures Concat(fs + [f]) == Concat(fs) + f
  {
    assert (fs + [f])[..|fs|] == fs;
  }

  lemma {:induction false} ConcatCons(f: seq<byte>, fs: seq<seq<byte>>)
    ensures Concat([f] + fs) == f + Concat(fs)
  {
    if fs == [] {
      ConcatSnoc([], f);
      assert [f] + fs == [] + [f];
    } else {
      var init, last := fs[..|fs| - 1], fs[|fs| - 1];
      ConcatCons(f, init);
      ConcatSnoc([f] + init, last);
      assert [f] + fs == ([f] + init) + [last];
    }
  }

  predicate AllFrames(fs: seq<seq<byte>>, crc: Crc) {
    forall i :: 0 <= i < |fs| ==> IsFrame(fs[i], crc)
  }

  /** The stream is these frames and a rest that Read rejects. */
  predicate SplitsInto(stream: seq<byte>, p: Parsed, crc: Crc) {
    && stream == Concat(p.frames) + p.rest
    && AllFrames(p.frames, crc)
    && ReadFrame(p.rest, crc).Rejected?
  }

  lemma SplitCons(f: seq<byte>, rest: seq<byte>, more: Parsed, crc: Crc)
    requires IsFrame(f, crc) && SplitsInto(rest, more, crc)
    ensures SplitsInto(f + rest, Parsed([f] + more.frames, more.rest), crc)
  {
    ConcatCons(f, more.frames);
    Associative(f, Concat(more.frames), more.rest);
  }

  lemma Associative(a: seq<byte>, b: seq<byte>, c: seq<byte>)
    ensures (a + b) + c == a + (b + c)
  {
  }

  lemma FramesUncons(f: seq<byte>, more: seq<seq<byte>>, crc: Crc)
    requires AllFrames([f] + more, crc)
    ensures IsFrame(f, crc) && AllFrames(more, crc)
  {
    var fs := [f] + more;
    assert fs[0] == f;
    forall i | 0 <= i < |more|
      ensures IsFrame(more[i], crc)
    {
      assert more[i] == fs[i + 1];
    }
  }

  /** Whole frames followed by something Read rejects parse back into those frames. */
  lemma {:induction false} ParseOfFrames(stream: seq<byte>, frames: seq<seq<byte>>, rest: seq<byte>, crc: Crc)
    requires SplitsInto(stream, Parsed(frames, rest), crc)
    ensures ParseAll(stream, crc) == Parsed(frames, rest)
    decreases |frames|
  {
    if frames == [] {
      assert stream == rest;
    } else {
      var f, more := frames[0], frames[1..];
      assert frames == [f] + more;
      FramesUncons(f, more, crc);
      ConcatCons(f, more);
      Associative(f, Concat(more), rest);
      var later := Concat(more) + rest;
      ReadTakesFrame(f, later, crc);
      ParseOfFrames(later, more, rest, crc);
      ParseOne(f + later, f, later, crc);
    }
  }

  /** Whatever the stream, parsing loses nothing. */
  lemma {:induction false} ParseIsExact(stream: seq<byte>, crc: Crc)
    ensures SplitsInto(stream, ParseAll(stream, crc), crc)
    decreases |stream|
  {
    var r := ReadFrame(stream, crc);
    if r.Accepted? {
      ReadIsSound(stream, crc);
      ParseIsExact(r.rest, crc);
      ParseOne(stream, r.frame, r.rest, crc);
      SplitCons(r.frame, r.rest, ParseAll(r.rest, crc), crc);
    }
  }

  lemma {:induction false} ConcatAppend(fs: seq<seq<byte>>, gs: seq<seq<byte>>)
    ensures Concat(fs + gs) == Concat(fs) + Concat(gs)
  {
    if gs == [] {
      assert fs + gs == fs;
    } else {
      var init, last := gs[..|gs| - 1], gs[|gs| - 1];
      ConcatAppend(fs, init);
      assert fs + gs == (fs + init) + [last];
      ConcatSnoc(fs + init, last);
      Associative(Concat(fs), Concat(init), last);
    }
  }

  /** Whole frames are parsed ahead of whatever follows them. */
  lemma ParseAhead(fs: seq<seq<byte>>, later: seq<byte>, crc: Crc)
    requires AllFrames(fs, crc)
    ensures ParseAll(Concat(fs) + later, crc).frames == fs + ParseAll(later, crc).frames
  {
    var p := ParseAll(later, crc);
    ParseIsExact(later, crc);
    ConcatAppend(fs, p.frames);
    Associative(Concat(fs), Concat(p.frames), p.rest);
    ParseOfFrames(Concat(fs) + later, fs + p.frames, p.rest, crc);
  }

  // ----- messages that set only the command

  const BUFFER_SIZE: nat := HEADER_SIZE + MAX_PAYLOAD_SIZE

  datatype Sent = Sent(bytes: seq<byte>) | SlicePanics

  /** Write of a buffer as it stands: its length field decides how much goes out, and a length the
      buffer cannot hold makes Go's slicing panic. */
  function WriteBuffer(buffer: seq<byte>): Sent
    requires |buffer| == BUFFER_SIZE
  {
    if LengthOf(buffer) <= MAX_PAYLOAD_SIZE then Sent(buffer[..HEADER_SIZE + LengthOf(buffer)]) else SlicePanics
  }

  /** The buffer holds a whole message. */
  predicate HoldsFrame(buffer: seq<byte>, crc: Crc)
    requires |buffer| == BUFFER_SIZE
  {
    LengthOf(buffer) <= MAX_PAYLOAD_SIZE && IsFrame(buffer[..HEADER_SIZE + LengthOf(buffer)], crc)
  }

  predicate Carries(bytes: seq<byte>, command: u32, payload: seq<byte>) {
    |bytes| >= HEADER_SIZE && CommandOf(bytes) == command && bytes[HEADER_SIZE..] == payload
  }

  /** SendCreateRoom and SendGuestLeft, which set only the command, are understood exactly when the
      pooled buffer was left well-formed; the receiver then sees the command and the previous
      message's payload. They panic exactly when the length left behind exceeds the buffer. */
  lemma BareCommandReadable(buffer: seq<byte>, command: u32, crc: Crc)
    requires |buffer| == BUFFER_SIZE
    ensures var w := WriteBuffer(Put32(command) + buffer[4..]);
      && (w.SlicePanics? <==> LengthOf(buffer) > MAX_PAYLOAD_SIZE)
      && (w.Sent? && ReadFrame(w.bytes, crc) == Accepted(w.bytes, []) <==> HoldsFrame(buffer, crc))
      && (w.Sent? ==> Carries(w.bytes, command, buffer[HEADER_SIZE..HEADER_SIZE + LengthOf(buffer)]))
  {
    var changed := Put32(command) + buffer[4..];
    assert changed[0..4] == Put32(command) && changed[4..8] == buffer[4..8];
    GetPut32(command);
    if LengthOf(buffer) <= MAX_PAYLOAD_SIZE {
      SameButCommand(buffer, changed, HEADER_SIZE + LengthOf(buffer), crc);
      var sent := WriteBuffer(changed).bytes;
      ReadAcceptsFrames(sent, sent, [], crc);
      assert sent == sent + [];
    }
  }

  lemma SameButCommand(before: seq<byte>, after: seq<byte>, n: nat, crc: Crc)
    requires HEADER_SIZE <= n <= |before| == |after| && after[4..] == before[4..]
    ensures IsFrame(after[..n], crc) <==> IsFrame(before[..n], crc)
    ensures CommandOf(after[..n]) == CommandOf(after) && after[..n][HEADER_SIZE..] == before[HEADER_SIZE..n]
  {
    assert forall k :: 4 <= k < n ==> after[k] == after[4..][k - 4] == before[4..][k - 4] == before[k];
    assert after[..n][0..4] == after[0..4];
    assert after[..n][4..8] == before[..n][4..8];
    assert after[..n][8..12] == before[..n][8..12];
    assert after[..n][HEADER_SIZE..] == before[..n][HEADER_SIZE..] == before[HEADER_SIZE..n];
  }
}
