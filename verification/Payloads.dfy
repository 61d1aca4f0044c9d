/** The typed payloads of shared/protocol/payload.definition.go on values: a
    payload is a row of integers and length-prefixed strings. Go strings and
    byte slices are both byte sequences here; a Go int is any integer. */
module Payloads {
  import opened Bytes
  import opened Frames
  import opened Wrappers

  datatype Field = Num(n: int) | Text(s: seq<byte>)
  datatype Kind = NumKind | TextKind

  /** uint32(len(value)), the length that is written. */
  function CutLength(s: seq<byte>): u32 { Wrap32(|s|) }

  /** What is written for a field. */
  function Encode(f: Field): seq<byte> {
    match f
    case Num(n) => Put32(Wrap32(n))
    case Text(s) => Put32(CutLength(s)) + s[..CutLength(s)]
  }

  function EncodeAll(fs: seq<Field>): seq<byte> {
    if fs == [] then [] else Encode(fs[0]) + EncodeAll(fs[1..])
  }

  /** The field as a reader of its encoding sees it. */
  function Cut(f: Field): Field {
    match f
    case Num(n) => Num(Wrap32(n))
    case Text(s) => Text(s[..CutLength(s)])
  }

  /** readInt and readString, as a Go caller sees them: bounds are the message's payload. */
  function DecodeNum(payload: seq<byte>, offset: nat): Option<(nat, int)> {
    if |payload| < offset + 4 then None else Some((offset + 4, Get32(payload[offset..offset + 4])))
  }

  function DecodeText(payload: seq<byte>, offset: nat): Option<(nat, seq<byte>)> {
    if |payload| < offset + 4 then None
    else
      var n := Get32(payload[offset..offset + 4]);
      if n > |payload| - (offset + 4) then None
      else Some((offset + 4 + n, payload[offset + 4..offset + 4 + n]))
  }

  function DecodeField(payload: seq<byte>, offset: nat, kind: Kind): Option<(nat, Field)> {
    match kind
    case NumKind =>
      (match DecodeNum(payload, offset) case None => None case Some((next, n)) => Some((next, Num(n))))
    case TextKind =>
      (match DecodeText(payload, offset) case None => None case Some((next, s)) => Some((next, Text(s))))
  }

  function KindOf(f: Field): Kind { if f.Num? then NumKind else TextKind }

  lemma DecodeOne(before: seq<byte>, f: Field, after: seq<byte>)
    ensures DecodeField(before + Encode(f) + after, |before|, KindOf(f)) ==
      Some((|before| + |Encode(f)|, Cut(f)))
  {
    if f.Num? {
      assert Encode(f) + [] == Encode(f);
      Between(before, Put32(Wrap32(f.n)), [], after);
      GetPut32(Wrap32(f.n));
    } else {
      var n := CutLength(f.s);
      Between(before, Put32(n), f.s[..n], after);
      GetPut32(n);
    }
  }

  lemma Between(before: seq<byte>, x: seq<byte>, y: seq<byte>, after: seq<byte>)
    ensures var p, at := before + (x + y) + after, |before|;
      p[at..at + |x|] == x && p[at + |x|..at + |x| + |y|] == y
  {
  }

  // ----- the payload types

  datatype Payload =
    | ErrorPayload(code: int, message: seq<byte>)
    | Connect(version: int)
    | ConnectResponse(clientId: seq<byte>)
    | CreateRoomResponse(roomId: seq<byte>)
    | ConnectRoom(roomId: seq<byte>, clientId: seq<byte>, key: seq<byte>)
    | ConnectRoomResult(accepted: int, clientId: seq<byte>, key: seq<byte>)

  datatype PayloadType = TError | TConnect | TConnectResponse | TCreateRoomResponse | TConnectRoom | TConnectRoomResult

  function TypeOf(p: Payload): PayloadType {
    match p
    case ErrorPayload(_, _) => TError
    case Connect(_) => TConnect
    case ConnectResponse(_) => TConnectResponse
    case CreateRoomResponse(_) => TCreateRoomResponse
    case ConnectRoom(_, _, _) => TConnectRoom
    case ConnectRoomResult(_, _, _) => TConnectRoomResult
  }

  /** What the Set method of a type writes, one field after another. */
  function Fields(p: Payload): seq<Field> {
    match p
    case ErrorPayload(code, message) => [Num(code), Text(message)]
    case Connect(version) => [Num(version)]
    case ConnectResponse(clientId) => [Text(clientId)]
    case CreateRoomResponse(roomId) => [Text(roomId)]
    case ConnectRoom(roomId, clientId, key) => [Text(roomId), Text(clientId), Text(key)]
    case ConnectRoomResult(accepted, clientId, key) => [Num(accepted), Text(clientId), Text(key)]
  }

  // ----- the Get methods

  function GetError(payload: seq<byte>): Option<Payload> {
    match DecodeNum(payload, 0)
    case None => None
    case Some((at, code)) =>
      match DecodeText(payload, at)
      case None => None
      case Some((_, message)) => Some(ErrorPayload(code, message))
  }

  function GetConnectRoom(payload: seq<byte>): Option<Payload> {
    match DecodeText(payload, 0)
    case None => None
    case Some((at, roomId)) =>
      match DecodeText(payload, at)
      case None => None
      case Some((then_, clientId)) =>
        match DecodeText(payload, then_)
        case None => None
        case Some((_, key)) => Some(ConnectRoom(roomId, clientId, key))
  }

  function GetConnectRoomResult(payload: seq<byte>): Option<Payload> {
    match DecodeNum(payload, 0)
    case None => None
    case Some((at, accepted)) =>
      match DecodeText(payload, at)
      case None => None
      case Some((then_, clientId)) =>
        match DecodeText(payload, then_)
        case None => None
        case Some((_, key)) => Some(ConnectRoomResult(accepted, clientId, key))
  }

  function Get(t: PayloadType, payload: seq<byte>): Option<Payload> {
    match t
    case TError => GetError(payload)
    case TConnect => (match DecodeNum(payload, 0) case None => None case Some((_, n)) => Some(Connect(n)))
    case TConnectResponse =>
      (match DecodeText(payload, 0) case None => None case Some((_, s)) => Some(ConnectResponse(s)))
    case TCreateRoomResponse =>
      (match DecodeText(payload, 0) case None => None case Some((_, s)) => Some(CreateRoomResponse(s)))
    case TConnectRoom => GetConnectRoom(payload)
    case TConnectRoomResult => GetConnectRoomResult(payload)
  }

  // ----- what survives

  predicate Integer32(n: int) { 0 <= n < TWO32 }
  predicate Length32(s: seq<byte>) { |s| < TWO32 }

  predicate PayloadFits(p: Payload) {
    match p
    case ErrorPayload(code, message) => Integer32(code) && Length32(message)
    case Connect(version) => Integer32(version)
    case ConnectResponse(clientId) => Length32(clientId)
    case CreateRoomResponse(roomId) => Length32(roomId)
    case ConnectRoom(roomId, clientId, key) => Length32(roomId) && Length32(clientId) && Length32(key)
    case ConnectRoomResult(accepted, clientId, key) => Integer32(accepted) && Length32(clientId) && Length32(key)
  }

  function CutText(s: seq<byte>): seq<byte> { s[..CutLength(s)] }

  /** The payload with every integer and every length cut to 32 bits. */
  function CutPayload(p: Payload): Payload {
    match p
    case ErrorPayload(code, message) => ErrorPayload(Wrap32(code), CutText(message))
    case Connect(version) => Connect(Wrap32(version))
    case ConnectResponse(clientId) => ConnectResponse(CutText(clientId))
    case CreateRoomResponse(roomId) => CreateRoomResponse(CutText(roomId))
    case ConnectRoom(roomId, clientId, key) => ConnectRoom(CutText(roomId), CutText(clientId), CutText(key))
    case ConnectRoomResult(accepted, clientId, key) =>
      ConnectRoomResult(Wrap32(accepted), CutText(clientId), CutText(key))
  }

  lemma CutTextExactly(s: seq<byte>)
    ensures CutText(s) == s <==> Length32(s)
  {
    assert s[..|s|] == s;
  }

  lemma CutPayloadExactly(p: Payload)
    ensures CutPayload(p) == p <==> PayloadFits(p)
  {
    match p
    case ErrorPayload(_, message) => CutTextExactly(message);
    case Connect(_) =>
    case ConnectResponse(clientId) => CutTextExactly(clientId);
    case CreateRoomResponse(roomId) => CutTextExactly(roomId);
    case ConnectRoom(roomId, clientId, key) =>
      CutTextExactly(roomId);
      CutTextExactly(clientId);
      CutTextExactly(key);
    case ConnectRoomResult(_, clientId, key) =>
      CutTextExactly(clientId);
      CutTextExactly(key);
  }

  lemma OneBack(f: Field, after: seq<byte>)
    ensures DecodeField(EncodeAll([f]) + after, 0, KindOf(f)) == Some((|Encode(f)|, Cut(f)))
  {
    RowOfOne(f);
    DecodeOne([], f, after);
    assert [] + Encode(f) == Encode(f);
  }

  lemma TwoBack(f: Field, g: Field, after: seq<byte>)
    ensures var payload := EncodeAll([f, g]) + after;
      && DecodeField(payload, 0, KindOf(f)) == Some((|Encode(f)|, Cut(f)))
      && DecodeField(payload, |Encode(f)|, KindOf(g)) == Some((|Encode(f) + Encode(g)|, Cut(g)))
  {
    var payload := EncodeAll([f, g]) + after;
    RowOfTwo(f, g);
    Associative(Encode(f), Encode(g), after);
    DecodeOne([], f, Encode(g) + after);
    assert [] + Encode(f) == Encode(f);
    DecodeOne(Encode(f), g, after);
  }

  lemma ThreeBack(f: Field, g: Field, h: Field, after: seq<byte>)
    ensures var payload := EncodeAll([f, g, h]) + after;
      && DecodeField(payload, 0, KindOf(f)) == Some((|Encode(f)|, Cut(f)))
      && DecodeField(payload, |Encode(f)|, KindOf(g)) == Some((|Encode(f) + Encode(g)|, Cut(g)))
      && DecodeField(payload, |Encode(f) + Encode(g)|, KindOf(h)) ==
           Some((|Encode(f) + Encode(g) + Encode(h)|, Cut(h)))
  {
    RowOfTwo(f, g);
    RowOfThree(f, g, h);
    Associative(Encode(f) + Encode(g), Encode(h), after);
    TwoBack(f, g, Encode(h) + after);
    DecodeOne(Encode(f) + Encode(g), h, after);
  }

  /** The payload of a type comes back as cut. */
  predicate ComesBack(p: Payload, after: seq<byte>) {
    Get(TypeOf(p), EncodeAll(Fields(p)) + after) == Some(CutPayload(p))
  }

  lemma ErrorBack(code: int, message: seq<byte>, after: seq<byte>)
    ensures ComesBack(ErrorPayload(code, message), after)
  {
    TwoBack(Num(code), Text(message), after);
  }

  lemma ConnectRoomBack(roomId: seq<byte>, clientId: seq<byte>, key: seq<byte>, after: seq<byte>)
    ensures ComesBack(ConnectRoom(roomId, clientId, key), after)
  {
    ThreeBack(Text(roomId), Text(clientId), Text(key), after);
  }

  lemma ConnectRoomResultBack(accepted: int, clientId: seq<byte>, key: seq<byte>, after: seq<byte>)
    ensures ComesBack(ConnectRoomResult(accepted, clientId, key), after)
  {
    ThreeBack(Num(accepted), Text(clientId), Text(key), after);
  }

  lemma ConnectBack(version: int, after: seq<byte>)
    ensures ComesBack(Connect(version), after)
  {
    OneBack(Num(version), after);
  }

  lemma IdBack(id: seq<byte>, after: seq<byte>)
    ensures ComesBack(ConnectResponse(id), after) && ComesBack(CreateRoomResponse(id), after)
  {
    OneBack(Text(id), after);
  }

  lemma AllComeBack(p: Payload, after: seq<byte>)
    ensures ComesBack(p, after)
  {
    match p
    case ErrorPayload(code, message) => ErrorBack(code, message, after);
    case Connect(version) => ConnectBack(version, after);
    case ConnectResponse(clientId) => IdBack(clientId, after);
    case CreateRoomResponse(roomId) => IdBack(roomId, after);
    case ConnectRoom(roomId, clientId, key) => ConnectRoomBack(roomId, clientId, key, after);
    case ConnectRoomResult(accepted, clientId, key) => ConnectRoomResultBack(accepted, clientId, key, after);
  }

  /** Get of what Set wrote, with anything after it, is the payload as cut, and so the payload itself exactly
      when its integers and lengths fit 32 bits. */
  lemma PayloadRoundTrip(p: Payload, after: seq<byte>)
    ensures Get(TypeOf(p), EncodeAll(Fields(p)) + after) == Some(CutPayload(p))
    ensures Get(TypeOf(p), EncodeAll(Fields(p)) + after) == Some(p) <==> PayloadFits(p)
  {
    AllComeBack(p, after);
    CutPayloadExactly(p);
  }

  /** A string with its length in front. */
  function Prefixed(s: seq<byte>): seq<byte>
    requires Length32(s)
  {
    Put32(|s|) + s
  }

  /** The bytes of each type, in the order in which they stand on the wire. */
  lemma ErrorBytes(code: int, message: seq<byte>)
    requires Integer32(code) && Length32(message)
    ensures EncodeAll(Fields(ErrorPayload(code, message))) == Put32(code) + Prefixed(message)
  {
    RowOfTwo(Num(code), Text(message));
    EncodedInFull(message);
  }

  lemma ConnectBytes(version: int)
    requires Integer32(version)
    ensures EncodeAll(Fields(Connect(version))) == Put32(version)
  {
    RowOfOne(Num(version));
  }

  lemma IdBytes(id: seq<byte>)
    requires Length32(id)
    ensures EncodeAll(Fields(ConnectResponse(id))) == EncodeAll(Fields(CreateRoomResponse(id))) == Prefixed(id)
  {
    RowOfOne(Text(id));
    EncodedInFull(id);
  }

  lemma ConnectRoomBytes(roomId: seq<byte>, clientId: seq<byte>, key: seq<byte>)
    requires Length32(roomId) && Length32(clientId) && Length32(key)
    ensures EncodeAll(Fields(ConnectRoom(roomId, clientId, key)))
      == Prefixed(roomId) + Prefixed(clientId) + Prefixed(key)
  {
    RowOfThree(Text(roomId), Text(clientId), Text(key));
    EncodedInFull(roomId);
    EncodedInFull(clientId);
    EncodedInFull(key);
  }

  lemma ConnectRoomResultBytes(accepted: int, clientId: seq<byte>, key: seq<byte>)
    requires Integer32(accepted) && Length32(clientId) && Length32(key)
    ensures EncodeAll(Fields(ConnectRoomResult(accepted, clientId, key))) ==
      Put32(accepted) + Prefixed(clientId) + Prefixed(key)
  {
    RowOfThree(Num(accepted), Text(clientId), Text(key));
    EncodedInFull(clientId);
    EncodedInFull(key);
  }

  lemma EncodedInFull(s: seq<byte>)
    requires Length32(s)
    ensures Encode(Text(s)) == Prefixed(s)
  {
    CutTextExactly(s);
  }

  lemma RowOfOne(f: Field)
    ensures EncodeAll([f]) == Encode(f)
  {
    assert EncodeAll([f][1..]) == [];
  }

  lemma RowOfTwo(f: Field, g: Field)
    ensures EncodeAll([f, g]) == Encode(f) + Encode(g)
  {
    assert [f, g][1..] == [g];
    RowOfOne(g);
  }

  lemma RowOfThree(f: Field, g: Field, h: Field)
    ensures EncodeAll([f, g, h]) == Encode(f) + Encode(g) + Encode(h)
  {
    assert [f, g, h][1..] == [g, h];
    RowOfTwo(g, h);
    Associative(Encode(f), Encode(g), Encode(h));
  }

  lemma NumHere(payload: seq<byte>, offset: nat)
    requires DecodeNum(payload, offset).Some?
    ensures var (next, n) := DecodeNum(payload, offset).value;
      && next == offset + 4 <= |payload| && Integer32(n) && payload[offset..next] == Put32(n)
  {
    PutGet32(payload[offset..offset + 4]);
  }

  lemma TextHere(payload: seq<byte>, offset: nat)
    requires DecodeText(payload, offset).Some?
    ensures var (next, s) := DecodeText(payload, offset).value;
      && offset <= next <= |payload| && Length32(s) && payload[offset..next] == Prefixed(s)
  {
    var (next, s) := DecodeText(payload, offset).value;
    PutGet32(payload[offset..offset + 4]);
    assert payload[offset..next] == payload[offset..offset + 4] + payload[offset + 4..next];
  }

  /** The payload begins with the bytes of p. */
  predicate Begins(p: Payload, payload: seq<byte>) { PayloadFits(p) && EncodeAll(Fields(p)) <= payload }

  lemma ErrorHere(payload: seq<byte>)
    requires GetError(payload).Some?
    ensures Begins(GetError(payload).value, payload)
  {
    NumHere(payload, 0);
    var (at, code) := DecodeNum(payload, 0).value;
    TextHere(payload, at);
    var (end, message) := DecodeText(payload, at).value;
    ErrorBytes(code, message);
    assert payload[..end] == payload[0..at] + payload[at..end];
  }

  lemma ThreeHere(payload: seq<byte>, a: nat, b: nat, c: nat)
    requires a <= b <= c <= |payload|
    ensures payload[..c] == payload[0..a] + payload[a..b] + payload[b..c]
  {
  }

  lemma ConnectRoomHere(payload: seq<byte>)
    requires GetConnectRoom(payload).Some?
    ensures Begins(GetConnectRoom(payload).value, payload)
  {
    TextHere(payload, 0);
    var (at, roomId) := DecodeText(payload, 0).value;
    TextHere(payload, at);
    var (then_, clientId) := DecodeText(payload, at).value;
    TextHere(payload, then_);
    var (end, key) := DecodeText(payload, then_).value;
    ConnectRoomBytes(roomId, clientId, key);
    ThreeHere(payload, at, then_, end);
  }

  lemma ConnectRoomResultHere(payload: seq<byte>)
    requires GetConnectRoomResult(payload).Some?
    ensures Begins(GetConnectRoomResult(payload).value, payload)
  {
    NumHere(payload, 0);
    var (at, accepted) := DecodeNum(payload, 0).value;
    TextHere(payload, at);
    var (then_, clientId) := DecodeText(payload, at).value;
    TextHere(payload, then_);
    var (end, key) := DecodeText(payload, then_).value;
    ConnectRoomResultBytes(accepted, clientId, key);
    ThreeHere(payload, at, then_, end);
  }

  lemma FirstHere(payload: seq<byte>)
    ensures DecodeNum(payload, 0).Some? ==> Begins(Connect(DecodeNum(payload, 0).value.1), payload)
    ensures DecodeText(payload, 0).Some? ==>
      var id := DecodeText(payload, 0).value.1;
      Begins(ConnectResponse(id), payload) && Begins(CreateRoomResponse(id), payload)
  {
    if DecodeNum(payload, 0).Some? {
      NumHere(payload, 0);
      ConnectBytes(DecodeNum(payload, 0).value.1);
      assert payload[0..4] <= payload;
    }
    if DecodeText(payload, 0).Some? {
      TextHere(payload, 0);
      var (end, id) := DecodeText(payload, 0).value;
      IdBytes(id);
      assert payload[0..end] <= payload;
    }
  }

  /** Get returns a payload exactly when its own bytes stand at the start: nothing else is ever made of them. */
  lemma GetExactly(t: PayloadType, payload: seq<byte>, p: Payload)
    ensures Get(t, payload) == Some(p) <==> TypeOf(p) == t && PayloadFits(p) && EncodeAll(Fields(p)) <= payload
  {
    if TypeOf(p) == t && Begins(p, payload) {
      var bytes := EncodeAll(Fields(p));
      PayloadRoundTrip(p, payload[|bytes|..]);
      assert bytes + payload[|bytes|..] == payload;
    }
    if Get(t, payload).Some? {
      match t
      case TError => ErrorHere(payload);
      case TConnectRoom => ConnectRoomHere(payload);
      case TConnectRoomResult => ConnectRoomResultHere(payload);
      case _ => FirstHere(payload);
    }
  }

  /** A typed message over the wire: whatever follows it, the receiver reads exactly this message, and its Get
      returns the payload exactly when that fits. */
  lemma SentPayloadArrives(p: Payload, command: u32, crc: Crc, following: seq<byte>)
    requires |EncodeAll(Fields(p))| <= MAX_PAYLOAD_SIZE
    ensures var f := MakeFrame(command, EncodeAll(Fields(p)), crc);
      && ReadFrame(f + following, crc) == Accepted(f, following)
      && CommandOf(f) == command
      && Get(TypeOf(p), f[HEADER_SIZE..]) == Some(CutPayload(p))
      && (Get(TypeOf(p), f[HEADER_SIZE..]) == Some(p) <==> PayloadFits(p))
  {
    var payload := EncodeAll(Fields(p));
    MakeFrameIsFrame(command, payload, crc);
    ReadTakesFrame(MakeFrame(command, payload, crc), following, crc);
    PayloadRoundTrip(p, []);
    assert payload + [] == payload;
  }

  // ----- where a field may be written

  /** The outcome of writeInt or writeString at an offset. */
  datatype Placed = Written(offset: nat) | NoSpace | Panics

  /** The bounds check of writeInt and writeString, in uint32. A string of 2^32 bytes or more wraps
      the check, and so does one that reaches past 2^32 from its offset; then Go's slicing panics. */
  function Place(offset: nat, f: Field): Placed
    requires offset <= MAX_PAYLOAD_SIZE
  {
    match f
    case Num(_) => if MAX_PAYLOAD_SIZE < Wrap32(offset + 4) then NoSpace else Written(offset + 4)
    case Text(s) =>
      var data := Wrap32(offset + 4);
      var next := Wrap32(data + CutLength(s));
      if MAX_PAYLOAD_SIZE < next then NoSpace
      else if next < data || MAX_PAYLOAD_SIZE < data then Panics
      else Written(next)
  }

  /** A field is written exactly when its encoding fits behind the offset. */
  lemma PlaceIsFit(offset: nat, f: Field)
    requires offset <= MAX_PAYLOAD_SIZE
    ensures Place(offset, f).Written? <==> offset + |Encode(f)| <= MAX_PAYLOAD_SIZE
    ensures Place(offset, f).Written? ==> Place(offset, f).offset == offset + |Encode(f)|
  {
  }

  /** The check lets through a write that Go then panics on exactly when its end wraps to within
      the buffer. */
  lemma PlacePanics(offset: nat, f: Field)
    requires offset <= MAX_PAYLOAD_SIZE
    ensures Place(offset, f).Panics? <==>
      f.Text? && TWO32 <= offset + 4 + CutLength(f.s) <= TWO32 + MAX_PAYLOAD_SIZE
  {
    assert Wrap32(offset + 4) == offset + 4;
  }

  /** Writing fields one after another from an offset. */
  function PlaceAll(offset: nat, fs: seq<Field>): Placed
    requires offset <= MAX_PAYLOAD_SIZE
    decreases |fs|
  {
    if fs == [] then Written(offset)
    else
      match Place(offset, fs[0])
      case Written(next) => if next <= MAX_PAYLOAD_SIZE then PlaceAll(next, fs[1..]) else NoSpace
      case other => other
  }

  lemma {:induction false} PlaceAllIsFit(offset: nat, fs: seq<Field>)
    requires offset <= MAX_PAYLOAD_SIZE
    ensures PlaceAll(offset, fs).Written? <==> offset + |EncodeAll(fs)| <= MAX_PAYLOAD_SIZE
    ensures PlaceAll(offset, fs).Written? ==> PlaceAll(offset, fs).offset == offset + |EncodeAll(fs)|
    decreases |fs|
  {
    if fs != [] {
      PlaceIsFit(offset, fs[0]);
      if offset + |Encode(fs[0])| <= MAX_PAYLOAD_SIZE {
        PlaceAllIsFit(offset + |Encode(fs[0])|, fs[1..]);
      }
    }
  }

  lemma {:induction false} EncodeSnoc(fs: seq<Field>, f: Field)
    ensures EncodeAll(fs + [f]) == EncodeAll(fs) + Encode(f)
    decreases |fs|
  {
    if fs != [] {
      EncodeSnoc(fs[1..], f);
      assert (fs + [f])[1..] == fs[1..] + [f];
      Associative(Encode(fs[0]), EncodeAll(fs[1..]), Encode(f));
    } else {
      assert fs + [f] == [f];
    }
  }

  /** One more field is placed where the fields before it ended, if they were all placed. */
  lemma {:induction false} PlaceSnoc(offset: nat, fs: seq<Field>, f: Field)
    requires offset <= MAX_PAYLOAD_SIZE
    ensures PlaceAll(offset, fs + [f]) ==
      match PlaceAll(offset, fs)
      case Written(next) => if next <= MAX_PAYLOAD_SIZE then Place(next, f) else NoSpace
      case other => other
    decreases |fs|
  {
    if fs != [] {
      assert (fs + [f])[1..] == fs[1..] + [f];
      match Place(offset, fs[0])
      case Written(next) => if next <= MAX_PAYLOAD_SIZE { PlaceSnoc(next, fs[1..], f); }
      case _ =>
    } else {
      assert fs + [f] == [f];
      PlaceIsFit(offset, f);
    }
  }
}
