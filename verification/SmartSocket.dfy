/** The smart-socket client (client/adb/smartSocket.go): hex length prefixes,
    responses and the device list. */
module SmartSocket {
  import opened Bytes
  import opened Frames
  import opened AdbMessages
  import DeviceLists
  import opened Wrappers

  // ----- hex lengths

  function Digit(n: nat): byte
    requires n < 16
  {
    if n < 10 then 0x30 + n else 0x41 + (n - 10)
  }

  /** n in base 16, upper case. */
  function Hex(n: nat): (s: seq<byte>)
    ensures |s| >= 1
  {
    if n < 16 then [Digit(n)] else Hex(n / 16) + [Digit(n % 16)]
  }

  function Pad(s: seq<byte>, width: nat): (r: seq<byte>)
    decreases width - |s|
  {
    if |s| >= width then s else Pad([0x30] + s, width)
  }

  /** "%04X". */
  function Hex4(n: nat): seq<byte> { Pad(Hex(n), 4) }

  function DigitValue(b: byte): Option<nat> {
    if 0x30 <= b <= 0x39 then Some(b - 0x30)
    else if 0x41 <= b <= 0x46 then Some(b - 0x41 + 10)
    else if 0x61 <= b <= 0x66 then Some(b - 0x61 + 10)
    else None
  }

  function Unsigned(s: seq<byte>): Option<nat> {
    if s == [] then Some(0)
    else
      var high, low := Unsigned(s[..|s| - 1]), DigitValue(s[|s| - 1]);
      if high.Some? && low.Some? then Some(16 * high.value + low.value) else None
  }

  const PLUS: byte := 0x2B
  const MINUS: byte := 0x2D

  /** ParseInt(s, 16, 0) of a few bytes: a sign is accepted. */
  function ParseHex(s: seq<byte>): Option<int> {
    var signed := s != [] && (s[0] == PLUS || s[0] == MINUS);
    var digits := if signed then s[1..] else s;
    if digits == [] then None
    else
      match Unsigned(digits)
      case None => None
      case Some(n) => var value: int := n; Some(if signed && s[0] == MINUS then -value else value)
  }

  function Power16(k: nat): (p: nat)
    ensures p >= 1
  {
    if k == 0 then 1 else 16 * Power16(k - 1)
  }

  lemma {:induction false} HexSize(n: nat, k: nat)
    requires k >= 1
    ensures |Hex(n)| <= k <==> n < Power16(k)
  {
    if n >= 16 && k > 1 {
      HexSize(n / 16, k - 1);
    } else {
      assert Power16(k) == 16 * Power16(k - 1);
    }
  }

  predicate Signless(s: seq<byte>) { forall i :: 0 <= i < |s| ==> s[i] >= 0x30 }

  lemma {:induction false} HexValue(n: nat)
    ensures Unsigned(Hex(n)) == Some(n) && Signless(Hex(n))
  {
    if n < 16 {
      assert Hex(n)[..0] == [];
    } else {
      HexValue(n / 16);
      assert Hex(n)[..|Hex(n)| - 1] == Hex(n / 16);
    }
  }

  lemma {:induction false} LeadingZero(s: seq<byte>)
    ensures Unsigned([0x30] + s) == Unsigned(s)
  {
    if s == [] {
      assert ([0x30] + s)[..0] == [];
    } else {
      LeadingZero(s[..|s| - 1]);
      assert ([0x30] + s)[..|s|] == [0x30] + s[..|s| - 1];
    }
  }

  lemma {:induction false} PadKeeps(s: seq<byte>, width: nat)
    requires Signless(s)
    ensures Unsigned(Pad(s, width)) == Unsigned(s) && Signless(Pad(s, width))
    ensures |Pad(s, width)| == if |s| >= width then |s| else width
    decreases width - |s|
  {
    if |s| < width {
      LeadingZero(s);
      PadKeeps([0x30] + s, width);
    }
  }

  predicate UpperHex(b: byte) { 0x30 <= b <= 0x39 || 0x41 <= b <= 0x46 }

  lemma {:induction false} HexIsUpper(n: nat)
    ensures forall i :: 0 <= i < |Hex(n)| ==> UpperHex(Hex(n)[i])
  {
    if n >= 16 {
      HexIsUpper(n / 16);
    }
  }

  lemma {:induction false} PadIsUpper(s: seq<byte>, width: nat)
    requires forall i :: 0 <= i < |s| ==> UpperHex(s[i])
    ensures forall i :: 0 <= i < |Pad(s, width)| ==> UpperHex(Pad(s, width)[i])
    decreases width - |s|
  {
    if |s| < width {
      PadIsUpper([0x30] + s, width);
    }
  }

  /** The prefix always denotes the length, and it is four digits long exactly up to 0xFFFF. Its
      digits are decimal or capital. */
  lemma PrefixDenotesLength(n: nat)
    ensures forall i :: 0 <= i < |Hex4(n)| ==> UpperHex(Hex4(n)[i])
    ensures ParseHex(Hex4(n)) == Some(n)
    ensures |Hex4(n)| >= 4 && (|Hex4(n)| == 4 <==> n <= 0xFFFF)
  {
    HexIsUpper(n);
    PadIsUpper(Hex(n), 4);
    HexValue(n);
    PadKeeps(Hex(n), 4);
    HexSize(n, 4);
    assert Power16(4) == 0x1_0000;
  }

  /** Longer prefixes cut after four digits denote at most a sixteenth of the length. */
  lemma {:induction false} CutPrefix(n: nat)
    requires n > 0xFFFF
    ensures |Hex(n)| > 4 && Signless(Hex(n))
    ensures Unsigned(Hex(n)[..4]).Some? && Unsigned(Hex(n)[..4]).value <= n / 16
  {
    HexValue(n);
    HexSize(n, 4);
    assert Power16(4) == 0x1_0000 && Power16(3) == 0x1000;
    if n / 16 > 0xFFFF {
      CutPrefix(n / 16);
      assert Hex(n)[..4] == Hex(n / 16)[..4];
    } else {
      HexSize(n / 16, 3);
      HexSize(n / 16, 4);
      HexValue(n / 16);
      assert Hex(n)[..4] == Hex(n / 16);
    }
  }

  lemma {:induction false} UnsignedBound(s: seq<byte>)
    requires Unsigned(s).Some?
    ensures Unsigned(s).value < Power16(|s|)
  {
    if s != [] {
      UnsignedBound(s[..|s| - 1]);
    }
  }

  // ----- commands and responses

  const MAX_RESPONSE := 1024 * 1024

  /** sendCommand, and what the server answers with: the length, then the bytes. */
  function Framed(body: seq<byte>): seq<byte> { Hex4(|body|) + body }

  datatype Response = Body(bytes: seq<byte>, rest: seq<byte>) | Failed | Panicked

  /** readResponse on a connection that holds these bytes and then ends; make panics on a negative length. */
  function ReadResponse(stream: seq<byte>): Response {
    if |stream| < 4 || ParseHex(stream[..4]).None? then Failed
    else
      var n := ParseHex(stream[..4]).value;
      if n > MAX_RESPONSE then Failed
      else if n < 0 then Panicked
      else if |stream| < 4 + n then Failed
      else Body(stream[4..4 + n], stream[4 + n..])
  }

  /** Four characters never reach the size limit, whatever they are. */
  lemma LimitOutOfReach(prefix: seq<byte>)
    requires |prefix| == 4 && ParseHex(prefix).Some?
    ensures -0xFFF <= ParseHex(prefix).value <= 0xFFFF < MAX_RESPONSE
  {
    assert Power16(4) == 0x1_0000 && Power16(3) == 0x1000;
    var digits := if prefix[0] == PLUS || prefix[0] == MINUS then prefix[1..] else prefix;
    UnsignedBound(digits);
  }

  /** A framed response is read back exactly when it has at most 0xFFFF bytes. */
  lemma ResponseRoundTrip(body: seq<byte>, rest: seq<byte>)
    ensures ReadResponse(Framed(body) + rest) == Body(body, rest) <==> |body| <= 0xFFFF
  {
    PrefixDenotesLength(|body|);
    var stream := Framed(body) + rest;
    if |body| <= 0xFFFF {
      assert stream[..4] == Hex4(|body|);
      assert stream[4..4 + |body|] == body && stream[4 + |body|..] == rest;
    } else if ParseHex(stream[..4]).Some? {
      LimitOutOfReach(stream[..4]);
    }
  }

  /** What a longer one is read as: at most a sixteenth of it. */
  lemma LongResponseIsCut(body: seq<byte>, rest: seq<byte>)
    requires |body| > 0xFFFF
    ensures ReadResponse(Framed(body) + rest).Body? && |ReadResponse(Framed(body) + rest).bytes| <= |body| / 16
  {
    CutPrefix(|body|);
    var stream := Framed(body) + rest;
    assert stream[..4] == Hex(|body|)[..4];
    LimitOutOfReach(stream[..4]);
  }

  /** The allocation panics exactly on a minus sign followed by three digits that are not all zero. */
  lemma ResponsePanics(stream: seq<byte>)
    ensures ReadResponse(stream).Panicked? <==>
      |stream| >= 4 && stream[0] == MINUS && Unsigned(stream[1..4]).Some? && Unsigned(stream[1..4]).value > 0
  {
    if |stream| >= 4 {
      assert stream[..4][1..] == stream[1..4];
    }
  }

  // ----- the service named in an OPEN

  /** strings.TrimRight(service, "\x00"). */
  function TrimRight(s: seq<byte>): (r: seq<byte>)
    ensures r <= s && (r != [] ==> r[|r| - 1] != 0)
    ensures forall i :: |r| <= i < |s| ==> s[i] == 0
  {
    if s != [] && s[|s| - 1] == 0 then TrimRight(s[..|s| - 1]) else s
  }

  /** DataString of a decoded message whose data is there. */
  function ServiceOf(m: seq<byte>): seq<byte>
    requires |m| >= ADB_HEADER && ADB_HEADER + DataLength(m) <= |m|
  {
    TrimRight(m[ADB_HEADER..ADB_HEADER + DataLength(m)])
  }

  /** Whatever OPEN fits in a transporter message, its service command is framed with four digits and
      reads back as the service. */
  lemma ServiceFits(m: seq<byte>, rest: seq<byte>)
    requires |m| <= MAX_PAYLOAD_SIZE && DecodeMessage(m).Decoded? && ADB_HEADER + DataLength(m) < TWO32
    ensures ADB_HEADER + DataLength(m) <= |m|
    ensures |Hex4(|ServiceOf(m)|)| == 4
    ensures ReadResponse(Framed(ServiceOf(m)) + rest) == Body(ServiceOf(m), rest)
  {
    DecodedDataInRange(m);
    PrefixDenotesLength(|ServiceOf(m)|);
    ResponseRoundTrip(ServiceOf(m), rest);
  }

  // ----- the whole exchange

  /** Whatever DeviceList makes of the adb server's answer is the list the server printed exactly when
      the list is clean and at most 0xFFFF bytes long. */
  lemma DeviceListArrives(ds: seq<DeviceLists.Device>, rest: seq<byte>, r: DeviceLists.Parsed)
    ensures var response := ReadResponse(Framed(DeviceLists.Print(ds)) + rest);
      && response.Body?
      && (DeviceLists.Answers(response.bytes, r) ==>
            (r == DeviceLists.Devices(ds) <==> DeviceLists.AllClean(ds) && |DeviceLists.Print(ds)| <= 0xFFFF))
  {
    var printed := DeviceLists.Print(ds);
    ResponseRoundTrip(printed, rest);
    if |printed| <= 0xFFFF {
      if DeviceLists.Answers(printed, r) {
        DeviceLists.DeviceListRoundTrip(ds, r);
      }
    } else {
      LongResponseIsCut(printed, rest);
    }
  }
}
