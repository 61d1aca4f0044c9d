/** The ADB message codec (client/adb/adbMessage.go) and its embedding into
    transporter messages (client/transportLayer/client.go, client/relay/relay.go). */
module AdbMessages {
  import opened Bytes
  import opened Frames

  const ADB_HEADER: nat := 0x0018
  const MAX_PAYLOAD_LENGTH: nat := 0x8000

  const CONNECT: u32 := 0x4e584e43
  const SYNC: u32 := 0x434e5953
  const OPEN: u32 := 0x4e45504f
  const OKAY: u32 := 0x59414b4f
  const CLOSE: u32 := 0x45534c43
  const WRITE: u32 := 0x45545257

  /** The commands are their own names, as the bytes stand on the wire. */
  lemma CommandsSpellNames()
    ensures Put32(CONNECT) == CNXN_BYTES && Put32(SYNC) == SYNC_BYTES && Put32(OPEN) == OPEN_BYTES
    ensures Put32(OKAY) == OKAY_BYTES && Put32(CLOSE) == CLSE_BYTES && Put32(WRITE) == WRTE_BYTES
  {
    PutGet32(CNXN_BYTES);
    PutGet32(SYNC_BYTES);
    PutGet32(OPEN_BYTES);
    PutGet32(OKAY_BYTES);
    PutGet32(CLSE_BYTES);
    PutGet32(WRTE_BYTES);
  }

  const CNXN_BYTES: seq<byte> := [0x43, 0x4E, 0x58, 0x4E]
  const SYNC_BYTES: seq<byte> := [0x53, 0x59, 0x4E, 0x43]
  const OPEN_BYTES: seq<byte> := [0x4F, 0x50, 0x45, 0x4E]
  const OKAY_BYTES: seq<byte> := [0x4F, 0x4B, 0x41, 0x59]
  const CLSE_BYTES: seq<byte> := [0x43, 0x4C, 0x53, 0x45]
  const WRTE_BYTES: seq<byte> := [0x57, 0x52, 0x54, 0x45]

  predicate ValidCommand(c: u32) {
    c == CONNECT || c == SYNC || c == OPEN || c == OKAY || c == CLOSE || c == WRITE
  }

  /** command ^ 0xffffffff. */
  function Magic(command: u32): u32 { 0xFFFF_FFFF - command }

  /** The magic is the complement of the command in every byte. */
  lemma MagicComplements(command: u32)
    ensures forall k :: 0 <= k < 4 ==> Put32(Magic(command))[k] == 0xFF - Put32(command)[k]
  {
    var m := Magic(command);
    var s := Put32(command);
    var t := [0xFF - s[0], 0xFF - s[1], 0xFF - s[2], 0xFF - s[3]];
    GetPut32(command);
    assert Get32(t) == m;
    PutGet32(t);
  }

  function AdbCommand(m: seq<byte>): u32 requires |m| >= ADB_HEADER { Get32(m[0..4]) }
  function Arg1(m: seq<byte>): u32 requires |m| >= ADB_HEADER { Get32(m[4..8]) }
  function Arg2(m: seq<byte>): u32 requires |m| >= ADB_HEADER { Get32(m[8..12]) }
  function DataLength(m: seq<byte>): u32 requires |m| >= ADB_HEADER { Get32(m[12..16]) }
  function DataChecksum(m: seq<byte>): u32 requires |m| >= ADB_HEADER { Get32(m[16..20]) }
  function MagicOf(m: seq<byte>): u32 requires |m| >= ADB_HEADER { Get32(m[20..24]) }

  /** A whole ADB message: known command, matching magic, exactly the declared data. The checksum
      field may hold anything. */
  predicate IsAdb(m: seq<byte>) {
    && |m| >= ADB_HEADER
    && ValidCommand(AdbCommand(m)) && MagicOf(m) == Magic(AdbCommand(m))
    && DataLength(m) == |m| - ADB_HEADER <= MAX_PAYLOAD_LENGTH
  }

  // ----- checksum

  function ByteSum(data: seq<byte>): nat {
    if data == [] then 0 else ByteSum(data[..|data| - 1]) + data[|data| - 1]
  }

  method Checksum(data: seq<byte>) returns (sum: u32)
    ensures sum == Wrap32(ByteSum(data))
  {
    sum := 0;
    var i := 0;
    while i < |data|
      invariant 0 <= i <= |data| && sum == Wrap32(ByteSum(data[..i]))
    {
      assert data[..i + 1][..i] == data[..i];
      var b: int := data[i];
      sum := Wrap32(sum + b);
      i := i + 1;
    }
    assert data[..i] == data;
  }

  /** The sum is over the bytes, each counted once, in whatever pieces they come. */
  lemma {:induction false} ByteSumConcat(a: seq<byte>, b: seq<byte>)
    ensures ByteSum(a + b) == ByteSum(a) + ByteSum(b)
    ensures forall x: byte :: ByteSum([x]) == x
  {
    if b == [] {
      assert a + b == a;
    } else {
      ByteSumConcat(a, b[..|b| - 1]);
      assert (a + b)[..|a + b| - 1] == a + b[..|b| - 1];
    }
    forall x: byte ensures ByteSum([x]) == x {
      assert [x][..0] == [];
    }
  }

  lemma {:induction false} ByteSumBound(data: seq<byte>)
    ensures ByteSum(data) <= 255 * |data|
  {
    if data != [] {
      ByteSumBound(data[..|data| - 1]);
    }
  }

  /** Within MAXDATA the truncation to 32 bits never happens. */
  lemma ChecksumExact(data: seq<byte>)
    requires |data| <= MAX_PAYLOAD_LENGTH
    ensures Wrap32(ByteSum(data)) == ByteSum(data)
  {
    ByteSumBound(data);
  }

  // ----- building, reading, decoding

  function HeaderOf(command: u32, arg1: u32, arg2: u32, length: u32, sum: u32): (h: seq<byte>)
    ensures |h| == ADB_HEADER
  {
    Put32(command) + Put32(arg1) + Put32(arg2) + Put32(length) + Put32(sum) + Put32(Magic(command))
  }

  /** The header holds what it was made of, where a reader looks for it. */
  lemma HeaderFields(b: seq<byte>, command: u32, arg1: u32, arg2: u32, length: u32, sum: u32)
    requires |b| >= ADB_HEADER && b[..ADB_HEADER] == HeaderOf(command, arg1, arg2, length, sum)
    ensures AdbCommand(b) == command && Arg1(b) == arg1 && Arg2(b) == arg2
    ensures DataLength(b) == length && DataChecksum(b) == sum && MagicOf(b) == Magic(command)
  {
    var h := HeaderOf(command, arg1, arg2, length, sum);
    assert b[0..4] == h[0..4] == Put32(command) && b[4..8] == h[4..8] == Put32(arg1);
    assert b[8..12] == h[8..12] == Put32(arg2) && b[12..16] == h[12..16] == Put32(length);
    assert b[16..20] == h[16..20] == Put32(sum) && b[20..24] == h[20..24] == Put32(Magic(command));
    GetPut32(command);
    GetPut32(arg1);
    GetPut32(arg2);
    GetPut32(length);
    GetPut32(sum);
    GetPut32(Magic(command));
  }

  /** The message Set builds. */
  function MakeAdb(command: u32, arg1: u32, arg2: u32, data: seq<byte>): (m: seq<byte>)
    requires |data| <= MAX_PAYLOAD_LENGTH
    ensures |m| == ADB_HEADER + |data|
  {
    HeaderOf(command, arg1, arg2, |data|, Wrap32(ByteSum(data))) + data
  }

  lemma MakeAdbFields(command: u32, arg1: u32, arg2: u32, data: seq<byte>)
    requires |data| <= MAX_PAYLOAD_LENGTH
    ensures var m := MakeAdb(command, arg1, arg2, data);
      && AdbCommand(m) == command && Arg1(m) == arg1 && Arg2(m) == arg2 && DataLength(m) == |data|
      && DataChecksum(m) == Wrap32(ByteSum(data)) && MagicOf(m) == Magic(command) && m[ADB_HEADER..] == data
  {
    var m, sum := MakeAdb(command, arg1, arg2, data), Wrap32(ByteSum(data));
    assert m[..ADB_HEADER] == HeaderOf(command, arg1, arg2, |data|, sum);
    HeaderFields(m, command, arg1, arg2, |data|, sum);
  }

  datatype AdbError = ShortHeader | BadCommand | BadMagic | TooLong | ShortData

  datatype AdbRead = AdbAccepted(m: seq<byte>, rest: seq<byte>) | AdbRejected(error: AdbError)

  /** Read on a stream that holds these bytes and then ends. */
  function ReadAdb(stream: seq<byte>): AdbRead {
    if |stream| < ADB_HEADER then AdbRejected(AdbError.ShortHeader)
    else if !ValidCommand(AdbCommand(stream)) then AdbRejected(BadCommand)
    else if MagicOf(stream) != Magic(AdbCommand(stream)) then AdbRejected(BadMagic)
    else
      var n := DataLength(stream);
      if n > MAX_PAYLOAD_LENGTH then AdbRejected(TooLong)
      else if |stream| < ADB_HEADER + n then AdbRejected(ShortData)
      else AdbAccepted(stream[..ADB_HEADER + n], stream[ADB_HEADER + n..])
  }

  lemma SameHeader(m: seq<byte>, longer: seq<byte>)
    requires |m| >= ADB_HEADER && m <= longer
    ensures AdbCommand(longer) == AdbCommand(m) && MagicOf(longer) == MagicOf(m)
    ensures DataLength(longer) == DataLength(m) && DataChecksum(longer) == DataChecksum(m)
  {
    assert longer[0..4] == m[0..4] && longer[12..16] == m[12..16];
    assert longer[16..20] == m[16..20] && longer[20..24] == m[20..24];
  }

  /** Read accepts exactly the streams that begin with an ADB message, and takes exactly it. */
  lemma ReadAcceptsAdb(stream: seq<byte>, m: seq<byte>, rest: seq<byte>)
    ensures ReadAdb(stream) == AdbAccepted(m, rest) <==> IsAdb(m) && stream == m + rest
  {
    if IsAdb(m) && stream == m + rest {
      SameHeader(m, stream);
      assert stream[..|m|] == m && stream[|m|..] == rest;
    }
    if ReadAdb(stream) == AdbAccepted(m, rest) {
      SameHeader(m, stream);
      assert stream == m + rest;
    }
  }

  datatype DecodeResult = Decoded | TooShort | NotACommand | NotTheMagic | Exceeds

  /** DecodeMessage; the bound is computed in uint32. */
  function DecodeMessage(data: seq<byte>): DecodeResult {
    if |data| < ADB_HEADER then TooShort
    else if !ValidCommand(AdbCommand(data)) then NotACommand
    else if MagicOf(data) != Magic(AdbCommand(data)) then NotTheMagic
    else if Wrap32(ADB_HEADER + DataLength(data)) > Wrap32(|data|) then Exceeds
    else Decoded
  }

  /** Bytes() of a decoded message, with its uint32 end. */
  function DecodedBytes(data: seq<byte>): seq<byte>
    requires |data| < TWO32 && DecodeMessage(data).Decoded?
  {
    assert Wrap32(|data|) == |data|;
    data[..Wrap32(ADB_HEADER + DataLength(data))]
  }

  /** Data() of an accepted message is in range exactly when header plus declared length is below 2^32. */
  lemma DecodedDataInRange(data: seq<byte>)
    requires |data| < TWO32 && DecodeMessage(data).Decoded?
    ensures ADB_HEADER + DataLength(data) <= |data| <==> ADB_HEADER + DataLength(data) < TWO32
  {
    if ADB_HEADER + DataLength(data) < TWO32 {
      assert Wrap32(ADB_HEADER + DataLength(data)) == ADB_HEADER + DataLength(data);
    }
  }

  /** A bare header that declares 2^32 - 1 data bytes is accepted, and its data is not there. */
  lemma WrappedLengthAccepted()
    ensures exists data :: |data| == ADB_HEADER && DecodeMessage(data).Decoded? && DataLength(data) == 0xFFFF_FFFF
  {
    var n: u32 := 0xFFFF_FFFF;
    var data := HeaderOf(OKAY, 0, 0, n, 0);
    assert data[..ADB_HEADER] == data;
    HeaderFields(data, OKAY, 0, 0, n, 0);
    assert Wrap32(ADB_HEADER + n) == 23;
  }

  // ----- the two layers

  const ADB_TRANSPORT: u32 := 0x0006

  /** SendAdbMessage: the whole message as a raw transporter payload. */
  function Embed(m: seq<byte>, crc: Crc): seq<byte>
    requires |m| <= MAX_PAYLOAD_SIZE
  {
    MakeFrame(ADB_TRANSPORT, m, crc)
  }

  /** DecodeMessage of exactly one message looks only at command and magic, and keeps all of it. */
  lemma DecodeWhole(m: seq<byte>)
    requires |m| >= ADB_HEADER && DataLength(m) == |m| - ADB_HEADER <= MAX_PAYLOAD_LENGTH
    ensures DecodeMessage(m).Decoded? <==> IsAdb(m)
    ensures IsAdb(m) ==> DecodedBytes(m) == m
  {
    assert Wrap32(ADB_HEADER + DataLength(m)) == |m| == Wrap32(|m|);
    assert m[..|m|] == m;
  }

  /** Every ADB message, checksum field included, arrives bit for bit. */
  lemma SurvivesBothLayers(m: seq<byte>, crc: Crc, following: seq<byte>)
    requires IsAdb(m)
    ensures |m| <= MAX_PAYLOAD_SIZE
    ensures var f := Embed(m, crc);
      && ReadFrame(f + following, crc) == Accepted(f, following)
      && CommandOf(f) == ADB_TRANSPORT
      && f[HEADER_SIZE..] == m
      && DecodeMessage(f[HEADER_SIZE..]).Decoded? && DecodedBytes(f[HEADER_SIZE..]) == m
  {
    var f := Embed(m, crc);
    MakeFrameIsFrame(ADB_TRANSPORT, m, crc);
    ReadTakesFrame(f, following, crc);
    DecodeWhole(m);
  }

  /** What Set builds survives exactly when its command is one of the six: Set does not check it. */
  lemma SetSurvives(command: u32, arg1: u32, arg2: u32, data: seq<byte>, crc: Crc)
    requires |data| <= MAX_PAYLOAD_LENGTH
    ensures var m := MakeAdb(command, arg1, arg2, data);
      && (IsAdb(m) <==> ValidCommand(command))
      && Embed(m, crc)[HEADER_SIZE..] == m
      && (DecodeMessage(m).Decoded? <==> ValidCommand(command))
      && (ValidCommand(command) ==> DecodedBytes(m) == m)
  {
    var m := MakeAdb(command, arg1, arg2, data);
    MakeAdbFields(command, arg1, arg2, data);
    DecodeWhole(m);
    MakeFrameIsFrame(ADB_TRANSPORT, m, crc);
  }
}
