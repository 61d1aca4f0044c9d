/** The ADB message as the Go type is: one buffer that Set and Read overwrite. */
module AdbBuffer {
  import opened Bytes
  import opened AdbMessages

  const ADB_BUFFER_SIZE: nat := ADB_HEADER + MAX_PAYLOAD_LENGTH

  lemma Prefix(header: seq<byte>, data: seq<byte>, stale: seq<byte>)
    requires |header| == ADB_HEADER
    ensures var b := header + data + stale;
      b[..ADB_HEADER + |data|] == header + data && b[12..16] == header[12..16]
  {
  }

  /** A buffer into which header and data of a stream were read holds its beginning. */
  lemma ReadIn(b: seq<byte>, stream: seq<byte>, n: nat)
    requires ADB_HEADER + n <= |b| && ADB_HEADER + n <= |stream|
    requires b[..ADB_HEADER] == stream[..ADB_HEADER]
    requires b[ADB_HEADER..ADB_HEADER + n] == stream[ADB_HEADER..ADB_HEADER + n]
    ensures b[..ADB_HEADER + n] == stream[..ADB_HEADER + n] && DataLength(b) == DataLength(stream)
  {
    Joined(b, stream[..ADB_HEADER], stream[ADB_HEADER..ADB_HEADER + n]);
    Joined(stream, stream[..ADB_HEADER], stream[ADB_HEADER..ADB_HEADER + n]);
  }

  lemma Joined(b: seq<byte>, header: seq<byte>, data: seq<byte>)
    requires |header| == ADB_HEADER && ADB_HEADER + |data| <= |b|
    requires b[..ADB_HEADER] == header && b[ADB_HEADER..ADB_HEADER + |data|] == data
    ensures b[..ADB_HEADER + |data|] == header + data && b[12..16] == header[12..16]
  {
  }

  /** What a buffer shows in which Set has put a header and data over what was there before. */
  lemma SetShows(b: seq<byte>, command: u32, arg1: u32, arg2: u32, sum: u32, data: seq<byte>, stale: seq<byte>)
    requires |data| <= MAX_PAYLOAD_LENGTH && b == HeaderOf(command, arg1, arg2, |data|, sum) + data + stale
    ensures DataLength(b) == |data| && b[..ADB_HEADER + |data|] == HeaderOf(command, arg1, arg2, |data|, sum) + data
    ensures AdbCommand(b) == command && Arg1(b) == arg1 && Arg2(b) == arg2
    ensures DataChecksum(b) == sum && MagicOf(b) == Magic(command)
  {
    var h := HeaderOf(command, arg1, arg2, |data|, sum);
    Prefix(h, data, stale);
    assert b[..ADB_HEADER] == (h + data)[..ADB_HEADER] == h;
    HeaderFields(b, command, arg1, arg2, |data|, sum);
  }

  class AdbMessage {
    const buffer: array<byte>

    ghost predicate Valid()
    {
      buffer.Length == ADB_BUFFER_SIZE
    }

    constructor ()
      ensures Valid() && fresh(buffer)
    {
      buffer := new byte[ADB_BUFFER_SIZE](_ => 0);
    }

    ghost function Image(): (b: seq<byte>)
      requires Valid()
      reads buffer
      ensures |b| == ADB_BUFFER_SIZE
    {
      buffer[..]
    }

    /** Bytes(): header and declared data. */
    ghost function Wire(): seq<byte>
      requires Valid() && DataLength(Image()) <= MAX_PAYLOAD_LENGTH
      reads buffer
    {
      Image()[..ADB_HEADER + DataLength(Image())]
    }

    method CopyIn(at: nat, bytes: seq<byte>)
      requires Valid() && at + |bytes| <= ADB_BUFFER_SIZE
      modifies buffer
      ensures buffer[..at] == old(buffer[..at]) && buffer[at..at + |bytes|] == bytes
      ensures buffer[at + |bytes|..] == old(buffer[at + |bytes|..])
    {
      var i := 0;
      while i < |bytes|
        invariant 0 <= i <= |bytes|
        invariant buffer[..at] == old(buffer[..at]) && buffer[at..at + i] == bytes[..i]
        invariant buffer[at + i..] == old(buffer[at + i..])
      {
        buffer[at + i] := bytes[i];
        i := i + 1;
      }
    }

    /** Set: refuses data over MAXDATA, by its length in uint32, and leaves the buffer alone then. Data of
        2^32 bytes or more can pass; its length is then recorded modulo 2^32 and the checksum is that of
        all of it. */
    method Set(command: u32, arg1: u32, arg2: u32, data: seq<byte>) returns (ok: bool)
      requires Valid()
      modifies buffer
      ensures ok <==> Wrap32(|data|) <= MAX_PAYLOAD_LENGTH
      ensures !ok ==> Image() == old(Image())
      ensures ok ==>
        && DataLength(Image()) == Wrap32(|data|)
        && Wire() == HeaderOf(command, arg1, arg2, Wrap32(|data|), Wrap32(ByteSum(data))) + data[..Wrap32(|data|)]
      ensures ok ==>
        && AdbCommand(Image()) == command && Arg1(Image()) == arg1 && Arg2(Image()) == arg2
        && DataChecksum(Image()) == Wrap32(ByteSum(data)) && MagicOf(Image()) == Magic(command)
      ensures |data| <= MAX_PAYLOAD_LENGTH ==> ok && Wire() == MakeAdb(command, arg1, arg2, data)
    {
      var length := Wrap32(|data|);
      assert |data| <= MAX_PAYLOAD_LENGTH ==> length == |data|;
      if length > MAX_PAYLOAD_LENGTH {
        return false;
      }
      var sum := Checksum(data);
      var header := HeaderOf(command, arg1, arg2, length, sum);
      var stored := if |data| <= MAX_PAYLOAD_LENGTH then data else data[..MAX_PAYLOAD_LENGTH];
      Store(header, stored);
      ghost var stale := stored[length..] + Image()[ADB_HEADER + |stored|..];
      assert Image() == header + data[..length] + stale;
      SetShows(Image(), command, arg1, arg2, sum, data[..length], stale);
      assert |data| <= MAX_PAYLOAD_LENGTH ==> data[..length] == data;
      return true;
    }

    method Store(header: seq<byte>, data: seq<byte>)
      requires Valid() && |header| == ADB_HEADER && |data| <= MAX_PAYLOAD_LENGTH
      modifies buffer
      ensures Image() == header + data + Image()[ADB_HEADER + |data|..]
    {
      CopyIn(0, header);
      assert buffer[..ADB_HEADER] == header;
      CopyIn(ADB_HEADER, data);
    }

    /** Read: header, command, magic, length, data. */
    method Read(stream: seq<byte>) returns (result: AdbRead)
      requires Valid()
      modifies buffer
      ensures result == ReadAdb(stream)
      ensures result.AdbAccepted? ==>
        IsAdb(result.m) && DataLength(Image()) == |result.m| - ADB_HEADER && Wire() == result.m
    {
      if |stream| < ADB_HEADER {
        CopyIn(0, stream);
        return AdbRejected(AdbError.ShortHeader);
      }
      CopyIn(0, stream[..ADB_HEADER]);
      assert buffer[..ADB_HEADER] == stream[..ADB_HEADER];
      if !ValidCommand(AdbCommand(stream)) {
        return AdbRejected(BadCommand);
      }
      if MagicOf(stream) != Magic(AdbCommand(stream)) {
        return AdbRejected(BadMagic);
      }
      var n := DataLength(stream);
      if n > MAX_PAYLOAD_LENGTH {
        return AdbRejected(TooLong);
      }
      if |stream| < ADB_HEADER + n {
        CopyIn(ADB_HEADER, stream[ADB_HEADER..]);
        return AdbRejected(ShortData);
      }
      CopyIn(ADB_HEADER, stream[ADB_HEADER..ADB_HEADER + n]);
      ReadIn(Image(), stream, n);
      result := AdbAccepted(stream[..ADB_HEADER + n], stream[ADB_HEADER + n..]);
      ReadAcceptsAdb(stream, result.m, result.rest);
    }
  }
}
