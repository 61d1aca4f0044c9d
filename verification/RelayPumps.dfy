/** The relay's two pumps (client/relay/relay.go). Only the guest runs them; the
    owner's end is the multiplexer. The theorems below compose the two pumps as
    functions: whatever reads the wire as the second pump does gets exactly what
    the first was given. */
module RelayPumps {
  import opened Bytes
  import opened Frames
  import opened AdbMessages
  import opened AdbBuffer
  import opened Wrappers

  // ----- lists of messages

  /** The images of a list of messages. */
  function Each(ms: seq<seq<byte>>, f: seq<byte> -> seq<byte>): seq<seq<byte>> {
    if ms == [] then [] else Each(ms[..|ms| - 1], f) + [f(ms[|ms| - 1])]
  }

  lemma EachSnoc(ms: seq<seq<byte>>, m: seq<byte>, f: seq<byte> -> seq<byte>)
    ensures Each(ms + [m], f) == Each(ms, f) + [f(m)]
  {
    assert (ms + [m])[..|ms|] == ms;
  }

  function Cut(bytes: seq<byte>, n: nat): seq<byte> { if n <= |bytes| then bytes[..n] else bytes }

  /** How a connection stands: what went out on it, and how many more writes succeed before one fails
      after some bytes. */
  datatype Out = Open(bytes: seq<byte>, writes: nat, partial: nat) | Broken(bytes: seq<byte>)

  function Write(out: Out, bytes: seq<byte>): Out {
    match out
    case Broken(_) => out
    case Open(before, writes, partial) =>
      if writes == 0 then Broken(before + Cut(bytes, partial)) else Open(before + bytes, writes - 1, partial)
  }

  /** Messages handled one after another, each causing a write or none. */
  function WriteAll(out: Out, fs: seq<seq<byte>>, handle: seq<byte> -> Option<seq<byte>>): Out {
    if fs == [] then out
    else
      var before := WriteAll(out, fs[..|fs| - 1], handle);
      match handle(fs[|fs| - 1])
      case None => before
      case Some(bytes) => Write(before, bytes)
  }

  lemma WriteAllSnoc(out: Out, fs: seq<seq<byte>>, f: seq<byte>, handle: seq<byte> -> Option<seq<byte>>)
    ensures WriteAll(out, fs + [f], handle) ==
      match handle(f)
      case None => WriteAll(out, fs, handle)
      case Some(bytes) => Write(WriteAll(out, fs, handle), bytes)
  {
    assert (fs + [f])[..|fs|] == fs;
  }

  lemma {:induction false} WriteAllAppend(out: Out, fs: seq<seq<byte>>, gs: seq<seq<byte>>,
                                          handle: seq<byte> -> Option<seq<byte>>)
    ensures WriteAll(out, fs + gs, handle) == WriteAll(WriteAll(out, fs, handle), gs, handle)
  {
    if gs == [] {
      assert fs + gs == fs;
    } else {
      var init, last := gs[..|gs| - 1], gs[|gs| - 1];
      WriteAllAppend(out, fs, init, handle);
      assert fs + gs == (fs + init) + [last];
      WriteAllSnoc(out, fs + init, last, handle);
    }
  }

  /** What goes out when every message is written. */
  function Passed(ms: seq<seq<byte>>, writes: nat, partial: nat): Out {
    if |ms| <= writes then Open(Concat(ms), writes - |ms|, partial)
    else Broken(Concat(ms[..writes]) + Cut(ms[writes], partial))
  }

  /** Handling undoes embedding. */
  predicate Undoes(ms: seq<seq<byte>>, f: seq<byte> -> seq<byte>, handle: seq<byte> -> Option<seq<byte>>) {
    forall i :: 0 <= i < |ms| ==> handle(f(ms[i])) == Some(ms[i])
  }

  lemma {:induction false} WritesPass(ms: seq<seq<byte>>, f: seq<byte> -> seq<byte>,
                                      handle: seq<byte> -> Option<seq<byte>>, writes: nat, partial: nat)
    requires Undoes(ms, f, handle)
    ensures WriteAll(Open([], writes, partial), Each(ms, f), handle) == Passed(ms, writes, partial)
  {
    if ms != [] {
      var init, last := ms[..|ms| - 1], ms[|ms| - 1];
      assert ms == init + [last];
      EachSnoc(init, last, f);
      WriteAllSnoc(Open([], writes, partial), Each(init, f), f(last), handle);
      assert handle(f(ms[|init|])) == Some(last);
      WritesPass(init, f, handle, writes, partial);
      PassedSnoc(init, last, writes, partial);
    }
  }

  lemma PassedSnoc(ms: seq<seq<byte>>, m: seq<byte>, writes: nat, partial: nat)
    ensures Passed(ms + [m], writes, partial) == Write(Passed(ms, writes, partial), m)
  {
    ConcatSnoc(ms, m);
    if writes <= |ms| {
      assert (ms + [m])[..writes] == ms[..writes];
    }
  }

  // ----- the pumps

  /** The ADB messages at the start of a stream, at most `limit` of them. */
  function TakeMessages(stream: seq<byte>, limit: nat): (ms: seq<seq<byte>>)
    ensures |ms| <= limit
    decreases |stream|
  {
    match ReadAdb(stream)
    case AdbRejected(_) => []
    case AdbAccepted(m, rest) => if |rest| < |stream| && limit > 0 then [m] + TakeMessages(rest, limit - 1) else []
  }

  lemma TakeOne(stream: seq<byte>, m: seq<byte>, rest: seq<byte>, limit: nat)
    requires ReadAdb(stream) == AdbAccepted(m, rest) && limit > 0
    ensures TakeMessages(stream, limit) == [m] + TakeMessages(rest, limit - 1)
    ensures |m| <= MAX_PAYLOAD_SIZE && |rest| < |stream|
  {
    ReadAcceptsAdb(stream, m, rest);
  }

  lemma Regroup(ms: seq<seq<byte>>, m: seq<byte>, more: seq<seq<byte>>)
    ensures ms + ([m] + more) == (ms + [m]) + more
  {
  }

  /** SendAdbMessage on the wire. */
  function Framed(m: seq<byte>, crc: Crc): seq<byte> { if |m| <= MAX_PAYLOAD_SIZE then Embed(m, crc) else [] }

  function Framer(crc: Crc): seq<byte> -> seq<byte> { m => Framed(m, crc) }

  /** What handleIncoming writes to the local connection for a transporter message, if anything. */
  function Incoming(f: seq<byte>): Option<seq<byte>> {
    if HEADER_SIZE <= |f| <= HEADER_SIZE + MAX_PAYLOAD_SIZE
       && CommandOf(f) == ADB_TRANSPORT && DecodeMessage(f[HEADER_SIZE..]).Decoded?
    then Some(DecodedBytes(f[HEADER_SIZE..])) else None
  }

  /** What goes on the wire for a stream when so many sends succeed. */
  function Outgoing(stream: seq<byte>, sends: nat, crc: Crc): seq<byte> {
    Concat(Each(TakeMessages(stream, sends), Framer(crc)))
  }

  /** The messages taken off so far are on the wire; the rest is still to come. */
  predicate Carried(stream: seq<byte>, sends: nat, ms: seq<seq<byte>>, rest: seq<byte>, left: nat,
                    wire: seq<byte>, crc: Crc) {
    && ms + TakeMessages(rest, left) == TakeMessages(stream, sends)
    && wire == Concat(Each(ms, Framer(crc)))
  }

  lemma CarriedNone(stream: seq<byte>, sends: nat, crc: Crc)
    ensures Carried(stream, sends, [], stream, sends, [], crc)
  {
    assert [] + TakeMessages(stream, sends) == TakeMessages(stream, sends);
  }

  lemma CarriedOn(stream: seq<byte>, sends: nat, ms: seq<seq<byte>>, rest: seq<byte>, left: nat,
                  wire: seq<byte>, crc: Crc, m: seq<byte>, more: seq<byte>)
    requires Carried(stream, sends, ms, rest, left, wire, crc) && ReadAdb(rest) == AdbAccepted(m, more) && left > 0
    ensures Carried(stream, sends, ms + [m], more, left - 1, wire + Framed(m, crc), crc) && |more| < |rest|
  {
    TakeOne(rest, m, more, left);
    Regroup(ms, m, TakeMessages(more, left - 1));
    Sent(ms, m, crc);
  }

  lemma CarriedAll(stream: seq<byte>, sends: nat, ms: seq<seq<byte>>, rest: seq<byte>, left: nat,
                   wire: seq<byte>, crc: Crc)
    requires Carried(stream, sends, ms, rest, left, wire, crc) && (ReadAdb(rest).AdbRejected? || left == 0)
    ensures wire == Outgoing(stream, sends, crc)
  {
    assert ms + [] == ms;
  }

  lemma Sent(ms: seq<seq<byte>>, m: seq<byte>, crc: Crc)
    ensures Concat(Each(ms + [m], Framer(crc))) == Concat(Each(ms, Framer(crc))) + Framed(m, crc)
  {
    EachSnoc(ms, m, Framer(crc));
    ConcatSnoc(Each(ms, Framer(crc)), Framed(m, crc));
  }

  /** One turn of the loop: Read into the reused message, and SendAdbMessage. */
  method ReadAndSend(message: AdbMessage, rest: seq<byte>, left: nat, wire: seq<byte>, crc: Crc,
                     ghost stream: seq<byte>, ghost sends: nat, ghost ms: seq<seq<byte>>)
    returns (done: bool, more: seq<byte>, now: seq<byte>, ghost taken: seq<seq<byte>>)
    requires message.Valid() && Carried(stream, sends, ms, rest, left, wire, crc)
    modifies message.buffer
    ensures done ==> now == wire == Outgoing(stream, sends, crc)
    ensures !done ==> left > 0 && |more| < |rest| && Carried(stream, sends, taken, more, left - 1, now, crc)
  {
    var result := message.Read(rest);
    if result.AdbRejected? || left == 0 {
      CarriedAll(stream, sends, ms, rest, left, wire, crc);
      return true, rest, wire, ms;
    }
    CarriedOn(stream, sends, ms, rest, left, wire, crc, result.m, result.rest);
    return false, result.rest, wire + Framed(result.m, crc), ms + [result.m];
  }

  /** pumpLocalToRemote, if its sends succeed `sends` times and then fail: a loop over one reused message. */
  method PumpLocalToRemote(stream: seq<byte>, crc: Crc, sends: nat) returns (wire: seq<byte>)
    ensures wire == Outgoing(stream, sends, crc)
  {
    var message := new AdbMessage();
    wire := [];
    ghost var ms: seq<seq<byte>> := [];
    var rest, left, done := stream, sends, false;
    CarriedNone(stream, sends, crc);
    while !done
      invariant message.Valid() && fresh(message.buffer)
      invariant if done then wire == Outgoing(stream, sends, crc) else Carried(stream, sends, ms, rest, left, wire, crc)
      decreases !done, |rest|
    {
      done, rest, wire, ms := ReadAndSend(message, rest, left, wire, crc, stream, sends, ms);
      left := if done then left else left - 1;
    }
  }

  /** pumpRemoteToLocal with handleIncoming, on a local connection whose writes succeed a number of times. */
  method PumpRemoteToLocal(wire: seq<byte>, crc: Crc, writes: nat, partial: nat) returns (local: Out)
    ensures local == WriteAll(Open([], writes, partial), ParseAll(wire, crc).frames, Incoming)
  {
    local := Open([], writes, partial);
    ghost var fs: seq<seq<byte>> := [];
    var rest := wire;
    while true
      invariant fs + ParseAll(rest, crc).frames == ParseAll(wire, crc).frames
      invariant local == WriteAll(Open([], writes, partial), fs, Incoming) && local.Open?
      decreases |rest|
    {
      var result := ReadFrame(rest, crc);
      if result.Rejected? {
        assert fs + [] == fs;
        return;
      }
      var f := result.frame;
      ghost var later := ParseAll(result.rest, crc).frames;
      ReadIsSound(rest, crc);
      ParseOne(rest, f, result.rest, crc);
      assert fs + ([f] + later) == (fs + [f]) + later;
      WriteAllSnoc(local, fs, f, Incoming);
      WriteAllSnoc(Open([], writes, partial), fs, f, Incoming);
      var write := Incoming(f);
      if write.Some? {
        local := Write(local, write.value);
        if local.Broken? {
          WriteAllAppend(Open([], writes, partial), fs + [f], later, Incoming);
          BrokenStays(local, later, Incoming);
          return;
        }
      }
      fs := fs + [f];
      rest := result.rest;
    }
  }

  lemma {:induction false} BrokenStays(out: Out, fs: seq<seq<byte>>, handle: seq<byte> -> Option<seq<byte>>)
    requires out.Broken?
    ensures WriteAll(out, fs, handle) == out
  {
    if fs != [] {
      BrokenStays(out, fs[..|fs| - 1], handle);
    }
  }

  // ----- end to end

  lemma {:induction false} TakenAreAdb(stream: seq<byte>, limit: nat)
    ensures forall m :: m in TakeMessages(stream, limit) ==> IsAdb(m)
    decreases |stream|
  {
    var result := ReadAdb(stream);
    if result.AdbAccepted? && limit > 0 {
      ReadAcceptsAdb(stream, result.m, result.rest);
      TakenAreAdb(result.rest, limit - 1);
    }
  }

  lemma IncomingEmbedded(m: seq<byte>, crc: Crc)
    requires IsAdb(m)
    ensures |m| <= MAX_PAYLOAD_SIZE
    ensures IsFrame(Framed(m, crc), crc) && Incoming(Framed(m, crc)) == Some(m)
  {
    SurvivesBothLayers(m, crc, []);
    MakeFrameIsFrame(ADB_TRANSPORT, m, crc);
  }

  lemma {:induction false} EachIsFrame(ms: seq<seq<byte>>, crc: Crc)
    requires forall m :: m in ms ==> IsAdb(m)
    ensures AllFrames(Each(ms, Framer(crc)), crc)
  {
    if ms != [] {
      var init, last := ms[..|ms| - 1], ms[|ms| - 1];
      EachIsFrame(init, crc);
      IncomingEmbedded(last, crc);
    }
  }

  /** The bytes of every local ADB message sent come out on the other side, in order and unchanged, ahead
      of whatever the wire carries next; if a write fails there, up to that write and the part of it that
      went out. */
  lemma RelayIsTransparent(stream: seq<byte>, later: seq<byte>, crc: Crc, sends: nat, writes: nat, partial: nat)
    ensures var ms := TakeMessages(stream, sends);
      var wire := Concat(Each(ms, Framer(crc))) + later;
      WriteAll(Open([], writes, partial), ParseAll(wire, crc).frames, Incoming)
        == WriteAll(Passed(ms, writes, partial), ParseAll(later, crc).frames, Incoming)
  {
    var ms := TakeMessages(stream, sends);
    TakenAreAdb(stream, sends);
    EachIsFrame(ms, crc);
    ParseAhead(Each(ms, Framer(crc)), later, crc);
    forall i | 0 <= i < |ms|
      ensures Incoming(Framer(crc)(ms[i])) == Some(ms[i])
    {
      IncomingEmbedded(ms[i], crc);
    }
    WritesPass(ms, Framer(crc), Incoming, writes, partial);
    WriteAllAppend(Open([], writes, partial), Each(ms, Framer(crc)), ParseAll(later, crc).frames, Incoming);
  }

  /** What is relayed is a prefix of the local stream, and while sends succeed relaying stops only where
      no further ADB message begins. */
  lemma {:induction false} RelayStopsAtNonMessage(stream: seq<byte>, sends: nat)
    ensures var sent := Concat(TakeMessages(stream, sends));
      && sent <= stream
      && (ReadAdb(stream[|sent|..]).AdbRejected? || |TakeMessages(stream, sends)| == sends)
    decreases |stream|
  {
    var result := ReadAdb(stream);
    if result.AdbAccepted? && sends > 0 {
      var m, rest := result.m, result.rest;
      ReadAcceptsAdb(stream, m, rest);
      TakeOne(stream, m, rest, sends);
      RelayStopsAtNonMessage(rest, sends - 1);
      ConcatCons(m, TakeMessages(rest, sends - 1));
      PrefixJoins(stream, m, rest, Concat(TakeMessages(rest, sends - 1)));
    } else {
      assert stream[0..] == stream;
    }
  }

  lemma PrefixJoins(stream: seq<byte>, m: seq<byte>, rest: seq<byte>, sent: seq<byte>)
    requires stream == m + rest && sent <= rest
    ensures m + sent <= stream && stream[|m + sent|..] == rest[|sent|..]
  {
  }

  /** A transporter message that is no ADB message is read and skipped. */
  lemma OthersSkipped(f: seq<byte>, rest: seq<byte>, crc: Crc, out: Out)
    requires IsFrame(f, crc) && CommandOf(f) != ADB_TRANSPORT
    ensures WriteAll(out, ParseAll(f + rest, crc).frames, Incoming)
         == WriteAll(out, ParseAll(rest, crc).frames, Incoming)
  {
    ReadTakesFrame(f, rest, crc);
    ParseOne(f + rest, f, rest, crc);
    var more := ParseAll(rest, crc).frames;
    WriteAllAppend(out, [f], more, Incoming);
    WriteAllSnoc(out, [], f, Incoming);
    assert [] + [f] == [f];
  }
}
