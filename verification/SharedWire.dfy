/** Many goroutines sending on one client connection
    (client/transportLayer/client.go, writeMessage under writeMutex). Each
    message is written by two Write calls, header and payload; the mutex keeps
    the pairs of different senders apart. Writes here do not fail. */
module SharedWire {
  import opened Bytes
  import opened Frames
  import opened Wrappers

  datatype Pc =
    | Idle
    | WantLock(f: seq<byte>)
    | AtHeader(f: seq<byte>)    // holds the mutex, before the header write
    | AtPayload(f: seq<byte>)   // after the header write
    | AtCount(f: seq<byte>)     // after the payload write, before bytesSent.Add and Unlock

  datatype Sender = Sender(todo: seq<seq<byte>>, pc: Pc)

  /** One completed send and who made it. */
  datatype Entry = Entry(t: nat, f: seq<byte>)

  datatype State = State(
    senders: seq<Sender>,
    holder: Option<nat>,
    wire: seq<byte>,
    bytesSent: nat,
    log: seq<Entry>)

  const TWO64: int := 0x1_0000_0000_0000_0000

  /** Each sender has a sequence of messages to send. */
  function Start(plans: seq<seq<seq<byte>>>): State {
    State(seq(|plans|, t requires 0 <= t < |plans| => Sender(plans[t], Idle)), None, [], 0, [])
  }

  predicate Enabled(s: State, t: nat) {
    && t < |s.senders|
    && match s.senders[t].pc
       case Idle => s.senders[t].todo != []
       case WantLock(_) => s.holder.None?
       case AtHeader(f) => |f| >= HEADER_SIZE
       case AtPayload(f) => |f| >= HEADER_SIZE
       case AtCount(_) => true
  }

  function Step(s: State, t: nat): State
    requires Enabled(s, t)
  {
    var me := s.senders[t];
    match me.pc
    case Idle => s.(senders := s.senders[t := Sender(me.todo[1..], WantLock(me.todo[0]))])
    case WantLock(f) => s.(senders := s.senders[t := me.(pc := AtHeader(f))], holder := Some(t))
    case AtHeader(f) =>
      s.(senders := s.senders[t := me.(pc := AtPayload(f))], wire := s.wire + f[..HEADER_SIZE])
    case AtPayload(f) =>
      s.(senders := s.senders[t := me.(pc := AtCount(f))], wire := s.wire + f[HEADER_SIZE..])
    case AtCount(f) =>
      s.(senders := s.senders[t := me.(pc := Idle)], holder := None,
         bytesSent := Wrap64(s.bytesSent + |f|), log := s.log + [Entry(t, f)])
  }

  // ----- what the log says

  function FramesOf(log: seq<Entry>): seq<seq<byte>> {
    if log == [] then [] else FramesOf(log[..|log| - 1]) + [log[|log| - 1].f]
  }

  function SentBy(log: seq<Entry>, t: nat): seq<seq<byte>> {
    if log == [] then []
    else
      var last := log[|log| - 1];
      SentBy(log[..|log| - 1], t) + if last.t == t then [last.f] else []
  }

  function TotalSize(log: seq<Entry>): nat {
    if log == [] then 0 else TotalSize(log[..|log| - 1]) + |log[|log| - 1].f|
  }

  function InFlight(pc: Pc): seq<seq<byte>> { if pc.Idle? then [] else [pc.f] }

  /** The part of the holder's message that is on the wire but not in the log. */
  function Partial(s: State): seq<byte> {
    if s.holder.None? || s.holder.value >= |s.senders| then []
    else match s.senders[s.holder.value].pc
      case AtPayload(f) => if |f| >= HEADER_SIZE then f[..HEADER_SIZE] else []
      case AtCount(f) => f
      case _ => []
  }

  predicate Holds(pc: Pc) { pc.AtHeader? || pc.AtPayload? || pc.AtCount? }

  predicate Locked(s: State) {
    && (s.holder.Some? ==> s.holder.value < |s.senders|)
    && forall t :: 0 <= t < |s.senders| ==> (Holds(s.senders[t].pc) <==> s.holder == Some(t))
  }

  predicate Planned(s: State, plans: seq<seq<seq<byte>>>) {
    && |s.senders| == |plans|
    && forall t :: 0 <= t < |plans| ==>
         SentBy(s.log, t) + InFlight(s.senders[t].pc) + s.senders[t].todo == plans[t]
  }

  predicate AllPlanned(plans: seq<seq<seq<byte>>>, crc: Crc) {
    forall t :: 0 <= t < |plans| ==> AllFrames(plans[t], crc)
  }

  predicate Inv(s: State, plans: seq<seq<seq<byte>>>, crc: Crc) {
    && Locked(s) && Planned(s, plans) && AllFrames(FramesOf(s.log), crc)
    && WireExact(s)
    && s.bytesSent == Wrap64(TotalSize(s.log))
  }

  lemma LogSnoc(log: seq<Entry>, e: Entry)
    ensures FramesOf(log + [e]) == FramesOf(log) + [e.f]
    ensures TotalSize(log + [e]) == TotalSize(log) + |e.f|
    ensures forall t :: SentBy(log + [e], t) == SentBy(log, t) + if e.t == t then [e.f] else []
  {
    assert (log + [e])[..|log|] == log;
  }

  lemma StartInv(plans: seq<seq<seq<byte>>>, crc: Crc)
    ensures Inv(Start(plans), plans, crc)
  {
  }

  /** A message in flight is one of the sender's plan, so it is a frame. */
  lemma InFlightIsFrame(s: State, plans: seq<seq<seq<byte>>>, crc: Crc, t: nat)
    requires Planned(s, plans) && AllPlanned(plans, crc) && t < |plans| && !s.senders[t].pc.Idle?
    ensures IsFrame(s.senders[t].pc.f, crc)
  {
    var k := |SentBy(s.log, t)|;
    assert plans[t][k] == s.senders[t].pc.f;
  }

  lemma PlannedStep(s: State, plans: seq<seq<seq<byte>>>, t: nat)
    requires Planned(s, plans) && Enabled(s, t)
    ensures Planned(Step(s, t), plans)
  {
    var next, me := Step(s, t), s.senders[t];
    if me.pc.AtCount? {
      LogSnoc(s.log, Entry(t, me.pc.f));
    }
    forall u | 0 <= u < |plans|
      ensures SentBy(next.log, u) + InFlight(next.senders[u].pc) + next.senders[u].todo == plans[u]
    {
      if u == t && me.pc.Idle? {
        assert me.todo == [me.todo[0]] + me.todo[1..];
      } else if u != t {
        assert next.senders[u] == s.senders[u];
        assert SentBy(next.log, u) == SentBy(s.log, u);
      }
    }
  }

  /** The wire is the logged frames and what the holder has written of its own. */
  predicate WireExact(s: State) { s.wire == Concat(FramesOf(s.log)) + Partial(s) }

  lemma WriteStep(s: State, t: nat)
    requires Locked(s) && WireExact(s) && Enabled(s, t)
    requires s.senders[t].pc.AtHeader? || s.senders[t].pc.AtPayload?
    ensures WireExact(Step(s, t))
  {
    var f, sent := s.senders[t].pc.f, Concat(FramesOf(s.log));
    assert s.holder == Some(t);
    if s.senders[t].pc.AtHeader? {
      assert sent + [] == sent;
    } else {
      Associative(sent, f[..HEADER_SIZE], f[HEADER_SIZE..]);
      assert f[..HEADER_SIZE] + f[HEADER_SIZE..] == f;
    }
  }

  lemma CountStep(s: State, t: nat)
    requires Locked(s) && WireExact(s) && Enabled(s, t) && s.senders[t].pc.AtCount?
    ensures WireExact(Step(s, t))
  {
    var f := s.senders[t].pc.f;
    assert s.holder == Some(t);
    LogSnoc(s.log, Entry(t, f));
    ConcatSnoc(FramesOf(s.log), f);
    assert Concat(FramesOf(s.log) + [f]) + [] == s.wire;
  }

  /** The counter is a uint64. */
  function Wrap64(n: nat): nat { n % TWO64 }

  lemma WrapAdd(a: nat, b: nat)
    ensures Wrap64(Wrap64(a) + b) == Wrap64(a + b)
  {
    var q, r := a / TWO64, a % TWO64;
    var q', r' := (r + b) / TWO64, (r + b) % TWO64;
    assert a + b == (q + q') * TWO64 + r' && 0 <= r' < TWO64;
  }

  lemma FramesSnoc(fs: seq<seq<byte>>, f: seq<byte>, crc: Crc)
    requires AllFrames(fs, crc) && IsFrame(f, crc)
    ensures AllFrames(fs + [f], crc)
  {
  }

  lemma CountedBytes(bytes: nat, log: seq<Entry>, e: Entry)
    requires bytes == Wrap64(TotalSize(log))
    ensures Wrap64(bytes + |e.f|) == Wrap64(TotalSize(log + [e]))
  {
    LogSnoc(log, e);
    WrapAdd(TotalSize(log), |e.f|);
  }

  lemma CountedStep(s: State, crc: Crc, t: nat)
    requires Enabled(s, t) && s.senders[t].pc.AtCount? && s.bytesSent == Wrap64(TotalSize(s.log))
    requires AllFrames(FramesOf(s.log), crc) && IsFrame(s.senders[t].pc.f, crc)
    ensures AllFrames(FramesOf(Step(s, t).log), crc)
    ensures Step(s, t).bytesSent == Wrap64(TotalSize(Step(s, t).log))
  {
    var f := s.senders[t].pc.f;
    LogSnoc(s.log, Entry(t, f));
    CountedBytes(s.bytesSent, s.log, Entry(t, f));
    FramesSnoc(FramesOf(s.log), f, crc);
  }

  lemma QuietStep(s: State, t: nat)
    requires Locked(s) && WireExact(s) && Enabled(s, t)
    requires s.senders[t].pc.Idle? || s.senders[t].pc.WantLock?
    ensures WireExact(Step(s, t))
  {
    assert s.holder != Some(t);
  }

  lemma LockedStep(s: State, t: nat)
    requires Locked(s) && Enabled(s, t)
    ensures Locked(Step(s, t))
  {
  }

  lemma StepInv(s: State, plans: seq<seq<seq<byte>>>, crc: Crc, t: nat)
    requires Inv(s, plans, crc) && AllPlanned(plans, crc) && Enabled(s, t)
    ensures Inv(Step(s, t), plans, crc)
  {
    PlannedStep(s, plans, t);
    LockedStep(s, t);
    var pc := s.senders[t].pc;
    if pc.AtCount? {
      InFlightIsFrame(s, plans, crc, t);
      CountStep(s, t);
      CountedStep(s, crc, t);
    } else if pc.AtHeader? || pc.AtPayload? {
      WriteStep(s, t);
    } else {
      QuietStep(s, t);
    }
  }

  // ----- runs

  predicate Leads(s: State, turns: seq<nat>, last: State)
    decreases |turns|
  {
    if turns == [] then last == s
    else Enabled(s, turns[0]) && Leads(Step(s, turns[0]), turns[1..], last)
  }

  lemma {:induction false} RunKeepsInv(s: State, plans: seq<seq<seq<byte>>>, crc: Crc, turns: seq<nat>, last: State)
    requires Inv(s, plans, crc) && AllPlanned(plans, crc) && Leads(s, turns, last)
    ensures Inv(last, plans, crc)
    decreases |turns|
  {
    if turns != [] {
      StepInv(s, plans, crc, turns[0]);
      RunKeepsInv(Step(s, turns[0]), plans, crc, turns[1..], last);
    }
  }

  /** Whole messages on the wire: the completed sends, and the holder's if it is all there. */
  function Whole(s: State): seq<seq<byte>>
    requires Locked(s)
  {
    FramesOf(s.log) +
    if s.holder.None? then []
    else match s.senders[s.holder.value].pc
      case AtPayload(f) => if |f| == HEADER_SIZE then [f] else []
      case AtCount(f) => [f]
      case _ => []
  }

  function Rest(s: State): seq<byte>
    requires Locked(s)
  {
    if s.holder.None? then []
    else match s.senders[s.holder.value].pc
      case AtPayload(f) => if |f| > HEADER_SIZE then f[..HEADER_SIZE] else []
      case _ => []
  }

  lemma HeaderAloneRejected(f: seq<byte>, crc: Crc)
    requires IsFrame(f, crc) && |f| > HEADER_SIZE
    ensures ReadFrame(f[..HEADER_SIZE], crc).Rejected?
  {
    assert f[..HEADER_SIZE][4..8] == f[4..8];
  }

  /** The wire ends inside a message that its sender has only begun. */
  lemma HeaderSplits(sent: seq<seq<byte>>, f: seq<byte>, crc: Crc)
    requires AllFrames(sent, crc) && IsFrame(f, crc) && |f| > HEADER_SIZE
    ensures SplitsInto(Concat(sent) + f[..HEADER_SIZE], Parsed(sent, f[..HEADER_SIZE]), crc)
  {
    HeaderAloneRejected(f, crc);
  }

  /** The wire ends with a whole message. */
  lemma WholeSplits(sent: seq<seq<byte>>, f: seq<byte>, crc: Crc)
    requires AllFrames(sent, crc) && IsFrame(f, crc)
    ensures SplitsInto(Concat(sent) + f, Parsed(sent + [f], []), crc)
  {
    ConcatSnoc(sent, f);
    assert Concat(sent + [f]) + [] == Concat(sent + [f]);
  }

  lemma SentSplits(sent: seq<seq<byte>>, crc: Crc)
    requires AllFrames(sent, crc)
    ensures SplitsInto(Concat(sent) + [], Parsed(sent, []), crc)
  {
  }

  lemma WireSplits(s: State, crc: Crc)
    requires Locked(s) && WireExact(s) && AllFrames(FramesOf(s.log), crc)
    requires s.holder.Some? && Holds(s.senders[s.holder.value].pc) ==> IsFrame(s.senders[s.holder.value].pc.f, crc)
    ensures SplitsInto(s.wire, Parsed(Whole(s), Rest(s)), crc)
  {
    var sent := FramesOf(s.log);
    SentSplits(sent, crc);
    assert sent + [] == sent;
    if s.holder.Some? {
      var pc := s.senders[s.holder.value].pc;
      if pc.AtPayload? && |pc.f| > HEADER_SIZE {
        HeaderSplits(sent, pc.f, crc);
      } else if pc.AtPayload? || pc.AtCount? {
        assert pc.AtPayload? ==> pc.f[..HEADER_SIZE] == pc.f;
        WholeSplits(sent, pc.f, crc);
      }
    }
  }

  /** At every moment of every run the wire parses into whole messages, the completed sends in the
      order of their completion; an unfinished header may follow, and nothing follows when nobody
      holds the mutex. Each sender's messages appear among them exactly once and in its own order,
      and bytesSent is the number of bytes of the completed sends. */
  lemma WireIsInterleaving(plans: seq<seq<seq<byte>>>, crc: Crc, turns: seq<nat>, s: State)
    requires AllPlanned(plans, crc) && Leads(Start(plans), turns, s)
    ensures Locked(s) && ParseAll(s.wire, crc) == Parsed(Whole(s), Rest(s))
    ensures s.holder.None? ==> ParseAll(s.wire, crc) == Parsed(FramesOf(s.log), [])
    ensures |s.senders| == |plans|
    ensures forall t :: 0 <= t < |plans| ==>
      SentBy(s.log, t) + InFlight(s.senders[t].pc) + s.senders[t].todo == plans[t]
    ensures s.bytesSent == Wrap64(TotalSize(s.log))
  {
    StartInv(plans, crc);
    RunKeepsInv(Start(plans), plans, crc, turns, s);
    if s.holder.Some? && Holds(s.senders[s.holder.value].pc) {
      InFlightIsFrame(s, plans, crc, s.holder.value);
    }
    WireSplits(s, crc);
    ParseOfFrames(s.wire, Whole(s), Rest(s), crc);
  }

  /** Each completed send added exactly the message's wire size, header plus payload length. */
  lemma {:induction false} BytesAreWireSizes(log: seq<Entry>)
    ensures TotalSize(log) == |Concat(FramesOf(log))|
  {
    if log != [] {
      BytesAreWireSizes(log[..|log| - 1]);
      ConcatSnoc(FramesOf(log[..|log| - 1]), log[|log| - 1].f);
    }
  }
}
