/** The same connection when a write fails (client/transportLayer/client.go,
    writeMessage: the error is returned, the mutex released, nothing counted). A
    TLS connection whose write has failed fails every later write without sending
    anything, so the first failure is the last thing that shows on the wire. */
module WireFailures {
  import opened Bytes
  import opened Frames
  import opened Wrappers
  import W = SharedWire

  /** `at` is how things stood when the write of sender t failed after n bytes. */
  datatype State =
    | Working(s: W.State)
    | Broken(at: W.State, t: nat, n: nat, senders: seq<W.Sender>, holder: Option<nat>, lost: seq<W.Entry>)

  datatype Action = Go(t: nat) | Fail(t: nat, n: nat)

  /** The bytes the sender hands to its next Write call. */
  function Chunk(s: W.State, t: nat): seq<byte>
    requires t < |s.senders|
  {
    match s.senders[t].pc
    case AtHeader(f) => if |f| >= HEADER_SIZE then f[..HEADER_SIZE] else []
    case AtPayload(f) => if |f| >= HEADER_SIZE then f[HEADER_SIZE..] else []
    case _ => []
  }

  predicate Writing(pc: W.Pc) { pc.AtHeader? || pc.AtPayload? }

  predicate CanFail(s: W.State, t: nat, n: nat) {
    W.Enabled(s, t) && Writing(s.senders[t].pc) && Chunk(s, t) != [] && n <= |Chunk(s, t)|
  }

  predicate Enabled(st: State, a: Action) {
    match st
    case Working(s) =>
      (match a
       case Go(t) => W.Enabled(s, t)
       case Fail(t, n) => CanFail(s, t, n))
    case Broken(_, _, _, senders, holder, _) =>
      && a.t < |senders|
      && match senders[a.t].pc
         case Idle => a.Go? && senders[a.t].todo != []
         case WantLock(_) => a.Go? && holder.None?
         case _ => a.Fail? && a.n == 0
  }

  function GiveUp(senders: seq<W.Sender>, t: nat): seq<W.Sender>
    requires t < |senders|
  {
    senders[t := senders[t].(pc := W.Idle)]
  }

  function Step(st: State, a: Action): State
    requires Enabled(st, a)
  {
    match st
    case Working(s) =>
      (match a
       case Go(t) => Working(W.Step(s, t))
       case Fail(t, n) => Broken(s, t, n, GiveUp(s.senders, t), None, [W.Entry(t, s.senders[t].pc.f)]))
    case Broken(_, _, _, senders, _, lost) =>
      var t, me := a.t, senders[a.t];
      (match me.pc
       case Idle => st.(senders := senders[t := W.Sender(me.todo[1..], W.WantLock(me.todo[0]))])
       case WantLock(f) => st.(senders := senders[t := me.(pc := W.AtHeader(f))], holder := Some(t))
       case _ => st.(senders := GiveUp(senders, t), holder := None, lost := lost + [W.Entry(t, me.pc.f)]))
  }

  /** What a reader at the other end gets. */
  function Wire(st: State): seq<byte>
    requires st.Broken? ==> CanFail(st.at, st.t, st.n)
  {
    match st
    case Working(s) => s.wire
    case Broken(at, t, n, _, _, _) => at.wire + Chunk(at, t)[..n]
  }

  // ----- what stays true

  function Senders(st: State): seq<W.Sender> { if st.Working? then st.s.senders else st.senders }
  function Log(st: State): seq<W.Entry> { if st.Working? then st.s.log else st.at.log }
  function Lost(st: State): seq<W.Entry> { if st.Working? then [] else st.lost }

  /** Each sender's messages: sent, then lost, then the one in hand, then those to come. */
  predicate Planned(st: State, plans: seq<seq<seq<byte>>>) {
    && |Senders(st)| == |plans|
    && forall t :: 0 <= t < |plans| ==>
         W.SentBy(Log(st), t) + W.SentBy(Lost(st), t) + W.InFlight(Senders(st)[t].pc) + Senders(st)[t].todo == plans[t]
  }

  predicate Inv(st: State, plans: seq<seq<seq<byte>>>, crc: Crc) {
    && Planned(st, plans)
    && match st
       case Working(s) => W.Inv(s, plans, crc)
       case Broken(at, t, n, _, _, _) => W.Inv(at, plans, crc) && CanFail(at, t, n)
  }

  lemma WorkingPlanned(s: W.State, plans: seq<seq<seq<byte>>>)
    requires W.Planned(s, plans)
    ensures Planned(Working(s), plans)
  {
    forall t | 0 <= t < |plans|
      ensures W.SentBy(s.log, t) + W.SentBy([], t) + W.InFlight(s.senders[t].pc) + s.senders[t].todo == plans[t]
    {
      assert W.SentBy(s.log, t) + [] == W.SentBy(s.log, t);
    }
  }

  /** One sender gives its message up: it goes behind what that sender has lost before. */
  lemma LostSnoc(sent: seq<seq<byte>>, lost: seq<W.Entry>, t: nat, u: nat, f: seq<byte>, todo: seq<seq<byte>>)
    ensures W.SentBy(lost + [W.Entry(t, f)], u) == W.SentBy(lost, u) + if t == u then [f] else []
    ensures sent + (W.SentBy(lost, u) + [f]) + [] + todo == sent + W.SentBy(lost, u) + [f] + todo
  {
    W.LogSnoc(lost, W.Entry(t, f));
  }

  lemma GivesUpPlanned(st: State, next: State, plans: seq<seq<seq<byte>>>, t: nat)
    requires Planned(st, plans) && t < |plans| && !Senders(st)[t].pc.Idle?
    requires Log(next) == Log(st) && Senders(next) == GiveUp(Senders(st), t)
    requires Lost(next) == Lost(st) + [W.Entry(t, Senders(st)[t].pc.f)]
    ensures Planned(next, plans)
  {
    forall u | 0 <= u < |plans|
      ensures W.SentBy(Log(next), u) + W.SentBy(Lost(next), u) + W.InFlight(Senders(next)[u].pc) + Senders(next)[u].todo
        == plans[u]
    {
      LostSnoc(W.SentBy(Log(st), u), Lost(st), t, u, Senders(st)[t].pc.f, Senders(st)[u].todo);
      assert u != t ==> W.SentBy(Lost(next), u) == W.SentBy(Lost(st), u);
    }
  }

  lemma BrokenGoPlanned(st: State, plans: seq<seq<seq<byte>>>, t: nat)
    requires st.Broken? && Planned(st, plans) && Enabled(st, Go(t))
    ensures Planned(Step(st, Go(t)), plans)
  {
    var next, me := Step(st, Go(t)), st.senders[t];
    forall u | 0 <= u < |plans|
      ensures W.SentBy(st.at.log, u) + W.SentBy(st.lost, u) + W.InFlight(next.senders[u].pc) + next.senders[u].todo
        == plans[u]
    {
      if u == t && me.pc.Idle? {
        assert me.todo == [me.todo[0]] + me.todo[1..];
      }
    }
  }

  lemma StepInv(st: State, plans: seq<seq<seq<byte>>>, crc: Crc, a: Action)
    requires Inv(st, plans, crc) && W.AllPlanned(plans, crc) && Enabled(st, a)
    ensures Inv(Step(st, a), plans, crc)
  {
    if a.Fail? {
      GivesUpPlanned(st, Step(st, a), plans, a.t);
    } else if st.Working? {
      W.StepInv(st.s, plans, crc, a.t);
      WorkingPlanned(W.Step(st.s, a.t), plans);
    } else {
      BrokenGoPlanned(st, plans, a.t);
    }
  }

  predicate Leads(st: State, acts: seq<Action>, last: State)
    decreases |acts|
  {
    if acts == [] then last == st
    else Enabled(st, acts[0]) && Leads(Step(st, acts[0]), acts[1..], last)
  }

  lemma {:induction false} RunKeepsInv(st: State, plans: seq<seq<seq<byte>>>, crc: Crc, acts: seq<Action>, last: State)
    requires Inv(st, plans, crc) && W.AllPlanned(plans, crc) && Leads(st, acts, last)
    ensures Inv(last, plans, crc)
    decreases |acts|
  {
    if acts != [] {
      StepInv(st, plans, crc, acts[0]);
      RunKeepsInv(Step(st, acts[0]), plans, crc, acts[1..], last);
    }
  }

  // ----- what the reader makes of it

  /** Read takes no proper part of a message for a message. */
  lemma PartRejected(f: seq<byte>, k: nat, crc: Crc)
    requires IsFrame(f, crc) && k < |f|
    ensures ReadFrame(f[..k], crc).Rejected?
  {
    if k >= HEADER_SIZE {
      assert f[..k][4..8] == f[4..8];
    }
  }

  /** How much of the failing message went out. */
  function OutOf(at: W.State, t: nat, n: nat): nat
    requires CanFail(at, t, n)
  {
    if at.senders[t].pc.AtPayload? then HEADER_SIZE + n else n
  }

  lemma BrokenWire(at: W.State, plans: seq<seq<seq<byte>>>, crc: Crc, t: nat, n: nat)
    requires W.Inv(at, plans, crc) && W.AllPlanned(plans, crc) && CanFail(at, t, n)
    ensures IsFrame(at.senders[t].pc.f, crc) && OutOf(at, t, n) <= |at.senders[t].pc.f|
    ensures at.wire + Chunk(at, t)[..n] == Concat(W.FramesOf(at.log)) + at.senders[t].pc.f[..OutOf(at, t, n)]
  {
    var f, sent := at.senders[t].pc.f, Concat(W.FramesOf(at.log));
    W.InFlightIsFrame(at, plans, crc, t);
    assert at.holder == Some(t);
    if at.senders[t].pc.AtPayload? {
      Associative(sent, f[..HEADER_SIZE], f[HEADER_SIZE..][..n]);
      assert f[..HEADER_SIZE] + f[HEADER_SIZE..][..n] == f[..HEADER_SIZE + n];
    } else {
      assert sent + [] == sent && f[..HEADER_SIZE][..n] == f[..n];
    }
  }

  lemma PartParsed(sent: seq<seq<byte>>, f: seq<byte>, k: nat, crc: Crc)
    requires AllFrames(sent, crc) && IsFrame(f, crc) && k <= |f|
    ensures ParseAll(Concat(sent) + f[..k], crc) == if k == |f| then Parsed(sent + [f], []) else Parsed(sent, f[..k])
  {
    if k == |f| {
      assert f[..k] == f;
      W.WholeSplits(sent, f, crc);
      ParseOfFrames(Concat(sent) + f[..k], sent + [f], [], crc);
    } else {
      PartRejected(f, k, crc);
      ParseOfFrames(Concat(sent) + f[..k], sent, f[..k], crc);
    }
  }

  /** On every run, once a write has failed the wire is and stays the completed messages in their order and
      then a part of the failing one, which may be all of it; and each sender has sent a prefix of its
      messages, lost those after it, and has the rest still to try. */
  lemma WireAfterFailure(plans: seq<seq<seq<byte>>>, crc: Crc, acts: seq<Action>, st: State)
    requires W.AllPlanned(plans, crc) && Leads(Working(W.Start(plans)), acts, st) && st.Broken?
    ensures CanFail(st.at, st.t, st.n) && |st.senders| == |plans|
    ensures var f, k := st.at.senders[st.t].pc.f, OutOf(st.at, st.t, st.n);
      && k <= |f|
      && ParseAll(Wire(st), crc) ==
           if k == |f| then Parsed(W.FramesOf(st.at.log) + [f], []) else Parsed(W.FramesOf(st.at.log), f[..k])
    ensures forall t :: 0 <= t < |plans| ==>
      W.SentBy(st.at.log, t) + W.SentBy(st.lost, t) + W.InFlight(st.senders[t].pc) + st.senders[t].todo == plans[t]
  {
    W.StartInv(plans, crc);
    WorkingPlanned(W.Start(plans), plans);
    RunKeepsInv(Working(W.Start(plans)), plans, crc, acts, st);
    BrokenWire(st.at, plans, crc, st.t, st.n);
    PartParsed(W.FramesOf(st.at.log), st.at.senders[st.t].pc.f, OutOf(st.at, st.t, st.n), crc);
  }
}
