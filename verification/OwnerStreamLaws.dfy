/** What the invariant of one stream (module OwnerStream) says about whole logs
    and runs: alternation of WRTE and OKAY, what can follow the close of the
    device connection, how the pump ends, and the ids messages carry
    (client/relay/owner.go). */
module OwnerStreamLaws {
  import opened Bytes
  import opened OwnerStream

  // ----- flow control as alternation

  /** WRTEs sent (true) and OKAYs handled (false), in order. */
  function FlowTrace(log: seq<Event>): seq<bool> {
    if log == [] then []
    else
      var e := log[|log| - 1];
      FlowTrace(log[..|log| - 1]) +
      (if e.Sent? && e.msg.Write? then [true] else if e.OkayHandled? then [false] else [])
  }

  predicate Alternates(trace: seq<bool>) {
    forall i :: 0 <= i < |trace| ==> trace[i] == (i % 2 == 0)
  }

  /** The guest acknowledges only WRTEs it was sent. */
  predicate OnlyEarnedOkays(log: seq<Event>) {
    forall k :: 0 <= k <= |log| ==> Total(log[..k]).grants <= Total(log[..k]).writes
  }

  lemma {:induction false} TraceLength(log: seq<Event>)
    ensures |FlowTrace(log)| == Total(log).writes + Total(log).grants
  {
    if log != [] {
      TraceLength(log[..|log| - 1]);
    }
  }

  lemma AlternatesSnoc(trace: seq<bool>, write: bool)
    requires Alternates(trace) && write == (|trace| % 2 == 0)
    ensures Alternates(trace + [write])
  {
  }

  lemma Parity(writes: nat, grants: nat)
    requires 0 <= writes - grants <= 1
    ensures (writes + grants) % 2 == writes - grants
  {
    assert writes + grants == 2 * grants + (writes - grants);
  }

  lemma {:induction false} EarnedOkaysAlternate(log: seq<Event>)
    requires Paced(log) && OnlyEarnedOkays(log)
    ensures Alternates(FlowTrace(log))
  {
    if log != [] {
      var init := log[..|log| - 1];
      assert forall k :: 0 <= k <= |init| ==> init[..k] == log[..k];
      EarnedOkaysAlternate(init);
      NextAlternates(log);
    }
  }

  predicate IsWrite(e: Event) { e.Sent? && e.msg.Write? }

  /** What an event adds to the trace. */
  function Mark(write: bool, okay: bool): seq<bool> { if write then [true] else if okay then [false] else [] }

  /** One more event: what it adds to the trace it adds to the totals. */
  lemma NextTrace(log: seq<Event>)
    requires log != []
    ensures var init, e := log[..|log| - 1], log[|log| - 1];
      && FlowTrace(log) == FlowTrace(init) + Mark(IsWrite(e), e.OkayHandled?)
      && Total(log).writes == Total(init).writes + Bit(IsWrite(e))
      && Total(log).grants == Total(init).grants + Bit(e.OkayHandled?)
  {
  }

  lemma NextAlternates(log: seq<Event>)
    requires log != [] && Paced(log) && OnlyEarnedOkays(log)
    requires Paced(log[..|log| - 1]) && OnlyEarnedOkays(log[..|log| - 1]) && Alternates(FlowTrace(log[..|log| - 1]))
    ensures Alternates(FlowTrace(log))
  {
    var init, e := log[..|log| - 1], log[|log| - 1];
    NextTrace(log);
    TraceLength(init);
    Balanced(log);
    Balanced(init);
    MoreAlternates(FlowTrace(init), IsWrite(e), e.OkayHandled?, Total(init).writes, Total(init).grants);
  }

  lemma MoreAlternates(trace: seq<bool>, write: bool, okay: bool, writes: nat, grants: nat)
    requires Alternates(trace) && |trace| == writes + grants && !(write && okay)
    requires 0 <= writes - grants <= 1 && 0 <= writes + Bit(write) - grants - Bit(okay) <= 1
    ensures Alternates(trace + Mark(write, okay))
  {
    Parity(writes, grants);
    if write || okay {
      AlternatesSnoc(trace, write);
    } else {
      assert trace + [] == trace;
    }
  }

  lemma Balanced(log: seq<Event>)
    requires Paced(log) && OnlyEarnedOkays(log)
    ensures 0 <= Total(log).writes - Total(log).grants <= 1
  {
    assert log[..|log|] == log;
  }

  lemma AlternatesBefore(trace: seq<bool>, write: bool, okay: bool)
    requires Alternates(trace + Mark(write, okay))
    ensures Alternates(trace)
    ensures write ==> |trace| % 2 == 0
    ensures !write && okay ==> |trace| % 2 != 0
  {
    var more := trace + Mark(write, okay);
    assert forall i :: 0 <= i < |trace| ==> more[i] == trace[i];
    assert write || okay ==> more[|trace|] == write;
  }

  lemma {:induction false} AlternationCounts(log: seq<Event>)
    requires Alternates(FlowTrace(log))
    ensures Total(log).writes - Total(log).grants == |FlowTrace(log)| % 2
  {
    if log != [] {
      var init, e := log[..|log| - 1], log[|log| - 1];
      NextTrace(log);
      AlternatesBefore(FlowTrace(init), IsWrite(e), e.OkayHandled?);
      AlternationCounts(init);
    }
  }

  lemma {:induction false} AlternationEarned(log: seq<Event>)
    requires Alternates(FlowTrace(log))
    ensures OnlyEarnedOkays(log)
  {
    if log == [] {
      assert forall k :: 0 <= k <= |log| ==> log[..k] == [];
    } else {
      var init := log[..|log| - 1];
      assert FlowTrace(init) <= FlowTrace(log);
      AlternationEarned(init);
      AlternationCounts(log);
      forall k | 0 <= k <= |log|
        ensures Total(log[..k]).grants <= Total(log[..k]).writes
      {
        if k < |log| {
          assert log[..k] == init[..k];
        } else {
          assert log[..k] == log;
        }
      }
    }
  }

  /** WRTE and OKAY strictly alternate, WRTE first, exactly when the guest OKAYs only what it received. */
  lemma StrictAlternation(st: Stream)
    requires Inv(st)
    ensures Alternates(FlowTrace(st.log)) <==> OnlyEarnedOkays(st.log)
  {
    if OnlyEarnedOkays(st.log) {
      EarnedOkaysAlternate(st.log);
    }
    if Alternates(FlowTrace(st.log)) {
      AlternationEarned(st.log);
    }
  }

  // ----- after the device connection is closed

  lemma {:induction false} OpenHasNoTail(log: seq<Event>)
    requires Total(log).connCloses == 0
    ensures Total(log).tail == 0
  {
    if log != [] {
      OpenHasNoTail(log[..|log| - 1]);
    }
  }

  lemma {:induction false} TailMeasured(log: seq<Event>, k: nat)
    requires k < |log| && log[k].ConnClosed? && Total(log).connCloses == 1
    ensures Total(log).writes == Total(log[..k]).writes + Total(log).tail
  {
    var init, e := log[..|log| - 1], log[|log| - 1];
    if k == |log| - 1 {
      OpenHasNoTail(init);
    } else {
      assert init[..k] == log[..k];
      CloseCounted(init, k);
      TailMeasured(init, k);
      TailGrows(Total(init), e);
    }
  }

  /** Once the connection is closed every WRTE counts for the tail. */
  lemma TailGrows(t: Tally, e: Event)
    requires t.connCloses > 0
    ensures Sum(t, e).writes - t.writes == Sum(t, e).tail - t.tail
  {
  }

  lemma {:induction false} CloseCounted(log: seq<Event>, k: nat)
    requires k < |log| && log[k].ConnClosed?
    ensures Total(log).connCloses > 0
  {
    if k < |log| - 1 {
      CloseCounted(log[..|log| - 1], k);
    }
  }

  /** After the device connection is closed at most one more WRTE is sent. */
  lemma OneWriteAfterClose(st: Stream, k: nat)
    requires Inv(st) && k < |st.log| && st.log[k].ConnClosed?
    ensures Total(st.log).writes <= Total(st.log[..k]).writes + 1
  {
    CloseCounted(st.log, k);
    TailMeasured(st.log, k);
  }

  predicate IsPumpAction(a: Action) {
    ByPump(a) || ((a.Enter? || a.Advance? || a.Skip?) && a.who.Pump?)
  }

  /** Bounds the pump's remaining actions once the connection is closed. */
  function PumpRank(st: Stream): nat {
    match st.pump
    case Unborn => 0
    case Gone(_) => 0
    case Quitting(_) =>
      if st.once.Held? && st.once.actor.Pump? then
        (match st.once.stage case AtDone => 4 case AtConn => 3 case AtUnregister => 2 case AtNotify => 1)
      else 1
    case InRead(wasOpen) => if wasOpen then 6 else 2
    case Reading => 3
    case Sending(_, _) => 4
    case Waiting(_, _) => 5
  }

  lemma RankFallsDispatch(st: Stream, t: Tally, a: Action)
    requires Enabled(st, a) && Teardown(st, t) && Announced(st, t) && st.closed && ByDispatcher(a)
    ensures Step(st, a).closed
    ensures PumpRank(Step(st, a)) + Bit(IsPumpAction(a)) <= PumpRank(st)
  {
  }

  lemma RankFallsPump(st: Stream, t: Tally, a: Action)
    requires Enabled(st, a) && Teardown(st, t) && Announced(st, t) && st.closed && ByPump(a)
    ensures Step(st, a).closed
    ensures PumpRank(Step(st, a)) + Bit(IsPumpAction(a)) <= PumpRank(st)
  {
  }

  lemma RankFallsClose(st: Stream, t: Tally, a: Action)
    requires Enabled(st, a) && Teardown(st, t) && Announced(st, t) && st.closed && ByCloser(a)
    ensures Step(st, a).closed
    ensures PumpRank(Step(st, a)) + Bit(IsPumpAction(a)) <= PumpRank(st)
  {
  }

  lemma RankFalls(st: Stream, t: Tally, a: Action)
    requires Enabled(st, a) && Teardown(st, t) && Announced(st, t) && st.closed
    ensures Step(st, a).closed
    ensures PumpRank(Step(st, a)) + Bit(IsPumpAction(a)) <= PumpRank(st)
  {
    if ByDispatcher(a) {
      RankFallsDispatch(st, t, a);
    } else if ByPump(a) {
      RankFallsPump(st, t, a);
    } else {
      RankFallsClose(st, t, a);
    }
  }

  /** A pump whose connection is closed is never stuck: it can act, has ended, or waits for
      the dispatcher to finish the teardown, which then can act. */
  lemma PumpNeverStuck(st: Stream)
    requires Inv(st) && st.closed && !st.pump.Gone? && !st.pump.Unborn?
    ensures exists a :: Enabled(st, a) && (IsPumpAction(a) || a == Advance(Dispatcher, true))
  {
    match st.pump
    case Reading => assert Enabled(st, BeginRead);
    case InRead(_) => assert Enabled(st, EndRead([], true));
    case Waiting(_, _) => assert Enabled(st, SeeDone);
    case Sending(_, _) => assert Enabled(st, Relay(true));
    case Quitting(_) =>
      if st.once.Spent? {
        assert Enabled(st, Skip(Pump));
      } else {
        assert Enabled(st, Advance(st.once.actor, true));
      }
  }

  // ----- closed streams stay closed

  /** The teardown is over and the dispatcher holds the stream at most to close it again. */
  predicate Retired(st: Stream) {
    st.once.Spent? && (st.role.Away? || st.role.Closing?)
  }

  /** Nothing more reached the device or was acknowledged, and only the pump's last WRTE was sent. */
  predicate Inert(before: Tally, budgetBefore: nat, after: Tally, budgetAfter: nat) {
    && after.received == before.received && after.written == before.written
    && after.senders == before.senders && after.targets == before.targets
    && after.grants == before.grants && after.closeSends == before.closeSends
    && after.writes + budgetAfter <= before.writes + budgetBefore
  }

  lemma RetiredStep(st: Stream, t: Tally, a: Action)
    requires Enabled(st, a) && Teardown(st, t) && Retired(st)
    ensures Retired(Step(st, a))
    ensures Inert(t, Budget(st.pump), SumAll(t, Emit(st, a)), Budget(Step(st, a).pump))
  {
  }

  // ----- ids

  lemma {:induction false} TargetsAreOkays(log: seq<Event>)
    ensures forall m :: m in Total(log).messages && m.Okay? ==> m.guest in Total(log).targets
    ensures forall g :: g in Total(log).targets ==>
      exists m :: m in Total(log).messages && m.Okay? && m.guest == g
  {
    if log != [] {
      var init, e := log[..|log| - 1], log[|log| - 1];
      TargetsAreOkays(init);
      var t, u := Total(init), Total(log);
      if e.Sent? {
        assert u.messages == t.messages + [e.msg];
        assert e.msg in u.messages;
      }
    }
  }

  /** Each OKAY answers, in order, the OPEN and then the dispatched WRTEs, echoing their arg1.
      So all messages carry the id pair agreed at OPEN exactly when the acknowledged WRTEs did. */
  lemma IdPairKept(st: Stream)
    requires Inv(st)
    ensures var t := Total(st.log); t.targets <= [st.guestId] + t.senders
    ensures var t := Total(st.log);
      (forall m :: m in t.messages ==> m.own == st.ownId && m.guest == st.guestId) <==>
      (forall i :: 0 <= i < |t.targets| - 1 ==> t.senders[i] == st.guestId)
  {
    var t := Total(st.log);
    TargetsAreOkays(st.log);
    var expected := [st.guestId] + t.senders;
    assert forall i :: 0 <= i < |t.targets| ==> t.targets[i] == expected[i];
    if forall m :: m in t.messages ==> m.own == st.ownId && m.guest == st.guestId {
      forall i | 0 <= i < |t.targets| - 1
        ensures t.senders[i] == st.guestId
      {
        assert t.targets[i + 1] == t.senders[i];
        assert t.targets[i + 1] in t.targets;
      }
    }
    if forall i :: 0 <= i < |t.targets| - 1 ==> t.senders[i] == st.guestId {
      forall m | m in t.messages
        ensures m.own == st.ownId && m.guest == st.guestId
      {
        assert WellAddressed(st, m);
        if m.Okay? {
          var j :| 0 <= j < |t.targets| && t.targets[j] == m.guest;
          assert j > 0 ==> expected[j] == t.senders[j - 1];
        }
      }
    }
  }

  // ----- runs of one stream

  predicate Leads(st: Stream, acts: seq<Action>, last: Stream)
    decreases |acts|
  {
    if acts == [] then last == st
    else Enabled(st, acts[0]) && Leads(Step(st, acts[0]), acts[1..], last)
  }

  function PumpActions(acts: seq<Action>): nat {
    if acts == [] then 0 else Bit(IsPumpAction(acts[0])) + PumpActions(acts[1..])
  }

  lemma ClosedStep(st: Stream, a: Action)
    requires Inv(st) && st.closed && Enabled(st, a)
    ensures Inv(Step(st, a)) && Step(st, a).closed
    ensures PumpRank(Step(st, a)) + Bit(IsPumpAction(a)) <= PumpRank(st)
  {
    RankFalls(st, Total(st.log), a);
    StepInv(st, a);
  }

  /** Whatever happens after the connection is closed, the pump acts at most six more times. */
  lemma {:induction false} PumpWindsDown(st: Stream, acts: seq<Action>, last: Stream)
    requires Inv(st) && st.closed && Leads(st, acts, last)
    ensures Inv(last) && last.closed
    ensures PumpActions(acts) + PumpRank(last) <= PumpRank(st) <= 6
    decreases |acts|
  {
    if acts != [] {
      ClosedStep(st, acts[0]);
      PumpWindsDown(Step(st, acts[0]), acts[1..], last);
    }
  }

  /** A WRTE whose arg1 is not the id given at OPEN is acknowledged under that foreign id. */
  lemma ForeignIdEchoed(ownId: u32, guestId: u32, foreign: u32, data: seq<byte>)
    ensures exists last ::
      && Leads(Opened(ownId, guestId),
           [Announce(true), StartWrite(foreign, data), DeviceWrite(true, 0), Ack(true)], last)
      && last.log != []
      && last.log[|last.log| - 1] == Sent(Dispatcher, Okay(ownId, foreign))
  {
    var s1 := Step(Opened(ownId, guestId), Announce(true));
    var s2 := Step(s1, StartWrite(foreign, data));
    var s3 := Step(s2, DeviceWrite(true, 0));
    var s4 := Step(s3, Ack(true));
    assert Leads(s4, [], s4);
    assert Leads(s3, [Ack(true)], s4);
    assert Leads(s2, [DeviceWrite(true, 0), Ack(true)], s4);
    assert Leads(s1, [StartWrite(foreign, data), DeviceWrite(true, 0), Ack(true)], s4);
  }

  lemma {:induction false} LeadsSnoc(st: Stream, acts: seq<Action>, mid: Stream, a: Action)
    requires Leads(st, acts, mid) && Enabled(mid, a)
    ensures Leads(st, acts + [a], Step(mid, a))
    decreases |acts|
  {
    if acts == [] {
      assert Leads(Step(mid, a), [], Step(mid, a));
      assert ([a])[1..] == [];
    } else {
      LeadsSnoc(Step(st, acts[0]), acts[1..], mid, a);
      assert (acts + [a])[1..] == acts[1..] + [a];
    }
  }

  /** The pump holds a chunk and a WRTE has just failed on its way to the device. */
  function Colliding(ownId: u32, guestId: u32, chunk: seq<byte>): Stream {
    Stream(ownId, guestId, true, false, false, true, Fresh, Waiting(chunk, false), Closing(true),
      [Sent(Dispatcher, Okay(ownId, guestId)), DeviceRead(chunk), WriteReceived(guestId, []), DeviceWriteFailed([])])
  }

  lemma CollidingReached(ownId: u32, guestId: u32, chunk: seq<byte>) returns (acts: seq<Action>)
    requires 0 < |chunk| <= MAX_CHUNK
    ensures Leads(Opened(ownId, guestId), acts, Colliding(ownId, guestId, chunk))
  {
    var s0 := Opened(ownId, guestId);
    acts := [];
    var last := s0;
    assert Leads(s0, acts, last);
    acts, last := Further(s0, acts, last, Announce(true));
    acts, last := Further(s0, acts, last, BeginRead);
    acts, last := Further(s0, acts, last, EndRead(chunk, false));
    acts, last := Further(s0, acts, last, StartWrite(guestId, []));
    acts, last := Further(s0, acts, last, DeviceWrite(false, 0));
    assert last.log == Colliding(ownId, guestId, chunk).log;
  }

  /** The dispatcher has torn that stream down and told the guest. */
  function TornDown(ownId: u32, guestId: u32, chunk: seq<byte>): Stream {
    Stream(ownId, guestId, true, true, true, false, Spent, Waiting(chunk, false), Away,
      Colliding(ownId, guestId, chunk).log +
      [DoneClosed, ConnClosed, Sent(Dispatcher, Close(ownId, guestId))])
  }

  lemma HalfTornDown(ownId: u32, guestId: u32, chunk: seq<byte>) returns (acts: seq<Action>, last: Stream)
    requires 0 < |chunk| <= MAX_CHUNK
    ensures Leads(Opened(ownId, guestId), acts, last)
    ensures var c := Colliding(ownId, guestId, chunk);
      last == c.(done := true, once := Held(Dispatcher, AtConn, true), log := c.log + [DoneClosed])
  {
    var s0 := Opened(ownId, guestId);
    acts := CollidingReached(ownId, guestId, chunk);
    last := Colliding(ownId, guestId, chunk);
    acts, last := Further(s0, acts, last, Enter(Dispatcher));
    acts, last := Further(s0, acts, last, Advance(Dispatcher, true));
    assert Colliding(ownId, guestId, chunk).log + [] == Colliding(ownId, guestId, chunk).log;
  }

  lemma NearlyTornDown(ownId: u32, guestId: u32, chunk: seq<byte>) returns (acts: seq<Action>, last: Stream)
    requires 0 < |chunk| <= MAX_CHUNK
    ensures Leads(Opened(ownId, guestId), acts, last)
    ensures var c := Colliding(ownId, guestId, chunk);
      last == c.(done := true, closed := true, listed := false, once := Held(Dispatcher, AtNotify, true),
                 log := c.log + [DoneClosed] + [ConnClosed])
  {
    var s0 := Opened(ownId, guestId);
    acts, last := HalfTornDown(ownId, guestId, chunk);
    acts, last := Further(s0, acts, last, Advance(Dispatcher, true));
    ghost var log := last.log;
    acts, last := Further(s0, acts, last, Advance(Dispatcher, true));
    assert log + [] == log;
  }

  lemma TornDownReached(ownId: u32, guestId: u32, chunk: seq<byte>) returns (acts: seq<Action>)
    requires 0 < |chunk| <= MAX_CHUNK
    ensures Leads(Opened(ownId, guestId), acts, TornDown(ownId, guestId, chunk))
  {
    var s0, last := Opened(ownId, guestId), Colliding(ownId, guestId, chunk);
    acts, last := NearlyTornDown(ownId, guestId, chunk);
    acts, last := Further(s0, acts, last, Advance(Dispatcher, true));
    assert last.log == TornDown(ownId, guestId, chunk).log;
  }

  /** One run on which a WRTE does follow a CLSE: the device write fails while the pump holds a chunk. */
  lemma WriteAfterClose(ownId: u32, guestId: u32, chunk: seq<byte>) returns (acts: seq<Action>, last: Stream)
    requires 0 < |chunk| <= MAX_CHUNK
    ensures Leads(Opened(ownId, guestId), acts, last)
    ensures last.log == Colliding(ownId, guestId, chunk).log +
      [DoneClosed, ConnClosed, Sent(Dispatcher, Close(ownId, guestId)), PermitTaken,
       Sent(Pump, Write(ownId, guestId, chunk))]
  {
    var s0 := Opened(ownId, guestId);
    acts := TornDownReached(ownId, guestId, chunk);
    last := TornDown(ownId, guestId, chunk);
    acts, last := Further(s0, acts, last, TakePermit);
    acts, last := Further(s0, acts, last, Relay(true));
  }

  lemma Further(st: Stream, acts: seq<Action>, mid: Stream, a: Action) returns (more: seq<Action>, last: Stream)
    requires Leads(st, acts, mid) && Enabled(mid, a)
    ensures more == acts + [a] && last == Step(mid, a) && Leads(st, more, last)
  {
    more, last := acts + [a], Step(mid, a);
    LeadsSnoc(st, acts, mid, a);
  }
}
