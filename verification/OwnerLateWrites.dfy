/** Exactly when a message can still follow the CLSE of a stream
    (client/relay/owner.go): the done channel and the closed connection do not
    stop a pump that already holds bytes and can take the token, nor a handleWrite
    that has written to the device and not yet acknowledged. */
module OwnerLateWrites {
  import opened Bytes
  import opened OwnerStream
  import opened OwnerStreamLaws

  /** The pump is past the select, or can still reach it with bytes and find the token there. */
  predicate CanWrite(st: Stream) {
    || st.pump.Sending?
    || ((st.pump.Waiting? || (st.pump.InRead? && st.pump.wasOpen)) && st.permit)
  }

  /** The teardown is over, or the pump is. */
  predicate Closed(st: Stream) { Retired(st) || st.pump.Gone? }

  predicate SendsWrite(es: seq<Event>) { es != [] && es[0].Sent? && es[0].msg.Write? }
  predicate SendsClose(es: seq<Event>) { es != [] && es[0].Sent? && es[0].msg.Close? }

  lemma SilentStep(st: Stream, t: Tally, a: Action)
    requires Enabled(st, a) && Teardown(st, t) && Announced(st, t) && Closed(st) && !CanWrite(st)
    ensures Closed(Step(st, a)) && !CanWrite(Step(st, a)) && !SendsWrite(Emit(st, a))
  {
    if Retired(st) {
      RetiredStep(st, t, a);
    }
  }

  predicate Silent(st: Stream, writes: nat) {
    Inv(st) && Closed(st) && !CanWrite(st) && Total(st.log).writes == writes
  }

  lemma SilentKept(st: Stream, a: Action, writes: nat)
    requires Silent(st, writes) && Enabled(st, a)
    ensures Silent(Step(st, a), writes)
  {
    SilentStep(st, Total(st.log), a);
    NoWriteNoCount(st, a);
    StepInv(st, a);
  }

  lemma NoWriteNoCount(st: Stream, a: Action)
    requires Enabled(st, a) && !SendsWrite(Emit(st, a))
    ensures Total(Step(st, a).log).writes == Total(st.log).writes
  {
    TotalStep(st.log, Emit(st, a));
    NotCounted(Total(st.log), Emit(st, a));
  }

  lemma NotCounted(t: Tally, es: seq<Event>)
    requires |es| <= 1 && !SendsWrite(es)
    ensures SumAll(t, es).writes == t.writes
  {
  }

  lemma {:induction false} SilentRun(st: Stream, acts: seq<Action>, last: Stream, writes: nat)
    requires Silent(st, writes) && Leads(st, acts, last)
    ensures Silent(last, writes)
    decreases |acts|
  {
    if acts != [] {
      SilentKept(st, acts[0], writes);
      SilentRun(Step(st, acts[0]), acts[1..], last, writes);
    }
  }

  lemma SendRun(st: Stream) returns (last: Stream)
    requires st.pump.Sending?
    ensures Leads(st, [Relay(true)], last) && Total(last.log).writes == Total(st.log).writes + 1
  {
    last := Step(st, Relay(true));
    TotalStep(st.log, Emit(st, Relay(true)));
    assert ([Relay(true)])[1..] == [];
  }

  lemma Before(st: Stream, a: Action, acts: seq<Action>, last: Stream)
    requires Enabled(st, a) && Leads(Step(st, a), acts, last) && !SendsWrite(Emit(st, a))
    ensures Leads(st, [a] + acts, last) && Total(Step(st, a).log).writes == Total(st.log).writes
  {
    assert ([a] + acts)[1..] == acts;
    NoWriteNoCount(st, a);
  }

  lemma WriteRun(st: Stream) returns (acts: seq<Action>, last: Stream)
    requires CanWrite(st)
    ensures Leads(st, acts, last) && Total(last.log).writes == Total(st.log).writes + 1
    decreases if st.pump.InRead? then 2 else if st.pump.Waiting? then 1 else 0
  {
    if st.pump.Sending? {
      acts := [Relay(true)];
      last := SendRun(st);
    } else {
      var a := if st.pump.Waiting? then TakePermit else EndRead([0], false);
      acts, last := WriteRun(Step(st, a));
      Before(st, a, acts, last);
      acts := [a] + acts;
    }
  }

  ghost predicate WriteComes(st: Stream) {
    exists acts, last :: Leads(st, acts, last) && Total(last.log).writes > Total(st.log).writes
  }

  /** Once a stream is closed a further WRTE is possible exactly if the pump can still write. */
  lemma FurtherWrites(st: Stream)
    requires Inv(st) && Closed(st)
    ensures CanWrite(st) <==> WriteComes(st)
  {
    if CanWrite(st) {
      var acts, last := WriteRun(st);
    }
    if acts, last :| !CanWrite(st) && Leads(st, acts, last) && Total(last.log).writes > Total(st.log).writes {
      SilentRun(st, acts, last, Total(st.log).writes);
    }
  }

  lemma CloseSentClosed(st: Stream, t: Tally, a: Action)
    requires Enabled(st, a) && Teardown(st, t) && SendsClose(Emit(st, a))
    ensures Closed(Step(st, a))
    ensures a.Advance? && (a.who.Pump? ==> Step(st, a).pump.Gone?)
  {
  }

  /** After the step that sends the CLSE, some run sends a WRTE for the stream exactly if the pump can
      still write: never after the pump's own CLSE, and after the dispatcher's if the pump is in or past
      a read begun on the open connection, holds the token or finds it. */
  lemma WriteFollowsClose(st: Stream, a: Action)
    requires Inv(st) && Enabled(st, a) && SendsClose(Emit(st, a))
    ensures a.Advance?
    ensures var next := Step(st, a);
      && (CanWrite(next) <==> WriteComes(next))
      && (a.who.Pump? ==> !CanWrite(next))
  {
    CloseSentClosed(st, Total(st.log), a);
    StepInv(st, a);
    FurtherWrites(Step(st, a));
  }

  // ----- any message after a CLSE

  /** The closeOnce of the stream is over, and the goroutines are where they can be after it. */
  predicate Ended(st: Stream) { st.once.Spent? && Closed(st) && !st.role.Announcing? }

  /** The pump can still write, or handleWrite stands between its device write and its OKAY. */
  predicate CanSend(st: Stream) { CanWrite(st) || st.role.Acking? }

  /** Messages that can still be sent for an ended stream. */
  function Remaining(st: Stream): nat { Budget(st.pump) + Bit(st.role.Acking?) }

  predicate SendsSome(es: seq<Event>) { es != [] && es[0].Sent? }

  lemma EndedStep(st: Stream, t: Tally, a: Action)
    requires Enabled(st, a) && Teardown(st, t) && Announced(st, t) && Ended(st)
    ensures Ended(Step(st, a))
    ensures Remaining(Step(st, a)) + Bit(SendsSome(Emit(st, a))) <= Remaining(st)
    ensures !CanSend(st) ==> !CanSend(Step(st, a)) && !SendsSome(Emit(st, a))
  {
  }

  lemma MessagesCounted(st: Stream, a: Action)
    requires Enabled(st, a)
    ensures |Total(Step(st, a).log).messages| == |Total(st.log).messages| + Bit(SendsSome(Emit(st, a)))
  {
    TotalStep(st.log, Emit(st, a));
    MessagesGrow(Total(st.log), Emit(st, a));
  }

  /** An ended stream sends at most what remains, and nothing at all if it can send nothing now. */
  lemma {:induction false} EndedRun(st: Stream, acts: seq<Action>, last: Stream)
    requires Inv(st) && Ended(st) && Leads(st, acts, last)
    ensures |Total(last.log).messages| + Remaining(last) <= |Total(st.log).messages| + Remaining(st)
    ensures !CanSend(st) ==> |Total(last.log).messages| <= |Total(st.log).messages|
    decreases |acts|
  {
    if acts != [] {
      EndedStep(st, Total(st.log), acts[0]);
      MessagesCounted(st, acts[0]);
      StepInv(st, acts[0]);
      EndedRun(Step(st, acts[0]), acts[1..], last);
    }
  }

  ghost predicate MessageComes(st: Stream) {
    exists acts, last :: Leads(st, acts, last) && |Total(last.log).messages| > |Total(st.log).messages|
  }

  lemma AckComes(st: Stream)
    requires st.role.Acking?
    ensures MessageComes(st)
  {
    MessagesCounted(st, Ack(true));
    assert Leads(st, [Ack(true)], Step(st, Ack(true))) by {
      assert ([Ack(true)])[1..] == [];
    }
  }

  lemma WritesCounted(st: Stream, a: Action)
    requires Enabled(st, a)
    ensures Total(Step(st, a).log).writes <= Total(st.log).writes + Bit(SendsSome(Emit(st, a)))
  {
    TotalStep(st.log, Emit(st, a));
    CountedOnce(Total(st.log), Emit(st, a));
  }

  lemma CountedOnce(t: Tally, es: seq<Event>)
    requires |es| <= 1
    ensures SumAll(t, es).writes <= t.writes + Bit(SendsSome(es))
  {
  }

  lemma {:induction false} WritesAreMessages(st: Stream, acts: seq<Action>, last: Stream)
    requires Leads(st, acts, last)
    ensures Total(last.log).writes - Total(st.log).writes <= |Total(last.log).messages| - |Total(st.log).messages|
    decreases |acts|
  {
    if acts != [] {
      MessagesCounted(st, acts[0]);
      WritesCounted(st, acts[0]);
      WritesAreMessages(Step(st, acts[0]), acts[1..], last);
    }
  }

  lemma FurtherMessages(st: Stream)
    requires Inv(st) && Ended(st)
    ensures CanSend(st) <==> MessageComes(st)
  {
    if CanWrite(st) {
      var acts, last := WriteRun(st);
      WritesAreMessages(st, acts, last);
    } else if CanSend(st) {
      AckComes(st);
    }
    if acts, last :| !CanSend(st) && Leads(st, acts, last) && |Total(last.log).messages| > |Total(st.log).messages| {
      EndedRun(st, acts, last);
    }
  }

  lemma CloseSentEnded(st: Stream, t: Tally, a: Action)
    requires Enabled(st, a) && Teardown(st, t) && Announced(st, t) && SendsClose(Emit(st, a))
    ensures a.Advance?
    ensures var next := Step(st, a);
      && Ended(next) && Remaining(next) <= 1
      && (if a.who.Pump? then next.pump.Gone? && !CanWrite(next) else Retired(next))
      && Emit(st, a)[0].actor == a.who
  {
  }

  /** After the step that sends the CLSE, some run sends a further message for the stream exactly if the
      pump can still write or handleWrite has yet to acknowledge: only the OKAY can follow the pump's
      CLSE, only a WRTE the dispatcher's. At most one message follows, on any run. */
  lemma MessageFollowsClose(st: Stream, a: Action)
    requires Inv(st) && Enabled(st, a) && SendsClose(Emit(st, a))
    ensures a.Advance?
    ensures var next := Step(st, a);
      && (MessageComes(next) <==> CanWrite(next) || next.role.Acking?)
      && (a.who.Pump? ==> (MessageComes(next) <==> next.role.Acking?))
      && (a.who.Dispatcher? ==> (MessageComes(next) <==> CanWrite(next)))
    ensures forall acts, last :: Leads(Step(st, a), acts, last) ==>
      |Total(last.log).messages| <= |Total(Step(st, a).log).messages| + 1
  {
    var next := Step(st, a);
    CloseSentEnded(st, Total(st.log), a);
    StepInv(st, a);
    FurtherMessages(next);
    forall acts, last | Leads(next, acts, last)
      ensures |Total(last.log).messages| <= |Total(next.log).messages| + 1
    {
      EndedRun(next, acts, last);
    }
  }

  /** handleWrite has written to the device and not yet acknowledged; the pump's read has failed. */
  function Unacknowledged(ownId: u32, guestId: u32, from: u32, data: seq<byte>): Stream {
    Stream(ownId, guestId, true, false, false, true, Fresh, Quitting(true), Acking(from),
      [Sent(Dispatcher, Okay(ownId, guestId)), WriteReceived(from, data), DeviceWrote(data)])
  }

  lemma UnacknowledgedReached(ownId: u32, guestId: u32, from: u32, data: seq<byte>) returns (acts: seq<Action>)
    ensures Leads(Opened(ownId, guestId), acts, Unacknowledged(ownId, guestId, from, data))
  {
    var s0 := Opened(ownId, guestId);
    var last := s0;
    acts := [];
    assert Leads(s0, acts, last);
    acts, last := Further(s0, acts, last, Announce(true));
    acts, last := Further(s0, acts, last, StartWrite(from, data));
    acts, last := Further(s0, acts, last, DeviceWrite(true, 0));
    acts, last := Further(s0, acts, last, BeginRead);
    acts, last := Further(s0, acts, last, EndRead([], true));
    assert last.log == Unacknowledged(ownId, guestId, from, data).log;
  }

  lemma PumpTearsDown(ownId: u32, guestId: u32, from: u32, data: seq<byte>) returns (acts: seq<Action>, last: Stream)
    ensures Leads(Opened(ownId, guestId), acts, last)
    ensures var u := Unacknowledged(ownId, guestId, from, data);
      last == u.(done := true, closed := true, once := Held(Pump, AtUnregister, true),
                 log := u.log + [DoneClosed] + [ConnClosed])
  {
    var s0 := Opened(ownId, guestId);
    acts := UnacknowledgedReached(ownId, guestId, from, data);
    last := Unacknowledged(ownId, guestId, from, data);
    acts, last := Further(s0, acts, last, Enter(Pump));
    ghost var log := last.log;
    acts, last := Further(s0, acts, last, Advance(Pump, true));
    acts, last := Further(s0, acts, last, Advance(Pump, true));
    assert log + [] == log;
  }

  /** One run on which an OKAY follows the pump's CLSE. */
  lemma OkayAfterClose(ownId: u32, guestId: u32, from: u32, data: seq<byte>) returns (acts: seq<Action>, last: Stream)
    ensures Leads(Opened(ownId, guestId), acts, last)
    ensures last.log == Unacknowledged(ownId, guestId, from, data).log +
      [DoneClosed, ConnClosed, Sent(Pump, Close(ownId, guestId)), Sent(Dispatcher, Okay(ownId, from))]
  {
    var s0 := Opened(ownId, guestId);
    acts, last := PumpTearsDown(ownId, guestId, from, data);
    ghost var log := last.log;
    acts, last := Further(s0, acts, last, Advance(Pump, true));
    assert last.log == log + [] == log;
    acts, last := Further(s0, acts, last, Advance(Pump, true));
    acts, last := Further(s0, acts, last, Ack(true));
  }

  // ----- the end of every log

  function Messages(log: seq<Event>): nat { |Total(log).messages| }

  predicate IsClose(e: Event) { e.Sent? && e.msg.Close? }

  /** What may be sent after the CLSE e: the OKAY after the pump's, a WRTE after the dispatcher's. */
  predicate MayFollow(e: Event, later: Event) {
    later.Sent? ==> e.Sent? && if e.actor.Pump? then later.msg.Okay? else later.msg.Write?
  }

  /** The k-th event is a CLSE: at most one message was sent since or will be. */
  predicate Trailed(st: Stream, k: nat)
    requires k < |st.log|
  {
    && Ended(st) && Messages(st.log) + Remaining(st) <= Messages(st.log[..k + 1]) + 1
    && (st.log[k].Sent? && st.log[k].actor.Pump? ==> st.pump.Gone?)
    && (st.log[k].Sent? && st.log[k].actor.Dispatcher? ==> Retired(st))
    && forall j :: k < j < |st.log| ==> MayFollow(st.log[k], st.log[j])
  }

  predicate Trailing(st: Stream) {
    forall k :: 0 <= k < |st.log| && IsClose(st.log[k]) ==> Trailed(st, k)
  }

  lemma SendsAfterEnd(st: Stream, t: Tally, a: Action)
    requires Enabled(st, a) && Teardown(st, t) && Ended(st)
    ensures st.pump.Gone? ==> Step(st, a).pump.Gone? && forall e :: e in Emit(st, a) && e.Sent? ==> e.msg.Okay?
    ensures Retired(st) ==> Retired(Step(st, a)) && forall e :: e in Emit(st, a) && e.Sent? ==> e.msg.Write?
  {
  }

  lemma TrailedStep(st: Stream, a: Action, k: nat)
    requires Inv(st) && Enabled(st, a) && k < |st.log| && IsClose(st.log[k]) && Trailed(st, k)
    ensures k < |Step(st, a).log| && Trailed(Step(st, a), k)
  {
    var next, t := Step(st, a), Total(st.log);
    EndedStep(st, t, a);
    SendsAfterEnd(st, t, a);
    MessagesCounted(st, a);
    assert next.log[..k + 1] == st.log[..k + 1];
    forall j | k < j < |next.log|
      ensures MayFollow(next.log[k], next.log[j])
    {
      assert j >= |st.log| ==> next.log[j] in Emit(st, a);
    }
  }

  lemma TrailedStart(st: Stream, a: Action)
    requires Inv(st) && Enabled(st, a) && SendsClose(Emit(st, a))
    ensures |Step(st, a).log| == |st.log| + 1 && Trailed(Step(st, a), |st.log|)
  {
    var next := Step(st, a);
    CloseSentEnded(st, Total(st.log), a);
    assert next.log[..|st.log| + 1] == next.log;
  }

  lemma TrailingStep(st: Stream, a: Action)
    requires Inv(st) && Enabled(st, a) && Trailing(st)
    ensures Trailing(Step(st, a))
  {
    var next := Step(st, a);
    forall k | 0 <= k < |next.log| && IsClose(next.log[k])
      ensures Trailed(next, k)
    {
      if k < |st.log| {
        TrailedStep(st, a, k);
      } else {
        TrailedStart(st, a);
      }
    }
  }
}
