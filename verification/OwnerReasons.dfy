/** Why streams of the owner-side multiplexer are closed and whom that is told, how
    the pump relays a chunk, and what becomes of OPENs and of the permit
    (client/relay/owner.go). */
module OwnerReasons {
  import opened Bytes
  import S = OwnerStream
  import L = OwnerStreamLaws
  import M = OwnerMultiplexer
  import opened OwnerCauses
  import opened Wrappers

  // ----- why a stream is closed

  /** What makes a goroutine call closeStream: a CLSE, or Close; an OKAY or a write to the device that fails; and,
      for the pump, a read that ends the stream, once what came with it is relayed, or a WRTE that cannot be sent. */
  predicate Fatal(st: S.Stream, a: S.Action)
    requires S.Enabled(st, a)
  {
    match a
    case StartClose => true
    case Announce(ok) => !ok
    case Ack(ok) => !ok
    case DeviceWrite(ok, _) => !ok
    case EndRead(data, last) => data == [] && last
    case Relay(ok) => !ok || st.pump.last
    case _ => false
  }

  /** It happened to stream i on the run; a CLSE counts if the map held the stream under its id. */
  predicate ClosedFor(s: M.State, xs: seq<M.Action>, i: nat)
    decreases |xs|
  {
    xs != [] && M.Enabled(s, xs[0]) && (FatalNow(s, xs[0], i) || ClosedFor(M.Step(s, xs[0]), xs[1..], i))
  }

  predicate FatalNow(s: M.State, x: M.Action, i: nat) {
    i < |s.streams| && Sees(s, x, i).Some? && S.Enabled(s.streams[i], Sees(s, x, i).value)
    && Fatal(s.streams[i], Sees(s, x, i).value)
  }

  /** Being closed, or closed already. */
  predicate Doomed(st: S.Stream) { st.role.Closing? || st.pump.Quitting? || !st.once.Fresh? }

  lemma DispatchDooms(st: S.Stream, a: S.Action)
    requires S.Enabled(st, a) && S.ByDispatcher(a) && S.Announced(st, S.Total(st.log))
    ensures Doomed(S.Step(st, a)) <==> Doomed(st) || Fatal(st, a)
  {
  }

  lemma PumpDooms(st: S.Stream, a: S.Action)
    requires S.Enabled(st, a) && S.ByPump(a)
    ensures Doomed(S.Step(st, a)) <==> Doomed(st) || Fatal(st, a)
  {
  }

  lemma CloserDooms(st: S.Stream, a: S.Action)
    requires S.Enabled(st, a) && S.ByCloser(a)
    ensures Doomed(S.Step(st, a)) <==> Doomed(st) || Fatal(st, a)
  {
  }

  lemma SeenDooms(st: S.Stream, action: Option<S.Action>, next: S.Stream)
    requires Did(st, action, next) && S.Announced(st, S.Total(st.log))
    ensures Doomed(next) <==> Doomed(st) || (action.Some? && Fatal(st, action.value))
  {
    if action.Some? {
      var a := action.value;
      if S.ByDispatcher(a) {
        DispatchDooms(st, a);
      } else if S.ByPump(a) {
        PumpDooms(st, a);
      } else {
        CloserDooms(st, a);
      }
    }
  }

  predicate DoomedIn(s: M.State, i: nat) { i < |s.streams| && Doomed(s.streams[i]) }

  lemma StepDooms(s: M.State, x: M.Action, i: nat)
    requires M.Inv(s) && M.Enabled(s, x)
    ensures DoomedIn(M.Step(s, x), i) <==> DoomedIn(s, i) || FatalNow(s, x, i)
  {
    if i < |s.streams| {
      assert S.Inv(s.streams[i]);
      StepSeen(s, x, i);
      SeenDooms(s.streams[i], Sees(s, x, i), M.Step(s, x).streams[i]);
    }
  }

  lemma {:induction false} RunDooms(s: M.State, xs: seq<M.Action>, last: M.State, i: nat)
    requires M.Inv(s) && M.Leads(s, xs, last)
    ensures DoomedIn(last, i) <==> DoomedIn(s, i) || ClosedFor(s, xs, i)
    decreases |xs|
  {
    if xs != [] {
      M.StepInv(s, xs[0]);
      StepDooms(s, xs[0], i);
      RunDooms(M.Step(s, xs[0]), xs[1..], last, i);
    }
  }

  /** On every run a stream is being torn down, or was, exactly if one of those things happened to it; when neither
      goroutine is at it any more it has been torn down exactly if one did. */
  lemma ClosedExactly(xs: seq<M.Action>, s: M.State, i: nat)
    requires M.Leads(M.START, xs, s) && i < |s.streams|
    ensures Doomed(s.streams[i]) <==> ClosedFor(M.START, xs, i)
    ensures !s.streams[i].role.Closing? && !s.streams[i].pump.Quitting? ==>
      (s.streams[i].once.Spent? <==> ClosedFor(M.START, xs, i))
  {
    RunDooms(M.START, xs, s, i);
    M.RunKeepsInv(M.START, xs, s);
    assert S.Inv(s.streams[i]);
  }

  // ----- whom it is told

  lemma NoticeSent(st: S.Stream, t: S.Tally, a: S.Action)
    requires S.Enabled(st, a) && a.Advance? && st.once.stage.AtNotify?
    ensures S.Step(st, a).once.Spent?
    ensures S.SumAll(t, S.Emit(st, a)).closeSends == t.closeSends + S.Bit(st.once.notify)
  {
  }

  lemma NoticeDue(st: S.Stream, t: S.Tally)
    requires S.Teardown(st, t) && S.Accounting(st, t) && st.once.Held?
    ensures t.closeSends == 0
    ensures st.once.notify <==> if st.once.actor.Dispatcher? then t.deviceFailures > 0 else st.pump == S.Quitting(true)
  {
  }

  /** The teardown attempts a CLSE exactly if the dispatcher closes because a device write failed, or the pump
      because its read did: not if the guest asked, not in Close, not if a message could not be sent. */
  lemma NoticeExactly(st: S.Stream, a: S.Action)
    requires S.Inv(st) && S.Enabled(st, a) && a.Advance? && st.once.stage.AtNotify?
    ensures S.Step(st, a).once.Spent?
    ensures S.Total(S.Step(st, a).log).closeSends ==
      S.Bit(if a.who.Dispatcher? then S.Total(st.log).deviceFailures > 0 else st.pump == S.Quitting(true))
  {
    S.TotalStep(st.log, S.Emit(st, a));
    NoticeSent(st, S.Total(st.log), a);
    NoticeDue(st, S.Total(st.log));
  }

  // ----- what the pump does with a chunk

  function Pumps(i: nat, acts: seq<S.Action>): seq<M.Action> {
    seq(|acts|, k requires 0 <= k < |acts| => M.Act(i, acts[k]))
  }

  /** A run of the pump alone is a run of the multiplexer. */
  lemma {:induction false} PumpsLift(s: M.State, i: nat, acts: seq<S.Action>, last: S.Stream)
    requires i < |s.streams| && L.Leads(s.streams[i], acts, last) && forall a :: a in acts ==> S.ByPump(a)
    ensures M.Leads(s, Pumps(i, acts), s.(streams := s.streams[i := last]))
    decreases |acts|
  {
    if acts == [] {
      assert s.streams[i := last] == s.streams;
    } else {
      var next := PumpStep(s, i, acts[0]);
      PumpsLift(next, i, acts[1..], last);
      assert Pumps(i, acts)[1..] == Pumps(i, acts[1..]);
      assert s.streams[i := next.streams[i]][i := last] == s.streams[i := last];
    }
  }

  lemma PumpStep(s: M.State, i: nat, a: S.Action) returns (next: M.State)
    requires i < |s.streams| && S.Enabled(s.streams[i], a) && S.ByPump(a)
    ensures M.Enabled(s, M.Act(i, a)) && next == M.Step(s, M.Act(i, a))
    ensures next == s.(streams := s.streams[i := S.Step(s.streams[i], a)])
  {
    next := M.Step(s, M.Act(i, a));
  }

  function Relayed(st: S.Stream, data: seq<byte>, end: bool): S.Stream {
    st.(permit := false, pump := if end then S.Quitting(true) else S.Reading,
        log := st.log + [S.DeviceRead(data), S.PermitTaken, S.Sent(S.Pump, S.Write(st.ownId, st.guestId, data))])
  }

  lemma ChunkRead(st: S.Stream, data: seq<byte>, end: bool)
    requires st.pump.Reading? && !st.closed && 0 < |data| <= S.MAX_CHUNK
    ensures L.Leads(st, [S.BeginRead, S.EndRead(data, end)],
                    st.(pump := S.Waiting(data, end), log := st.log + [S.DeviceRead(data)]))
  {
    assert [S.BeginRead, S.EndRead(data, end)][1..] == [S.EndRead(data, end)];
    assert [S.EndRead(data, end)][1..] == [] && st.log + [] == st.log;
  }

  lemma ChunkSent(st: S.Stream, data: seq<byte>, end: bool)
    requires st.pump == S.Waiting(data, end) && st.permit
    ensures L.Leads(st, [S.TakePermit, S.Relay(true)],
                    st.(permit := false, pump := if end then S.Quitting(true) else S.Reading,
                        log := st.log + [S.PermitTaken] + [S.Sent(S.Pump, S.Write(st.ownId, st.guestId, data))]))
  {
    assert [S.TakePermit, S.Relay(true)][1..] == [S.Relay(true)] && [S.Relay(true)][1..] == [];
  }

  /** A chunk read from the open device connection while the permit is there goes out as one WRTE; the pump then
      reads on, or, if the read that gave the chunk was the last, closes the stream. */
  lemma ChunkRelayed(s: M.State, i: nat, data: seq<byte>, end: bool)
    requires i < |s.streams| && 0 < |data| <= S.MAX_CHUNK
    requires s.streams[i].pump.Reading? && s.streams[i].permit && !s.streams[i].closed
    ensures M.Leads(s, Pumps(i, [S.BeginRead, S.EndRead(data, end)]) + Pumps(i, [S.TakePermit, S.Relay(true)]),
                    s.(streams := s.streams[i := Relayed(s.streams[i], data, end)]))
  {
    var st := s.streams[i];
    var read := st.(pump := S.Waiting(data, end), log := st.log + [S.DeviceRead(data)]);
    var mid := s.(streams := s.streams[i := read]);
    var first, second := [S.BeginRead, S.EndRead(data, end)], [S.TakePermit, S.Relay(true)];
    ChunkRead(st, data, end);
    PumpsLift(s, i, first, read);
    ChunkSent(read, data, end);
    var sent := S.Sent(S.Pump, S.Write(st.ownId, st.guestId, data));
    assert st.log + [S.DeviceRead(data)] + [S.PermitTaken] + [sent]
        == st.log + [S.DeviceRead(data), S.PermitTaken, sent];
    PumpsLift(mid, i, second, Relayed(st, data, end));
    assert mid.streams[i := Relayed(st, data, end)] == s.streams[i := Relayed(st, data, end)];
    M.RunsJoin(s, Pumps(i, first), mid, Pumps(i, second), s.(streams := s.streams[i := Relayed(st, data, end)]));
  }

  /** The pump starts, with the permit there, when the OKAY of its OPEN has been sent. */
  lemma PumpStarts(s: M.State, guest: u32)
    requires M.Inv(s) && s.pc.Idle?
    ensures var n, begun := |s.streams|, M.Step(s, M.Open(guest, true));
      && M.Enabled(begun, M.Act(n, S.Announce(true)))
      && var last := M.Step(begun, M.Act(n, S.Announce(true)));
         && last.pc.Idle? && n < |last.streams|
         && last.streams[n].pump.Reading? && last.streams[n].permit && !last.streams[n].closed
  {
  }

  // ----- OPENs

  function GuestIds(s: M.State): seq<u32> { seq(|s.streams|, i requires 0 <= i < |s.streams| => s.streams[i].guestId) }

  function OpenedNow(x: M.Action): seq<u32> { if x.Open? && x.ok then [x.guest] else [] }
  function RefusedNow(x: M.Action, pending: Option<u32>): seq<u32> {
    if x.Refuse? && x.ok && pending.Some? then [pending.value] else []
  }

  /** Guest ids of the OPENs for which a device stream was opened. */
  function OpenedIn(xs: seq<M.Action>): seq<u32> {
    if xs == [] then []
    else OpenedNow(xs[0]) + OpenedIn(xs[1..])
  }

  /** The OPEN whose refusal is in hand. */
  function Pending(x: M.Action, pending: Option<u32>): Option<u32> {
    match x
    case Open(guest, ok) => if ok then pending else Some(guest)
    case Refuse(_) => None
    case _ => pending
  }

  /** Guest ids of the OPENs answered with a CLSE. */
  function RefusedIn(xs: seq<M.Action>, pending: Option<u32>): seq<u32> {
    if xs == [] then []
    else RefusedNow(xs[0], pending) + RefusedIn(xs[1..], Pending(xs[0], pending))
  }

  function InHand(s: M.State): Option<u32> { if s.pc.Refusing? then Some(s.pc.guest) else None }

  lemma GuestIdsStep(s: M.State, x: M.Action)
    requires M.Enabled(s, x)
    ensures GuestIds(M.Step(s, x)) == GuestIds(s) + OpenedNow(x)
  {
    var next := M.Step(s, x);
    forall i: nat | i < |s.streams|
      ensures i < |next.streams| && next.streams[i].guestId == s.streams[i].guestId
    {
      StepSeen(s, x, i);
      if Sees(s, x, i).Some? {
        S.StepFrame(s.streams[i], Sees(s, x, i).value);
      }
    }
  }

  lemma RefusalsStep(s: M.State, x: M.Action)
    requires M.Enabled(s, x)
    ensures M.Step(s, x).refusals == s.refusals + RefusedNow(x, InHand(s))
    ensures InHand(M.Step(s, x)) == Pending(x, InHand(s))
  {
  }

  lemma {:induction false} OpensRun(s: M.State, xs: seq<M.Action>, last: M.State)
    requires M.Leads(s, xs, last)
    ensures GuestIds(last) == GuestIds(s) + OpenedIn(xs)
    decreases |xs|
  {
    if xs == [] {
      assert GuestIds(s) + [] == GuestIds(s);
    } else {
      GuestIdsStep(s, xs[0]);
      OpensRun(M.Step(s, xs[0]), xs[1..], last);
      Joined(GuestIds(s), OpenedNow(xs[0]), OpenedIn(xs[1..]));
    }
  }

  lemma {:induction false} RefusalsRun(s: M.State, xs: seq<M.Action>, last: M.State)
    requires M.Leads(s, xs, last)
    ensures last.refusals == s.refusals + RefusedIn(xs, InHand(s))
    decreases |xs|
  {
    if xs == [] {
      assert s.refusals + [] == s.refusals;
    } else {
      RefusalsStep(s, xs[0]);
      RefusalsRun(M.Step(s, xs[0]), xs[1..], last);
      Joined(s.refusals, RefusedNow(xs[0], InHand(s)), RefusedIn(xs[1..], Pending(xs[0], InHand(s))));
    }
  }

  /** On every run each OPEN gets a stream under the guest's own id, in order, or, if no device stream could be
      opened, a CLSE for own id 0 naming that id. */
  lemma OpensAnswered(xs: seq<M.Action>, s: M.State)
    requires M.Leads(M.START, xs, s)
    ensures GuestIds(s) == OpenedIn(xs) && s.refusals == RefusedIn(xs, None)
  {
    OpensRun(M.START, xs, s);
    RefusalsRun(M.START, xs, s);
  }

  // ----- the permit

  /** Where the guest OKAYs only what it received, no permit is lost either. */
  predicate ExactFlow(st: S.Stream) {
    L.OnlyEarnedOkays(st.log) ==>
      S.Total(st.log).taken + S.Bit(st.permit) == 1 + S.Total(st.log).grants
  }

  lemma EarnedBefore(log: seq<S.Event>, es: seq<S.Event>)
    requires |es| <= 1 && L.OnlyEarnedOkays(log + es)
    ensures L.OnlyEarnedOkays(log) && S.Total(log + es).grants <= S.Total(log + es).writes
  {
    var longer := log + es;
    assert longer[..|longer|] == longer;
    forall k | 0 <= k <= |log|
      ensures S.Total(log[..k]).grants <= S.Total(log[..k]).writes
    {
      assert longer[..k] == log[..k];
    }
  }

  lemma PermitMoves(st: S.Stream, t: S.Tally, a: S.Action)
    requires S.Enabled(st, a) && S.Flow(st, t)
    ensures var u, next := S.SumAll(t, S.Emit(st, a)), S.Step(st, a);
      && u.taken + S.Bit(next.permit) == t.taken + (if a.Grant? then 1 else S.Bit(st.permit))
      && u.grants == t.grants + S.Bit(a.Grant?)
      && (a.Grant? ==> u.writes == t.writes)
  {
    if S.ByDispatcher(a) {
      DispatchPermit(st, t, a);
    }
  }

  lemma DispatchPermit(st: S.Stream, t: S.Tally, a: S.Action)
    requires S.Enabled(st, a) && S.ByDispatcher(a)
    ensures var u, next := S.SumAll(t, S.Emit(st, a)), S.Step(st, a);
      && u.taken == t.taken && u.writes == t.writes
      && next.permit == (st.permit || a.Grant?)
      && u.grants == t.grants + S.Bit(a.Grant?)
  {
  }

  lemma ExactStep(st: S.Stream, a: S.Action)
    requires S.Enabled(st, a) && S.Flow(st, S.Total(st.log)) && ExactFlow(st)
    ensures ExactFlow(S.Step(st, a))
  {
    var t := S.Total(st.log);
    S.TotalStep(st.log, S.Emit(st, a));
    if L.OnlyEarnedOkays(S.Step(st, a).log) {
      EarnedBefore(st.log, S.Emit(st, a));
      PermitMoves(st, t, a);
    }
  }

  lemma SeenExact(st: S.Stream, action: Option<S.Action>, next: S.Stream)
    requires Did(st, action, next) && S.Flow(st, S.Total(st.log)) && ExactFlow(st)
    ensures ExactFlow(next)
  {
    if action.Some? {
      ExactStep(st, action.value);
    } else {
      assert st.log + [] == st.log;
    }
  }

  lemma ExactAfter(s: M.State, x: M.Action, i: nat)
    requires M.Inv(s) && M.Enabled(s, x) && (i < |s.streams| ==> ExactFlow(s.streams[i]))
    ensures i < |M.Step(s, x).streams| ==> ExactFlow(M.Step(s, x).streams[i])
  {
    if i < |s.streams| {
      assert S.Inv(s.streams[i]);
      StepSeen(s, x, i);
      SeenExact(s.streams[i], Sees(s, x, i), M.Step(s, x).streams[i]);
    } else if i < |M.Step(s, x).streams| {
      assert M.Step(s, x).streams[i].log == [];
    }
  }

  lemma {:induction false} ExactRun(s: M.State, xs: seq<M.Action>, last: M.State, i: nat)
    requires M.Inv(s) && M.Leads(s, xs, last) && (i < |s.streams| ==> ExactFlow(s.streams[i]))
    ensures i < |last.streams| ==> ExactFlow(last.streams[i])
    decreases |xs|
  {
    if xs != [] {
      M.StepInv(s, xs[0]);
      ExactAfter(s, xs[0], i);
      ExactRun(M.Step(s, xs[0]), xs[1..], last, i);
    }
  }

  /** On every run, with a guest that OKAYs only what it received, every OKAY gives back exactly the permit that
      its WRTE took: permits taken and the token held are the initial one and the OKAYs that reached the
      stream, less the one in hand. */
  lemma PermitsExact(xs: seq<M.Action>, s: M.State, i: nat)
    requires M.Leads(M.START, xs, s) && i < |s.streams| && L.OnlyEarnedOkays(s.streams[i].log)
    ensures var st := s.streams[i];
      S.Total(st.log).taken + S.Bit(st.permit) + S.Bit(st.role.Granting?) == 1 + OkaysFor(M.START, xs, i)
  {
    ExactRun(M.START, xs, s, i);
    MessagesAccounted(xs, s, i);
  }
}
