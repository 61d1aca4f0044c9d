/** A pump in the middle of a teardown does not stand in the way of the handlers
    for long: from every state between two messages the pumps alone, each by
    finishing what it is doing, reach one in which no teardown is under way. */
module OwnerSettling {
  import opened Bytes
  import opened OwnerDispatch
  import opened OwnerSimulation
  import S = OwnerStream
  import M = OwnerMultiplexer

  const FINISH := S.Advance(S.Pump, true)

  /** A pump performs the next statement of a closeOnce it has entered. */
  predicate FinishesTeardown(x: M.Action) { x.Act? && x.a == FINISH }

  predicate OnlyFinishing(xs: seq<M.Action>) { forall k :: 0 <= k < |xs| ==> FinishesTeardown(xs[k]) }

  /** Pumps finishing their teardowns lead from o to s. */
  ghost predicate Settling(o: M.State, s: M.State) {
    M.Reachable(o) && s.pc.Idle? && |s.streams| == |o.streams| && exists xs :: OnlyFinishing(xs) && M.Leads(o, xs, s)
  }

  lemma SettlingInv(o: M.State, s: M.State)
    requires Settling(o, s)
    ensures M.Reachable(s) && M.Inv(s)
  {
    var xs :| OnlyFinishing(xs) && M.Leads(o, xs, s);
    ReachableOn(o, xs, s);
    M.ReachableInv(s);
  }

  function StagesLeft(once: S.Once): nat {
    match once
    case Held(_, stage, _) =>
      (match stage case AtDone => 4 case AtConn => 3 case AtUnregister => 2 case AtNotify => 1)
    case _ => 0
  }

  lemma FinishLocal(st: S.Stream)
    requires st.once.Held? && st.once.actor.Pump?
    ensures S.Enabled(st, FINISH) && M.Ongoing(FINISH) && !S.OnDispatcher(FINISH)
    ensures var next := S.Step(st, FINISH);
      && StagesLeft(next.once) < StagesLeft(st.once)
      && (next.once.Held? ==> next.once.actor.Pump?)
  {
  }

  /** Between two messages a teardown under way is a pump's. */
  lemma HeldByPump(s: M.State, i: nat)
    requires M.Inv(s) && s.pc.Idle? && i < |s.streams| && s.streams[i].once.Held?
    ensures s.streams[i].once.actor.Pump?
  {
    assert S.Inv(s.streams[i]) && s.streams[i].role.Away?;
  }

  lemma FinishStep(o: M.State, s: M.State, i: nat) returns (next: M.State)
    requires Settling(o, s) && i < |s.streams| && s.streams[i].once.Held?
    ensures Settling(o, next) && OthersSame(s, next, i)
    ensures StagesLeft(next.streams[i].once) < StagesLeft(s.streams[i].once)
  {
    SettlingInv(o, s);
    HeldByPump(s, i);
    next := FinishMove(s, i);
    SettlesOn(o, s, M.Act(i, FINISH));
  }

  lemma FinishMove(s: M.State, i: nat) returns (next: M.State)
    requires i < |s.streams| && s.streams[i].once.Held? && s.streams[i].once.actor.Pump?
    ensures M.Enabled(s, M.Act(i, FINISH)) && next == M.Step(s, M.Act(i, FINISH))
    ensures OthersSame(s, next, i) && next.pc == s.pc
    ensures StagesLeft(next.streams[i].once) < StagesLeft(s.streams[i].once)
  {
    FinishLocal(s.streams[i]);
    next := M.Step(s, M.Act(i, FINISH));
  }

  lemma SettlesOn(o: M.State, s: M.State, x: M.Action)
    requires Settling(o, s) && FinishesTeardown(x) && M.Enabled(s, x)
    ensures M.Step(s, x).pc.Idle? && |M.Step(s, x).streams| == |s.streams| ==> Settling(o, M.Step(s, x))
  {
    var xs :| OnlyFinishing(xs) && M.Leads(o, xs, s);
    M.LeadsSnoc(o, xs, s, x);
    assert OnlyFinishing(xs + [x]);
  }

  lemma {:induction false} FinishOne(o: M.State, s: M.State, i: nat) returns (last: M.State)
    requires Settling(o, s) && i < |s.streams|
    ensures Settling(o, last) && OthersSame(s, last, i) && !last.streams[i].once.Held?
    decreases StagesLeft(s.streams[i].once)
  {
    if s.streams[i].once.Held? {
      last := FinishStep(o, s, i);
      last := FinishOne(o, last, i);
    } else {
      last := s;
    }
  }

  lemma {:induction false} FinishBelow(o: M.State, n: nat) returns (last: M.State)
    requires M.Reachable(o) && o.pc.Idle? && n <= |o.streams|
    ensures Settling(o, last) && forall i :: 0 <= i < n ==> !last.streams[i].once.Held?
  {
    if n == 0 {
      last := o;
      assert OnlyFinishing([]) && M.Leads(o, [], o);
    } else {
      var before := FinishBelow(o, n - 1);
      last := FinishOne(o, before, n - 1);
    }
  }

  /** From any reachable state between two messages, some pumps finish the teardowns they are in, and
      then the handler does what HandlersAreRuns says. */
  lemma HandlersFromAnywhere(s: M.State) returns (xs: seq<M.Action>, settled: M.State)
    requires M.Reachable(s) && s.pc.Idle?
    ensures OnlyFinishing(xs) && M.Leads(s, xs, settled) && WellFormed(DeskOf(settled))
    ensures forall c :: CanCall(DeskOf(settled), c) ==> HandledFrom(settled, c)
  {
    settled := FinishBelow(s, |s.streams|);
    SettlingInv(s, settled);
    DeskWellFormed(settled);
    xs :| OnlyFinishing(xs) && M.Leads(s, xs, settled);
    forall c | CanCall(DeskOf(settled), c)
      ensures HandledFrom(settled, c)
    {
      var ys, last := HandlersAreRuns(settled, c);
    }
  }

  /** Some run of the call leads to a state between two messages with the desk the handler leaves. */
  ghost predicate HandledFrom(s: M.State, c: Call)
    requires WellFormed(DeskOf(s)) && CanCall(DeskOf(s), c)
  {
    exists ys, last ::
      M.Leads(s, ys, last) && Scripted(ys, c) && last.pc.Idle? && DeskOf(last) == Handle(DeskOf(s), c)
  }
}
