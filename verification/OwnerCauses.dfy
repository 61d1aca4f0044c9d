/** What the guest's messages cause in the owner-side multiplexer
    (client/relay/owner.go), counted over whole runs from the messages
    themselves: which of them reach which stream, and that nothing else does what
    they do. */
module OwnerCauses {
  import opened Bytes
  import S = OwnerStream
  import L = OwnerStreamLaws
  import M = OwnerMultiplexer
  import opened Wrappers

  /** The map holds stream i under this id. */
  predicate Finds(s: M.State, own: u32, i: nat) { own in s.registry && s.registry[own] == i }

  // ----- the messages that reach stream i, over a run

  predicate OkayReaches(s: M.State, x: M.Action, i: nat) { x.Receive? && x.msg.InOkay? && Finds(s, x.msg.own, i) }
  predicate CloseReaches(s: M.State, x: M.Action, i: nat) { x.Receive? && x.msg.InClose? && Finds(s, x.msg.own, i) }
  predicate WriteReaches(s: M.State, x: M.Action, i: nat) { x.Receive? && x.msg.InWrite? && Finds(s, x.msg.own, i) }

  function OkaysFor(s: M.State, xs: seq<M.Action>, i: nat): nat
    decreases |xs|
  {
    if xs == [] || !M.Enabled(s, xs[0]) then 0
    else S.Bit(OkayReaches(s, xs[0], i)) + OkaysFor(M.Step(s, xs[0]), xs[1..], i)
  }

  function DataNow(s: M.State, x: M.Action, i: nat): seq<byte> { if WriteReaches(s, x, i) then x.msg.data else [] }
  function SenderNow(s: M.State, x: M.Action, i: nat): seq<u32> { if WriteReaches(s, x, i) then [x.msg.from] else [] }

  function DataFor(s: M.State, xs: seq<M.Action>, i: nat): seq<byte>
    decreases |xs|
  {
    if xs == [] || !M.Enabled(s, xs[0]) then []
    else DataNow(s, xs[0], i) + DataFor(M.Step(s, xs[0]), xs[1..], i)
  }

  function SendersFor(s: M.State, xs: seq<M.Action>, i: nat): seq<u32>
    decreases |xs|
  {
    if xs == [] || !M.Enabled(s, xs[0]) then []
    else SenderNow(s, xs[0], i) + SendersFor(M.Step(s, xs[0]), xs[1..], i)
  }

  // ----- what stream i has taken in

  function Granted(s: M.State, i: nat): nat {
    if i < |s.streams| then S.Total(s.streams[i].log).grants + S.Bit(s.streams[i].role.Granting?) else 0
  }
  function Received(s: M.State, i: nat): seq<byte> {
    if i < |s.streams| then S.Total(s.streams[i].log).received else []
  }
  function Senders(s: M.State, i: nat): seq<u32> {
    if i < |s.streams| then S.Total(s.streams[i].log).senders else []
  }

  // ----- one step, as a stream sees it

  /** What a step of the multiplexer makes stream i do: the work its message begins, or a step of its own. */
  function Sees(s: M.State, x: M.Action, i: nat): Option<S.Action> {
    match x
    case Receive(InWrite(from, own, data)) => if Finds(s, own, i) then Some(S.StartWrite(from, data)) else None
    case Receive(InOkay(own)) => if Finds(s, own, i) then Some(S.StartGrant) else None
    case Receive(InClose(own)) => if Finds(s, own, i) then Some(S.StartClose) else None
    case Act(j, a) => if j == i then Some(a) else None
    case CloseNext => if s.pc.Draining? && s.pc.rest != [] && s.pc.rest[0] == i then Some(S.StartClose) else None
    case _ => None
  }

  /** The stream did this, or nothing but perhaps lose its map entry to another. */
  predicate Did(st: S.Stream, action: Option<S.Action>, next: S.Stream) {
    match action
    case Some(a) => S.Enabled(st, a) && next == S.Step(st, a)
    case None => next == st || next == S.Step(st, S.Displace)
  }

  lemma ReceiveSeen(s: M.State, msg: M.Inbound, i: nat)
    requires M.Enabled(s, M.Receive(msg)) && i < |s.streams|
    ensures |M.Step(s, M.Receive(msg)).streams| == |s.streams|
    ensures Did(s.streams[i], Sees(s, M.Receive(msg), i), M.Step(s, M.Receive(msg)).streams[i])
  {
  }

  lemma ActSeen(s: M.State, j: nat, a: S.Action, i: nat)
    requires M.Enabled(s, M.Act(j, a)) && i < |s.streams|
    ensures |M.Step(s, M.Act(j, a)).streams| == |s.streams|
    ensures Did(s.streams[i], Sees(s, M.Act(j, a), i), M.Step(s, M.Act(j, a)).streams[i])
  {
  }

  lemma OtherSeen(s: M.State, x: M.Action, i: nat)
    requires M.Enabled(s, x) && !x.Receive? && !x.Act? && i < |s.streams|
    ensures i < |M.Step(s, x).streams| && Did(s.streams[i], Sees(s, x, i), M.Step(s, x).streams[i])
  {
  }

  /** Every step is traced to the stream's own message: a WRTE begins a write, an OKAY a grant, a CLSE a
      close, each of the stream that the map holds under its id, and of no other. */
  lemma StepSeen(s: M.State, x: M.Action, i: nat)
    requires M.Enabled(s, x) && i < |s.streams|
    ensures i < |M.Step(s, x).streams| && Did(s.streams[i], Sees(s, x, i), M.Step(s, x).streams[i])
  {
    match x
    case Receive(msg) => ReceiveSeen(s, msg, i);
    case Act(j, a) => ActSeen(s, j, a, i);
    case _ => OtherSeen(s, x, i);
  }

  lemma SeesBegins(s: M.State, x: M.Action, i: nat)
    requires M.Enabled(s, x) && i < |s.streams| && s.streams[i].role.Away?
    ensures var action := Sees(s, x, i);
      && (WriteReaches(s, x, i) <==> action.Some? && action.value.StartWrite?)
      && (WriteReaches(s, x, i) ==> action == Some(S.StartWrite(x.msg.from, x.msg.data)))
      && (OkayReaches(s, x, i) <==> action == Some(S.StartGrant))
      && (CloseReaches(s, x, i) || (x.CloseNext? && s.pc.rest[0] == i) <==> action == Some(S.StartClose))
  {
  }

  /** What a goroutine not at the stream takes up with an action. */
  function TakenUp(action: Option<S.Action>): S.Role {
    match action
    case Some(StartWrite(from, data)) => S.Writing(from, data)
    case Some(StartGrant) => S.Granting
    case Some(StartClose) => S.Closing(false)
    case _ => S.Away
  }

  lemma DispatchTakesUp(st: S.Stream, a: S.Action)
    requires S.Enabled(st, a) && st.role.Away? && S.ByDispatcher(a)
    ensures S.Step(st, a).role == TakenUp(Some(a))
  {
  }

  lemma OthersTakeUp(st: S.Stream, a: S.Action)
    requires S.Enabled(st, a) && st.role.Away? && !S.ByDispatcher(a)
    ensures S.Step(st, a).role == TakenUp(Some(a))
  {
    if S.ByPump(a) {
      S.MoveFramePump(st, a);
    }
  }

  lemma SeenBegins(st: S.Stream, action: Option<S.Action>, next: S.Stream)
    requires Did(st, action, next) && st.role.Away?
    ensures next.role == TakenUp(action)
  {
    if action.Some? {
      if S.ByDispatcher(action.value) {
        DispatchTakesUp(st, action.value);
      } else {
        OthersTakeUp(st, action.value);
      }
    } else {
      DisplacedTakesNothing(st);
    }
  }

  /** The dispatcher takes up work on a stream it is not at exactly for the guest's message: it begins to write
      for a WRTE, to grant for an OKAY and to close for a CLSE whose lookup finds the stream, or, in
      Close, when the stream is the next of its snapshot. */
  lemma WorkBegins(s: M.State, x: M.Action, i: nat)
    requires M.Enabled(s, x) && i < |s.streams| && s.streams[i].role.Away?
    ensures i < |M.Step(s, x).streams|
    ensures var role := M.Step(s, x).streams[i].role;
      && (role.Writing? <==> WriteReaches(s, x, i))
      && (role.Writing? ==> role == S.Writing(x.msg.from, x.msg.data))
      && (role.Granting? <==> OkayReaches(s, x, i))
      && (role.Closing? <==> CloseReaches(s, x, i) || (x.CloseNext? && s.pc.rest[0] == i))
      && (role.Closing? ==> !role.notify)
  {
    StepSeen(s, x, i);
    SeenBegins(s.streams[i], Sees(s, x, i), M.Step(s, x).streams[i]);
    SeesBegins(s, x, i);
  }

  /** A message that reaches no stream changes nothing. */
  lemma LostMessage(s: M.State, msg: M.Inbound)
    requires M.Enabled(s, M.Receive(msg)) && (msg.InOther? || msg.own !in s.registry)
    ensures M.Step(s, M.Receive(msg)) == s
  {
  }

  lemma StreamTakesIn(st: S.Stream, a: S.Action)
    requires S.Enabled(st, a) && S.Teardown(st, S.Total(st.log))
    ensures var t, u := S.Total(st.log), S.Total(S.Step(st, a).log);
      && u.grants + S.Bit(S.Step(st, a).role.Granting?) == t.grants + S.Bit(st.role.Granting?) + S.Bit(a.StartGrant?)
      && u.received == t.received + (if a.StartWrite? then a.data else [])
      && u.senders == t.senders + (if a.StartWrite? then [a.from] else [])
  {
    S.TotalStep(st.log, S.Emit(st, a));
    TallyTakesIn(S.Total(st.log), S.Emit(st, a));
    RoleTakesIn(st, a);
  }

  lemma TallyTakesIn(t: S.Tally, es: seq<S.Event>)
    requires |es| <= 1
    ensures var u := S.SumAll(t, es);
      && u.grants == t.grants + S.Bit(es != [] && es[0].OkayHandled?)
      && u.received == t.received + (if es != [] && es[0].WriteReceived? then es[0].bytes else [])
      && u.senders == t.senders + (if es != [] && es[0].WriteReceived? then [es[0].from] else [])
  {
    assert t.received + [] == t.received && t.senders + [] == t.senders;
  }

  /** An OKAY begins when it is granted and ends when the token is back; a WRTE is noted when it begins. */
  predicate TakesIn(st: S.Stream, a: S.Action)
    requires S.Enabled(st, a)
  {
    var next, es := S.Step(st, a), S.Emit(st, a);
    && S.Bit(es != [] && es[0].OkayHandled?) + S.Bit(next.role.Granting?)
         == S.Bit(st.role.Granting?) + S.Bit(a.StartGrant?)
    && (es != [] && es[0].WriteReceived? <==> a.StartWrite?)
    && (a.StartWrite? ==> es == [S.WriteReceived(a.from, a.data)])
  }

  lemma DispatchTakesIn(st: S.Stream, a: S.Action)
    requires S.Enabled(st, a) && S.ByDispatcher(a)
    ensures TakesIn(st, a)
  {
  }

  lemma PumpTakesIn(st: S.Stream, a: S.Action)
    requires S.Enabled(st, a) && S.ByPump(a)
    ensures TakesIn(st, a)
  {
  }

  lemma CloseTakesIn(st: S.Stream, a: S.Action)
    requires S.Enabled(st, a) && S.ByCloser(a) && S.Teardown(st, S.Total(st.log))
    ensures TakesIn(st, a)
  {
  }

  lemma RoleTakesIn(st: S.Stream, a: S.Action)
    requires S.Enabled(st, a) && S.Teardown(st, S.Total(st.log))
    ensures TakesIn(st, a)
  {
    if S.ByDispatcher(a) {
      DispatchTakesIn(st, a);
    } else if S.ByPump(a) {
      PumpTakesIn(st, a);
    } else {
      CloseTakesIn(st, a);
    }
  }

  // ----- one step, as the multiplexer makes it

  /** Stream i takes in what reaches it, and nothing else. */
  predicate Accounted(s: M.State, x: M.Action, next: M.State, i: nat) {
    && Granted(next, i) == Granted(s, i) + S.Bit(OkayReaches(s, x, i))
    && Received(next, i) == Received(s, i) + DataNow(s, x, i)
    && Senders(next, i) == Senders(s, i) + SenderNow(s, x, i)
  }

  lemma NothingTaken(s: M.State, x: M.Action, next: M.State, i: nat)
    requires Granted(next, i) == Granted(s, i)
    requires Received(next, i) == Received(s, i) && Senders(next, i) == Senders(s, i)
    requires !OkayReaches(s, x, i) && !WriteReaches(s, x, i)
    ensures Accounted(s, x, next, i)
  {
    assert Received(s, i) + [] == Received(s, i) && Senders(s, i) + [] == Senders(s, i);
  }

  /** Losing the map entry is nothing to the stream itself. */
  lemma DisplacedTakesNothing(st: S.Stream)
    ensures S.Total(S.Step(st, S.Displace).log) == S.Total(st.log) && S.Step(st, S.Displace).role == st.role
  {
    assert st.log + [] == st.log;
  }

  /** Only the messages named begin a write or a grant. */
  lemma BeginsOnly(s: M.State, x: M.Action, i: nat)
    requires M.Enabled(s, x) && Sees(s, x, i).Some?
    ensures var a := Sees(s, x, i).value;
      && (a.StartGrant? <==> OkayReaches(s, x, i))
      && (a.StartWrite? <==> WriteReaches(s, x, i))
      && (a.StartWrite? ==> a.data == x.msg.data && a.from == x.msg.from)
  {
  }

  lemma SeenAccounted(s: M.State, x: M.Action, next: M.State, i: nat)
    requires M.Enabled(s, x) && i < |s.streams| && i < |next.streams| && S.Inv(s.streams[i])
    requires Did(s.streams[i], Sees(s, x, i), next.streams[i])
    ensures Accounted(s, x, next, i)
  {
    var st := s.streams[i];
    if Sees(s, x, i).Some? {
      StreamTakesIn(st, Sees(s, x, i).value);
      BeginsOnly(s, x, i);
    } else {
      DisplacedTakesNothing(st);
      NothingTaken(s, x, next, i);
    }
  }

  lemma NewAccounted(s: M.State, x: M.Action, i: nat)
    requires M.Inv(s) && M.Enabled(s, x) && i >= |s.streams|
    ensures Accounted(s, x, M.Step(s, x), i)
  {
    NothingTaken(s, x, M.Step(s, x), i);
  }

  lemma StepAccounted(s: M.State, x: M.Action, i: nat)
    requires M.Inv(s) && M.Enabled(s, x)
    ensures Accounted(s, x, M.Step(s, x), i)
  {
    if i >= |s.streams| {
      NewAccounted(s, x, i);
    } else {
      StepSeen(s, x, i);
      SeenAccounted(s, x, M.Step(s, x), i);
    }
  }

  lemma Joined<T>(a: seq<T>, b: seq<T>, c: seq<T>)
    ensures (a + b) + c == a + (b + c)
  {
  }

  lemma {:induction false} RunAccounted(s: M.State, xs: seq<M.Action>, last: M.State, i: nat)
    requires M.Inv(s) && M.Leads(s, xs, last)
    ensures Granted(last, i) == Granted(s, i) + OkaysFor(s, xs, i)
    ensures Received(last, i) == Received(s, i) + DataFor(s, xs, i)
    ensures Senders(last, i) == Senders(s, i) + SendersFor(s, xs, i)
    decreases |xs|
  {
    if xs != [] {
      var x, next := xs[0], M.Step(s, xs[0]);
      M.StepInv(s, x);
      StepAccounted(s, x, i);
      RunAccounted(next, xs[1..], last, i);
      Joined(Received(s, i), DataNow(s, x, i), DataFor(next, xs[1..], i));
      Joined(Senders(s, i), SenderNow(s, x, i), SendersFor(next, xs[1..], i));
    }
  }

  /** On every run and for every stream: the OKAYs handled, with the one in hand, are the OKAYs of the guest
      whose id the map held the stream under; the payloads dispatched, and the ids they came with, are
      those of the WRTEs that found it, in their order. */
  lemma MessagesAccounted(xs: seq<M.Action>, s: M.State, i: nat)
    requires M.Leads(M.START, xs, s) && i < |s.streams|
    ensures var st := s.streams[i]; var t := S.Total(st.log);
      && t.grants + S.Bit(st.role.Granting?) == OkaysFor(M.START, xs, i)
      && t.received == DataFor(M.START, xs, i) && t.senders == SendersFor(M.START, xs, i)
  {
    RunAccounted(M.START, xs, s, i);
    assert [] + DataFor(M.START, xs, i) == DataFor(M.START, xs, i);
    assert [] + SendersFor(M.START, xs, i) == SendersFor(M.START, xs, i);
  }
}
