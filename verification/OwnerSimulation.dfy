/** The handlers of the dispatch goroutine as module OwnerDispatch states them
    are runs of the transition system of module OwnerMultiplexer. */
module OwnerSimulation {
  import opened Bytes
  import opened OwnerDispatch
  import S = OwnerStream
  import M = OwnerMultiplexer

  function ViewOf(st: S.Stream): View {
    var t := S.Total(st.log);
    View(st.ownId, st.guestId, st.permit, st.done, st.closed, st.once.Spent?, t.written, t.messages)
  }

  function DeskOf(s: M.State): Desk { Desk(s.nextId, s.registry, Views(s), s.refusals) }

  function Views(s: M.State): (vs: seq<View>)
    ensures |vs| == |s.streams|
    ensures forall i :: 0 <= i < |vs| ==> vs[i] == ViewOf(s.streams[i])
  {
    seq(|s.streams|, i requires 0 <= i < |s.streams| => ViewOf(s.streams[i]))
  }

  // ----- the calls, and the runs that are theirs

  datatype Call =
    | Open(guest: u32, okaySent: bool)
    | Refuse(guest: u32, closeSent: bool)   // an OPEN whose device stream cannot be opened
    | Write(own: u32, from: u32, data: seq<byte>, luck: WriteLuck)
    | Okay(own: u32)
    | CloseMessage(own: u32)
    | CloseAll(order: seq<nat>)

  /** The message, or the call of Close, that starts the handler. */
  function First(c: Call): M.Action {
    match c
    case Open(guest, _) => M.Open(guest, true)
    case Refuse(guest, _) => M.Open(guest, false)
    case Write(own, from, data, _) => M.Receive(M.InWrite(from, own, data))
    case Okay(own) => M.Receive(M.InOkay(own))
    case CloseMessage(own) => M.Receive(M.InClose(own))
    case CloseAll(order) => M.CloseAll(order)
  }

  /** A later step of the handler: the dispatcher's own, with the outcomes the call is given. */
  predicate Follows(x: M.Action, c: Call) {
    match x
    case Refuse(ok) => c.Refuse? && ok == c.closeSent
    case Act(_, a) => S.OnDispatcher(a) && Fated(a, c)
    case CloseNext => c.CloseAll?
    case CloseReturn => c.CloseAll?
    case _ => false
  }

  predicate Fated(a: S.Action, c: Call) {
    match a
    case Announce(ok) => c.Open? && ok == c.okaySent
    case DeviceWrite(ok, written) => c.Write? && ok == c.luck.deviceOk && (!ok ==> written == c.luck.written)
    case Ack(ok) => c.Write? && ok == c.luck.ackOk
    case Advance(_, ok) => c.Write? ==> ok == c.luck.closeOk
    case _ => true
  }

  /** A run of this call and of nothing else. */
  predicate Scripted(xs: seq<M.Action>, c: Call) {
    xs != [] && xs[0] == First(c) && forall k :: 1 <= k < |xs| ==> Follows(xs[k], c)
  }

  /** Where a call starts. */
  datatype Origin = Origin(state: M.State, call: Call)

  /** Some run of the call leads from its origin, which a run from the start reaches, to s. */
  ghost predicate On(o: Origin, s: M.State) {
    M.Reachable(o.state) && exists xs :: M.Leads(o.state, xs, s) && Scripted(xs, o.call)
  }

  lemma ReachableOn(o: M.State, xs: seq<M.Action>, s: M.State)
    requires M.Reachable(o) && M.Leads(o, xs, s)
    ensures M.Reachable(s)
  {
    var ws :| M.Leads(M.START, ws, o);
    M.RunsJoin(M.START, ws, o, xs, s);
  }

  lemma OnReachable(o: Origin, s: M.State)
    requires On(o, s)
    ensures M.Reachable(s)
  {
    var xs :| M.Leads(o.state, xs, s) && Scripted(xs, o.call);
    ReachableOn(o.state, xs, s);
  }

  lemma OnInv(o: Origin, s: M.State)
    requires On(o, s)
    ensures M.Inv(s)
  {
    OnReachable(o, s);
    M.ReachableInv(s);
  }

  /** The call's first step. */
  lemma Begins(o: Origin) returns (next: M.State)
    requires M.Reachable(o.state) && M.Enabled(o.state, First(o.call))
    ensures next == M.Step(o.state, First(o.call)) && On(o, next)
  {
    next := M.Step(o.state, First(o.call));
    assert M.Leads(o.state, [], o.state);
    M.LeadsSnoc(o.state, [], o.state, First(o.call));
    assert [] + [First(o.call)] == [First(o.call)];
    assert Scripted([First(o.call)], o.call);
  }

  lemma GoesOn(o: Origin, s: M.State, x: M.Action)
    requires On(o, s) && M.Enabled(s, x) && Follows(x, o.call)
    ensures On(o, M.Step(s, x))
  {
    var xs :| M.Leads(o.state, xs, s) && Scripted(xs, o.call);
    M.LeadsSnoc(o.state, xs, s, x);
    assert Scripted(xs + [x], o.call);
  }

  /** A step for stream i changes at most the registry entry of the others. */
  predicate OthersSame(s: M.State, next: M.State, i: nat) {
    && |next.streams| == |s.streams| && next.nextId == s.nextId && next.refusals == s.refusals
    && forall j :: 0 <= j < |s.streams| && j != i ==> SameButListed(s.streams[j], next.streams[j])
  }

  predicate SameButListed(a: S.Stream, b: S.Stream) { b == a.(listed := b.listed) }

  /** An action of the dispatcher on the stream it is working on, which then looks like `st`. */
  lemma Act(o: Origin, s: M.State, i: nat, a: S.Action, st: S.Stream)
    requires Fated(a, o.call) && On(o, s)
    requires i < |s.streams| && S.Enabled(s.streams[i], a) && M.Ongoing(a) && M.Busy(s.pc, i)
    requires S.OnDispatcher(a) && st == S.Step(s.streams[i], a)
    ensures M.Enabled(s, M.Act(i, a))
    ensures var next := M.Step(s, M.Act(i, a));
      && On(o, next) && OthersSame(s, next, i)
      && next.streams[i] == st && next.pc == M.Resume(s.pc, st)
      && next.registry == (if S.Unregisters(s.streams[i], a) then s.registry - {st.ownId} else s.registry)
  {
    S.StepFrame(s.streams[i], a);
    GoesOn(o, s, M.Act(i, a));
  }

  /** No pump is in the middle of a teardown. */
  predicate Quiet(s: M.State) {
    forall i :: 0 <= i < |s.streams| ==> !s.streams[i].once.Held?
  }

  /** The same outside a teardown. */
  lemma QuietAct(o: Origin, s: M.State, i: nat, a: S.Action, st: S.Stream) returns (next: M.State)
    requires Fated(a, o.call) && On(o, s) && Quiet(s) && i < |s.streams| && s.pc == M.Serving(i)
    requires S.Enabled(s.streams[i], a) && M.Ongoing(a) && S.OnDispatcher(a) && st == S.Step(s.streams[i], a)
    requires !st.once.Held?
    ensures On(o, next) && Quiet(next)
    ensures next.nextId == s.nextId && next.refusals == s.refusals && next.registry == s.registry
    ensures Views(next) == Views(s)[i := ViewOf(st)]
    ensures |next.streams| == |s.streams| && next.streams[i] == st
    ensures next.pc == if st.role.Away? then M.Idle else s.pc
  {
    Act(o, s, i, a, st);
    next := M.Step(s, M.Act(i, a));
  }

  // ----- closeOnce, statement by statement

  function InOnce(st: S.Stream, notify: bool): S.Stream { st.(once := S.Held(S.Dispatcher, S.AtDone, notify)) }
  function DoneClosed(st: S.Stream, notify: bool): S.Stream {
    st.(done := true, once := S.Held(S.Dispatcher, S.AtConn, notify), log := st.log + [S.DoneClosed])
  }
  function ConnClosed(st: S.Stream, notify: bool): S.Stream {
    st.(done := true, closed := true, once := S.Held(S.Dispatcher, S.AtUnregister, notify),
      log := st.log + [S.DoneClosed] + [S.ConnClosed])
  }
  function Unlisted(st: S.Stream, notify: bool): S.Stream {
    ConnClosed(st, notify).(listed := false, once := S.Held(S.Dispatcher, S.AtNotify, notify))
  }
  function Notice(st: S.Stream, notify: bool, ok: bool): seq<S.Event> {
    if notify then [S.Send(S.Dispatcher, ok, S.Close(st.ownId, st.guestId))] else []
  }
  function TornDown(st: S.Stream, notify: bool, ok: bool): S.Stream {
    st.(done := true, closed := true, listed := false, once := S.Spent, role := S.Away,
      log := st.log + [S.DoneClosed] + [S.ConnClosed] + Notice(st, notify, ok))
  }

  lemma OnceByStatements(st: S.Stream, notify: bool, ok: bool)
    requires st.role == S.Closing(notify) && st.once.Fresh?
    ensures S.Enabled(st, S.Enter(S.Dispatcher)) && S.Step(st, S.Enter(S.Dispatcher)) == InOnce(st, notify)
    ensures var a := S.Advance(S.Dispatcher, ok);
      && S.Step(InOnce(st, notify), a) == DoneClosed(st, notify)
      && S.Step(DoneClosed(st, notify), a) == ConnClosed(st, notify)
  {
    assert st.log + [] == st.log;
  }

  lemma OnceToItsEnd(st: S.Stream, notify: bool, ok: bool)
    requires st.role == S.Closing(notify) && st.once.Fresh?
    ensures var a := S.Advance(S.Dispatcher, ok);
      && S.Step(ConnClosed(st, notify), a) == Unlisted(st, notify)
      && S.Step(Unlisted(st, notify), a) == TornDown(st, notify, ok)
  {
    assert ConnClosed(st, notify).log + [] == ConnClosed(st, notify).log;
  }

  lemma TornDownView(st: S.Stream, notify: bool, ok: bool)
    requires st.once.Fresh?
    ensures ViewOf(TornDown(st, notify, ok)) == AfterClose(ViewOf(st), notify, ok)
  {
    S.TotalStep(st.log, [S.DoneClosed]);
    S.TotalStep(st.log + [S.DoneClosed], [S.ConnClosed]);
    S.TotalStep(st.log + [S.DoneClosed] + [S.ConnClosed], Notice(st, notify, ok));
    assert S.Total(st.log).messages + [] == S.Total(st.log).messages;
  }

  function PcAfter(pc: M.DispatcherPc): M.DispatcherPc {
    if pc.DrainingOne? then M.Draining(pc.rest) else M.Idle
  }

  /** The outcome of the CLSE is the one the call is given, if it sends one. */
  predicate Notified(o: Origin, ok: bool) { o.call.Write? ==> ok == o.call.luck.closeOk }

  /** One statement of closeOnce. */
  lemma OnceAct(o: Origin, s: M.State, i: nat, ok: bool, st: S.Stream) returns (next: M.State)
    requires Notified(o, ok) && On(o, s) && i < |s.streams| && M.Busy(s.pc, i) && s.streams[i].once.Held?
    requires s.streams[i].once.actor.Dispatcher? && st == S.Step(s.streams[i], S.Advance(S.Dispatcher, ok))
    ensures On(o, next) && OthersSame(s, next, i) && next.streams[i] == st && next.pc == M.Resume(s.pc, st)
    ensures next.registry == if s.streams[i].once.stage.AtUnregister? then s.registry - {st.ownId} else s.registry
  {
    Act(o, s, i, S.Advance(S.Dispatcher, ok), st);
    next := M.Step(s, M.Act(i, S.Advance(S.Dispatcher, ok)));
  }

  /** The whole closeStream, as a run. */
  lemma CloseRun(o: Origin, s: M.State, i: nat, notify: bool, ok: bool) returns (last: M.State)
    requires Notified(o, ok) && On(o, s) && i < |s.streams| && M.Busy(s.pc, i)
    requires s.streams[i].role == S.Closing(notify) && s.streams[i].once.Fresh?
    ensures On(o, last) && OthersSame(s, last, i)
    ensures last.streams[i] == TornDown(s.streams[i], notify, ok)
    ensures last.registry == s.registry - {s.streams[i].ownId} && last.pc == PcAfter(s.pc)
  {
    var st := s.streams[i];
    OnceByStatements(st, notify, ok);
    OnceToItsEnd(st, notify, ok);
    Act(o, s, i, S.Enter(S.Dispatcher), InOnce(st, notify));
    last := M.Step(s, M.Act(i, S.Enter(S.Dispatcher)));
    last := OnceAct(o, last, i, ok, DoneClosed(st, notify));
    last := OnceAct(o, last, i, ok, ConnClosed(st, notify));
    last := OnceAct(o, last, i, ok, Unlisted(st, notify));
    last := OnceAct(o, last, i, ok, TornDown(st, notify, ok));
  }

  /** closeStream on a stream that was torn down before. */
  lemma SkipRun(o: Origin, s: M.State, i: nat) returns (last: M.State)
    requires On(o, s) && i < |s.streams| && M.Busy(s.pc, i)
    requires s.streams[i].role.Closing? && s.streams[i].once.Spent?
    ensures On(o, last) && OthersSame(s, last, i) && last.streams[i] == s.streams[i].(role := S.Away)
    ensures last.registry == s.registry && last.pc == PcAfter(s.pc)
  {
    var st := s.streams[i];
    assert st.log + [] == st.log;
    Act(o, s, i, S.Skip(S.Dispatcher), st.(role := S.Away));
    last := M.Step(s, M.Act(i, S.Skip(S.Dispatcher)));
  }

  /** The dispatcher is about to close stream i. */
  ghost predicate AboutToClose(o: Origin, s: M.State, i: nat, notify: bool) {
    On(o, s) && Quiet(s) && i < |s.streams| && M.Busy(s.pc, i) && s.streams[i].role == S.Closing(notify)
  }

  /** closeStream by the dispatcher. */
  lemma CloseStreamRun(o: Origin, s: M.State, i: nat, notify: bool, ok: bool) returns (last: M.State)
    requires AboutToClose(o, s, i, notify) && Notified(o, ok)
    ensures On(o, last) && Quiet(last) && last.pc == PcAfter(s.pc)
    ensures DeskOf(last) == CloseOne(DeskOf(s), i, notify, ok)
  {
    var st := s.streams[i];
    if st.once.Fresh? {
      last := CloseRun(o, s, i, notify, ok);
      TornDownView(st, notify, ok);
    } else {
      last := SkipRun(o, s, i);
    }
    Replaced(s, last, i);
  }

  lemma Replaced(s: M.State, next: M.State, i: nat)
    requires OthersSame(s, next, i) && i < |s.streams|
    ensures Views(next) == Views(s)[i := ViewOf(next.streams[i])]
    ensures Quiet(s) && !next.streams[i].once.Held? ==> Quiet(next)
  {
  }

  // ----- the handlers, as runs

  /** Between two messages, with the call about to start or over. */
  ghost predicate AtStart(o: Origin) { M.Reachable(o.state) && Quiet(o.state) && o.state.pc.Idle? }
  ghost predicate AtRest(o: Origin, s: M.State) { On(o, s) && Quiet(s) && s.pc.Idle? }

  /** What a registered stream is like between two messages. */
  lemma Registered(o: Origin, own: u32)
    requires AtStart(o) && own in o.state.registry
    ensures o.state.registry[own] < |o.state.streams|
    ensures var st := o.state.streams[o.state.registry[own]];
      st.role.Away? && st.listed && st.ownId == own && st.once.Fresh? && !st.closed
  {
    M.ReachableInv(o.state);
    assert S.Inv(o.state.streams[o.state.registry[own]]);
  }

  /** The message that starts the call is for no stream of the map: nothing happens. */
  lemma NotFound(o: Origin, msg: M.Inbound) returns (next: M.State)
    requires AtStart(o) && First(o.call) == M.Receive(msg) && !M.Found(o.state, msg)
    ensures next == o.state && AtRest(o, next)
  {
    next := Begins(o);
  }

  /** The lookup finds the stream, which is as it was but for what the dispatcher is about to do. */
  lemma Lookup(o: Origin, msg: M.Inbound, i: nat, st: S.Stream) returns (next: M.State)
    requires AtStart(o) && First(o.call) == M.Receive(msg)
    requires M.Found(o.state, msg) && o.state.registry[msg.own] == i < |o.state.streams|
    requires S.Enabled(o.state.streams[i], M.Begin(msg)) && st == S.Step(o.state.streams[i], M.Begin(msg))
    ensures var s := o.state;
      && |next.streams| == |s.streams| && next.streams[i] == st && next.pc == M.Serving(i) && On(o, next)
      && next.registry == s.registry && next.nextId == s.nextId && next.refusals == s.refusals
      && Views(next) == Views(s)[i := ViewOf(st)] && (!st.once.Held? ==> Quiet(next))
  {
    next := Begins(o);
  }

  lemma GrantLocal(st: S.Stream) returns (granting: S.Stream, granted: S.Stream)
    requires st.role.Away? && st.listed
    ensures S.Enabled(st, S.StartGrant) && granting == S.Step(st, S.StartGrant)
    ensures S.Enabled(granting, S.Grant) && granted == S.Step(granting, S.Grant)
    ensures granted.role.Away? && granted.once == st.once == granting.once
    ensures ViewOf(granted) == ViewOf(st).(permit := true)
  {
    assert st.log + [] == st.log;
    granting := S.Step(st, S.StartGrant);
    granted := S.Step(granting, S.Grant);
    S.TotalStep(st.log, [S.OkayHandled]);
  }

  /** handleOkay. */
  lemma OkayRun(o: Origin, own: u32) returns (last: M.State)
    requires AtStart(o) && o.call == Okay(own) && own in o.state.registry
    ensures AtRest(o, last) && WellFormed(DeskOf(o.state)) && DeskOf(last) == OnOkay(DeskOf(o.state), own)
  {
    DeskWellFormed(o.state);
    Registered(o, own);
    var i := o.state.registry[own];
    var granting, granted := GrantLocal(o.state.streams[i]);
    var mid := Lookup(o, M.InOkay(own), i, granting);
    last := QuietAct(o, mid, i, S.Grant, granted);
  }

  /** handleClose, up to its call of closeStream. */
  lemma CloseMessageRun(o: Origin, own: u32) returns (last: M.State)
    requires AtStart(o) && o.call == CloseMessage(own) && own in o.state.registry
    ensures o.state.registry[own] < |o.state.streams| && AboutToClose(o, last, o.state.registry[own], false)
    ensures DeskOf(last) == DeskOf(o.state)
    ensures last.pc == M.Serving(o.state.registry[own])
  {
    Registered(o, own);
    var i := o.state.registry[own];
    var st := o.state.streams[i];
    assert st.log + [] == st.log;
    last := Lookup(o, M.InClose(own), i, st.(role := S.Closing(false)));
  }

  lemma DeskWellFormed(s: M.State)
    requires M.Reachable(s)
    ensures WellFormed(DeskOf(s))
  {
    M.ReachableInv(s);
  }

  // ----- handleWrite

  lemma StartLocal(st: S.Stream, from: u32, data: seq<byte>) returns (writing: S.Stream)
    requires st.role.Away? && st.listed
    ensures S.Enabled(st, S.StartWrite(from, data)) && writing == S.Step(st, S.StartWrite(from, data))
    ensures writing.role == S.Writing(from, data) && writing.once == st.once && writing.closed == st.closed
    ensures ViewOf(writing) == ViewOf(st)
  {
    writing := S.Step(st, S.StartWrite(from, data));
    S.TotalStep(st.log, [S.WriteReceived(from, data)]);
  }

  lemma DeviceLocal(st: S.Stream, luck: WriteLuck) returns (wrote: S.Stream)
    requires st.role.Writing? && (luck.deviceOk ==> !st.closed) && Possible(luck, st.role.data)
    ensures var a := S.DeviceWrite(luck.deviceOk, luck.written); S.Enabled(st, a) && wrote == S.Step(st, a)
    ensures wrote.role == (if luck.deviceOk then S.Acking(st.role.from) else S.Closing(true)) && wrote.once == st.once
    ensures ViewOf(wrote) == AfterWrite(ViewOf(st), st.role.from, st.role.data, luck.(ackOk := false))
  {
    var a := S.DeviceWrite(luck.deviceOk, luck.written);
    wrote := S.Step(st, a);
    S.TotalStep(st.log, S.Emit(st, a));
  }

  lemma AckLocal(st: S.Stream, ok: bool) returns (acked: S.Stream)
    requires st.role.Acking?
    ensures S.Enabled(st, S.Ack(ok)) && acked == S.Step(st, S.Ack(ok)) && acked.once == st.once
    ensures acked.role == if ok then S.Away else S.Closing(false)
    ensures var v := ViewOf(st);
      ViewOf(acked) == if ok then v.(sent := v.sent + [S.Okay(st.ownId, st.role.from)]) else v
  {
    acked := S.Step(st, S.Ack(ok));
    S.TotalStep(st.log, S.Emit(st, S.Ack(ok)));
  }

  predicate IsWrite(o: Origin, own: u32, from: u32, data: seq<byte>, luck: WriteLuck) {
    o.call == Write(own, from, data, luck) && Possible(luck, data)
  }

  /** The lookup of a WRTE. */
  lemma StartRun(o: Origin, own: u32, from: u32, data: seq<byte>, luck: WriteLuck) returns (last: M.State)
    requires AtStart(o) && IsWrite(o, own, from, data, luck) && own in o.state.registry
    ensures var s := o.state; var i := s.registry[own];
      && i < |s.streams| == |last.streams| && On(o, last) && Quiet(last)
      && last.registry == s.registry && last.nextId == s.nextId && last.refusals == s.refusals
      && last.pc == M.Serving(i) && Views(last) == Views(s)
      && last.streams[i].role == S.Writing(from, data) && !last.streams[i].closed
  {
    Registered(o, own);
    var i := o.state.registry[own];
    var writing := StartLocal(o.state.streams[i], from, data);
    last := Lookup(o, M.InWrite(from, own, data), i, writing);
    Unseen(o.state, last, i, writing);
  }

  lemma Unseen(s: M.State, next: M.State, i: nat, st: S.Stream)
    requires i < |s.streams| && Views(next) == Views(s)[i := ViewOf(st)] && ViewOf(st) == ViewOf(s.streams[i])
    ensures Views(next) == Views(s)
  {
  }

  /** The write to the device. */
  lemma DeviceRun(o: Origin, s: M.State, i: nat, luck: WriteLuck) returns (last: M.State)
    requires o.call.Write? && o.call.luck == luck
    requires On(o, s) && Quiet(s) && i < |s.streams| && s.pc == M.Serving(i)
    requires var st := s.streams[i]; st.role.Writing? && !st.closed && Possible(luck, st.role.data)
    ensures |last.streams| == |s.streams| && On(o, last) && Quiet(last)
    ensures last.registry == s.registry && last.nextId == s.nextId && last.refusals == s.refusals
    ensures last.pc == M.Serving(i)
    ensures var role := s.streams[i].role;
      && last.streams[i].role == (if luck.deviceOk then S.Acking(role.from) else S.Closing(true))
      && Views(last) == Views(s)[i := AfterWrite(Views(s)[i], role.from, role.data, luck.(ackOk := false))]
  {
    var wrote := DeviceLocal(s.streams[i], luck);
    last := QuietAct(o, s, i, S.DeviceWrite(luck.deviceOk, luck.written), wrote);
  }

  /** handleWrite, up to its call of closeStream if it makes one. */
  lemma WriteRun(o: Origin, own: u32, from: u32, data: seq<byte>, luck: WriteLuck) returns (last: M.State)
    requires AtStart(o) && IsWrite(o, own, from, data, luck) && own in o.state.registry
    ensures o.state.registry[own] < |o.state.streams|
    ensures var s := o.state; var i := s.registry[own];
      && last.registry == s.registry && last.nextId == s.nextId && last.refusals == s.refusals
      && Views(last) == Views(s)[i := AfterWrite(Views(s)[i], from, data, luck)]
      && if luck.deviceOk && luck.ackOk then AtRest(o, last)
         else AboutToClose(o, last, i, !luck.deviceOk) && last.pc == M.Serving(i)
  {
    var i := o.state.registry[own];
    last := StartRun(o, own, from, data, luck);
    last := DeviceRun(o, last, i, luck);
    if luck.deviceOk {
      last := AckRun(o, last, i, luck.ackOk);
    }
  }

  lemma AckRun(o: Origin, s: M.State, i: nat, ok: bool) returns (last: M.State)
    requires o.call.Write? && o.call.luck.ackOk == ok
    requires On(o, s) && Quiet(s) && i < |s.streams| && s.pc == M.Serving(i) && s.streams[i].role.Acking?
    ensures last.registry == s.registry && last.nextId == s.nextId && last.refusals == s.refusals
    ensures var v := Views(s)[i];
      Views(last) == Views(s)[i := if ok then v.(sent := v.sent + [S.Okay(v.ownId, s.streams[i].role.from)]) else v]
    ensures if ok then AtRest(o, last) else AboutToClose(o, last, i, false) && last.pc == M.Serving(i)
  {
    var acked := AckLocal(s.streams[i], ok);
    last := QuietAct(o, s, i, S.Ack(ok), acked);
  }

  // ----- handleOpen and Close

  lemma OpenLocal(id: u32, guest: u32, ok: bool) returns (st: S.Stream)
    ensures st == S.Step(S.Opened(id, guest), S.Announce(ok)) && !st.once.Held?
    ensures st.role == if ok then S.Away else S.Closing(false)
    ensures ViewOf(st) == ViewOf(S.Opened(id, guest)).(sent := if ok then [S.Okay(id, guest)] else [])
  {
    st := S.Step(S.Opened(id, guest), S.Announce(ok));
    S.TotalStep([], S.Emit(S.Opened(id, guest), S.Announce(ok)));
    assert [] + st.log == st.log;
  }

  /** The stream is created and entered. */
  lemma RegisterRun(o: Origin, guest: u32) returns (last: M.State)
    requires AtStart(o) && o.call.Open? && o.call.guest == guest
    ensures On(o, last) && Quiet(last)
    ensures var s := o.state; var n, id := |s.streams|, Wrap32(s.nextId + 1);
      && |last.streams| == n + 1 && last.streams[n] == S.Opened(id, guest)
      && last.registry == s.registry[id := n] && last.nextId == id && last.refusals == s.refusals
      && last.pc == M.Serving(n)
      && Views(last) == Views(s) + [ViewOf(S.Opened(id, guest))]
  {
    last := Begins(o);
    Displaced(o.state, last);
  }

  lemma Displaced(s: M.State, next: M.State)
    requires |s.streams| < |next.streams|
    requires forall i :: 0 <= i < |s.streams| ==>
      next.streams[i] == s.streams[i] || next.streams[i] == S.Step(s.streams[i], S.Displace)
    ensures forall i :: 0 <= i < |s.streams| ==> SameButListed(s.streams[i], next.streams[i])
  {
    forall i | 0 <= i < |s.streams| ensures SameButListed(s.streams[i], next.streams[i]) {
      assert s.streams[i].log + [] == s.streams[i].log;
    }
  }

  /** handleOpen once the device stream is open, up to its call of closeStream if the OKAY is not sent. */
  lemma OpenRun(o: Origin, guest: u32, ok: bool) returns (last: M.State)
    requires AtStart(o) && o.call == Open(guest, ok)
    ensures var s := o.state; var n, id := |s.streams|, Wrap32(s.nextId + 1);
      && Views(last) == Views(s) + [ViewOf(S.Opened(id, guest)).(sent := if ok then [S.Okay(id, guest)] else [])]
      && last.registry == s.registry[id := n] && last.nextId == id && last.refusals == s.refusals
      && if ok then AtRest(o, last) else AboutToClose(o, last, n, false) && last.pc == M.Serving(n)
  {
    var n, id := |o.state.streams|, Wrap32(o.state.nextId + 1);
    last := RegisterRun(o, guest);
    var st := OpenLocal(id, guest, ok);
    last := QuietAct(o, last, n, S.Announce(ok), st);
  }

  /** handleOpen when the device stream cannot be opened. */
  lemma RefuseRun(o: Origin, guest: u32, ok: bool) returns (last: M.State)
    requires AtStart(o) && o.call == Refuse(guest, ok)
    ensures AtRest(o, last) && DeskOf(last) == OnRefuse(DeskOf(o.state), guest, ok)
  {
    var mid := Begins(o);
    GoesOn(o, mid, M.Refuse(ok));
    last := M.Step(mid, M.Refuse(ok));
  }

  /** Inside closeAllStreams, between two streams. */
  ghost predicate Draining(o: Origin, s: M.State, rest: seq<nat>) {
    o.call.CloseAll? && On(o, s) && Quiet(s) && s.pc == M.Draining(rest)
  }

  lemma SnapshotRun(o: Origin, order: seq<nat>) returns (last: M.State)
    requires AtStart(o) && o.call == CloseAll(order) && Covers(DeskOf(o.state), order)
    ensures Draining(o, last, order) && last == o.state.(pc := M.Draining(order))
  {
    last := Begins(o);
  }

  lemma NextRun(o: Origin, s: M.State, rest: seq<nat>) returns (last: M.State)
    requires Draining(o, s, rest) && rest != []
    ensures AboutToClose(o, last, rest[0], false) && last.pc == M.DrainingOne(rest[0], rest[1..])
    ensures DeskOf(last) == DeskOf(s)
  {
    NextEnabled(o, s, rest);
    GoesOn(o, s, M.CloseNext);
    last := M.Step(s, M.CloseNext);
    var st := s.streams[rest[0]];
    assert st.log + [] == st.log;
  }

  lemma NextEnabled(o: Origin, s: M.State, rest: seq<nat>)
    requires Draining(o, s, rest) && rest != []
    ensures M.Enabled(s, M.CloseNext)
  {
    OnInv(o, s);
    assert rest[0] in rest;
  }

  lemma DrainedRun(o: Origin, s: M.State) returns (last: M.State)
    requires Draining(o, s, [])
    ensures AtRest(o, last) && last == s.(pc := M.Idle) && s.registry == map[]
  {
    OnReachable(o, s);
    M.CloseClosesAll(s);
    GoesOn(o, s, M.CloseReturn);
    last := M.Step(s, M.CloseReturn);
  }

  // ----- the theorem

  predicate CanCall(d: Desk, c: Call) {
    match c
    case Write(_, _, data, luck) => Possible(luck, data)
    case CloseAll(order) => Covers(d, order)
    case _ => true
  }

  function Handle(d: Desk, c: Call): Desk
    requires WellFormed(d) && CanCall(d, c)
  {
    match c
    case Open(guest, okaySent) => OnOpen(d, guest, okaySent)
    case Refuse(guest, closeSent) => OnRefuse(d, guest, closeSent)
    case Write(own, from, data, luck) => OnWrite(d, own, from, data, luck)
    case Okay(own) => OnOkay(d, own)
    case CloseMessage(own) => OnClose(d, own)
    case CloseAll(order) => CloseEach(d, order)
  }

  lemma {:induction false} DrainRun(o: Origin, order: seq<nat>, n: nat) returns (last: M.State)
    requires AtStart(o) && o.call == CloseAll(order) && Covers(DeskOf(o.state), order) && n <= |order|
    ensures Draining(o, last, order[n..]) && DeskOf(last) == CloseEach(DeskOf(o.state), order[..n])
  {
    if n == 0 {
      last := SnapshotRun(o, order);
      assert order[0..] == order;
    } else {
      last := DrainRun(o, order, n - 1);
      var i := order[n - 1];
      assert order[..n][..n - 1] == order[..n - 1] && order[n - 1..][1..] == order[n..];
      last := NextRun(o, last, order[n - 1..]);
      last := CloseStreamRun(o, last, i, false, false);
    }
  }

  /** From any reachable state in which no pump is closing its stream, each handler does what a run of its own
      does: one that begins with the message, or with the call of Close, that starts the handler, goes on
      with the dispatcher's steps alone, has the outcomes the handler was given, and ends with the
      dispatcher at rest and the map, the ids and all that can be seen of every stream as the handler
      leaves them. */
  lemma HandlersAreRuns(s: M.State, c: Call) returns (xs: seq<M.Action>, last: M.State)
    requires M.Reachable(s) && Quiet(s) && s.pc.Idle? && CanCall(DeskOf(s), c)
    ensures M.Leads(s, xs, last) && Scripted(xs, c) && last.pc.Idle? && Quiet(last)
    ensures WellFormed(DeskOf(s)) && DeskOf(last) == Handle(DeskOf(s), c)
  {
    DeskWellFormed(s);
    var o := Origin(s, c);
    match c {
      case Open(guest, okaySent) => last := OpenCall(o, guest, okaySent);
      case Refuse(guest, closeSent) => last := RefuseRun(o, guest, closeSent);
      case Write(own, from, data, luck) => last := WriteCall(o, own, from, data, luck);
      case Okay(own) => last := OkayCall(o, own);
      case CloseMessage(own) => last := CloseCall(o, own);
      case CloseAll(order) => last := CloseAllCall(o, order);
    }
    xs :| M.Leads(s, xs, last) && Scripted(xs, c);
  }

  lemma OpenCall(o: Origin, guest: u32, okaySent: bool) returns (last: M.State)
    requires AtStart(o) && o.call == Open(guest, okaySent)
    ensures AtRest(o, last) && DeskOf(last) == OnOpen(DeskOf(o.state), guest, okaySent)
  {
    last := OpenRun(o, guest, okaySent);
    if !okaySent {
      last := CloseStreamRun(o, last, |o.state.streams|, false, false);
    }
  }

  lemma WriteCall(o: Origin, own: u32, from: u32, data: seq<byte>, luck: WriteLuck) returns (last: M.State)
    requires AtStart(o) && WellFormed(DeskOf(o.state)) && IsWrite(o, own, from, data, luck)
    ensures AtRest(o, last) && DeskOf(last) == OnWrite(DeskOf(o.state), own, from, data, luck)
  {
    if own !in o.state.registry {
      last := NotFound(o, M.InWrite(from, own, data));
    } else {
      last := WriteRun(o, own, from, data, luck);
      if !(luck.deviceOk && luck.ackOk) {
        last := CloseStreamRun(o, last, o.state.registry[own], !luck.deviceOk, luck.closeOk);
      }
    }
  }

  lemma OkayCall(o: Origin, own: u32) returns (last: M.State)
    requires AtStart(o) && WellFormed(DeskOf(o.state)) && o.call == Okay(own)
    ensures AtRest(o, last) && DeskOf(last) == OnOkay(DeskOf(o.state), own)
  {
    if own !in o.state.registry {
      last := NotFound(o, M.InOkay(own));
    } else {
      last := OkayRun(o, own);
    }
  }

  lemma CloseCall(o: Origin, own: u32) returns (last: M.State)
    requires AtStart(o) && WellFormed(DeskOf(o.state)) && o.call == CloseMessage(own)
    ensures AtRest(o, last) && DeskOf(last) == OnClose(DeskOf(o.state), own)
  {
    if own !in o.state.registry {
      last := NotFound(o, M.InClose(own));
    } else {
      last := CloseMessageRun(o, own);
      last := CloseStreamRun(o, last, o.state.registry[own], false, false);
    }
  }

  lemma CloseAllCall(o: Origin, order: seq<nat>) returns (last: M.State)
    requires AtStart(o) && o.call == CloseAll(order) && Covers(DeskOf(o.state), order)
    ensures AtRest(o, last) && DeskOf(last) == CloseEach(DeskOf(o.state), order)
  {
    last := DrainRun(o, order, |order|);
    assert order[..|order|] == order && order[|order|..] == [];
    last := DrainedRun(o, last);
  }
}
