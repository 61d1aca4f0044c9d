/** One stream of the owner-side multiplexer (client/relay/owner.go), as the
    dispatch goroutine and the stream's pump goroutine see it.

    The state holds what the Go record holds (ids, the permit token, whether
    `done` and the device connection are closed, the sync.Once) together with
    the program counter of each of the two goroutines with respect to this
    stream. Every action is one indivisible access to shared state; a goroutine
    can be preempted between any two. Everything observable is appended to one
    chronological log. */
module OwnerStream {
  import opened Bytes

  const MAX_CHUNK: int := 0x8000   // adb.MaxPayloadLength

  datatype Actor = Dispatcher | Pump

  /** The three message kinds the owner sends to the guest. */
  datatype Message =
    | Okay(own: u32, guest: u32)
    | Write(own: u32, guest: u32, data: seq<byte>)
    | Close(own: u32, guest: u32)

  datatype Event =
    | Sent(actor: Actor, msg: Message)
    | SendFailed(actor: Actor, msg: Message)
    | PermitTaken
    | OkayHandled
    | DeviceRead(bytes: seq<byte>)
    | WriteReceived(from: u32, bytes: seq<byte>)   // a WRTE whose lookup found the stream
    | DeviceWrote(bytes: seq<byte>)
    | DeviceWriteFailed(bytes: seq<byte>)          // the bytes that went out before the error
    | DoneClosed
    | ConnClosed

  /** Progress inside the function run by closeOnce. */
  datatype Stage = AtDone | AtConn | AtUnregister | AtNotify

  datatype Once = Fresh | Held(actor: Actor, stage: Stage, notify: bool) | Spent

  /** The pump goroutine. `drained` tells the read-error exit from the others. */
  datatype PumpPc =
    | Unborn
    | Reading
    | InRead(wasOpen: bool)
    | Waiting(chunk: seq<byte>, last: bool)
    | Sending(chunk: seq<byte>, last: bool)
    | Quitting(drained: bool)
    | Gone(drained: bool)

  /** What the dispatch goroutine is doing to this stream. */
  datatype Role =
    | Away
    | Announcing
    | Writing(from: u32, data: seq<byte>)
    | Acking(from: u32)
    | Granting
    | Closing(notify: bool)

  datatype Stream = Stream(
    ownId: u32, guestId: u32,
    permit: bool, done: bool, closed: bool, listed: bool,
    once: Once, pump: PumpPc, role: Role,
    log: seq<Event>)

  /** handleOpen has created and registered the stream and filled the permit. */
  function Opened(ownId: u32, guestId: u32): Stream {
    Stream(ownId, guestId, true, false, false, true, Fresh, Unborn, Announcing, [])
  }

  datatype Action =
    // dispatch goroutine
    | Announce(ok: bool)
    | StartWrite(from: u32, data: seq<byte>)
    | DeviceWrite(ok: bool, written: nat)
    | Ack(ok: bool)
    | StartGrant
    | Grant
    | StartClose
    // pump goroutine
    | BeginRead
    | EndRead(data: seq<byte>, last: bool)
    | TakePermit
    | SeeDone
    | Relay(ok: bool)
    // closeStream, by either
    | Enter(who: Actor)
    | Advance(who: Actor, ok: bool)
    | Skip(who: Actor)
    // the registry entry is taken over by another stream with the same id
    | Displace

  /** The goroutine is inside closeStream and has not yet returned. */
  predicate AtClose(st: Stream, who: Actor) {
    if who.Dispatcher? then st.role.Closing? else st.pump.Quitting?
  }

  predicate Enabled(st: Stream, a: Action) {
    match a
    case Announce(_) => st.role.Announcing?
    case StartWrite(_, _) => st.role.Away? && st.listed
    case DeviceWrite(ok, written) =>
      && st.role.Writing?
      && (ok ==> !st.closed)
      && (!ok ==> written <= |st.role.data|)
    case Ack(_) => st.role.Acking?
    case StartGrant => st.role.Away? && st.listed
    case Grant => st.role.Granting?
    case StartClose => st.role.Away?
    case BeginRead => st.pump.Reading?
    case EndRead(data, last) =>
      && st.pump.InRead?
      && |data| <= MAX_CHUNK
      && (!st.pump.wasOpen ==> data == [] && last)
    case TakePermit => st.pump.Waiting? && st.permit
    case SeeDone => st.pump.Waiting? && st.done
    case Relay(_) => st.pump.Sending?
    case Enter(who) => AtClose(st, who) && st.once.Fresh?
    case Advance(who, _) => st.once.Held? && st.once.actor == who
    case Skip(who) => AtClose(st, who) && st.once.Spent?
    case Displace => true
  }

  /** SendAdbMessage, which either delivers the whole message or fails. */
  function Send(actor: Actor, ok: bool, msg: Message): Event {
    if ok then Sent(actor, msg) else SendFailed(actor, msg)
  }

  /** The goroutine returns from closeStream. */
  function Leave(st: Stream, who: Actor): Stream {
    if who.Dispatcher? then st.(role := Away)
    else if st.pump.Quitting? then st.(pump := Gone(st.pump.drained))
    else st
  }

  /** One statement of the function run by closeOnce. */
  function AdvanceOnce(st: Stream, who: Actor): Stream
    requires st.once.Held?
  {
    match st.once.stage
    case AtDone => st.(done := true, once := st.once.(stage := AtConn))
    case AtConn => st.(closed := true, once := st.once.(stage := AtUnregister))
    case AtUnregister => st.(listed := false, once := st.once.(stage := AtNotify))
    case AtNotify => Leave(st.(once := Spent), who)
  }

  /** The effect of an action on everything but the log. */
  function Move(st: Stream, a: Action): Stream
    requires Enabled(st, a)
  {
    match a
    case Announce(ok) =>
      if ok then st.(role := Away, pump := Reading) else st.(role := Closing(false))
    case StartWrite(from, data) => st.(role := Writing(from, data))
    case DeviceWrite(ok, _) => st.(role := if ok then Acking(st.role.from) else Closing(true))
    case Ack(ok) => st.(role := if ok then Away else Closing(false))
    case StartGrant => st.(role := Granting)
    case Grant => st.(permit := true, role := Away)
    case StartClose => st.(role := Closing(false))
    case BeginRead => st.(pump := InRead(!st.closed))
    case EndRead(data, last) =>
      st.(pump := if data != [] then Waiting(data, last) else if last then Quitting(true) else Reading)
    case TakePermit => st.(permit := false, pump := Sending(st.pump.chunk, st.pump.last))
    case SeeDone => st.(pump := Gone(false))
    case Relay(ok) =>
      st.(pump := if !ok then Quitting(false) else if st.pump.last then Quitting(true) else Reading)
    case Enter(who) =>
      st.(once := Held(who, AtDone, if who.Dispatcher? then st.role.notify else st.pump.drained))
    case Advance(who, _) => AdvanceOnce(st, who)
    case Skip(who) => Leave(st, who)
    case Displace => st.(listed := false)
  }

  /** What an action appends to the log: nothing or one event. */
  function Emit(st: Stream, a: Action): (es: seq<Event>)
    requires Enabled(st, a)
    ensures |es| <= 1
  {
    match a
    case Announce(ok) => [Send(Dispatcher, ok, Okay(st.ownId, st.guestId))]
    case StartWrite(from, data) => [WriteReceived(from, data)]
    case DeviceWrite(ok, written) =>
      [if ok then DeviceWrote(st.role.data) else DeviceWriteFailed(st.role.data[..written])]
    case Ack(ok) => [Send(Dispatcher, ok, Okay(st.ownId, st.role.from))]
    case Grant => [OkayHandled]
    case EndRead(data, _) => if data == [] then [] else [DeviceRead(data)]
    case TakePermit => [PermitTaken]
    case Relay(ok) => [Send(Pump, ok, Write(st.ownId, st.guestId, st.pump.chunk))]
    case Advance(who, ok) =>
      (match st.once.stage
       case AtDone => [DoneClosed]
       case AtConn => [ConnClosed]
       case AtUnregister => []
       case AtNotify => if st.once.notify then [Send(who, ok, Close(st.ownId, st.guestId))] else [])
    case _ => []
  }

  function Step(st: Stream, a: Action): Stream
    requires Enabled(st, a)
  {
    Move(st, a).(log := st.log + Emit(st, a))
  }

  /** The action is performed by the dispatch goroutine. */
  predicate OnDispatcher(a: Action) {
    ByDispatcher(a) || ((a.Enter? || a.Advance? || a.Skip?) && a.who.Dispatcher?)
  }

  predicate Unregisters(st: Stream, a: Action) {
    a.Advance? && st.once.Held? && st.once.stage.AtUnregister?
  }

  /** The stream's own teardown has taken it out of the registry. */
  predicate PastUnregister(st: Stream) {
    st.once.Spent? || (st.once.Held? && st.once.stage.AtNotify?)
  }

  lemma MoveFrameDispatch(st: Stream, a: Action)
    requires Enabled(st, a) && ByDispatcher(a)
    ensures var next := Move(st, a);
      && next.ownId == st.ownId && next.guestId == st.guestId
      && (!OnDispatcher(a) ==> next.role == st.role)
  {
  }

  lemma MoveFramePump(st: Stream, a: Action)
    requires Enabled(st, a) && ByPump(a)
    ensures var next := Move(st, a);
      && next.ownId == st.ownId && next.guestId == st.guestId
      && (!OnDispatcher(a) ==> next.role == st.role)
  {
  }

  lemma MoveFrameClose(st: Stream, a: Action)
    requires Enabled(st, a) && ByCloser(a)
    ensures var next := Move(st, a);
      && next.ownId == st.ownId && next.guestId == st.guestId
      && (!OnDispatcher(a) ==> next.role == st.role)
  {
  }

  lemma MoveFrame(st: Stream, a: Action)
    requires Enabled(st, a)
    ensures var next := Move(st, a);
      && next.ownId == st.ownId && next.guestId == st.guestId
      && (!OnDispatcher(a) ==> next.role == st.role)
  {
    if ByDispatcher(a) {
      MoveFrameDispatch(st, a);
    } else if ByPump(a) {
      MoveFramePump(st, a);
    } else {
      MoveFrameClose(st, a);
    }
  }

  lemma MoveListingDispatch(st: Stream, a: Action)
    requires Enabled(st, a) && ByDispatcher(a)
    ensures var next := Move(st, a);
      && (next.listed <==> st.listed && !Unregisters(st, a) && !a.Displace?)
      && (PastUnregister(st) || Unregisters(st, a) ==> PastUnregister(next))
  {
  }

  lemma MoveListingPump(st: Stream, a: Action)
    requires Enabled(st, a) && ByPump(a)
    ensures var next := Move(st, a);
      && (next.listed <==> st.listed && !Unregisters(st, a) && !a.Displace?)
      && (PastUnregister(st) || Unregisters(st, a) ==> PastUnregister(next))
  {
  }

  lemma MoveListingAdvance(st: Stream, a: Action)
    requires Enabled(st, a) && a.Advance?
    ensures var next := Move(st, a);
      && (next.listed <==> st.listed && !Unregisters(st, a))
      && (PastUnregister(st) || Unregisters(st, a) ==> PastUnregister(next))
  {
  }

  lemma MoveListingClose(st: Stream, a: Action)
    requires Enabled(st, a) && ByCloser(a)
    ensures var next := Move(st, a);
      && (next.listed <==> st.listed && !Unregisters(st, a) && !a.Displace?)
      && (PastUnregister(st) || Unregisters(st, a) ==> PastUnregister(next))
  {
    if a.Advance? {
      MoveListingAdvance(st, a);
    }
  }

  lemma MoveListing(st: Stream, a: Action)
    requires Enabled(st, a)
    ensures var next := Move(st, a);
      && (next.listed <==> st.listed && !Unregisters(st, a) && !a.Displace?)
      && (PastUnregister(st) || Unregisters(st, a) ==> PastUnregister(next))
  {
    if ByDispatcher(a) {
      MoveListingDispatch(st, a);
    } else if ByPump(a) {
      MoveListingPump(st, a);
    } else {
      MoveListingClose(st, a);
    }
  }

  lemma StepFrame(st: Stream, a: Action)
    requires Enabled(st, a)
    ensures var next := Step(st, a);
      && next.ownId == st.ownId && next.guestId == st.guestId
      && st.log <= next.log
      && (!OnDispatcher(a) ==> next.role == st.role)
      && (next.listed <==> st.listed && !Unregisters(st, a) && !a.Displace?)
      && (PastUnregister(st) || Unregisters(st, a) ==> PastUnregister(next))
  {
    MoveFrame(st, a);
    MoveListing(st, a);
  }

  // ----- what can be read off a log

  /** Running totals of a log. */
  datatype Tally = Tally(
    writes: nat,              // WRTEs sent to the guest
    okaySends: nat,           // attempts to send an OKAY
    closeSends: nat,          // attempts to send a CLSE
    pumpCloses: nat,          // CLSEs sent by the pump
    taken: nat,               // permits taken by the pump
    grants: nat,              // OKAYs from the guest handled
    doneCloses: nat,          // executions of close(done)
    connCloses: nat,          // executions of conn.Close()
    deviceWrites: nat,        // complete writes to the device
    deviceFailures: nat,      // failed writes to the device
    tail: nat,                // WRTEs sent since the device connection was closed
    read: seq<byte>,          // bytes read from the device
    relayed: seq<byte>,       // bytes carried by the WRTEs sent
    received: seq<byte>,      // bytes of the WRTEs dispatched to the stream
    written: seq<byte>,       // bytes that reached the device
    senders: seq<u32>,        // arg1 of the WRTEs dispatched to the stream
    targets: seq<u32>,        // arg2 of the OKAYs sent
    messages: seq<Message>)   // everything sent to the guest

  function Sum(t: Tally, e: Event): Tally {
    match e
    case Sent(actor, msg) =>
      var u := t.(messages := t.messages + [msg]);
      (match msg
       case Okay(_, guest) => u.(okaySends := t.okaySends + 1, targets := t.targets + [guest])
       case Write(_, _, data) =>
         u.(writes := t.writes + 1, relayed := t.relayed + data, tail := t.tail + Bit(t.connCloses > 0))
       case Close(_, _) =>
         u.(closeSends := t.closeSends + 1, pumpCloses := t.pumpCloses + Bit(actor.Pump?)))
    case SendFailed(_, msg) =>
      (match msg
       case Okay(_, _) => t.(okaySends := t.okaySends + 1)
       case Write(_, _, _) => t
       case Close(_, _) => t.(closeSends := t.closeSends + 1))
    case PermitTaken => t.(taken := t.taken + 1)
    case OkayHandled => t.(grants := t.grants + 1)
    case DeviceRead(bytes) => t.(read := t.read + bytes)
    case WriteReceived(from, bytes) =>
      t.(senders := t.senders + [from], received := t.received + bytes)
    case DeviceWrote(bytes) =>
      t.(deviceWrites := t.deviceWrites + 1, written := t.written + bytes)
    case DeviceWriteFailed(bytes) =>
      t.(deviceFailures := t.deviceFailures + 1, written := t.written + bytes)
    case DoneClosed => t.(doneCloses := t.doneCloses + 1)
    case ConnClosed => t.(connCloses := t.connCloses + 1)
  }

  const NOTHING := Tally(0, 0, 0, 0, 0, 0, 0, 0, 0, 0, 0, [], [], [], [], [], [], [])

  function Total(log: seq<Event>): Tally {
    if log == [] then NOTHING else Sum(Total(log[..|log| - 1]), log[|log| - 1])
  }

  /** The totals after an action, which emits at most one event. */
  function SumAll(t: Tally, es: seq<Event>): Tally
    requires |es| <= 1
  {
    if es == [] then t else Sum(t, es[0])
  }

  lemma TotalStep(log: seq<Event>, es: seq<Event>)
    requires |es| <= 1
    ensures Total(log + es) == SumAll(Total(log), es)
  {
    if es == [] {
      assert log + es == log;
    } else {
      assert (log + es)[..|log|] == log;
    }
  }

  function Bit(b: bool): nat { if b then 1 else 0 }

  // ----- the invariant

  /** Permits taken plus available never exceed the initial one plus the OKAYs handled. */
  predicate Flow(st: Stream, t: Tally) {
    && t.taken + Bit(st.permit) <= 1 + t.grants
    && t.writes + Bit(st.pump.Sending?) <= t.taken
  }

  /** Device to guest: what was relayed, plus what the pump carries, is what was read. */
  predicate Fidelity(st: Stream, t: Tally) {
    match st.pump
    case Unborn => t.relayed == [] == t.read
    case Reading => t.relayed == t.read
    case InRead(_) => t.relayed == t.read
    case Waiting(chunk, _) => t.relayed + chunk == t.read && 0 < |chunk| <= MAX_CHUNK
    case Sending(chunk, _) => t.relayed + chunk == t.read && 0 < |chunk| <= MAX_CHUNK
    case Quitting(drained) =>
      if drained then t.relayed == t.read
      else t.relayed <= t.read && |t.read| <= |t.relayed| + MAX_CHUNK
    case Gone(drained) =>
      if drained then t.relayed == t.read
      else t.relayed <= t.read && |t.read| <= |t.relayed| + MAX_CHUNK
  }

  /** WRTEs the pump can still send once the device connection is closed. */
  function Budget(pump: PumpPc): nat {
    match pump
    case InRead(wasOpen) => Bit(wasOpen)
    case Waiting(_, _) => 1
    case Sending(_, _) => 1
    case _ => 0
  }

  /** Each stage of the teardown, and who may be in it. */
  predicate Teardown(st: Stream, t: Tally) {
    && t.doneCloses == Bit(st.done)
    && t.connCloses == Bit(st.closed)
    && (t.pumpCloses > 0 ==> st.pump.Gone?)
    && (st.role == Closing(true) ==> t.deviceFailures > 0)
    && (t.closeSends > 0 ==> t.deviceFailures > 0 || st.pump.Gone?)
    && (if st.closed then t.tail + Budget(st.pump) <= 1 else t.tail == 0)
    && match st.once
       case Fresh => !st.done && !st.closed && t.closeSends == 0
       case Held(actor, stage, notify) =>
         && (if actor.Dispatcher? then st.role == Closing(notify) else st.pump == Quitting(notify))
         && st.done == !stage.AtDone?
         && st.closed == (stage.AtUnregister? || stage.AtNotify?)
         && (stage.AtNotify? ==> !st.listed)
         && t.closeSends == 0
       case Spent => st.done && st.closed && !st.listed && t.closeSends <= 1
  }

  /** The pump starts only after the OPEN was acknowledged, and the OKAY is the first message. */
  predicate Announced(st: Stream, t: Tally) {
    && (st.role.Announcing? ==> st.pump.Unborn? && st.once.Fresh?)
    && (if st.pump.Unborn?
        then t.messages == [] && (st.role.Announcing? || st.role == Closing(false) || (st.once.Spent? && st.role.Away?))
        else t.messages != [] && t.messages[0] == Okay(st.ownId, st.guestId))
  }

  /** Guest to device: bytes written and acknowledgements sent. */
  predicate Accounting(st: Stream, t: Tally) {
    var expected := [st.guestId] + t.senders;
    && t.okaySends + Bit(st.role.Announcing? || st.role.Acking?) == 1 + t.deviceWrites
    && t.written <= t.received && t.targets <= expected
    && (t.deviceFailures == 0 && !st.role.Writing? ==> t.written == t.received)
    && (t.deviceFailures > 0 ==> st.role == Closing(true) || st.once.Spent?)
    && match st.role
       case Announcing => t.received == [] && t.targets == [] && t.senders == []
       case Writing(from, data) => t.written + data == t.received && t.targets + [from] == expected
       case Acking(from) => t.written == t.received && t.targets + [from] == expected
       case Closing(_) => true
       case Away => st.once.Spent? || (t.written == t.received && t.targets == expected)
       case Granting => st.once.Spent? || (t.written == t.received && t.targets == expected)
  }

  /** Every message carries the stream's own id; WRTE and CLSE carry the guest's id as well,
      and a WRTE is never empty and never longer than MAXDATA. */
  predicate WellAddressed(st: Stream, m: Message) {
    && m.own == st.ownId
    && (m.Okay? || m.guest == st.guestId)
    && (m.Write? ==> 0 < |m.data| <= MAX_CHUNK)
  }

  predicate AllAddressed(st: Stream, t: Tally) {
    forall m :: m in t.messages ==> WellAddressed(st, m)
  }

  predicate Core(st: Stream, t: Tally) {
    Flow(st, t) && Fidelity(st, t) && Teardown(st, t) && Announced(st, t) && Accounting(st, t)
    && AllAddressed(st, t)
  }

  predicate ByDispatcher(a: Action) {
    a.Announce? || a.StartWrite? || a.DeviceWrite? || a.Ack? || a.StartGrant? || a.Grant? || a.StartClose?
  }

  predicate ByPump(a: Action) {
    a.BeginRead? || a.EndRead? || a.TakePermit? || a.SeeDone? || a.Relay?
  }

  predicate ByCloser(a: Action) {
    a.Enter? || a.Advance? || a.Skip? || a.Displace?
  }

  lemma FlowDispatchStep(st: Stream, t: Tally, a: Action)
    requires Enabled(st, a) && Flow(st, t) && ByDispatcher(a)
    ensures Flow(Move(st, a), SumAll(t, Emit(st, a)))
  {
  }

  lemma FlowPumpStep(st: Stream, t: Tally, a: Action)
    requires Enabled(st, a) && Flow(st, t) && ByPump(a)
    ensures Flow(Move(st, a), SumAll(t, Emit(st, a)))
  {
  }

  lemma FlowCloseStep(st: Stream, t: Tally, a: Action)
    requires Enabled(st, a) && Flow(st, t) && ByCloser(a)
    ensures Flow(Move(st, a), SumAll(t, Emit(st, a)))
  {
  }

  lemma FlowStep(st: Stream, t: Tally, a: Action)
    requires Enabled(st, a) && Flow(st, t)
    ensures Flow(Move(st, a), SumAll(t, Emit(st, a)))
  {
    if ByDispatcher(a) {
      FlowDispatchStep(st, t, a);
    } else if ByPump(a) {
      FlowPumpStep(st, t, a);
    } else {
      FlowCloseStep(st, t, a);
    }
  }

  lemma FidelityPumpStep(st: Stream, t: Tally, a: Action)
    requires Enabled(st, a) && Fidelity(st, t) && ByPump(a)
    ensures Fidelity(Move(st, a), SumAll(t, Emit(st, a)))
  {
  }

  lemma FidelityDispatchStep(st: Stream, t: Tally, a: Action)
    requires Enabled(st, a) && Fidelity(st, t) && Announced(st, t) && ByDispatcher(a)
    ensures Fidelity(Move(st, a), SumAll(t, Emit(st, a)))
  {
  }

  lemma FidelityCloseStep(st: Stream, t: Tally, a: Action)
    requires Enabled(st, a) && Fidelity(st, t) && ByCloser(a)
    ensures Fidelity(Move(st, a), SumAll(t, Emit(st, a)))
  {
    var next, moved := SumAll(t, Emit(st, a)), Move(st, a);
    assert next.read == t.read && next.relayed == t.relayed;
    assert moved.pump == st.pump || (st.pump.Quitting? && moved.pump == Gone(st.pump.drained));
  }

  lemma TeardownDispatchStep(st: Stream, t: Tally, a: Action)
    requires Enabled(st, a) && Teardown(st, t) && Announced(st, t) && ByDispatcher(a)
    ensures Teardown(Move(st, a), SumAll(t, Emit(st, a)))
  {
  }

  lemma TeardownPumpStep(st: Stream, t: Tally, a: Action)
    requires Enabled(st, a) && Teardown(st, t) && ByPump(a)
    ensures Teardown(Move(st, a), SumAll(t, Emit(st, a)))
  {
  }

  lemma TeardownCloseStep(st: Stream, t: Tally, a: Action)
    requires Enabled(st, a) && Teardown(st, t) && ByCloser(a)
    ensures Teardown(Move(st, a), SumAll(t, Emit(st, a)))
  {
  }

  lemma AnnouncedDispatchStep(st: Stream, t: Tally, a: Action)
    requires Enabled(st, a) && Teardown(st, t) && Announced(st, t) && ByDispatcher(a)
    ensures Announced(Move(st, a), SumAll(t, Emit(st, a)))
  {
  }

  lemma AnnouncedPumpStep(st: Stream, t: Tally, a: Action)
    requires Enabled(st, a) && Teardown(st, t) && Announced(st, t) && ByPump(a)
    ensures Announced(Move(st, a), SumAll(t, Emit(st, a)))
  {
  }

  lemma AnnouncedCloseStep(st: Stream, t: Tally, a: Action)
    requires Enabled(st, a) && Teardown(st, t) && Announced(st, t) && ByCloser(a)
    ensures Announced(Move(st, a), SumAll(t, Emit(st, a)))
  {
  }

  lemma AnnouncedStep(st: Stream, t: Tally, a: Action)
    requires Enabled(st, a) && Teardown(st, t) && Announced(st, t)
    ensures Announced(Move(st, a), SumAll(t, Emit(st, a)))
  {
    if ByDispatcher(a) {
      AnnouncedDispatchStep(st, t, a);
    } else if ByPump(a) {
      AnnouncedPumpStep(st, t, a);
    } else {
      AnnouncedCloseStep(st, t, a);
    }
  }

  lemma AccountingWriteStep(st: Stream, t: Tally, a: Action)
    requires Enabled(st, a) && Teardown(st, t) && Accounting(st, t) && (a.StartWrite? || a.DeviceWrite?)
    ensures Accounting(Move(st, a), SumAll(t, Emit(st, a)))
  {
  }

  lemma AccountingOkayStep(st: Stream, t: Tally, a: Action)
    requires Enabled(st, a) && Teardown(st, t) && Accounting(st, t)
    requires ByDispatcher(a) && !a.StartWrite? && !a.DeviceWrite?
    ensures Accounting(Move(st, a), SumAll(t, Emit(st, a)))
  {
  }

  lemma AccountingPumpStep(st: Stream, t: Tally, a: Action)
    requires Enabled(st, a) && Accounting(st, t) && ByPump(a)
    ensures Accounting(Move(st, a), SumAll(t, Emit(st, a)))
  {
  }

  lemma AccountingAdvanceStep(st: Stream, t: Tally, a: Action)
    requires Enabled(st, a) && Teardown(st, t) && Accounting(st, t) && a.Advance?
    ensures Accounting(Move(st, a), SumAll(t, Emit(st, a)))
  {
  }

  lemma AccountingCloseStep(st: Stream, t: Tally, a: Action)
    requires Enabled(st, a) && Teardown(st, t) && Accounting(st, t) && ByCloser(a)
    ensures Accounting(Move(st, a), SumAll(t, Emit(st, a)))
  {
    if a.Advance? {
      AccountingAdvanceStep(st, t, a);
    }
  }

  lemma AddressedStep(st: Stream, t: Tally, a: Action)
    requires Enabled(st, a) && Fidelity(st, t) && AllAddressed(st, t)
    ensures AllAddressed(Move(st, a), SumAll(t, Emit(st, a)))
  {
    EmitsAddressed(st, t, a);
    MessagesGrow(t, Emit(st, a));
    MoveFrame(st, a);
  }

  lemma EmitsAddressed(st: Stream, t: Tally, a: Action)
    requires Enabled(st, a) && Fidelity(st, t)
    ensures var es := Emit(st, a); es != [] && es[0].Sent? ==> WellAddressed(st, es[0].msg)
  {
  }

  lemma MessagesGrow(t: Tally, es: seq<Event>)
    requires |es| <= 1
    ensures SumAll(t, es).messages == t.messages + if es != [] && es[0].Sent? then [es[0].msg] else []
  {
    assert t.messages + [] == t.messages;
  }

  lemma CoreStep(st: Stream, t: Tally, a: Action)
    requires Enabled(st, a) && Core(st, t)
    ensures Core(Move(st, a), SumAll(t, Emit(st, a)))
  {
    FlowStep(st, t, a);
    AnnouncedStep(st, t, a);
    AddressedStep(st, t, a);
    if ByDispatcher(a) {
      FidelityDispatchStep(st, t, a);
      TeardownDispatchStep(st, t, a);
      if a.StartWrite? || a.DeviceWrite? {
        AccountingWriteStep(st, t, a);
      } else {
        AccountingOkayStep(st, t, a);
      }
    } else if ByPump(a) {
      FidelityPumpStep(st, t, a);
      TeardownPumpStep(st, t, a);
      AccountingPumpStep(st, t, a);
    } else {
      FidelityCloseStep(st, t, a);
      TeardownCloseStep(st, t, a);
      AccountingCloseStep(st, t, a);
    }
  }

  lemma CoreIgnoresLog(st: Stream, log: seq<Event>, t: Tally)
    requires Core(st, t)
    ensures Core(st.(log := log), t)
  {
    assert forall m :: m in t.messages ==> WellAddressed(st, m);
  }

  lemma OnlySendingWrites(st: Stream, a: Action)
    requires Enabled(st, a)
    ensures var es := Emit(st, a); es != [] && es[0].Sent? && es[0].msg.Write? ==> st.pump.Sending?
  {
  }

  // ----- chronology: what holds between the events of a log

  /** At every moment at most one WRTE more than OKAYs handled had been sent. */
  predicate Paced(log: seq<Event>) {
    forall k :: 0 <= k <= |log| ==> Total(log[..k]).writes <= Total(log[..k]).grants + 1
  }

  /** No WRTE follows a CLSE that the pump sent. */
  predicate PumpClosesLast(log: seq<Event>) {
    forall j, k :: 0 <= j < k < |log| && log[j].Sent? && log[j].actor.Pump? && log[j].msg.Close? ==>
      !(log[k].Sent? && log[k].msg.Write?)
  }

  /** A WRTE follows a CLSE only where a write to the device had failed. */
  predicate LateWritesExplained(log: seq<Event>) {
    forall j, k :: 0 <= j < k < |log| && log[j].Sent? && log[j].msg.Close? && log[k].Sent? && log[k].msg.Write? ==>
      Total(log[..k]).deviceFailures > 0
  }

  lemma {:induction false} CloseSendCounted(log: seq<Event>, j: nat)
    requires j < |log| && log[j].Sent? && log[j].msg.Close?
    ensures Total(log).closeSends > 0
  {
    if j < |log| - 1 {
      CloseSendCounted(log[..|log| - 1], j);
    }
  }

  lemma LateWritesStep(log: seq<Event>, es: seq<Event>)
    requires LateWritesExplained(log) && |es| <= 1
    requires es != [] && es[0].Sent? && es[0].msg.Write? ==>
      Total(log).closeSends == 0 || Total(log).deviceFailures > 0
    ensures LateWritesExplained(log + es)
  {
    var longer := log + es;
    forall j, k | 0 <= j < k < |longer| && longer[j].Sent? && longer[j].msg.Close?
      && longer[k].Sent? && longer[k].msg.Write?
      ensures Total(longer[..k]).deviceFailures > 0
    {
      assert longer[..k] == log[..k];
      if k == |log| {
        assert log[..k] == log;
        CloseSendCounted(log, j);
      }
    }
  }

  lemma PacedAt(log: seq<Event>, longer: seq<Event>, k: nat)
    requires Paced(log) && log <= longer && |longer| <= |log| + 1 && k <= |longer|
    requires Total(longer).writes <= Total(longer).grants + 1
    ensures Total(longer[..k]).writes <= Total(longer[..k]).grants + 1
  {
    if k <= |log| {
      assert longer[..k] == log[..k];
    } else {
      assert longer[..k] == longer;
    }
  }

  lemma {:induction false} PumpCloseCounted(log: seq<Event>, j: nat)
    requires j < |log| && log[j].Sent? && log[j].actor.Pump? && log[j].msg.Close?
    ensures Total(log).pumpCloses > 0
  {
    if j < |log| - 1 {
      PumpCloseCounted(log[..|log| - 1], j);
    }
  }

  lemma PumpClosesLastStep(log: seq<Event>, es: seq<Event>)
    requires PumpClosesLast(log) && |es| <= 1
    requires es != [] && es[0].Sent? && es[0].msg.Write? ==> Total(log).pumpCloses == 0
    ensures PumpClosesLast(log + es)
  {
    var longer := log + es;
    forall j, k | 0 <= j < k < |longer| && longer[j].Sent? && longer[j].actor.Pump? && longer[j].msg.Close?
      ensures !(longer[k].Sent? && longer[k].msg.Write?)
    {
      if k == |log| {
        PumpCloseCounted(log, j);
      }
    }
  }

  /** The invariant of one stream. */
  predicate Inv(st: Stream) {
    Core(st, Total(st.log)) && Paced(st.log) && PumpClosesLast(st.log) && LateWritesExplained(st.log)
  }

  lemma OpenedInv(ownId: u32, guestId: u32)
    ensures Inv(Opened(ownId, guestId))
  {
  }

  lemma StepInv(st: Stream, a: Action)
    requires Enabled(st, a) && Inv(st)
    ensures Inv(Step(st, a))
  {
    var t, es := Total(st.log), Emit(st, a);
    CoreStep(st, t, a);
    TotalStep(st.log, es);
    CoreIgnoresLog(Move(st, a), st.log + es, SumAll(t, es));
    forall k | 0 <= k <= |st.log + es|
      ensures Total((st.log + es)[..k]).writes <= Total((st.log + es)[..k]).grants + 1
    {
      PacedAt(st.log, st.log + es, k);
    }
    OnlySendingWrites(st, a);
    PumpClosesLastStep(st.log, es);
    LateWritesStep(st.log, es);
  }

  /** When the dispatcher returns from closeStream the stream is out of the registry. */
  lemma ClosedMeansUnlisted(st: Stream, t: Tally, a: Action)
    requires Enabled(st, a) && Teardown(st, t) && st.role.Closing?
    ensures Move(st, a).role.Closing? || (Move(st, a).role.Away? && !Move(st, a).listed)
  {
  }
}
