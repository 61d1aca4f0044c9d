/** The whole owner-side multiplexer (client/relay/owner.go): the dispatch
    goroutine, the registry of streams, the id counter and every stream with
    its pump, interleaved in any order.

    The dispatch goroutine is the only one that runs Dispatch and Close
    (client/controller/ownerController.go puts both on one loop), so it has a
    single program counter. Pumps act whenever they can. */
module OwnerMultiplexer {
  import opened Bytes
  import S = OwnerStream
  import L = OwnerStreamLaws
  import W = OwnerLateWrites

  /** An ADB message from the guest, as Dispatch switches on it. */
  datatype Inbound =
    | InWrite(from: u32, own: u32, data: seq<byte>)
    | InOkay(own: u32)
    | InClose(own: u32)
    | InOther

  datatype DispatcherPc =
    | Idle
    | Serving(i: nat)                        // in a handler, working on stream i
    | Refusing(guest: u32)                   // OpenStream failed
    | Draining(rest: seq<nat>)               // in closeAllStreams, between two streams
    | DrainingOne(i: nat, rest: seq<nat>)    // in closeAllStreams, working on stream i

  /** Streams are numbered in the order of their OPENs; the registry maps own ids to numbers. */
  datatype State = State(
    streams: seq<S.Stream>,
    registry: map<u32, nat>,
    nextId: u32,
    pc: DispatcherPc,
    refusals: seq<u32>)    // guest ids answered with CLSE(0, id) because no device stream could be opened

  const START := State([], map[], 0, Idle, [])

  datatype Action =
    | Open(guest: u32, ok: bool)
    | Refuse(ok: bool)                       // whether the CLSE is sent
    | Receive(msg: Inbound)
    | Act(i: nat, a: S.Action)
    | CloseAll(order: seq<nat>)
    | CloseNext
    | CloseReturn

  /** Actions of a goroutine on a stream it already holds, as opposed to those a lookup begins. */
  predicate Ongoing(a: S.Action) {
    !a.StartWrite? && !a.StartGrant? && !a.StartClose? && !a.Displace?
  }

  /** The stream that a message naming an id begins work on, and the work. */
  function Begin(msg: Inbound): S.Action
    requires !msg.InOther?
  {
    match msg
    case InWrite(from, _, data) => S.StartWrite(from, data)
    case InOkay(_) => S.StartGrant
    case InClose(_) => S.StartClose
  }

  predicate Found(s: State, msg: Inbound) { !msg.InOther? && msg.own in s.registry }

  predicate CanBegin(s: State, i: nat, a: S.Action) {
    i < |s.streams| && S.Enabled(s.streams[i], a)
  }

  predicate Enabled(s: State, x: Action) {
    match x
    case Open(_, _) => s.pc.Idle?
    case Refuse(_) => s.pc.Refusing?
    case Receive(msg) =>
      s.pc.Idle? && (Found(s, msg) ==> CanBegin(s, s.registry[msg.own], Begin(msg)))
    case Act(i, a) =>
      && CanBegin(s, i, a) && Ongoing(a)
      && (S.OnDispatcher(a) ==> (s.pc.Serving? || s.pc.DrainingOne?) && s.pc.i == i)
    case CloseAll(order) =>
      && s.pc.Idle?
      && (forall k :: k in s.registry ==> s.registry[k] in order)
      && (forall i :: i in order ==> i in s.registry.Values)
    case CloseNext => s.pc.Draining? && s.pc.rest != [] && CanBegin(s, s.pc.rest[0], S.StartClose)
    case CloseReturn => s.pc.Draining? && s.pc.rest == []
  }

  /** Whoever holds the registry entry of `id`, other than stream `but`, loses it. */
  function Evict(s: State, id: u32, but: nat): (streams: seq<S.Stream>)
    ensures |streams| == |s.streams|
  {
    if id in s.registry && s.registry[id] != but && s.registry[id] < |s.streams|
    then s.streams[s.registry[id] := S.Step(s.streams[s.registry[id]], S.Displace)]
    else s.streams
  }

  /** The dispatcher goes on when it is done with the stream. */
  function Resume(pc: DispatcherPc, st: S.Stream): DispatcherPc {
    if !st.role.Away? then pc
    else match pc
      case Serving(_) => Idle
      case DrainingOne(_, rest) => Draining(rest)
      case _ => pc
  }

  function StepOn(s: State, i: nat, a: S.Action): State
    requires CanBegin(s, i, a)
  {
    var st, next := s.streams[i], S.Step(s.streams[i], a);
    var pc := if S.OnDispatcher(a) then Resume(s.pc, next) else s.pc;
    if S.Unregisters(st, a)
    then s.(streams := Evict(s, st.ownId, i)[i := next], registry := s.registry - {st.ownId}, pc := pc)
    else s.(streams := s.streams[i := next], pc := pc)
  }

  function Step(s: State, x: Action): State
    requires Enabled(s, x)
  {
    match x
    case Open(guest, ok) =>
      if !ok then s.(pc := Refusing(guest))
      else
        var n, id := |s.streams|, Wrap32(s.nextId + 1);
        s.(streams := Evict(s, id, n) + [S.Opened(id, guest)], registry := s.registry[id := n], nextId := id,
           pc := Serving(n))
    case Refuse(ok) => s.(pc := Idle, refusals := s.refusals + if ok then [s.pc.guest] else [])
    case Receive(msg) =>
      if !Found(s, msg) then s
      else
        var i := s.registry[msg.own];
        s.(streams := s.streams[i := S.Step(s.streams[i], Begin(msg))], pc := Serving(i))
    case Act(i, a) => StepOn(s, i, a)
    case CloseAll(order) => s.(pc := Draining(order))
    case CloseNext =>
      var i := s.pc.rest[0];
      s.(streams := s.streams[i := S.Step(s.streams[i], S.StartClose)], pc := DrainingOne(i, s.pc.rest[1..]))
    case CloseReturn => s.(pc := Idle)
  }

  // ----- the invariant

  predicate Busy(pc: DispatcherPc, i: nat) { (pc.Serving? || pc.DrainingOne?) && pc.i == i }

  /** The dispatcher works on at most the one stream its program counter names. */
  predicate OneAtATime(s: State) {
    && (s.pc.Serving? || s.pc.DrainingOne? ==> s.pc.i < |s.streams|)
    && (s.pc.DrainingOne? ==> s.streams[s.pc.i].role.Closing?)
    && forall i :: 0 <= i < |s.streams| ==> (s.streams[i].role.Away? <==> !Busy(s.pc, i))
  }

  /** A stream is listed exactly when the registry holds it, under its own id. */
  predicate RegistryExact(s: State) {
    && (forall k :: k in s.registry ==> s.registry[k] < |s.streams| && s.streams[s.registry[k]].ownId == k)
    && forall i :: 0 <= i < |s.streams| ==>
         (s.streams[i].listed <==>
          s.streams[i].ownId in s.registry && s.registry[s.streams[i].ownId] == i)
  }

  predicate IdsCounted(s: State) {
    && s.nextId == Wrap32(|s.streams|)
    && forall i :: 0 <= i < |s.streams| ==> s.streams[i].ownId == Wrap32(i + 1)
  }

  /** Before an id is given twice, only its own teardown takes a stream out of the registry. */
  predicate Kept(s: State) {
    |s.streams| <= TWO32 ==>
      forall i :: 0 <= i < |s.streams| ==> s.streams[i].listed || S.PastUnregister(s.streams[i])
  }

  /** closeAllStreams still has every registered stream ahead of it. */
  predicate DrainCovers(s: State) {
    match s.pc
    case Draining(rest) =>
      && (forall i :: i in rest ==> i < |s.streams|)
      && forall i :: 0 <= i < |s.streams| && s.streams[i].listed ==> i in rest
    case DrainingOne(j, rest) =>
      && (forall i :: i in rest ==> i < |s.streams|)
      && forall i :: 0 <= i < |s.streams| && s.streams[i].listed ==> i == j || i in rest
    case _ => true
  }

  predicate AllStreams(s: State) {
    forall i :: 0 <= i < |s.streams| ==> S.Inv(s.streams[i])
  }

  predicate Shape(s: State) {
    OneAtATime(s) && RegistryExact(s) && IdsCounted(s) && Kept(s) && DrainCovers(s)
  }

  predicate Inv(s: State) { AllStreams(s) && Shape(s) }

  /** What a stream sees of a step of the whole system: nothing, or one of its own actions. */
  ghost predicate Seen(old_: S.Stream, new_: S.Stream) {
    new_ == old_ || exists a :: S.Enabled(old_, a) && new_ == S.Step(old_, a)
  }

  lemma SeenKeepsInv(old_: S.Stream, new_: S.Stream)
    requires S.Inv(old_) && Seen(old_, new_)
    ensures S.Inv(new_)
  {
    if new_ != old_ {
      var a :| S.Enabled(old_, a) && new_ == S.Step(old_, a);
      S.StepInv(old_, a);
    }
  }

  /** Every step of the multiplexer is, for each stream, a stutter or an action of that stream. */
  lemma StreamsSeeSteps(s: State, x: Action, i: nat)
    requires Enabled(s, x) && i < |s.streams|
    ensures i < |Step(s, x).streams|
    ensures Seen(s.streams[i], Step(s, x).streams[i])
  {
    var st := s.streams[i];
    assert S.Enabled(st, S.Displace);
  }

  lemma AllStreamsStep(s: State, x: Action)
    requires Enabled(s, x) && AllStreams(s)
    ensures AllStreams(Step(s, x))
  {
    var next := Step(s, x);
    forall i | 0 <= i < |next.streams|
      ensures S.Inv(next.streams[i])
    {
      if i < |s.streams| {
        StreamsSeeSteps(s, x, i);
        SeenKeepsInv(s.streams[i], next.streams[i]);
      } else {
        S.OpenedInv(next.streams[i].ownId, next.streams[i].guestId);
      }
    }
  }

  // ----- registry, ids and program counter

  /** The parts of a stream the dispatcher's bookkeeping depends on, apart from its listing. */
  predicate SameDuty(a: S.Stream, b: S.Stream) {
    && a.ownId == b.ownId && a.role == b.role
    && (S.PastUnregister(a) ==> S.PastUnregister(b))
  }

  ghost predicate OpenedOne(s: State, next: State) {
    var n, id := |s.streams|, Wrap32(s.nextId + 1);
    && |next.streams| == n + 1 && next.registry == s.registry[id := n]
    && next.nextId == id && next.pc == Serving(n)
    && next.streams[n].ownId == id && next.streams[n].listed && next.streams[n].role.Announcing?
    && forall i :: 0 <= i < n ==>
         && SameDuty(s.streams[i], next.streams[i])
         && (next.streams[i].listed <==> s.streams[i].listed && s.streams[i].ownId != id)
  }

  lemma RegistryAfterOpen(s: State, next: State)
    requires RegistryExact(s) && OpenedOne(s, next)
    ensures RegistryExact(next)
  {
  }

  lemma KeptAfterOpen(s: State, next: State)
    requires IdsCounted(s) && Kept(s) && OpenedOne(s, next)
    ensures IdsCounted(next) && Kept(next)
  {
    IdsAfterOpen(s, next);
    DistinctIds(next);
  }

  lemma IdsAfterOpen(s: State, next: State)
    requires IdsCounted(s) && OpenedOne(s, next)
    ensures IdsCounted(next)
  {
    WrapNext(|s.streams|);
  }

  lemma WrapNext(n: nat)
    ensures Wrap32(Wrap32(n) + 1) == Wrap32(n + 1)
  {
  }

  lemma SmallIds(s: State)
    requires IdsCounted(s) && |s.streams| < TWO32
    ensures forall i :: 0 <= i < |s.streams| ==> s.streams[i].ownId == i + 1
  {
  }

  ghost predicate UnregisteredOne(s: State, next: State, i: nat) {
    && i < |s.streams| == |next.streams|
    && var id := s.streams[i].ownId;
    && next.registry == s.registry - {id} && next.nextId == s.nextId && next.pc == s.pc
    && S.PastUnregister(next.streams[i])
    && forall j :: 0 <= j < |s.streams| ==>
         && SameDuty(s.streams[j], next.streams[j])
         && (next.streams[j].listed <==> s.streams[j].listed && s.streams[j].ownId != id)
  }

  lemma RegistryAfterUnregister(s: State, next: State, i: nat)
    requires RegistryExact(s) && UnregisteredOne(s, next, i)
    ensures RegistryExact(next)
  {
  }

  lemma KeptAfterUnregister(s: State, next: State, i: nat)
    requires IdsCounted(s) && Kept(s) && UnregisteredOne(s, next, i)
    ensures IdsCounted(next) && Kept(next)
  {
    DistinctIds(s);
  }

  lemma DutyAfterUnregister(s: State, next: State, i: nat)
    requires OneAtATime(s) && DrainCovers(s) && UnregisteredOne(s, next, i)
    ensures OneAtATime(next) && DrainCovers(next)
  {
  }

  lemma ShapeAfterUnregister(s: State, next: State, i: nat)
    requires Shape(s) && UnregisteredOne(s, next, i)
    ensures Shape(next)
  {
    RegistryAfterUnregister(s, next, i);
    KeptAfterUnregister(s, next, i);
    DutyAfterUnregister(s, next, i);
  }

  lemma ShapeAfterOne(s: State, next: State, i: nat)
    requires Shape(s) && i < |s.streams| == |next.streams|
    requires next.registry == s.registry && next.nextId == s.nextId
    requires forall j :: 0 <= j < |s.streams| && j != i ==> next.streams[j] == s.streams[j]
    requires next.streams[i].ownId == s.streams[i].ownId && next.streams[i].listed == s.streams[i].listed
    requires S.PastUnregister(s.streams[i]) ==> S.PastUnregister(next.streams[i])
    requires OneAtATime(next) && DrainCovers(next)
    ensures Shape(next)
  {
  }

  /** A goroutine did something to stream i; if it was the dispatcher it may be done with it. */
  lemma ShapeAfterWork(s: State, next: State, i: nat)
    requires Shape(s) && i < |s.streams| == |next.streams|
    requires next.registry == s.registry && next.nextId == s.nextId
    requires forall j :: 0 <= j < |s.streams| && j != i ==> next.streams[j] == s.streams[j]
    requires next.streams[i].ownId == s.streams[i].ownId && next.streams[i].listed == s.streams[i].listed
    requires S.PastUnregister(s.streams[i]) ==> S.PastUnregister(next.streams[i])
    requires
      || (next.pc == s.pc && next.streams[i].role == s.streams[i].role)
      || (&& Busy(s.pc, i) && next.pc == Resume(s.pc, next.streams[i])
          && (s.streams[i].role.Closing? ==>
                next.streams[i].role.Closing? || (next.streams[i].role.Away? && !next.streams[i].listed)))
    ensures Shape(next)
  {
    ShapeAfterOne(s, next, i);
  }

  lemma OpenStep(s: State, guest: u32)
    requires Shape(s) && s.pc.Idle?
    ensures Shape(Step(s, Open(guest, true)))
  {
    var next := Step(s, Open(guest, true));
    forall i | 0 <= i < |s.streams|
      ensures SameDuty(s.streams[i], next.streams[i])
      ensures next.streams[i].listed <==> s.streams[i].listed && s.streams[i].ownId != Wrap32(s.nextId + 1)
    {
      S.StepFrame(s.streams[i], S.Displace);
    }
    RegistryAfterOpen(s, next);
    KeptAfterOpen(s, next);
  }

  lemma UnregisterEffect(s: State, i: nat, a: S.Action)
    requires OneAtATime(s) && RegistryExact(s) && Enabled(s, Act(i, a)) && S.Unregisters(s.streams[i], a)
    ensures UnregisteredOne(s, Step(s, Act(i, a)), i)
  {
    var next := Step(s, Act(i, a));
    S.StepFrame(s.streams[i], a);
    forall j | 0 <= j < |s.streams|
      ensures SameDuty(s.streams[j], next.streams[j])
      ensures next.streams[j].listed <==> s.streams[j].listed && s.streams[j].ownId != s.streams[i].ownId
    {
      S.StepFrame(s.streams[j], S.Displace);
    }
  }

  lemma UnregisterStep(s: State, i: nat, a: S.Action)
    requires Shape(s) && Enabled(s, Act(i, a)) && S.Unregisters(s.streams[i], a)
    ensures Shape(Step(s, Act(i, a)))
  {
    UnregisterEffect(s, i, a);
    ShapeAfterUnregister(s, Step(s, Act(i, a)), i);
  }

  lemma ReceiveStep(s: State, msg: Inbound)
    requires Shape(s) && Enabled(s, Receive(msg))
    ensures Shape(Step(s, Receive(msg)))
  {
    if Found(s, msg) {
      var i := s.registry[msg.own];
      S.StepFrame(s.streams[i], Begin(msg));
      ShapeAfterOne(s, Step(s, Receive(msg)), i);
    }
  }

  lemma CloseNextStep(s: State)
    requires Shape(s) && Enabled(s, CloseNext)
    ensures Shape(Step(s, CloseNext))
  {
    var rest := s.pc.rest;
    S.StepFrame(s.streams[rest[0]], S.StartClose);
    forall i | i in rest[1..]
      ensures i in rest
    {
      var k :| 0 <= k < |rest[1..]| && rest[1..][k] == i;
      assert rest[k + 1] == i;
    }
    assert rest == [rest[0]] + rest[1..];
    ShapeAfterOne(s, Step(s, CloseNext), rest[0]);
  }

  lemma OtherActStep(s: State, i: nat, a: S.Action)
    requires Inv(s) && Enabled(s, Act(i, a)) && !S.Unregisters(s.streams[i], a)
    ensures Shape(Step(s, Act(i, a)))
  {
    var st := s.streams[i];
    S.StepFrame(st, a);
    if st.role.Closing? {
      S.ClosedMeansUnlisted(st, S.Total(st.log), a);
    }
    ShapeAfterWork(s, Step(s, Act(i, a)), i);
  }

  lemma StepInv(s: State, x: Action)
    requires Inv(s) && Enabled(s, x)
    ensures Inv(Step(s, x))
  {
    AllStreamsStep(s, x);
    match x
    case Open(guest, ok) => if ok { OpenStep(s, guest); }
    case Receive(msg) => ReceiveStep(s, msg);
    case Act(i, a) =>
      if S.Unregisters(s.streams[i], a) { UnregisterStep(s, i, a); } else { OtherActStep(s, i, a); }
    case CloseNext => CloseNextStep(s);
    case _ =>
  }

  // ----- runs

  predicate Leads(s: State, xs: seq<Action>, last: State)
    decreases |xs|
  {
    if xs == [] then last == s
    else Enabled(s, xs[0]) && Leads(Step(s, xs[0]), xs[1..], last)
  }

  ghost predicate Reachable(s: State) { exists xs :: Leads(START, xs, s) }

  lemma {:induction false} RunKeepsInv(s: State, xs: seq<Action>, last: State)
    requires Inv(s) && Leads(s, xs, last)
    ensures Inv(last)
    decreases |xs|
  {
    if xs != [] {
      StepInv(s, xs[0]);
      RunKeepsInv(Step(s, xs[0]), xs[1..], last);
    }
  }

  lemma ReachableInv(s: State)
    requires Reachable(s)
    ensures Inv(s)
  {
    var xs :| Leads(START, xs, s);
    RunKeepsInv(START, xs, s);
  }

  // ----- what every interleaving keeps

  /** Flow control: permits are conserved, at no moment is more than one WRTE unacknowledged, and
      WRTE and OKAY strictly alternate exactly when the guest OKAYs only what it received. */
  lemma FlowControl(s: State, i: nat)
    requires Reachable(s) && i < |s.streams|
    ensures var st := s.streams[i]; var t := S.Total(st.log);
      && t.taken + S.Bit(st.permit) <= 1 + t.grants
      && t.writes <= t.taken
      && S.Paced(st.log)
      && (L.Alternates(L.FlowTrace(st.log)) <==> L.OnlyEarnedOkays(st.log))
  {
    ReachableInv(s);
    L.StrictAlternation(s.streams[i]);
  }

  /** Device to guest: the WRTE payloads are an in-order prefix of the bytes read, all of them once
      the pump leaves by its read error; no WRTE follows the pump's own CLSE, and one follows the
      dispatcher's only where a device write had failed. */
  lemma DeviceToGuest(s: State, i: nat)
    requires Reachable(s) && i < |s.streams|
    ensures var st := s.streams[i]; var t := S.Total(st.log);
      && t.relayed <= t.read
      && |t.read| <= |t.relayed| + S.MAX_CHUNK
      && (st.pump == S.Quitting(true) || st.pump == S.Gone(true) ==> t.relayed == t.read)
      && (forall m :: m in t.messages && m.Write? ==> 0 < |m.data| <= S.MAX_CHUNK)
      && S.PumpClosesLast(st.log) && S.LateWritesExplained(st.log)
  {
    ReachableInv(s);
    var st := s.streams[i];
    assert S.Inv(st);
  }

  /** Teardown: `done` and the connection are closed at most once, `done` first; at most one CLSE is
      attempted; and at most one WRTE is sent after the connection was closed. */
  lemma TeardownOnce(s: State, i: nat)
    requires Reachable(s) && i < |s.streams|
    ensures var st := s.streams[i]; var t := S.Total(st.log);
      && t.doneCloses <= 1 && t.connCloses <= t.doneCloses && t.closeSends <= t.connCloses
      && (st.once.Spent? ==> t.doneCloses == t.connCloses == 1 && !st.listed)
      && forall k :: 0 <= k < |st.log| && st.log[k].ConnClosed? ==>
           t.writes <= S.Total(st.log[..k]).writes + 1
  {
    ReachableInv(s);
    var st := s.streams[i];
    forall k | 0 <= k < |st.log| && st.log[k].ConnClosed?
      ensures S.Total(st.log).writes <= S.Total(st.log[..k]).writes + 1
    {
      L.OneWriteAfterClose(st, k);
    }
  }

  /** Guest to device: what reached the device is an in-order prefix of the payloads dispatched, all
      of it if no device write failed; the first message is the OKAY of the OPEN; and OKAYs are
      attempted once for the OPEN and once per complete device write. */
  lemma GuestToDevice(s: State, i: nat)
    requires Reachable(s) && i < |s.streams|
    ensures var st := s.streams[i]; var t := S.Total(st.log);
      && t.written <= t.received
      && (t.deviceFailures == 0 && !Busy(s.pc, i) ==> t.written == t.received)
      && (!Busy(s.pc, i) ==> t.okaySends == 1 + t.deviceWrites)
      && (t.messages != [] ==> t.messages[0] == S.Okay(st.ownId, st.guestId))
      && (forall m :: m in t.messages ==>
            m.own == st.ownId && (m.Okay? || m.guest == st.guestId))
      && t.targets <= [st.guestId] + t.senders
  {
    ReachableInv(s);
    var st := s.streams[i];
    var t := S.Total(st.log);
    assert S.Core(st, t);
    assert forall m :: m in t.messages ==> S.WellAddressed(st, m);
  }

  predicate IdsDistinct(s: State) {
    forall i, j :: 0 <= i < j < |s.streams| ==> s.streams[i].ownId != s.streams[j].ownId
  }

  /** Own ids: the k-th stream has id k + 1 modulo 2^32, so ids are non-zero exactly as long as fewer
      than 2^32 streams were opened, and distinct exactly as long as at most 2^32 were. */
  lemma OwnIds(s: State)
    requires Reachable(s)
    ensures (forall i :: 0 <= i < |s.streams| ==> s.streams[i].ownId != 0) <==> |s.streams| < TWO32
    ensures IdsDistinct(s) <==> |s.streams| <= TWO32
    ensures forall k :: k in s.registry ==>
      s.registry[k] < |s.streams| && s.streams[s.registry[k]].ownId == k
  {
    ReachableInv(s);
    NonZeroIds(s);
    DistinctIds(s);
  }

  lemma NonZeroIds(s: State)
    requires IdsCounted(s)
    ensures (forall i :: 0 <= i < |s.streams| ==> s.streams[i].ownId != 0) <==> |s.streams| < TWO32
  {
    if |s.streams| >= TWO32 {
      assert s.streams[TWO32 - 1].ownId == Wrap32(TWO32) == 0;
    } else {
      SmallIds(s);
    }
  }

  lemma DistinctIds(s: State)
    requires IdsCounted(s)
    ensures IdsDistinct(s) <==> |s.streams| <= TWO32
  {
    if |s.streams| > TWO32 {
      assert s.streams[0].ownId == Wrap32(1) == Wrap32(TWO32 + 1) == s.streams[TWO32].ownId;
    } else {
      forall i, j | 0 <= i < j < |s.streams|
        ensures s.streams[i].ownId != s.streams[j].ownId
      {
        CloseNumbersDiffer(i + 1, j + 1);
      }
    }
  }

  lemma CloseNumbersDiffer(m: nat, n: nat)
    requires m < n < m + TWO32
    ensures Wrap32(m) != Wrap32(n)
  {
  }

  lemma {:induction false} LeadsSnoc(s: State, xs: seq<Action>, mid: State, x: Action)
    requires Leads(s, xs, mid) && Enabled(mid, x)
    ensures Leads(s, xs + [x], Step(mid, x))
    decreases |xs|
  {
    if xs == [] {
      assert ([x])[1..] == [];
    } else {
      LeadsSnoc(Step(s, xs[0]), xs[1..], mid, x);
      assert (xs + [x])[1..] == xs[1..] + [x];
    }
  }

  lemma {:induction false} RunsJoin(s: State, xs: seq<Action>, mid: State, ys: seq<Action>, last: State)
    requires Leads(s, xs, mid) && Leads(mid, ys, last)
    ensures Leads(s, xs + ys, last)
    decreases |xs|
  {
    if xs == [] {
      assert xs + ys == ys;
    } else {
      RunsJoin(Step(s, xs[0]), xs[1..], mid, ys, last);
      assert (xs + ys)[1..] == xs[1..] + ys;
    }
  }

  /** Any number of OPENs can be served, so the states in which ids repeat are reachable. */
  lemma {:induction false} OpensReach(n: nat) returns (xs: seq<Action>, s: State)
    ensures Leads(START, xs, s) && s.pc.Idle? && |s.streams| == n
  {
    if n == 0 {
      xs, s := [], START;
    } else {
      xs, s := OpensReach(n - 1);
      LeadsSnoc(START, xs, s, Open(0, true));
      xs, s := xs + [Open(0, true)], Step(s, Open(0, true));
      LeadsSnoc(START, xs, s, Act(n - 1, S.Announce(true)));
      xs, s := xs + [Act(n - 1, S.Announce(true))], Step(s, Act(n - 1, S.Announce(true)));
    }
  }

  lemma RegisteredAhead(s: State, k: u32)
    requires Shape(s) && s.pc.Draining? && k in s.registry
    ensures s.pc.rest != []
  {
    assert s.streams[s.registry[k]].listed;
  }

  /** When closeAllStreams returns the registry is empty and, unless an id was given twice, every stream
      ever opened has its device connection closed. */
  lemma CloseClosesAll(s: State)
    requires Reachable(s) && Enabled(s, CloseReturn)
    ensures s.registry == map[]
    ensures |s.streams| <= TWO32 ==>
      forall i :: 0 <= i < |s.streams| ==> s.streams[i].closed && s.streams[i].done
  {
    ReachableInv(s);
    if s.registry != map[] {
      var k :| k in s.registry;
      RegisteredAhead(s, k);
    }
    if |s.streams| <= TWO32 {
      forall i | 0 <= i < |s.streams|
        ensures s.streams[i].closed && s.streams[i].done
      {
        assert !s.streams[i].listed && S.PastUnregister(s.streams[i]);
        assert S.Inv(s.streams[i]);
      }
    }
  }

  // ----- what follows a CLSE

  predicate AllTrailing(s: State) {
    forall i :: 0 <= i < |s.streams| ==> W.Trailing(s.streams[i])
  }

  lemma AllTrailingStep(s: State, x: Action)
    requires Enabled(s, x) && AllStreams(s) && AllTrailing(s)
    ensures AllTrailing(Step(s, x))
  {
    var next := Step(s, x);
    forall i | 0 <= i < |next.streams|
      ensures W.Trailing(next.streams[i])
    {
      if i < |s.streams| {
        StreamsSeeSteps(s, x, i);
        var was, now := s.streams[i], next.streams[i];
        if now != was {
          var a :| S.Enabled(was, a) && now == S.Step(was, a);
          W.TrailingStep(was, a);
        }
      }
    }
  }

  lemma {:induction false} TrailingRun(s: State, xs: seq<Action>, last: State)
    requires Inv(s) && AllTrailing(s) && Leads(s, xs, last)
    ensures AllTrailing(last)
    decreases |xs|
  {
    if xs != [] {
      StepInv(s, xs[0]);
      AllTrailingStep(s, xs[0]);
      TrailingRun(Step(s, xs[0]), xs[1..], last);
    }
  }

  /** On every run at most one message follows a CLSE of its stream: an OKAY if the pump sent the CLSE,
      a WRTE if the dispatcher did. */
  lemma OneMessageAfterClose(s: State, i: nat, k: nat)
    requires Reachable(s) && i < |s.streams| && k < |s.streams[i].log| && W.IsClose(s.streams[i].log[k])
    ensures var log := s.streams[i].log;
      && W.Messages(log) <= W.Messages(log[..k + 1]) + 1
      && forall j :: k < j < |log| && log[j].Sent? ==>
           if log[k].actor.Pump? then log[j].msg.Okay? else log[j].msg.Write?
  {
    var xs :| Leads(START, xs, s);
    TrailingRun(START, xs, s);
    assert W.Trailed(s.streams[i], k);
    assert forall j :: k < j < |s.streams[i].log| ==> W.MayFollow(s.streams[i].log[k], s.streams[i].log[j]);
  }

  // ----- closed streams stay closed

  predicate InertStream(a: S.Stream, b: S.Stream) {
    L.Inert(S.Total(a.log), S.Budget(a.pump), S.Total(b.log), S.Budget(b.pump))
  }

  lemma RetiredStep(st: S.Stream, a: S.Action)
    requires S.Teardown(st, S.Total(st.log)) && L.Retired(st) && S.Enabled(st, a)
    ensures L.Retired(S.Step(st, a)) && InertStream(st, S.Step(st, a))
  {
    L.RetiredStep(st, S.Total(st.log), a);
    S.TotalStep(st.log, S.Emit(st, a));
  }

  /** Once a stream has been torn down nothing the guest sends ever reaches it again: over any
      run no byte reaches its device, no OKAY and no CLSE is sent for it, and at most the one
      WRTE the pump already carried goes out. */
  lemma {:induction false} ClosedStreamInert(s: State, xs: seq<Action>, last: State, i: nat)
    requires Inv(s) && Leads(s, xs, last) && i < |s.streams| && L.Retired(s.streams[i])
    ensures i < |last.streams| && L.Retired(last.streams[i])
    ensures InertStream(s.streams[i], last.streams[i])
    decreases |xs|
  {
    if xs != [] {
      var next := Step(s, xs[0]);
      StepInv(s, xs[0]);
      StreamsSeeSteps(s, xs[0], i);
      var was, now := s.streams[i], next.streams[i];
      if now != was {
        var a :| S.Enabled(was, a) && now == S.Step(was, a);
        RetiredStep(was, a);
      }
      ClosedStreamInert(next, xs[1..], last, i);
    }
  }

  // ----- progress

  /** The dispatcher's own step, or a step of the pump that holds up its closeStream. */
  predicate HelpsDispatcher(s: State, x: Action) {
    x.Act? ==> Busy(s.pc, x.i) && (S.OnDispatcher(x.a) || x.a == S.Advance(S.Pump, true))
  }

  /** The dispatcher is never stuck. Inside a handler or Close it can act, or it waits for a pump
      in the middle of the same stream's teardown, which can act. */
  lemma DispatcherNeverStuck(s: State)
    requires Inv(s)
    ensures exists x :: Enabled(s, x) && HelpsDispatcher(s, x)
  {
    match s.pc
    case Idle => assert Enabled(s, Open(0, true)) && HelpsDispatcher(s, Open(0, true));
    case Refusing(_) => assert Enabled(s, Refuse(true)) && HelpsDispatcher(s, Refuse(true));
    case Draining(rest) =>
      if rest == [] {
        assert Enabled(s, CloseReturn) && HelpsDispatcher(s, CloseReturn);
      } else {
        assert rest[0] in rest;
        assert Enabled(s, CloseNext) && HelpsDispatcher(s, CloseNext);
      }
    case Serving(i) =>
      BusyCanAct(s, i);
      assert HelpsDispatcher(s, Act(i, NextAct(s.streams[i])));
    case DrainingOne(i, _) =>
      BusyCanAct(s, i);
      assert HelpsDispatcher(s, Act(i, NextAct(s.streams[i])));
  }

  function NextAct(st: S.Stream): S.Action {
    match st.role
    case Announcing => S.Announce(true)
    case Writing(_, _) => S.DeviceWrite(false, 0)
    case Acking(_) => S.Ack(true)
    case Granting => S.Grant
    case _ =>
      if st.once.Fresh? then S.Enter(S.Dispatcher)
      else if st.once.Spent? then S.Skip(S.Dispatcher)
      else S.Advance(st.once.actor, true)
  }

  lemma BusyCanAct(s: State, i: nat)
    requires Inv(s) && Busy(s.pc, i)
    ensures i < |s.streams| && Enabled(s, Act(i, NextAct(s.streams[i])))
    ensures var a := NextAct(s.streams[i]); S.OnDispatcher(a) || a == S.Advance(S.Pump, true)
  {
    assert !s.streams[i].role.Away?;
    assert S.Inv(s.streams[i]);
    NextActEnabled(s.streams[i], S.Total(s.streams[i].log));
  }

  lemma NextActEnabled(st: S.Stream, t: S.Tally)
    requires S.Teardown(st, t) && S.Announced(st, t) && !st.role.Away?
    ensures var a := NextAct(st); S.Enabled(st, a) && Ongoing(a) && (S.OnDispatcher(a) || a == S.Advance(S.Pump, true))
  {
  }

  /** Between two messages the dispatcher accepts any message. */
  lemma IdleAcceptsAll(s: State, msg: Inbound)
    requires Inv(s) && s.pc.Idle?
    ensures Enabled(s, Receive(msg))
  {
    if Found(s, msg) {
      LookupFinds(s, msg);
    }
  }

  lemma LookupFinds(s: State, msg: Inbound)
    requires OneAtATime(s) && RegistryExact(s) && s.pc.Idle? && Found(s, msg)
    ensures CanBegin(s, s.registry[msg.own], Begin(msg))
  {
    var i := s.registry[msg.own];
    assert s.streams[i].listed && s.streams[i].role.Away?;
  }
}
