/** Whole runs of the transporter's message path: one reader goroutine per
    client, the shared bounded message channel, the bounded disconnect channel
    and the single room loop that drains both in any order
    (transporter/manager/connectionManager/clientConnection.go,
    transporter/manager/roomManager/roomManager.go). */
module RoomRuns {
  import opened Bytes
  import opened Rooms
  import opened Wrappers

  const CONNECTION_POOL_SIZE := 10

  /** One client's side: what it has written to its connection, what of that its reader has not
      read yet, and the message the reader is trying to put on the channel. */
  datatype Feed = Feed(sent: seq<Input>, unread: seq<Input>, held: Option<Input>)

  /** An ADB message that reached a client, with the rooms at that moment. */
  datatype Delivery = Delivery(from: Client, to: Client, bytes: seq<byte>, rooms: seq<Room>)

  datatype State = State(
    feeds: map<Client, Feed>,
    channel: seq<Input>,
    disconnects: seq<Client>,
    rooms: seq<Room>,
    handled: seq<Input>,          // messages taken off the channel, oldest first
    delivered: seq<Delivery>)

  const START := State(map[], [], [], [], [], [])

  datatype Action =
    | Connect(c: Client)
    | ClientWrites(m: Input)
    | ReaderReads(c: Client)
    | ReaderForwards(c: Client)
    | Announce(c: Client)         // a close path puts the client on the disconnect channel
    | TakeMessage(luck: Luck)
    | TakeDisconnect(luck: Luck)

  predicate Enabled(s: State, a: Action) {
    match a
    case Connect(c) => c !in s.feeds
    case ClientWrites(m) => !m.Disconnected? && m.sender in s.feeds
    case ReaderReads(c) => c in s.feeds && s.feeds[c].held.None? && s.feeds[c].unread != []
    case ReaderForwards(c) => c in s.feeds && s.feeds[c].held.Some? && |s.channel| < CONNECTION_POOL_SIZE
    case Announce(_) => |s.disconnects| < CONNECTION_POOL_SIZE
    case TakeMessage(_) => s.channel != []
    case TakeDisconnect(_) => s.disconnects != []
  }

  /** The ADB packets among the effects of one turn, as deliveries. */
  function Arrivals(from: Client, rooms: seq<Room>, effects: seq<Effect>): seq<Delivery> {
    if effects == [] then []
    else
      var e := effects[0];
      (if e.Send? && e.ok && e.packet.Adb? then [Delivery(from, e.to, e.packet.bytes, rooms)] else [])
      + Arrivals(from, rooms, effects[1..])
  }

  function Step(s: State, a: Action): State
    requires Enabled(s, a)
  {
    match a
    case Connect(c) => s.(feeds := s.feeds[c := Feed([], [], None)])
    case ClientWrites(m) =>
      var f := s.feeds[m.sender];
      s.(feeds := s.feeds[m.sender := f.(sent := f.sent + [m], unread := f.unread + [m])])
    case ReaderReads(c) =>
      var f := s.feeds[c];
      s.(feeds := s.feeds[c := f.(unread := f.unread[1..], held := Some(f.unread[0]))])
    case ReaderForwards(c) =>
      var f := s.feeds[c];
      s.(feeds := s.feeds[c := f.(held := None)], channel := s.channel + [f.held.value])
    case Announce(c) => s.(disconnects := s.disconnects + [c])
    case TakeMessage(luck) =>
      var m := s.channel[0];
      var out := Handle(s.rooms, m, luck);
      var from := if m.Disconnected? then m.client else m.sender;
      State(s.feeds, s.channel[1..], s.disconnects, out.rooms, s.handled + [m],
        s.delivered + Arrivals(from, s.rooms, out.effects))
    case TakeDisconnect(luck) =>
      s.(disconnects := s.disconnects[1..], rooms := Handle(s.rooms, Disconnected(s.disconnects[0]), luck).rooms)
  }

  // ----- per-client order through readers, channel and loop

  function From(ms: seq<Input>, c: Client): seq<Input> {
    if ms == [] then []
    else
      var last := ms[|ms| - 1];
      From(ms[..|ms| - 1], c) + if !last.Disconnected? && last.sender == c then [last] else []
  }

  function Held(f: Feed): seq<Input> { if f.held.Some? then [f.held.value] else [] }

  lemma FromSnoc(ms: seq<Input>, m: Input, c: Client)
    ensures From(ms + [m], c) == From(ms, c) + if !m.Disconnected? && m.sender == c then [m] else []
  {
    assert (ms + [m])[..|ms|] == ms;
  }

  lemma {:induction false} FromCons(m: Input, ms: seq<Input>, c: Client)
    ensures From([m] + ms, c) == (if !m.Disconnected? && m.sender == c then [m] else []) + From(ms, c)
  {
    if ms == [] {
      FromSnoc([], m, c);
      assert [m] + ms == [] + [m];
    } else {
      var init, last := ms[..|ms| - 1], ms[|ms| - 1];
      FromCons(m, init, c);
      FromSnoc([m] + init, last, c);
      assert [m] + ms == ([m] + init) + [last];
    }
  }

  /** Nothing is lost, duplicated or reordered between a client and the room loop. */
  predicate FifoFor(s: State, c: Client) {
    && (c in s.feeds ==>
          From(s.handled, c) + From(s.channel, c) + Held(s.feeds[c]) + s.feeds[c].unread == s.feeds[c].sent)
    && (c !in s.feeds ==> From(s.handled, c) == [] == From(s.channel, c))
  }

  predicate OwnMessages(s: State) {
    && (forall c :: c in s.feeds ==>
          && (forall i :: 0 <= i < |s.feeds[c].unread| ==>
                !s.feeds[c].unread[i].Disconnected? && s.feeds[c].unread[i].sender == c)
          && (s.feeds[c].held.Some? ==>
                !s.feeds[c].held.value.Disconnected? && s.feeds[c].held.value.sender == c))
    && |s.channel| <= CONNECTION_POOL_SIZE && |s.disconnects| <= CONNECTION_POOL_SIZE
  }

  lemma OwnMessagesStep(s: State, a: Action)
    requires Enabled(s, a) && OwnMessages(s)
    ensures OwnMessages(Step(s, a))
  {
  }

  /** One client's messages, from the room loop back to the connection. */
  predicate Queue(handled: seq<Input>, channel: seq<Input>, held: seq<Input>, unread: seq<Input>, sent: seq<Input>) {
    handled + channel + held + unread == sent
  }

  lemma Written(queue: seq<Input>, unread: seq<Input>, m: Input)
    ensures queue + (unread + [m]) == queue + unread + [m]
  {
  }

  lemma ReadOff(handled: seq<Input>, channel: seq<Input>, unread: seq<Input>, sent: seq<Input>)
    requires Queue(handled, channel, [], unread, sent) && unread != []
    ensures Queue(handled, channel, [unread[0]], unread[1..], sent)
  {
    assert unread == [unread[0]] + unread[1..];
    assert handled + channel + [] == handled + channel;
  }

  lemma Forwarded(handled: seq<Input>, channel: seq<Input>, held: seq<Input>, unread: seq<Input>, sent: seq<Input>)
    requires Queue(handled, channel, held, unread, sent)
    ensures Queue(handled, channel + held, [], unread, sent)
  {
    assert handled + (channel + held) + [] == handled + channel + held;
  }

  lemma Taken(handled: seq<Input>, first: seq<Input>, rest: seq<Input>,
              held: seq<Input>, unread: seq<Input>, sent: seq<Input>)
    requires Queue(handled, first + rest, held, unread, sent)
    ensures Queue(handled + first, rest, held, unread, sent)
  {
    assert handled + (first + rest) == handled + first + rest;
  }

  lemma FifoForwards(s: State, a: Action, c: Client)
    requires Enabled(s, a) && a.ReaderForwards? && OwnMessages(s) && FifoFor(s, c)
    ensures FifoFor(Step(s, a), c)
  {
    var m := s.feeds[a.c].held.value;
    FromSnoc(s.channel, m, c);
    if a.c == c {
      Forwarded(From(s.handled, c), From(s.channel, c), [m], s.feeds[c].unread, s.feeds[c].sent);
    } else {
      assert From(s.channel, c) + [] == From(s.channel, c);
    }
  }

  lemma FifoTakes(s: State, a: Action, c: Client)
    requires Enabled(s, a) && a.TakeMessage? && FifoFor(s, c)
    ensures FifoFor(Step(s, a), c)
  {
    var m, rest := s.channel[0], s.channel[1..];
    var first := if !m.Disconnected? && m.sender == c then [m] else [];
    FromSnoc(s.handled, m, c);
    FromCons(m, rest, c);
    assert s.channel == [m] + rest;
    if c in s.feeds {
      var f := s.feeds[c];
      Taken(From(s.handled, c), first, From(rest, c), Held(f), f.unread, f.sent);
    }
  }

  lemma FifoReader(s: State, a: Action, c: Client)
    requires Enabled(s, a) && (a.ClientWrites? || a.ReaderReads?) && FifoFor(s, c)
    ensures FifoFor(Step(s, a), c)
  {
    if c in s.feeds {
      var f, handled, channel := s.feeds[c], From(s.handled, c), From(s.channel, c);
      if a.ClientWrites? {
        Written(handled + channel + Held(f), f.unread, a.m);
      } else if a.c == c {
        ReadOff(handled, channel, f.unread, f.sent);
      }
    }
  }

  lemma FifoStep(s: State, a: Action, c: Client)
    requires Enabled(s, a) && OwnMessages(s) && FifoFor(s, c)
    ensures FifoFor(Step(s, a), c)
  {
    if a.ReaderForwards? {
      FifoForwards(s, a, c);
    } else if a.TakeMessage? {
      FifoTakes(s, a, c);
    } else if a.ClientWrites? || a.ReaderReads? {
      FifoReader(s, a, c);
    }
  }

  // ----- what arrives, and in which order

  /** x can be obtained from y by leaving entries out. */
  predicate Subsequence<T(==)>(x: seq<T>, y: seq<T>) {
    x == [] ||
    (y != [] &&
      if x[|x| - 1] == y[|y| - 1] && Subsequence(x[..|x| - 1], y[..|y| - 1]) then true
      else Subsequence(x, y[..|y| - 1]))
  }

  /** ADB payloads the client put on the wire. */
  function AdbPayloads(ms: seq<Input>): seq<seq<byte>> {
    if ms == [] then []
    else
      var last := ms[|ms| - 1];
      AdbPayloads(ms[..|ms| - 1]) + if last.AdbTransport? then [last.bytes] else []
  }

  /** ADB payloads that travelled from one client to another. */
  function Travelled(ds: seq<Delivery>, from: Client, to: Client): seq<seq<byte>> {
    if ds == [] then []
    else
      var last := ds[|ds| - 1];
      Travelled(ds[..|ds| - 1], from, to) + if last.from == from && last.to == to then [last.bytes] else []
  }

  lemma SubsequenceSnoc<T>(x: seq<T>, y: seq<T>, e: T)
    requires Subsequence(x, y)
    ensures Subsequence(x, y + [e]) && Subsequence(x + [e], y + [e])
  {
    assert (y + [e])[..|y|] == y && (x + [e])[..|x|] == x;
  }

  lemma {:induction false} SubsequencePrefix<T>(x: seq<T>, y: seq<T>, z: seq<T>)
    requires Subsequence(x, y)
    ensures Subsequence(x, y + z)
  {
    if z == [] {
      assert y + z == y;
    } else {
      SubsequencePrefix(x, y, z[..|z| - 1]);
      assert (y + z)[..|y + z| - 1] == y + z[..|z| - 1];
    }
  }

  lemma {:induction false} PayloadsConcat(ms: seq<Input>, ns: seq<Input>)
    ensures AdbPayloads(ms + ns) == AdbPayloads(ms) + AdbPayloads(ns)
  {
    if ns == [] {
      assert ms + ns == ms;
    } else {
      PayloadsConcat(ms, ns[..|ns| - 1]);
      assert (ms + ns)[..|ms + ns| - 1] == ms + ns[..|ns| - 1];
    }
  }

  lemma PayloadsSnoc(ms: seq<Input>, m: Input)
    ensures AdbPayloads(ms + [m]) == AdbPayloads(ms) + if m.AdbTransport? then [m.bytes] else []
  {
    assert (ms + [m])[..|ms|] == ms;
  }

  /** Every delivery went from a client to its peer at the time. */
  predicate ToPeers(ds: seq<Delivery>) {
    forall i :: 0 <= i < |ds| ==> Peer(ds[i].rooms, ds[i].from) == Some(ds[i].to)
  }

  predicate InOrder(s: State, a: Client, b: Client) {
    Subsequence(Travelled(s.delivered, a, b), AdbPayloads(From(s.handled, a)))
  }

  lemma {:induction false} NoAdbNoArrival(from: Client, rooms: seq<Room>, effects: seq<Effect>)
    requires forall i :: 0 <= i < |effects| && effects[i].Send? ==> !effects[i].packet.Adb?
    ensures Arrivals(from, rooms, effects) == []
  {
    if effects != [] {
      NoAdbNoArrival(from, rooms, effects[1..]);
    }
  }

  /** One turn delivers the handled ADB message to the sender's peer, if there is one and the send succeeds,
      and nothing else. */
  lemma ArrivalsOfTurn(rooms: seq<Room>, m: Input, luck: Luck)
    requires !m.Disconnected?
    ensures var ds := Arrivals(m.sender, rooms, Handle(rooms, m, luck).effects);
      ds == if m.AdbTransport? && Peer(rooms, m.sender).Some? && luck.first
            then [Delivery(m.sender, Peer(rooms, m.sender).value, m.bytes, rooms)] else []
  {
    var effects := Handle(rooms, m, luck).effects;
    if !m.AdbTransport? {
      NoAdbNoArrival(m.sender, rooms, effects);
    } else if effects != [] {
      assert effects[1..] == [] && effects[0] == Send(Peer(rooms, m.sender).value, Adb(m.bytes), luck.first);
    }
  }

  lemma TravelledSnoc(ds: seq<Delivery>, d: Delivery, x: Client, y: Client)
    ensures Travelled(ds + [d], x, y) == Travelled(ds, x, y) + if d.from == x && d.to == y then [d.bytes] else []
  {
    assert (ds + [d])[..|ds|] == ds;
  }

  /** A message is handled and, if it arrives anywhere, arrives as itself from its sender. */
  lemma TurnInOrder(ds: seq<Delivery>, arrived: seq<Delivery>, handled: seq<Input>, m: Input, x: Client, y: Client)
    requires !m.Disconnected?
    requires Subsequence(Travelled(ds, x, y), AdbPayloads(From(handled, x)))
    requires arrived == [] || (|arrived| == 1 && m.AdbTransport?
      && arrived[0].from == m.sender && arrived[0].bytes == m.bytes)
    ensures Subsequence(Travelled(ds + arrived, x, y), AdbPayloads(From(handled + [m], x)))
  {
    var sent, before := From(handled, x), Travelled(ds, x, y);
    var now, after := From(handled + [m], x), Travelled(ds + arrived, x, y);
    FromSnoc(handled, m, x);
    if arrived == [] {
      assert ds + arrived == ds;
    } else {
      assert arrived == [arrived[0]];
      TravelledSnoc(ds, arrived[0], x, y);
    }
    if m.sender != x {
      assert now == sent && after == before;
    } else {
      assert now == sent + [m];
      PayloadsSnoc(sent, m);
      if !m.AdbTransport? {
        assert AdbPayloads(now) == AdbPayloads(sent) && after == before;
      } else {
        assert AdbPayloads(now) == AdbPayloads(sent) + [m.bytes];
        SubsequenceSnoc(before, AdbPayloads(sent), m.bytes);
        assert after == before || after == before + [m.bytes];
      }
    }
  }

  lemma {:induction false} InOrderStep(s: State, a: Action, x: Client, y: Client)
    requires Enabled(s, a) && (forall i :: 0 <= i < |s.channel| ==> !s.channel[i].Disconnected?)
    requires InOrder(s, x, y) && ToPeers(s.delivered)
    ensures InOrder(Step(s, a), x, y) && ToPeers(Step(s, a).delivered)
  {
    if a.TakeMessage? {
      var m := s.channel[0];
      ArrivalsOfTurn(s.rooms, m, a.luck);
      var arrived := Arrivals(m.sender, s.rooms, Handle(s.rooms, m, a.luck).effects);
      TurnInOrder(s.delivered, arrived, s.handled, m, x, y);
    }
  }

  predicate ChannelClean(s: State) {
    && OwnMessages(s)
    && forall i :: 0 <= i < |s.channel| ==> !s.channel[i].Disconnected?
  }

  ghost predicate Inv(s: State) {
    && ChannelClean(s) && ToPeers(s.delivered)
    && (forall c :: FifoFor(s, c))
    && forall a, b :: InOrder(s, a, b)
  }

  lemma StepInv(s: State, a: Action)
    requires Inv(s) && Enabled(s, a)
    ensures Inv(Step(s, a))
  {
    OwnMessagesStep(s, a);
    forall c ensures FifoFor(Step(s, a), c) { FifoStep(s, a, c); }
    forall x, y ensures InOrder(Step(s, a), x, y) && ToPeers(Step(s, a).delivered) {
      InOrderStep(s, a, x, y);
    }
    assert ToPeers(Step(s, a).delivered) by {
      InOrderStep(s, a, Client(0, ""), Client(0, ""));
    }
  }

  // ----- runs

  predicate Leads(s: State, acts: seq<Action>, last: State)
    decreases |acts|
  {
    if acts == [] then last == s
    else Enabled(s, acts[0]) && Leads(Step(s, acts[0]), acts[1..], last)
  }

  lemma {:induction false} RunKeepsInv(s: State, acts: seq<Action>, last: State)
    requires Inv(s) && Leads(s, acts, last)
    ensures Inv(last)
    decreases |acts|
  {
    if acts != [] {
      StepInv(s, acts[0]);
      RunKeepsInv(Step(s, acts[0]), acts[1..], last);
    }
  }

  lemma {:induction false} HandledIsPrefix(s: State, a: Client, b: Client)
    requires a in s.feeds && FifoFor(s, a) && InOrder(s, a, b)
    ensures Subsequence(Travelled(s.delivered, a, b), AdbPayloads(s.feeds[a].sent))
  {
    var f, handled := s.feeds[a], From(s.handled, a);
    var later := From(s.channel, a) + Held(f) + f.unread;
    assert f.sent == handled + later;
    PayloadsConcat(handled, later);
    SubsequencePrefix(Travelled(s.delivered, a, b), AdbPayloads(handled), AdbPayloads(later));
  }

  /** On every run: what b receives from a is, payload for payload, an in-order subsequence of the
      ADB messages a wrote to its connection, and each went to a's peer at the time. */
  lemma {:induction false} RelayedInOrder(acts: seq<Action>, last: State, a: Client, b: Client)
    requires Leads(START, acts, last) && a in last.feeds
    ensures Subsequence(Travelled(last.delivered, a, b), AdbPayloads(last.feeds[a].sent))
    ensures ToPeers(last.delivered)
  {
    RunKeepsInv(START, acts, last);
    HandledIsPrefix(last, a, b);
  }

  /** The ADB message that the loop takes from a while b is a's peer, if its send succeeds. */
  function DueNow(s: State, act: Action, a: Client, b: Client): seq<seq<byte>>
    requires Enabled(s, act)
  {
    if act.TakeMessage? && s.channel[0].AdbTransport? && s.channel[0].sender == a
       && Peer(s.rooms, a) == Some(b) && act.luck.first
    then [s.channel[0].bytes] else []
  }

  function Due(s: State, acts: seq<Action>, a: Client, b: Client): seq<seq<byte>>
    decreases |acts|
  {
    if acts == [] || !Enabled(s, acts[0]) then []
    else DueNow(s, acts[0], a, b) + Due(Step(s, acts[0]), acts[1..], a, b)
  }

  lemma DueStep(s: State, act: Action, a: Client, b: Client)
    requires ChannelClean(s) && Enabled(s, act)
    ensures ChannelClean(Step(s, act))
    ensures Travelled(Step(s, act).delivered, a, b) == Travelled(s.delivered, a, b) + DueNow(s, act, a, b)
  {
    OwnMessagesStep(s, act);
    if act.TakeMessage? {
      var m := s.channel[0];
      ArrivalsOfTurn(s.rooms, m, act.luck);
      var arrived := Arrivals(m.sender, s.rooms, Handle(s.rooms, m, act.luck).effects);
      if arrived == [] {
        assert s.delivered + arrived == s.delivered;
      } else {
        TravelledSnoc(s.delivered, arrived[0], a, b);
      }
    }
  }

  lemma DueJoins(sofar: seq<seq<byte>>, now: seq<seq<byte>>, later: seq<seq<byte>>)
    ensures sofar + now + later == sofar + (now + later)
  {
  }

  /** Nothing is lost either: over any run b receives exactly the ADB messages of a that the loop takes while
      b is a's peer and whose send succeeds, in that order. */
  lemma {:induction false} DeliveredExactly(s: State, acts: seq<Action>, last: State, a: Client, b: Client)
    requires ChannelClean(s) && Leads(s, acts, last)
    ensures Travelled(last.delivered, a, b) == Travelled(s.delivered, a, b) + Due(s, acts, a, b)
    decreases |acts|
  {
    if acts != [] {
      var next := Step(s, acts[0]);
      DueStep(s, acts[0], a, b);
      DeliveredExactly(next, acts[1..], last, a, b);
      DueJoins(Travelled(s.delivered, a, b), DueNow(s, acts[0], a, b), Due(next, acts[1..], a, b));
    }
  }

  /** Clients ask to join only while they are in no room. */
  predicate DisciplinedTurn(s: State, a: Action) {
    a.TakeMessage? && s.channel != [] && s.channel[0].JoinRoom? ==> !InARoom(s.rooms, s.channel[0].sender)
  }

  predicate Disciplined(s: State, acts: seq<Action>)
    decreases |acts|
  {
    acts == [] ||
    (DisciplinedTurn(s, acts[0]) && (Enabled(s, acts[0]) ==> Disciplined(Step(s, acts[0]), acts[1..])))
  }

  /** Every delivery connected the two participants of a room in which each had its only role. */
  predicate BetweenPartners(ds: seq<Delivery>) {
    forall i :: 0 <= i < |ds| ==>
      OneRole(ds[i].rooms) && Partners(ds[i].rooms, ds[i].from, ds[i].to) && ds[i].from != ds[i].to
  }

  lemma DisciplinedStep(s: State, a: Action)
    requires Enabled(s, a) && ChannelClean(s) && DisciplinedTurn(s, a)
    requires OneRole(s.rooms) && BetweenPartners(s.delivered)
    ensures OneRole(Step(s, a).rooms) && BetweenPartners(Step(s, a).delivered)
  {
    if a.TakeMessage? {
      var m := s.channel[0];
      if m.JoinRoom? {
        JoinKeepsOneRole(s.rooms, m.sender, m.target, m.key, a.luck);
      } else {
        OneRoleKept(s.rooms, m, a.luck);
      }
      ArrivalsOfTurn(s.rooms, m, a.luck);
      if Peer(s.rooms, m.sender).Some? {
        PeersArePartners(s.rooms, m.sender, Peer(s.rooms, m.sender).value);
      }
    } else if a.TakeDisconnect? {
      OneRoleKept(s.rooms, Disconnected(s.disconnects[0]), a.luck);
    }
  }

  lemma {:induction false} DisciplinedRun(s: State, acts: seq<Action>, last: State)
    requires Inv(s) && Leads(s, acts, last) && Disciplined(s, acts)
    requires OneRole(s.rooms) && BetweenPartners(s.delivered)
    ensures OneRole(last.rooms) && BetweenPartners(last.delivered)
    decreases |acts|
  {
    if acts != [] {
      StepInv(s, acts[0]);
      DisciplinedStep(s, acts[0]);
      DisciplinedRun(Step(s, acts[0]), acts[1..], last);
    }
  }

  /** On every run with disciplined joins each client has one role throughout, and ADB traffic
      passes only between the two participants of one room. */
  lemma TrafficStaysInRoom(acts: seq<Action>, last: State)
    requires Leads(START, acts, last) && Disciplined(START, acts)
    ensures OneRole(last.rooms) && BetweenPartners(last.delivered)
  {
    DisciplinedRun(START, acts, last);
  }

  lemma {:induction false} OwnersOnRun(s: State, acts: seq<Action>, last: State)
    requires OwnersDistinct(s.rooms) && Leads(s, acts, last)
    ensures OwnersDistinct(last.rooms)
    decreases |acts|
  {
    if acts != [] {
      if acts[0].TakeMessage? {
        OwnersStayDistinct(s.rooms, s.channel[0], acts[0].luck);
      } else if acts[0].TakeDisconnect? {
        OwnersStayDistinct(s.rooms, Disconnected(s.disconnects[0]), acts[0].luck);
      }
      OwnersOnRun(Step(s, acts[0]), acts[1..], last);
    }
  }
}
