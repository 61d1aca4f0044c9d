/** What clients must do for traffic to stay in its room, seen over whole runs
    (client/controller/guestController.go,
    transporter/manager/roomManager/roomManager.go). */
module RoomDiscipline {
  import opened Rooms
  import opened RoomRuns
  import opened Wrappers

  // ----- discipline as the clients can keep it

  /** A connection carries at most one join, and no room is created on a connection that joins. */
  predicate WellBehaved(sent: seq<Input>) {
    && (forall i, j :: 0 <= i < j < |sent| ==> !(sent[i].JoinRoom? && sent[j].JoinRoom?))
    && forall i, j :: 0 <= i < |sent| && 0 <= j < |sent| ==> !(sent[i].JoinRoom? && sent[j].CreateRoom?)
  }

  predicate ClientsBehave(s: State) {
    forall c :: c in s.feeds ==> WellBehaved(s.feeds[c].sent)
  }

  predicate Created(handled: seq<Input>, c: Client) {
    exists k :: 0 <= k < |handled| && handled[k].CreateRoom? && handled[k].sender == c
  }

  predicate Joined(handled: seq<Input>, c: Client) {
    exists k :: 0 <= k < |handled| && handled[k].JoinRoom? && handled[k].sender == c
  }

  predicate TracedRoom(r: Room, handled: seq<Input>) {
    Created(handled, r.owner) && (r.guest.Some? ==> Joined(handled, r.guest.value))
  }

  /** Every owner has created, and every guest has asked to join. */
  predicate Traced(rooms: seq<Room>, handled: seq<Input>) {
    forall i :: 0 <= i < |rooms| ==> TracedRoom(rooms[i], handled)
  }

  lemma HandledGrows(handled: seq<Input>, m: Input, c: Client)
    ensures Created(handled, c) ==> Created(handled + [m], c)
    ensures Joined(handled, c) ==> Joined(handled + [m], c)
    ensures m.CreateRoom? ==> Created(handled + [m], m.sender)
    ensures m.JoinRoom? ==> Joined(handled + [m], m.sender)
  {
    var more := handled + [m];
    assert more[|handled|] == m;
    assert forall k :: 0 <= k < |handled| ==> more[k] == handled[k];
  }

  lemma TracedGrows(rooms: seq<Room>, handled: seq<Input>, m: Input)
    requires Traced(rooms, handled)
    ensures Traced(rooms, handled + [m])
  {
    forall i | 0 <= i < |rooms|
      ensures TracedRoom(rooms[i], handled + [m])
    {
      assert TracedRoom(rooms[i], handled);
      HandledGrows(handled, m, rooms[i].owner);
      if rooms[i].guest.Some? {
        HandledGrows(handled, m, rooms[i].guest.value);
      }
    }
  }

  lemma TracedSeat(before: seq<Room>, i: nat, guest: Option<Client>, handled: seq<Input>)
    requires Traced(before, handled) && i < |before|
    requires guest.Some? ==> Joined(handled, guest.value)
    ensures Traced(SetGuest(before, i, guest), handled)
  {
    assert TracedRoom(before[i], handled);
  }

  lemma TracedRemoval(before: seq<Room>, i: nat, handled: seq<Input>)
    requires Traced(before, handled) && i < |before|
    ensures Traced(RemoveAt(before, i), handled)
  {
  }

  lemma TracedChange(before: seq<Room>, input: Input, after: seq<Room>, handled: seq<Input>)
    requires Traced(before, handled) && Changes(before, input, after)
    requires input.CreateRoom? ==> Created(handled, input.sender)
    requires input.JoinRoom? ==> Joined(handled, input.sender)
    ensures Traced(after, handled)
  {
    if i :| 0 <= i < |before| && after == RemoveAt(before, i) {
      TracedRemoval(before, i, handled);
    } else if i :| 0 <= i < |before| && after == SetGuest(before, i, None) {
      TracedSeat(before, i, None, handled);
    } else if i :| input.JoinRoom? && 0 <= i < |before| && after == SetGuest(before, i, Some(input.sender)) {
      TracedSeat(before, i, Some(input.sender), handled);
    } else if input.CreateRoom? && after != before {
      assert TracedRoom(Room(input.roomId, input.sender, None), handled);
    }
  }

  lemma TracedTurn(rooms: seq<Room>, handled: seq<Input>, m: Input, luck: Luck)
    requires Traced(rooms, handled)
    ensures Traced(Handle(rooms, m, luck).rooms, handled + [m])
  {
    TurnChanges(rooms, m, luck);
    TracedGrows(rooms, handled, m);
    if m.CreateRoom? || m.JoinRoom? {
      HandledGrows(handled, m, m.sender);
    }
    TracedChange(rooms, m, Handle(rooms, m, luck).rooms, handled + [m]);
  }

  lemma TracedDisconnect(rooms: seq<Room>, handled: seq<Input>, c: Client, luck: Luck)
    requires Traced(rooms, handled)
    ensures Traced(Handle(rooms, Disconnected(c), luck).rooms, handled)
  {
    TurnChanges(rooms, Disconnected(c), luck);
    TracedChange(rooms, Disconnected(c), Handle(rooms, Disconnected(c), luck).rooms, handled);
  }

  lemma TracedStep(s: State, a: Action)
    requires Enabled(s, a) && Traced(s.rooms, s.handled)
    ensures Traced(Step(s, a).rooms, Step(s, a).handled)
  {
    if a.TakeMessage? {
      TracedTurn(s.rooms, s.handled, s.channel[0], a.luck);
    } else if a.TakeDisconnect? {
      TracedDisconnect(s.rooms, s.handled, s.disconnects[0], a.luck);
    }
  }

  lemma {:induction false} FromHas(ms: seq<Input>, k: nat)
    requires k < |ms| && !ms[k].Disconnected?
    ensures ms[k] in From(ms, ms[k].sender)
  {
    var init, last := ms[..|ms| - 1], ms[|ms| - 1];
    if k < |init| {
      FromHas(init, k);
    }
  }

  /** A message handled before another of the same client was sent before it. */
  lemma SentBefore(s: State, k: nat) returns (i: nat, j: nat)
    requires k < |s.handled| && !s.handled[k].Disconnected? && FifoFor(s, s.handled[k].sender)
    requires s.channel != [] && !s.channel[0].Disconnected? && s.channel[0].sender == s.handled[k].sender
    ensures s.channel[0].sender in s.feeds
    ensures var sent := s.feeds[s.channel[0].sender].sent;
      i < j < |sent| && sent[i] == s.handled[k] && sent[j] == s.channel[0]
  {
    var c := s.channel[0].sender;
    FromHas(s.handled, k);
    FromCons(s.channel[0], s.channel[1..], c);
    assert s.channel == [s.channel[0]] + s.channel[1..];
    var done := From(s.handled, c);
    i :| 0 <= i < |done| && done[i] == s.handled[k];
    j := |done|;
  }

  /** So a client that behaves is in no room when its join is handled. */
  lemma BehavedIsDisciplined(s: State, a: Action)
    requires Enabled(s, a) && ChannelClean(s) && Traced(s.rooms, s.handled) && ClientsBehave(s)
    requires forall c :: FifoFor(s, c)
    ensures DisciplinedTurn(s, a)
  {
    if a.TakeMessage? && s.channel[0].JoinRoom? && InARoom(s.rooms, s.channel[0].sender) {
      var c := s.channel[0].sender;
      var r :| 0 <= r < |s.rooms| && s.rooms[r].Has(c);
      assert TracedRoom(s.rooms[r], s.handled);
      var k :| 0 <= k < |s.handled| && (s.handled[k].CreateRoom? || s.handled[k].JoinRoom?) && s.handled[k].sender == c;
      var i, j := SentBefore(s, k);
    }
  }

  predicate SentBy(s: State, last: State) {
    forall c :: c in s.feeds ==> c in last.feeds && s.feeds[c].sent <= last.feeds[c].sent
  }

  lemma {:induction false} SentGrows(s: State, acts: seq<Action>, last: State)
    requires Leads(s, acts, last)
    ensures SentBy(s, last)
    decreases |acts|
  {
    if acts != [] {
      SentGrows(Step(s, acts[0]), acts[1..], last);
      assert SentBy(s, Step(s, acts[0]));
    }
  }

  lemma EarlierBehave(s: State, last: State)
    requires SentBy(s, last) && ClientsBehave(last)
    ensures ClientsBehave(s)
  {
    forall c | c in s.feeds
      ensures WellBehaved(s.feeds[c].sent)
    {
      assert WellBehaved(last.feeds[c].sent);
      assert forall i :: 0 <= i < |s.feeds[c].sent| ==> s.feeds[c].sent[i] == last.feeds[c].sent[i];
    }
  }

  lemma {:induction false} BehavedRun(s: State, acts: seq<Action>, last: State)
    requires Inv(s) && Traced(s.rooms, s.handled) && Leads(s, acts, last) && ClientsBehave(last)
    ensures Disciplined(s, acts)
    decreases |acts|
  {
    if acts != [] {
      SentGrows(s, acts, last);
      EarlierBehave(s, last);
      BehavedIsDisciplined(s, acts[0]);
      StepInv(s, acts[0]);
      TracedStep(s, acts[0]);
      BehavedRun(Step(s, acts[0]), acts[1..], last);
    }
  }

  /** On every run on which each client writes at most one join and creates no room on a connection that
      joins, each client has one role and ADB traffic passes only between the participants of one room. */
  lemma BehavedTrafficStaysInRoom(acts: seq<Action>, last: State)
    requires Leads(START, acts, last) && ClientsBehave(last)
    ensures OneRole(last.rooms) && BetweenPartners(last.delivered)
  {
    BehavedRun(START, acts, last);
    TrafficStaysInRoom(acts, last);
  }
}
