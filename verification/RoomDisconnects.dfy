/** What the transporter's two unsynchronised channels allow: a disconnect can be
    handled while messages of the same client are still on their way
    (transporter/manager/roomManager/roomManager.go). */
module RoomDisconnects {
  import opened Bytes
  import opened RoomDiscipline
  import opened RoomRuns
  import opened Rooms
  import opened Wrappers

  /** The client's own message takes effect: it creates a room, or takes the free seat it asked for. */
  predicate Enters(rooms: seq<Room>, input: Input, luck: Luck, c: Client) {
    match input
    case CreateRoom(sender, _) => sender == c
    case JoinRoom(sender, target, _) => sender == c && Seats(rooms, target, luck)
    case _ => false
  }

  /** A client in no room is in one after a turn exactly if a create or join of its own took effect. */
  lemma EntersExactly(rooms: seq<Room>, input: Input, luck: Luck, c: Client)
    requires !InARoom(rooms, c)
    ensures InARoom(Handle(rooms, input, luck).rooms, c) <==> Enters(rooms, input, luck, c)
  {
    if input.CreateRoom? && input.sender == c {
      assert Handle(rooms, input, luck).rooms[|rooms|].owner == c;
    } else if input.JoinRoom? && input.sender == c {
      JoinEntersExactly(rooms, c, input.target, input.key, luck);
    } else {
      TurnChanges(rooms, input, luck);
      OthersKeepOut(rooms, input, Handle(rooms, input, luck).rooms, c);
    }
  }

  lemma JoinEntersExactly(rooms: seq<Room>, c: Client, target: string, key: seq<byte>, luck: Luck)
    requires !InARoom(rooms, c)
    ensures InARoom(HandleJoinRoom(rooms, c, target, key, luck).rooms, c) <==> Seats(rooms, target, luck)
  {
    var i := Find(rooms, ById(target));
    if Seats(rooms, target, luck) {
      assert HandleJoinRoom(rooms, c, target, key, luck).rooms[i].guest == Some(c);
    } else if i < |rooms| {
      RemoveAfterSeating(rooms, i, Some(c));
    }
  }

  lemma OthersKeepOut(before: seq<Room>, input: Input, after: seq<Room>, c: Client)
    requires !InARoom(before, c) && Changes(before, input, after)
    requires (input.CreateRoom? || input.JoinRoom?) ==> input.sender != c
    ensures !InARoom(after, c)
  {
    if i :| 0 <= i < |before| && after == RemoveAt(before, i) {
      RemovalKeepsOut(before, i, c);
    } else if i, guest :| 0 <= i < |before| && after == SetGuest(before, i, guest) && guest != Some(c) {
      SeatingKeepsOut(before, i, guest, c);
    } else {
      assert after == before || (input.CreateRoom? && after == before + [Room(input.roomId, input.sender, None)]);
    }
  }

  lemma RemovalKeepsOut(rooms: seq<Room>, i: nat, c: Client)
    requires !InARoom(rooms, c) && i < |rooms|
    ensures !InARoom(RemoveAt(rooms, i), c)
  {
  }

  lemma SeatingKeepsOut(rooms: seq<Room>, i: nat, guest: Option<Client>, c: Client)
    requires !InARoom(rooms, c) && i < |rooms| && guest != Some(c)
    ensures !InARoom(SetGuest(rooms, i, guest), c)
  {
    assert !rooms[i].Has(c);
  }

  predicate EntersNow(s: State, a: Action, c: Client)
    requires Enabled(s, a)
  {
    match a
    case TakeMessage(luck) => Enters(s.rooms, s.channel[0], luck, c)
    case _ => false
  }

  predicate OutThroughout(s: State, acts: seq<Action>, c: Client)
    decreases |acts|
  {
    !InARoom(s.rooms, c) && (acts == [] || (Enabled(s, acts[0]) ==> OutThroughout(Step(s, acts[0]), acts[1..], c)))
  }

  predicate NeverEnters(s: State, acts: seq<Action>, c: Client)
    decreases |acts|
  {
    acts == [] ||
    (Enabled(s, acts[0]) ==> !EntersNow(s, acts[0], c) && NeverEnters(Step(s, acts[0]), acts[1..], c))
  }

  /** A client that is in no room stays in none exactly as long as none of its creates and joins takes
      effect. */
  lemma {:induction false} StaysOutExactly(s: State, acts: seq<Action>, last: State, c: Client)
    requires Leads(s, acts, last) && !InARoom(s.rooms, c)
    ensures OutThroughout(s, acts, c) <==> NeverEnters(s, acts, c)
    decreases |acts|
  {
    if acts != [] {
      if acts[0].TakeMessage? {
        EntersExactly(s.rooms, s.channel[0], acts[0].luck, c);
      } else if acts[0].TakeDisconnect? {
        EntersExactly(s.rooms, Disconnected(s.disconnects[0]), acts[0].luck, c);
      }
      if !InARoom(Step(s, acts[0]).rooms, c) {
        StaysOutExactly(Step(s, acts[0]), acts[1..], last, c);
      }
    }
  }

  /** Where clients behave, a client whose disconnect is handled is in no room then, and stays in none
      exactly as long as none of its creates and joins handled later takes effect. */
  lemma GoneStaysOutExactly(acts: seq<Action>, mid: State, luck: Luck, later: seq<Action>, last: State, c: Client)
    requires Leads(START, acts, mid) && ClientsBehave(mid) && mid.disconnects != [] && mid.disconnects[0] == c
    requires Leads(Step(mid, TakeDisconnect(luck)), later, last)
    ensures var next := Step(mid, TakeDisconnect(luck));
      && !InARoom(next.rooms, c)
      && (OutThroughout(next, later, c) <==> NeverEnters(next, later, c))
  {
    BehavedTrafficStaysInRoom(acts, mid);
    DisconnectClearsClient(mid.rooms, c, luck);
    StaysOutExactly(Step(mid, TakeDisconnect(luck)), later, last, c);
  }

  lemma Ahead(s: State, a: Action, acts: seq<Action>, last: State)
    requires Enabled(s, a) && Leads(Step(s, a), acts, last)
    ensures Leads(s, [a] + acts, last)
  {
    assert ([a] + acts)[1..] == acts;
  }

  // ----- what a client has left behind

  /** What the client wrote and the loop has still to handle, in order. */
  function LeftOf(s: State, c: Client): seq<Input> {
    From(s.channel, c) + if c in s.feeds then Held(s.feeds[c]) + s.feeds[c].unread else []
  }

  predicate WritesNoMore(acts: seq<Action>, c: Client) {
    forall i :: 0 <= i < |acts| && acts[i].ClientWrites? && !acts[i].m.Disconnected? ==> acts[i].m.sender != c
  }

  /** The loop takes the client's next message. */
  predicate TakesFrom(s: State, a: Action, c: Client)
    requires Enabled(s, a)
  {
    a.TakeMessage? && !s.channel[0].Disconnected? && s.channel[0].sender == c
  }

  lemma LeftForwards(s: State, a: Action, c: Client)
    requires OwnMessages(s) && Enabled(s, a) && a.ReaderForwards?
    ensures LeftOf(Step(s, a), c) == LeftOf(s, c)
  {
    var m := s.feeds[a.c].held.value;
    FromSnoc(s.channel, m, c);
    if a.c == c {
      Forwarded([], From(s.channel, c), [m], s.feeds[c].unread, From(s.channel, c) + [m] + s.feeds[c].unread);
    }
  }

  lemma LeftReads(s: State, a: Action, c: Client)
    requires OwnMessages(s) && Enabled(s, a) && a.ReaderReads?
    ensures LeftOf(Step(s, a), c) == LeftOf(s, c)
  {
    if a.c == c {
      assert s.feeds[c].unread == [s.feeds[c].unread[0]] + s.feeds[c].unread[1..];
    }
  }

  lemma TakeFrame(s: State, a: Action)
    requires Enabled(s, a) && a.TakeMessage?
    ensures Step(s, a).feeds == s.feeds && Step(s, a).channel == s.channel[1..]
  {
  }

  lemma TakenFirst(m: Input, rest: seq<Input>, behind: seq<Input>, c: Client)
    ensures From([m] + rest, c) + behind ==
      (if !m.Disconnected? && m.sender == c then [m] else []) + (From(rest, c) + behind)
  {
    FromCons(m, rest, c);
  }

  lemma LeftTaken(s: State, a: Action, c: Client)
    requires Enabled(s, a) && a.TakeMessage?
    ensures LeftOf(s, c) == (if TakesFrom(s, a, c) then [s.channel[0]] else []) + LeftOf(Step(s, a), c)
  {
    TakeFrame(s, a);
    assert s.channel == [s.channel[0]] + s.channel[1..];
    TakenFirst(s.channel[0], s.channel[1..],
      if c in s.feeds then Held(s.feeds[c]) + s.feeds[c].unread else [], c);
  }

  /** Only the loop makes it less, from the front. */
  lemma LeftStep(s: State, a: Action, c: Client)
    requires OwnMessages(s) && Enabled(s, a) && (a.ClientWrites? ==> a.m.sender != c)
    ensures LeftOf(s, c) == (if TakesFrom(s, a, c) then [s.channel[0]] else []) + LeftOf(Step(s, a), c)
  {
    if a.ReaderForwards? {
      LeftForwards(s, a, c);
    } else if a.ReaderReads? {
      LeftReads(s, a, c);
    } else if a.TakeMessage? {
      LeftTaken(s, a, c);
    }
  }

  predicate CreateLeft(s: State, c: Client) { exists m :: m in LeftOf(s, c) && m.CreateRoom? }
  predicate JoinLeft(s: State, c: Client) { exists m :: m in LeftOf(s, c) && m.JoinRoom? }

  lemma EntersFromLeft(s: State, a: Action, c: Client)
    requires OwnMessages(s) && Enabled(s, a) && (a.ClientWrites? ==> a.m.sender != c)
    ensures CreateLeft(Step(s, a), c) ==> CreateLeft(s, c)
    ensures JoinLeft(Step(s, a), c) ==> JoinLeft(s, c)
    ensures EntersNow(s, a, c) ==> CreateLeft(s, c) || JoinLeft(s, c)
  {
    LeftStep(s, a, c);
    if TakesFrom(s, a, c) {
      assert s.channel[0] in LeftOf(s, c);
    }
  }

  /** Nothing takes effect for the client once no create and no join of its is left. */
  lemma {:induction false} AllHandled(s: State, acts: seq<Action>, last: State, c: Client)
    requires OwnMessages(s) && !CreateLeft(s, c) && !JoinLeft(s, c) && Leads(s, acts, last) && WritesNoMore(acts, c)
    ensures NeverEnters(s, acts, c)
    decreases |acts|
  {
    if acts != [] {
      EntersFromLeft(s, acts[0], c);
      OwnMessagesStep(s, acts[0]);
      AllHandled(Step(s, acts[0]), acts[1..], last, c);
    }
  }

  // ----- a client that comes back

  /** What brings the client's next message closer to the loop. */
  function Nearer(s: State, c: Client, luck: Luck): Action
  {
    if s.channel != [] then TakeMessage(luck)
    else if c in s.feeds && s.feeds[c].held.Some? then ReaderForwards(c)
    else ReaderReads(c)
  }

  lemma NearerEnabled(s: State, c: Client, luck: Luck)
    requires LeftOf(s, c) != []
    ensures Enabled(s, Nearer(s, c, luck))
  {
    assert s.channel == [] ==> From(s.channel, c) == [];
  }

  /** Steps until all the client wrote is handled, if nobody else gets in between. */
  function Distance(s: State, c: Client): nat {
    |s.channel| + if c in s.feeds then 2 * |Held(s.feeds[c])| + 3 * |s.feeds[c].unread| else 0
  }

  lemma NearerStep(s: State, c: Client, luck: Luck)
    requires OwnMessages(s) && !InARoom(s.rooms, c) && CreateLeft(s, c) && Enabled(s, Nearer(s, c, luck))
    ensures InARoom(Step(s, Nearer(s, c, luck)).rooms, c) || CreateLeft(Step(s, Nearer(s, c, luck)), c)
  {
    var a := Nearer(s, c, luck);
    LeftStep(s, a, c);
    var m :| m in LeftOf(s, c) && m.CreateRoom?;
    if TakesFrom(s, a, c) && m == s.channel[0] {
      EntersExactly(s.rooms, m, luck, c);
    } else {
      assert m in LeftOf(Step(s, a), c);
    }
  }

  lemma DistanceFalls(s: State, c: Client, luck: Luck)
    requires Enabled(s, Nearer(s, c, luck))
    ensures Distance(Step(s, Nearer(s, c, luck)), c) < Distance(s, c)
  {
  }

  lemma NearerBy(s: State, c: Client, luck: Luck) returns (a: Action, next: State)
    requires OwnMessages(s) && !InARoom(s.rooms, c) && CreateLeft(s, c)
    ensures Enabled(s, a) && next == Step(s, a) && !a.ClientWrites?
    ensures OwnMessages(next) && Distance(next, c) < Distance(s, c)
    ensures InARoom(next.rooms, c) || CreateLeft(next, c)
  {
    a := Nearer(s, c, luck);
    NearerEnabled(s, c, luck);
    NearerStep(s, c, luck);
    DistanceFalls(s, c, luck);
    OwnMessagesStep(s, a);
    next := Step(s, a);
  }

  /** The loop takes what waits, the reader follows, until a create of the client's is handled. */
  lemma {:induction false} CreateEnters(s: State, c: Client, luck: Luck) returns (acts: seq<Action>, last: State)
    requires OwnMessages(s) && !InARoom(s.rooms, c) && CreateLeft(s, c)
    ensures Leads(s, acts, last) && WritesNoMore(acts, c) && InARoom(last.rooms, c)
    decreases Distance(s, c)
  {
    var a, next := NearerBy(s, c, luck);
    if InARoom(next.rooms, c) {
      acts, last := [], next;
    } else {
      acts, last := CreateEnters(next, c, luck);
    }
    Ahead(s, a, acts, last);
    acts := [a] + acts;
  }

  ghost predicate ComesBack(s: State, c: Client) {
    exists acts, last :: Leads(s, acts, last) && WritesNoMore(acts, c) && InARoom(last.rooms, c)
  }

  lemma {:induction false} OutAtEnd(s: State, acts: seq<Action>, last: State, c: Client)
    requires Leads(s, acts, last) && OutThroughout(s, acts, c)
    ensures !InARoom(last.rooms, c)
    decreases |acts|
  {
    if acts != [] {
      OutAtEnd(Step(s, acts[0]), acts[1..], last, c);
    }
  }

  /** A client in no room, which writes no more and has no join left, can get into one exactly if a create
      of its own is still in its connection, its reader or the channel. */
  lemma ComesBackExactly(s: State, c: Client, luck: Luck)
    requires OwnMessages(s) && !InARoom(s.rooms, c) && !JoinLeft(s, c)
    ensures ComesBack(s, c) <==> CreateLeft(s, c)
  {
    if CreateLeft(s, c) {
      var acts, last := CreateEnters(s, c, luck);
    } else {
      forall acts, last | Leads(s, acts, last) && WritesNoMore(acts, c)
        ensures !InARoom(last.rooms, c)
      {
        AllHandled(s, acts, last, c);
        StaysOutExactly(s, acts, last, c);
        OutAtEnd(s, acts, last, c);
      }
    }
  }

  /** So after the disconnect of a client that behaved and had no join on its way, a room of its own can
      still appear exactly if a create was on its way when the disconnect was handled. */
  lemma GoneComesBackExactly(acts: seq<Action>, mid: State, luck: Luck, c: Client)
    requires Leads(START, acts, mid) && ClientsBehave(mid) && mid.disconnects != [] && mid.disconnects[0] == c
    requires !JoinLeft(mid, c)
    ensures ComesBack(Step(mid, TakeDisconnect(luck)), c) <==> CreateLeft(mid, c)
  {
    var next := Step(mid, TakeDisconnect(luck));
    RunKeepsInv(START, acts, mid);
    OwnMessagesStep(mid, TakeDisconnect(luck));
    BehavedTrafficStaysInRoom(acts, mid);
    DisconnectClearsClient(mid.rooms, c, luck);
    assert LeftOf(next, c) == LeftOf(mid, c);
    ComesBackExactly(next, c, luck);
  }

  // ----- a run on which one does


  lemma Before(s: State, a: Action, acts: seq<Action>, last: State) returns (more: seq<Action>)
    requires Enabled(s, a) && Leads(Step(s, a), acts, last)
    ensures Leads(s, more, last)
  {
    more := [a] + acts;
    Ahead(s, a, acts, last);
  }

  /** A client was announced while its reader forwarded its create; nothing was handled yet. */
  function Overtaking(c: Client): State {
    var create := CreateRoom(c, "x");
    State(map[c := Feed([create], [], None)], [create], [c], [], [], [])
  }

  lemma OvertakingReached(c: Client) returns (acts: seq<Action>)
    ensures Leads(START, acts, Overtaking(c))
  {
    var create := CreateRoom(c, "x");
    var s1 := Step(START, Connect(c));
    var s2 := Step(s1, ClientWrites(create));
    var s3 := State(map[c := Feed([create], [], Some(create))], [], [], [], [], []);
    assert s2.feeds[c] == Feed([create], [create], None);
    assert Step(s2, ReaderReads(c)).feeds[c] == Feed([create], [], Some(create));
    assert Step(s2, ReaderReads(c)).feeds == s3.feeds;
    var s4 := Step(s3, ReaderForwards(c));
    assert s4.feeds == Overtaking(c).feeds && s4.channel == [create];
    acts := [];
    acts := Before(s4, Announce(c), acts, Overtaking(c));
    acts := Before(s3, ReaderForwards(c), acts, Overtaking(c));
    acts := Before(s2, ReaderReads(c), acts, Overtaking(c));
    acts := Before(s1, ClientWrites(create), acts, Overtaking(c));
    acts := Before(START, Connect(c), acts, Overtaking(c));
  }

  /** The owner's disconnect is handled first, its create, which waited in the channel, next: a room
      whose owner has been taken down already. As a connection is announced at most once, no further
      disconnect will remove it. */
  lemma RoomOfGoneOwner(c: Client, luck: Luck) returns (before: seq<Action>, mid: State, last: State)
    ensures Leads(START, before, mid)
    ensures mid.disconnects == [c] && mid.channel == [CreateRoom(c, "x")] && mid.handled == []
    ensures last == Step(Step(mid, TakeDisconnect(luck)), TakeMessage(luck))
    ensures last.rooms == [Room("x", c, None)] && last.disconnects == [] && LeftOf(last, c) == []
  {
    before := OvertakingReached(c);
    mid := Overtaking(c);
    last := Step(Step(mid, TakeDisconnect(luck)), TakeMessage(luck));
  }
}
