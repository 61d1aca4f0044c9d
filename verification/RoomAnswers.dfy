/** What a turn of the room loop means for the clients concerned: who is told
    what, who is closed and who is in which room afterwards
    (transporter/manager/roomManager/roomManager.go). Stated by the rooms and the
    outcomes of the sends alone. */
module RoomAnswers {
  import opened Bytes
  import opened Rooms
  import opened Wrappers

  /** The room at i is the one a message names by its id. */
  predicate NamedFirst(rooms: seq<Room>, target: string, i: nat) {
    i < |rooms| && rooms[i].roomId == target && forall j :: 0 <= j < i ==> rooms[j].roomId != target
  }

  predicate Exists(rooms: seq<Room>, target: string) { exists i :: 0 <= i < |rooms| && rooms[i].roomId == target }

  /** The client's own room. */
  predicate OwnsFirst(rooms: seq<Room>, c: Client, i: nat) {
    i < |rooms| && rooms[i].owner == c && forall j :: 0 <= j < i ==> rooms[j].owner != c
  }

  predicate Owns(rooms: seq<Room>, c: Client) { exists i :: 0 <= i < |rooms| && rooms[i].owner == c }

  /** The turn changes no room, tells the client that its request failed and does nothing else; a client
      that cannot be told is closed. */
  predicate Refused(out: Outcome, rooms: seq<Room>, c: Client, command: u32, code: int, told: bool) {
    && out.rooms == rooms
    && out.effects == [Send(c, Failure(command, code), told)] + if told then [] else [Close(c)]
  }

  /** Only the room at i changed, to what is given. */
  predicate OnlyRoom(before: seq<Room>, after: seq<Room>, i: nat, guest: Option<Client>) {
    && i < |before| == |after|
    && after[i] == Room(before[i].roomId, before[i].owner, guest)
    && forall j :: 0 <= j < |before| && j != i ==> after[j] == before[j]
  }

  /** The room at i is gone and the others are as they were, in their order. */
  predicate RoomGone(before: seq<Room>, after: seq<Room>, i: nat) {
    i < |before| && after == before[..i] + before[i + 1..]
  }

  lemma FoundById(rooms: seq<Room>, target: string, i: nat)
    requires NamedFirst(rooms, target, i)
    ensures Find(rooms, ById(target)) == i
  {
    assert Matches(rooms[i], ById(target));
    assert forall j :: 0 <= j < i ==> !Matches(rooms[j], ById(target));
  }

  lemma FoundByOwner(rooms: seq<Room>, c: Client, i: nat)
    requires OwnsFirst(rooms, c, i)
    ensures Find(rooms, ByOwner(c)) == i
  {
    assert Matches(rooms[i], ByOwner(c));
    assert forall j :: 0 <= j < i ==> !Matches(rooms[j], ByOwner(c));
  }

  // ----- create

  /** A client in no room gets a new room of its own, with the free seat, and is told its id; one that is
      in a room is refused. A client that cannot be told is closed. */
  lemma CreateAnswered(rooms: seq<Room>, c: Client, roomId: string, luck: Luck)
    ensures var out := Handle(rooms, CreateRoom(c, roomId), luck);
      if InARoom(rooms, c) then Refused(out, rooms, c, 0x0003, 0x0002, luck.first)
      else
        && out.rooms == rooms + [Room(roomId, c, None)]
        && out.effects == [Send(c, RoomCreated(roomId), luck.first)] + if luck.first then [] else [Close(c)]
  {
    var i := Find(rooms, ByParticipant(c));
    if InARoom(rooms, c) {
      var k :| 0 <= k < |rooms| && rooms[k].Has(c);
      assert Matches(rooms[k], ByParticipant(c));
      assert i <= k;
    }
  }

  // ----- join

  /** A join names no room, a room whose seat is taken, or a free seat. The free seat is taken and the owner
      asked, under the client's own id; if the owner cannot be asked the client is told, and the room is
      gone and both are closed. */
  lemma JoinAnswered(rooms: seq<Room>, c: Client, target: string, key: seq<byte>, luck: Luck, i: nat)
    requires NamedFirst(rooms, target, i)
    ensures var out := Handle(rooms, JoinRoom(c, target, key), luck); var owner := rooms[i].owner;
      if rooms[i].guest.Some? then Refused(out, rooms, c, 0x0004, 0x0004, luck.first)
      else if luck.first then
        && OnlyRoom(rooms, out.rooms, i, Some(c))
        && out.effects == [Send(owner, JoinRequest(target, c.clientId, key), true)]
      else
        && RoomGone(rooms, out.rooms, i)
        && out.effects ==
             [Send(owner, JoinRequest(target, c.clientId, key), false), Send(c, Failure(0x0004, 0x0001), luck.second),
              Close(owner), Close(c)]
  {
    FoundById(rooms, target, i);
    RemoveAfterSeating(rooms, i, Some(c));
  }

  lemma JoinWithoutRoom(rooms: seq<Room>, c: Client, target: string, key: seq<byte>, luck: Luck)
    requires !Exists(rooms, target)
    ensures Refused(Handle(rooms, JoinRoom(c, target, key), luck), rooms, c, 0x0004, 0x0003, luck.first)
  {
    var i := Find(rooms, ById(target));
    assert i == |rooms|;
  }

  // ----- the owner's answer

  /** The owner's answer goes to its guest, under the owner's id. Accepting keeps the guest in the seat and
      declining frees the seat; a guest that cannot be told is closed and loses the seat, and if the owner
      then cannot be told either its room is gone and it is closed. */
  lemma ResponseAnswered(rooms: seq<Room>, c: Client, accepted: int, key: seq<byte>, luck: Luck, i: nat)
    requires OwnsFirst(rooms, c, i) && rooms[i].guest.Some?
    ensures var out := Handle(rooms, JoinResponse(c, accepted, key), luck); var guest := rooms[i].guest.value;
      if luck.first then
        && out.effects == [Send(guest, JoinResult(accepted, c.clientId, key), true)]
        && (accepted != 0 ==> out.rooms == rooms)
        && (accepted == 0 ==> OnlyRoom(rooms, out.rooms, i, None))
      else if luck.second then
        && out.effects == [Send(guest, JoinResult(accepted, c.clientId, key), false), Close(guest),
                           Send(c, Failure(0x0004, 0x0005), true)]
        && OnlyRoom(rooms, out.rooms, i, None)
      else
        && out.effects == [Send(guest, JoinResult(accepted, c.clientId, key), false), Close(guest),
                           Send(c, Failure(0x0004, 0x0005), false), Close(c)]
        && RoomGone(rooms, out.rooms, i)
  {
    FoundByOwner(rooms, c, i);
    RemoveAfterSeating(rooms, i, None);
  }

  /** Without a guest, or without a room, the answer is refused; an owner of an empty room that cannot be told
      loses the room as well. */
  lemma ResponseWithoutGuest(rooms: seq<Room>, c: Client, accepted: int, key: seq<byte>, luck: Luck)
    ensures var out := Handle(rooms, JoinResponse(c, accepted, key), luck);
      && (!Owns(rooms, c) ==> Refused(out, rooms, c, 0x0004, 0x0003, luck.first))
      && forall i: nat :: OwnsFirst(rooms, c, i) && rooms[i].guest.None? ==>
           && out.effects == [Send(c, Failure(0x0004, 0x0005), luck.first)] + (if luck.first then [] else [Close(c)])
           && if luck.first then out.rooms == rooms else RoomGone(rooms, out.rooms, i)
  {
    forall i: nat | OwnsFirst(rooms, c, i)
      ensures Find(rooms, ByOwner(c)) == i
    {
      FoundByOwner(rooms, c, i);
    }
    var k := Find(rooms, ByOwner(c));
    assert k < |rooms| ==> rooms[k].owner == c;
  }

  /** With one role each: accepted guests are partners of the owner afterwards, declined ones are in no room. */
  lemma AcceptedAreSeated(rooms: seq<Room>, owner: Client, guest: Client, accepted: int, key: seq<byte>, luck: Luck)
    requires OneRole(rooms) && Partners(rooms, owner, guest) && Owns(rooms, owner) && luck.first
    ensures var after := Handle(rooms, JoinResponse(owner, accepted, key), luck).rooms;
      && (accepted != 0 ==> Partners(after, owner, guest))
      && (accepted == 0 ==> !InARoom(after, guest))
  {
    var i :| 0 <= i < |rooms| && rooms[i].owner == owner;
    assert rooms[i].Has(owner);
    var p :| 0 <= p < |rooms| &&
      ((rooms[p].owner == owner && rooms[p].guest == Some(guest))
      || (rooms[p].owner == guest && rooms[p].guest == Some(owner)));
    assert rooms[p].Has(owner) && p == i;
    assert OwnsFirst(rooms, owner, i);
    ResponseAnswered(rooms, owner, accepted, key, luck, i);
    if accepted == 0 {
      var after := Handle(rooms, JoinResponse(owner, accepted, key), luck).rooms;
      forall j | 0 <= j < |after|
        ensures !after[j].Has(guest)
      {
        assert rooms[i].Has(guest);
      }
    }
  }

  // ----- disconnects, and messages that name no room

  /** The owner's disconnect closes everybody in its room; the guest's frees the seat and the owner is told. */
  lemma DisconnectAnswered(rooms: seq<Room>, c: Client, luck: Luck, i: nat)
    requires i < |rooms| && rooms[i].Has(c) && forall j :: 0 <= j < i ==> !rooms[j].Has(c)
    ensures var out := Handle(rooms, Disconnected(c), luck);
      if rooms[i].owner == c then
        && RoomGone(rooms, out.rooms, i)
        && out.effects == [Close(c)] + if rooms[i].guest.Some? then [Close(rooms[i].guest.value)] else []
      else
        && OnlyRoom(rooms, out.rooms, i, None)
        && out.effects == [Close(c), Send(rooms[i].owner, GuestLeft, luck.first)]
  {
    assert Matches(rooms[i], ByParticipant(c));
    assert forall j :: 0 <= j < i ==> !Matches(rooms[j], ByParticipant(c));
    assert Find(rooms, ByParticipant(c)) == i;
  }

  lemma OthersAnswered(rooms: seq<Room>, c: Client, command: u32, luck: Luck)
    ensures Refused(Handle(rooms, InvalidPayload(c, command), luck), rooms, c, command, 0x0006, luck.first)
    ensures Handle(rooms, Unhandled(c), luck) == Outcome(rooms, [])
    ensures Handle(rooms, Recovered(c), luck) == Outcome(rooms, [Close(c)])
    ensures !InARoom(rooms, c) ==> Handle(rooms, Disconnected(c), luck) == Outcome(rooms, [])
  {
    var i := Find(rooms, ByParticipant(c));
    assert i < |rooms| ==> rooms[i].Has(c);
  }

  // ----- every turn

  /** Nobody who was in a room that a turn removes stays connected. */
  lemma RemovedAreClosed(rooms: seq<Room>, input: Input, luck: Luck, i: nat)
    requires i < |rooms| && Handle(rooms, input, luck).rooms == RemoveAt(rooms, i)
    requires OwnersDistinct(rooms)
    ensures var effects := Handle(rooms, input, luck).effects;
      && Close(rooms[i].owner) in effects
      && (rooms[i].guest.Some? ==> Close(rooms[i].guest.value) in effects)
  {
    var out := Handle(rooms, input, luck);
    assert |out.rooms| < |rooms|;
    var k := match input
      case JoinRoom(_, target, _) => Find(rooms, ById(target))
      case JoinResponse(sender, _, _) => Find(rooms, ByOwner(sender))
      case Disconnected(client) => Find(rooms, ByParticipant(client))
      case _ => 0;
    SameRemoved(rooms, i, k);
  }

  lemma RemovalsDiffer(rooms: seq<Room>, i: nat, k: nat)
    requires i < k < |rooms| && OwnersDistinct(rooms)
    ensures RemoveAt(rooms, i) != RemoveAt(rooms, k)
  {
    assert RemoveAt(rooms, i)[i] == rooms[i + 1] && RemoveAt(rooms, k)[i] == rooms[i];
  }

  lemma SameRemoved(rooms: seq<Room>, i: nat, k: nat)
    requires i < |rooms| && k < |rooms| && OwnersDistinct(rooms) && RemoveAt(rooms, i) == RemoveAt(rooms, k)
    ensures i == k
  {
    if i < k {
      RemovalsDiffer(rooms, i, k);
    } else if k < i {
      RemovalsDiffer(rooms, k, i);
    }
  }

  predicate Untold(effects: seq<Effect>, e: Effect) {
    e in effects && e.Send? && !e.ok && !e.packet.GuestLeft? && !e.packet.Adb?
  }

  lemma UntoldInJoin(rooms: seq<Room>, c: Client, target: string, key: seq<byte>, luck: Luck, e: Effect)
    requires Untold(Handle(rooms, JoinRoom(c, target, key), luck).effects, e)
    ensures Close(e.to) in Handle(rooms, JoinRoom(c, target, key), luck).effects
  {
    if Exists(rooms, target) {
      var i := Find(rooms, ById(target));
      FirstNamed(rooms, target, i);
      JoinAnswered(rooms, c, target, key, luck, i);
    } else {
      JoinWithoutRoom(rooms, c, target, key, luck);
    }
  }

  lemma UntoldInResponse(rooms: seq<Room>, c: Client, accepted: int, key: seq<byte>, luck: Luck, e: Effect)
    requires Untold(Handle(rooms, JoinResponse(c, accepted, key), luck).effects, e)
    ensures Close(e.to) in Handle(rooms, JoinResponse(c, accepted, key), luck).effects
  {
    ResponseWithoutGuest(rooms, c, accepted, key, luck);
    if Owns(rooms, c) {
      var i := Find(rooms, ByOwner(c));
      FirstOwned(rooms, c, i);
      if rooms[i].guest.Some? {
        ResponseAnswered(rooms, c, accepted, key, luck, i);
      }
    }
  }

  /** Whoever a turn could not tell about its own request, or about the answer to it, is closed; only notices
      that a guest left and forwarded ADB messages may be lost without that. */
  lemma UntoldAreClosed(rooms: seq<Room>, input: Input, luck: Luck, e: Effect)
    requires Untold(Handle(rooms, input, luck).effects, e)
    ensures Close(e.to) in Handle(rooms, input, luck).effects
  {
    match input
    case JoinRoom(c, target, key) => UntoldInJoin(rooms, c, target, key, luck, e);
    case JoinResponse(c, accepted, key) => UntoldInResponse(rooms, c, accepted, key, luck, e);
    case CreateRoom(c, roomId) => CreateAnswered(rooms, c, roomId, luck);
    case InvalidPayload(c, command) => OthersAnswered(rooms, c, command, luck);
    case _ =>
  }

  lemma FirstNamed(rooms: seq<Room>, target: string, i: nat)
    requires Exists(rooms, target) && i == Find(rooms, ById(target))
    ensures NamedFirst(rooms, target, i)
  {
    var k :| 0 <= k < |rooms| && rooms[k].roomId == target;
    assert Matches(rooms[k], ById(target));
    assert forall j :: 0 <= j < i ==> !Matches(rooms[j], ById(target));
  }

  lemma FirstOwned(rooms: seq<Room>, c: Client, i: nat)
    requires Owns(rooms, c) && i == Find(rooms, ByOwner(c))
    ensures OwnsFirst(rooms, c, i)
  {
    var k :| 0 <= k < |rooms| && rooms[k].owner == c;
    assert Matches(rooms[k], ByOwner(c));
    assert forall j :: 0 <= j < i ==> !Matches(rooms[j], ByOwner(c));
  }
}
