/** The room manager itself (transporter/manager/roomManager/roomManager.go):
    room objects updated in place, found by loops over the list, and handlers
    that prove to do what module Rooms says. Sends and closes are returned as
    effects; the outcome of each send is an input. */
module RoomManager {
  import opened Bytes
  import opened Rooms
  import opened Wrappers

  class RoomData {
    const roomId: string
    const owner: Client
    var guest: Option<Client>

    constructor (roomId: string, owner: Client)
      ensures this.roomId == roomId && this.owner == owner && guest == None
    {
      this.roomId, this.owner, this.guest := roomId, owner, None;
    }

    function Value(): Room
      reads this
    {
      Room(roomId, owner, guest)
    }
  }

  class Manager {
    var rooms: seq<RoomData>

    /** Room objects are pairwise distinct, so that closeRoom can find one by identity. */
    ghost predicate Valid()
      reads this
    {
      forall i, j :: 0 <= i < j < |rooms| ==> rooms[i] != rooms[j]
    }

    ghost function Values(): (rs: seq<Room>)
      reads this, rooms
      ensures |rs| == |rooms|
      ensures forall i :: 0 <= i < |rooms| ==> rs[i] == rooms[i].Value()
    {
      seq(|rooms|, i requires 0 <= i < |rooms| reads this, rooms => rooms[i].Value())
    }

    constructor ()
      ensures Valid() && Values() == []
    {
      rooms := [];
    }

    /** The three findRoom loops, by key. */
    method FindRoom(key: Key) returns (room: RoomData?)
      ensures var at := Find(Values(), key); room == if at < |rooms| then rooms[at] else null
    {
      var i := 0;
      while i < |rooms|
        invariant i <= |rooms|
        invariant forall j :: 0 <= j < i ==> !Matches(Values()[j], key)
      {
        if Matches(rooms[i].Value(), key) {
          FindIs(Values(), key, i);
          return rooms[i];
        }
        i := i + 1;
      }
      FindIs(Values(), key, i);
      return null;
    }

    /** closeRoom: close both participants, then find the room by identity and delete it. */
    method CloseRoom(room: RoomData, ghost at: nat) returns (effects: seq<Effect>)
      requires Valid() && at < |rooms| && rooms[at] == room
      modifies this
      ensures Valid() && rooms == old(rooms[..at] + rooms[at + 1..])
      ensures Values() == RemoveAt(old(Values()), at)
      ensures effects == CloseBoth(room.Value())
    {
      effects := [Close(room.owner)];
      if room.guest.Some? {
        effects := effects + [Close(room.guest.value)];
      }
      var i := 0;
      while rooms[i] != room
        invariant i <= at
        decreases at - i
      {
        i := i + 1;
      }
      rooms := rooms[..i] + rooms[i + 1..];
    }

    /** An error to the sender, who is closed if it cannot be told. */
    method Reject(sender: Client, command: u32, code: int, ok: bool) returns (effects: seq<Effect>)
      ensures effects == Refuse(Values(), sender, command, code, ok).effects
    {
      effects := [Send(sender, Failure(command, code), ok)];
      if !ok {
        effects := effects + [Close(sender)];
      }
    }

    method DoCreateRoom(sender: Client, roomId: string, luck: Luck) returns (effects: seq<Effect>)
      requires Valid()
      modifies this
      ensures Valid() && fresh(set r | r in rooms && r !in old(rooms))
      ensures Outcome(Values(), effects) == HandleCreateRoom(old(Values()), sender, roomId, luck)
    {
      var room := FindRoom(ByParticipant(sender));
      ghost var at := Find(Values(), ByParticipant(sender));
      if room != null {
        effects := Reject(sender, CREATE_ROOM, ERROR_ALREADY_IN_ROOM, luck.first);
        return;
      }
      var created := new RoomData(roomId, sender);
      rooms := rooms + [created];
      effects := [Send(sender, RoomCreated(roomId), luck.first)];
      if !luck.first {
        effects := effects + [Close(sender)];
      }
      assert Values() == old(Values()) + [created.Value()];
    }

    method DoJoinRoom(sender: Client, target: string, key: seq<byte>, luck: Luck) returns (effects: seq<Effect>)
      requires Valid()
      modifies this, rooms
      ensures Valid()
      ensures Outcome(Values(), effects) == HandleJoinRoom(old(Values()), sender, target, key, luck)
    {
      var room := FindRoom(ById(target));
      ghost var at := Find(Values(), ById(target));
      if room == null {
        effects := Reject(sender, JOIN_ROOM, ERROR_ROOM_NOT_FOUND, luck.first);
        return;
      }
      if room.guest.Some? {
        effects := Reject(sender, JOIN_ROOM, ERROR_FULL, luck.first);
        return;
      }
      room.guest := Some(sender);
      assert Values() == SetGuest(old(Values()), at, Some(sender));
      effects := [Send(room.owner, JoinRequest(target, sender.clientId, key), luck.first)];
      if !luck.first {
        effects := effects + [Send(sender, Failure(JOIN_ROOM, ERROR_UNKNOWN), luck.second)];
        var closes := CloseRoom(room, at);
        effects := effects + closes;
      }
    }

    method DoJoinResponse(sender: Client, accepted: int, key: seq<byte>, luck: Luck) returns (effects: seq<Effect>)
      requires Valid()
      modifies this, rooms
      ensures Valid()
      ensures Outcome(Values(), effects) == HandleJoinResponse(old(Values()), sender, accepted, key, luck)
    {
      var room := FindRoom(ByOwner(sender));
      ghost var at := Find(Values(), ByOwner(sender));
      if room == null {
        effects := Reject(sender, JOIN_ROOM, ERROR_ROOM_NOT_FOUND, luck.first);
        return;
      }
      if room.guest.None? {
        effects := [Send(sender, Failure(JOIN_ROOM, ERROR_NO_PARTICIPANT), luck.first)];
        if !luck.first {
          var closes := CloseRoom(room, at);
          effects := effects + closes;
        }
        return;
      }
      var guest := room.guest.value;
      effects := [Send(guest, JoinResult(accepted, sender.clientId, key), luck.first)];
      if !luck.first {
        room.guest := None;
        assert Values() == SetGuest(old(Values()), at, None);
        effects := effects + [Close(guest), Send(sender, Failure(JOIN_ROOM, ERROR_NO_PARTICIPANT), luck.second)];
        if !luck.second {
          var closes := CloseRoom(room, at);
          effects := effects + closes;
        }
        return;
      }
      if accepted == 0 {
        room.guest := None;
        assert Values() == SetGuest(old(Values()), at, None);
      }
    }

    method DoAdbTransport(sender: Client, bytes: seq<byte>, luck: Luck) returns (effects: seq<Effect>)
      ensures Outcome(Values(), effects) == HandleAdbTransport(Values(), sender, bytes, luck)
    {
      var room := FindRoom(ByParticipant(sender));
      ghost var at := Find(Values(), ByParticipant(sender));
      if room == null {
        return [];
      }
      var target := if room.owner == sender then room.guest else Some(room.owner);
      if target.None? {
        return [];
      }
      return [Send(target.value, Adb(bytes), luck.first)];
    }

    method DoDisconnected(client: Client, luck: Luck) returns (effects: seq<Effect>)
      requires Valid()
      modifies this, rooms
      ensures Valid()
      ensures Outcome(Values(), effects) == HandleDisconnected(old(Values()), client, luck)
    {
      var room := FindRoom(ByParticipant(client));
      ghost var at := Find(Values(), ByParticipant(client));
      if room == null {
        return [];
      }
      if room.owner == client {
        effects := CloseRoom(room, at);
      } else {
        room.guest := None;
        assert Values() == SetGuest(old(Values()), at, None);
        effects := [Close(client), Send(room.owner, GuestLeft, luck.first)];
      }
    }

    /** One turn of run: the class does what Handle says. */
    method Turn(input: Input, luck: Luck) returns (effects: seq<Effect>)
      requires Valid()
      modifies this, rooms
      ensures Valid()
      ensures Outcome(Values(), effects) == Handle(old(Values()), input, luck)
    {
      match input {
        case CreateRoom(sender, roomId) => effects := DoCreateRoom(sender, roomId, luck);
        case JoinRoom(sender, target, key) => effects := DoJoinRoom(sender, target, key, luck);
        case JoinResponse(sender, accepted, key) => effects := DoJoinResponse(sender, accepted, key, luck);
        case AdbTransport(sender, bytes) => effects := DoAdbTransport(sender, bytes, luck);
        case InvalidPayload(sender, command) => effects := Reject(sender, command, ERROR_INVALID_PAYLOAD, luck.first);
        case Unhandled(_) => effects := [];
        case Recovered(sender) => effects := [Close(sender)];
        case Disconnected(client) => effects := DoDisconnected(client, luck);
      }
    }
  }

  lemma FindIs(rooms: seq<Room>, key: Key, i: nat)
    requires i <= |rooms| && (forall j :: 0 <= j < i ==> !Matches(rooms[j], key))
    requires i < |rooms| ==> Matches(rooms[i], key)
    ensures Find(rooms, key) == i
  {
  }
}
