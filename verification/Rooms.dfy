/** The transporter's rooms (transporter/manager/roomManager/roomManager.go):
    what each handler does to the list of rooms and which packets it sends and
    connections it closes. Room objects and the class that owns them are in
    RoomManager; this module gives their meaning on values. */
module Rooms {
  import opened Bytes
  import opened Wrappers

  /** A client connection; the id was assigned in its handshake, before any message. */
  datatype Client = Client(handle: nat, clientId: string)

  datatype Room = Room(roomId: string, owner: Client, guest: Option<Client>) {
    predicate Has(c: Client) { owner == c || guest == Some(c) }
  }

  const ERROR_UNKNOWN := 0x0001
  const ERROR_ALREADY_IN_ROOM := 0x0002
  const ERROR_ROOM_NOT_FOUND := 0x0003
  const ERROR_FULL := 0x0004
  const ERROR_NO_PARTICIPANT := 0x0005
  const ERROR_INVALID_PAYLOAD := 0x0006

  const CREATE_ROOM := 0x0003
  const JOIN_ROOM := 0x0004

  datatype Packet =
    | RoomCreated(roomId: string)
    | JoinRequest(roomId: string, guestId: string, key: seq<byte>)
    | JoinResult(accepted: int, ownerId: string, key: seq<byte>)
    | Failure(command: u32, code: int)
    | GuestLeft
    | Adb(bytes: seq<byte>)

  /** An attempted send, with its outcome, or a close of a connection. */
  datatype Effect = Send(to: Client, packet: Packet, ok: bool) | Close(c: Client)

  /** What reaches the room loop. `roomId` of CreateRoom is the random id generated for it. */
  datatype Input =
    | CreateRoom(sender: Client, roomId: string)
    | JoinRoom(sender: Client, target: string, key: seq<byte>)
    | JoinResponse(sender: Client, accepted: int, ownerKey: seq<byte>)
    | AdbTransport(sender: Client, bytes: seq<byte>)
    | InvalidPayload(sender: Client, command: u32)
    | Unhandled(sender: Client)   // another command, or a container that is not usable
    | Recovered(sender: Client)   // parsing the payload panicked, before any room was touched
    | Disconnected(client: Client)

  /** Whether the first and the second send of a handler succeed. */
  datatype Luck = Luck(first: bool, second: bool)

  datatype Key = ById(id: string) | ByOwner(c: Client) | ByParticipant(c: Client)

  predicate Matches(r: Room, key: Key) {
    match key
    case ById(id) => r.roomId == id
    case ByOwner(c) => r.owner == c
    case ByParticipant(c) => r.Has(c)
  }

  /** The index of the first matching room, or the number of rooms. */
  function Find(rooms: seq<Room>, key: Key): (i: nat)
    ensures i <= |rooms|
    ensures i < |rooms| ==> Matches(rooms[i], key)
    ensures forall j :: 0 <= j < i ==> !Matches(rooms[j], key)
  {
    if rooms == [] || Matches(rooms[0], key) then 0 else 1 + Find(rooms[1..], key)
  }

  function RemoveAt(rooms: seq<Room>, i: nat): (rest: seq<Room>)
    requires i < |rooms|
    ensures |rest| == |rooms| - 1
    ensures forall j :: 0 <= j < |rest| ==> rest[j] == rooms[if j < i then j else j + 1]
  {
    rooms[..i] + rooms[i + 1..]
  }

  function SetGuest(rooms: seq<Room>, i: nat, guest: Option<Client>): seq<Room>
    requires i < |rooms|
  {
    rooms[i := rooms[i].(guest := guest)]
  }

  datatype Outcome = Outcome(rooms: seq<Room>, effects: seq<Effect>)

  function CloseBoth(r: Room): seq<Effect> {
    [Close(r.owner)] + if r.guest.Some? then [Close(r.guest.value)] else []
  }

  /** closeRoom on the room at index i. */
  function CloseRoom(rooms: seq<Room>, i: nat, before: seq<Effect>): Outcome
    requires i < |rooms|
  {
    Outcome(RemoveAt(rooms, i), before + CloseBoth(rooms[i]))
  }

  /** Send an error to the sender; if that fails, close the sender. */
  function Refuse(rooms: seq<Room>, sender: Client, command: u32, code: int, ok: bool): Outcome {
    var attempt := [Send(sender, Failure(command, code), ok)];
    Outcome(rooms, if ok then attempt else attempt + [Close(sender)])
  }

  function HandleCreateRoom(rooms: seq<Room>, sender: Client, roomId: string, luck: Luck): Outcome {
    if Find(rooms, ByParticipant(sender)) < |rooms| then
      Refuse(rooms, sender, CREATE_ROOM, ERROR_ALREADY_IN_ROOM, luck.first)
    else
      var attempt := [Send(sender, RoomCreated(roomId), luck.first)];
      Outcome(rooms + [Room(roomId, sender, None)], if luck.first then attempt else attempt + [Close(sender)])
  }

  function HandleJoinRoom(rooms: seq<Room>, sender: Client, target: string, key: seq<byte>, luck: Luck): Outcome {
    var i := Find(rooms, ById(target));
    if i == |rooms| then Refuse(rooms, sender, JOIN_ROOM, ERROR_ROOM_NOT_FOUND, luck.first)
    else if rooms[i].guest.Some? then Refuse(rooms, sender, JOIN_ROOM, ERROR_FULL, luck.first)
    else
      var seated := SetGuest(rooms, i, Some(sender));
      var request := [Send(rooms[i].owner, JoinRequest(target, sender.clientId, key), luck.first)];
      if luck.first then Outcome(seated, request)
      else
        CloseRoom(seated, i, request + [Send(sender, Failure(JOIN_ROOM, ERROR_UNKNOWN), luck.second)])
  }

  function HandleJoinResponse(rooms: seq<Room>, sender: Client, accepted: int, key: seq<byte>, luck: Luck): Outcome {
    var i := Find(rooms, ByOwner(sender));
    if i == |rooms| then Refuse(rooms, sender, JOIN_ROOM, ERROR_ROOM_NOT_FOUND, luck.first)
    else if rooms[i].guest.None? then
      var attempt := [Send(sender, Failure(JOIN_ROOM, ERROR_NO_PARTICIPANT), luck.first)];
      if luck.first then Outcome(rooms, attempt) else CloseRoom(rooms, i, attempt)
    else
      var guest := rooms[i].guest.value;
      var emptied := SetGuest(rooms, i, None);
      var result := [Send(guest, JoinResult(accepted, sender.clientId, key), luck.first)];
      if !luck.first then
        var notice := result + [Close(guest), Send(sender, Failure(JOIN_ROOM, ERROR_NO_PARTICIPANT), luck.second)];
        if luck.second then Outcome(emptied, notice) else CloseRoom(emptied, i, notice)
      else Outcome(if accepted == 0 then emptied else rooms, result)
  }

  function HandleAdbTransport(rooms: seq<Room>, sender: Client, bytes: seq<byte>, luck: Luck): Outcome {
    var i := Find(rooms, ByParticipant(sender));
    var target := if i == |rooms| then None
                  else if rooms[i].owner == sender then rooms[i].guest else Some(rooms[i].owner);
    Outcome(rooms, if target.None? then [] else [Send(target.value, Adb(bytes), luck.first)])
  }

  function HandleDisconnected(rooms: seq<Room>, client: Client, luck: Luck): Outcome {
    var i := Find(rooms, ByParticipant(client));
    if i == |rooms| then Outcome(rooms, [])
    else if rooms[i].owner == client then CloseRoom(rooms, i, [])
    else Outcome(SetGuest(rooms, i, None), [Close(client), Send(rooms[i].owner, GuestLeft, luck.first)])
  }

  /** One turn of the room loop. */
  function Handle(rooms: seq<Room>, input: Input, luck: Luck): Outcome {
    match input
    case CreateRoom(sender, roomId) => HandleCreateRoom(rooms, sender, roomId, luck)
    case JoinRoom(sender, target, key) => HandleJoinRoom(rooms, sender, target, key, luck)
    case JoinResponse(sender, accepted, key) => HandleJoinResponse(rooms, sender, accepted, key, luck)
    case AdbTransport(sender, bytes) => HandleAdbTransport(rooms, sender, bytes, luck)
    case InvalidPayload(sender, command) => Refuse(rooms, sender, command, ERROR_INVALID_PAYLOAD, luck.first)
    case Unhandled(_) => Outcome(rooms, [])
    case Recovered(sender) => Outcome(rooms, [Close(sender)])
    case Disconnected(client) => HandleDisconnected(rooms, client, luck)
  }

  // ----- invariants

  predicate InARoom(rooms: seq<Room>, c: Client) {
    exists i :: 0 <= i < |rooms| && rooms[i].Has(c)
  }

  predicate OwnersDistinct(rooms: seq<Room>) {
    forall i, j :: 0 <= i < j < |rooms| ==> rooms[i].owner != rooms[j].owner
  }

  /** No client owns one room and sits in another, sits in two, or is its own guest. */
  predicate OneRole(rooms: seq<Room>) {
    && (forall i :: 0 <= i < |rooms| ==> rooms[i].guest != Some(rooms[i].owner))
    && forall i, j :: 0 <= i < j < |rooms| ==>
         && !rooms[j].Has(rooms[i].owner)
         && (rooms[i].guest.Some? ==> !rooms[j].Has(rooms[i].guest.value))
  }

  lemma RemovalKeeps(rooms: seq<Room>, i: nat)
    requires i < |rooms|
    ensures OwnersDistinct(rooms) ==> OwnersDistinct(RemoveAt(rooms, i))
    ensures OneRole(rooms) ==> OneRole(RemoveAt(rooms, i))
  {
  }

  lemma SeatingKeeps(rooms: seq<Room>, i: nat, guest: Option<Client>)
    requires i < |rooms|
    ensures OwnersDistinct(rooms) ==> OwnersDistinct(SetGuest(rooms, i, guest))
    ensures OneRole(rooms) && guest.None? ==> OneRole(SetGuest(rooms, i, guest))
  {
  }

  /** Who can cause a room to be removed: its owner, by a response or by leaving, or a client asking for
      its free seat. */
  predicate RemovedBy(r: Room, input: Input) {
    match input
    case JoinRoom(_, target, _) => r.roomId == target && r.guest.None?
    case JoinResponse(sender, _, _) => r.owner == sender
    case Disconnected(client) => r.owner == client
    case _ => false
  }

  /** Who can cause a taken seat to be freed: the owner, by a response, or the guest, by leaving. */
  predicate ClearedBy(r: Room, input: Input) {
    match input
    case JoinResponse(sender, _, _) => r.owner == sender && r.guest.Some?
    case Disconnected(client) => r.owner != client && r.guest == Some(client)
    case _ => false
  }

  predicate SeatedBy(r: Room, input: Input) { input.JoinRoom? && r.roomId == input.target && r.guest.None? }

  /** What one turn of the loop can do to the rooms, and on whose account. */
  predicate Changes(before: seq<Room>, input: Input, after: seq<Room>) {
    || after == before
    || (input.CreateRoom? && !InARoom(before, input.sender)
        && after == before + [Room(input.roomId, input.sender, None)])
    || (exists i :: 0 <= i < |before| && RemovedBy(before[i], input) && after == RemoveAt(before, i))
    || (exists i :: 0 <= i < |before| && ClearedBy(before[i], input) && after == SetGuest(before, i, None))
    || (exists i :: 0 <= i < |before| && SeatedBy(before[i], input) && after == SetGuest(before, i, Some(input.sender)))
  }

  lemma RemoveAfterSeating(rooms: seq<Room>, i: nat, guest: Option<Client>)
    requires i < |rooms|
    ensures RemoveAt(SetGuest(rooms, i, guest), i) == RemoveAt(rooms, i)
  {
  }

  lemma TurnChanges(rooms: seq<Room>, input: Input, luck: Luck)
    ensures Changes(rooms, input, Handle(rooms, input, luck).rooms)
  {
    match input
    case CreateRoom(sender, _) =>
    case JoinRoom(sender, target, _) =>
      var i := Find(rooms, ById(target));
      if i < |rooms| { RemoveAfterSeating(rooms, i, Some(sender)); }
    case JoinResponse(sender, _, _) =>
      var i := Find(rooms, ByOwner(sender));
      if i < |rooms| { RemoveAfterSeating(rooms, i, None); }
    case _ =>
  }

  /** Every turn of the loop, whatever is sent and whatever fails, keeps owners distinct. */
  lemma OwnersStayDistinct(rooms: seq<Room>, input: Input, luck: Luck)
    requires OwnersDistinct(rooms)
    ensures OwnersDistinct(Handle(rooms, input, luck).rooms)
  {
    var after := Handle(rooms, input, luck).rooms;
    TurnChanges(rooms, input, luck);
    if i :| 0 <= i < |rooms| && after == RemoveAt(rooms, i) {
      RemovalKeeps(rooms, i);
    } else if i, guest :| 0 <= i < |rooms| && after == SetGuest(rooms, i, guest) {
      SeatingKeeps(rooms, i, guest);
    } else {
      assert forall j :: 0 <= j < |rooms| ==> after[j] == rooms[j];
    }
  }

  /** A join that takes the free seat of an existing room, with the owner informed. */
  predicate Seats(rooms: seq<Room>, target: string, luck: Luck) {
    var i := Find(rooms, ById(target));
    i < |rooms| && rooms[i].guest.None? && luck.first
  }

  /** Everything but a join keeps every client in at most one role. */
  lemma OneRoleKept(rooms: seq<Room>, input: Input, luck: Luck)
    requires OneRole(rooms) && !input.JoinRoom?
    ensures OneRole(Handle(rooms, input, luck).rooms)
  {
    var after := Handle(rooms, input, luck).rooms;
    TurnChanges(rooms, input, luck);
    if i :| 0 <= i < |rooms| && after == RemoveAt(rooms, i) {
      RemovalKeeps(rooms, i);
    } else if i :| 0 <= i < |rooms| && after == SetGuest(rooms, i, None) {
      SeatingKeeps(rooms, i, None);
    } else {
      assert forall j :: 0 <= j < |rooms| ==> after[j] == rooms[j];
    }
  }

  /** A join keeps it exactly when it seats nobody or seats a client that was in no room. */
  lemma JoinKeepsOneRole(rooms: seq<Room>, sender: Client, target: string, key: seq<byte>, luck: Luck)
    requires OneRole(rooms)
    ensures OneRole(Handle(rooms, JoinRoom(sender, target, key), luck).rooms) <==>
      !Seats(rooms, target, luck) || !InARoom(rooms, sender)
  {
  }

  // ----- peers

  /** The other participant of the client's first room. */
  function Peer(rooms: seq<Room>, c: Client): Option<Client> {
    var i := Find(rooms, ByParticipant(c));
    if i == |rooms| then None else if rooms[i].owner == c then rooms[i].guest else Some(rooms[i].owner)
  }

  /** Some room has exactly these two participants. */
  predicate Partners(rooms: seq<Room>, a: Client, b: Client) {
    exists i :: 0 <= i < |rooms| &&
      ((rooms[i].owner == a && rooms[i].guest == Some(b)) || (rooms[i].owner == b && rooms[i].guest == Some(a)))
  }

  /** With one role each, being peers is being the two participants of a room, and is symmetric. */
  lemma PeersArePartners(rooms: seq<Room>, a: Client, b: Client)
    requires OneRole(rooms)
    ensures Peer(rooms, a) == Some(b) <==> Partners(rooms, a, b)
    ensures Peer(rooms, a) == Some(b) ==> Peer(rooms, b) == Some(a) && a != b
  {
  }

  /** An ADB message changes no room and goes, unaltered, to the sender's partner and to nobody else. */
  lemma AdbGoesToPartner(rooms: seq<Room>, sender: Client, bytes: seq<byte>, luck: Luck)
    requires OneRole(rooms)
    ensures var out := Handle(rooms, AdbTransport(sender, bytes), luck);
      && out.rooms == rooms && |out.effects| <= 1
      && forall b, e :: e in out.effects && e.Send? && e.to == b ==>
           Partners(rooms, sender, b) && e == Send(b, Adb(bytes), luck.first)
    ensures forall b :: Partners(rooms, sender, b) ==>
      Send(b, Adb(bytes), luck.first) in Handle(rooms, AdbTransport(sender, bytes), luck).effects
  {
    forall b | Partners(rooms, sender, b) || Peer(rooms, sender) == Some(b)
      ensures Partners(rooms, sender, b) && Peer(rooms, sender) == Some(b)
    {
      PeersArePartners(rooms, sender, b);
    }
  }

  /** The rooms after some turns in which every send succeeds. */
  function AfterTurns(rooms: seq<Room>, inputs: seq<Input>): seq<Room>
    decreases |inputs|
  {
    if inputs == [] then rooms else AfterTurns(Handle(rooms, inputs[0], Luck(true, true)).rooms, inputs[1..])
  }

  /** Two roles do break peering: four turns make c the owner of one room and the guest of another. */
  lemma TwoRolesBreakPeering(a: Client, b: Client, c: Client)
    requires a != b && b != c && a != c
    ensures var rooms := AfterTurns([],
              [CreateRoom(c, "x"), CreateRoom(b, "y"), JoinRoom(a, "x", []), JoinRoom(c, "y", [])]);
      && rooms == [Room("x", c, Some(a)), Room("y", b, Some(c))]
      && Peer(rooms, b) == Some(c) && Peer(rooms, c) == Some(a)
  {
    var r0 := Room("x", c, None);
    var r1 := Room("y", b, None);
    Two(r0, r1);
    assert Handle([], CreateRoom(c, "x"), Luck(true, true)).rooms == [r0];
    assert Handle([r0], CreateRoom(b, "y"), Luck(true, true)).rooms == [r0, r1];
    TwoJoins(a, b, c);
    var last := [JoinRoom(c, "y", [])];
    var joins, creates := [JoinRoom(a, "x", [])] + last, [CreateRoom(b, "y")] + ([JoinRoom(a, "x", [])] + last);
    OneTurn([Room("x", c, Some(a)), r1], JoinRoom(c, "y", []), []);
    OneTurn([r0, r1], JoinRoom(a, "x", []), last);
    OneTurn([r0], CreateRoom(b, "y"), joins);
    OneTurn([], CreateRoom(c, "x"), creates);
    assert last == [JoinRoom(c, "y", [])] + [];
    assert [CreateRoom(c, "x")] + creates ==
      [CreateRoom(c, "x"), CreateRoom(b, "y"), JoinRoom(a, "x", []), JoinRoom(c, "y", [])];
    var rooms := [Room("x", c, Some(a)), Room("y", b, Some(c))];
    assert rooms[1].Has(b) && !rooms[0].Has(b) && rooms[0].Has(c);
  }

  lemma OneTurn(rooms: seq<Room>, input: Input, more: seq<Input>)
    ensures AfterTurns(rooms, [input] + more) == AfterTurns(Handle(rooms, input, Luck(true, true)).rooms, more)
  {
    assert ([input] + more)[1..] == more;
  }

  lemma Two(r: Room, q: Room)
    ensures [r] + [q] == [r, q] && [r, q][1..] == [q]
  {
  }

  lemma TwoJoins(a: Client, b: Client, c: Client)
    ensures var lucky := Luck(true, true);
      && Handle([Room("x", c, None), Room("y", b, None)], JoinRoom(a, "x", []), lucky).rooms
         == [Room("x", c, Some(a)), Room("y", b, None)]
      && Handle([Room("x", c, Some(a)), Room("y", b, None)], JoinRoom(c, "y", []), lucky).rooms
         == [Room("x", c, Some(a)), Room("y", b, Some(c))]
  {
    Two(Room("x", c, None), Room("y", b, None));
    var rooms := [Room("x", c, Some(a)), Room("y", b, None)];
    assert "x" != "y" by { assert "x"[0] != "y"[0]; }
    assert Find(rooms, ById("y")) == 1 by { assert rooms[1..][0].roomId == "y"; }
  }

  // ----- disconnects

  /** The rooms with every trace of the client removed: its own rooms gone, its seats freed. */
  function Without(rooms: seq<Room>, c: Client): seq<Room> {
    if rooms == [] then []
    else
      var rest := Without(rooms[1..], c);
      if rooms[0].owner == c then rest
      else if rooms[0].guest == Some(c) then [rooms[0].(guest := None)] + rest
      else [rooms[0]] + rest
  }

  predicate AtMostOneRoom(rooms: seq<Room>, c: Client) {
    forall i, j :: 0 <= i < |rooms| && 0 <= j < |rooms| && rooms[i].Has(c) && rooms[j].Has(c) ==> i == j
  }

  lemma {:induction false} WithoutAbsent(rooms: seq<Room>, c: Client)
    requires !InARoom(rooms, c)
    ensures Without(rooms, c) == rooms
  {
    if rooms != [] {
      assert rooms[0] == rooms[0] && !rooms[0].Has(c);
      assert forall i :: 0 <= i < |rooms| - 1 ==> rooms[1..][i] == rooms[i + 1];
      WithoutAbsent(rooms[1..], c);
    }
  }

  lemma {:induction false} WithoutRemoves(rooms: seq<Room>, c: Client)
    ensures !InARoom(Without(rooms, c), c)
  {
    if rooms != [] {
      WithoutRemoves(rooms[1..], c);
    }
  }

  lemma ConsRemove(rooms: seq<Room>, k: nat)
    requires 0 < k < |rooms|
    ensures RemoveAt(rooms, k) == [rooms[0]] + RemoveAt(rooms[1..], k - 1)
    ensures SetGuest(rooms, k, None) == [rooms[0]] + SetGuest(rooms[1..], k - 1, None)
  {
  }

  lemma {:induction false} WithoutSingle(rooms: seq<Room>, c: Client, k: nat)
    requires k < |rooms| && rooms[k].Has(c)
    requires forall j :: 0 <= j < |rooms| && j != k ==> !rooms[j].Has(c)
    ensures Without(rooms, c) == if rooms[k].owner == c then RemoveAt(rooms, k) else SetGuest(rooms, k, None)
  {
    var tail := rooms[1..];
    if k == 0 {
      assert !InARoom(tail, c);
      WithoutAbsent(tail, c);
    } else {
      assert !rooms[0].Has(c);
      assert forall j :: 0 <= j < |tail| ==> tail[j] == rooms[j + 1];
      WithoutSingle(tail, c, k - 1);
      ConsRemove(rooms, k);
    }
  }

  lemma DisconnectedIsWithout(rooms: seq<Room>, c: Client, luck: Luck)
    requires AtMostOneRoom(rooms, c)
    ensures HandleDisconnected(rooms, c, luck).rooms == Without(rooms, c)
  {
    var k := Find(rooms, ByParticipant(c));
    if k < |rooms| {
      WithoutSingle(rooms, c, k);
    } else {
      WithoutAbsent(rooms, c);
    }
  }

  /** Handling a disconnect removes the client entirely and leaves every other room in place, with
      its contents, exactly when the client was in at most one room. */
  lemma DisconnectClearsClient(rooms: seq<Room>, c: Client, luck: Luck)
    ensures HandleDisconnected(rooms, c, luck).rooms == Without(rooms, c) <==> AtMostOneRoom(rooms, c)
    ensures !InARoom(HandleDisconnected(rooms, c, luck).rooms, c) <==> AtMostOneRoom(rooms, c)
  {
    WithoutRemoves(rooms, c);
    if AtMostOneRoom(rooms, c) {
      DisconnectedIsWithout(rooms, c, luck);
    } else {
      var i, j :| 0 <= i < |rooms| && 0 <= j < |rooms| && rooms[i].Has(c) && rooms[j].Has(c) && i < j;
      var k := Find(rooms, ByParticipant(c));
      var after := HandleDisconnected(rooms, c, luck).rooms;
      assert k <= i < j;
      if rooms[k].owner == c {
        assert after[j - 1] == rooms[j];
      } else {
        assert after[j] == rooms[j];
      }
    }
  }
}
