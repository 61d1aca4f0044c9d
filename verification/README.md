# Verification model of adb-remote

adb-remote shares an Android device over the network. The guest's adb speaks the
ADB protocol to its client; the messages travel inside the transporter's own
frames, through a room on the transporter, to the owner's client, which opens one
connection to its local adb server per ADB stream. This project models the three
layers that must get concurrency, buffers and bytes right, and proves what they
promise.

- **Owner-side multiplexer** (`OwnerStream.dfy`, `OwnerStreamLaws.dfy`, `OwnerMultiplexer.dfy`,
  `OwnerLateWrites.dfy`, `OwnerCauses.dfy`, `OwnerReasons.dfy`, `OwnerDispatch.dfy`,
  `OwnerSimulation.dfy`, `OwnerSettling.dfy`). The dispatch goroutine and one pump
  goroutine per stream are a transition system with a program counter for each, a
  one-token permit, a once-only teardown and a log per stream; the invariant is kept
  on running totals of the log, and what the log says is traced back to the messages
  and failures that caused it. The handlers also exist as methods of a class that
  updates the stream objects and the map in place, and a refinement theorem shows
  each of them to be a run of its own message.
- **Transporter** (`Rooms.dfy`, `RoomAnswers.dfy`, `RoomManager.dfy`, `RoomRuns.dfy`,
  `RoomDiscipline.dfy`, `RoomDisconnects.dfy`, `Connections.dfy`, `ConnectionCloses.dfy`,
  `ConnectionStalls.dfy`, `ConnectionRegistry.dfy`). The room loop on room objects, the meaning of one turn on values, whole runs with reader goroutines and the bounded
  channel, and the race of all close paths with the two bounded queues.
- **Buffers and codecs** (`ObjectPool.dfy`, `PoolLocks.dfy`, `PoolCalls.dfy`, `Bytes.dfy`,
  `Wrappers.dfy`, `Frames.dfy`, `TransporterMessage.dfy`, `Payloads.dfy`,
  `SharedWire.dfy`, `WireCompletion.dfy`, `WireFailures.dfy`, `PooledSends.dfy`,
  `PooledReuse.dfy`, `AdbMessages.dfy`, `AdbBuffer.dfy`, `RelayPumps.dfy`). The pool as a class and
  again lock by lock; both wire formats on values and on the reused byte arrays;
  concurrent senders on one connection, on values and over pooled buffers; the relay from end to end.
- **Two small parsers and builders** (`PacketCapture.dfy`, `SmartSocket.dfy`,
  `DeviceLists.dfy`). The IPv4 checksum of section 3.1 of RFC 791 with the arithmetic
  of RFC 1071, the capture frames, and the smart-socket framing and device list.

## How to read it

`dafny verify dfyconfig.toml` checks everything. Modules that describe goroutines
have a `State`, an `Enabled`, a `Step`, an `Inv`, step lemmas and, last, the theorems
about runs. Modules that describe buffers have the meaning as functions and the Go
method as a method on the array. Random room ids, the outcome of every send and
write, the bytes of every read and the choice of a `select` are inputs or actions, so
each theorem holds for all of them.

Choices that shape the statements:

- CRC-32 is the parameter `crc`, any function of the payload.
- A send of an ADB message delivers all of it or nothing. A device write that fails
  has delivered any prefix. A read started on a closed connection returns no bytes
  and an error.
- `command ^ 0xffffffff` is written `0xFFFF_FFFF - command`. Integer widths are
  explicit wherever the source's arithmetic could wrap.
- A client is a connection together with the id its handshake gave it.

## What the code does where its comments or callers expect otherwise

- `client/relay/owner.go:68` says ids are never reused; the 2^32nd stream has id 0 and the
  next one repeats an id (`OwnerMultiplexer.OwnIds`).
- `client/relay/owner.go:204` acknowledges a WRTE with the id the WRTE carried, not
  the one given at OPEN (`OwnerStreamLaws.IdPairKept`, `OwnerStreamLaws.ForeignIdEchoed`).
- A CLSE need not be the last message of its stream: a WRTE can follow the dispatcher's
  after a failed device write, and an OKAY the pump's (`OwnerStreamLaws.WriteAfterClose`,
  `OwnerLateWrites.OkayAfterClose`); exactly when is `OwnerLateWrites.MessageFollowsClose`.
- `transporter/manager/roomManager/roomManager.go:149-176` seats a client that is
  already in a room; peering is then no longer symmetric (`Rooms.JoinKeepsOneRole`,
  `Rooms.TwoRolesBreakPeering`).
- The room loop sends on the channel only it drains; eleven outstanding connections
  suffice to stop it (`Connections.ElevenCanWedge`; exactly when in
  `ConnectionStalls.TurnEndsExactly`).
- A message of which only the command was set carries the length, checksum and
  payload the pooled buffer had before (`Frames.BareCommandReadable`). A refused header,
  or one that the end of the connection cut short over an older one, can leave a length
  there that makes the next such send panic (`TransporterMessage.Message.ReadThenBareCommand`,
  `TransporterMessage.CutHeaderExceedsLimit`);
  `transporter/manager/roomManager/roomManager.go:55-57` handles disconnects, and so sends
  GuestLeft, outside the recover of lines 70-79.
- A disconnect can overtake messages of the same client, and a create handled after it
  leaves a room without a living owner (`RoomDisconnects.RoomOfGoneOwner`; exactly when in
  `RoomDisconnects.GoneComesBackExactly`).
- `client/adb/adbMessage.go:160` compares in uint32 (`AdbMessages.WrappedLengthAccepted`),
  and `Set` accepts any command (`AdbMessages.SetSurvives`).
- `client/adb/smartSocket.go:58-77` slices out of range on a record without a tab, and
  `client/adb/smartSocket.go:191-193` is a limit that four hex digits cannot reach
  (`DeviceLists.DeviceList`, `SmartSocket.LimitOutOfReach`).

## Model

| member | source | states |
|---|---|---|
| `OwnerMultiplexer.StepInv` | client/relay/owner.go:121-294 | every step of the dispatcher or of any pump keeps the whole invariant: per-stream flow control, byte fidelity, teardown stages, announcement and accounting, and for the multiplexer an exact registry, counted ids, one stream at a time under the dispatcher, and a drain that still covers every registered stream |
| `OwnerMultiplexer.FlowControl` | client/relay/owner.go:171-178 | on every run and for every stream: permits taken plus the token held never exceed 1 + OKAYs handled, WRTEs sent never exceed OKAYs handled + 1 at any earlier moment, and WRTE and OKAY strictly alternate if and only if the guest OKAYs only WRTEs it was sent |
| `OwnerMultiplexer.DeviceToGuest` | client/relay/owner.go:239-260 | on every run: the WRTE payloads sent are an in-order prefix of the bytes read from the device, at most one chunk behind; all of them once the pump left by its read error; chunks are non-empty and at most MAXDATA; no WRTE follows a CLSE the pump sent, and a WRTE after any CLSE occurs only where a device write had failed |
| `OwnerMultiplexer.TeardownOnce` | client/relay/owner.go:262-281 | on every run, under every race of guest CLSE, write failure, read error and Close: done closed at most once, the device connection at most once and after it, at most one CLSE attempted and only after both, and at most one WRTE sent after the connection was closed |
| `OwnerMultiplexer.GuestToDevice` | client/relay/owner.go:193-208 | on every run: bytes on the device are an in-order prefix of the payloads dispatched, equal if no device write failed; OKAYs attempted are 1 + complete device writes; the first message for the stream is OKAY(own, guest); every message carries the own id, every WRTE and CLSE the guest id |
| `OwnerMultiplexer.OwnIds` | client/relay/owner.go:171-182 | own ids are non-zero if and only if fewer than 2^32 streams were opened, and pairwise distinct if and only if at most 2^32 were; every key of the map is the id of the stream it holds |
| `OwnerMultiplexer.OpensReach` | client/relay/owner.go:171-191 | so the failing states exist: a run serves any number of OPENs |
| `OwnerMultiplexer.OneMessageAfterClose` | client/relay/owner.go:193-281 | on every run: at most one message follows a CLSE of its stream, an OKAY if the pump sent the CLSE and a WRTE if the dispatcher did |
| `OwnerMultiplexer.CloseClosesAll` | client/relay/owner.go:283-294 | when closeAllStreams returns on the dispatch goroutine the map is empty and, up to 2^32 OPENs, every stream ever opened has its device connection closed, even those whose close a pump was performing |
| `OwnerMultiplexer.ClosedStreamInert` | client/relay/owner.go:231-235 | after a stream was torn down no run writes to its device, acknowledges, grants or closes anything for it again; at most the WRTE its pump already carried goes out |
| `OwnerMultiplexer.DispatcherNeverStuck` | client/relay/owner.go:266-281 | in every state the dispatcher can act, or waits in closeOnce for a pump that can act |
| `OwnerMultiplexer.IdleAcceptsAll` | client/relay/owner.go:128-147 | between two messages every message can be handled |
| `OwnerCauses.MessagesAccounted` | client/relay/owner.go:128-147 | counted over the run from the messages themselves, for every stream on every run: the OKAYs handled, with the one in hand, are the guest's OKAYs whose id the map held the stream under; the payloads dispatched, and the ids they came with, are those of the WRTEs that found it, in order |
| `OwnerCauses.WorkBegins` | client/relay/owner.go:193-237 | on a stream the dispatcher is not at, it begins to write exactly for a WRTE that finds the stream, to put the token back exactly for such an OKAY, and to close exactly for such a CLSE or as the next of Close's snapshot, then without a notice |
| `OwnerCauses.StepSeen` | client/relay/owner.go:121-294 | what a step of the multiplexer does to a stream is the one thing its message or its actor names, and nothing for every other stream but the loss of a map entry to a repeated id |
| `OwnerCauses.LostMessage` | client/relay/owner.go:193-229 | a message that finds no stream, or is of another kind, changes nothing |
| `OwnerReasons.ClosedExactly` | client/relay/owner.go:193-281 | on every run a stream is torn down if and only if one of these happened to it: a CLSE that found it, Close, an OKAY or a device write that failed, a read that ended, a WRTE that could not be sent |
| `OwnerReasons.NoticeExactly` | client/relay/owner.go:262-281 | a teardown tells the guest exactly if the dispatcher closes because a device write failed, or the pump because its read did |
| `OwnerReasons.ChunkRelayed` | client/relay/owner.go:239-260 | with the token there and the connection open, a chunk read goes out as one WRTE under both ids, and the pump reads on, or, if the read that gave it failed, closes the stream |
| `OwnerReasons.PumpStarts` | client/relay/owner.go:171-190 | an OPEN that is acknowledged leaves the pump reading, with the token there |
| `OwnerReasons.OpensAnswered` | client/relay/owner.go:157-182 | on every run each OPEN has a stream under the guest's own id, in order, or, if the device stream could not be opened, a CLSE for own id 0 under that id, where that send succeeded |
| `OwnerReasons.PermitsExact` | client/relay/owner.go:210-254 | with a guest that OKAYs only WRTEs it was sent no token is lost: tokens taken plus the one held are one more than the OKAYs that reached the stream, less the one in hand |
| `OwnerStream.StepInv` | client/relay/owner.go:239-281 | one step of one stream keeps its invariant, with the select between permit and done nondeterministic |
| `OwnerStreamLaws.StrictAlternation` | client/relay/owner.go:210-254 | the if-and-only-if behind FlowControl, for one stream |
| `OwnerStreamLaws.OneWriteAfterClose` | client/relay/owner.go:239-260 | measured from the very event of the connection close: at most one more WRTE |
| `OwnerStreamLaws.PumpWindsDown` | client/relay/owner.go:239-260 | whatever else happens after the connection is closed, the pump acts at most six more times |
| `OwnerStreamLaws.PumpNeverStuck` | client/relay/owner.go:243-258 | a pump whose connection is closed has ended, can act, or waits for the dispatcher to finish the same teardown |
| `OwnerStreamLaws.IdPairKept` | client/relay/owner.go:193-208 | each OKAY answers, in order, the OPEN and then the dispatched WRTEs and echoes their arg1; all messages carry the id pair agreed at OPEN if and only if the acknowledged WRTEs did |
| `OwnerStreamLaws.ForeignIdEchoed` | client/relay/owner.go:204 | a concrete run: a WRTE with a foreign arg1 is acknowledged under that foreign id |
| `OwnerStreamLaws.WriteAfterClose` | client/relay/owner.go:198-202 | a concrete run on which a WRTE follows a CLSE: the device write fails while the pump holds a chunk |
| `OwnerLateWrites.FurtherWrites` | client/relay/owner.go:239-260 | for a stream whose teardown or pump is over, some run sends a further WRTE if and only if the pump is past the select, or holds or can still read bytes and the token is there |
| `OwnerLateWrites.WriteFollowsClose` | client/relay/owner.go:243-254 | the exact condition for a WRTE after a CLSE, read off the state right after the CLSE: never after the pump's own, and after the dispatcher's by the condition above |
| `OwnerLateWrites.MessageFollowsClose` | client/relay/owner.go:193-208 | the exact condition for any message after a CLSE, read off the state right after it: after the pump's, some run sends one if and only if handleWrite stands between its device write and its OKAY; after the dispatcher's, if and only if the pump can still write; and no run sends two |
| `OwnerLateWrites.OkayAfterClose` | client/relay/owner.go:204 | a concrete run on which an OKAY follows the pump's CLSE: the pump tears down while handleWrite stands before its OKAY |
| `OwnerDispatch.Multiplexer.CloseStream` | client/relay/owner.go:266-281 | closeStream in place: the first call closes done and the connection, removes the map entry and notifies, later calls change nothing; no other stream changes |
| `OwnerDispatch.Multiplexer.HandleWrite` | client/relay/owner.go:193-208 | handleWrite in place, with every outcome of the device write, the OKAY and the CLSE: the new map and the new state of every stream |
| `OwnerDispatch.Multiplexer.HandleOkay` | client/relay/owner.go:210-221 | handleOkay in place: the token is there afterwards and nothing else changed |
| `OwnerDispatch.Multiplexer.HandleClose` | client/relay/owner.go:223-229 | handleClose in place: a registered stream is closed without a CLSE, an unknown id changes nothing |
| `OwnerDispatch.Multiplexer.HandleOpen` | client/relay/owner.go:157-191 | handleOpen in place: CLSE(0, guest) if the device stream cannot be opened; otherwise the next id, the new stream, and its OKAY or its immediate close |
| `OwnerDispatch.Multiplexer.CloseAllStreams` | client/relay/owner.go:283-294 | closeAllStreams in place: a snapshot of the map in an order of its own, then each stream closed |
| `OwnerSimulation.HandlersAreRuns` | client/relay/owner.go:121-294 | refinement: from every reachable state between two messages in which no pump is inside closeOnce, what a handler that is not interrupted does to the objects is what a run of its own does: a run that begins with the handler's message, or the call of Close, goes on with the dispatcher's steps alone, has the outcomes of the sends and of the device write that the handler had, and is finished |
| `OwnerSimulation.CloseStreamRun` | client/relay/owner.go:266-281 | closeStream, statement by statement, is a run of the transition system with exactly that effect, where no pump is inside a teardown |
| `OwnerSettling.HandlersFromAnywhere` | client/relay/owner.go:262-281 | a pump inside closeOnce is no obstacle: from every reachable state between two messages, pumps that only finish the teardowns they are in lead to a state from which every handler is a run of its own in that sense |
| `ObjectPool.Pool.Obtain` | shared/utils/objectPool.go:28-40 | takes the last container of the free list, or a new one if it is empty, and hands it out reset |
| `ObjectPool.Pool.Release` | shared/utils/objectPool.go:42-52 | appends to the free list below 100 containers and lets the container go at 100 |
| `ObjectPool.Pool.Dispose` | shared/utils/objectPool.go:104-117 | counts one disposal, fails on a disposed container, and frees the container exactly at its last disposal |
| `ObjectPool.Container.Data` | shared/utils/objectPool.go:85-92 | fails exactly on a disposed container |
| `ObjectPool.Container.UpdateCounter` | shared/utils/objectPool.go:94-102 | sets the target of a live container and leaves a disposed one alone |
| `PoolLocks.StepInv` | shared/utils/objectPool.go:28-117 | every interleaved step keeps both locks exclusive and exactly recorded, and every container in the free list or on its way in or out of it exhausted, distinct and in one hand |
| `PoolLocks.NoCyclicWait` | shared/utils/objectPool.go:104-117 | although Dispose locks container then pool and Obtain pool then container, no reachable state has a cyclic wait, of any length |
| `PoolLocks.WaitingGoesDown` | shared/utils/objectPool.go:28-40 | the reason: along every wait a rank strictly falls, because a popped container is exhausted, so nobody holding it heads for the pool |
| `PoolLocks.SomeoneCanGo` | shared/utils/objectPool.go:28-117 | every thread inside a call can go on or waits, through others, for one that can |
| `PoolLocks.PoolExclusive` | shared/utils/objectPool.go:42-52 | on every run: the free list has at most 100 distinct containers, Data fails on each, and no container is handed out twice without exactly the disposals asked for in between |
| `PoolCalls.ObtainReuses` | shared/utils/objectPool.go:28-40 | lock by lock, an Obtain that nobody stands in the way of hands out the last container of the free list, live again, and leaves the rest |
| `PoolCalls.ObtainMakes` | shared/utils/objectPool.go:28-40 | and from an empty list a new one |
| `PoolCalls.DisposeFrees` | shared/utils/objectPool.go:42-52 | the disposal that is the last one asked for puts the container at the end of the free list, unless that holds 100 |
| `PoolCalls.DisposeCounts` | shared/utils/objectPool.go:104-117 | an earlier one is counted and leaves the list as it is |
| `PoolCalls.DisposeFails` | shared/utils/objectPool.go:104-109 | one too many changes nothing |
| `PoolCalls.TouchActs` | shared/utils/objectPool.go:85-102 | Data changes nothing; UpdateCounter sets the target of a live container and leaves a disposed one alone |
| `PoolCalls.HandedOutTwice` | shared/utils/objectPool.go:28-52 | a run from the start on which the same container is handed out a second time |
| `PooledSends.StepInv` | client/transportLayer/client.go:214-222 | every interleaved step, inside the pool, at a buffer or at the wire, keeps each owned container live and with one owner, and the buffer of a message being sent what it was filled with |
| `PooledSends.OwnedUntilDisposed` | client/transportLayer/client.go:214-222 | the rule behind withMessage, on every run: from the end of Obtain until the owner's own Dispose counts, Data succeeds on the container, nobody else owns it, it is not in the free list, no Obtain has it in hand, and what is being sent from it is still there |
| `PooledSends.RunsAreSends` | client/transportLayer/client.go:190-199 | refinement: every run over reused buffers, whose writes read the buffer when they happen, is a run of SharedWire, where messages are values |
| `PooledSends.PooledWire` | client/transportLayer/client.go:190-222 | so with pooled messages too the wire parses at every moment into the completed messages in order, each sender's once and in its order, and the byte counter is their total |
| `PooledReuse.SendsOne` | client/transportLayer/client.go:190-222 | withMessage and writeMessage from Obtain to Dispose, by a goroutine that nobody stands in the way of: exactly its message is added to the wire, the log and the counter, all locks are free again, and the container is the last of the free list |
| `PooledReuse.OneContainerSuffices` | client/transportLayer/client.go:212-222 | what the pool is for: left alone it sends any number of messages, in order, through one container, the one freed last or, if none is free, one that it makes |
| `RoomManager.Manager.FindRoom` | transporter/manager/roomManager/roomManager.go:284-313 | each of the lookups finds the first room with the key, or none |
| `RoomManager.Manager.CloseRoom` | transporter/manager/roomManager/roomManager.go:257-282 | closes both participants and removes exactly that room object |
| `RoomManager.Manager.DoCreateRoom` | transporter/manager/roomManager/roomManager.go:122-147 | the handler on the objects does what the value-level handler says: refuse a sender that is in a room, else append a room it owns; an unsendable answer closes the sender |
| `RoomManager.Manager.DoJoinRoom` | transporter/manager/roomManager/roomManager.go:149-185 | likewise; the guest is seated at request time and the room closed if the owner cannot be told |
| `RoomManager.Manager.DoJoinResponse` | transporter/manager/roomManager/roomManager.go:187-228 | likewise; acts on the present occupant, with every failing send |
| `RoomManager.Manager.DoAdbTransport` | transporter/manager/roomManager/roomManager.go:233-255 | likewise; forwards by occupancy and changes no room |
| `RoomManager.Manager.DoDisconnected` | transporter/manager/roomManager/roomManager.go:315-335 | likewise; the owner's disconnect closes the room, the guest's frees the seat |
| `RoomManager.Manager.Turn` | transporter/manager/roomManager/roomManager.go:48-120 | one turn of the loop on the room objects refines the value-level turn, unusable containers and recovered parsing panics included, and keeps the objects distinct |
| `Rooms.OwnersStayDistinct` | transporter/manager/roomManager/roomManager.go:122-228 | every turn, with every send failing or not, keeps owners pairwise distinct |
| `Rooms.OneRoleKept` | transporter/manager/roomManager/roomManager.go:187-335 | everything but a join keeps every client in at most one role |
| `Rooms.JoinKeepsOneRole` | transporter/manager/roomManager/roomManager.go:149-185 | a join keeps it if and only if it seats nobody or seats a client that was in no room; the code does not check this |
| `Rooms.PeersArePartners` | transporter/manager/roomManager/roomManager.go:233-255 | with one role each, forwarding target and room partner are the same relation, symmetric and irreflexive |
| `Rooms.TwoRolesBreakPeering` | transporter/manager/roomManager/roomManager.go:149-176 | without it they are not: four turns, two creates and two joins, that end in such rooms |
| `Rooms.AdbGoesToPartner` | transporter/manager/roomManager/roomManager.go:233-255 | an ADB message goes unaltered to the sender's partner and nobody else, and changes no room |
| `Rooms.DisconnectClearsClient` | transporter/manager/roomManager/roomManager.go:315-335 | handling a disconnect removes the client everywhere and keeps every other room and its place if and only if the client was in at most one room |
| `Rooms.TurnChanges` | transporter/manager/roomManager/roomManager.go:122-335 | which changes a turn can make to the rooms and on whose account: who creates, who takes a seat, whose message or disconnect removes a room or frees a seat |
| `RoomAnswers.CreateAnswered` | transporter/manager/roomManager/roomManager.go:122-147 | for every state and every outcome of the sends, who is told what and who is closed: a client in no room has a new one of its own and is told its id, another is refused |
| `RoomAnswers.JoinAnswered` | transporter/manager/roomManager/roomManager.go:149-185 | a taken seat is refused; a free seat is taken and the owner asked under the guest's own id; if the owner cannot be asked the guest is told, the room is gone and both are closed |
| `RoomAnswers.ResponseAnswered` | transporter/manager/roomManager/roomManager.go:206-228 | the guest is told the answer under the owner's id; accepting keeps its seat, declining frees it; a guest that cannot be told is closed and loses the seat, and an owner that then cannot be told loses its room |
| `RoomAnswers.ResponseWithoutGuest` | transporter/manager/roomManager/roomManager.go:187-205 | without a room or without a guest the answer is refused, and the owner of an empty room that cannot be told loses it |
| `RoomAnswers.AcceptedAreSeated` | transporter/manager/roomManager/roomManager.go:220-224 | with one role each: after an accepted join owner and guest are partners, after a declined one the guest is in no room |
| `RoomAnswers.DisconnectAnswered` | transporter/manager/roomManager/roomManager.go:315-335 | the owner's disconnect removes the room and closes both, the guest's frees the seat, closes the guest and tells the owner |
| `RoomAnswers.OthersAnswered` | transporter/manager/roomManager/roomManager.go:96-119 | messages that do not parse are refused, unknown commands ignored, a recovered panic closes the sender, a disconnect of a client in no room does nothing |
| `RoomAnswers.RemovedAreClosed` | transporter/manager/roomManager/roomManager.go:257-282 | whoever was in a room that a turn removes is closed by that turn, guest and owner |
| `RoomAnswers.UntoldAreClosed` | transporter/manager/roomManager/roomManager.go:122-228 | whoever a turn could not tell the answer to its request, or ask, is closed; only GuestLeft and forwarded ADB messages may be lost without that |
| `RoomRuns.StepInv` | transporter/manager/roomManager/roomManager.go:48-62 | every step of clients, readers, bounded channel and room loop keeps per-client FIFO order and delivery to the peer |
| `RoomRuns.RelayedInOrder` | transporter/manager/connectionManager/clientConnection.go:143-175 | on every run: what b receives from a is, payload for payload, an in-order subsequence of the ADB messages a wrote, each delivered to a's peer of the moment |
| `RoomRuns.DeliveredExactly` | transporter/manager/roomManager/roomManager.go:233-255 | and nothing is lost: over any run b receives exactly the ADB messages of a that the loop takes while b is a's peer and whose send succeeds |
| `RoomRuns.TrafficStaysInRoom` | transporter/manager/roomManager/roomManager.go:233-255 | on every run with joins only by clients in no room: one role each throughout, and ADB traffic only between the two participants of one room |
| `RoomRuns.OwnersOnRun` | transporter/manager/roomManager/roomManager.go:48-62 | owners stay distinct on every run |
| `RoomDiscipline.BehavedTrafficStaysInRoom` | client/controller/guestController.go:34 | the same from what clients write: if each connection carries at most one join, and no create when it carries a join, the transporter sees only joins by clients in no room, and traffic stays in the room |
| `RoomDisconnects.GoneStaysOutExactly` | transporter/manager/roomManager/roomManager.go:52-60 | on every run from the start on which clients behave: once the disconnect of a client has been handled it is in no room, and it stays in none if and only if none of its creates and joins handled later takes effect |
| `RoomDisconnects.AllHandled` | transporter/manager/roomManager/roomManager.go:52-60 | and none does once no create and no join of the client is left in its connection, its reader or the channel |
| `RoomDisconnects.ComesBackExactly` | transporter/manager/roomManager/roomManager.go:52-60 | read off one state: a client in no room that writes no more and has no join left can get into one if and only if a create of its own is still in its connection, its reader or the channel |
| `RoomDisconnects.GoneComesBackExactly` | transporter/manager/roomManager/roomManager.go:52-60 | so for a client that behaved, after its disconnect: a room of its own can still appear if and only if such a create was there when the disconnect was handled |
| `RoomDisconnects.StaysOutExactly` | transporter/manager/roomManager/roomManager.go:52-60 | over every run from a state in which a client is in no room, it stays out if and only if none of its own creates takes effect and none of its joins takes a seat |
| `RoomDisconnects.EntersExactly` | transporter/manager/roomManager/roomManager.go:122-185 | the same for one turn |
| `RoomDisconnects.RoomOfGoneOwner` | transporter/manager/roomManager/roomManager.go:52-60 | the two channels are unsynchronised: a run to a state in which nothing has been handled, the disconnect of one client waits in its channel and that client's create in the other; taking the disconnect first and the create next leaves a room of an owner that is gone |
| `Connections.StepInv` | transporter/manager/connectionManager/connectionManager.go:143-167 | every interleaved step of any number of closing goroutines, the accept loop and the room loop keeps: a connection is registered, or in one agent's hands on its way to the channel, or announced |
| `Connections.AnnouncedOnce` | transporter/manager/connectionManager/clientConnection.go:23-27 | on every run, the protocol-mismatch path that bypasses closeOnce included: announced at most once, after its socket was closed and it left the registry; and what left the registry is announced or in exactly one agent's hands |
| `Connections.RoomInChannel` | transporter/manager/connectionManager/connectionManager.go:18 | whoever is about to announce finds room in the channel when at most ten connections are outstanding |
| `Connections.CloserNeverStuck` | transporter/manager/roomManager/roomManager.go:257-267 | with at most ten outstanding no closer is stuck, the room loop in its own closes included |
| `Connections.ElevenCanWedge` | transporter/manager/connectionManager/connectionManager.go:57 | the bound is tight: a run with eleven outstanding leaves the room loop at its own send on a full channel |
| `Connections.WedgedForever` | transporter/manager/connectionManager/connectionManager.go:166 | and nothing anyone does lets it continue |
| `ConnectionCloses.FirstClose` | transporter/manager/connectionManager/connectionManager.go:143-167 | the first close of a registered connection, with room in the channel: socket closed, out of the registry, announced once, and the Once spent |
| `ConnectionCloses.AgainClose` | transporter/manager/connectionManager/clientConnection.go:23-27 | every further close changes nothing |
| `ConnectionCloses.LateClose` | transporter/manager/connectionManager/connectionManager.go:162-165 | a first close of a connection the registry no longer holds announces nothing |
| `ConnectionCloses.DirectClose` | transporter/manager/connectionManager/connectionManager.go:143-167 | the mismatch path closes, and removes and announces a registered connection, without touching the Once |
| `ConnectionCloses.ChannelDrains` | transporter/manager/roomManager/roomManager.go:48-60 | a free room loop receives all that waits in the channel, one a turn, and leaves it empty |
| `ConnectionStalls.FinishesExactly` | transporter/manager/connectionManager/connectionManager.go:143-167 | in every reachable state in which the room loop is closing a connection that was never closed around its sync.Once, it can finish that close if and only if the disconnect channel is not full or the connection has been announced already |
| `ConnectionStalls.TurnEndsExactly` | transporter/manager/roomManager/roomManager.go:48-60 | for the whole turn: the loop can come back to its channels if and only if the disconnects waiting and the connections the turn has still to announce are together at most ten; beyond that no run brings it back |
| `ConnectionStalls.FinishesUpToTen` | transporter/manager/connectionManager/connectionManager.go:143-167 | with at most ten connections outstanding it always can, however each of them is being closed |
| `ConnectionRegistry.Registry.Register` | transporter/manager/connectionManager/connectionManager.go:137-141 | puts the connection in front, keeping the rest |
| `ConnectionRegistry.Registry.Unregister` | transporter/manager/connectionManager/connectionManager.go:149-159 | the search loop removes exactly that connection, keeps the order of the others, and reports whether it was there |
| `ConnectionRegistry.RegistryStep` | transporter/manager/connectionManager/connectionManager.go:149-159 | the registry step of module Connections is that method: same answer, same remaining set |
| `Frames.ReadAcceptsFrames` | shared/protocol/message.definition.go:82-107 | Read accepts a stream if and only if it begins with a whole message of matching length and CRC, and consumes exactly that message |
| `Frames.ParseOfFrames` | shared/protocol/message.definition.go:82-107 | repeated Read takes a concatenation of messages back apart |
| `Frames.ParseIsExact` | shared/protocol/message.definition.go:82-107 | whatever the stream, the messages parsed and the remainder make it up, and Read rejects the remainder |
| `Frames.BareCommandReadable` | client/transportLayer/client.go:251-257 | a message on which only the command was set, as SendCreateRoom and SendGuestLeft do, for every buffer: accepted if and only if the pooled buffer was left well-formed, and then carrying the previous payload; the send panics if and only if the length left behind exceeds the buffer |
| `SharedWire.WireIsInterleaving` | client/transportLayer/client.go:190-199 | at every moment of every run with any number of senders: the wire parses into the completed messages in completion order, followed at most by the part of one message being written; each sender's messages appear once and in its order; the byte counter is the sum of wire sizes |
| `SharedWire.BytesAreWireSizes` | shared/protocol/message.definition.go:43-49 | that sum is the number of bytes of the messages written |
| `SharedWire.StepInv` | client/transportLayer/client.go:190-199 | every step of every sender keeps it |
| `WireCompletion.RunsComplete` | client/transportLayer/client.go:190-199 | every run is at most five steps a message long, and it is that long if and only if no sender can go on; then the wire parses into all the messages of all the senders, each sender's in its order |
| `WireCompletion.SomeoneCanSend` | client/transportLayer/client.go:190-193 | as long as anything is left to send, somebody can go: whoever holds the mutex, or any sender with a message |
| `WireFailures.WireAfterFailure` | client/transportLayer/client.go:190-199 | on every run with a failing write: the wire is and stays the completed messages in order and then a part of the failing one, which may be all of it; each sender has sent a prefix of its messages and lost those it tried after |
| `WireFailures.StepInv` | client/transportLayer/client.go:190-199 | every step, failing or not, keeps this |
| `Payloads.PayloadRoundTrip` | shared/protocol/payload.definition.go:14-228 | for every payload type: the Get method on what Set encoded, whatever bytes follow, returns the payload cut to 32 bits, which is the payload itself if and only if its integers and lengths fit |
| `Payloads.GetExactly` | shared/protocol/payload.definition.go:14-228 | on arbitrary bytes: a Get method returns a payload if and only if that payload is of its type, fits, and its encoding stands at the start |
| `Payloads.ConnectRoomBytes` | shared/protocol/payload.definition.go:156-171 | byte for byte: room id, client id and key, each behind its length |
| `Payloads.ConnectRoomResultBytes` | shared/protocol/payload.definition.go:213-228 | byte for byte: the answer, then client id and key behind their lengths |
| `Payloads.ErrorBytes` | shared/protocol/payload.definition.go:29-40 | byte for byte: the code, then the message behind its length |
| `Payloads.ConnectBytes` | shared/protocol/payload.definition.go:60-67 | byte for byte: the version |
| `Payloads.IdBytes` | shared/protocol/payload.definition.go:85-118 | byte for byte, for both payloads of one id: the id behind its length |
| `Payloads.SentPayloadArrives` | shared/protocol/payload.definition.go:14-228 | across Write and Read, whatever follows on the wire: the receiver reads exactly this message and its Get returns the payload if and only if that fits |
| `Payloads.PlaceIsFit` | shared/protocol/payload.definition.go:250-277 | writeInt and writeString succeed exactly when the encoded field fits behind the offset, in spite of uint32 arithmetic |
| `Payloads.PlacePanics` | shared/protocol/payload.definition.go:260-277 | the one way past the check: a string whose end wraps to within the buffer, in both directions |
| `Payloads.PlaceAllIsFit` | shared/protocol/payload.definition.go:14-228 | a whole payload is written exactly when its encoding fits |
| `TransporterMessage.Message.Read` | shared/protocol/message.definition.go:82-107 | on any prior buffer: the same answer as ReadFrame; the bytes taken off the stream lie over the old ones and the rest stays, whatever the answer, so a refused or cut header is left behind |
| `TransporterMessage.Message.Write` | shared/protocol/message.definition.go:109-128 | appends exactly the message's bytes, or fails; panics exactly when a stale header promises more than the buffer holds |
| `TransporterMessage.Message.SetDirectCommand` | shared/protocol/message.definition.go:61-63 | changes the command and nothing else |
| `TransporterMessage.Message.SendBareCommand` | transporter/manager/connectionManager/clientConnection.go:267-277 | the same on the message itself: with a working connection the receiver accepts it if and only if the message was well-formed before; Write panics if and only if the length left behind exceeds the buffer |
| `TransporterMessage.Message.ReadThenBareCommand` | shared/protocol/message.definition.go:82-93 | such a length arises: after any Read the next such message panics if and only if the header left in the buffer declares more than the limit; after a whole header that is exactly a refusal for its length, after a header cut short the stream's bytes and the old ones count together |
| `TransporterMessage.CutHeaderExceedsLimit` | shared/protocol/message.definition.go:82-93 | seven bytes of a header over any message in range are enough: exactly when the three length bytes among them exceed the limit |
| `TransporterMessage.Message.SetPayload` | shared/protocol/payload.definition.go:29-228 | on any prior buffer: success leaves a well-formed message that carries exactly the encoded value; failure leaves command, length and checksum as they were |
| `TransporterMessage.Message.SetRawPayload` | shared/protocol/payload.definition.go:238-245 | refuses by the uint32 length; what it accepts leaves a well-formed message with the data up to that length, which is all of the data below 2^32 bytes |
| `TransporterMessage.Message.UpdatePayloadMetadata` | shared/protocol/payload.definition.go:312-316 | length and checksum become those of the payload bytes present |
| `TransporterMessage.Message.WriteField` | shared/protocol/payload.definition.go:250-277 | adds one field behind those already written and touches nothing before it; without space nothing changes; where a wrapped end passes the check the panic comes after the length was stored |
| `TransporterMessage.Message.GetPayload` | shared/protocol/payload.definition.go:14-228 | on a message with arbitrary bytes: the Get methods, offset by offset, return what Get reads in the bytes below PayloadLength alone, stale bytes never showing |
| `TransporterMessage.Message.ReadInt` | shared/protocol/payload.definition.go:279-287 | no offset wraps, and the new offset stays within the payload |
| `TransporterMessage.Message.ReadString` | shared/protocol/payload.definition.go:289-310 | likewise, with the declared length compared to what remains |
| `AdbMessages.ReadAcceptsAdb` | client/adb/adbMessage.go:166-191 | Read accepts a stream if and only if it begins with a message of known command, matching magic and at most MAXDATA data, and takes exactly it |
| `AdbMessages.Checksum` | client/adb/adbMessage.go:60-66 | the accumulating loop is the byte sum modulo 2^32 |
| `AdbMessages.ChecksumExact` | client/adb/adbMessage.go:60-66 | within MAXDATA the sum is never truncated |
| `AdbMessages.DecodedDataInRange` | client/adb/adbMessage.go:148-164 | the data of a decoded message is inside the buffer if and only if header plus declared length is below 2^32 |
| `AdbMessages.WrappedLengthAccepted` | client/adb/adbMessage.go:160 | a bare header declaring 2^32 - 1 bytes is accepted |
| `AdbMessages.SurvivesBothLayers` | client/transportLayer/client.go:297-306 | every ADB message, unvalidated checksum included, survives embedding, Write, Read and DecodeMessage bit for bit, and always fits |
| `AdbMessages.SetSurvives` | client/adb/adbMessage.go:217-229 | what Set built survives if and only if its command is one of the six, since Set does not look |
| `AdbMessages.MakeAdbFields` | client/adb/adbMessage.go:217-229 | a reader finds in it the command, both arguments, the length and the byte sum of the data, and the magic, each at its own place |
| `AdbMessages.CommandsSpellNames` | client/adb/adbMessage.go:23-30 | the six commands, little-endian, are the letters of their names |
| `AdbMessages.MagicComplements` | client/adb/adbMessage.go:48-54 | the magic has every bit of the command inverted |
| `AdbMessages.ByteSumConcat` | client/adb/adbMessage.go:60-66 | the byte sum of two pieces is the sum of theirs |
| `AdbBuffer.AdbMessage.Set` | client/adb/adbMessage.go:217-229 | on any prior buffer: refuses by the uint32 length and then changes nothing, otherwise command, arguments, checksum of all the data and magic are where a reader looks for them, and the data follows up to that length; exactly the message below MAXDATA |
| `AdbBuffer.AdbMessage.Read` | client/adb/adbMessage.go:166-191 | on any prior buffer: the same answer as ReadAdb, and the accepted message is what the buffer holds |
| `RelayPumps.PumpLocalToRemote` | client/relay/relay.go:49-62 | the loop over a reused message puts exactly the embedded messages on the wire until the stream yields none or a send fails |
| `RelayPumps.PumpRemoteToLocal` | client/relay/relay.go:66-105 | the loop writes exactly the ADB messages carried, up to the first write that fails and the part of it that went out |
| `RelayPumps.RelayIsTransparent` | client/relay/relay.go:49-105 | the two pumps composed as functions: the bytes of every ADB message sent by one come out of the other, in order and unchanged, ahead of whatever follows, cut only by a failing write |
| `RelayPumps.RelayStopsAtNonMessage` | client/relay/relay.go:55-57 | what is relayed is a prefix of the local stream and, while sends succeed, stops only where no ADB message begins |
| `RelayPumps.OthersSkipped` | client/relay/relay.go:87-90 | transporter messages of other kinds leave no trace |
| `PacketCapture.Ipv4Checksum` | client/pcapwriter/pcapwriter.go:147-156 | the two loops compute the complement of the folded word sum, and both end |
| `PacketCapture.FoldIsModulo` | client/pcapwriter/pcapwriter.go:152-154 | folding is reduction modulo 0xFFFF with 0xFFFF in place of 0 for a non-zero sum |
| `PacketCapture.ChecksExactly` | client/pcapwriter/pcapwriter.go:147-156 | a header's recomputed checksum is 0 if and only if its word sum is a positive multiple of 0xFFFF |
| `PacketCapture.StoredChecksumChecks` | client/pcapwriter/pcapwriter.go:126-129 | storing the checksum of a header whose field is zero makes the recomputed checksum 0 |
| `PacketCapture.Writer.BuildIPv4` | client/pcapwriter/pcapwriter.go:116-132 | the header built has its literal fields byte for byte, the next identification, both addresses and a checksum that checks |
| `PacketCapture.Writer.BuildFrame` | client/pcapwriter/pcapwriter.go:78-89 | a reader following the length fields recovers the message if and only if it has at most 65507 bytes, so always for a transporter message; addresses and ports are those of the direction, and the UDP checksum is 0, none |
| `DeviceLists.DeviceList` | client/adb/smartSocket.go:53-78 | the nested index loops answer a list exactly as Answers allows, and go out of range where a record without a tab is left |
| `DeviceLists.AnswerUnique` | client/adb/smartSocket.go:58-77 | a body has one answer |
| `DeviceLists.DeviceListRoundTrip` | client/adb/smartSocket.go:58-77 | parsing inverts printing if and only if no id has a tab and no type a newline |
| `SmartSocket.PrefixDenotesLength` | client/adb/smartSocket.go:14-14 | the prefix always denotes the length, in upper-case hex, and has four digits if and only if the length is at most 0xFFFF |
| `SmartSocket.ResponseRoundTrip` | client/adb/smartSocket.go:179-198 | a framed response is read back if and only if it has at most 0xFFFF bytes |
| `SmartSocket.LongResponseIsCut` | client/adb/smartSocket.go:138-141 | a longer one is read as at most a sixteenth of itself |
| `SmartSocket.LimitOutOfReach` | client/adb/smartSocket.go:191-193 | no four characters reach the size limit, so that branch never runs |
| `SmartSocket.ResponsePanics` | client/adb/smartSocket.go:185-194 | a negative length, which ParseInt accepts, is exactly a minus sign before three hex digits that are not all zero |
| `SmartSocket.ServiceFits` | client/relay/owner.go:157-162 | every service named by an OPEN that fits a transporter message gets a four-digit prefix and reads back as itself |
| `SmartSocket.DeviceListArrives` | client/adb/smartSocket.go:143-158 | the whole exchange: the caller sees the list the server printed if and only if it is clean and at most 0xFFFF bytes long |

## Left out

- OwnerSimulation.HandlersAreRuns: a handler is taken to run between pump actions and, but for OwnerSettling.HandlersFromAnywhere, with no pump inside closeOnce; the interleavings themselves are those of OwnerMultiplexer, on values, which therefore does not capture the aliasing of the stream objects.
- OwnerDispatch.Multiplexer.HandleOkay: the non-blocking channel send is an assignment to the flag for the token.
- PoolLocks.PoolExclusive: the lock-level system is on values; the in-place updates are those of ObjectPool, one call at a time.
- Connections.AnnouncedOnce: on values; only the registry is also a class. A read loop, Stop, a recovered panic and the room loop are all agents that may close any accepted connection at any time, which allows more than the code does.
- Connections.CloserNeverStuck: counts accepted connections that the room loop has not yet received as disconnected.
- RoomManager.Manager.DoDisconnected: each send succeeds or fails; a GuestLeft send that panics, which Frames.BareCommandReadable characterises, ends the process and is not an outcome here.
- RoomManager.Manager.Turn: a recovered panic is one raised before a handler touched the rooms; TransporterMessage.Message.GetPayload and SetPayload leave no other where strings are below 2^32 bytes.
- RelayPumps.RelayIsTransparent: only the guest runs relay.Run; at the owner's end the multiplexer reads the wire, and what it does with each message is OwnerMultiplexer.
- ConnectionStalls.TurnEndsExactly: that no connection of the turn is ever closed around its sync.Once is a hypothesis; handleProtocolMismatchError, the one caller that does so, runs during the handshake of its own connection, which the loop never closes.
- RoomRuns.RelayedInOrder: readers, channels and loop are on values; sends of the room loop succeed or fail as a whole.
- OwnerSimulation.CloseStreamRun: only where no pump is inside a teardown; OwnerSettling.HandlersFromAnywhere says how such a state is reached.
- PooledSends.OwnedUntilDisposed: each container is disposed once by its owner, as withMessage does it; UpdateCounter, which asks for more disposals, has no caller. A container that one goroutine hands to another stays with the same thread of the model.
- SharedWire.WireIsInterleaving: writes do not fail there; WireFailures has them fail, and takes it that a TLS connection sends nothing after a failed write.
- PooledSends.PooledWire: writes do not fail.
- PoolCalls.DisposeFrees: here and in the other statements about one call, nobody else acts meanwhile; every interleaving is PoolLocks.PoolExclusive. ConnectionCloses.FirstClose and PooledReuse.SendsOne likewise.
- OwnerReasons.ChunkRelayed: nobody else acts meanwhile; every interleaving is OwnerMultiplexer.DeviceToGuest.
- SmartSocket.ServiceFits: the data of the OPEN must be inside the message, which AdbMessages.DecodedDataInRange makes exact.
- TransporterMessage.Message.Write: a partial write by the connection is a failure with no statement about the bytes that went out.
- PacketCapture.Writer.BuildFrame: the pcap record header with its timestamp and the use of one writer by several goroutines are not modelled.
- The counter of received bytes and the capture calls in startReader and writeMessage.
- relay.Run's joining of its two pumps, and the cancellation of contexts throughout.
- The join prompt and the events of ownerController.go and guestController.go; that a guest joins once per connection is the hypothesis of RoomRuns.TrafficStaysInRoom.
- The second pool, of the ADB messages the owner sends, which it copies into pooled transporter messages.
- The handshake with its version exchange, and CommandReconnect, which only closes the connection.
- TLS, sockets, timeouts, key generation, configuration, logging and the user interface: no effect on what is stated here.
