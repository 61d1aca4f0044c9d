/** The multiplexer's objects and the handlers of its dispatch goroutine
    (client/relay/owner.go), updated in place and proved against functions of
    what can be seen of them. Module OwnerSimulation shows that those functions
    are runs of the transition system.

    A handler is verified between the pumps' actions: it may start in any state
    the pumps leave, and is not itself interrupted. The outcome of every send
    and device write is an input. */
module OwnerDispatch {
  import opened Bytes
  import S = OwnerStream

  // ----- what can be seen

  datatype View = View(
    ownId: u32, guestId: u32,
    permit: bool,                 // sendPermit holds its token
    done: bool,                   // done is closed
    closed: bool,                 // conn is closed
    spent: bool,                  // closeOnce has run
    written: seq<byte>,           // what conn has been given
    sent: seq<S.Message>)         // what the guest has been sent for this stream

  /** The streams in the order of their OPENs, and which of them the map holds. */
  datatype Desk = Desk(
    nextId: u32, registry: map<u32, nat>, views: seq<View>,
    refusals: seq<u32>)           // guest ids answered with CLSE(0, id)

  predicate WellFormed(d: Desk) { forall k :: k in d.registry ==> d.registry[k] < |d.views| }

  function Fresh(ownId: u32, guestId: u32): View { View(ownId, guestId, true, false, false, false, [], []) }

  // ----- what the handlers do

  function AfterClose(v: View, notify: bool, ok: bool): View {
    if v.spent then v
    else v.(done := true, closed := true, spent := true,
            sent := v.sent + if notify && ok then [S.Close(v.ownId, v.guestId)] else [])
  }

  /** The stream's own entry goes when its teardown runs. */
  function RegistryAfter(registry: map<u32, nat>, v: View): map<u32, nat> {
    if v.spent then registry else registry - {v.ownId}
  }

  function CloseOne(d: Desk, i: nat, notify: bool, ok: bool): Desk
    requires i < |d.views|
  {
    var v := d.views[i];
    d.(registry := RegistryAfter(d.registry, v), views := d.views[i := AfterClose(v, notify, ok)])
  }

  function OnOkay(d: Desk, own: u32): Desk
    requires WellFormed(d)
  {
    if own !in d.registry then d
    else
      var i := d.registry[own];
      d.(views := d.views[i := d.views[i].(permit := true)])
  }

  function OnClose(d: Desk, own: u32): Desk
    requires WellFormed(d)
  {
    if own in d.registry then CloseOne(d, d.registry[own], false, false) else d
  }

  /** How the calls made by handleWrite turn out. */
  datatype WriteLuck = WriteLuck(deviceOk: bool, written: nat, ackOk: bool, closeOk: bool)

  predicate Possible(luck: WriteLuck, data: seq<byte>) { luck.deviceOk || luck.written <= |data| }

  /** What handleWrite makes of the stream before it may call closeStream. */
  function AfterWrite(v: View, from: u32, data: seq<byte>, luck: WriteLuck): View
    requires Possible(luck, data)
  {
    var w := v.(written := v.written + if luck.deviceOk then data else data[..luck.written]);
    if luck.deviceOk && luck.ackOk then w.(sent := v.sent + [S.Okay(v.ownId, from)]) else w
  }

  function OnWrite(d: Desk, own: u32, from: u32, data: seq<byte>, luck: WriteLuck): Desk
    requires WellFormed(d) && Possible(luck, data)
  {
    if own !in d.registry then d
    else
      var i := d.registry[own];
      var w := d.(views := d.views[i := AfterWrite(d.views[i], from, data, luck)]);
      if luck.deviceOk && luck.ackOk then w else CloseOne(w, i, !luck.deviceOk, luck.closeOk)
  }

  /** The stream handleOpen creates and enters into the map. */
  function Entered(d: Desk, guest: u32): Desk {
    var id := Wrap32(d.nextId + 1);
    d.(nextId := id, registry := d.registry[id := |d.views|], views := d.views + [Fresh(id, guest)])
  }

  /** The device stream was opened, and the OKAY was sent or not. */
  function OnOpen(d: Desk, guest: u32, okaySent: bool): Desk {
    var e, n := Entered(d, guest), |d.views|;
    if okaySent then e.(views := e.views[n := e.views[n].(sent := [S.Okay(e.nextId, guest)])])
    else CloseOne(e, n, false, false)
  }

  /** No device stream could be opened. */
  function OnRefuse(d: Desk, guest: u32, closeSent: bool): Desk {
    d.(refusals := d.refusals + if closeSent then [guest] else [])
  }

  /** closeAllStreams, in the order in which it goes over the map. */
  function CloseEach(d: Desk, order: seq<nat>): (r: Desk)
    requires forall n :: 0 <= n < |order| ==> order[n] < |d.views|
    ensures |r.views| == |d.views|
  {
    if order == [] then d
    else CloseOne(CloseEach(d, order[..|order| - 1]), order[|order| - 1], false, false)
  }

  predicate Covers(d: Desk, order: seq<nat>) {
    && (forall k :: k in d.registry ==> d.registry[k] in order)
    && forall n :: 0 <= n < |order| ==> order[n] < |d.views| && order[n] in d.registry.Values
  }

  // ----- the objects

  class OwnerStreamObject {
    const ownId: u32
    const guestId: u32
    var permit: bool
    var done: bool
    var closed: bool
    var closeOnce: bool
    var written: seq<byte>
    var sent: seq<S.Message>

    constructor (ownId: u32, guestId: u32)
      ensures Seen() == Fresh(ownId, guestId)
    {
      this.ownId, this.guestId := ownId, guestId;
      permit, done, closed, closeOnce := true, false, false, false;
      written, sent := [], [];
    }

    ghost function Seen(): View
      reads this
    {
      View(ownId, guestId, permit, done, closed, closeOnce, written, sent)
    }
  }

  class Multiplexer {
    var nextId: u32
    var streams: map<u32, OwnerStreamObject>
    var refusals: seq<u32>
    ghost var all: seq<OwnerStreamObject>    // every stream ever opened
    ghost var registry: map<u32, nat>        // where in `all` the map's streams are

    ghost predicate Valid()
      reads this
    {
      && (forall i, j :: 0 <= i < j < |all| ==> all[i] != all[j])
      && streams.Keys == registry.Keys
      && forall k :: k in streams ==> registry[k] < |all| && streams[k] == all[registry[k]]
    }

    ghost function Value(): (d: Desk)
      requires Valid()
      reads this, all
      ensures WellFormed(d) && |d.views| == |all|
    {
      Desk(nextId, registry, seq(|all|, i requires 0 <= i < |all| reads this, all => all[i].Seen()), refusals)
    }

    constructor ()
      ensures Valid() && Value() == Desk(0, map[], [], [])
    {
      nextId, streams, refusals, all, registry := 0, map[], [], [], map[];
    }

    method CloseStream(stream: OwnerStreamObject, notifyGuest: bool, sendOk: bool, ghost i: nat)
      requires Valid() && i < |all| && stream == all[i]
      modifies this, stream
      ensures Valid() && all == old(all)
      ensures Value() == CloseOne(old(Value()), i, notifyGuest, sendOk)
    {
      if !stream.closeOnce {
        stream.done := true;
        stream.closed := true;
        streams, registry := streams - {stream.ownId}, registry - {stream.ownId};
        if notifyGuest && sendOk {
          stream.sent := stream.sent + [S.Close(stream.ownId, stream.guestId)];
        }
        stream.closeOnce := true;
        assert stream.Seen() == AfterClose(old(stream.Seen()), notifyGuest, sendOk);
      }
      assert Value().views == old(Value()).views[i := stream.Seen()];
    }

    method HandleOkay(own: u32)
      requires Valid()
      modifies this, all
      ensures Valid() && all == old(all)
      ensures Value() == OnOkay(old(Value()), own)
    {
      if own in streams {
        streams[own].permit := true;
      }
    }

    method HandleClose(own: u32)
      requires Valid()
      modifies this, all
      ensures Valid() && all == old(all)
      ensures Value() == OnClose(old(Value()), own)
    {
      if own in streams {
        CloseStream(streams[own], false, false, registry[own]);
      }
    }

    method HandleWrite(from: u32, own: u32, data: seq<byte>, luck: WriteLuck)
      requires Valid() && Possible(luck, data)
      modifies this, all
      ensures Valid() && all == old(all)
      ensures Value() == OnWrite(old(Value()), own, from, data, luck)
    {
      if own !in streams {
        return;
      }
      var stream := streams[own];
      ghost var i := registry[own];
      if !luck.deviceOk {
        stream.written := stream.written + data[..luck.written];
        assert Value().views == old(Value()).views[i := stream.Seen()];
        CloseStream(stream, true, luck.closeOk, i);
        return;
      }
      stream.written := stream.written + data;
      if luck.ackOk {
        stream.sent := stream.sent + [S.Okay(stream.ownId, from)];
      }
      assert Value().views == old(Value()).views[i := stream.Seen()];
      if !luck.ackOk {
        CloseStream(stream, false, luck.closeOk, i);
      }
    }

    method Enter(guest: u32) returns (stream: OwnerStreamObject)
      requires Valid()
      modifies this
      ensures Valid() && fresh(stream) && all == old(all) + [stream] && nextId == Wrap32(old(nextId) + 1)
      ensures Value() == Entered(old(Value()), guest)
    {
      nextId := Wrap32(nextId + 1);
      stream := new OwnerStreamObject(nextId, guest);
      streams, registry := streams[nextId := stream], registry[nextId := |all|];
      all := all + [stream];
      assert Value().views == old(Value()).views + [stream.Seen()];
    }

    /** handleOpen: a CLSE for own id 0 if the device stream cannot be opened, and otherwise a new stream
        with its OKAY, closed again if that cannot be sent. */
    method HandleOpen(guest: u32, connected: bool, answerSent: bool)
      requires Valid()
      modifies this
      ensures Valid() && old(all) <= all && |all| == |old(all)| + (if connected then 1 else 0)
      ensures connected ==> fresh(all[|old(all)|])
      ensures Value() ==
        if connected then OnOpen(old(Value()), guest, answerSent) else OnRefuse(old(Value()), guest, answerSent)
    {
      if !connected {
        if answerSent {
          refusals := refusals + [guest];
        }
        return;
      }
      var stream := Enter(guest);
      ghost var n := |all| - 1;
      if answerSent {
        stream.sent := [S.Okay(nextId, guest)];
        assert Value().views == Entered(old(Value()), guest).views[n := stream.Seen()];
      } else {
        CloseStream(stream, false, false, n);
      }
    }

    method CloseAllStreams() returns (ghost order: seq<nat>)
      requires Valid()
      modifies this, all
      ensures Valid() && all == old(all)
      ensures Covers(old(Value()), order) && Value() == CloseEach(old(Value()), order)
    {
      var snapshot: seq<OwnerStreamObject>;
      snapshot, order := Snapshot();
      var n := 0;
      while n < |snapshot|
        invariant n <= |snapshot| && Valid() && all == old(all)
        invariant Value() == CloseEach(old(Value()), order[..n])
      {
        CloseStream(snapshot[n], false, false, order[n]);
        assert order[..n + 1][..n] == order[..n];
        n := n + 1;
      }
      assert order[..n] == order;
    }

    /** The values of the map, in an order of its own. */
    method Snapshot() returns (list: seq<OwnerStreamObject>, ghost order: seq<nat>)
      requires Valid()
      ensures Covers(Value(), order) && |list| == |order|
      ensures forall n :: 0 <= n < |order| ==> order[n] < |all| && list[n] == all[order[n]]
    {
      list, order := [], [];
      var rest := streams.Keys;
      while rest != {}
        invariant rest <= streams.Keys && |list| == |order|
        invariant forall k :: k in registry && k !in rest ==> registry[k] in order
        invariant forall n :: 0 <= n < |order| ==>
          order[n] < |all| && list[n] == all[order[n]] && order[n] in registry.Values
        decreases rest
      {
        var k :| k in rest;
        list, order := list + [streams[k]], order + [registry[k]];
        rest := rest - {k};
      }
    }
  }
}
