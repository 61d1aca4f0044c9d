/** What one close of a client connection achieves when nobody stands in its way,
    and that the room loop empties the channel
    (transporter/manager/connectionManager/clientConnection.go and
    connectionManager.go). */
module ConnectionCloses {
  import opened Connections

  lemma {:induction false} Further(s: State, xs: seq<Action>, mid: State, x: Action)
      returns (more: seq<Action>, last: State)
    requires Leads(s, xs, mid) && Enabled(mid, x)
    ensures more == xs + [x] && last == Step(mid, x) && Leads(s, more, last)
    decreases |xs|
  {
    more, last := xs + [x], Step(mid, x);
    if xs == [] {
      assert more[1..] == [];
    } else {
      var rest, end := Further(Step(s, xs[0]), xs[1..], mid, x);
      assert more[1..] == rest;
    }
  }

  /** A call of CloseClient by agent a and n steps of it. */
  function Closing(a: nat, c: Conn, n: nat): seq<Action> { [CallClose(a, c)] + Going(a, n) }
  function Going(a: nat, n: nat): seq<Action> { seq(n, _ => Go(a)) }

  predicate CanCall(s: State, a: nat, c: Conn) { Inv(s) && Enabled(s, CallClose(a, c)) && a != LOOP }

  lemma Relocked(held: map<Conn, nat>, c: Conn, a: nat)
    requires c !in held
    ensures held[c := a] - {c} == held
  {
  }

  lemma BackToIdle(agents: seq<Pc>, a: nat, pc: Pc)
    requires a < |agents| && agents[a].Idle?
    ensures agents[a := pc][a := Idle] == agents
  {
  }

  /** The call, the Once and the socket. */
  lemma SocketCloses(s: State, a: nat, c: Conn) returns (xs: seq<Action>, mid: State)
    requires CanCall(s, a, c) && c !in s.held && c !in s.spent
    ensures xs == Closing(a, c, 2) && Leads(s, xs, mid)
    ensures mid == s.(sockets := s.sockets + {c}, held := s.held[c := a], agents := s.agents[a := AtRegistry(c, true)])
  {
    xs, mid := Further(s, [], s, CallClose(a, c));
    xs, mid := Further(s, xs, mid, Go(a));
    xs, mid := Further(s, xs, mid, Go(a));
    assert xs == Closing(a, c, 2);
  }

  /** The first close of a connection closes its socket, takes it from the registry and announces it. */
  lemma FirstClose(s: State, a: nat, c: Conn) returns (last: State)
    requires CanCall(s, a, c) && c !in s.held && c !in s.spent
    requires c in s.registered && |Queue(s)| < CONNECTION_POOL_SIZE
    ensures Leads(s, Closing(a, c, 4), last)
    ensures last == s.(sockets := s.sockets + {c}, registered := s.registered - {c}, spent := s.spent + {c},
                       announced := s.announced + [c])
  {
    var xs;
    Relocked(s.held, c, a);
    xs, last := SocketCloses(s, a, c);
    assert Queue(last) == Queue(s);
    xs, last := Further(s, xs, last, Go(a));
    assert Queue(last) == Queue(s);
    xs, last := Further(s, xs, last, Go(a));
    assert xs == Closing(a, c, 4);
    BackToIdle(s.agents, a, AtRegistry(c, true));
  }

  /** If the registry no longer holds it, because the mismatch path has taken it out, only the socket is closed. */
  lemma LateClose(s: State, a: nat, c: Conn) returns (last: State)
    requires CanCall(s, a, c) && c !in s.held && c !in s.spent && c !in s.registered
    ensures Leads(s, Closing(a, c, 3), last)
    ensures last == s.(sockets := s.sockets + {c}, spent := s.spent + {c})
  {
    var xs;
    Relocked(s.held, c, a);
    xs, last := SocketCloses(s, a, c);
    xs, last := Further(s, xs, last, Go(a));
    assert xs == Closing(a, c, 3);
    BackToIdle(s.agents, a, AtRegistry(c, true));
  }

  /** Every further close does nothing. */
  lemma AgainClose(s: State, a: nat, c: Conn) returns (last: State)
    requires CanCall(s, a, c) && c in s.spent
    ensures Leads(s, Closing(a, c, 1), last) && last == s
  {
    var xs;
    xs, last := Further(s, [], s, CallClose(a, c));
    xs, last := Further(s, xs, last, Go(a));
    assert xs == Closing(a, c, 1);
    BackToIdle(s.agents, a, AtOnce(c));
  }

  /** The mismatch path closes the socket, and removes and announces a registered connection, without the Once. */
  lemma DirectClose(s: State, a: nat, c: Conn) returns (last: State)
    requires Inv(s) && Enabled(s, CallDirect(a, c)) && (c in s.registered ==> |Queue(s)| < CONNECTION_POOL_SIZE)
    ensures Leads(s, [CallDirect(a, c)] + Going(a, if c in s.registered then 3 else 2), last)
    ensures last == s.(sockets := s.sockets + {c}, registered := s.registered - {c},
                       announced := if c in s.registered then s.announced + [c] else s.announced)
  {
    var xs;
    xs, last := Further(s, [], s, CallDirect(a, c));
    xs, last := Further(s, xs, last, Go(a));
    xs, last := Further(s, xs, last, Go(a));
    if c in s.registered {
      assert Queue(last) == Queue(s);
      xs, last := Further(s, xs, last, Go(a));
      assert xs == [CallDirect(a, c)] + Going(a, 3);
    } else {
      assert xs == [CallDirect(a, c)] + Going(a, 2);
    }
    BackToIdle(s.agents, a, AtSocket(c, false));
  }

  function Receives(n: nat): seq<Action> { seq(n, _ => LoopDisconnect([])) }

  /** A free room loop receives everything that waits in the channel, one a turn, in the order it was announced,
      and nothing is announced anew by that. */
  lemma {:induction false} ChannelDrains(s: State) returns (last: State)
    requires Inv(s) && LoopFree(s)
    ensures Leads(s, Receives(|Queue(s)|), last)
    ensures last == s.(drained := |s.announced|) && Queue(last) == []
    decreases |Queue(s)|
  {
    if Queue(s) == [] {
      last := s;
    } else {
      var next := Step(s, LoopDisconnect([]));
      StepInv(s, LoopDisconnect([]));
      assert Queue(next) == Queue(s)[1..];
      last := ChannelDrains(next);
      assert Receives(|Queue(s)|)[1..] == Receives(|Queue(next)|);
    }
  }
}
