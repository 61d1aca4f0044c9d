/** How the transporter takes a client connection down
    (transporter/manager/connectionManager/clientConnection.go and
    connectionManager.go).

    Any number of goroutines may be closing any connections at once: read
    loops, recovered panics, Stop, the room loop, and the protocol-mismatch path
    that calls internalCloseClient without going through the sync.Once. Agent 0
    is the room loop, the only reader of the disconnect channel. */
module Connections {

  const CONNECTION_POOL_SIZE := 10
  const LOOP := 0

  type Conn = nat

  /** `once` tells whether the agent got here through closeOnce. */
  datatype Pc =
    | Idle
    | AtOnce(c: Conn)
    | AtSocket(c: Conn, once: bool)     // before connection.Close()
    | AtRegistry(c: Conn, once: bool)   // before cm.mutex.Lock()
    | AtChannel(c: Conn, once: bool)    // found and removed; before the channel send

  datatype State = State(
    accepted: seq<Conn>,
    registered: set<Conn>,
    sockets: set<Conn>,                 // sockets closed
    held: map<Conn, nat>,               // sync.Once being run, and by whom
    spent: set<Conn>,                   // sync.Once done
    announced: seq<Conn>,               // everything ever sent on ClientDisconnectedChannel
    drained: nat,                       // how many of those the room loop has received
    todo: seq<Conn>,                    // connections the room loop's current turn still has to close
    agents: seq<Pc>)

  function Start(agents: nat): State
    requires agents > 0
  {
    State([], {}, {}, map[], {}, [], 0, [], seq(agents, _ => Idle))
  }

  datatype Action =
    | Accept(c: Conn)
    | CallClose(a: nat, c: Conn)
    | CallDirect(a: nat, c: Conn)
    | Go(a: nat)
    | LoopDisconnect(closes: seq<Conn>)   // the loop receives a disconnect; its turn will close these
    | LoopMessage(closes: seq<Conn>)

  function Queue(s: State): seq<Conn>
    requires s.drained <= |s.announced|
  {
    s.announced[s.drained..]
  }

  predicate AllAccepted(s: State, cs: seq<Conn>) {
    forall i :: 0 <= i < |cs| ==> cs[i] in s.accepted
  }

  predicate CanGo(s: State, pc: Pc) {
    match pc
    case Idle => false
    case AtOnce(c) => c !in s.held
    case AtChannel(_, _) => s.drained <= |s.announced| && |Queue(s)| < CONNECTION_POOL_SIZE
    case _ => true
  }

  predicate LoopFree(s: State) { |s.agents| > 0 && s.agents[LOOP].Idle? && s.todo == [] }

  predicate Enabled(s: State, x: Action) {
    match x
    case Accept(c) => c !in s.accepted
    case CallClose(a, c) =>
      a < |s.agents| && s.agents[a].Idle? && c in s.accepted && (a == LOOP ==> s.todo != [] && s.todo[0] == c)
    case CallDirect(a, c) => 0 < a < |s.agents| && s.agents[a].Idle? && c in s.accepted
    case Go(a) => a < |s.agents| && CanGo(s, s.agents[a])
    case LoopDisconnect(closes) => LoopFree(s) && s.drained < |s.announced| && AllAccepted(s, closes)
    case LoopMessage(closes) => LoopFree(s) && AllAccepted(s, closes)
  }

  /** Return from internalCloseClient, and from the sync.Once if it was entered that way. */
  function Finish(s: State, a: nat, c: Conn, once: bool): State
    requires a < |s.agents|
  {
    var idle := s.(agents := s.agents[a := Idle]);
    if once then idle.(held := s.held - {c}, spent := s.spent + {c}) else idle
  }

  function Step(s: State, x: Action): State
    requires Enabled(s, x)
  {
    match x
    case Accept(c) => s.(accepted := s.accepted + [c], registered := s.registered + {c})
    case CallClose(a, c) =>
      s.(agents := s.agents[a := AtOnce(c)], todo := if a == LOOP then s.todo[1..] else s.todo)
    case CallDirect(a, c) => s.(agents := s.agents[a := AtSocket(c, false)])
    case LoopDisconnect(closes) => s.(drained := s.drained + 1, todo := closes)
    case LoopMessage(closes) => s.(todo := closes)
    case Go(a) =>
      match s.agents[a]
      case AtOnce(c) =>
        if c in s.spent then s.(agents := s.agents[a := Idle])
        else s.(held := s.held[c := a], agents := s.agents[a := AtSocket(c, true)])
      case AtSocket(c, once) => s.(sockets := s.sockets + {c}, agents := s.agents[a := AtRegistry(c, once)])
      case AtRegistry(c, once) =>
        if c in s.registered
        then s.(registered := s.registered - {c}, agents := s.agents[a := AtChannel(c, once)])
        else Finish(s, a, c, once)
      case AtChannel(c, once) => Finish(s.(announced := s.announced + [c]), a, c, once)
  }

  // ----- the invariant

  predicate Distinct(cs: seq<Conn>) { forall i, j :: 0 <= i < j < |cs| ==> cs[i] != cs[j] }

  predicate Announcing(s: State, c: Conn) {
    exists a :: 0 <= a < |s.agents| && s.agents[a].AtChannel? && s.agents[a].c == c
  }

  /** A connection is registered, or one agent is about to announce it, or it was announced. */
  predicate Conserved(s: State) {
    && (forall c :: c in s.accepted ==> c in s.registered || c in s.announced || Announcing(s, c))
    && (forall c :: c in s.registered ==> c in s.accepted && c !in s.announced)
    && (forall a :: 0 <= a < |s.agents| && s.agents[a].AtChannel? ==>
          s.agents[a].c in s.accepted && s.agents[a].c !in s.registered && s.agents[a].c !in s.announced)
    && forall a, b :: 0 <= a < b < |s.agents| && s.agents[a].AtChannel? && s.agents[b].AtChannel? ==>
         s.agents[a].c != s.agents[b].c
  }

  predicate Orderly(s: State) {
    && |s.agents| > 0
    && Distinct(s.accepted) && Distinct(s.announced)
    && s.drained <= |s.announced| && |Queue(s)| <= CONNECTION_POOL_SIZE
    && (forall i :: 0 <= i < |s.announced| ==> s.announced[i] in s.accepted && s.announced[i] in s.sockets)
    && (forall a :: 0 <= a < |s.agents| && !s.agents[a].Idle? ==> s.agents[a].c in s.accepted)
    && (forall a :: 0 <= a < |s.agents| && (s.agents[a].AtRegistry? || s.agents[a].AtChannel?) ==>
          s.agents[a].c in s.sockets)
    && AllAccepted(s, s.todo)
  }

  predicate InOnce(pc: Pc) { (pc.AtSocket? || pc.AtRegistry? || pc.AtChannel?) && pc.once }

  /** A held Once is being run by the agent recorded. */
  predicate OnceExact(s: State) {
    && (forall c :: c in s.held ==>
          && s.held[c] < |s.agents| && InOnce(s.agents[s.held[c]]) && s.agents[s.held[c]].c == c
          && c !in s.spent)
    && forall a :: 0 <= a < |s.agents| && InOnce(s.agents[a]) ==>
         s.agents[a].c in s.held && s.held[s.agents[a].c] == a
  }

  predicate Inv(s: State) { Conserved(s) && Orderly(s) && OnceExact(s) }

  predicate Handover(pc: Pc) { pc.AtRegistry? || pc.AtChannel? }

  lemma ConservedHandover(s: State, a: nat)
    requires Conserved(s) && Orderly(s) && Enabled(s, Go(a)) && Handover(s.agents[a])
    ensures Conserved(Step(s, Go(a)))
  {
    var next := Step(s, Go(a));
    forall c | c in next.accepted
      ensures c in next.registered || c in next.announced || Announcing(next, c)
    {
      if Announcing(s, c) {
        var b :| 0 <= b < |s.agents| && s.agents[b].AtChannel? && s.agents[b].c == c;
        assert b != a ==> next.agents[b] == s.agents[b];
      } else if c in s.registered && c !in next.registered {
        assert next.agents[a].AtChannel?;
      }
    }
  }

  lemma ConservedStep(s: State, x: Action)
    requires Conserved(s) && Orderly(s) && Enabled(s, x)
    ensures Conserved(Step(s, x))
  {
    if x.Go? && Handover(s.agents[x.a]) {
      ConservedHandover(s, x.a);
    } else {
      var next := Step(s, x);
      forall c | c in s.accepted && Announcing(s, c)
        ensures Announcing(next, c)
      {
        var b :| 0 <= b < |s.agents| && s.agents[b].AtChannel? && s.agents[b].c == c;
        assert next.agents[b] == s.agents[b];
      }
    }
  }

  lemma OrderlyHandover(s: State, a: nat)
    requires Conserved(s) && Orderly(s) && Enabled(s, Go(a)) && Handover(s.agents[a])
    ensures Orderly(Step(s, Go(a)))
  {
  }

  lemma OrderlyStep(s: State, x: Action)
    requires Conserved(s) && Orderly(s) && Enabled(s, x)
    ensures Orderly(Step(s, x))
  {
    if x.Go? && Handover(s.agents[x.a]) {
      OrderlyHandover(s, x.a);
    }
  }

  /** Agent a moves on to `pc`, taking a free Once or giving back the one it ran. */
  lemma OncePassed(s: State, next: State, a: nat, pc: Pc)
    requires OnceExact(s) && a < |s.agents| && next.agents == s.agents[a := pc]
    requires var dropped := if InOnce(s.agents[a]) then s.held - {s.agents[a].c} else s.held;
      next.held == if InOnce(pc) then dropped[pc.c := a] else dropped
    requires InOnce(pc) ==> (pc.c !in s.held || s.held[pc.c] == a) && pc.c !in next.spent
    requires s.spent <= next.spent && forall c :: c in next.spent && c in next.held ==> c in s.spent
    ensures OnceExact(next)
  {
  }

  lemma OnceStep(s: State, x: Action)
    requires OnceExact(s) && Enabled(s, x)
    ensures OnceExact(Step(s, x))
  {
    if x.Go? || x.CallClose? || x.CallDirect? {
      var next := Step(s, x);
      if InOnce(s.agents[x.a]) {
        var c := s.agents[x.a].c;
        assert s.held == (s.held - {c})[c := x.a];
      }
      OncePassed(s, next, x.a, next.agents[x.a]);
    }
  }

  lemma StepInv(s: State, x: Action)
    requires Inv(s) && Enabled(s, x)
    ensures Inv(Step(s, x))
  {
    ConservedStep(s, x);
    OrderlyStep(s, x);
    OnceStep(s, x);
  }

  // ----- runs

  predicate Leads(s: State, xs: seq<Action>, last: State)
    decreases |xs|
  {
    if xs == [] then last == s
    else Enabled(s, xs[0]) && Leads(Step(s, xs[0]), xs[1..], last)
  }

  ghost predicate Reachable(s: State) { exists n: nat, xs :: n > 0 && Leads(Start(n), xs, s) }

  lemma {:induction false} RunKeepsInv(s: State, xs: seq<Action>, last: State)
    requires Inv(s) && Leads(s, xs, last)
    ensures Inv(last) && s.announced <= last.announced
    decreases |xs|
  {
    if xs != [] {
      StepInv(s, xs[0]);
      RunKeepsInv(Step(s, xs[0]), xs[1..], last);
    }
  }

  lemma ReachableInv(s: State)
    requires Reachable(s)
    ensures Inv(s)
  {
    var n: nat, xs :| n > 0 && Leads(Start(n), xs, s);
    RunKeepsInv(Start(n), xs, s);
  }

  /** Over every interleaving of every close path a connection is announced at most once, after its
      socket was closed and after it left the registry; and one that left the registry has been
      announced or is held by exactly one agent that will announce it. */
  lemma AnnouncedOnce(s: State)
    requires Reachable(s)
    ensures forall i, j :: 0 <= i < j < |s.announced| ==> s.announced[i] != s.announced[j]
    ensures forall c :: c in s.announced ==> c in s.sockets && c !in s.registered
    ensures forall c :: c in s.accepted && c !in s.registered ==> c in s.announced || Announcing(s, c)
    ensures forall c :: Announcing(s, c) ==> c !in s.announced && c !in s.registered
    ensures forall a, b ::
      (&& 0 <= a < |s.agents| && 0 <= b < |s.agents| && s.agents[a].AtChannel? && s.agents[b].AtChannel?
       && s.agents[a].c == s.agents[b].c) ==> a == b
  {
    ReachableInv(s);
  }

  // ----- the room loop and the channel only it drains

  function Elements(cs: seq<Conn>): set<Conn> { set c | c in cs }

  lemma {:induction false} DistinctSize(cs: seq<Conn>)
    requires Distinct(cs)
    ensures |Elements(cs)| == |cs|
  {
    if cs != [] {
      var init, last := cs[..|cs| - 1], cs[|cs| - 1];
      DistinctSize(init);
      assert Elements(cs) == Elements(init) + {last};
      assert last !in Elements(init);
    }
  }

  /** Connections registered, being removed, or announced and not yet received by the room loop. */
  function Outstanding(s: State): int { |s.accepted| - s.drained }

  /** Whoever is about to announce finds room in the channel, if at most ten are outstanding. */
  lemma RoomInChannel(s: State, a: nat)
    requires Inv(s) && a < |s.agents| && s.agents[a].AtChannel?
    ensures |Queue(s)| < Outstanding(s)
    ensures Outstanding(s) <= CONNECTION_POOL_SIZE ==> Enabled(s, Go(a))
  {
    var c := s.agents[a].c;
    DistinctSize(s.accepted);
    DistinctSize(s.announced);
    assert Elements(s.announced) <= Elements(s.accepted) - {c};
    assert |Elements(s.announced)| <= |Elements(s.accepted) - {c}| by {
      SubsetSize(Elements(s.announced), Elements(s.accepted) - {c});
    }
  }

  lemma {:induction false} SubsetSize(a: set<Conn>, b: set<Conn>)
    requires a <= b
    ensures |a| <= |b|
  {
    if a != {} {
      var x :| x in a;
      SubsetSize(a - {x}, b - {x});
    }
  }

  /** With at most ten connections outstanding no closing agent is stuck: it can go on, or waits for
      a sync.Once whose runner can. That the room loop can then finish its own closes is
      ConnectionStalls.FinishesUpToTen. */
  lemma CloserNeverStuck(s: State, a: nat)
    requires Reachable(s) && Outstanding(s) <= CONNECTION_POOL_SIZE
    requires a < |s.agents| && !s.agents[a].Idle?
    ensures Enabled(s, Go(a)) ||
      (s.agents[a].AtOnce? && s.agents[a].c in s.held && Enabled(s, Go(s.held[s.agents[a].c])))
  {
    ReachableInv(s);
    var pc := s.agents[a];
    if pc.AtChannel? {
      RoomInChannel(s, a);
    } else if pc.AtOnce? && pc.c in s.held {
      var b := s.held[pc.c];
      if s.agents[b].AtChannel? {
        RoomInChannel(s, b);
      }
    }
  }

  // ----- eleven outstanding connections can stop the room loop for good

  function Ids(n: nat): seq<Conn> { seq(n, i => i) }

  function Span(lo: nat, hi: nat): (r: set<Conn>)
    ensures forall c :: c in r <==> lo <= c < hi
  {
    if hi <= lo then {} else Span(lo, hi - 1) + {hi - 1}
  }

  /** The first k of eleven connections were closed by agent 1 and wait in the channel. */
  function Filled(k: nat): State {
    State(Ids(11), Span(k, 11), Span(0, k), map[], Span(0, k),
      Ids(k), 0, [], [Idle, Idle])
  }

  /** The room loop's turn is closing connection 10 and has come to the channel send. */
  function Wedged(): State {
    Filled(10).(registered := {}, sockets := Span(0, 11), held := map[10 := LOOP],
      agents := [AtChannel(10, true), Idle])
  }

  lemma {:induction false} LeadsSnoc(s: State, xs: seq<Action>, mid: State, x: Action)
    requires Leads(s, xs, mid) && Enabled(mid, x)
    ensures Leads(s, xs + [x], Step(mid, x))
    decreases |xs|
  {
    if xs == [] {
      assert ([x])[1..] == [];
    } else {
      LeadsSnoc(Step(s, xs[0]), xs[1..], mid, x);
      assert (xs + [x])[1..] == xs[1..] + [x];
    }
  }

  lemma Further(s: State, xs: seq<Action>, mid: State, x: Action) returns (more: seq<Action>, last: State)
    requires Leads(s, xs, mid) && Enabled(mid, x)
    ensures more == xs + [x] && last == Step(mid, x) && Leads(s, more, last)
  {
    more, last := xs + [x], Step(mid, x);
    LeadsSnoc(s, xs, mid, x);
  }

  lemma AcceptEleven(n: nat) returns (xs: seq<Action>, last: State)
    requires n <= 11
    ensures Leads(Start(2), xs, last)
    ensures last == Start(2).(accepted := Ids(n), registered := Span(0, n))
  {
    if n == 0 {
      xs, last := [], Start(2);
    } else {
      xs, last := AcceptEleven(n - 1);
      xs, last := Further(Start(2), xs, last, Accept(n - 1));
    }
  }

  /** One complete close through closeOnce. */
  lemma CloseNext(xs: seq<Action>, k: nat) returns (more: seq<Action>)
    requires k < 10 && Leads(Start(2), xs, Filled(k))
    ensures Leads(Start(2), more, Filled(k + 1))
  {
    var last := Filled(k);
    assert last.accepted[k] == k;
    more, last := Further(Start(2), xs, last, CallClose(1, k));
    more, last := Further(Start(2), more, last, Go(1));
    more, last := Further(Start(2), more, last, Go(1));
    more, last := Further(Start(2), more, last, Go(1));
    more, last := Further(Start(2), more, last, Go(1));
    assert last == Filled(k + 1);
  }

  lemma FillChannel(k: nat) returns (xs: seq<Action>)
    requires k <= 10
    ensures Leads(Start(2), xs, Filled(k))
  {
    if k == 0 {
      var last;
      xs, last := AcceptEleven(11);
      assert last == Filled(0);
    } else {
      xs := FillChannel(k - 1);
      xs := CloseNext(xs, k - 1);
    }
  }

  lemma WedgeReached() returns (xs: seq<Action>)
    ensures Leads(Start(2), xs, Wedged())
  {
    xs := FillChannel(10);
    var last := Filled(10);
    assert last.accepted[10] == 10;
    xs, last := Further(Start(2), xs, last, LoopMessage([10]));
    xs, last := Further(Start(2), xs, last, CallClose(LOOP, 10));
    xs, last := Further(Start(2), xs, last, Go(LOOP));
    xs, last := Further(Start(2), xs, last, Go(LOOP));
    xs, last := Further(Start(2), xs, last, Go(LOOP));
    assert last == Wedged();
  }

  /** The room loop is stopped at its own channel send and the channel is full. */
  predicate LoopWedged(s: State) {
    |s.agents| > 0 && s.agents[LOOP].AtChannel? && s.drained <= |s.announced| && |Queue(s)| == CONNECTION_POOL_SIZE
  }

  /** Nothing anyone does ever lets it continue. */
  lemma {:induction false} WedgedForever(s: State, xs: seq<Action>, last: State)
    requires LoopWedged(s) && Leads(s, xs, last)
    ensures LoopWedged(last) && last.agents[LOOP] == s.agents[LOOP] && last.announced == s.announced
    ensures !Enabled(last, Go(LOOP))
    decreases |xs|
  {
    if xs != [] {
      WedgedForever(Step(s, xs[0]), xs[1..], last);
    }
  }

  /** The bound is tight: with eleven connections outstanding a run ends in such a state. */
  lemma ElevenCanWedge()
    ensures exists s :: Reachable(s) && Outstanding(s) == CONNECTION_POOL_SIZE + 1 && LoopWedged(s)
  {
    var xs := WedgeReached();
    assert Reachable(Wedged());
  }
}
