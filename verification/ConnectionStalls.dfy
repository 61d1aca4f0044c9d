/** When the room loop can finish the closes of its turn, and so come back to the
    channels only it drains (transporter/manager/roomManager/roomManager.go and
    transporter/manager/connectionManager/connectionManager.go).

    Only a connection's own goroutine calls internalCloseClient without its
    sync.Once, and only while it rejects the handshake. The room loop closes
    connections that are past it, so no such call is ever made on those. */
module ConnectionStalls {
  import opened Connections

  predicate ChannelFull(s: State) { s.drained <= |s.announced| && |Queue(s)| == CONNECTION_POOL_SIZE }

  /** None of these connections is closed around its sync.Once. */
  predicate NoDirect(xs: seq<Action>, cs: set<Conn>) {
    forall i :: 0 <= i < |xs| && xs[i].CallDirect? ==> xs[i].c !in cs
  }

  predicate Inside(pc: Pc) { pc.AtSocket? || pc.AtRegistry? || pc.AtChannel? }

  /** The connection has only been closed through its Once, so the Once is spent when it is announced. */
  predicate Through(s: State, c: Conn) {
    && (forall a :: 0 <= a < |s.agents| && Inside(s.agents[a]) && s.agents[a].c == c ==> s.agents[a].once)
    && (c in s.spent <==> c in s.announced)
  }

  /** The runner of the Once finds the connection registered, or it has been announced. */
  lemma RunnerFinds(s: State, a: nat)
    requires Inv(s) && a < |s.agents| && s.agents[a].AtRegistry? && s.agents[a].once && Through(s, s.agents[a].c)
    ensures s.agents[a].c in s.registered
  {
    var c := s.agents[a].c;
    if Announcing(s, c) {
      var b :| 0 <= b < |s.agents| && s.agents[b].AtChannel? && s.agents[b].c == c;
      assert InOnce(s.agents[a]) && InOnce(s.agents[b]);
    }
    assert InOnce(s.agents[a]);
  }

  lemma ThroughStep(s: State, x: Action, c: Conn)
    requires Inv(s) && Through(s, c) && Enabled(s, x) && (x.CallDirect? ==> x.c != c)
    ensures Through(Step(s, x), c)
  {
    if x.Go? && s.agents[x.a].AtRegistry? && s.agents[x.a].c == c {
      RunnerFinds(s, x.a);
    }
  }

  lemma {:induction false} ThroughRun(s: State, xs: seq<Action>, last: State, c: Conn)
    requires Inv(s) && Through(s, c) && Leads(s, xs, last) && NoDirect(xs, {c})
    ensures Inv(last) && Through(last, c)
    decreases |xs|
  {
    if xs != [] {
      ThroughStep(s, xs[0], c);
      StepInv(s, xs[0]);
      ThroughRun(Step(s, xs[0]), xs[1..], last, c);
    }
  }

  lemma ThroughFromStart(n: nat, xs: seq<Action>, s: State, c: Conn)
    requires n > 0 && Leads(Start(n), xs, s) && NoDirect(xs, {c})
    ensures Inv(s) && Through(s, c)
  {
    ThroughRun(Start(n), xs, s, c);
  }

  // ----- what agents can finish on their own

  predicate NoneDirect(xs: seq<Action>) { forall i :: 0 <= i < |xs| ==> !xs[i].CallDirect? }

  predicate OnlyGo(xs: seq<Action>) { forall i :: 0 <= i < |xs| ==> xs[i].Go? }

  lemma Ahead(s: State, a: nat, xs: seq<Action>, last: State)
    requires Enabled(s, Go(a)) && Leads(Step(s, Go(a)), xs, last)
    ensures Leads(s, [Go(a)] + xs, last)
  {
    assert ([Go(a)] + xs)[1..] == xs;
  }

  lemma {:induction false} RunsJoin(s: State, xs: seq<Action>, mid: State, ys: seq<Action>, last: State)
    requires Leads(s, xs, mid) && Leads(mid, ys, last)
    ensures Leads(s, xs + ys, last)
    decreases |xs|
  {
    if xs == [] {
      assert xs + ys == ys;
    } else {
      RunsJoin(Step(s, xs[0]), xs[1..], mid, ys, last);
      assert (xs + ys)[1..] == xs[1..] + ys;
    }
  }

  /** At most one connection was announced, and the loop received nothing. */
  predicate Announced(s: State, last: State, c: Conn) {
    && (last.announced == s.announced || last.announced == s.announced + [c])
    && last.drained == s.drained && last.accepted == s.accepted && last.todo == s.todo
  }

  /** Agent b has returned from internalCloseClient, and from the Once if it was in it. */
  predicate Returned(s: State, last: State, b: nat)
    requires b < |s.agents| && Inside(s.agents[b])
  {
    && last.agents == s.agents[b := Idle] && Announced(s, last, s.agents[b].c)
    && (s.agents[b].once ==> s.agents[b].c !in last.held && s.agents[b].c in last.spent)
  }

  /** Whoever comes to the channel now finds room in it. */
  predicate Room(s: State) { !ChannelFull(s) || Outstanding(s) <= CONNECTION_POOL_SIZE }

  lemma ChannelOpen(s: State, b: nat)
    requires Inv(s) && Room(s) && b < |s.agents| && s.agents[b].AtChannel?
    ensures Enabled(s, Go(b))
  {
    if Outstanding(s) <= CONNECTION_POOL_SIZE {
      RoomInChannel(s, b);
    }
  }

  lemma ReturnsNow(s: State, b: nat) returns (xs: seq<Action>, last: State)
    requires Inv(s) && Room(s) && b < |s.agents|
    requires s.agents[b].AtChannel? || (s.agents[b].AtRegistry? && s.agents[b].c !in s.registered)
    ensures Leads(s, xs, last) && OnlyGo(xs) && Returned(s, last, b)
  {
    if s.agents[b].AtChannel? {
      ChannelOpen(s, b);
    }
    xs, last := [Go(b)] + [], Step(s, Go(b));
    Ahead(s, b, [], last);
  }

  /** With room in the channel an agent inside internalCloseClient can finish by itself. */
  lemma {:induction false} Completes(s: State, b: nat) returns (xs: seq<Action>, last: State)
    requires Inv(s) && Room(s) && b < |s.agents| && Inside(s.agents[b])
    ensures Leads(s, xs, last) && OnlyGo(xs) && Returned(s, last, b)
    decreases if s.agents[b].AtSocket? then 2 else if s.agents[b].AtRegistry? then 1 else 0
  {
    if s.agents[b].AtSocket? || (s.agents[b].AtRegistry? && s.agents[b].c in s.registered) {
      var next := Step(s, Go(b));
      StepInv(s, Go(b));
      xs, last := Completes(next, b);
      Ahead(s, b, xs, last);
      assert last.agents == s.agents[b := Idle];
      xs := [Go(b)] + xs;
    } else {
      xs, last := ReturnsNow(s, b);
    }
  }

  /** The loop has finished the close it was in. */
  predicate LoopReturned(s: State, last: State)
    requires |s.agents| > 0 && !s.agents[LOOP].Idle?
  {
    |last.agents| > 0 && last.agents[LOOP].Idle? && Announced(s, last, s.agents[LOOP].c)
  }

  lemma LoopSkips(s: State) returns (xs: seq<Action>, last: State)
    requires Inv(s) && s.agents[LOOP].AtOnce? && s.agents[LOOP].c in s.spent
    ensures Leads(s, xs, last) && OnlyGo(xs) && LoopReturned(s, last) && last.announced == s.announced
  {
    xs, last := [Go(LOOP)] + [], Step(s, Go(LOOP));
    Ahead(s, LOOP, [], last);
  }

  /** The runner of the Once that the loop waits for returns, then the loop. */
  lemma LoopFollows(s: State) returns (xs: seq<Action>, last: State)
    requires Inv(s) && Room(s) && s.agents[LOOP].AtOnce? && s.agents[LOOP].c in s.held
    ensures Leads(s, xs, last) && OnlyGo(xs) && LoopReturned(s, last)
  {
    var ys, mid := Completes(s, s.held[s.agents[LOOP].c]);
    RunKeepsInv(s, ys, mid);
    xs, last := LoopSkips(mid);
    RunsJoin(s, ys, mid, xs, last);
    xs := ys + xs;
  }

  lemma LoopEnters(s: State) returns (xs: seq<Action>, last: State)
    requires Inv(s) && Room(s) && s.agents[LOOP].AtOnce?
    requires s.agents[LOOP].c !in s.held && s.agents[LOOP].c !in s.spent
    ensures Leads(s, xs, last) && OnlyGo(xs) && LoopReturned(s, last)
  {
    StepInv(s, Go(LOOP));
    xs, last := Completes(Step(s, Go(LOOP)), LOOP);
    Ahead(s, LOOP, xs, last);
    xs := [Go(LOOP)] + xs;
  }

  lemma LoopCompletes(s: State) returns (xs: seq<Action>, last: State)
    requires Inv(s) && !s.agents[LOOP].Idle?
    requires Room(s) || (s.agents[LOOP].AtOnce? && s.agents[LOOP].c in s.spent)
    ensures Leads(s, xs, last) && OnlyGo(xs) && LoopReturned(s, last)
  {
    if Inside(s.agents[LOOP]) {
      xs, last := Completes(s, LOOP);
    } else if s.agents[LOOP].c in s.spent {
      xs, last := LoopSkips(s);
    } else if s.agents[LOOP].c in s.held {
      xs, last := LoopFollows(s);
    } else {
      xs, last := LoopEnters(s);
    }
  }

  // ----- one close

  /** Some run, on which c is not closed around its Once, brings the loop out of its close. */
  ghost predicate CanFinish(s: State, c: Conn) {
    exists ys, last :: Leads(s, ys, last) && NoDirect(ys, {c}) && last.agents != [] && last.agents[LOOP].Idle?
  }

  predicate Blocked(s: State, c: Conn) {
    && Inv(s) && Through(s, c) && ChannelFull(s) && c !in s.announced
    && !s.agents[LOOP].Idle? && s.agents[LOOP].c == c
  }

  lemma BlockedStep(s: State, x: Action, c: Conn)
    requires Blocked(s, c) && Enabled(s, x) && (x.CallDirect? ==> x.c != c)
    ensures Blocked(Step(s, x), c)
  {
    StepInv(s, x);
    ThroughStep(s, x, c);
    if x == Go(LOOP) && s.agents[LOOP].AtRegistry? {
      RunnerFinds(s, LOOP);
    }
  }

  lemma {:induction false} BlockedForever(s: State, xs: seq<Action>, last: State, c: Conn)
    requires Blocked(s, c) && Leads(s, xs, last) && NoDirect(xs, {c})
    ensures Blocked(last, c)
    decreases |xs|
  {
    if xs != [] {
      BlockedStep(s, xs[0], c);
      BlockedForever(Step(s, xs[0]), xs[1..], last, c);
    }
  }

  lemma SpentIsAtOnce(s: State, c: Conn)
    requires Inv(s) && Through(s, c) && c in s.announced && !s.agents[LOOP].Idle? && s.agents[LOOP].c == c
    ensures s.agents[LOOP].AtOnce? && c in s.spent
  {
    assert Inside(s.agents[LOOP]) ==> InOnce(s.agents[LOOP]);
  }

  /** The loop can finish the close it is in exactly if the channel is not full or the connection has
      been announced already. */
  lemma FinishesExactly(n: nat, xs: seq<Action>, s: State, c: Conn)
    requires n > 0 && Leads(Start(n), xs, s) && NoDirect(xs, {c})
    requires s.agents != [] && !s.agents[LOOP].Idle? && s.agents[LOOP].c == c
    ensures CanFinish(s, c) <==> !ChannelFull(s) || c in s.announced
  {
    ThroughFromStart(n, xs, s, c);
    if !ChannelFull(s) || c in s.announced {
      if c in s.announced {
        SpentIsAtOnce(s, c);
      }
      var ys, last := LoopCompletes(s);
    } else {
      forall ys, last | Leads(s, ys, last) && NoDirect(ys, {c})
        ensures last.agents == [] || !last.agents[LOOP].Idle?
      {
        BlockedForever(s, ys, last, c);
      }
    }
  }

  // ----- the whole turn

  /** Connections the loop has still to close in this turn, and those of them not yet announced. */
  function Pending(s: State): set<Conn>
    requires |s.agents| > 0
  {
    Elements(s.todo) + if s.agents[LOOP].Idle? then {} else {s.agents[LOOP].c}
  }

  function Needed(s: State): set<Conn>
    requires |s.agents| > 0
  {
    Pending(s) - Elements(s.announced)
  }

  predicate AllThrough(s: State)
    requires |s.agents| > 0
  {
    forall c :: c in Pending(s) ==> Through(s, c)
  }

  /** Places of the channel taken, and those the turn has still to take. */
  function Load(s: State): nat
    requires |s.agents| > 0 && s.drained <= |s.announced|
  {
    |Queue(s)| + |Needed(s)|
  }

  /** A step of a turn does not make the load smaller. */
  predicate Loads(s: State, next: State)
    requires |s.agents| > 0 && |next.agents| > 0 && s.drained <= |s.announced| && next.drained <= |next.announced|
  {
    Pending(next) <= Pending(s) && Load(s) <= Load(next)
  }

  lemma SameLoad(s: State, next: State)
    requires |s.agents| > 0 && |next.agents| > 0 && s.drained <= |s.announced|
    requires next.announced == s.announced && next.drained == s.drained
    requires Pending(next) <= Pending(s) && Needed(s) <= Pending(next)
    ensures Loads(s, next)
  {
    assert Needed(next) == Needed(s);
  }

  lemma AnnounceLoads(s: State, next: State, c: Conn)
    requires |s.agents| > 0 && |next.agents| > 0 && s.drained <= |s.announced|
    requires next.announced == s.announced + [c] && next.drained == s.drained
    requires Pending(s) - {c} <= Pending(next) <= Pending(s)
    ensures Loads(s, next)
  {
    assert |Queue(next)| == |Queue(s)| + 1;
    assert Elements(next.announced) == Elements(s.announced) + {c};
    assert Needed(next) == Needed(s) - {c};
  }

  lemma CallLoads(s: State, c: Conn)
    requires Inv(s) && Enabled(s, CallClose(LOOP, c))
    ensures Pending(Step(s, CallClose(LOOP, c))) == Pending(s)
  {
    assert s.todo == [c] + s.todo[1..];
  }

  lemma LoopGoLoads(s: State)
    requires Inv(s) && AllThrough(s) && Enabled(s, Go(LOOP))
    ensures Loads(s, Step(s, Go(LOOP)))
  {
    var next, pc := Step(s, Go(LOOP)), s.agents[LOOP];
    assert pc.c in Pending(s);
    if pc.AtChannel? {
      AnnounceLoads(s, next, pc.c);
    } else {
      if pc.AtRegistry? && pc.once {
        RunnerFinds(s, LOOP);
      }
      SameLoad(s, next);
    }
  }

  lemma StepLoads(s: State, x: Action)
    requires Inv(s) && AllThrough(s) && Enabled(s, x) && !LoopFree(s)
    requires x.CallDirect? ==> x.c !in Pending(s)
    ensures Inv(Step(s, x)) && Loads(s, Step(s, x))
  {
    StepInv(s, x);
    var next := Step(s, x);
    if x == Go(LOOP) {
      LoopGoLoads(s);
    } else if x.Go? && s.agents[x.a].AtChannel? {
      AnnounceLoads(s, next, s.agents[x.a].c);
    } else {
      if x.CallClose? && x.a == LOOP {
        CallLoads(s, x.c);
      }
      SameLoad(s, next);
    }
  }

  lemma AllThroughStep(s: State, x: Action)
    requires Inv(s) && AllThrough(s) && Enabled(s, x) && !LoopFree(s)
    requires x.CallDirect? ==> x.c !in Pending(s)
    ensures AllThrough(Step(s, x))
  {
    StepLoads(s, x);
    forall c | c in Pending(Step(s, x))
      ensures Through(Step(s, x), c)
    {
      ThroughStep(s, x, c);
    }
  }

  predicate Overloaded(s: State) {
    Inv(s) && AllThrough(s) && !LoopFree(s) && Load(s) > CONNECTION_POOL_SIZE
  }

  lemma OverloadedStep(s: State, x: Action)
    requires Overloaded(s) && Enabled(s, x) && (x.CallDirect? ==> x.c !in Pending(s))
    ensures Overloaded(Step(s, x)) && Pending(Step(s, x)) <= Pending(s)
  {
    StepLoads(s, x);
    AllThroughStep(s, x);
  }

  lemma {:induction false} OverloadedForever(s: State, xs: seq<Action>, last: State, cs: set<Conn>)
    requires Overloaded(s) && Leads(s, xs, last) && NoDirect(xs, cs) && Pending(s) <= cs
    ensures Overloaded(last)
    decreases |xs|
  {
    if xs != [] {
      OverloadedStep(s, xs[0]);
      OverloadedForever(Step(s, xs[0]), xs[1..], last, cs);
    }
  }

  /** The turn fits, or no closer ever waits for room. */
  predicate TurnFits(s: State) {
    Inv(s) && (Outstanding(s) <= CONNECTION_POOL_SIZE || (AllThrough(s) && Load(s) <= CONNECTION_POOL_SIZE))
  }

  lemma TurnFitsCall(s: State)
    requires TurnFits(s) && s.agents[LOOP].Idle? && s.todo != []
    ensures Enabled(s, CallClose(LOOP, s.todo[0])) && TurnFits(Step(s, CallClose(LOOP, s.todo[0])))
  {
    var x := CallClose(LOOP, s.todo[0]);
    StepInv(s, x);
    CallLoads(s, s.todo[0]);
    if AllThrough(s) {
      AllThroughStep(s, x);
    }
  }

  /** The close in hand finds room, or has nothing left to announce. */
  lemma TurnFitsNow(s: State)
    requires TurnFits(s) && !s.agents[LOOP].Idle?
    ensures Room(s) || (s.agents[LOOP].AtOnce? && s.agents[LOOP].c in s.spent)
  {
    var c := s.agents[LOOP].c;
    assert c in Pending(s);
    assert c !in s.announced ==> c in Needed(s) && |Needed(s)| > 0;
    if Outstanding(s) > CONNECTION_POOL_SIZE && c in s.announced {
      SpentIsAtOnce(s, c);
    }
  }

  lemma TurnFitsAfter(s: State, xs: seq<Action>, next: State)
    requires TurnFits(s) && !s.agents[LOOP].Idle? && Leads(s, xs, next) && OnlyGo(xs) && LoopReturned(s, next)
    ensures TurnFits(next)
  {
    RunKeepsInv(s, xs, next);
    if Outstanding(s) > CONNECTION_POOL_SIZE {
      var c := s.agents[LOOP].c;
      forall d | d in Pending(next)
        ensures Through(next, d)
      {
        ThroughRun(s, xs, next, d);
      }
      LoadAfterClose(s, next, c);
    }
  }

  lemma LoadAfterClose(s: State, next: State, c: Conn)
    requires Inv(s) && Inv(next) && !s.agents[LOOP].Idle? && c == s.agents[LOOP].c && LoopReturned(s, next)
    ensures Load(next) <= Load(s)
  {
    if next.announced == s.announced {
      assert Needed(next) <= Needed(s);
      SubsetSize(Needed(next), Needed(s));
    } else {
      assert next.announced[|s.announced|] == c;
      assert forall i :: 0 <= i < |s.announced| ==> next.announced[i] == s.announced[i];
      assert c in Needed(s);
      assert Needed(next) <= Needed(s) - {c};
      SubsetSize(Needed(next), Needed(s) - {c});
    }
  }

  lemma CloseCompletes(s: State) returns (xs: seq<Action>, next: State)
    requires TurnFits(s) && !s.agents[LOOP].Idle?
    ensures Leads(s, xs, next) && NoneDirect(xs) && TurnFits(next)
    ensures next.agents[LOOP].Idle? && next.todo == s.todo
  {
    TurnFitsNow(s);
    xs, next := LoopCompletes(s);
    TurnFitsAfter(s, xs, next);
  }

  /** Closes the turn has still to begin and to finish. */
  function Remaining(s: State): nat
    requires |s.agents| > 0
  {
    2 * |s.todo| + if s.agents[LOOP].Idle? then 0 else 1
  }

  lemma CallFirst(s: State) returns (xs: seq<Action>, next: State)
    requires TurnFits(s) && s.agents[LOOP].Idle? && s.todo != []
    ensures Leads(s, xs, next) && NoneDirect(xs) && TurnFits(next) && Remaining(next) < Remaining(s)
  {
    var x := CallClose(LOOP, s.todo[0]);
    TurnFitsCall(s);
    xs, next := [x], Step(s, x);
    assert ([x])[1..] == [];
  }

  lemma TurnProgress(s: State) returns (xs: seq<Action>, next: State)
    requires TurnFits(s) && !LoopFree(s)
    ensures Leads(s, xs, next) && NoneDirect(xs) && TurnFits(next) && Remaining(next) < Remaining(s)
  {
    if s.agents[LOOP].Idle? {
      xs, next := CallFirst(s);
    } else {
      xs, next := CloseCompletes(s);
    }
  }

  /** The loop finishes its turn by itself, with the runners of the Onces it waits for. */
  lemma {:induction false} TurnCompletes(s: State) returns (xs: seq<Action>, last: State)
    requires TurnFits(s)
    ensures Leads(s, xs, last) && LoopFree(last) && NoneDirect(xs)
    decreases Remaining(s)
  {
    if LoopFree(s) {
      xs, last := [], s;
    } else {
      var first, mid := TurnProgress(s);
      xs, last := TurnCompletes(mid);
      RunsJoin(s, first, mid, xs, last);
      xs := first + xs;
    }
  }

  /** Some run, on which none of cs is closed around its Once, brings the loop back to its channels. */
  ghost predicate TurnCanEnd(s: State, cs: set<Conn>) {
    exists ys, last :: Leads(s, ys, last) && NoDirect(ys, cs) && LoopFree(last)
  }

  /** The room loop can come to the end of its turn exactly if what waits in the disconnect channel and
      the connections the turn has still to announce are together at most ten. */
  lemma TurnEndsExactly(n: nat, xs: seq<Action>, s: State)
    requires n > 0 && Leads(Start(n), xs, s) && s.agents != [] && s.drained <= |s.announced|
    requires NoDirect(xs, Pending(s)) && !LoopFree(s)
    ensures TurnCanEnd(s, Pending(s)) <==> Load(s) <= CONNECTION_POOL_SIZE
  {
    RunKeepsInv(Start(n), xs, s);
    forall c | c in Pending(s)
      ensures Through(s, c)
    {
      ThroughFromStart(n, xs, s, c);
    }
    if Load(s) <= CONNECTION_POOL_SIZE {
      var ys, last := TurnCompletes(s);
    } else {
      forall ys, last | Leads(s, ys, last) && NoDirect(ys, Pending(s))
        ensures !LoopFree(last)
      {
        OverloadedForever(s, ys, last, Pending(s));
      }
    }
  }

  /** With at most ten connections outstanding it always can, however connections are closed. */
  lemma FinishesUpToTen(s: State)
    requires Reachable(s) && Outstanding(s) <= CONNECTION_POOL_SIZE
    ensures forall cs :: TurnCanEnd(s, cs)
  {
    ReachableInv(s);
    var xs, last := TurnCompletes(s);
  }
}
