/** What the message pool is for: a goroutine that nobody stands in the way of
    obtains, fills, sends and disposes of a message, the container comes back, and
    it sends any number of messages through the same one
    (client/transportLayer/client.go over shared/utils/objectPool.go). */
module PooledReuse {
  import opened Bytes
  import opened Frames
  import opened Wrappers
  import C = PoolCalls
  import P = PoolLocks
  import W = SharedWire
  import opened PooledSends

  lemma {:induction false} RunsJoin(s: State, xs: seq<Action>, mid: State, ys: seq<Action>, last: State)
    requires Leads(s, xs, mid) && Leads(mid, ys, last)
    ensures Leads(s, xs + ys, last)
    decreases |xs|
  {
    if xs == [] {
      assert xs + ys == ys;
    } else {
      RunsJoin(Step(s, xs[0]), xs[1..], mid, ys, last);
      assert (xs + ys)[1..] == xs[1..] + ys;
    }
  }

  lemma One(s: State, a: Action) returns (last: State)
    requires Inv(s) && Enabled(s, a)
    ensures last == Step(s, a) && Inv(last) && Leads(s, [a], last)
  {
    last := Step(s, a);
    StepInv(s, a);
    assert [a][1..] == [];
  }

  /** n steps inside the pool. */
  function Inside(t: nat, n: nat): seq<Action> { seq(n, _ => PoolGo(t, [])) }

  /** Nothing of the sends has moved. */
  predicate SendsKept(s: State, last: State) {
    && last.todo == s.todo && last.holder == s.holder && last.wire == s.wire
    && last.bytesSent == s.bytesSent && last.log == s.log
  }

  /** Where a pool call leaves its thread. */
  predicate CallEnded(s: State, last: State, t: nat)
    requires t < |s.phases|
  {
    && |last.phases| == |s.phases| && last.phases == s.phases[t := last.phases[t]]
    && match s.phases[t]
       case Getting =>
         && last.phases[t].Owning? && last.pool.log != []
         && last.pool.log[|last.pool.log| - 1] == P.Obtained(last.phases[t].c)
       case Looking(c) => last.phases[t] == Owning(c)
       case _ => last.phases[t] == Away
  }

  lemma OneInside(s: State, t: nat)
    requires Inv(s) && Enabled(s, PoolGo(t, []))
    ensures var next := Step(s, PoolGo(t, []));
      && next.pool == P.Step(s.pool, t, P.Go) && SendsKept(s, next)
      && t < |next.phases| == |next.pool.threads|
      && (!next.pool.threads[t].Idle? ==> next.phases == s.phases)
      && (next.pool.threads[t].Idle? ==> CallEnded(s, next, t))
  {
    ThreadsKept(s.pool, t, P.Go);
    if s.phases[t].Getting? && P.Step(s.pool, t, P.Go).threads[t].Idle? {
      assert s.pool.threads[t].InPool? || s.pool.threads[t].Resetting?;
    }
  }

  /** A pool call run to its end by PoolLocks is run to its end here. */
  lemma {:induction false} Lift(s: State, t: nat, n: nat, pool: P.State) returns (last: State)
    requires Inv(s) && t < |s.phases| && InPool(s.phases[t])
    requires n > 0 && P.Leads(s.pool, C.Steps(t, n), pool) && t < |pool.threads| && pool.threads[t].Idle?
    ensures Leads(s, Inside(t, n), last) && Inv(last) && last.pool == pool
    ensures SendsKept(s, last) && CallEnded(s, last, t)
    decreases n
  {
    assert C.Steps(t, n)[0] == P.Turn(t, P.Go) && C.Steps(t, n)[1..] == C.Steps(t, n - 1);
    assert Inside(t, n)[0] == PoolGo(t, []) && Inside(t, n)[1..] == Inside(t, n - 1);
    OneInside(s, t);
    StepInv(s, PoolGo(t, []));
    var next := Step(s, PoolGo(t, []));
    if n == 1 {
      last := next;
    } else {
      assert C.Steps(t, n - 1)[0] == P.Turn(t, P.Go);
      last := Lift(next, t, n - 1, pool);
    }
  }

  /** The thread owns nothing, and no lock is in its way. */
  predicate Ready(s: State, t: nat) {
    && Inv(s) && t < |s.phases| && s.phases[t].Away? && s.pool.poolHolder.None? && s.holder.None?
    && (s.pool.free != [] ==> s.pool.free[|s.pool.free| - 1] !in s.pool.holders)
  }

  /** The container it is handed, and what is left of the free list. */
  function Handed(s: State): nat {
    if s.pool.free == [] then |s.pool.counters| else s.pool.free[|s.pool.free| - 1]
  }
  function Remaining(s: State): seq<nat> {
    if s.pool.free == [] then [] else s.pool.free[..|s.pool.free| - 1]
  }

  /** Between calls of the pool: who holds what, and how many containers there are. */
  predicate PoolRests(s: State, last: State, free: seq<nat>, made: nat) {
    && last.pool.poolHolder.None? && last.pool.holders == s.pool.holders
    && last.pool.free == free && |last.pool.counters| == |s.pool.counters| + made
  }

  function Made(s: State): nat { if s.pool.free == [] then 1 else 0 }

  /** Obtain up to its return, in PoolLocks. */
  lemma PoolObtains(pool: P.State, t: nat) returns (n: nat, last: P.State, given: nat)
    requires P.Inv(pool) && t < |pool.threads| && pool.threads[t].WantPool? && pool.poolHolder.None?
    requires pool.free != [] ==> pool.free[|pool.free| - 1] !in pool.holders
    ensures n > 0 && P.Leads(pool, C.Steps(t, n), last) && t < |last.threads| && last.threads[t].Idle?
    ensures given == if pool.free == [] then |pool.counters| else pool.free[|pool.free| - 1]
    ensures last.log != [] && last.log[|last.log| - 1] == P.Obtained(given)
    ensures last.poolHolder.None? && last.holders == pool.holders
    ensures last.free == if pool.free == [] then [] else pool.free[..|pool.free| - 1]
    ensures |last.counters| == |pool.counters| + if pool.free == [] then 1 else 0
  {
    if pool.free == [] {
      n, given := 2, |pool.counters|;
      last := C.ObtainMakes(pool, t);
    } else {
      n, given := 4, pool.free[|pool.free| - 1];
      last := C.ObtainReuses(pool, t);
    }
  }

  lemma Called(s: State, t: nat)
    requires Ready(s, t)
    ensures Enabled(s, Obtain(t)) && t < |s.pool.threads|
    ensures var next := Step(s, Obtain(t));
      && next.phases == s.phases[t := Getting] && SendsKept(s, next)
      && next.pool == s.pool.(threads := s.pool.threads[t := P.WantPool])
  {
  }

  lemma ObtainEnded(s: State, mid: State, last: State, t: nat, given: nat)
    requires t < |s.phases| && mid.phases == s.phases[t := Getting] && CallEnded(mid, last, t)
    requires last.pool.log != [] && last.pool.log[|last.pool.log| - 1] == P.Obtained(given)
    requires SendsKept(s, mid) && SendsKept(mid, last)
    ensures SendsKept(s, last) && last.phases == s.phases[t := Owning(given)]
  {
  }

  lemma Obtains(s: State, t: nat) returns (acts: seq<Action>, last: State)
    requires Ready(s, t)
    ensures Leads(s, acts, last) && Inv(last) && SendsKept(s, last)
    ensures last.phases == s.phases[t := Owning(Handed(s))] && PoolRests(s, last, Remaining(s), Made(s))
  {
    Called(s, t);
    var mid := One(s, Obtain(t));
    var n, pool, given := PoolObtains(mid.pool, t);
    last := Lift(mid, t, n, pool);
    ObtainEnded(s, mid, last, t, given);
    RunsJoin(s, [Obtain(t)], mid, Inside(t, n), last);
    acts := [Obtain(t)] + Inside(t, n);
  }

  /** What writeMessage leaves when it has sent `f` from container c. */
  predicate SentOne(s: State, last: State, t: nat, f: seq<byte>) {
    && last.wire == s.wire + f && last.log == s.log + [W.Entry(t, f)]
    && last.bytesSent == W.Wrap64(s.bytesSent + |f|) && last.holder.None?
    && t < |s.todo| && s.todo[t] != [] && last.todo == s.todo[t := s.todo[t][1..]]
  }

  /** The first two steps of writeMessage: the mutex and the header. */
  lemma HeaderGoes(s: State, t: nat, c: nat, f: seq<byte>)
    requires t < |s.phases| == |s.todo| && s.phases[t] == Sending(c, f, AtLock) && s.holder.None?
    requires c < |s.contents| && s.contents[c] == f && |f| >= HEADER_SIZE
    ensures Leads(s, [SendGo(t), SendGo(t)],
                  s.(phases := s.phases[t := Sending(c, f, AtPayload)], holder := Some(t),
                     wire := s.wire + f[..HEADER_SIZE]))
  {
    var next := Step(s, SendGo(t));
    assert next.phases[t := Sending(c, f, AtPayload)] == s.phases[t := Sending(c, f, AtPayload)];
    assert [SendGo(t), SendGo(t)][1..] == [SendGo(t)] && [SendGo(t)][1..] == [];
  }

  /** The last two: the payload, and the count with the unlock. */
  lemma PayloadGoes(s: State, t: nat, c: nat, f: seq<byte>)
    requires t < |s.phases| == |s.todo| && s.phases[t] == Sending(c, f, AtPayload)
    requires c < |s.contents| && s.contents[c] == f && |f| >= HEADER_SIZE
    ensures Leads(s, [SendGo(t), SendGo(t)],
                  s.(phases := s.phases[t := Owning(c)], holder := None, wire := s.wire + f[HEADER_SIZE..],
                     bytesSent := W.Wrap64(s.bytesSent + |f|), log := s.log + [W.Entry(t, f)]))
  {
    var next := Step(s, SendGo(t));
    assert next.phases[t := Owning(c)] == s.phases[t := Owning(c)];
    assert [SendGo(t), SendGo(t)][1..] == [SendGo(t)] && [SendGo(t)][1..] == [];
  }

  /** The state after writeMessage. */
  function Sent(s: State, t: nat, c: nat, f: seq<byte>): State
    requires t < |s.phases|
  {
    s.(phases := s.phases[t := Owning(c)], wire := s.wire + f,
       bytesSent := W.Wrap64(s.bytesSent + |f|), log := s.log + [W.Entry(t, f)])
  }

  lemma MessageGoes(s: State, t: nat, c: nat, f: seq<byte>) returns (acts: seq<Action>)
    requires t < |s.phases| == |s.todo| && s.phases[t] == Sending(c, f, AtLock) && s.holder.None?
    requires c < |s.contents| && s.contents[c] == f && |f| >= HEADER_SIZE
    ensures Leads(s, acts, Sent(s, t, c, f))
  {
    var mid := s.(phases := s.phases[t := Sending(c, f, AtPayload)], holder := Some(t),
                  wire := s.wire + f[..HEADER_SIZE]);
    HeaderGoes(s, t, c, f);
    PayloadGoes(mid, t, c, f);
    assert mid.phases[t := Owning(c)] == s.phases[t := Owning(c)];
    assert (s.wire + f[..HEADER_SIZE]) + f[HEADER_SIZE..] == s.wire + f;
    acts := [SendGo(t), SendGo(t)] + [SendGo(t), SendGo(t)];
    RunsJoin(s, [SendGo(t), SendGo(t)], mid, [SendGo(t), SendGo(t)],
             mid.(phases := mid.phases[t := Owning(c)], holder := None, wire := mid.wire + f[HEADER_SIZE..],
                  bytesSent := W.Wrap64(s.bytesSent + |f|), log := s.log + [W.Entry(t, f)]));
  }

  /** The state after container c was filled with the thread's next message. */
  function Filled(s: State, t: nat, c: nat): State
    requires t < |s.phases| == |s.todo| && s.todo[t] != [] && c < |s.contents|
  {
    var f := s.todo[t][0];
    s.(phases := s.phases[t := Sending(c, f, AtLock)], contents := s.contents[c := f],
       todo := s.todo[t := s.todo[t][1..]])
  }

  lemma Fills(s: State, t: nat, c: nat)
    requires t < |s.phases| == |s.todo| && s.phases[t] == Owning(c) && c < |s.contents| && s.todo[t] != []
    ensures Enabled(s, Fill(t)) && Step(s, Fill(t)) == Filled(s, t, c)
  {
  }

  lemma FillGoes(s: State, t: nat, c: nat) returns (acts: seq<Action>)
    requires t < |s.phases| == |s.todo| && s.phases[t] == Owning(c) && s.holder.None? && c < |s.contents|
    requires s.todo[t] != [] && |s.todo[t][0]| >= HEADER_SIZE
    ensures Leads(s, acts, Sent(Filled(s, t, c), t, c, s.todo[t][0]))
  {
    Fills(s, t, c);
    var rest := MessageGoes(Filled(s, t, c), t, c, s.todo[t][0]);
    acts := [Fill(t)] + rest;
    assert acts[1..] == rest;
  }

  lemma FilledAndSent(s: State, t: nat, c: nat)
    requires t < |s.phases| == |s.todo| && s.phases[t] == Owning(c) && s.holder.None? && c < |s.contents|
    requires s.todo[t] != []
    ensures var last := Sent(Filled(s, t, c), t, c, s.todo[t][0]);
      SentOne(s, last, t, s.todo[t][0]) && last.phases == s.phases && last.pool == s.pool
  {
  }

  lemma SendsIt(s: State, t: nat, c: nat) returns (acts: seq<Action>, last: State)
    requires Inv(s) && t < |s.phases| && s.phases[t] == Owning(c) && s.holder.None?
    requires s.todo[t] != [] && |s.todo[t][0]| >= HEADER_SIZE
    ensures Leads(s, acts, last) && Inv(last) && SentOne(s, last, t, s.todo[t][0])
    ensures last.phases == s.phases && last.pool == s.pool
  {
    OwnedUnlocked(s, t, c);
    acts := FillGoes(s, t, c);
    last := Sent(Filled(s, t, c), t, c, s.todo[t][0]);
    FilledAndSent(s, t, c);
    RunsAreSends(s, acts, last);
  }

  /** Whoever holds a container's lock owns it, or has it in hand exhausted. */
  lemma LockedByOwner(s: State, h: nat)
    requires Inv(s) && h < |s.phases| && P.HoldsContainer(s.pool.threads[h])
    ensures s.pool.threads[h].c < |s.pool.counters|
    ensures OwnedBy(s, h) == Some(s.pool.threads[h].c) || P.Exhausted(s.pool.counters[s.pool.threads[h].c])
  {
  }

  /** Nobody else is at a container that a thread owns. */
  lemma OwnedUnlocked(s: State, t: nat, c: nat)
    requires Inv(s) && t < |s.phases| && s.phases[t] == Owning(c)
    ensures c < |s.pool.counters| && s.pool.counters[c] == P.FRESH && c !in s.pool.holders
  {
    assert OwnedBy(s, t) == Some(c);
    if c in s.pool.holders {
      LockedByOwner(s, s.pool.holders[c]);
    }
  }

  lemma DisposeCalled(s: State, t: nat, c: nat)
    requires Inv(s) && t < |s.phases| && s.phases[t] == Owning(c)
    ensures Enabled(s, Dispose(t)) && t < |s.pool.threads| && s.pool.threads[t].Idle?
    ensures var next := Step(s, Dispose(t));
      && next.phases == s.phases[t := Giving(c)] && SendsKept(s, next)
      && next.pool == s.pool.(threads := s.pool.threads[t := P.WantDispose(c)])
  {
    OwnedUnlocked(s, t, c);
  }

  lemma DisposeEnded(s: State, mid: State, last: State, t: nat, c: nat)
    requires t < |s.phases| && mid.phases == s.phases[t := Giving(c)] && CallEnded(mid, last, t)
    requires SendsKept(s, mid) && SendsKept(mid, last)
    ensures SendsKept(s, last) && last.phases == s.phases[t := Away]
  {
  }

  lemma Disposes(s: State, t: nat, c: nat) returns (acts: seq<Action>, last: State)
    requires Inv(s) && t < |s.phases| && s.phases[t] == Owning(c) && s.pool.poolHolder.None? && |s.pool.free| < 100
    ensures Leads(s, acts, last) && Inv(last) && SendsKept(s, last) && c !in s.pool.holders
    ensures last.phases == s.phases[t := Away] && PoolRests(s, last, s.pool.free + [c], 0)
  {
    OwnedUnlocked(s, t, c);
    DisposeCalled(s, t, c);
    var mid := One(s, Dispose(t));
    var pool := C.DisposeFrees(mid.pool, t, c);
    last := Lift(mid, t, 4, pool);
    DisposeEnded(s, mid, last, t, c);
    RunsJoin(s, [Dispose(t)], mid, Inside(t, 4), last);
    acts := [Dispose(t)] + Inside(t, 4);
  }

  lemma SentAfter(s: State, mid: State, last: State, t: nat, f: seq<byte>)
    requires SendsKept(s, mid) && SentOne(mid, last, t, f)
    requires PoolRests(s, mid, Remaining(s), Made(s)) && last.pool == mid.pool
    ensures SentOne(s, last, t, f) && PoolRests(s, last, Remaining(s), Made(s))
  {
  }

  lemma ObtainsAndSends(s: State, t: nat) returns (acts: seq<Action>, last: State)
    requires Ready(s, t) && s.todo[t] != [] && |s.todo[t][0]| >= HEADER_SIZE
    ensures Leads(s, acts, last) && Inv(last) && SentOne(s, last, t, s.todo[t][0])
    ensures last.phases == s.phases[t := Owning(Handed(s))] && PoolRests(s, last, Remaining(s), Made(s))
  {
    var xs, ys, mid;
    xs, mid := Obtains(s, t);
    ys, last := SendsIt(mid, t, Handed(s));
    SentAfter(s, mid, last, t, s.todo[t][0]);
    RunsJoin(s, xs, mid, ys, last);
    acts := xs + ys;
  }

  lemma Back(phases: seq<Phase>, t: nat, phase: Phase)
    requires t < |phases| && phases[t].Away?
    ensures phases[t := phase][t := Away] == phases
  {
  }

  lemma FewFree(s: State, t: nat)
    requires Ready(s, t)
    ensures |Remaining(s)| < 100
  {
  }

  /** One message from Obtain to Dispose: it is on the wire, and the container is the last of the free list. */
  lemma SendsOne(s: State, t: nat) returns (acts: seq<Action>, last: State)
    requires Ready(s, t) && s.todo[t] != [] && |s.todo[t][0]| >= HEADER_SIZE
    ensures Leads(s, acts, last) && Ready(last, t) && SentOne(s, last, t, s.todo[t][0])
    ensures last.phases == s.phases && PoolRests(s, last, Remaining(s) + [Handed(s)], Made(s))
  {
    var xs, ys, mid;
    FewFree(s, t);
    xs, mid := ObtainsAndSends(s, t);
    ys, last := Disposes(mid, t, Handed(s));
    RunsJoin(s, xs, mid, ys, last);
    acts := xs + ys;
    Back(s.phases, t, Owning(Handed(s)));
  }

  predicate Sendable(fs: seq<seq<byte>>) { forall k :: 0 <= k < |fs| ==> |fs[k]| >= HEADER_SIZE }

  lemma LeftToSend(s: State, mid: State, t: nat)
    requires t < |s.todo| && s.todo[t] != [] && Sendable(s.todo[t]) && SentOne(s, mid, t, s.todo[t][0])
    ensures Sendable(mid.todo[t]) && |mid.todo[t]| < |s.todo[t]|
  {
    assert forall k :: 0 <= k < |mid.todo[t]| ==> mid.todo[t][k] == s.todo[t][k + 1];
  }

  lemma SentAll(s: State, mid: State, t: nat)
    requires t < |s.todo| && s.todo[t] != [] && SentOne(s, mid, t, s.todo[t][0])
    requires PoolRests(s, mid, Remaining(s) + [Handed(s)], Made(s))
    ensures mid.wire + Concat(mid.todo[t]) == s.wire + Concat(s.todo[t])
    ensures mid.todo[t := []] == s.todo[t := []]
    ensures Remaining(mid) == Remaining(s) && Handed(mid) == Handed(s) && Made(mid) == 0
  {
    var f, rest := s.todo[t][0], s.todo[t][1..];
    assert s.todo[t] == [f] + rest;
    ConcatCons(f, rest);
    Associative(s.wire, f, Concat(rest));
  }

  /** A goroutine left alone sends all its messages, one after the other, through one container: the one freed
      last, or, if none is free, one that it makes. */
  lemma {:induction false} OneContainerSuffices(s: State, t: nat) returns (acts: seq<Action>, last: State)
    requires Ready(s, t) && Sendable(s.todo[t])
    ensures Leads(s, acts, last) && Ready(last, t) && last.todo == s.todo[t := []] && last.phases == s.phases
    ensures last.wire == s.wire + Concat(s.todo[t])
    ensures |last.pool.counters| == |s.pool.counters| + if s.todo[t] == [] then 0 else Made(s)
    ensures last.pool.free == if s.todo[t] == [] then s.pool.free else Remaining(s) + [Handed(s)]
    decreases |s.todo[t]|
  {
    if s.todo[t] == [] {
      acts, last := [], s;
      assert s.wire + [] == s.wire && s.todo[t := []] == s.todo;
    } else {
      var xs, ys, mid;
      xs, mid := SendsOne(s, t);
      LeftToSend(s, mid, t);
      ys, last := OneContainerSuffices(mid, t);
      RunsJoin(s, xs, mid, ys, last);
      acts := xs + ys;
      SentAll(s, mid, t);
    }
  }
}
