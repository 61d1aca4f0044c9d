/** What the calls of shared/utils/objectPool.go achieve at the level of their
    locks: a call that nobody stands in the way of comes to its end and does to
    the free list and the counters exactly what the class of module ObjectPool
    does, so that containers do come back and are handed out again. */
module PoolCalls {
  import opened Bytes
  import opened ObjectPool
  import opened PoolLocks
  import opened Wrappers

  /** n steps of one thread inside its call. */
  function Steps(t: nat, n: nat): seq<Turn> { seq(n, _ => Turn(t, Go)) }

  lemma {:induction false} Further(s: State, turns: seq<Turn>, mid: State, t: nat, call: Call)
      returns (more: seq<Turn>, last: State)
    requires Leads(s, turns, mid) && Enabled(mid, t, call)
    ensures more == turns + [Turn(t, call)] && last == Step(mid, t, call) && Leads(s, more, last)
    decreases |turns|
  {
    more, last := turns + [Turn(t, call)], Step(mid, t, call);
    if turns == [] {
      assert more[1..] == [];
    } else {
      var rest, end := Further(Step(s, turns[0].t, turns[0].call), turns[1..], mid, t, call);
      assert more[1..] == rest;
    }
  }

  /** What one call leaves: no lock is held that was not before, and only its own thread has moved. */
  predicate Ended(s: State, last: State, t: nat, free: seq<nat>, counters: seq<Counter>, log: seq<Event>)
    requires t < |s.threads|
  {
    && last.threads == s.threads[t := Idle] && last.poolHolder == s.poolHolder && last.holders == s.holders
    && last.free == free && last.counters == counters && last.log == log
  }

  // ----- Obtain

  /** From an empty free list Obtain makes a new container, live with one disposal asked for. */
  lemma ObtainMakes(s: State, t: nat) returns (last: State)
    requires Inv(s) && t < |s.threads| && s.threads[t].WantPool? && s.poolHolder.None? && s.free == []
    ensures Leads(s, Steps(t, 2), last)
    ensures var n := |s.counters|; Ended(s, last, t, [], s.counters + [Counter(0, 1)], s.log + [Obtained(n)])
  {
    var turns;
    turns, last := Further(s, [], s, t, Go);
    turns, last := Further(s, turns, last, t, Go);
    assert turns == Steps(t, 2);
  }

  lemma Relocked(holders: map<nat, nat>, c: nat, t: nat)
    requires c !in holders
    ensures holders[c := t] - {c} == holders
  {
  }

  /** Otherwise it hands out the container freed last, live again, and leaves the rest of the list. */
  lemma ObtainReuses(s: State, t: nat) returns (last: State)
    requires Inv(s) && t < |s.threads| && s.threads[t].WantPool? && s.poolHolder.None? && s.free != []
    requires s.free[|s.free| - 1] !in s.holders
    ensures Leads(s, Steps(t, 4), last) && s.free[|s.free| - 1] < |s.counters|
    ensures var c := s.free[|s.free| - 1];
      Ended(s, last, t, s.free[..|s.free| - 1], s.counters[c := Counter(0, 1)], s.log + [Obtained(c)])
  {
    var turns;
    Relocked(s.holders, s.free[|s.free| - 1], t);
    turns, last := Further(s, [], s, t, Go);
    turns, last := Further(s, turns, last, t, Go);
    turns, last := Further(s, turns, last, t, Go);
    turns, last := Further(s, turns, last, t, Go);
    assert turns == Steps(t, 4);
  }

  // ----- Dispose

  predicate AtDispose(s: State, t: nat, c: nat) {
    && Inv(s) && t < |s.threads| && s.threads[t] == WantDispose(c) && c < |s.counters|
    && c !in s.holders
  }

  /** A disposed container is left alone. */
  lemma DisposeFails(s: State, t: nat, c: nat) returns (last: State)
    requires AtDispose(s, t, c) && s.counters[c].Disposed()
    ensures Leads(s, Steps(t, 2), last) && Ended(s, last, t, s.free, s.counters, s.log)
  {
    var turns;
    Relocked(s.holders, c, t);
    turns, last := Further(s, [], s, t, Go);
    turns, last := Further(s, turns, last, t, Go);
    assert turns == Steps(t, 2);
  }

  function Counted(k: Counter): Counter { k.(current := k.current + 1) }

  /** A disposal that is not the last one asked for is counted, and the free list stays as it is. */
  lemma DisposeCounts(s: State, t: nat, c: nat) returns (last: State)
    requires AtDispose(s, t, c) && s.counters[c].current + 1 < s.counters[c].target
    ensures Leads(s, Steps(t, 2), last)
    ensures Ended(s, last, t, s.free, s.counters[c := Counted(s.counters[c])], s.log + [WasDisposed(c)])
  {
    var turns;
    Relocked(s.holders, c, t);
    turns, last := Further(s, [], s, t, Go);
    turns, last := Further(s, turns, last, t, Go);
    assert turns == Steps(t, 2);
  }

  /** Two steps: the container's lock is taken, and the disposal that is the last one counted. */
  lemma LastCounted(s: State, t: nat, c: nat) returns (turns: seq<Turn>, mid: State)
    requires AtDispose(s, t, c) && s.counters[c].current + 1 == s.counters[c].target
    ensures turns == Steps(t, 2) && Leads(s, turns, mid)
    ensures mid == s.(threads := s.threads[t := WantRelease(c)], holders := s.holders[c := t],
                      counters := s.counters[c := Counted(s.counters[c])], log := s.log + [WasDisposed(c)])
  {
    turns, mid := Further(s, [], s, t, Go);
    turns, mid := Further(s, turns, mid, t, Go);
    assert turns == Steps(t, 2);
  }

  /** The last one puts the container at the end of the free list, unless that holds 100. */
  lemma DisposeFrees(s: State, t: nat, c: nat) returns (last: State)
    requires AtDispose(s, t, c) && s.counters[c].current + 1 == s.counters[c].target && s.poolHolder.None?
    ensures Leads(s, Steps(t, 4), last)
    ensures Ended(s, last, t, if |s.free| < 100 then s.free + [c] else s.free,
                  s.counters[c := Counted(s.counters[c])], s.log + [WasDisposed(c)])
  {
    var turns;
    Relocked(s.holders, c, t);
    turns, last := LastCounted(s, t, c);
    turns, last := Further(s, turns, last, t, Go);
    turns, last := Further(s, turns, last, t, Go);
    assert turns == Steps(t, 4);
  }

  // ----- Data and UpdateCounter

  /** Data changes nothing; UpdateCounter asks for a number of disposals, of a live container only. */
  lemma TouchActs(s: State, t: nat, c: nat, op: Touch) returns (last: State)
    requires Inv(s) && t < |s.threads| && s.threads[t] == WantTouch(c, op) && c < |s.counters| && c !in s.holders
    ensures Leads(s, Steps(t, 2), last)
    ensures var k := s.counters[c];
      if op.Look? || k.Disposed() then Ended(s, last, t, s.free, s.counters, s.log)
      else Ended(s, last, t, s.free, s.counters[c := Counter(k.current, op.target)], s.log + [Retargeted(c, op.target)])
  {
    var turns;
    Relocked(s.holders, c, t);
    turns, last := Further(s, [], s, t, Go);
    turns, last := Further(s, turns, last, t, Go);
    assert turns == Steps(t, 2);
  }

  // ----- a container handed out twice

  lemma {:induction false} RunsJoin(s: State, xs: seq<Turn>, mid: State, ys: seq<Turn>, last: State)
    requires Leads(s, xs, mid) && Leads(mid, ys, last)
    ensures Leads(s, xs + ys, last)
    decreases |xs|
  {
    if xs == [] {
      assert xs + ys == ys;
    } else {
      RunsJoin(Step(s, xs[0].t, xs[0].call), xs[1..], mid, ys, last);
      assert (xs + ys)[1..] == xs[1..] + ys;
    }
  }

  /** One thread, no lock held. */
  function Alone(free: seq<nat>, counters: seq<Counter>, pc: Pc, log: seq<Event>): State {
    State(free, counters, None, map[], [pc], log)
  }

  lemma CallAlone(s: State, turns: seq<Turn>, call: Call, pc: Pc) returns (more: seq<Turn>)
    requires Leads(Start(1), turns, s) && s.threads == [Idle] && Enabled(s, 0, call) && !call.Go? && Entry(call) == pc
    ensures Leads(Start(1), more, s.(threads := [pc])) && Inv(s.(threads := [pc]))
  {
    var last;
    more, last := Further(Start(1), turns, s, 0, call);
    assert last == s.(threads := [pc]);
    ReachableInv(last);
  }

  /** A thread obtains, disposes and obtains again: the second hand-out is of the same container. */
  lemma HandedOutTwice() returns (turns: seq<Turn>)
    ensures Leads(Start(1), turns, Alone([], [Counter(0, 1)], Idle, [Obtained(0), WasDisposed(0), Obtained(0)]))
  {
    var live, done := Counter(0, 1), Counter(1, 1);
    assert Leads(Start(1), [], Start(1));
    turns := CallAlone(Start(1), [], CallObtain, WantPool);
    var last := ObtainMakes(Alone([], [], WantPool, []), 0);
    RunsJoin(Start(1), turns, Alone([], [], WantPool, []), Steps(0, 2), last);
    assert last == Alone([], [live], Idle, [Obtained(0)]);
    turns := CallAlone(last, turns + Steps(0, 2), CallDispose(0), WantDispose(0));
    turns := SecondHalf(turns);
  }

  lemma SecondHalf(first: seq<Turn>) returns (turns: seq<Turn>)
    requires Leads(Start(1), first, Alone([], [Counter(0, 1)], WantDispose(0), [Obtained(0)]))
    requires Inv(Alone([], [Counter(0, 1)], WantDispose(0), [Obtained(0)]))
    ensures Leads(Start(1), turns, Alone([], [Counter(0, 1)], Idle, [Obtained(0), WasDisposed(0), Obtained(0)]))
  {
    var before := Alone([], [Counter(0, 1)], WantDispose(0), [Obtained(0)]);
    var after := FreedAlone(before);
    RunsJoin(Start(1), first, before, Steps(0, 4), after);
    turns := CallAlone(after, first + Steps(0, 4), CallObtain, WantPool);
    var last := ReusedAlone(after.(threads := [WantPool]));
    RunsJoin(Start(1), turns, after.(threads := [WantPool]), Steps(0, 4), last);
    turns := turns + Steps(0, 4);
  }

  lemma FreedAlone(s: State) returns (last: State)
    requires s == Alone([], [Counter(0, 1)], WantDispose(0), [Obtained(0)]) && Inv(s)
    ensures Leads(s, Steps(0, 4), last)
    ensures last == Alone([0], [Counter(1, 1)], Idle, [Obtained(0), WasDisposed(0)])
  {
    last := DisposeFrees(s, 0, 0);
    assert s.free + [0] == [0] && s.log + [WasDisposed(0)] == [Obtained(0), WasDisposed(0)];
  }

  lemma ReusedAlone(s: State) returns (last: State)
    requires s == Alone([0], [Counter(1, 1)], WantPool, [Obtained(0), WasDisposed(0)]) && Inv(s)
    ensures Leads(s, Steps(0, 4), last)
    ensures last == Alone([], [Counter(0, 1)], Idle, [Obtained(0), WasDisposed(0), Obtained(0)])
  {
    last := ObtainReuses(s, 0);
    assert s.free[..0] == [];
    assert s.log + [Obtained(0)] == [Obtained(0), WasDisposed(0), Obtained(0)];
  }
}
