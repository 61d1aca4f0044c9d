/** The object pool of shared/utils/objectPool.go under any number of threads.

    Obtain locks the pool and then the container it popped; Dispose locks its
    container and then the pool. Each thread's program counter stands before or
    after one Lock call; the statements between two lock operations run as one
    action, which nothing else can observe. Threads may call any operation on
    any container they ever saw, whether or not they still own it. */
module PoolLocks {
  import opened Bytes
  import opened ObjectPool
  import opened Wrappers

  /** Disposals so far and disposals needed. */
  datatype Counter = Counter(current: nat, target: u32) {
    predicate Disposed() { current >= target }
  }

  const FRESH := Counter(0, 1)

  /** Data and UpdateCounter. */
  datatype Touch = Look | Retarget(target: u32)

  datatype Pc =
    | Idle
    | WantPool                     // Obtain, before pool.mutex.Lock
    | InPool                       // Obtain, holding the pool
    | WantReset(c: nat)            // Obtain, holding the pool, c popped, before c.mutex.Lock
    | Resetting(c: nat)            // Obtain, holding both
    | WantDispose(c: nat)          // Dispose, before c.mutex.Lock
    | Disposing(c: nat)            // Dispose, holding c
    | WantRelease(c: nat)          // Dispose, holding c, before pool.mutex.Lock
    | Releasing(c: nat)            // Dispose, holding both
    | WantTouch(c: nat, op: Touch)
    | Touching(c: nat, op: Touch)

  datatype Event = Obtained(c: nat) | WasDisposed(c: nat) | Retargeted(c: nat, target: u32)

  /** Containers are numbered as they are created. */
  datatype State = State(
    free: seq<nat>,
    counters: seq<Counter>,
    poolHolder: Option<nat>,
    holders: map<nat, nat>,
    threads: seq<Pc>,
    log: seq<Event>)

  function Start(threads: nat): State {
    State([], [], None, map[], seq(threads, _ => Idle), [])
  }

  datatype Call = CallObtain | CallDispose(c: nat) | CallTouch(c: nat, op: Touch) | Go

  function Entry(call: Call): Pc
    requires !call.Go?
  {
    match call
    case CallObtain => WantPool
    case CallDispose(c) => WantDispose(c)
    case CallTouch(c, op) => WantTouch(c, op)
  }

  predicate Enabled(s: State, t: nat, call: Call) {
    && t < |s.threads|
    && match call
       case CallObtain => s.threads[t].Idle?
       case CallDispose(c) => s.threads[t].Idle? && c < |s.counters|
       case CallTouch(c, _) => s.threads[t].Idle? && c < |s.counters|
       case Go => CanGo(s, s.threads[t])
  }

  /** A thread at a Lock call goes on when the mutex is free; any other running thread goes on. */
  predicate CanGo(s: State, pc: Pc) {
    match pc
    case Idle => false
    case WantPool => s.poolHolder.None?
    case WantRelease(_) => s.poolHolder.None?
    case WantReset(c) => c !in s.holders
    case WantDispose(c) => c !in s.holders
    case WantTouch(c, _) => c !in s.holders
    case InPool => s.free == [] || s.free[|s.free| - 1] < |s.counters|
    case _ => pc.c < |s.counters|
  }

  function Lock(s: State, t: nat, c: nat): State { s.(holders := s.holders[c := t]) }
  function Unlock(s: State, c: nat): State { s.(holders := s.holders - {c}) }
  function Record(s: State, e: Event): State { s.(log := s.log + [e]) }

  function SetCounter(s: State, c: nat, counter: Counter): State
    requires c < |s.counters|
  {
    s.(counters := s.counters[c := counter])
  }

  /** What the thread does, with its next program counter. */
  function Do(s: State, t: nat, pc: Pc): (State, Pc)
    requires CanGo(s, pc)
  {
    match pc
    case WantPool => (s.(poolHolder := Some(t)), InPool)
    case InPool =>
      var n := |s.free|;
      if n == 0 then
        (Record(s.(counters := s.counters + [FRESH], poolHolder := None), Obtained(|s.counters|)), Idle)
      else (s.(free := s.free[..n - 1]), WantReset(s.free[n - 1]))
    case WantReset(c) => (Lock(s, t, c), Resetting(c))
    case Resetting(c) =>
      (Record(Unlock(SetCounter(s, c, FRESH).(poolHolder := None), c), Obtained(c)), Idle)
    case WantDispose(c) => (Lock(s, t, c), Disposing(c))
    case Disposing(c) =>
      var k := s.counters[c];
      if k.Disposed() then (Unlock(s, c), Idle)
      else
        var counted := k.(current := k.current + 1);
        var next := Record(SetCounter(s, c, counted), WasDisposed(c));
        if counted.Disposed() then (next, WantRelease(c)) else (Unlock(next, c), Idle)
    case WantRelease(c) => (s.(poolHolder := Some(t)), Releasing(c))
    case Releasing(c) =>
      var free := if |s.free| >= POOL_SIZE_MAX then s.free else s.free + [c];
      (Unlock(s.(free := free, poolHolder := None), c), Idle)
    case WantTouch(c, op) => (Lock(s, t, c), Touching(c, op))
    case Touching(c, op) =>
      var k := s.counters[c];
      if op.Look? || k.Disposed() then (Unlock(s, c), Idle)
      else (Unlock(Record(SetCounter(s, c, k.(target := op.target)), Retargeted(c, op.target)), c), Idle)
  }

  function Step(s: State, t: nat, call: Call): State
    requires Enabled(s, t, call)
  {
    if !call.Go? then s.(threads := s.threads[t := Entry(call)])
    else
      var (next, pc) := Do(s, t, s.threads[t]);
      next.(threads := s.threads[t := pc])
  }

  // ----- locks

  predicate HoldsPool(pc: Pc) { pc.InPool? || pc.WantReset? || pc.Resetting? || pc.Releasing? }

  predicate HoldsContainer(pc: Pc) {
    pc.Resetting? || pc.Disposing? || pc.WantRelease? || pc.Releasing? || pc.Touching?
  }

  predicate Names(pc: Pc) { !pc.Idle? && !pc.WantPool? && !pc.InPool? }

  /** On its way out of the free list, or on its way into it. */
  predicate InHand(pc: Pc) { pc.WantReset? || pc.Resetting? || pc.WantRelease? || pc.Releasing? }

  /** The recorded holders are the threads whose program counters say so: both kinds of lock exclude. */
  predicate Locked(s: State) {
    && (forall t :: 0 <= t < |s.threads| ==> (HoldsPool(s.threads[t]) <==> s.poolHolder == Some(t)))
    && (s.poolHolder.Some? ==> s.poolHolder.value < |s.threads|)
    && (forall t :: 0 <= t < |s.threads| && HoldsContainer(s.threads[t]) ==>
          s.threads[t].c in s.holders && s.holders[s.threads[t].c] == t)
    && forall c :: c in s.holders ==>
         && s.holders[c] < |s.threads| && HoldsContainer(s.threads[s.holders[c]])
         && s.threads[s.holders[c]].c == c
  }

  /** Disposed by exactly as many calls as were asked for. */
  predicate Exhausted(k: Counter) { k.current == k.target && k.target >= 1 }

  predicate InBounds(s: State) {
    && (forall i :: 0 <= i < |s.free| ==> s.free[i] < |s.counters|)
    && forall t :: 0 <= t < |s.threads| && Names(s.threads[t]) ==> s.threads[t].c < |s.counters|
  }

  /** The free list holds at most 100 distinct containers, all exhausted. */
  predicate FreeList(s: State)
    requires InBounds(s)
  {
    && |s.free| <= POOL_SIZE_MAX
    && (forall i, j :: 0 <= i < j < |s.free| ==> s.free[i] != s.free[j])
    && forall i :: 0 <= i < |s.free| ==> Exhausted(s.counters[s.free[i]])
  }

  /** Containers in hand are exhausted, not in the free list, and in one hand each. */
  predicate InTransit(s: State)
    requires InBounds(s)
  {
    && (forall t :: 0 <= t < |s.threads| && InHand(s.threads[t]) ==>
          Exhausted(s.counters[s.threads[t].c]) && s.threads[t].c !in s.free)
    && forall t, u :: 0 <= t < u < |s.threads| && InHand(s.threads[t]) && InHand(s.threads[u]) ==>
         s.threads[t].c != s.threads[u].c
  }

  predicate Inv(s: State) { Locked(s) && InBounds(s) && FreeList(s) && InTransit(s) }

  lemma StartInv(threads: nat)
    ensures Inv(Start(threads))
  {
  }

  /** The pool's holder and the container table after thread t moves on to `pc`. */
  function HolderAfter(s: State, t: nat, pc: Pc): Option<nat> {
    if HoldsPool(pc) then Some(t) else if s.poolHolder == Some(t) then None else s.poolHolder
  }

  function HoldersAfter(s: State, t: nat, pc: Pc): map<nat, nat>
    requires t < |s.threads|
  {
    var dropped := if HoldsContainer(s.threads[t]) then s.holders - {s.threads[t].c} else s.holders;
    if HoldsContainer(pc) then dropped[pc.c := t] else dropped
  }

  /** A thread that takes only free locks, and gives back what it leaves, keeps both exclusions. */
  lemma LocksPassed(s: State, next: State, t: nat, pc: Pc)
    requires Locked(s) && t < |s.threads| && next.threads == s.threads[t := pc]
    requires HoldsPool(pc) ==> s.poolHolder.None? || s.poolHolder == Some(t)
    requires HoldsContainer(pc) ==> pc.c !in s.holders || s.holders[pc.c] == t
    requires next.poolHolder == HolderAfter(s, t, pc) && next.holders == HoldersAfter(s, t, pc)
    ensures Locked(next)
  {
  }

  lemma LockedStep(s: State, t: nat, call: Call)
    requires Locked(s) && Enabled(s, t, call)
    ensures Locked(Step(s, t, call))
  {
    LocksAfter(s, t, call);
    LocksPassed(s, Step(s, t, call), t, Step(s, t, call).threads[t]);
  }

  lemma LocksAfter(s: State, t: nat, call: Call)
    requires Locked(s) && Enabled(s, t, call)
    ensures var next := Step(s, t, call); var pc := next.threads[t];
      && next.threads == s.threads[t := pc]
      && (HoldsPool(pc) ==> s.poolHolder.None? || s.poolHolder == Some(t))
      && (HoldsContainer(pc) ==> pc.c !in s.holders || s.holders[pc.c] == t)
      && next.poolHolder == HolderAfter(s, t, pc) && next.holders == HoldersAfter(s, t, pc)
  {
    assert HoldsPool(s.threads[t]) <==> s.poolHolder == Some(t);
    if HoldsContainer(s.threads[t]) {
      var c := s.threads[t].c;
      assert c in s.holders && s.holders[c] == t;
      assert s.holders == (s.holders - {c})[c := t];
    }
  }

  lemma InBoundsStep(s: State, t: nat, call: Call)
    requires InBounds(s) && Enabled(s, t, call)
    ensures InBounds(Step(s, t, call))
  {
  }

  lemma FreeListRelease(s: State, t: nat)
    requires InBounds(s) && FreeList(s) && InTransit(s) && Enabled(s, t, Go) && s.threads[t].Releasing?
    ensures InBounds(Step(s, t, Go)) && FreeList(Step(s, t, Go))
  {
  }

  lemma FreeListStep(s: State, t: nat, call: Call)
    requires InBounds(s) && FreeList(s) && InTransit(s) && Enabled(s, t, call)
    ensures InBounds(Step(s, t, call)) && FreeList(Step(s, t, call))
  {
    if call.Go? && s.threads[t].Releasing? {
      FreeListRelease(s, t);
    } else {
      InBoundsStep(s, t, call);
    }
  }

  /** Thread t moved on to `pc`, and no container in another hand was touched. */
  predicate Passed(s: State, next: State, t: nat, pc: Pc)
    requires InBounds(s) && InBounds(next)
  {
    && t < |s.threads| && |s.counters| <= |next.counters| && next.threads == s.threads[t := pc]
    && (forall u :: 0 <= u < |s.threads| && u != t && InHand(s.threads[u]) ==>
          && next.counters[s.threads[u].c] == s.counters[s.threads[u].c]
          && s.threads[u].c !in next.free
          && (InHand(pc) ==> s.threads[u].c != pc.c))
    && (InHand(pc) ==> pc.c < |next.counters| && Exhausted(next.counters[pc.c]) && pc.c !in next.free)
  }

  lemma HandsPassed(s: State, next: State, t: nat, pc: Pc)
    requires InBounds(s) && InTransit(s) && InBounds(next) && Passed(s, next, t, pc)
    ensures InTransit(next)
  {
  }

  lemma HandsAfter(s: State, t: nat, call: Call)
    requires InBounds(s) && FreeList(s) && InTransit(s) && Enabled(s, t, call)
    requires InBounds(Step(s, t, call))
    ensures Passed(s, Step(s, t, call), t, Step(s, t, call).threads[t])
  {
    if call.Go? && s.threads[t].InPool? {
      HandsAfterPop(s, t);
    } else if call.Go? && s.threads[t].Disposing? {
      HandsAfterCount(s, t);
    } else if call.Go? && s.threads[t].Releasing? {
      HandsAfterRelease(s, t);
    }
  }

  lemma HandsAfterCount(s: State, t: nat)
    requires InBounds(s) && FreeList(s) && InTransit(s) && Enabled(s, t, Go) && s.threads[t].Disposing?
    requires InBounds(Step(s, t, Go))
    ensures Passed(s, Step(s, t, Go), t, Step(s, t, Go).threads[t])
  {
  }

  lemma HandsAfterRelease(s: State, t: nat)
    requires InBounds(s) && FreeList(s) && InTransit(s) && Enabled(s, t, Go) && s.threads[t].Releasing?
    requires InBounds(Step(s, t, Go))
    ensures Passed(s, Step(s, t, Go), t, Step(s, t, Go).threads[t])
  {
  }

  lemma HandsAfterPop(s: State, t: nat)
    requires InBounds(s) && FreeList(s) && InTransit(s) && Enabled(s, t, Go) && s.threads[t].InPool?
    requires InBounds(Step(s, t, Go))
    ensures Passed(s, Step(s, t, Go), t, Step(s, t, Go).threads[t])
  {
  }

  lemma InTransitStep(s: State, t: nat, call: Call)
    requires InBounds(s) && FreeList(s) && InTransit(s) && Enabled(s, t, call)
    ensures InBounds(Step(s, t, call)) && InTransit(Step(s, t, call))
  {
    InBoundsStep(s, t, call);
    HandsAfter(s, t, call);
    HandsPassed(s, Step(s, t, call), t, Step(s, t, call).threads[t]);
  }

  lemma StepInv(s: State, t: nat, call: Call)
    requires Inv(s) && Enabled(s, t, call)
    ensures Inv(Step(s, t, call))
  {
    LockedStep(s, t, call);
    FreeListStep(s, t, call);
    InTransitStep(s, t, call);
  }

  // ----- what the log says

  /** The counter of container c as the log dictates it: Obtain starts it at 0 of 1, a successful
      Dispose counts one, a successful UpdateCounter sets the number needed. */
  function Replay(log: seq<Event>, c: nat): Counter {
    if log == [] then FRESH
    else
      var k, e := Replay(log[..|log| - 1], c), log[|log| - 1];
      if e.c != c then k
      else match e
        case Obtained(_) => FRESH
        case WasDisposed(_) => k.(current := k.current + 1)
        case Retargeted(_, target) => k.(target := target)
  }

  predicate EverObtained(log: seq<Event>, c: nat) {
    exists i :: 0 <= i < |log| && log[i] == Obtained(c)
  }

  /** Whenever a container is handed out again, it had been disposed since it was last handed out,
      exactly as often as the target last set since then. */
  predicate HandedOutExclusively(log: seq<Event>) {
    forall j :: 0 <= j < |log| && log[j].Obtained? && EverObtained(log[..j], log[j].c) ==>
      Exhausted(Replay(log[..j], log[j].c))
  }

  /** The real counters are the ones the log dictates. */
  predicate Faithful(s: State) {
    && (forall c :: 0 <= c < |s.counters| ==> s.counters[c] == Replay(s.log, c))
    && (forall i :: 0 <= i < |s.log| ==> s.log[i].c < |s.counters|)
    && HandedOutExclusively(s.log)
  }

  lemma ReplaySnoc(log: seq<Event>, e: Event, c: nat)
    ensures Replay(log + [e], c) ==
      var k := Replay(log, c);
      if e.c != c then k
      else match e
        case Obtained(_) => FRESH
        case WasDisposed(_) => k.(current := k.current + 1)
        case Retargeted(_, target) => k.(target := target)
  {
    assert (log + [e])[..|log|] == log;
  }

  lemma ExclusiveSnoc(log: seq<Event>, e: Event)
    requires HandedOutExclusively(log)
    requires e.Obtained? && EverObtained(log, e.c) ==> Exhausted(Replay(log, e.c))
    ensures HandedOutExclusively(log + [e])
  {
    var longer := log + [e];
    forall j | 0 <= j < |longer| && longer[j].Obtained? && EverObtained(longer[..j], longer[j].c)
      ensures Exhausted(Replay(longer[..j], longer[j].c))
    {
      assert longer[..j] == log[..j];
      if j == |log| {
        assert log[..j] == log;
      }
    }
  }

  /** One more event, with the counters moved as it dictates. */
  lemma FaithfulAfter(s: State, next: State, e: Event)
    requires Faithful(s) && next.log == s.log + [e] && e.c < |next.counters|
    requires |s.counters| <= |next.counters| <= |s.counters| + 1
    requires forall c :: 0 <= c < |s.counters| && c != e.c ==> next.counters[c] == s.counters[c]
    requires |next.counters| > |s.counters| ==> e == Obtained(|s.counters|)
    requires e.c < |s.counters| ==>
      match e
      case Obtained(c) => Exhausted(s.counters[c]) && next.counters[c] == FRESH
      case WasDisposed(c) => next.counters[c] == s.counters[c].(current := s.counters[c].current + 1)
      case Retargeted(c, target) => next.counters[c] == s.counters[c].(target := target)
    requires e.c == |s.counters| ==> next.counters[e.c] == FRESH
    ensures Faithful(next)
  {
    forall c | 0 <= c < |next.counters|
      ensures next.counters[c] == Replay(next.log, c)
    {
      ReplaySnoc(s.log, e, c);
    }
    assert e.Obtained? && EverObtained(s.log, e.c) ==> e.c < |s.counters|;
    ExclusiveSnoc(s.log, e);
  }

  lemma FaithfulStep(s: State, t: nat, call: Call)
    requires Inv(s) && Faithful(s) && Enabled(s, t, call)
    ensures Faithful(Step(s, t, call))
  {
    var next := Step(s, t, call);
    if |next.log| > |s.log| {
      FaithfulAfter(s, next, next.log[|s.log|]);
    }
  }

  // ----- runs

  datatype Turn = Turn(t: nat, call: Call)

  predicate Leads(s: State, turns: seq<Turn>, last: State)
    decreases |turns|
  {
    if turns == [] then last == s
    else
      && Enabled(s, turns[0].t, turns[0].call)
      && Leads(Step(s, turns[0].t, turns[0].call), turns[1..], last)
  }

  lemma {:induction false} RunKeepsInv(s: State, turns: seq<Turn>, last: State)
    requires Inv(s) && Faithful(s) && Leads(s, turns, last)
    ensures Inv(last) && Faithful(last)
    decreases |turns|
  {
    if turns != [] {
      StepInv(s, turns[0].t, turns[0].call);
      FaithfulStep(s, turns[0].t, turns[0].call);
      RunKeepsInv(Step(s, turns[0].t, turns[0].call), turns[1..], last);
    }
  }

  ghost predicate Reachable(s: State) { exists n: nat, turns :: Leads(Start(n), turns, s) }

  lemma ReachableInv(s: State)
    requires Reachable(s)
    ensures Inv(s) && Faithful(s)
  {
    var n: nat, turns :| Leads(Start(n), turns, s);
    StartInv(n);
    RunKeepsInv(Start(n), turns, s);
  }

  /** In every reachable state: the free list holds at most 100 distinct containers, `Data` fails on
      each, and no container was ever handed out twice without the disposals asked for in between. */
  lemma PoolExclusive(s: State)
    requires Reachable(s)
    ensures |s.free| <= POOL_SIZE_MAX
    ensures forall i, j :: 0 <= i < j < |s.free| ==> s.free[i] != s.free[j]
    ensures forall c :: c in s.free ==> c < |s.counters| && s.counters[c].Disposed()
    ensures HandedOutExclusively(s.log)
  {
    ReachableInv(s);
  }

  // ----- deadlock

  /** Thread t stands before a Lock call on a mutex that thread u holds. */
  predicate WaitsFor(s: State, t: nat, u: nat) {
    && t < |s.threads| && u < |s.threads|
    && var pc := s.threads[t];
       if pc.WantPool? || pc.WantRelease? then s.poolHolder == Some(u)
       else (pc.WantReset? || pc.WantDispose? || pc.WantTouch?) && pc.c in s.holders && s.holders[pc.c] == u
  }

  function Rank(pc: Pc): nat {
    match pc
    case WantReset(_) => 1
    case WantPool => 2
    case WantRelease(_) => 2
    case WantDispose(_) => 3
    case WantTouch(_, _) => 3
    case _ => 0
  }

  /** Waiting goes strictly down. The case that matters is a thread resetting the container it
      popped: whoever holds that container is not on its way to the pool, because a popped
      container is exhausted already. */
  lemma WaitingGoesDown(s: State, t: nat, u: nat)
    requires Inv(s) && WaitsFor(s, t, u)
    ensures Rank(s.threads[u]) < Rank(s.threads[t])
  {
    if s.threads[t].WantReset? {
      assert HoldsContainer(s.threads[u]) && s.threads[u].c == s.threads[t].c;
      assert InHand(s.threads[u]) ==> u == t;
    }
  }

  predicate WaitChain(s: State, chain: seq<nat>) {
    forall i :: 0 <= i < |chain| - 1 ==> WaitsFor(s, chain[i], chain[i + 1])
  }

  lemma {:induction false} ChainGoesDown(s: State, chain: seq<nat>)
    requires Inv(s) && |chain| >= 2 && WaitChain(s, chain)
    ensures chain[0] < |s.threads| && chain[|chain| - 1] < |s.threads|
    ensures Rank(s.threads[chain[|chain| - 1]]) < Rank(s.threads[chain[0]])
  {
    WaitingGoesDown(s, chain[0], chain[1]);
    if |chain| > 2 {
      ChainGoesDown(s, chain[1..]);
    }
  }

  /** No reachable state has a cyclic wait, of any length. */
  lemma NoCyclicWait(s: State, chain: seq<nat>)
    requires Reachable(s) && |chain| >= 2 && WaitChain(s, chain)
    ensures chain[0] != chain[|chain| - 1]
  {
    ReachableInv(s);
    ChainGoesDown(s, chain);
  }

  /** Every thread in the middle of a call can go on, or waits, directly or through others, for
      one that can. */
  lemma {:induction false} SomeoneCanGo(s: State, t: nat) returns (chain: seq<nat>)
    requires Inv(s) && t < |s.threads| && !s.threads[t].Idle?
    ensures |chain| >= 1 && chain[0] == t && WaitChain(s, chain)
    ensures Enabled(s, chain[|chain| - 1], Go)
    decreases Rank(s.threads[t])
  {
    var pc := s.threads[t];
    if Enabled(s, t, Go) {
      chain := [t];
    } else {
      var u := if pc.WantPool? || pc.WantRelease? then s.poolHolder.value else s.holders[pc.c];
      WaitingGoesDown(s, t, u);
      var rest := SomeoneCanGo(s, u);
      chain := [t] + rest;
      assert forall i :: 0 < i < |chain| - 1 ==> chain[i] == rest[i - 1] && chain[i + 1] == rest[i];
    }
  }
}
