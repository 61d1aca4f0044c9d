/** Pooled messages on a shared connection: the goroutines of one client obtain
    messages from the pool, fill them, send them under the write mutex and dispose
    of them (client/transportLayer/client.go, withMessage and writeMessage, over
    shared/utils/objectPool.go). The bytes that go out are read from the message's
    own buffer when they go out, so they are the right ones only if nobody else is
    handed that buffer in the meantime.

    The pool is the lock-level one of PoolLocks. A thread stands for whoever owns
    the message: where one goroutine passes it to another to dispose of, both are
    the same thread here. */
module PooledSends {
  import opened Bytes
  import opened Frames
  import opened Wrappers
  import P = PoolLocks
  import W = SharedWire

  datatype Stage = AtLock | AtHeader | AtPayload | AtCount

  datatype Phase =
    | Away
    | Getting                                            // inside Obtain
    | Owning(c: nat)
    | Looking(c: nat)                                    // inside Data
    | Sending(c: nat, meant: seq<byte>, stage: Stage)    // filled with `meant`, inside writeMessage
    | Giving(c: nat)                                     // inside Dispose

  datatype State = State(
    pool: P.State,
    contents: seq<seq<byte>>,       // header and payload in each container's buffer
    phases: seq<Phase>,
    todo: seq<seq<seq<byte>>>,      // messages each thread has still to send
    holder: Option<nat>,            // of the write mutex
    wire: seq<byte>,
    bytesSent: nat,
    log: seq<W.Entry>)

  function Start(plans: seq<seq<seq<byte>>>): State {
    State(P.Start(|plans|), [], seq(|plans|, _ => Away), plans, None, [], 0, [])
  }

  datatype Action =
    | Obtain(t: nat)
    | Look(t: nat)
    | Dispose(t: nat)
    | PoolGo(t: nat, made: seq<byte>)      // one step inside the pool; `made` is in a buffer it makes
    | Scribble(t: nat, bytes: seq<byte>)    // the owner changes its buffer, as a Read does
    | Fill(t: nat)                          // the owner sets its next message and calls writeMessage
    | SendGo(t: nat)

  predicate InPool(phase: Phase) { phase.Getting? || phase.Looking? || phase.Giving? }

  /** The pool operation an action starts. */
  function Call(s: State, a: Action): P.Call
    requires a.t < |s.phases| && (a.Look? || a.Dispose? ==> s.phases[a.t].Owning?)
  {
    match a
    case Obtain(_) => P.CallObtain
    case Look(t) => P.CallTouch(s.phases[t].c, P.Look)
    case Dispose(t) => P.CallDispose(s.phases[t].c)
    case _ => P.Go
  }

  predicate Enabled(s: State, a: Action) {
    && a.t < |s.phases| == |s.todo|
    && var phase := s.phases[a.t];
    match a
    case Obtain(t) => phase.Away? && P.Enabled(s.pool, t, P.CallObtain)
    case Look(t) => phase.Owning? && P.Enabled(s.pool, t, Call(s, a))
    case Dispose(t) => phase.Owning? && P.Enabled(s.pool, t, Call(s, a))
    case PoolGo(t, _) => InPool(phase) && P.Enabled(s.pool, t, P.Go)
    case Scribble(_, _) => phase.Owning? && phase.c < |s.contents|
    case Fill(t) => phase.Owning? && phase.c < |s.contents| && s.todo[t] != []
    case SendGo(_) =>
      && phase.Sending? && phase.c < |s.contents|
      && match phase.stage
         case AtLock => s.holder.None?
         case AtCount => true
         case _ => |s.contents[phase.c]| >= HEADER_SIZE
  }

  /** The container Obtain returns with its last step: the one it has reset, or a new one. */
  function Given(pool: P.State, t: nat): nat
    requires t < |pool.threads|
  {
    if pool.threads[t].Resetting? then pool.threads[t].c else |pool.counters|
  }

  /** Where a thread stands when its pool operation returns. */
  function Returned(s: State, t: nat): Phase
    requires t < |s.phases| && t < |s.pool.threads|
  {
    match s.phases[t]
    case Getting => Owning(Given(s.pool, t))
    case Looking(c) => Owning(c)
    case _ => Away
  }

  function SetPhase(s: State, t: nat, phase: Phase): State
    requires t < |s.phases|
  {
    s.(phases := s.phases[t := phase])
  }

  function SendStep(s: State, t: nat): State
    requires Enabled(s, SendGo(t))
  {
    var phase := s.phases[t];
    var bytes := s.contents[phase.c];
    match phase.stage
    case AtLock => SetPhase(s, t, phase.(stage := AtHeader)).(holder := Some(t))
    case AtHeader => SetPhase(s, t, phase.(stage := AtPayload)).(wire := s.wire + bytes[..HEADER_SIZE])
    case AtPayload => SetPhase(s, t, phase.(stage := AtCount)).(wire := s.wire + bytes[HEADER_SIZE..])
    case AtCount =>
      SetPhase(s, t, Owning(phase.c)).(holder := None, bytesSent := W.Wrap64(s.bytesSent + |bytes|),
                                       log := s.log + [W.Entry(t, bytes)])
  }

  function Step(s: State, a: Action): State
    requires Enabled(s, a)
  {
    match a
    case Obtain(t) => SetPhase(s, t, Getting).(pool := P.Step(s.pool, t, Call(s, a)))
    case Look(t) => SetPhase(s, t, Looking(s.phases[t].c)).(pool := P.Step(s.pool, t, Call(s, a)))
    case Dispose(t) => SetPhase(s, t, Giving(s.phases[t].c)).(pool := P.Step(s.pool, t, Call(s, a)))
    case PoolGo(t, made) =>
      var pool := P.Step(s.pool, t, P.Go);
      SetPhase(s, t, if pool.threads[t].Idle? then Returned(s, t) else s.phases[t]).(
        pool := pool,
        contents := if |pool.counters| > |s.pool.counters| then s.contents + [made] else s.contents)
    case Scribble(t, bytes) => s.(contents := s.contents[s.phases[t].c := bytes])
    case Fill(t) =>
      var c, f := s.phases[t].c, s.todo[t][0];
      SetPhase(s, t, Sending(c, f, AtLock)).(contents := s.contents[c := f], todo := s.todo[t := s.todo[t][1..]])
    case SendGo(t) => SendStep(s, t)
  }

  // ----- one owner for every live container

  predicate Aligned(s: State) {
    && |s.phases| == |s.pool.threads| == |s.todo|
    && |s.contents| == |s.pool.counters|
  }

  /** The thread is where its phase says inside the pool. */
  predicate Fits(phase: Phase, pc: P.Pc) {
    match phase
    case Getting => pc.WantPool? || pc.InPool? || pc.WantReset? || pc.Resetting?
    case Looking(c) => pc == P.WantTouch(c, P.Look) || pc == P.Touching(c, P.Look)
    case Giving(c) => pc == P.WantDispose(c) || pc == P.Disposing(c) || pc == P.WantRelease(c) || pc == P.Releasing(c)
    case _ => pc.Idle?
  }

  /** The container a thread was handed and has not yet given back. */
  function Owned(phase: Phase, pc: P.Pc): Option<nat> {
    match phase
    case Owning(c) => Some(c)
    case Looking(c) => Some(c)
    case Sending(c, _, _) => Some(c)
    case Giving(c) => if pc.WantDispose? || pc.Disposing? then Some(c) else None
    case _ => None
  }

  function OwnedBy(s: State, t: nat): Option<nat>
    requires Aligned(s) && t < |s.phases|
  {
    Owned(s.phases[t], s.pool.threads[t])
  }

  predicate InStep(s: State)
    requires Aligned(s)
  {
    forall t :: 0 <= t < |s.phases| ==> Fits(s.phases[t], s.pool.threads[t])
  }

  /** An owned container is live, and nobody else owns it. */
  predicate OwnedAlone(s: State)
    requires Aligned(s)
  {
    && (forall t :: 0 <= t < |s.phases| && OwnedBy(s, t).Some? ==>
          OwnedBy(s, t).value < |s.contents| && s.pool.counters[OwnedBy(s, t).value] == P.FRESH)
    && forall t, u :: 0 <= t < u < |s.phases| && OwnedBy(s, t).Some? ==> OwnedBy(s, t) != OwnedBy(s, u)
  }

  /** The buffer of a message being sent still holds what it was filled with. */
  predicate Intact(s: State)
    requires Aligned(s) && OwnedAlone(s)
  {
    forall t :: 0 <= t < |s.phases| && s.phases[t].Sending? ==>
      OwnedBy(s, t) == Some(s.phases[t].c) && s.contents[s.phases[t].c] == s.phases[t].meant
  }

  predicate Inv(s: State) {
    P.Inv(s.pool) && Aligned(s) && InStep(s) && OwnedAlone(s) && Intact(s)
  }

  lemma StartInv(plans: seq<seq<seq<byte>>>)
    ensures Inv(Start(plans))
  {
    P.StartInv(|plans|);
  }

  /** A step inside the pool leaves every counter alone but the one in the thread's hand, which it
      resets or counts, and may add a new container. */
  lemma CountersKept(pool: P.State, t: nat, call: P.Call, c: nat)
    requires P.InBounds(pool) && P.Enabled(pool, t, call) && c < |pool.counters|
    requires call.Go? && (pool.threads[t].Resetting? || pool.threads[t].Disposing?) ==> pool.threads[t].c != c
    requires call.Go? && pool.threads[t].Touching? ==> pool.threads[t].op.Look?
    ensures var next := P.Step(pool, t, call);
      c < |next.counters| <= |pool.counters| + 1 && next.counters[c] == pool.counters[c]
  {
  }

  lemma ThreadsKept(pool: P.State, t: nat, call: P.Call)
    requires P.Enabled(pool, t, call)
    ensures var next := P.Step(pool, t, call);
      && |next.threads| == |pool.threads|
      && |pool.counters| <= |next.counters| <= |pool.counters| + 1
      && forall u :: 0 <= u < |pool.threads| && u != t ==> next.threads[u] == pool.threads[u]
  {
  }

  /** What the thread owns after its own pool step it owned before, or the container is new, or it was
      exhausted. */
  predicate OwnsRightly(s: State, next: State, t: nat)
    requires Aligned(s) && Aligned(next) && t < |s.phases| && t < |next.phases|
  {
    && Fits(next.phases[t], next.pool.threads[t]) && !next.phases[t].Sending?
    && match OwnedBy(next, t)
       case None => true
       case Some(c) =>
         && c < |next.contents| && next.pool.counters[c] == P.FRESH
         && (OwnedBy(s, t) == Some(c) || c >= |s.contents| || P.Exhausted(s.pool.counters[c]))
  }

  predicate IsCall(a: Action) { a.Obtain? || a.Look? || a.Dispose? }

  lemma OwnsAfterCall(s: State, a: Action)
    requires Inv(s) && Enabled(s, a) && IsCall(a)
    ensures Aligned(Step(s, a)) && OwnsRightly(s, Step(s, a), a.t)
  {
    assert !a.Obtain? ==> OwnedBy(s, a.t) == Some(s.phases[a.t].c);
  }

  lemma GrowsByOne(s: State, a: Action)
    requires Aligned(s) && Enabled(s, a) && a.PoolGo?
    ensures Aligned(Step(s, a))
  {
    ThreadsKept(s.pool, a.t, P.Go);
  }

  lemma OwnsAfterObtain(s: State, a: Action)
    requires Inv(s) && Enabled(s, a) && a.PoolGo? && s.phases[a.t].Getting?
    ensures Aligned(Step(s, a)) && OwnsRightly(s, Step(s, a), a.t)
  {
    GrowsByOne(s, a);
  }

  lemma OwnsAfterLook(s: State, a: Action)
    requires Inv(s) && Enabled(s, a) && a.PoolGo? && s.phases[a.t].Looking?
    ensures Aligned(Step(s, a)) && OwnsRightly(s, Step(s, a), a.t)
  {
    GrowsByOne(s, a);
    assert OwnedBy(s, a.t) == Some(s.phases[a.t].c);
  }

  lemma OwnsAfterDispose(s: State, a: Action)
    requires Inv(s) && Enabled(s, a) && a.PoolGo? && s.phases[a.t].Giving?
    ensures Aligned(Step(s, a)) && OwnsRightly(s, Step(s, a), a.t)
  {
    GrowsByOne(s, a);
    var pc := s.pool.threads[a.t];
    assert pc.WantDispose? || pc.Disposing? ==> OwnedBy(s, a.t) == Some(s.phases[a.t].c);
  }

  /** The thread at work on a counter is not at another thread's container. */
  lemma NotAnothers(s: State, t: nat, u: nat)
    requires Inv(s) && t < |s.phases| && u < |s.phases| && t != u && OwnedBy(s, u).Some?
    ensures var pc := s.pool.threads[t];
      && (pc.Resetting? || pc.Disposing? ==> pc.c != OwnedBy(s, u).value)
      && (pc.Touching? ==> pc.op.Look?)
  {
    var pc := s.pool.threads[t];
    assert Fits(s.phases[t], pc);
    assert pc.Disposing? ==> OwnedBy(s, t) == Some(pc.c);
    assert pc.Resetting? ==> P.Exhausted(s.pool.counters[pc.c]);
  }

  /** Nobody's container is touched by a pool step of another thread. */
  lemma OthersKept(s: State, a: Action, u: nat)
    requires Inv(s) && Enabled(s, a) && (IsCall(a) || a.PoolGo?) && u < |s.phases| && u != a.t
    ensures OwnedBy(s, u).Some? ==>
      var c := OwnedBy(s, u).value;
      && c < |s.contents| <= |Step(s, a).contents| && c < |Step(s, a).pool.counters|
      && Step(s, a).pool.counters[c] == P.FRESH
      && Step(s, a).contents[c] == s.contents[c]
  {
    if OwnedBy(s, u).Some? {
      NotAnothers(s, a.t, u);
      CountersKept(s.pool, a.t, Call(s, a), OwnedBy(s, u).value);
    }
  }

  predicate OthersUntouched(s: State, next: State, t: nat)
    requires Aligned(s) && Aligned(next)
  {
    && |s.phases| == |next.phases| && |s.contents| <= |next.contents|
    && forall u :: 0 <= u < |s.phases| && u != t ==>
         && next.phases[u] == s.phases[u] && next.pool.threads[u] == s.pool.threads[u]
         && (OwnedBy(s, u).Some? ==>
               && OwnedBy(s, u).value < |s.contents|
               && next.pool.counters[OwnedBy(s, u).value] == P.FRESH
               && next.contents[OwnedBy(s, u).value] == s.contents[OwnedBy(s, u).value])
  }

  lemma OthersKeptAll(s: State, a: Action)
    requires Inv(s) && Enabled(s, a) && (IsCall(a) || a.PoolGo?) && Aligned(Step(s, a))
    ensures OthersUntouched(s, Step(s, a), a.t)
  {
    ThreadsKept(s.pool, a.t, Call(s, a));
    forall u | 0 <= u < |s.phases| && u != a.t && OwnedBy(s, u).Some?
      ensures OwnedBy(s, u).value < |s.contents|
      ensures Step(s, a).pool.counters[OwnedBy(s, u).value] == P.FRESH
      ensures Step(s, a).contents[OwnedBy(s, u).value] == s.contents[OwnedBy(s, u).value]
    {
      OthersKept(s, a, u);
    }
  }

  /** One thread changed what it owns, in the right way, and nothing else changed for the others. */
  lemma OneMoved(s: State, next: State, t: nat)
    requires Inv(s) && P.Inv(next.pool) && Aligned(next) && t < |s.phases| == |next.phases|
    requires OwnsRightly(s, next, t) && OthersUntouched(s, next, t)
    ensures Inv(next)
  {
    assert forall u :: 0 <= u < |s.phases| && u != t ==> OwnedBy(next, u) == OwnedBy(s, u);
    forall u | 0 <= u < |s.phases| && u != t && OwnedBy(next, u).Some?
      ensures OwnedBy(next, u) != OwnedBy(next, t)
    {
      assert OwnedBy(s, u) == OwnedBy(next, u) && s.pool.counters[OwnedBy(s, u).value] == P.FRESH;
    }
  }

  lemma PoolStepOwns(s: State, a: Action)
    requires Inv(s) && Enabled(s, a) && (IsCall(a) || a.PoolGo?)
    ensures Aligned(Step(s, a)) && OwnsRightly(s, Step(s, a), a.t)
  {
    if IsCall(a) {
      OwnsAfterCall(s, a);
    } else if s.phases[a.t].Getting? {
      OwnsAfterObtain(s, a);
    } else if s.phases[a.t].Looking? {
      OwnsAfterLook(s, a);
    } else {
      OwnsAfterDispose(s, a);
    }
  }

  lemma PoolStep(s: State, a: Action)
    requires Inv(s) && Enabled(s, a) && (IsCall(a) || a.PoolGo?)
    ensures Inv(Step(s, a))
  {
    P.StepInv(s.pool, a.t, Call(s, a));
    PoolStepOwns(s, a);
    OthersKeptAll(s, a);
    OneMoved(s, Step(s, a), a.t);
  }

  /** The owner of a container changed that buffer alone and still owns it. */
  lemma OwnerMoved(s: State, next: State, t: nat, c: nat)
    requires Inv(s) && Aligned(next) && next.pool == s.pool && t < |s.phases|
    requires OwnedBy(s, t) == Some(c) == OwnedBy(next, t) && Fits(next.phases[t], next.pool.threads[t])
    requires forall u :: 0 <= u < |s.phases| && u != t ==> next.phases[u] == s.phases[u]
    requires forall d :: 0 <= d < |s.contents| && d != c ==> next.contents[d] == s.contents[d]
    requires next.phases[t].Sending? ==> c < |next.contents| && next.contents[c] == next.phases[t].meant
    ensures Inv(next)
  {
    assert forall u :: 0 <= u < |s.phases| && u != t ==> OwnedBy(next, u) == OwnedBy(s, u) != OwnedBy(s, t);
  }

  /** The owner changes its own buffer, fills it, or goes on with its send. */
  lemma OwnerStep(s: State, a: Action)
    requires Inv(s) && Enabled(s, a) && (a.Scribble? || a.Fill? || a.SendGo?)
    ensures Inv(Step(s, a))
  {
    assert OwnedBy(s, a.t) == Some(s.phases[a.t].c);
    OwnerMoved(s, Step(s, a), a.t, s.phases[a.t].c);
  }

  lemma StepInv(s: State, a: Action)
    requires Inv(s) && Enabled(s, a)
    ensures Inv(Step(s, a))
  {
    if IsCall(a) || a.PoolGo? {
      PoolStep(s, a);
    } else {
      OwnerStep(s, a);
    }
  }

  // ----- the sends are those of SharedWire

  function AbsPc(phase: Phase): W.Pc {
    match phase
    case Sending(_, f, AtLock) => W.WantLock(f)
    case Sending(_, f, AtHeader) => W.AtHeader(f)
    case Sending(_, f, AtPayload) => W.AtPayload(f)
    case Sending(_, f, AtCount) => W.AtCount(f)
    case _ => W.Idle
  }

  /** What SharedWire sees: messages as values, no buffers and no pool. */
  function Abs(s: State): W.State
    requires Aligned(s)
  {
    W.State(seq(|s.phases|, t requires 0 <= t < |s.phases| => W.Sender(s.todo[t], AbsPc(s.phases[t]))),
      s.holder, s.wire, s.bytesSent, s.log)
  }

  lemma SendersMove(s: State, next: State, t: nat)
    requires Aligned(s) && Aligned(next) && |s.phases| == |next.phases| && t < |s.phases|
    requires forall u :: 0 <= u < |s.phases| && u != t ==> next.phases[u] == s.phases[u] && next.todo[u] == s.todo[u]
    ensures Abs(next).senders == Abs(s).senders[t := W.Sender(next.todo[t], AbsPc(next.phases[t]))]
  {
  }

  predicate Sends(a: Action) { a.Fill? || a.SendGo? }

  lemma FillIsSend(s: State, a: Action)
    requires Enabled(s, a) && Inv(s) && Inv(Step(s, a)) && a.Fill?
    ensures W.Enabled(Abs(s), a.t) && W.Step(Abs(s), a.t) == Abs(Step(s, a))
  {
    SendersMove(s, Step(s, a), a.t);
  }

  lemma SendGoIsSend(s: State, a: Action)
    requires Enabled(s, a) && Inv(s) && Inv(Step(s, a)) && a.SendGo?
    ensures W.Enabled(Abs(s), a.t) && W.Step(Abs(s), a.t) == Abs(Step(s, a))
  {
    assert s.contents[s.phases[a.t].c] == s.phases[a.t].meant;
    SendersMove(s, Step(s, a), a.t);
  }

  /** Each step is a step of SharedWire by the same thread, or nothing SharedWire can see. */
  lemma StepIsSend(s: State, a: Action)
    requires Enabled(s, a) && Inv(s) && Inv(Step(s, a)) && Sends(a)
    ensures W.Enabled(Abs(s), a.t) && W.Step(Abs(s), a.t) == Abs(Step(s, a))
  {
    if a.Fill? {
      FillIsSend(s, a);
    } else {
      SendGoIsSend(s, a);
    }
  }

  lemma StepIsUnseen(s: State, a: Action)
    requires Enabled(s, a) && Inv(s) && Inv(Step(s, a)) && !Sends(a)
    ensures Abs(Step(s, a)) == Abs(s)
  {
    SendersMove(s, Step(s, a), a.t);
    assert Abs(s).senders[a.t := Abs(s).senders[a.t]] == Abs(s).senders;
  }

  // ----- runs

  predicate Leads(s: State, acts: seq<Action>, last: State)
    decreases |acts|
  {
    if acts == [] then last == s
    else Enabled(s, acts[0]) && Leads(Step(s, acts[0]), acts[1..], last)
  }

  /** The steps of SharedWire in a run. */
  function Turns(acts: seq<Action>): seq<nat> {
    if acts == [] then [] else (if Sends(acts[0]) then [acts[0].t] else []) + Turns(acts[1..])
  }

  /** Refinement: every run over pooled buffers is a run of SharedWire. */
  lemma {:induction false} RunsAreSends(s: State, acts: seq<Action>, last: State)
    requires Inv(s) && Leads(s, acts, last)
    ensures Inv(last) && W.Leads(Abs(s), Turns(acts), Abs(last))
    decreases |acts|
  {
    if acts != [] {
      var a := acts[0];
      StepInv(s, a);
      RunsAreSends(Step(s, a), acts[1..], last);
      if Sends(a) {
        StepIsSend(s, a);
        assert Turns(acts)[1..] == Turns(acts[1..]);
      } else {
        StepIsUnseen(s, a);
        assert Turns(acts) == Turns(acts[1..]);
      }
    }
  }

  /** On every run: a container a thread owns, until its own Dispose has counted, is live, so Data succeeds
      on it; no other thread owns it, it is not in the free list, and no Obtain has it in hand; and while
      it is being sent its buffer holds what it was filled with. */
  lemma OwnedUntilDisposed(plans: seq<seq<seq<byte>>>, acts: seq<Action>, s: State, t: nat)
    requires Leads(Start(plans), acts, s) && t < |plans|
    ensures Aligned(s) && |s.phases| == |plans|
    ensures OwnedBy(s, t).Some? ==>
      var c := OwnedBy(s, t).value;
      && c < |s.contents| && !s.pool.counters[c].Disposed() && c !in s.pool.free
      && (forall u :: 0 <= u < |s.phases| && u != t ==> OwnedBy(s, u) != Some(c))
      && (forall u :: 0 <= u < |s.phases| && P.InHand(s.pool.threads[u]) ==> s.pool.threads[u].c != c)
      && (s.phases[t].Sending? ==> s.contents[c] == s.phases[t].meant)
  {
    StartInv(plans);
    RunsAreSends(Start(plans), acts, s);
    SizesKept(Start(plans), acts, s);
    if OwnedBy(s, t).Some? {
      var c := OwnedBy(s, t).value;
      assert s.pool.counters[c] == P.FRESH;
      forall u | 0 <= u < |s.phases| && u != t ensures OwnedBy(s, u) != Some(c) { }
    }
  }

  lemma {:induction false} SizesKept(s: State, acts: seq<Action>, last: State)
    requires Leads(s, acts, last)
    ensures |last.phases| == |s.phases|
    decreases |acts|
  {
    if acts != [] {
      SizesKept(Step(s, acts[0]), acts[1..], last);
    }
  }

  /** So what goes out of the reused buffers is what was meant: at every moment of every run the wire parses
      into the completed messages in order, and each thread's messages appear once and in its own order. */
  lemma PooledWire(plans: seq<seq<seq<byte>>>, crc: Crc, acts: seq<Action>, s: State)
    requires W.AllPlanned(plans, crc) && Leads(Start(plans), acts, s)
    ensures Aligned(s) && W.Locked(Abs(s)) && |s.phases| == |plans|
    ensures ParseAll(s.wire, crc) == Parsed(W.Whole(Abs(s)), W.Rest(Abs(s)))
    ensures s.holder.None? ==> ParseAll(s.wire, crc) == Parsed(W.FramesOf(s.log), [])
    ensures forall t :: 0 <= t < |plans| ==>
      W.SentBy(s.log, t) + W.InFlight(AbsPc(s.phases[t])) + s.todo[t] == plans[t]
    ensures s.bytesSent == W.Wrap64(W.TotalSize(s.log))
  {
    StartInv(plans);
    RunsAreSends(Start(plans), acts, s);
    assert Abs(Start(plans)).senders == W.Start(plans).senders;
    W.WireIsInterleaving(plans, crc, Turns(acts), Abs(s));
    forall t | 0 <= t < |plans|
      ensures W.SentBy(s.log, t) + W.InFlight(AbsPc(s.phases[t])) + s.todo[t] == plans[t]
    {
      assert Abs(s).senders[t] == W.Sender(s.todo[t], AbsPc(s.phases[t]));
    }
  }
}
