/** Sends on a shared connection come to an end: nothing the senders of SharedWire
    do can go on for ever, and when nothing can be done any more every message of
    every plan is on the wire (client/transportLayer/client.go, writeMessage). */
module WireCompletion {
  import opened Bytes
  import opened Frames
  import opened SharedWire
  import opened Wrappers

  /** Steps from taking up a message to giving back the mutex. */
  const STEPS := 5

  function Left(pc: Pc): nat {
    match pc
    case Idle => 0
    case WantLock(_) => 4
    case AtHeader(_) => 3
    case AtPayload(_) => 2
    case AtCount(_) => 1
  }

  function LeftOf(sender: Sender): nat { STEPS * |sender.todo| + Left(sender.pc) }

  function Work(senders: seq<Sender>): nat {
    if senders == [] then 0 else LeftOf(senders[0]) + Work(senders[1..])
  }

  function Messages(plans: seq<seq<seq<byte>>>): nat {
    if plans == [] then 0 else |plans[0]| + Messages(plans[1..])
  }

  lemma {:induction false} WorkAfter(senders: seq<Sender>, t: nat, sender: Sender)
    requires t < |senders|
    ensures Work(senders[t := sender]) == Work(senders) - LeftOf(senders[t]) + LeftOf(sender)
  {
    if t == 0 {
      assert senders[0 := sender][1..] == senders[1..];
    } else {
      WorkAfter(senders[1..], t - 1, sender);
      assert senders[t := sender][1..] == senders[1..][t - 1 := sender];
    }
  }

  lemma {:induction false} NoWork(senders: seq<Sender>)
    ensures Work(senders) == 0 <==> forall t :: 0 <= t < |senders| ==> senders[t] == Sender([], Idle)
  {
    if senders != [] {
      NoWork(senders[1..]);
      assert forall t :: 0 <= t < |senders[1..]| ==> senders[1..][t] == senders[t + 1];
      assert LeftOf(senders[0]) == 0 <==> senders[0] == Sender([], Idle);
      if forall t :: 0 <= t < |senders| ==> senders[t] == Sender([], Idle) {
        assert forall t :: 0 <= t < |senders[1..]| ==> senders[1..][t] == Sender([], Idle);
      } else if Work(senders[1..]) == 0 {
        var t :| 0 <= t < |senders| && senders[t] != Sender([], Idle);
        assert t > 0 ==> senders[1..][t - 1] == senders[t];
      }
    }
  }

  lemma {:induction false} PlannedWork(senders: seq<Sender>, plans: seq<seq<seq<byte>>>)
    requires |senders| == |plans| && forall t :: 0 <= t < |plans| ==> senders[t] == Sender(plans[t], Idle)
    ensures Work(senders) == STEPS * Messages(plans)
  {
    if plans != [] {
      PlannedWork(senders[1..], plans[1..]);
    }
  }

  lemma StepWorks(s: State, t: nat)
    requires Enabled(s, t)
    ensures Work(s.senders) == Work(Step(s, t).senders) + 1
  {
    WorkAfter(s.senders, t, Step(s, t).senders[t]);
  }

  lemma {:induction false} RunWorks(s: State, turns: seq<nat>, last: State)
    requires Leads(s, turns, last)
    ensures Work(s.senders) == |turns| + Work(last.senders)
    decreases |turns|
  {
    if turns != [] {
      StepWorks(s, turns[0]);
      RunWorks(Step(s, turns[0]), turns[1..], last);
    }
  }

  /** As long as there is work somebody can go: whoever holds the mutex, or else anybody with a message. */
  lemma SomeoneCanSend(s: State, plans: seq<seq<seq<byte>>>, crc: Crc)
    requires Inv(s, plans, crc) && AllPlanned(plans, crc) && Work(s.senders) > 0
    ensures exists t :: Enabled(s, t)
  {
    NoWork(s.senders);
    var t :| 0 <= t < |s.senders| && s.senders[t] != Sender([], Idle);
    var u := if s.holder.Some? then s.holder.value else t;
    if !s.senders[u].pc.Idle? {
      InFlightIsFrame(s, plans, crc, u);
    }
    assert Enabled(s, u);
  }

  /** Without work everything of every plan has been sent. */
  predicate AllSent(s: State, plans: seq<seq<seq<byte>>>, crc: Crc) {
    && ParseAll(s.wire, crc) == Parsed(FramesOf(s.log), [])
    && forall t :: 0 <= t < |plans| ==> SentBy(s.log, t) == plans[t]
  }

  lemma NothingInFlight(s: State, plans: seq<seq<seq<byte>>>, t: nat)
    requires Planned(s, plans) && t < |plans| && s.senders[t] == Sender([], Idle)
    ensures SentBy(s.log, t) == plans[t]
  {
    assert SentBy(s.log, t) + [] + [] == plans[t];
  }

  lemma EndedSent(plans: seq<seq<seq<byte>>>, crc: Crc, turns: seq<nat>, s: State)
    requires AllPlanned(plans, crc) && Leads(Start(plans), turns, s) && Work(s.senders) == 0
    ensures AllSent(s, plans, crc) && forall t :: !Enabled(s, t)
  {
    NoWork(s.senders);
    WireIsInterleaving(plans, crc, turns, s);
    forall t | 0 <= t < |plans|
      ensures SentBy(s.log, t) == plans[t]
    {
      NothingInFlight(s, plans, t);
    }
  }

  lemma UnendedGoesOn(plans: seq<seq<seq<byte>>>, crc: Crc, turns: seq<nat>, s: State)
    requires AllPlanned(plans, crc) && Leads(Start(plans), turns, s) && Work(s.senders) > 0
    ensures exists t :: Enabled(s, t)
  {
    StartInv(plans, crc);
    RunKeepsInv(Start(plans), plans, crc, turns, s);
    SomeoneCanSend(s, plans, crc);
  }

  /** Every run is at most five steps for each message long, and it is that long exactly when no sender can go
      on; then the wire parses into all the messages of all the plans, each sender's in its own order. */
  lemma RunsComplete(plans: seq<seq<seq<byte>>>, crc: Crc, turns: seq<nat>, s: State)
    requires AllPlanned(plans, crc) && Leads(Start(plans), turns, s)
    ensures |turns| <= STEPS * Messages(plans)
    ensures |turns| == STEPS * Messages(plans) <==> forall t :: !Enabled(s, t)
    ensures |turns| == STEPS * Messages(plans) ==> AllSent(s, plans, crc)
  {
    PlannedWork(Start(plans).senders, plans);
    RunWorks(Start(plans), turns, s);
    if Work(s.senders) > 0 {
      UnendedGoesOn(plans, crc, turns, s);
    } else {
      EndedSent(plans, crc, turns, s);
    }
  }
}
