/** The list of registered connections
    (transporter/manager/connectionManager/connectionManager.go), as one
    goroutine sees it while it holds the mutex. Its set of elements is the
    `registered` component of module Connections. */
module ConnectionRegistry {
  import opened Connections

  /** The list without its first c. */
  function Dropped(cs: seq<Conn>, c: Conn): seq<Conn> {
    if cs == [] then [] else if cs[0] == c then cs[1..] else [cs[0]] + Dropped(cs[1..], c)
  }

  lemma {:induction false} DroppedAt(cs: seq<Conn>, c: Conn, i: nat)
    requires i < |cs| && cs[i] == c && c !in cs[..i]
    ensures Dropped(cs, c) == cs[..i] + cs[i + 1..]
  {
    if i > 0 {
      assert cs[1..][..i - 1] == cs[..i][1..];
      DroppedAt(cs[1..], c, i - 1);
      assert cs[..i] == [cs[0]] + cs[1..][..i - 1];
    }
  }

  lemma {:induction false} DroppedNone(cs: seq<Conn>, c: Conn)
    requires c !in cs
    ensures Dropped(cs, c) == cs
  {
    if cs != [] {
      DroppedNone(cs[1..], c);
    }
  }

  lemma ConsElements(c: Conn, cs: seq<Conn>)
    ensures Elements([c] + cs) == {c} + Elements(cs)
    ensures Distinct([c] + cs) <==> Distinct(cs) && c !in cs
  {
    assert forall d :: d in [c] + cs <==> d == c || d in cs;
    if Distinct([c] + cs) {
      forall i | 0 <= i < |cs|
        ensures cs[i] != c
      {
        assert ([c] + cs)[0] == c && ([c] + cs)[i + 1] == cs[i];
      }
      forall i, j | 0 <= i < j < |cs|
        ensures cs[i] != cs[j]
      {
        assert ([c] + cs)[i + 1] == cs[i] && ([c] + cs)[j + 1] == cs[j];
      }
    }
  }

  /** Removing from a list without repetitions removes exactly that connection from the set. */
  lemma {:induction false} DroppedIsRemoved(cs: seq<Conn>, c: Conn)
    requires Distinct(cs)
    ensures Distinct(Dropped(cs, c)) && Elements(Dropped(cs, c)) == Elements(cs) - {c}
  {
    if cs != [] {
      assert cs == [cs[0]] + cs[1..];
      ConsElements(cs[0], cs[1..]);
      if cs[0] == c {
        assert c !in Elements(cs[1..]);
      } else {
        DroppedIsRemoved(cs[1..], c);
        assert cs[0] !in Elements(cs[1..]) && cs[0] !in Elements(Dropped(cs[1..], c));
        ConsElements(cs[0], Dropped(cs[1..], c));
      }
    }
  }

  class Registry {
    var connections: seq<Conn>

    ghost predicate Valid()
      reads this
    {
      Distinct(connections)
    }

    /** What module Connections calls `registered`. */
    ghost function Registered(): set<Conn>
      reads this
    {
      Elements(connections)
    }

    constructor ()
      ensures Valid() && Registered() == {}
    {
      connections := [];
    }

    /** PushFront of a connection that was just accepted. */
    method Register(c: Conn)
      requires Valid() && c !in Registered()
      modifies this
      ensures Valid() && connections == [c] + old(connections)
      ensures Registered() == old(Registered()) + {c}
    {
      connections := [c] + connections;
      forall d | d in old(Registered()) + {c} ensures d in connections {
        if d != c {
          var j :| 0 <= j < |old(connections)| && old(connections)[j] == d;
          assert connections[j + 1] == d;
        }
      }
    }

    /** The locked part of internalCloseClient: whether the connection was still there, and removing it. */
    method Unregister(c: Conn) returns (found: bool)
      requires Valid()
      modifies this
      ensures found <==> c in old(Registered())
      ensures Valid() && connections == Dropped(old(connections), c)
      ensures Registered() == old(Registered()) - {c}
    {
      DroppedIsRemoved(connections, c);
      var i := 0;
      while i < |connections| && connections[i] != c
        invariant i <= |connections| && c !in connections[..i]
      {
        i := i + 1;
      }
      found := i < |connections|;
      if found {
        DroppedAt(connections, c, i);
        connections := connections[..i] + connections[i + 1..];
      } else {
        assert connections[..i] == connections;
        DroppedNone(connections, c);
      }
    }
  }

  /** The step of module Connections at the registry is Unregister: same answer, same set. */
  lemma RegistryStep(s: State, a: nat, cs: seq<Conn>)
    requires a < |s.agents| && s.agents[a].AtRegistry? && Distinct(cs) && Elements(cs) == s.registered
    ensures var c, next := s.agents[a].c, Step(s, Go(a));
      && Elements(Dropped(cs, c)) == next.registered
      && (next.agents[a].AtChannel? <==> c in cs)
  {
    DroppedIsRemoved(cs, s.agents[a].c);
  }
}
