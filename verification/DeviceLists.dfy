/** The device list of the smart-socket client: the parsing loops of DeviceList
    (client/adb/smartSocket.go), specified by the text they parse. */
module DeviceLists {
  import opened Bytes

  const TAB: byte := 0x09
  const NEWLINE: byte := 0x0A

  datatype Device = Device(id: seq<byte>, kind: seq<byte>)

  function Record(d: Device): seq<byte> { d.id + [TAB] + d.kind }

  /** The list as the adb server prints it. */
  function Print(ds: seq<Device>): seq<byte> {
    if ds == [] then [] else Record(ds[0]) + [NEWLINE] + Print(ds[1..])
  }

  predicate Clean(d: Device) { TAB !in d.id && NEWLINE !in d.kind }

  predicate AllClean(ds: seq<Device>) { forall i :: 0 <= i < |ds| ==> Clean(ds[i]) }

  datatype Parsed = Devices(devices: seq<Device>) | OutOfRange

  /** A list is answered if the body is its printed form, or that without its last newline, and its
      records can be told apart; slicing goes out of range (a panic) if, after whole records, something
      without a tab is left. */
  ghost predicate Answers(body: seq<byte>, r: Parsed) {
    match r
    case Devices(ds) => AllClean(ds) && (body == Print(ds) || body + [NEWLINE] == Print(ds))
    case OutOfRange => exists ds, rest :: AllClean(ds) && Leaves(body, ds, rest) && rest != [] && TAB !in rest
  }

  predicate Leaves(body: seq<byte>, ds: seq<Device>, rest: seq<byte>) { body == Print(ds) + rest }

  lemma {:induction false} PrintSnoc(ds: seq<Device>, d: Device)
    ensures Print(ds + [d]) == Print(ds) + Record(d) + [NEWLINE]
  {
    if ds != [] {
      assert (ds + [d])[1..] == ds[1..] + [d];
      PrintSnoc(ds[1..], d);
    }
  }

  // ----- the loops

  lemma Whole(body: seq<byte>, last: nat, t: nat, e: nat)
    requires last <= t < e <= |body| && body[t] == TAB
    ensures body[..e] == body[..last] + Record(Device(body[last..t], body[t + 1..e]))
    ensures e < |body| && body[e] == NEWLINE ==> body[..e + 1] == body[..e] + [NEWLINE]
  {
  }

  predicate Lacks(body: seq<byte>, from: nat, to: nat, b: byte)
    requires to <= |body|
  {
    forall i :: from <= i < to ==> body[i] != b
  }

  /** Where the outer loop stands; one past the end if the last newline was missing. */
  predicate Progress(body: seq<byte>, list: seq<Device>, last: nat) {
    && last <= |body| + 1 && AllClean(list)
    && if last <= |body| then body[..last] == Print(list) else body + [NEWLINE] == Print(list)
  }

  lemma Round(body: seq<byte>, list: seq<Device>, last: nat, t: nat, e: nat)
    requires last <= t < e <= |body| && Progress(body, list, last)
    requires Lacks(body, last, t, TAB) && body[t] == TAB
    requires Lacks(body, t + 1, e, NEWLINE) && (e < |body| ==> body[e] == NEWLINE)
    ensures Progress(body, list + [Device(body[last..t], body[t + 1..e])], e + 1)
  {
    var d := Device(body[last..t], body[t + 1..e]);
    assert Clean(d);
    Whole(body, last, t, e);
    PrintSnoc(list, d);
  }

  lemma LastRound(body: seq<byte>, list: seq<Device>, last: nat)
    requires last < |body| && Progress(body, list, last) && Lacks(body, last, |body|, TAB)
    ensures Answers(body, OutOfRange)
  {
    assert TAB !in body[last..] && Leaves(body, list, body[last..]);
  }

  method DeviceList(body: seq<byte>) returns (r: Parsed)
    ensures Answers(body, r)
  {
    var list: seq<Device> := [];
    var last := 0;
    while last < |body|
      invariant Progress(body, list, last)
      decreases |body| + 1 - last
    {
      var idEnd := last;
      while idEnd < |body| && body[idEnd] != TAB
        invariant last <= idEnd <= |body| && Lacks(body, last, idEnd, TAB)
      {
        idEnd := idEnd + 1;
      }
      if idEnd == |body| {
        LastRound(body, list, last);
        return OutOfRange;
      }
      var kindEnd := idEnd + 1;
      while kindEnd < |body| && body[kindEnd] != NEWLINE
        invariant idEnd + 1 <= kindEnd <= |body| && Lacks(body, idEnd + 1, kindEnd, NEWLINE)
      {
        kindEnd := kindEnd + 1;
      }
      Round(body, list, last, idEnd, kindEnd);
      list := list + [Device(body[last..idEnd], body[idEnd + 1..kindEnd])];
      last := kindEnd + 1;
    }
    r := Devices(list);
  }

  // ----- only one answer

  lemma SplitUnique(p: seq<byte>, x: seq<byte>, q: seq<byte>, y: seq<byte>, b: byte)
    requires b !in p && b !in q && p + [b] + x == q + [b] + y
    ensures p == q && x == y
  {
    var s := p + [b] + x;
    assert s[|p|] == b && s[|q|] == b;
    assert |p| == |q|;
    assert s[..|p|] == p && s[..|q|] == q && s[|p| + 1..] == x && s[|q| + 1..] == y;
  }

  lemma HeadUnique(d: Device, x: seq<byte>, e: Device, y: seq<byte>)
    requires Clean(d) && Clean(e) && Record(d) + [NEWLINE] + x == Record(e) + [NEWLINE] + y
    ensures d == e && x == y
  {
    assert Record(d) + [NEWLINE] + x == d.id + [TAB] + (d.kind + [NEWLINE] + x);
    assert Record(e) + [NEWLINE] + y == e.id + [TAB] + (e.kind + [NEWLINE] + y);
    SplitUnique(d.id, d.kind + [NEWLINE] + x, e.id, e.kind + [NEWLINE] + y, TAB);
    SplitUnique(d.kind, x, e.kind, y, NEWLINE);
  }

  /** No complete record stands at the front. */
  ghost predicate Incomplete(x: seq<byte>) {
    forall d, more :: Clean(d) ==> x != Record(d) + [NEWLINE] + more
  }

  lemma PrintCons(ds: seq<Device>, x: seq<byte>)
    requires ds != []
    ensures Print(ds) + x == Record(ds[0]) + [NEWLINE] + (Print(ds[1..]) + x)
  {
  }

  lemma {:induction false} SplitsOnce(a: seq<Device>, x: seq<byte>, b: seq<Device>, y: seq<byte>)
    requires AllClean(a) && AllClean(b) && Incomplete(x) && Incomplete(y)
    requires Print(a) + x == Print(b) + y
    ensures a == b && x == y
  {
    if a == [] {
      assert Print(a) + x == x;
      if b == [] {
        assert Print(b) + y == y;
      } else {
        PrintCons(b, y);
      }
    } else if b == [] {
      assert Print(b) + y == y;
      PrintCons(a, x);
    } else {
      PrintCons(a, x);
      PrintCons(b, y);
      HeadUnique(a[0], Print(a[1..]) + x, b[0], Print(b[1..]) + y);
      SplitsOnce(a[1..], x, b[1..], y);
      assert a == [a[0]] + a[1..] && b == [b[0]] + b[1..];
    }
  }

  /** What any answer says about the body, in one form: whole records and an incomplete remainder. */
  ghost predicate Reading(body: seq<byte>, r: Parsed, ds: seq<Device>, rest: seq<byte>) {
    && AllClean(ds) && Leaves(body, ds, rest)
    && (match r
        case Devices(all) => (all == ds && rest == []) || (exists d :: Clean(d) && all == ds + [d] && rest == Record(d))
        case OutOfRange => rest != [] && TAB !in rest)
  }

  lemma RecordIncomplete(d: Device)
    requires Clean(d)
    ensures Incomplete(Record(d))
  {
    forall e, more | Clean(e)
      ensures Record(d) != Record(e) + [NEWLINE] + more
    {
      if Record(d) == Record(e) + [NEWLINE] + more {
        assert Record(e) + [NEWLINE] + more == e.id + [TAB] + (e.kind + [NEWLINE] + more);
        SplitUnique(d.id, d.kind, e.id, e.kind + [NEWLINE] + more, TAB);
      }
    }
  }

  lemma TabIsThere(d: Device, more: seq<byte>)
    ensures TAB in Record(d) + more
  {
    assert (Record(d) + more)[|d.id|] == TAB;
  }

  lemma AnswerReads(body: seq<byte>, r: Parsed) returns (ds: seq<Device>, rest: seq<byte>)
    requires Answers(body, r)
    ensures Reading(body, r, ds, rest) && Incomplete(rest)
  {
    if r.OutOfRange? {
      ds, rest :| AllClean(ds) && Leaves(body, ds, rest) && rest != [] && TAB !in rest;
      forall d: Device, more ensures rest != Record(d) + [NEWLINE] + more {
        TabIsThere(d, [NEWLINE] + more);
        assert Record(d) + ([NEWLINE] + more) == Record(d) + [NEWLINE] + more;
      }
    } else if body == Print(r.devices) {
      ds, rest := r.devices, [];
      assert body + [] == body;
    } else {
      var all := r.devices;
      ds := all[..|all| - 1];
      var d := all[|all| - 1];
      rest := Record(d);
      assert all == ds + [d];
      PrintSnoc(ds, d);
      DropLast(body, Print(ds) + rest);
      RecordIncomplete(d);
    }
  }

  lemma DropLast(a: seq<byte>, b: seq<byte>)
    requires a + [NEWLINE] == b + [NEWLINE]
    ensures a == b
  {
    assert a == (a + [NEWLINE])[..|a|] && b == (b + [NEWLINE])[..|b|];
  }

  /** A body has one answer, so the answer is a function of the body. */
  lemma AnswerUnique(body: seq<byte>, r: Parsed, r': Parsed)
    requires Answers(body, r) && Answers(body, r')
    ensures r == r'
  {
    var ds, rest := AnswerReads(body, r);
    var ds', rest' := AnswerReads(body, r');
    SplitsOnce(ds, rest, ds', rest');
    assert r == r' by {
      forall d: Device ensures Record(d) != [] && TAB in Record(d) {
        TabIsThere(d, []);
        assert Record(d) + [] == Record(d);
      }
      forall d: Device, e: Device | Clean(d) && Clean(e) && Record(d) == Record(e) ensures d == e {
        SplitUnique(d.id, d.kind, e.id, e.kind, TAB);
      }
    }
  }

  /** Parsing inverts printing exactly when no id has a tab and no type a newline. */
  lemma DeviceListRoundTrip(ds: seq<Device>, r: Parsed)
    requires Answers(Print(ds), r)
    ensures r == Devices(ds) <==> AllClean(ds)
  {
    if AllClean(ds) {
      AnswerUnique(Print(ds), r, Devices(ds));
    }
  }
}
