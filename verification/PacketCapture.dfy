/** The frames of the packet capture (client/pcapwriter/pcapwriter.go): IPv4 and
    UDP headers around a message, and the IPv4 header checksum (section 3.1 of
    RFC 791, with the arithmetic of RFC 1071). */
module PacketCapture {
  import opened Bytes

  function Put16(n: u16): (s: seq<byte>)
    ensures |s| == 2
  {
    [n / 0x100, n % 0x100]
  }

  function Get16(s: seq<byte>): u16
    requires |s| == 2
  {
    var hi: int, lo: int := s[0], s[1];
    0x100 * hi + lo
  }

  /** Big-endian: the high byte first. */
  lemma GetPut16(n: u16)
    ensures Get16(Put16(n)) == n
    ensures var hi: int, lo: int := Put16(n)[0], Put16(n)[1]; 0x100 * hi + lo == n
  {
  }

  function Wrap16(n: int): u16 { n % 0x1_0000 }

  // ----- the checksum

  /** The sum of the first n 16-bit words. */
  function WordSum(h: seq<byte>, n: nat): nat
    requires 2 * n <= |h|
  {
    if n == 0 then 0 else WordSum(h, n - 1) + Get16(h[2 * n - 2..2 * n])
  }

  /** End-around carry until the sum fits 16 bits. */
  function Fold(sum: nat): (r: u16)
    decreases sum
  {
    if sum < 0x1_0000 then sum else Fold(sum % 0x1_0000 + sum / 0x1_0000)
  }

  function Checksum(h: seq<byte>): u16 { 0xFFFF - Fold(Wrap32(WordSum(h, |h| / 2))) }

  lemma NextWord(h: seq<byte>, i: nat)
    requires i % 2 == 0 && i + 1 < |h|
    ensures (i + 2) / 2 == i / 2 + 1 && (i + 2) % 2 == 0
    ensures Wrap32(WordSum(h, i / 2 + 1)) == Wrap32(Wrap32(WordSum(h, i / 2)) + Get16(h[i..i + 2]))
  {
    assert 2 * (i / 2 + 1) == i + 2;
  }

  /** ipv4Checksum: a summing loop in uint32, which ignores a trailing odd byte, and a folding loop. */
  method Ipv4Checksum(header: seq<byte>) returns (c: u16)
    ensures c == Checksum(header)
  {
    var sum: int := 0;
    var i := 0;
    while i + 1 < |header|
      invariant 0 <= i && i % 2 == 0 && i <= |header|
      invariant sum == Wrap32(WordSum(header, i / 2))
    {
      NextWord(header, i);
      sum := Wrap32(sum + Get16(header[i..i + 2]));
      i := i + 2;
    }
    assert i / 2 == |header| / 2;
    ghost var total := sum;
    while sum >= 0x1_0000
      invariant 0 <= sum && Fold(sum) == Fold(total)
      decreases sum
    {
      sum := sum % 0x1_0000 + sum / 0x1_0000;
    }
    return 0xFFFF - sum;
  }

  lemma {:induction false} WordSumBound(h: seq<byte>, n: nat)
    requires 2 * n <= |h|
    ensures WordSum(h, n) <= 0xFFFF * n
  {
    if n > 0 {
      WordSumBound(h, n - 1);
    }
  }

  lemma CarryModulo(sum: nat)
    ensures (sum % 0x1_0000 + sum / 0x1_0000) % 0xFFFF == sum % 0xFFFF
  {
    var q, r := sum / 0x1_0000, sum % 0x1_0000;
    assert sum == 0xFFFF * q + (q + r);
    ModShift(q + r, q);
  }

  lemma {:induction false} ModShift(a: nat, q: nat)
    ensures (0xFFFF * q + a) % 0xFFFF == a % 0xFFFF
  {
    if q > 0 {
      ModShift(a, q - 1);
      assert 0xFFFF * q + a == (0xFFFF * (q - 1) + a) + 0xFFFF;
    }
  }

  /** Folding is reduction modulo 0xFFFF, with 0xFFFF instead of 0 for a non-zero sum. */
  lemma {:induction false} FoldIsModulo(sum: nat)
    ensures Fold(sum) % 0xFFFF == sum % 0xFFFF
    ensures Fold(sum) == 0 <==> sum == 0
    decreases sum
  {
    if sum >= 0x1_0000 {
      CarryModulo(sum);
      FoldIsModulo(sum % 0x1_0000 + sum / 0x1_0000);
    }
  }

  lemma NoWrap(h: seq<byte>)
    requires |h| <= 131075
    ensures Wrap32(WordSum(h, |h| / 2)) == WordSum(h, |h| / 2)
  {
    WordSumBound(h, |h| / 2);
  }

  lemma MinusZero(sum: nat)
    ensures Fold(sum) == 0xFFFF <==> sum > 0 && sum % 0xFFFF == 0
  {
    FoldIsModulo(sum);
    var f := Fold(sum);
    assert 0 < f < 0xFFFF ==> f % 0xFFFF == f;
  }

  /** A header checks, that is its recomputed checksum is 0, exactly when the ones-complement sum of
      its words is minus zero. The bound is where the uint32 sum could wrap. */
  lemma ChecksExactly(h: seq<byte>)
    requires |h| <= 131075
    ensures Checksum(h) == 0 <==> WordSum(h, |h| / 2) > 0 && WordSum(h, |h| / 2) % 0xFFFF == 0
  {
    NoWrap(h);
    MinusZero(WordSum(h, |h| / 2));
  }

  lemma {:induction false} WordSumStore(h: seq<byte>, g: seq<byte>, at: nat, n: nat)
    requires |g| == |h| && 2 * n <= |h| && 2 * at + 2 <= |h|
    requires forall i :: 0 <= i < |h| && i != 2 * at && i != 2 * at + 1 ==> g[i] == h[i]
    ensures WordSum(g, n) == WordSum(h, n) +
      if at < n then Get16(g[2 * at..2 * at + 2]) - Get16(h[2 * at..2 * at + 2]) else 0
  {
    if n > 0 {
      WordSumStore(h, g, at, n - 1);
      if at != n - 1 {
        assert g[2 * n - 2..2 * n] == h[2 * n - 2..2 * n];
      }
    }
  }

  lemma SumAfterStore(h: seq<byte>, g: seq<byte>, c: u16, n: nat)
    requires 12 <= |h| && h[10] == 0 && h[11] == 0 && g == h[..10] + Put16(c) + h[12..] && 6 <= n && 2 * n <= |h|
    ensures WordSum(g, n) == WordSum(h, n) + c
  {
    assert g[10..12] == Put16(c) && h[10..12] == [0, 0];
    GetPut16(c);
    WordSumStore(h, g, 5, n);
  }

  /** Storing the checksum of a header whose checksum field is zero makes the header check. */
  lemma StoredChecksumChecks(h: seq<byte>, g: seq<byte>)
    requires 12 <= |h| <= 131075 && h[10] == 0 && h[11] == 0
    requires g == h[..10] + Put16(Checksum(h)) + h[12..]
    ensures Checksum(g) == 0
  {
    var n := |h| / 2;
    var sum := WordSum(h, n);
    NoWrap(h);
    FoldIsModulo(sum);
    SumAfterStore(h, g, Checksum(h), n);
    ModComplement(sum, Fold(sum));
    ChecksExactly(g);
  }

  lemma ModComplement(sum: nat, folded: nat)
    requires folded <= 0xFFFF && folded % 0xFFFF == sum % 0xFFFF
    ensures (sum + (0xFFFF - folded)) % 0xFFFF == 0
  {
    var q := sum / 0xFFFF;
    var r := sum % 0xFFFF;
    assert folded == r || (r == 0 && folded == 0xFFFF);
    if folded == r {
      assert sum + (0xFFFF - folded) == 0xFFFF * (q + 1) + 0;
      ModShift(0, q + 1);
    } else {
      assert sum + (0xFFFF - folded) == 0xFFFF * q + 0;
      ModShift(0, q);
    }
  }

  // ----- frames

  const IP_HEADER: nat := 20
  const UDP_HEADER: nat := 8
  const ETHERNET_HEADER: nat := 14

  datatype Direction = Outgoing | Incoming

  /** Addresses of the two fake hosts. */
  datatype Host = Host(mac: seq<byte>, ip: seq<byte>, port: u16)

  predicate ValidHost(x: Host) { |x.mac| == 6 && |x.ip| == 4 }

  const CLIENT := Host([2, 0, 0, 0, 0, 1], [10, 0, 0, 1], 1)
  const TRANSPORTER := Host([2, 0, 0, 0, 0, 2], [10, 0, 0, 2], 2)

  /** The IPv4 header with the checksum field still zero. */
  function BareHeader(src: Host, dst: Host, id: u16, payloadLength: nat): (h: seq<byte>)
    requires ValidHost(src) && ValidHost(dst)
    ensures |h| == IP_HEADER && h[10] == 0 && h[11] == 0
  {
    [0x45, 0] + Put16(Wrap16(IP_HEADER + payloadLength)) + Put16(id) + [0, 0, 64, 17, 0, 0] + src.ip + dst.ip
  }

  function UdpDatagram(src: Host, dst: Host, payload: seq<byte>): seq<byte> {
    Put16(src.port) + Put16(dst.port) + Put16(Wrap16(UDP_HEADER + |payload|)) + [0, 0] + payload
  }

  function EthernetFrame(src: Host, dst: Host, packet: seq<byte>): seq<byte> {
    dst.mac + src.mac + [0x08, 0x00] + packet
  }

  /** What a reader of the capture recovers: it follows the length fields and verifies the header. */
  datatype Dissected = Broken | Message(bytes: seq<byte>)

  function Dissect(frame: seq<byte>): Dissected {
    if |frame| < ETHERNET_HEADER + IP_HEADER + UDP_HEADER || frame[12..14] != [0x08, 0x00] then Broken
    else DissectPacket(frame[ETHERNET_HEADER..])
  }

  function DissectPacket(packet: seq<byte>): Dissected {
    if |packet| < IP_HEADER + UDP_HEADER then Broken
    else
      var total, udp := Get16(packet[2..4]), Get16(packet[24..26]);
      if packet[0] != 0x45 || packet[9] != 17 || Checksum(packet[..IP_HEADER]) != 0 then Broken
      else if total != IP_HEADER + udp || udp < UDP_HEADER || total > |packet| then Broken
      else Message(packet[IP_HEADER + UDP_HEADER..total])
  }

  /** The addresses and ports of all three layers, where a reader looks for them. */
  predicate Between(frame: seq<byte>, src: Host, dst: Host)
    requires |frame| >= ETHERNET_HEADER + IP_HEADER + UDP_HEADER
  {
    && frame[0..6] == dst.mac && frame[6..12] == src.mac
    && frame[26..30] == src.ip && frame[30..34] == dst.ip
    && frame[34..36] == Put16(src.port) && frame[36..38] == Put16(dst.port)
  }

  class Writer {
    var nextId: u16

    constructor ()
      ensures nextId == 0
    {
      nextId := 0;
    }

    /** buildIPv4: the identification counts up and wraps, and the finished header checks. */
    method BuildIPv4(src: Host, dst: Host, payload: seq<byte>) returns (packet: seq<byte>)
      requires ValidHost(src) && ValidHost(dst)
      modifies this
      ensures nextId == Wrap16(old(nextId) + 1)
      ensures |packet| == IP_HEADER + |payload| && packet[IP_HEADER..] == payload
      ensures packet[0..4] == [0x45, 0] + Put16(Wrap16(IP_HEADER + |payload|))
      ensures packet[4..10] == Put16(old(nextId)) + [0, 0, 64, 17] && packet[12..IP_HEADER] == src.ip + dst.ip
      ensures Checksum(packet[..IP_HEADER]) == 0
    {
      var header := BareHeader(src, dst, nextId, |payload|);
      nextId := Wrap16(nextId + 1);
      var sum := Ipv4Checksum(header);
      var stored := header[..10] + Put16(sum) + header[12..];
      StoredChecksumChecks(header, stored);
      packet := stored + payload;
      assert packet[..IP_HEADER] == stored;
      assert packet[0..4] == header[0..4] && packet[4..10] == header[4..10] && packet[12..IP_HEADER] == header[12..];
    }

    /** The frame WritePacket records for a message. A reader recovers the message exactly when no
        length field was truncated, which covers every message of up to 65507 bytes. */
    method BuildFrame(direction: Direction, payload: seq<byte>) returns (frame: seq<byte>)
      modifies this
      ensures nextId == Wrap16(old(nextId) + 1)
      ensures |frame| == ETHERNET_HEADER + IP_HEADER + UDP_HEADER + |payload|
      ensures Dissect(frame) == Message(payload) <==> |payload| <= 65507
      ensures frame[40..42] == [0, 0]    // the UDP checksum: not computed
      ensures if direction.Outgoing? then Between(frame, CLIENT, TRANSPORTER) else Between(frame, TRANSPORTER, CLIENT)
    {
      var src, dst := CLIENT, TRANSPORTER;
      if direction.Incoming? {
        src, dst := dst, src;
      }
      var udp := UdpDatagram(src, dst, payload);
      var packet := BuildIPv4(src, dst, udp);
      assert packet[6..10] == packet[4..10][2..];
      frame := EthernetFrame(src, dst, packet);
      DissectBuilt(src, dst, packet, payload);
      Addresses(src, dst, packet, payload);
    }
  }

  lemma FrameOfPacket(src: Host, dst: Host, packet: seq<byte>)
    requires ValidHost(src) && ValidHost(dst) && |packet| >= IP_HEADER + UDP_HEADER
    ensures Dissect(EthernetFrame(src, dst, packet)) == DissectPacket(packet)
  {
    var frame := EthernetFrame(src, dst, packet);
    assert frame[12..14] == [0x08, 0x00] && frame[ETHERNET_HEADER..] == packet;
  }

  lemma IpFields(packet: seq<byte>, length: u16)
    requires |packet| >= IP_HEADER && packet[0..4] == [0x45, 0] + Put16(length) && packet[6..10] == [0, 0, 64, 17]
    ensures packet[0] == 0x45 && packet[9] == 17 && Get16(packet[2..4]) == length
  {
    assert packet[0] == packet[0..4][0] && packet[9] == packet[6..10][3];
    assert packet[2..4] == packet[0..4][2..4] == Put16(length);
    GetPut16(length);
  }

  lemma UdpFields(src: Host, dst: Host, packet: seq<byte>, payload: seq<byte>)
    requires |packet| >= IP_HEADER + UDP_HEADER && packet[IP_HEADER..] == UdpDatagram(src, dst, payload)
    ensures Get16(packet[24..26]) == Wrap16(UDP_HEADER + |payload|)
    ensures packet[IP_HEADER + UDP_HEADER..] == payload
  {
    var udp := UdpDatagram(src, dst, payload);
    assert packet[24..26] == packet[IP_HEADER..][4..6];
    assert udp[4..6] == Put16(Wrap16(UDP_HEADER + |payload|));
    assert packet[IP_HEADER + UDP_HEADER..] == packet[IP_HEADER..][UDP_HEADER..];
    assert udp[UDP_HEADER..] == payload;
    GetPut16(Wrap16(UDP_HEADER + |payload|));
  }

  lemma Addresses(src: Host, dst: Host, packet: seq<byte>, payload: seq<byte>)
    requires ValidHost(src) && ValidHost(dst) && |packet| >= IP_HEADER + UDP_HEADER
    requires packet[12..IP_HEADER] == src.ip + dst.ip && packet[IP_HEADER..] == UdpDatagram(src, dst, payload)
    ensures Between(EthernetFrame(src, dst, packet), src, dst)
    ensures EthernetFrame(src, dst, packet)[40..42] == [0, 0]
  {
    var frame, udp := EthernetFrame(src, dst, packet), UdpDatagram(src, dst, payload);
    AddressesInPacket(src, dst, packet, payload);
    assert frame[26..30] == packet[12..16] && frame[30..34] == packet[16..20];
    assert frame[34..36] == packet[20..22] && frame[36..38] == packet[22..24];
    assert frame[40..42] == packet[IP_HEADER..][6..8] == udp[6..8];
  }

  lemma AddressesInPacket(src: Host, dst: Host, packet: seq<byte>, payload: seq<byte>)
    requires ValidHost(src) && ValidHost(dst) && |packet| >= IP_HEADER + UDP_HEADER
    requires packet[12..IP_HEADER] == src.ip + dst.ip && packet[IP_HEADER..] == UdpDatagram(src, dst, payload)
    ensures packet[12..16] == src.ip && packet[16..20] == dst.ip
    ensures packet[20..22] == Put16(src.port) && packet[22..24] == Put16(dst.port)
  {
    assert packet[12..16] == packet[12..IP_HEADER][..4] && packet[16..20] == packet[12..IP_HEADER][4..];
    assert packet[20..22] == packet[IP_HEADER..][..2] && packet[22..24] == packet[IP_HEADER..][2..4];
  }

  lemma DissectBuilt(src: Host, dst: Host, packet: seq<byte>, payload: seq<byte>)
    requires ValidHost(src) && ValidHost(dst)
    requires |packet| == IP_HEADER + UDP_HEADER + |payload| && packet[IP_HEADER..] == UdpDatagram(src, dst, payload)
    requires packet[0..4] == [0x45, 0] + Put16(Wrap16(IP_HEADER + UDP_HEADER + |payload|))
    requires packet[6..10] == [0, 0, 64, 17] && Checksum(packet[..IP_HEADER]) == 0
    ensures Dissect(EthernetFrame(src, dst, packet)) == Message(payload) <==> |payload| <= 65507
  {
    FrameOfPacket(src, dst, packet);
    IpFields(packet, Wrap16(IP_HEADER + UDP_HEADER + |payload|));
    UdpFields(src, dst, packet, payload);
    Tail(packet, IP_HEADER + UDP_HEADER);
    var total, udp := Wrap16(IP_HEADER + UDP_HEADER + |payload|), Wrap16(UDP_HEADER + |payload|);
    if |payload| <= 65507 {
      assert total == |packet| && udp == UDP_HEADER + |payload|;
    } else if DissectPacket(packet).Message? {
      assert |DissectPacket(packet).bytes| <= 65507;
    }
  }

  lemma Tail(s: seq<byte>, from: nat)
    requires from <= |s|
    ensures s[from..|s|] == s[from..]
  {
  }
}
