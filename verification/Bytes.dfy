/** Bytes and the little-endian 32-bit integers both wire formats are built from. */
module Bytes {

  type byte = b: int | 0 <= b < 0x100
  type u16 = n: int | 0 <= n < 0x1_0000
  type u32 = n: int | 0 <= n < 0x1_0000_0000

  const TWO32: int := 0x1_0000_0000

  /** Conversion to uint32, as Go's uint32(x) does it. */
  function Wrap32(n: int): u32 { n % TWO32 }

  /** PutUint32, little-endian. */
  function Put32(n: u32): (s: seq<byte>)
    ensures |s| == 4
  {
    [n % 0x100, n / 0x100 % 0x100, n / 0x1_0000 % 0x100, n / 0x100_0000]
  }

  /** Uint32, little-endian. */
  function Get32(s: seq<byte>): u32
    requires |s| == 4
  {
    var a: int, b: int, c: int, d: int := s[0], s[1], s[2], s[3];
    a + 0x100 * b + 0x1_0000 * c + 0x100_0000 * d
  }

  lemma GetPut32(n: u32)
    ensures Get32(Put32(n)) == n
  {
    var a, b, c := n / 0x100, n / 0x1_0000, n / 0x100_0000;
    assert a / 0x100 == b && b / 0x100 == c;
    assert n == n % 0x100 + 0x100 * a;
    assert a == a % 0x100 + 0x100 * b;
    assert b == b % 0x100 + 0x100 * c;
  }

  lemma PutGet32(s: seq<byte>)
    requires |s| == 4
    ensures Put32(Get32(s)) == s
  {
    var a: int, b: int, c: int, d: int := s[0], s[1], s[2], s[3];
    var n: int := Get32(s);
    assert n / 0x100 == b + 0x100 * c + 0x1_0000 * d;
    assert n / 0x1_0000 == c + 0x100 * d && n / 0x100_0000 == d;
  }

  /** The least significant byte comes first. */
  lemma LittleEndian(s: seq<byte>)
    requires |s| == 4
    ensures Get32(s) % 0x100 == s[0] && Get32(s) / 0x100_0000 == s[3]
    ensures s[1] == s[2] == s[3] == 0 ==> Get32(s) == s[0]
  {
  }
}
