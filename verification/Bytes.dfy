/** Bytes and the big-endian 32-bit length that heads every frame. */
module Bytes {

  type byte = x: int | 0 <= x < 256

  const UINT32_LIMIT := 0x1_0000_0000

  // The unsigned 32-bit number that four bytes spell, most significant first.
  function Uint32(a: byte, b: byte, c: byte, d: byte): (n: nat) {
    var w: int, x: int, y: int, z: int := a, b, c, d;
    w * 0x100_0000 + x * 0x1_0000 + y * 0x100 + z
  }

  function PutUint32(n: nat): (s: seq<byte>)
    requires n < UINT32_LIMIT
    ensures |s| == 4
  {
    [n / 0x100_0000, n / 0x1_0000 % 0x100, n / 0x100 % 0x100, n % 0x100]
  }

  lemma Uint32OfPut(n: nat)
    requires n < UINT32_LIMIT
    ensures var s := PutUint32(n); Uint32(s[0], s[1], s[2], s[3]) == n
  {
    var high := n / 0x1_0000;
    var low := n % 0x1_0000;
    assert n / 0x100_0000 == high / 0x100;
    assert n / 0x100 % 0x100 == low / 0x100;
    assert n % 0x100 == low % 0x100;
  }

  lemma PutOfUint32(a: byte, b: byte, c: byte, d: byte)
    ensures Uint32(a, b, c, d) < UINT32_LIMIT && PutUint32(Uint32(a, b, c, d)) == [a, b, c, d]
  {
    var n := Uint32(a, b, c, d);
    var w: int, x: int, y: int, z: int := a, b, c, d;
    assert n / 0x100_0000 == w;
    assert n / 0x1_0000 == w * 0x100 + x;
    assert n / 0x100 == (w * 0x100 + x) * 0x100 + y;
    assert n % 0x100 == z;
  }
}
