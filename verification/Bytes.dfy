/** Bytes, and 32-bit unsigned integers as this platform stores them: least significant byte first. */
module Bytes {
  type byte = x: int | 0 <= x < 256

  const TWO32: int := 0x1_0000_0000

  lemma AddMod(a: int, b: int)
    ensures (a % TWO32 + b) % TWO32 == (a + b) % TWO32
  {
  }

  type u32 = x: int | 0 <= x < 0x1_0000_0000

  function Low(n: nat): byte { n % 256 }

  function U32(n: u32): (r: seq<byte>)
    ensures |r| == 4
  {
    [Low(n), Low(n / 0x100), Low(n / 0x1_0000), Low(n / 0x100_0000)]
  }

  function ReadU32(s: seq<byte>): u32
    requires |s| >= 4
  {
    (s[0] as int) + 0x100 * (s[1] as int) + 0x1_0000 * (s[2] as int) + 0x100_0000 * (s[3] as int)
  }

  lemma Digits(n: u32)
    ensures n / 0x100_0000 < 256
    ensures n == n % 256 + 0x100 * (n / 0x100 % 256) + 0x1_0000 * (n / 0x1_0000 % 256) + 0x100_0000 * (n / 0x100_0000)
  {
    assert n / 0x100 / 256 == n / 0x1_0000;
    assert n / 0x1_0000 / 256 == n / 0x100_0000;
  }

  lemma ReadOfU32(n: u32, rest: seq<byte>)
    ensures ReadU32(U32(n) + rest) == n
  {
    Digits(n);
    var s := U32(n) + rest;
    assert s[0] == Low(n) && s[1] == Low(n / 0x100) && s[2] == Low(n / 0x1_0000) && s[3] == Low(n / 0x100_0000);
  }

  lemma ReadPrefix(s: seq<byte>, t: seq<byte>)
    requires |s| >= 4
    ensures ReadU32(s + t) == ReadU32(s)
  {
  }

  /** What a Buf refers to: `len` bytes of a block from `off` on. */
  datatype Slice<+M> = Slice(mem: M, off: nat, len: nat)

  /** `s` holds `t` at position `p`. */
  predicate HoldsAt(s: seq<byte>, p: nat, t: seq<byte>) {
    p + |t| <= |s| && s[p..p + |t|] == t
  }
}
