/** Bytes, fixed-width integers and hashes shared by every component. */
module Bytes {

  type byte = x: int | 0 <= x < 0x100
  type u16 = x: int | 0 <= x < 0x1_0000
  type u32 = x: int | 0 <= x < 0x1_0000_0000
  type u64 = x: int | 0 <= x < 0x1_0000_0000_0000_0000

  type Blob = seq<byte>

  /** A 32-byte digest. */
  type Digest = d: seq<byte> | |d| == 32 witness seq(32, _ => 0)

  /** The all-zero digest, which stands for "no digest". */
  const ZERO: Digest := [0, 0, 0, 0, 0, 0, 0, 0, 0, 0, 0, 0, 0, 0, 0, 0,
                         0, 0, 0, 0, 0, 0, 0, 0, 0, 0, 0, 0, 0, 0, 0, 0]

  /** SHA-256 is an arbitrary function from byte strings to digests: every
      statement below holds whichever function it is. */
  type Hash = Blob -> Digest

  datatype Option<+T> = None | Some(value: T)

  datatype Result<+T> = Ok(value: T) | Err(message: string)

  function Min(a: nat, b: nat): nat { if a <= b then a else b }

  function Max(a: nat, b: nat): nat { if a >= b then a else b }

  /** Arithmetic of a wrapping 32-bit register. */
  function Wrap32(x: int): u32 { x % 0x1_0000_0000 }

  /** `x & 0xffff`. */
  function Low16(x: int): u16 { x % 0x1_0000 }

  lemma Low16OfWrap(x: int)
    ensures Low16(Wrap32(x)) == Low16(x)
  {
  }

  lemma Low16OfSum(x: int, y: int)
    ensures Low16(Low16(x) + y) == Low16(x + y)
  {
  }

  /** Big-endian value of `k` bytes. */
  function ToBigEndian(v: nat, k: nat): (s: Blob)
    ensures |s| == k
  {
    if k == 0 then [] else ToBigEndian(v / 0x100, k - 1) + [v % 0x100]
  }

  function FromBigEndian(s: Blob): nat
  {
    if s == [] then 0 else FromBigEndian(s[..|s| - 1]) * 0x100 + s[|s| - 1]
  }

  function Pow256(k: nat): nat
  {
    if k == 0 then 1 else 0x100 * Pow256(k - 1)
  }

  lemma {:induction false} BigEndianRoundTrip(v: nat, k: nat)
    requires v < Pow256(k)
    ensures FromBigEndian(ToBigEndian(v, k)) == v
  {
    if k > 0 {
      BigEndianRoundTrip(v / 0x100, k - 1);
      assert ToBigEndian(v, k)[..k - 1] == ToBigEndian(v / 0x100, k - 1);
    }
  }

  lemma {:induction false} BigEndianInverse(s: Blob)
    ensures FromBigEndian(s) < Pow256(|s|)
    ensures ToBigEndian(FromBigEndian(s), |s|) == s
  {
    if s != [] {
      BigEndianInverse(s[..|s| - 1]);
    }
  }

  lemma Pow256Values()
    ensures Pow256(1) == 0x100 && Pow256(2) == 0x1_0000
    ensures Pow256(4) == 0x1_0000_0000 && Pow256(8) == 0x1_0000_0000_0000_0000
  {
    assert Pow256(3) == 0x100_0000;
    assert Pow256(4) == 0x100 * Pow256(3);
    assert Pow256(6) == 0x1_0000 * Pow256(4);
  }
}
