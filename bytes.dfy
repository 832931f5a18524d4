/** Bytes and the little-endian reads of `BitConverter` on a little-endian host. */
module Bytes {
  import opened Common

  newtype byte = x: int | 0 <= x < 256

  /** `true` when the `width` bytes starting at `off` lie inside `s`. */
  predicate InRange(s: seq<byte>, off: int, width: nat) {
    0 <= off && off + width <= |s|
  }

  /** Unsigned little-endian value of the `width` bytes at `off`. */
  function LittleEndian(s: seq<byte>, off: int, width: nat): (v: nat)
    requires InRange(s, off, width)
    ensures v < Pow256(width)
    decreases width
  {
    if width == 0 then 0
    else s[off] as nat + 256 * LittleEndian(s, off + 1, width - 1)
  }

  function Pow256(n: nat): (p: nat)
    ensures p >= 1
  {
    if n == 0 then 1 else 256 * Pow256(n - 1)
  }

  /** `BitConverter.ToUInt16`. */
  function U16(s: seq<byte>, off: int): (v: nat)
    requires InRange(s, off, 2)
    ensures v < 0x1_0000
    ensures v == s[off] as nat + 256 * s[off + 1] as nat
  {
    LittleEndian(s, off, 2)
  }

  /** `BitConverter.ToUInt32`. */
  function U32(s: seq<byte>, off: int): (v: nat)
    requires InRange(s, off, 4)
    ensures IsUInt32(v)
    ensures v == s[off] as nat + 256 * s[off + 1] as nat
              + 0x1_0000 * s[off + 2] as nat + 0x100_0000 * s[off + 3] as nat
  {
    LittleEndian(s, off, 4)
  }

  /** `(sbyte)b`: two's complement reading of one byte. */
  function SignedByte(v: nat): (r: int)
    requires v < 0x100
    ensures -0x80 <= r < 0x80 && (r == v || r == v - 0x100)
  {
    if v < 0x80 then v else v - 0x100
  }

  /** `BitConverter.ToInt16`: two's complement reading of a 16-bit value. */
  function SignedShort(v: nat): (r: int)
    requires v < 0x1_0000
    ensures -0x8000 <= r < 0x8000 && (r == v || r == v - 0x1_0000)
  {
    if v < 0x8000 then v else v - 0x1_0000
  }

  /** Unchecked `(int)` of a `uint`: two's complement reading of a 32-bit value. */
  function SignedInt(v: nat): (r: int)
    requires IsUInt32(v)
    ensures IsInt32(r) && (r == v || r == v - 0x1_0000_0000)
  {
    if v < 0x8000_0000 then v else v - 0x1_0000_0000
  }

  /** `BitConverter.GetBytes(uint)`: the four little-endian bytes of `v`. */
  function EncodeU32(v: nat): (b: seq<byte>)
    requires IsUInt32(v)
    ensures |b| == 4
  {
    var q1 := v / 256;
    var q2 := q1 / 256;
    var q3 := q2 / 256;
    [(v % 256) as byte, (q1 % 256) as byte, (q2 % 256) as byte, q3 as byte]
  }

  /** Reading back an encoded u32 gives the value that was written. */
  lemma U32RoundTrip(prefix: seq<byte>, v: nat, suffix: seq<byte>)
    requires IsUInt32(v)
    ensures InRange(prefix + EncodeU32(v) + suffix, |prefix|, 4)
    ensures U32(prefix + EncodeU32(v) + suffix, |prefix|) == v
  {
    var s := prefix + EncodeU32(v) + suffix;
    var k := |prefix|;
    var q1 := v / 256;
    var q2 := q1 / 256;
    var q3 := q2 / 256;
    assert v == v % 256 + 256 * q1;
    assert q1 == q1 % 256 + 256 * q2;
    assert q2 == q2 % 256 + 256 * q3;
    assert s[k] as nat == v % 256 && s[k + 1] as nat == q1 % 256;
    assert s[k + 2] as nat == q2 % 256 && s[k + 3] as nat == q3;
  }
}
