/**
 * A packed RGBA colour: one 32-bit word with red in bits 0-7, green in 8-15,
 * blue in 16-23 and alpha in 24-31.
 */
module Colors {

  /** Byte lane `R`: bits 0-7. */
  function R(p: bv32): bv8 { (p & 0xFF) as bv8 }
  /** Byte lane `G`: bits 8-15. */
  function G(p: bv32): bv8 { ((p >> 8) & 0xFF) as bv8 }
  /** Byte lane `B`: bits 16-23. */
  function B(p: bv32): bv8 { ((p >> 16) & 0xFF) as bv8 }
  /** Byte lane `A`: bits 24-31. */
  function A(p: bv32): bv8 { ((p >> 24) & 0xFF) as bv8 }

  /** The byte constructor: `r | g << 8 | b << 16 | a << 24`. */
  function Pack(r: bv8, g: bv8, b: bv8, a: bv8): (p: bv32)
    ensures R(p) == r && G(p) == g && B(p) == b && A(p) == a
  {
    ((a as bv32) << 24) | ((b as bv32) << 16) | ((g as bv32) << 8) | (r as bv32)
  }

  /** A packed word is determined by its four lanes. */
  lemma LanesDetermine(p: bv32, q: bv32)
    requires R(p) == R(q) && G(p) == G(q) && B(p) == B(q) && A(p) == A(q)
    ensures p == q
  {
  }

  /** Setter of `R`: replaces bits 0-7. */
  function WithR(p: bv32, v: bv8): (q: bv32)
    ensures R(q) == v && G(q) == G(p) && B(q) == B(p) && A(q) == A(p)
  {
    (p & 0xFFFF_FF00) | (v as bv32)
  }

  /** Setter of `G`: replaces bits 8-15. */
  function WithG(p: bv32, v: bv8): (q: bv32)
    ensures G(q) == v && R(q) == R(p) && B(q) == B(p) && A(q) == A(p)
  {
    (p & 0xFFFF_00FF) | ((v as bv32) << 8)
  }

  /** Setter of `B`: replaces bits 16-23. */
  function WithB(p: bv32, v: bv8): (q: bv32)
    ensures B(q) == v && R(q) == R(p) && G(q) == G(p) && A(q) == A(p)
  {
    (p & 0xFF00_FFFF) | ((v as bv32) << 16)
  }

  /** Setter of `A`: replaces bits 24-31. */
  function WithA(p: bv32, v: bv8): (q: bv32)
    ensures A(q) == v && R(q) == R(p) && G(q) == G(p) && B(q) == B(p)
  {
    (p & 0x00FF_FFFF) | ((v as bv32) << 24)
  }

  /** Writing a lane's current value back leaves the word unchanged. */
  lemma RewriteLaneIsIdentity(p: bv32)
    ensures WithR(p, R(p)) == p && WithG(p, G(p)) == p
    ensures WithB(p, B(p)) == p && WithA(p, A(p)) == p
  {
    LanesDetermine(WithR(p, R(p)), p);
    LanesDetermine(WithG(p, G(p)), p);
    LanesDetermine(WithB(p, B(p)), p);
    LanesDetermine(WithA(p, A(p)), p);
  }

  /** `Math.Clamp(x, 0, 255)`: the value of [0, 255] nearest to `x`, which the `(byte)` cast then keeps. */
  function ClampByte(x: int): (b: int)
    ensures 0 <= b <= 255
    ensures x <= 0 ==> b == 0
    ensures x >= 255 ==> b == 255
    ensures 0 <= x <= 255 ==> b == x
  {
    if x <= 0 then 0 else if x >= 255 then 255 else x
  }

  /** The colour value with its mutable packed word. */
  class Color {
    var packedValue: bv32

    /** `new Color(r, g, b, a)` with bytes; alpha defaults to 255. */
    constructor FromBytes(r: bv8, g: bv8, b: bv8, a: bv8 := 255)
      ensures packedValue == Pack(r, g, b, a)
    {
      packedValue := Pack(r, g, b, a);
    }

    /** `new Color(r, g, b)` with ints: each channel clamped to [0, 255], alpha 255. */
    constructor FromInts3(r: int, g: int, b: int)
      ensures packedValue == Pack(ClampByte(r) as bv8, ClampByte(g) as bv8, ClampByte(b) as bv8, 255)
    {
      packedValue := Pack(ClampByte(r) as bv8, ClampByte(g) as bv8, ClampByte(b) as bv8, 255);
    }

    /** `new Color(r, g, b, a)` with ints: each channel clamped to [0, 255]. */
    constructor FromInts4(r: int, g: int, b: int, a: int)
      ensures packedValue == Pack(ClampByte(r) as bv8, ClampByte(g) as bv8, ClampByte(b) as bv8, ClampByte(a) as bv8)
    {
      packedValue := Pack(ClampByte(r) as bv8, ClampByte(g) as bv8, ClampByte(b) as bv8, ClampByte(a) as bv8);
    }

    /** `Color.White`: the int constructor on (255, 255, 255). */
    static method White() returns (c: Color)
      ensures fresh(c) && c.packedValue == 0xFFFF_FFFF
    {
      c := new Color.FromInts3(255, 255, 255);
      LanesDetermine(c.packedValue, 0xFFFF_FFFF);
    }

    /** `Color.Black`: the int constructor on (0, 0, 0); alpha stays 255. */
    static method Black() returns (c: Color)
      ensures fresh(c) && c.packedValue == 0xFF00_0000
    {
      c := new Color.FromInts3(0, 0, 0);
      LanesDetermine(c.packedValue, 0xFF00_0000);
    }

    function GetR(): bv8 reads this { R(packedValue) }
    function GetG(): bv8 reads this { G(packedValue) }
    function GetB(): bv8 reads this { B(packedValue) }
    function GetA(): bv8 reads this { A(packedValue) }

    method SetR(v: bv8)
      modifies this
      ensures packedValue == WithR(old(packedValue), v)
      ensures GetR() == v && GetG() == old(GetG()) && GetB() == old(GetB()) && GetA() == old(GetA())
    {
      packedValue := (packedValue & 0xFFFF_FF00) | (v as bv32);
    }

    method SetG(v: bv8)
      modifies this
      ensures packedValue == WithG(old(packedValue), v)
      ensures GetG() == v && GetR() == old(GetR()) && GetB() == old(GetB()) && GetA() == old(GetA())
    {
      packedValue := (packedValue & 0xFFFF_00FF) | ((v as bv32) << 8);
    }

    method SetB(v: bv8)
      modifies this
      ensures packedValue == WithB(old(packedValue), v)
      ensures GetB() == v && GetR() == old(GetR()) && GetG() == old(GetG()) && GetA() == old(GetA())
    {
      packedValue := (packedValue & 0xFF00_FFFF) | ((v as bv32) << 16);
    }

    method SetA(v: bv8)
      modifies this
      ensures packedValue == WithA(old(packedValue), v)
      ensures GetA() == v && GetR() == old(GetR()) && GetG() == old(GetG()) && GetB() == old(GetB())
    {
      packedValue := (packedValue & 0x00FF_FFFF) | ((v as bv32) << 24);
    }
  }
}
