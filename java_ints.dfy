/**
 * Java's fixed-width two's-complement integers over Dafny's unbounded `int`.
 * `Int32(x)` is the value a Java `int` holds when an arithmetic result `x`
 * is truncated to 32 bits, and likewise for the other widths.
 */
module JavaInts {
  /** 2^31, the bound of a Java int. */
  const TWO_31: int := 0x8000_0000

  predicate IsByte(x: int) { 0 <= x < 0x100 }
  predicate IsInt8(x: int) { -0x80 <= x < 0x80 }
  predicate IsInt16(x: int) { -0x8000 <= x < 0x8000 }
  predicate IsInt32(x: int) { -0x8000_0000 <= x < 0x8000_0000 }
  predicate IsInt64(x: int) { -0x8000_0000_0000_0000 <= x < 0x8000_0000_0000_0000 }

  /** An unsigned byte, as `Byte.toUnsignedInt` yields it. */
  type Byte = x: int | 0 <= x < 0x100

  /** The Java `(byte)` cast, read back as the signed value the byte holds. */
  function Int8(x: int): (r: int)
    ensures IsInt8(r) && (r - x) % 0x100 == 0
  {
    if IsInt8(x) then x else (x + 0x80) % 0x100 - 0x80
  }

  /** The Java `(short)` cast. */
  function Int16(x: int): (r: int)
    ensures IsInt16(r) && (r - x) % 0x1_0000 == 0
  {
    if IsInt16(x) then x else (x + 0x8000) % 0x1_0000 - 0x8000
  }

  /** Truncation to a Java `int`. */
  function Int32(x: int): (r: int)
    ensures IsInt32(r) && (r - x) % 0x1_0000_0000 == 0
  {
    if IsInt32(x) then x else (x + 0x8000_0000) % 0x1_0000_0000 - 0x8000_0000
  }

  /** Truncation to a Java `long`. */
  function Int64(x: int): (r: int)
    ensures IsInt64(r) && (r - x) % 0x1_0000_0000_0000_0000 == 0
  {
    if IsInt64(x) then x else (x + 0x8000_0000_0000_0000) % 0x1_0000_0000_0000_0000 - 0x8000_0000_0000_0000
  }

  /** The low eight bits of `x`: `(byte) x` read back with `Byte.toUnsignedInt`. */
  function LowByte(x: int): (r: Byte)
    ensures (r - x) % 0x100 == 0
  {
    x % 0x100
  }

  /** A Java `byte` value read as signed: bytes above 127 are negative. */
  function Signed(b: Byte): (r: int)
    ensures IsInt8(r) && LowByte(r) == b
  {
    if b < 0x80 then b else b - 0x100
  }

  lemma Int32InRange(x: int)
    requires IsInt32(x)
    ensures Int32(x) == x
  {
  }

  lemma Int16InRange(x: int)
    requires IsInt16(x)
    ensures Int16(x) == x
  {
  }

  lemma Int64InRange(x: int)
    requires IsInt64(x)
    ensures Int64(x) == x
  {
  }
}
