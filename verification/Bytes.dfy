/** The fixed-width integers of the wire format, and their big-endian layout.
    A right shift by 4, 8 or 16 bits is a quotient, a mask of the low bits the
    remainder it leaves, and an `or` of disjoint bits a sum. */
module Bytes {

  type Nibble = x: int | 0 <= x < 16
  type Byte = x: int | 0 <= x < 0x100
  type U16 = x: int | 0 <= x < 0x1_0000
  type U32 = x: int | 0 <= x < 0x1_0000_0000

  datatype Option<+T> = None | Some(value: T)

  function Min(a: int, b: int): int {
    if a <= b then a else b
  }

  function Max(a: int, b: int): int {
    if a >= b then a else b
  }

  function Pow2(n: nat): (p: nat)
    ensures p > 0
  {
    if n == 0 then 1 else 2 * Pow2(n - 1)
  }

  lemma Assoc<T>(a: seq<T>, b: seq<T>, c: seq<T>)
    ensures a + b + c == a + (b + c)
  {
  }

  /** A 32-bit counter after `wrapping_add(1)`. */
  function Succ32(x: U32): U32 {
    if x + 1 == 0x1_0000_0000 then 0 else x + 1
  }

  function Plus32(x: U32, n: nat): U32 {
    if n == 0 then x else Succ32(Plus32(x, n - 1))
  }

  lemma {:induction false} Plus32IsModulo(x: U32, n: nat)
    ensures Plus32(x, n) == (x + n) % 0x1_0000_0000
  {
    if n > 0 {
      Plus32IsModulo(x, n - 1);
      SuccIsModulo(x + n - 1);
    }
  }

  lemma SuccIsModulo(v: nat)
    ensures Succ32(v % 0x1_0000_0000) == (v + 1) % 0x1_0000_0000
  {
    var q, r := v / 0x1_0000_0000, v % 0x1_0000_0000;
    assert v + 1 == q * 0x1_0000_0000 + (r + 1);
  }

  // ----- nibbles, bytes, words: each pair splits and joins without loss -----

  function HighNibble(b: Byte): Nibble { b / 16 }

  function LowNibble(b: Byte): Nibble { b % 16 }

  function Nibbles(high: Nibble, low: Nibble): Byte {
    (high as int) * 16 + low as int
  }

  function HighByte(w: U16): Byte { w / 0x100 }

  function LowByte(w: U16): Byte { w % 0x100 }

  function Word(high: Byte, low: Byte): U16 {
    (high as int) * 0x100 + low as int
  }

  function HighWord(v: U32): U16 { v / 0x1_0000 }

  function LowWord(v: U32): U16 { v % 0x1_0000 }

  function DoubleWord(high: U16, low: U16): U32 {
    (high as int) * 0x1_0000 + low as int
  }

  function BigEndian(v: U32): (b: seq<Byte>)
    ensures |b| == 4
  {
    [HighByte(HighWord(v)), LowByte(HighWord(v)), HighByte(LowWord(v)), LowByte(LowWord(v))]
  }

  function FromBigEndian(b0: Byte, b1: Byte, b2: Byte, b3: Byte): U32 {
    DoubleWord(Word(b0, b1), Word(b2, b3))
  }

  /** The first byte is the most significant one. */
  lemma BigEndianBytes(b0: Byte, b1: Byte, b2: Byte, b3: Byte)
    ensures FromBigEndian(b0, b1, b2, b3) == 0x100_0000 * (b0 as int) + 0x1_0000 * (b1 as int) + 0x100 * (b2 as int) + b3
  {
  }

  /** Four bytes carry a 32-bit word exactly. */
  lemma BigEndianRoundTrip(v: U32)
    ensures var b := BigEndian(v); FromBigEndian(b[0], b[1], b[2], b[3]) == v
  {
  }
}
