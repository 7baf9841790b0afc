/** Bytes as eight bits, and 16- and 32-bit integers with their big-endian byte forms. */
module Bytes {
  type Byte = bv8

  type u8 = x: int | 0 <= x < 0x100
  type u16 = x: int | 0 <= x < 0x1_0000
  type u32 = x: int | 0 <= x < 0x1_0000_0000

  function Weight(bit: bool, value: nat): nat {
    if bit then value else 0
  }

  /** Whether the bit of the given weight is set. */
  predicate HasBit(n: nat, weight: nat)
    requires weight > 0
  {
    n % (2 * weight) >= weight
  }

  function NibbleToInt(b3: bool, b2: bool, b1: bool, b0: bool): (n: nat)
    ensures n < 16
  {
    Weight(b3, 8) + Weight(b2, 4) + Weight(b1, 2) + Weight(b0, 1)
  }

  function HighNibble(b: Byte): (n: nat)
    ensures n < 16
  {
    NibbleToInt(b & 0x80 != 0, b & 0x40 != 0, b & 0x20 != 0, b & 0x10 != 0)
  }

  function LowNibble(b: Byte): (n: nat)
    ensures n < 16
  {
    NibbleToInt(b & 0x08 != 0, b & 0x04 != 0, b & 0x02 != 0, b & 0x01 != 0)
  }

  function ToInt(b: Byte): u8 {
    16 * HighNibble(b) + LowNibble(b)
  }

  function Mask(bit: bool, value: Byte): Byte {
    if bit then value else 0
  }

  function FromBits(b7: bool, b6: bool, b5: bool, b4: bool, b3: bool, b2: bool, b1: bool, b0: bool): Byte {
    Mask(b7, 0x80) | Mask(b6, 0x40) | Mask(b5, 0x20) | Mask(b4, 0x10)
    | Mask(b3, 0x08) | Mask(b2, 0x04) | Mask(b1, 0x02) | Mask(b0, 0x01)
  }

  function FromInt(n: u8): Byte {
    var hi: nat, lo: nat := n / 16, n % 16;
    FromBits(HasBit(hi, 8), HasBit(hi, 4), HasBit(hi, 2), HasBit(hi, 1),
             HasBit(lo, 8), HasBit(lo, 4), HasBit(lo, 2), HasBit(lo, 1))
  }

  lemma NibblesOfBits(b7: bool, b6: bool, b5: bool, b4: bool, b3: bool, b2: bool, b1: bool, b0: bool)
    ensures var b := FromBits(b7, b6, b5, b4, b3, b2, b1, b0);
            HighNibble(b) == NibbleToInt(b7, b6, b5, b4) && LowNibble(b) == NibbleToInt(b3, b2, b1, b0)
  {
    hide NibbleToInt;
  }

  lemma FromOwnBits(b: Byte)
    ensures b == FromBits(b & 0x80 != 0, b & 0x40 != 0, b & 0x20 != 0, b & 0x10 != 0,
                          b & 0x08 != 0, b & 0x04 != 0, b & 0x02 != 0, b & 0x01 != 0)
  {
  }

  lemma NibbleOfInt(n: nat)
    requires n < 16
    ensures NibbleToInt(HasBit(n, 8), HasBit(n, 4), HasBit(n, 2), HasBit(n, 1)) == n
  {
  }

  lemma NibbleBits(b3: bool, b2: bool, b1: bool, b0: bool)
    ensures var n := NibbleToInt(b3, b2, b1, b0);
            HasBit(n, 8) == b3 && HasBit(n, 4) == b2 && HasBit(n, 2) == b1 && HasBit(n, 1) == b0
  {
  }

  lemma IntRoundTrip(n: u8)
    ensures ToInt(FromInt(n)) == n
  {
    hide HasBit, NibbleToInt, FromBits, HighNibble, LowNibble;
    var hi: nat, lo: nat := n / 16, n % 16;
    NibblesOfBits(HasBit(hi, 8), HasBit(hi, 4), HasBit(hi, 2), HasBit(hi, 1),
                  HasBit(lo, 8), HasBit(lo, 4), HasBit(lo, 2), HasBit(lo, 1));
    NibbleOfInt(hi);
    NibbleOfInt(lo);
  }

  lemma ByteRoundTrip(b: Byte)
    ensures FromInt(ToInt(b)) == b
  {
    hide HasBit, NibbleToInt, FromBits;
    var n: nat := 16 * HighNibble(b) + LowNibble(b);
    assert n / 16 == HighNibble(b) && n % 16 == LowNibble(b);
    NibbleBits(b & 0x80 != 0, b & 0x40 != 0, b & 0x20 != 0, b & 0x10 != 0);
    NibbleBits(b & 0x08 != 0, b & 0x04 != 0, b & 0x02 != 0, b & 0x01 != 0);
    FromOwnBits(b);
  }

  /** The value of a byte with one bit set is the weight of that bit. */
  lemma BitValues()
    ensures ToInt(0x01) == 1 && ToInt(0x02) == 2 && ToInt(0x04) == 4 && ToInt(0x08) == 8
    ensures ToInt(0x10) == 16 && ToInt(0x20) == 32 && ToInt(0x40) == 64 && ToInt(0x80) == 128
  {
  }

  function U16ToBytes(n: u16): (b: seq<Byte>)
    ensures |b| == 2
  {
    [FromInt(n / 0x100), FromInt(n % 0x100)]
  }

  function U16FromBytes(b: seq<Byte>): u16
    requires |b| == 2
  {
    ToInt(b[0]) * 0x100 + ToInt(b[1])
  }

  function U32ToBytes(n: u32): (b: seq<Byte>)
    ensures |b| == 4
  {
    U16ToBytes(n / 0x1_0000) + U16ToBytes(n % 0x1_0000)
  }

  function U32FromBytes(b: seq<Byte>): u32
    requires |b| == 4
  {
    U16FromBytes(b[..2]) * 0x1_0000 + U16FromBytes(b[2..])
  }

  lemma U16RoundTrip(n: u16)
    ensures U16FromBytes(U16ToBytes(n)) == n
  {
    hide ToInt, FromInt;
    IntRoundTrip(n / 0x100);
    IntRoundTrip(n % 0x100);
  }

  lemma U16BytesRoundTrip(b: seq<Byte>)
    requires |b| == 2
    ensures U16ToBytes(U16FromBytes(b)) == b
  {
    hide ToInt, FromInt;
    U16Digits(ToInt(b[0]), ToInt(b[1]));
    ByteRoundTrip(b[0]);
    ByteRoundTrip(b[1]);
  }

  lemma U16Digits(hi: u8, lo: u8)
    ensures var n: nat := hi * 0x100 + lo; n / 0x100 == hi && n % 0x100 == lo
  {
  }

  lemma U32Digits(hi: u16, lo: u16)
    ensures var n: nat := hi * 0x1_0000 + lo; n / 0x1_0000 == hi && n % 0x1_0000 == lo
  {
  }

  lemma U32RoundTrip(n: u32)
    ensures U32FromBytes(U32ToBytes(n)) == n
  {
    hide U16ToBytes, U16FromBytes;
    var b := U32ToBytes(n);
    assert b[..2] == U16ToBytes(n / 0x1_0000) && b[2..] == U16ToBytes(n % 0x1_0000);
    U16RoundTrip(n / 0x1_0000);
    U16RoundTrip(n % 0x1_0000);
  }

  lemma U32BytesRoundTrip(b: seq<Byte>)
    requires |b| == 4
    ensures U32ToBytes(U32FromBytes(b)) == b
  {
    hide U16ToBytes, U16FromBytes;
    U32Digits(U16FromBytes(b[..2]), U16FromBytes(b[2..]));
    U16BytesRoundTrip(b[..2]);
    U16BytesRoundTrip(b[2..]);
    assert b == b[..2] + b[2..];
  }

  /** Addition and subtraction that wrap around at 2^16. */
  function WrappingAdd(n: u16, k: nat): u16 {
    (n + k) % 0x1_0000
  }

  function WrappingSub(n: u16, k: nat): u16 {
    (n - k) % 0x1_0000
  }

  /** Addition and subtraction that stop at the ends of the 16-bit range. */
  function SaturatingAdd(n: u16, k: nat): u16 {
    if n + k < 0x1_0000 then n + k else 0xFFFF
  }

  function SaturatingSub(n: u16, k: nat): u16 {
    if n < k then 0 else n - k
  }
}
