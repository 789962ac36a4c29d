/**
 Machine words shared by the models: unsigned words of 8, 16 and 32 bits, the signed
 words of the converters, and the two conversions between signed and unsigned 32-bit words.
 */
module Words {
  const TWO_16 := 0x1_0000
  const TWO_32 := 0x1_0000_0000

  type byte = x: int | 0 <= x < 0x100
  type u16 = x: int | 0 <= x < 0x1_0000
  type u32 = x: int | 0 <= x < 0x1_0000_0000
  type s16 = x: int | -0x8000 <= x < 0x8000
  type s20 = x: int | -0x8_0000 <= x < 0x8_0000
  type s32 = x: int | -0x8000_0000 <= x < 0x8000_0000

  /** The 32-bit two's complement pattern of a signed value. */
  function Bits32(x: s32): u32 {
    if x < 0 then x + TWO_32 else x
  }

  /** The signed value of a 32-bit pattern, the C cast `(s32)`. */
  function Signed32(w: u32): s32 {
    if w < 0x8000_0000 then w else w - TWO_32
  }

  /** Big-endian words put together from their bytes. */
  function Word16(hi: byte, lo: byte): u16 {
    0x100 * hi + lo
  }

  function Word32(b3: byte, b2: byte, b1: byte, b0: byte): u32 {
    0x100_0000 * b3 + 0x1_0000 * b2 + 0x100 * b1 + b0
  }

  /** The bytes of a word, most significant first, and back. */
  function Bytes16(x: u16): (s: seq<byte>)
    ensures |s| == 2 && Word16(s[0], s[1]) == x
  {
    [x / 0x100, x % 0x100]
  }

  function Bytes32(x: u32): (s: seq<byte>)
    ensures |s| == 4 && Word32(s[0], s[1], s[2], s[3]) == x
  {
    var q1 := x / 0x100;
    var q2 := q1 / 0x100;
    var q3 := q2 / 0x100;
    [q3, q2 % 0x100, q1 % 0x100, x % 0x100]
  }

  /** In bytes, the most significant comes first. */
  lemma MostSignificantFirst()
    ensures Word16(0x12, 0x34) == 0x1234 && Word32(0x12, 0x34, 0x56, 0x78) == 0x1234_5678
  {
  }

  function Min(a: nat, b: nat): nat {
    if a <= b then a else b
  }

  /** A register of `n` bits, all low. */
  function Zeros(n: nat): (z: seq<bool>)
    ensures |z| == n
  {
    seq(n, _ => false)
  }

  /** `x >> (8 * i)` */
  function ShiftRight8(x: nat, i: nat): nat {
    if i == 0 then x else ShiftRight8(x / 0x100, i - 1)
  }

  /** Counting on in a counter that has wrapped. */
  lemma NextModulo16(n: nat)
    ensures (n % TWO_16 + 1) % TWO_16 == (n + 1) % TWO_16 && n % TWO_16 != (n + 1) % TWO_16
  {
  }

  lemma NextModulo32(n: nat)
    ensures (n % TWO_32 + 1) % TWO_32 == (n + 1) % TWO_32
  {
  }

  /** `x` reduced to a two's complement word of values `-half .. half - 1`. */
  function Wrap(x: int, half: int): (r: int)
    requires half > 0
    ensures -half <= r < half
  {
    (x + half) % (2 * half) - half
  }
}
