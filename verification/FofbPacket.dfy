/**
 The payload of a fast orbit feedback packet, as caen_fast_genpacket.c prints it into its buffer:
 protocol id, command and nonce, then address and setpoint pairs, all big-endian. A setpoint is
 the bit pattern of its float.
 */
module FofbPacket {
  import opened Words

  const MAX_PAIRS := 10
  const PACKET_MAX_SIZE := 1024

  type u64 = x: int | 0 <= x < 0x1_0000_0000_0000_0000

  datatype Pair = Pair(address: u16, setpoint: u32)

  function PairBytes(p: Pair): (s: seq<byte>)
    ensures |s| == 6
  {
    Bytes16(p.address) + Bytes32(p.setpoint)
  }

  function PairsBytes(pairs: seq<Pair>): (s: seq<byte>)
    ensures |s| == 6 * |pairs|
  {
    if pairs == [] then [] else PairsBytes(pairs[..|pairs| - 1]) + PairBytes(pairs[|pairs| - 1])
  }

  /** The twelve bytes before the pairs. */
  function HeadBytes(protocol: u16, command: u16, nonce: u64): (s: seq<byte>)
    ensures |s| == 12
  {
    Bytes16(protocol) + Bytes16(command) + NonceBytes(nonce)
  }

  function Payload(protocol: u16, command: u16, nonce: u64, pairs: seq<Pair>): seq<byte> {
    HeadBytes(protocol, command, nonce) + PairsBytes(pairs)
  }

  /** The eight bytes of the nonce, the highest first. */
  function NonceBytes(nonce: u64): (s: seq<byte>)
    ensures |s| == 8
  {
    seq(8, k requires 0 <= k < 8 => ShiftRight8(nonce, 7 - k) % 0x100)
  }

  lemma LowWord(x: nat)
    ensures var q1 := x / 0x100; var q2 := q1 / 0x100; var q3 := q2 / 0x100;
      Word32(q3 % 0x100, q2 % 0x100, q1 % 0x100, x % 0x100) == x % TWO_32
  {
    var q1 := x / 0x100;
    var q2 := q1 / 0x100;
    var q3 := q2 / 0x100;
    Remainder(q3 / 0x100, Word32(q3 % 0x100, q2 % 0x100, q1 % 0x100, x % 0x100));
  }

  lemma Remainder(q: nat, low: u32)
    ensures (TWO_32 * q + low) % TWO_32 == low
  {
  }

  lemma Shifts(x: nat)
    ensures ShiftRight8(x, 0) == x && ShiftRight8(x, 1) == x / 0x100
    ensures ShiftRight8(x, 2) == x / 0x100 / 0x100 && ShiftRight8(x, 3) == x / 0x100 / 0x100 / 0x100
  {
  }

  /** The last four of them are the low word of the nonce. */
  lemma NonceLow(nonce: u64)
    ensures var b := NonceBytes(nonce); Word32(b[4], b[5], b[6], b[7]) == nonce % TWO_32
  {
    Shifts(nonce);
    LowWord(nonce);
  }

  lemma {:induction false} ShiftTwice(x: nat, a: nat, b: nat)
    ensures ShiftRight8(ShiftRight8(x, a), b) == ShiftRight8(x, a + b)
    decreases a
  {
    if a > 0 {
      ShiftTwice(x / 0x100, a - 1, b);
    }
  }

  /** A number is its upper part and its four lowest bytes. */
  lemma FourLowest(x: nat)
    ensures x == TWO_32 * ShiftRight8(x, 4)
      + Word32(ShiftRight8(x, 3) % 0x100, ShiftRight8(x, 2) % 0x100, ShiftRight8(x, 1) % 0x100, x % 0x100)
  {
    Shifts(x);
    ShiftTwice(x, 3, 1);
    assert ShiftRight8(ShiftRight8(x, 3), 1) == ShiftRight8(x, 3) / 0x100;
  }

  /** All eight of them spell the nonce, the most significant first. */
  lemma NonceSpelled(nonce: u64)
    ensures var b := NonceBytes(nonce);
      nonce == TWO_32 * Word32(b[0], b[1], b[2], b[3]) + Word32(b[4], b[5], b[6], b[7])
  {
    var high := ShiftRight8(nonce, 4);
    FourLowest(nonce);
    FourLowest(high);
    assert ShiftRight8(high, 4) == 0 by {
      assert high < TWO_32;
    }
    ShiftTwice(nonce, 4, 1);
    ShiftTwice(nonce, 4, 2);
    ShiftTwice(nonce, 4, 3);
  }

  /** The printing part of `send_fast_udp_packet`: the length printed, or -1 for too many pairs. */
  method Print(buffer: array<byte>, protocol: u16, command: u16, nonce: u64, pairs: seq<Pair>)
    returns (offset: int)
    requires buffer.Length == PACKET_MAX_SIZE
    modifies buffer
    ensures |pairs| > 10 ==> offset == -1 && buffer[..] == old(buffer[..])
    ensures |pairs| <= 10 ==>
      offset == 12 + 6 * |pairs| && buffer[..offset] == Payload(protocol, command, nonce, pairs)
  {
    if |pairs| > MAX_PAIRS {
      return -1;
    }
    offset := 0;
    buffer[offset], offset := protocol / 0x100, offset + 1;
    buffer[offset], offset := protocol % 0x100, offset + 1;
    buffer[offset], offset := command / 0x100, offset + 1;
    buffer[offset], offset := command % 0x100, offset + 1;
    assert buffer[..4] == HeadBytes(protocol, command, nonce)[..4];
    var i := 7;
    while i >= 0
      invariant -1 <= i <= 7 && offset == 11 - i
      invariant buffer[..offset] == HeadBytes(protocol, command, nonce)[..offset]
    {
      assert HeadBytes(protocol, command, nonce)[offset] == NonceBytes(nonce)[7 - i];
      buffer[offset], offset := ShiftRight8(nonce, i) % 0x100, offset + 1;
      i := i - 1;
    }
    var k := 0;
    while k < |pairs|
      invariant 0 <= k <= |pairs| && offset == 12 + 6 * k
      invariant buffer[..offset] == Payload(protocol, command, nonce, pairs[..k])
    {
      ghost var done := buffer[..offset];
      PrintPair(buffer, offset, pairs[k]);
      offset := offset + 6;
      assert pairs[..k + 1][..k] == pairs[..k];
      assert buffer[..offset] == done + PairBytes(pairs[k]);
      k := k + 1;
    }
    assert pairs[..k] == pairs;
  }

  /** One address and one setpoint; the float's bytes go out from the highest to the lowest. */
  method PrintPair(buffer: array<byte>, offset: nat, p: Pair)
    requires offset + 6 <= buffer.Length
    modifies buffer
    ensures buffer[..offset + 6] == old(buffer[..offset]) + PairBytes(p)
  {
    // The four bytes of the float in memory, lowest first.
    var q1 := p.setpoint / 0x100;
    var q2 := q1 / 0x100;
    var q3 := q2 / 0x100;
    var bytes := [p.setpoint % 0x100, q1 % 0x100, q2 % 0x100, q3];
    buffer[offset] := p.address / 0x100;
    buffer[offset + 1] := p.address % 0x100;
    buffer[offset + 2] := bytes[3];
    buffer[offset + 3] := bytes[2];
    buffer[offset + 4] := bytes[1];
    buffer[offset + 5] := bytes[0];
  }
}
