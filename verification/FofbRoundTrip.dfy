/**
 From the printed packet to the channel setpoints: a whole frame, clocked byte by byte through the
 receiver, leaves each channel with the setpoint of the last pair that carries its address.
 */
module FofbRoundTrip {
  import opened Words
  import opened FofbPacket
  import opened FofbReceiver

  // ---------------------------------------------------------------------------
  // Clocking a list of inputs
  // ---------------------------------------------------------------------------

  function Clocks(s: State, p: Params, ins: seq<Input>): (t: State)
    requires Shape(s, p)
    ensures Shape(t, p)
    decreases |ins|
  {
    if ins == [] then s else Clocks(Next(s, p, ins[0]), p, ins[1..])
  }

  /** Number of clocks after which `rx_done` is high. */
  function DonePulses(s: State, p: Params, ins: seq<Input>): nat
    requires Shape(s, p)
    decreases |ins|
  {
    if ins == [] then 0
    else (if Next(s, p, ins[0]).rxDone then 1 else 0) + DonePulses(Next(s, p, ins[0]), p, ins[1..])
  }

  lemma {:induction false} Split(s: State, p: Params, a: seq<Input>, b: seq<Input>)
    requires Shape(s, p)
    ensures Clocks(s, p, a + b) == Clocks(Clocks(s, p, a), p, b)
    ensures DonePulses(s, p, a + b) == DonePulses(s, p, a) + DonePulses(Clocks(s, p, a), p, b)
    decreases |a|
  {
    if a == [] {
      assert a + b == b;
    } else {
      assert (a + b)[0] == a[0] && (a + b)[1..] == a[1..] + b;
      Split(Next(s, p, a[0]), p, a[1..], b);
    }
  }

  lemma OneClock(s: State, p: Params, i: Input)
    requires Shape(s, p)
    ensures Clocks(s, p, [i]) == Next(s, p, i)
    ensures DonePulses(s, p, [i]) == if Next(s, p, i).rxDone then 1 else 0
  {
  }

  /** Bytes of a frame, with `rx_dv` high. */
  function Frame(bytes: seq<byte>): (ins: seq<Input>)
    ensures |ins| == |bytes|
  {
    seq(|bytes|, k requires 0 <= k < |bytes| => Input(false, true, bytes[k]))
  }

  /** Clocks between frames: `rx_dv` is low, the data lines may show anything. */
  function Gap(noise: seq<byte>): (ins: seq<Input>)
    ensures |ins| == |noise|
  {
    seq(|noise|, k requires 0 <= k < |noise| => Input(false, false, noise[k]))
  }

  lemma FrameSplit(a: seq<byte>, b: seq<byte>)
    ensures Frame(a + b) == Frame(a) + Frame(b)
  {
  }

  // ---------------------------------------------------------------------------
  // The last pair for an address
  // ---------------------------------------------------------------------------

  predicate Names(pairs: seq<Pair>, addr: u16) {
    exists k :: 0 <= k < |pairs| && pairs[k].address == addr
  }

  /** Pair `k` is `m`, and none behind it has its address. */
  predicate LastAt(pairs: seq<Pair>, k: int, m: Pair) {
    0 <= k < |pairs| && pairs[k] == m && forall j :: k < j < |pairs| ==> pairs[j].address != m.address
  }

  /** The setpoint of the last pair with this address, or `was` if there is none. */
  function LastSetpoint(pairs: seq<Pair>, addr: u16, was: u32): u32 {
    if Names(pairs, addr) then LastMatch(pairs, addr).setpoint
    else was
  }

  function LastMatch(pairs: seq<Pair>, addr: u16): (m: Pair)
    requires Names(pairs, addr)
    ensures m.address == addr && exists k :: LastAt(pairs, k, m)
  {
    var n := |pairs| - 1;
    if pairs[n].address == addr then
      assert LastAt(pairs, n, pairs[n]);
      pairs[n]
    else
      NamedBefore(pairs, addr);
      var m := LastMatch(pairs[..n], addr);
      LastBefore(pairs[..n], pairs[n], m);
      assert pairs == pairs[..n] + [pairs[n]];
      m
  }

  lemma NamedBefore(pairs: seq<Pair>, addr: u16)
    requires Names(pairs, addr) && pairs[|pairs| - 1].address != addr
    ensures Names(pairs[..|pairs| - 1], addr)
  {
    var k :| 0 <= k < |pairs| && pairs[k].address == addr;
    assert pairs[..|pairs| - 1][k].address == addr;
  }

  lemma LastBefore(front: seq<Pair>, q: Pair, m: Pair)
    requires q.address != m.address && exists k :: LastAt(front, k, m)
    ensures exists k :: LastAt(front + [q], k, m)
  {
    var k :| LastAt(front, k, m);
    assert LastAt(front + [q], k, m);
  }

  /** What a list of pairs makes of the four channels. */
  function Channels(ps: seq<u32>, addrs: seq<u16>, pairs: seq<Pair>): (r: seq<u32>)
    requires |ps| == 4 && |addrs| == 4
    ensures |r| == 4
  {
    seq(4, c requires 0 <= c < 4 => LastSetpoint(pairs, addrs[c], ps[c]))
  }

  lemma LastSetpointStep(pairs: seq<Pair>, q: Pair, addr: u16, was: u32)
    ensures LastSetpoint(pairs + [q], addr, was) ==
      if q.address == addr then q.setpoint else LastSetpoint(pairs, addr, was)
  {
    var all := pairs + [q];
    assert all[..|pairs|] == pairs;
    if q.address == addr {
      assert all[|pairs|].address == addr;
    } else if Names(pairs, addr) {
      var k :| 0 <= k < |pairs| && pairs[k].address == addr;
      assert all[k].address == addr;
    }
  }

  lemma ChannelsStep(ps: seq<u32>, addrs: seq<u16>, pairs: seq<Pair>, q: Pair)
    requires |ps| == 4 && |addrs| == 4
    ensures Channels(ps, addrs, pairs + [q]) == Update(Channels(ps, addrs, pairs), addrs, q.address, q.setpoint)
  {
    forall c | 0 <= c < 4
      ensures Channels(ps, addrs, pairs + [q])[c] == Update(Channels(ps, addrs, pairs), addrs, q.address, q.setpoint)[c]
    {
      LastSetpointStep(pairs, q, addrs[c], ps[c]);
    }
  }

  // ---------------------------------------------------------------------------
  // The parts of a frame
  // ---------------------------------------------------------------------------

  /** Between frames, with `rx_dv` seen low. */
  predicate Ready(s: State, p: Params) {
    Shape(s, p) && s.phase == Idle && !s.dvPrev
  }

  lemma {:induction false} WaitsForSfd(s: State, p: Params, bytes: seq<byte>)
    requires Shape(s, p) && s.phase == Preamble && 0xD5 !in bytes
    ensures Clocks(s, p, Frame(bytes)) == s
    ensures !s.rxDone ==> DonePulses(s, p, Frame(bytes)) == 0
    decreases |bytes|
  {
    if bytes != [] {
      assert Frame(bytes)[1..] == Frame(bytes[1..]);
      WaitsForSfd(s, p, bytes[1..]);
    }
  }

  /** The first byte of a frame is not looked at; the delimiter 0xD5 ends the preamble. */
  lemma PreambleStarts(s: State, p: Params, preamble: seq<byte>)
    requires Ready(s, p) && preamble != [] && 0xD5 !in preamble[1..]
    ensures Clocks(s, p, Frame(preamble + [0xD5])) ==
      s.(fofbPacket := false, rxDone := false, dvPrev := true, framebyte := 0, phase := Header)
    ensures DonePulses(s, p, Frame(preamble + [0xD5])) == 0
  {
    var s1 := s.(fofbPacket := false, rxDone := false, dvPrev := true, framebyte := 0, phase := Preamble);
    var sfd := Frame([0xD5]);
    assert preamble + [0xD5] == preamble[..1] + preamble[1..] + [0xD5];
    FrameSplit(preamble[..1] + preamble[1..], [0xD5]);
    FrameSplit(preamble[..1], preamble[1..]);
    var first := Frame(preamble[..1]);
    assert first == [Input(false, true, preamble[0])];
    OneClock(s, p, first[0]);
    Split(s, p, first, Frame(preamble[1..]));
    WaitsForSfd(s1, p, preamble[1..]);
    Split(s, p, first + Frame(preamble[1..]), sfd);
    assert sfd == [Input(false, true, 0xD5)];
    OneClock(s1, p, sfd[0]);
  }

  /** Header bytes are stored in order; before the last one nothing else changes. */
  lemma {:induction false} HeaderStores(s: State, p: Params, bytes: seq<byte>)
    requires Shape(s, p) && s.phase == Header && !s.rxDone && s.framebyte + |bytes| < HEAD
    ensures Clocks(s, p, Frame(bytes)) ==
      s.(framebyte := s.framebyte + |bytes|, pkt := s.pkt[..s.framebyte] + bytes + s.pkt[s.framebyte + |bytes|..])
    ensures DonePulses(s, p, Frame(bytes)) == 0
    decreases |bytes|
  {
    var k := s.framebyte;
    if bytes == [] {
      assert s.pkt[..k] + bytes + s.pkt[k..] == s.pkt;
    } else {
      var t := Next(s, p, Frame(bytes)[0]);
      assert Frame(bytes)[1..] == Frame(bytes[1..]);
      HeaderStores(t, p, bytes[1..]);
      assert t.pkt[..k + 1] + bytes[1..] + t.pkt[k + |bytes|..] == s.pkt[..k] + bytes + s.pkt[k + |bytes|..];
    }
  }

  /** What the last header byte makes of the 53 before it. */
  function Decided(s: State, p: Params, head: seq<byte>): State
    requires Shape(s, p) && |head| == HEAD
  {
    var t := s.(framebyte := HEAD, pkt := head);
    if DestIp(head) == p.ip && Protocol(head) == PROTOCOL then
      t.(phase := AddrHi, fofbPacket := true, stat := Published(s.stat, head, head[HEAD - 1]))
    else t.(phase := Idle)
  }

  lemma LastHeaderByte(s: State, p: Params, m: State, head: seq<byte>)
    requires Shape(s, p) && |head| == HEAD && |m.pkt| == HEAD && s.phase == Header
    requires m == s.(framebyte := HEAD - 1, pkt := m.pkt) && m.pkt[..HEAD - 1] == head[..HEAD - 1]
    ensures Next(m, p, Input(false, true, head[HEAD - 1])) == Decided(s, p, head)
  {
    assert m.pkt[HEAD - 1 := head[HEAD - 1]] == head;
    assert forall k :: 0 <= k < HEAD - 1 ==> m.pkt[k] == m.pkt[..HEAD - 1][k] == head[k];
  }

  /** The 54 header bytes: a frame for this unit is accepted and published, any other one is dropped. */
  lemma HeaderDecides(s: State, p: Params, head: seq<byte>)
    requires Shape(s, p) && s.phase == Header && !s.rxDone && s.framebyte == 0 && |head| == HEAD
    ensures Clocks(s, p, Frame(head)) == Decided(s, p, head)
    ensures DonePulses(s, p, Frame(head)) == 0
  {
    var front := head[..HEAD - 1];
    HeaderStores(s, p, front);
    var m := Clocks(s, p, Frame(front));
    var last := Input(false, true, head[HEAD - 1]);
    assert head == front + [head[HEAD - 1]];
    FrameSplit(front, [head[HEAD - 1]]);
    assert Frame([head[HEAD - 1]]) == [last];
    Split(s, p, Frame(front), [last]);
    OneClock(m, p, last);
    LastHeaderByte(s, p, m, head);
  }

  /** The address and the upper half of the setpoint. */
  lemma FourBytes(s: State, p: Params, f: seq<byte>)
    requires Shape(s, p) && s.phase == AddrHi && !s.rxDone && |f| == 4
    ensures Clocks(s, p, Frame(f)) ==
      s.(fofbPacket := false, addrHi := f[0], addrLo := f[1], b3 := f[2], b2 := f[3], phase := Byte1)
    ensures DonePulses(s, p, Frame(f)) == 0
  {
    var i := Frame(f);
    var s1 := Next(s, p, i[0]);
    var s2 := Next(s1, p, i[1]);
    var s3 := Next(s2, p, i[2]);
    assert i[1..][1..] == i[2..] && i[2..][1..] == i[3..] && i[3..][1..] == [];
    OneClock(s3, p, i[3]);
    assert i[3..] == [i[3]];
    assert Clocks(s2, p, i[2..]) == Clocks(s3, p, i[3..]) && DonePulses(s2, p, i[2..]) == 0;
    assert Clocks(s1, p, i[1..]) == Clocks(s2, p, i[2..]) && DonePulses(s1, p, i[1..]) == 0;
  }

  /** The six bytes of one pair bring its setpoint to every channel with its address. */
  lemma OnePair(s: State, p: Params, q: Pair)
    requires Shape(s, p) && s.phase == AddrHi && !s.rxDone
    ensures var t := Clocks(s, p, Frame(PairBytes(q)));
      Shape(t, p) && t.phase == AddrHi && !t.rxDone && t.dvPrev == s.dvPrev && !t.fofbPacket &&
      t.stat == s.stat.(ps := Update(s.stat.ps, p.addrs, q.address, q.setpoint))
    ensures DonePulses(s, p, Frame(PairBytes(q))) == 0
  {
    var b := PairBytes(q);
    FourBytes(s, p, b[..4]);
    var m := Clocks(s, p, Frame(b[..4]));
    var i := Frame(b[4..]);
    assert b == b[..4] + b[4..] && i[1..] == [i[1]];
    FrameSplit(b[..4], b[4..]);
    Split(s, p, Frame(b[..4]), i);
    OneClock(Next(m, p, i[0]), p, i[1]);
  }

  lemma {:induction false} AllPairs(s: State, p: Params, pairs: seq<Pair>)
    requires Shape(s, p) && s.phase == AddrHi && !s.rxDone
    ensures var t := Clocks(s, p, Frame(PairsBytes(pairs)));
      t.phase == AddrHi && !t.rxDone && t.dvPrev == s.dvPrev &&
      t.stat == s.stat.(ps := Channels(s.stat.ps, p.addrs, pairs))
    ensures DonePulses(s, p, Frame(PairsBytes(pairs))) == 0
    decreases |pairs|
  {
    if pairs == [] {
      assert Channels(s.stat.ps, p.addrs, pairs) == s.stat.ps;
    } else {
      var front := pairs[..|pairs| - 1];
      var q := pairs[|pairs| - 1];
      assert pairs == front + [q];
      AllPairs(s, p, front);
      ChannelsStep(s.stat.ps, p.addrs, front, q);
      FrameSplit(PairsBytes(front), PairBytes(q));
      Split(s, p, Frame(PairsBytes(front)), Frame(PairBytes(q)));
      OnePair(Clocks(s, p, Frame(PairsBytes(front))), p, q);
    }
  }

  // ---------------------------------------------------------------------------
  // The end of a frame
  // ---------------------------------------------------------------------------

  lemma {:induction false} QuietGap(s: State, p: Params, noise: seq<byte>)
    requires Shape(s, p) && s.phase == Idle && noise != []
    ensures Ready(Clocks(s, p, Gap(noise)), p) && Clocks(s, p, Gap(noise)).stat == s.stat
    ensures DonePulses(s, p, Gap(noise)) == 0
    decreases |noise|
  {
    var i := Gap(noise);
    var t := Next(s, p, i[0]);
    if |noise| == 1 {
      assert i == [i[0]];
      OneClock(s, p, i[0]);
    } else {
      assert i[1..] == Gap(noise[1..]);
      QuietGap(t, p, noise[1..]);
    }
  }

  /** Two idle clocks end a frame: `rx_done` for one clock, then the receiver is ready. */
  lemma GapEnds(s: State, p: Params, noise: seq<byte>)
    requires Shape(s, p) && s.phase == AddrHi && !s.rxDone && |noise| >= 2
    ensures Ready(Clocks(s, p, Gap(noise)), p) && Clocks(s, p, Gap(noise)).stat == s.stat
    ensures DonePulses(s, p, Gap(noise)) == 1
  {
    var i := Gap(noise);
    assert i[1..] == Gap(noise[1..]);
    QuietGap(Next(s, p, i[0]), p, noise[1..]);
  }

  /** While `rx_dv` has not been seen low, the bytes of a frame pass unnoticed. */
  lemma {:induction false} Unnoticed(s: State, p: Params, bytes: seq<byte>)
    requires Shape(s, p) && s.phase == Idle && s.dvPrev
    ensures var t := Clocks(s, p, Frame(bytes)); t.phase == Idle && t.dvPrev && t.stat == s.stat
    ensures DonePulses(s, p, Frame(bytes)) == 0
    decreases |bytes|
  {
    if bytes != [] {
      assert Frame(bytes)[1..] == Frame(bytes[1..]);
      Unnoticed(Next(s, p, Frame(bytes)[0]), p, bytes[1..]);
    }
  }

  /** A gap of a single clock after an accepted frame hides the next frame, whatever it is. */
  lemma ShortGapHidesFrame(s: State, p: Params, noise: byte, bytes: seq<byte>)
    requires Shape(s, p) && s.phase == AddrHi && s.dvPrev && bytes != []
    ensures Clocks(s, p, Gap([noise]) + Frame(bytes)).stat == s.stat
  {
    Split(s, p, Gap([noise]), Frame(bytes));
    assert Gap([noise]) == [Input(false, false, noise)];
    OneClock(s, p, Input(false, false, noise));
    Unnoticed(Next(s, p, Input(false, false, noise)), p, bytes);
  }

  // ---------------------------------------------------------------------------
  // Main results
  // ---------------------------------------------------------------------------

  /** The wire bytes of a packet: preamble, delimiter, Ethernet, IP and UDP headers, payload. */
  function WireBytes(preamble: seq<byte>, header: seq<byte>, payload: seq<byte>): seq<byte> {
    preamble + [0xD5] + header + payload
  }

  /** The frame is for this unit. */
  predicate Mine(p: Params, header: seq<byte>, protocol: u16)
    requires |header| == 42
  {
    Word32(header[30], header[31], header[32], header[33]) == p.ip && protocol == 0x7631
  }

  /** The statistics after a frame: published and distributed if it is for this unit, else untouched. */
  function Received(stat: Stat, p: Params, header: seq<byte>, protocol: u16, command: u16, nonce: u64,
    pairs: seq<Pair>): Stat
    requires |header| == 42 && |stat.ps| == 4 && |p.addrs| == 4
  {
    if Mine(p, header, protocol) then
      Stat((stat.packets + 1) % TWO_32, command, nonce % TWO_32, Channels(stat.ps, p.addrs, pairs))
    else stat
  }

  /** What the receiver reads out of the 54 header bytes. */
  lemma HeadFields(header: seq<byte>, protocol: u16, command: u16, nonce: u64)
    requires |header| == 42
    ensures var head := header + HeadBytes(protocol, command, nonce);
      && DestIp(head) == Word32(header[30], header[31], header[32], header[33])
      && Protocol(head) == protocol && Word16(head[44], head[45]) == command
      && Word32(head[50], head[51], head[52], head[53]) == nonce % TWO_32
  {
    var head := header + HeadBytes(protocol, command, nonce);
    NonceLow(nonce);
    assert head[42..46] == Bytes16(protocol) + Bytes16(command);
    assert head[46..54] == NonceBytes(nonce);
    assert head[42] == head[42..46][0] && head[43] == head[42..46][1] && head[44] == head[42..46][2]
      && head[45] == head[42..46][3];
    assert head[50] == head[46..54][4] && head[51] == head[46..54][5] && head[52] == head[46..54][6]
      && head[53] == head[46..54][7];
  }

  /** The head of a frame up to the pairs. */
  lemma FrameHead(s: State, p: Params, preamble: seq<byte>, header: seq<byte>,
                  protocol: u16, command: u16, nonce: u64)
    requires Ready(s, p) && preamble != [] && 0xD5 !in preamble[1..] && |header| == 42
    ensures var t := Clocks(s, p, Frame(WireBytes(preamble, header, HeadBytes(protocol, command, nonce))));
      && !t.rxDone && t.dvPrev
      && t.stat == Received(s.stat, p, header, protocol, command, nonce, [])
      && t.phase == (if Mine(p, header, protocol) then AddrHi else Idle)
    ensures DonePulses(s, p, Frame(WireBytes(preamble, header, HeadBytes(protocol, command, nonce)))) == 0
  {
    var hb := HeadBytes(protocol, command, nonce);
    var head := header + hb;
    var t0 := Clocks(s, p, Frame(preamble + [0xD5]));
    PreambleStarts(s, p, preamble);
    HeaderDecides(t0, p, head);
    assert WireBytes(preamble, header, hb) == (preamble + [0xD5]) + head;
    FrameSplit(preamble + [0xD5], head);
    Split(s, p, Frame(preamble + [0xD5]), Frame(head));
    HeadFields(header, protocol, command, nonce);
    assert Channels(s.stat.ps, p.addrs, []) == s.stat.ps;
  }

  /** A whole frame, up to its last pair. */
  lemma FrameWithPairs(s: State, p: Params, preamble: seq<byte>, header: seq<byte>, protocol: u16, command: u16,
                       nonce: u64, pairs: seq<Pair>)
    requires Ready(s, p) && preamble != [] && 0xD5 !in preamble[1..] && |header| == 42
    ensures var u := Clocks(s, p, Frame(WireBytes(preamble, header, Payload(protocol, command, nonce, pairs))));
      && u.stat == Received(s.stat, p, header, protocol, command, nonce, pairs)
      && u.dvPrev && if Mine(p, header, protocol) then u.phase == AddrHi && !u.rxDone else u.phase == Idle
    ensures DonePulses(s, p, Frame(WireBytes(preamble, header, Payload(protocol, command, nonce, pairs)))) == 0
  {
    var front := WireBytes(preamble, header, HeadBytes(protocol, command, nonce));
    var body := PairsBytes(pairs);
    assert WireBytes(preamble, header, Payload(protocol, command, nonce, pairs)) == front + body;
    FrameSplit(front, body);
    FrameHead(s, p, preamble, header, protocol, command, nonce);
    var t := Clocks(s, p, Frame(front));
    Split(s, p, Frame(front), Frame(body));
    if t.phase == AddrHi {
      AllPairs(t, p, pairs);
      assert Channels(s.stat.ps, p.addrs, []) == s.stat.ps;
    } else {
      Unnoticed(t, p, body);
    }
  }

  /**
   Round trip: whatever packet is printed and sent in a frame with any 42-byte header, followed by two
   idle clocks or more, the receiver ends ready for the next frame, with the statistics the packet asks for.
   */
  lemma RoundTrip(s: State, p: Params, preamble: seq<byte>, header: seq<byte>, protocol: u16, command: u16,
                  nonce: u64, pairs: seq<Pair>, noise: seq<byte>)
    requires Ready(s, p) && preamble != [] && 0xD5 !in preamble[1..] && |header| == 42 && |noise| >= 2
    ensures var ins := Frame(WireBytes(preamble, header, Payload(protocol, command, nonce, pairs))) + Gap(noise);
      && Ready(Clocks(s, p, ins), p)
      && Clocks(s, p, ins).stat == Received(s.stat, p, header, protocol, command, nonce, pairs)
      && DonePulses(s, p, ins) == if Mine(p, header, protocol) then 1 else 0
  {
    var frame := Frame(WireBytes(preamble, header, Payload(protocol, command, nonce, pairs)));
    FrameWithPairs(s, p, preamble, header, protocol, command, nonce, pairs);
    Split(s, p, frame, Gap(noise));
    if Mine(p, header, protocol) {
      GapEnds(Clocks(s, p, frame), p, noise);
    } else {
      QuietGap(Clocks(s, p, frame), p, noise);
    }
  }

  /** A pair broken off behind its fourth byte takes two idle ones for the rest, and ends the frame. */
  lemma IdleEnds(s: State, p: Params, noise: seq<byte>)
    requires Shape(s, p) && s.phase == Byte1 && !s.rxDone && |noise| >= 3
    ensures var t := Clocks(s, p, Gap(noise));
      && Ready(t, p) && DonePulses(s, p, Gap(noise)) == 1
      && t.stat == s.stat.(ps := Update(
        s.stat.ps, p.addrs, Word16(s.addrHi, s.addrLo), Word32(s.b3, s.b2, noise[0], noise[1])))
  {
    var i := Gap(noise);
    var s1 := Next(s, p, i[0]);
    var s2 := Next(s1, p, i[1]);
    assert i[1..] == Gap(noise[1..]) && i[1..][1..] == Gap(noise[2..]);
    QuietGap(s2, p, noise[2..]);
    assert Clocks(s1, p, i[1..]) == Clocks(s2, p, Gap(noise[2..])) && DonePulses(s1, p, i[1..]) == 1;
  }

  /**
   With the four check bytes of the frame still on `rx_dv`, an accepted frame acts as if one more pair
   followed: its address is the first two check bytes, its setpoint the last two and the next two idle ones.
   */
  lemma CheckBytesActAsPair(s: State, p: Params, f: seq<byte>, noise: seq<byte>)
    requires Shape(s, p) && s.phase == AddrHi && !s.rxDone && |f| == 4 && |noise| >= 3
    ensures var t := Clocks(s, p, Frame(f) + Gap(noise));
      && Ready(t, p) && DonePulses(s, p, Frame(f) + Gap(noise)) == 1
      && t.stat == s.stat.(ps := Update(s.stat.ps, p.addrs, Word16(f[0], f[1]), Word32(f[2], f[3], noise[0], noise[1])))
  {
    FourBytes(s, p, f);
    Split(s, p, Frame(f), Gap(noise));
    IdleEnds(Clocks(s, p, Frame(f)), p, noise);
  }

  /** A frame for another unit ends unnoticed, check bytes and all. */
  lemma UnnoticedEnd(s: State, p: Params, f: seq<byte>, noise: seq<byte>)
    requires Shape(s, p) && s.phase == Idle && s.dvPrev && noise != []
    ensures Ready(Clocks(s, p, Frame(f) + Gap(noise)), p) && Clocks(s, p, Frame(f) + Gap(noise)).stat == s.stat
    ensures DonePulses(s, p, Frame(f) + Gap(noise)) == 0
  {
    Unnoticed(s, p, f);
    Split(s, p, Frame(f), Gap(noise));
    QuietGap(Clocks(s, p, Frame(f)), p, noise);
  }

  /** The round trip with the check bytes on the wire: they are one more pair at the end of the list. */
  lemma RoundTripWithCheckBytes(s: State, p: Params, preamble: seq<byte>, header: seq<byte>, protocol: u16,
                                command: u16, nonce: u64, pairs: seq<Pair>, f: seq<byte>, noise: seq<byte>)
    requires Ready(s, p) && preamble != [] && 0xD5 !in preamble[1..] && |header| == 42 && |f| == 4 && |noise| >= 3
    ensures var ins := Frame(WireBytes(preamble, header, Payload(protocol, command, nonce, pairs)))
      + (Frame(f) + Gap(noise));
      var extra := Pair(Word16(f[0], f[1]), Word32(f[2], f[3], noise[0], noise[1]));
      && Ready(Clocks(s, p, ins), p)
      && Clocks(s, p, ins).stat == Received(s.stat, p, header, protocol, command, nonce, pairs + [extra])
      && DonePulses(s, p, ins) == if Mine(p, header, protocol) then 1 else 0
  {
    var frame := Frame(WireBytes(preamble, header, Payload(protocol, command, nonce, pairs)));
    var u := Clocks(s, p, frame);
    FrameWithPairs(s, p, preamble, header, protocol, command, nonce, pairs);
    Split(s, p, frame, Frame(f) + Gap(noise));
    if Mine(p, header, protocol) {
      CheckBytesActAsPair(u, p, f, noise);
      ChannelsStep(s.stat.ps, p.addrs, pairs, Pair(Word16(f[0], f[1]), Word32(f[2], f[3], noise[0], noise[1])));
    } else {
      UnnoticedEnd(u, p, f, noise);
    }
  }

  /** So the check bytes are harmless exactly when no channel has the first two of them as its address. */
  lemma CheckBytesHarmless(ps: seq<u32>, addrs: seq<u16>, f: seq<byte>)
    requires |ps| == 4 && |addrs| == 4 && |f| == 4
    ensures (forall a: byte, b: byte :: Update(ps, addrs, Word16(f[0], f[1]), Word32(f[2], f[3], a, b)) == ps)
            <==> Word16(f[0], f[1]) !in addrs
  {
    if Word16(f[0], f[1]) in addrs {
      var c :| 0 <= c < 4 && addrs[c] == Word16(f[0], f[1]);
      var b: byte := if ps[c] == Word32(f[2], f[3], 0, 0) then 1 else 0;
      assert Update(ps, addrs, Word16(f[0], f[1]), Word32(f[2], f[3], 0, b))[c] == Word32(f[2], f[3], 0, b) != ps[c];
    }
  }
  /** A reset in any state gives a ready parser with empty statistics. */
  lemma ResetReady(s: State, p: Params, i: Input)
    requires Shape(s, p) && i.reset
    ensures var t := Next(s, p, i);
      Ready(t, p) && !t.rxDone && !t.fofbPacket && t.framebyte == 0 && t.stat == Stat(0, 0, 0, [0, 0, 0, 0])
  {
  }
}
