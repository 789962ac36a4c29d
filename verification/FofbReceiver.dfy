/**
 The fast orbit feedback receiver of fofb_udp_rx.vhd: one byte of the Ethernet frame per clock.

 `Next` is the clocked process. The packet buffer record is kept as its 54 bytes in frame order, and the
 address and setpoint registers as their bytes.
 */
module FofbReceiver {
  import opened Words

  const HEAD := 54
  const PROTOCOL: u16 := 0x7631

  datatype Phase = Idle | Preamble | Header | AddrHi | AddrLo | Byte3 | Byte2 | Byte1 | Byte0

  datatype Params = Params(ip: u32, addrs: seq<u16>)

  /** `ps` are the setpoints of the four channels. */
  datatype Stat = Stat(packets: u32, command: u32, nonce: u32, ps: seq<u32>)

  datatype State = State(
    phase: Phase, dvPrev: bool, framebyte: nat, pkt: seq<byte>,
    addrHi: byte, addrLo: byte, b3: byte, b2: byte, b1: byte, b0: byte,
    rxDone: bool, fofbPacket: bool, stat: Stat)

  datatype Input = Input(reset: bool, dv: bool, data: byte)

  /** Four channels and a whole buffer. */
  predicate Shape(s: State, p: Params) {
    |s.pkt| == HEAD && |s.stat.ps| == 4 && |p.addrs| == 4
  }

  /** The destination address and the protocol id in the buffer. */
  function DestIp(pkt: seq<byte>): u32
    requires |pkt| == HEAD
  {
    Word32(pkt[30], pkt[31], pkt[32], pkt[33])
  }

  function Protocol(pkt: seq<byte>): u16
    requires |pkt| == HEAD
  {
    Word16(pkt[42], pkt[43])
  }

  /** A setpoint reaches every channel whose address it carries. */
  function Update(ps: seq<u32>, addrs: seq<u16>, addr: u16, setpoint: u32): (r: seq<u32>)
    requires |ps| == 4 && |addrs| == 4
    ensures |r| == 4
  {
    seq(4, c requires 0 <= c < 4 => if addr == addrs[c] then setpoint else ps[c])
  }

  /** What an accepted frame publishes of its header. */
  function Published(stat: Stat, pkt: seq<byte>, last: byte): Stat
    requires |pkt| == HEAD
  {
    stat.(nonce := Word32(pkt[50], pkt[51], pkt[52], last),
          command := Word16(pkt[44], pkt[45]),
          packets := (stat.packets + 1) % TWO_32)
  }

  /** The 54 bytes before the pairs; the last one decides. */
  function NextHeader(s: State, p: Params, i: Input): (t: State)
    requires Shape(s, p)
    ensures Shape(t, p)
  {
    var k := s.framebyte;
    var t := s.(framebyte := k + 1, pkt := if k < HEAD then s.pkt[k := i.data] else s.pkt);
    if k != HEAD - 1 then t
    else if DestIp(s.pkt) == p.ip && Protocol(s.pkt) == PROTOCOL then
      t.(phase := AddrHi, fofbPacket := true, stat := Published(s.stat, s.pkt, i.data))
    else t.(phase := Idle)
  }

  /** One rising clock edge. */
  function Next(s: State, p: Params, i: Input): (t: State)
    requires Shape(s, p)
    ensures Shape(t, p)
  {
    if i.reset then
      s.(phase := Idle, framebyte := 0, rxDone := false, dvPrev := false, fofbPacket := false,
         stat := Stat(0, 0, 0, [0, 0, 0, 0]))
    else
      match s.phase
      case Idle =>
        var t := s.(fofbPacket := false, rxDone := false, dvPrev := i.dv);
        if i.dv && !s.dvPrev then t.(phase := Preamble, framebyte := 0) else t
      case Preamble => if i.data == 0xD5 then s.(phase := Header) else s
      case Header => NextHeader(s, p, i)
      case AddrHi =>
        var t := s.(fofbPacket := false);
        if !i.dv then t.(phase := Idle, rxDone := true) else t.(addrHi := i.data, phase := AddrLo)
      case AddrLo => s.(addrLo := i.data, phase := Byte3)
      case Byte3 => s.(b3 := i.data, phase := Byte2)
      case Byte2 => s.(b2 := i.data, phase := Byte1)
      case Byte1 => s.(b1 := i.data, phase := Byte0)
      case Byte0 =>
        var ps := Update(s.stat.ps, p.addrs, Word16(s.addrHi, s.addrLo), Word32(s.b3, s.b2, s.b1, i.data));
        var t := s.(b0 := i.data, stat := s.stat.(ps := ps));
        if !i.dv then t.(phase := Idle, rxDone := true) else t.(phase := AddrHi)
  }

  /** The registers of the entity; `pkt` is the packet buffer. */
  class UdpRx {
    var phase: Phase
    var dvPrev: bool
    var framebyte: nat
    var pkt: seq<byte>
    var addrHi: byte
    var addrLo: byte
    var b3: byte
    var b2: byte
    var b1: byte
    var b0: byte
    var rxDone: bool
    var fofbPacket: bool
    var packets: u32
    var command: u32
    var nonce: u32
    var ps: seq<u32>

    ghost predicate Valid()
      reads this
    {
      |pkt| == HEAD && |ps| == 4
    }

    ghost function View(): State
      reads this
    {
      State(phase, dvPrev, framebyte, pkt, addrHi, addrLo, b3, b2, b1, b0, rxDone, fofbPacket,
            Stat(packets, command, nonce, ps))
    }

    constructor ()
      ensures Valid() && phase == Idle && !dvPrev && !rxDone
    {
      phase, dvPrev, framebyte, rxDone, fofbPacket := Idle, false, 0, false, false;
      addrHi, addrLo, b3, b2, b1, b0 := 0, 0, 0, 0, 0, 0;
      packets, command, nonce := 0, 0, 0;
      pkt := seq(HEAD, _ => 0);
      ps := [0, 0, 0, 0];
    }

    /** The frame is for this unit: its id, command and nonce are published. */
    method Accept(last: byte)
      requires Valid()
      modifies `phase, `nonce, `command, `packets, `fofbPacket
      ensures View() ==
        old(View()).(phase := AddrHi, fofbPacket := true, stat := Published(old(View()).stat, pkt, last))
    {
      phase := AddrHi;
      nonce := Word32(pkt[50], pkt[51], pkt[52], last);
      command := Word16(pkt[44], pkt[45]);
      packets := (packets + 1) % TWO_32;
      fofbPacket := true;
    }

    /** The 54th byte decides whether the frame is taken. */
    method LastHeaderByte(p: Params, i: Input)
      requires Valid() && |p.addrs| == 4 && framebyte == HEAD - 1
      modifies this
      ensures Valid() && View() == NextHeader(old(View()), p, i)
    {
      ghost var was := View();
      var mine := DestIp(pkt) == p.ip && Protocol(pkt) == PROTOCOL;
      if mine {
        Accept(i.data);
      } else {
        phase := Idle;
      }
      framebyte := HEAD;
      pkt := pkt[HEAD - 1 := i.data];
      assert mine == (DestIp(was.pkt) == p.ip && Protocol(was.pkt) == PROTOCOL);
    }

    method StoreHeaderByte(p: Params, i: Input)
      requires Valid() && |p.addrs| == 4
      modifies this
      ensures Valid() && View() == NextHeader(old(View()), p, i)
    {
      if framebyte == HEAD - 1 {
        LastHeaderByte(p, i);
      } else {
        if framebyte < HEAD {
          pkt := pkt[framebyte := i.data];
        }
        framebyte := framebyte + 1;
      }
    }

    /** Four comparisons, one a channel. */
    method UpdateChannels(addrs: seq<u16>, addr: u16, setpoint: u32)
      requires |ps| == 4 && |addrs| == 4
      modifies `ps
      ensures ps == Update(old(ps), addrs, addr, setpoint)
    {
      var r := ps;
      if addr == addrs[0] {
        r := r[0 := setpoint];
      }
      if addr == addrs[1] {
        r := r[1 := setpoint];
      }
      if addr == addrs[2] {
        r := r[2 := setpoint];
      }
      if addr == addrs[3] {
        r := r[3 := setpoint];
      }
      ps := r;
    }

    method LastSetpointByte(p: Params, i: Input)
      requires Valid() && |p.addrs| == 4 && phase == Byte0 && !i.reset
      modifies this
      ensures Valid() && View() == Next(old(View()), p, i)
    {
      b0 := i.data;
      UpdateChannels(p.addrs, Word16(addrHi, addrLo), Word32(b3, b2, b1, i.data));
      if i.dv {
        phase := AddrHi;
      } else {
        phase, rxDone := Idle, true;
      }
    }

    method PairByte(p: Params, i: Input)
      requires Valid() && |p.addrs| == 4 && !i.reset
      requires phase != Idle && phase != Preamble && phase != Header
      modifies this
      ensures Valid() && View() == Next(old(View()), p, i)
    {
      match phase
      case AddrHi =>
        fofbPacket := false;
        if i.dv {
          addrHi, phase := i.data, AddrLo;
        } else {
          phase, rxDone := Idle, true;
        }
      case AddrLo => addrLo, phase := i.data, Byte3;
      case Byte3 => b3, phase := i.data, Byte2;
      case Byte2 => b2, phase := i.data, Byte1;
      case Byte1 => b1, phase := i.data, Byte0;
      case Byte0 => LastSetpointByte(p, i);
    }

    /** One rising clock edge. */
    method Tick(p: Params, i: Input)
      requires Valid() && |p.addrs| == 4
      modifies this
      ensures Valid() && View() == Next(old(View()), p, i)
    {
      if i.reset {
        phase, framebyte, rxDone, dvPrev, fofbPacket := Idle, 0, false, false, false;
        packets, command, nonce, ps := 0, 0, 0, [0, 0, 0, 0];
        return;
      }
      match phase
      case Idle =>
        fofbPacket, rxDone := false, false;
        if i.dv && !dvPrev {
          phase, framebyte := Preamble, 0;
        }
        dvPrev := i.dv;
      case Preamble =>
        if i.data == 0xD5 {
          phase := Header;
        }
      case Header => StoreHeaderByte(p, i);
      case _ => PairByte(p, i);
    }
  }
}
