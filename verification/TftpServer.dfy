/**
 The TFTP server of tftp_server.c: one session, lock-step blocks with 16-bit numbers, a timer.

 `Receive` and `Timeout` specify the two callbacks, `Server` is the state they update in place. The file callbacks
 are those of tftp_handler.c: a byte sequence with a position. Opening for a write keeps what the card holds, and a
 write lays its bytes over it; a write can fail after some of its bytes, a read fails or is short only at the end of
 the file. Packet buffers can always be allocated.
 */
module TftpServer {
  import opened Words
  import opened Wrappers

  const MAX_PAYLOAD := 512
  const MAX_RETRIES := 5
  /** TFTP_TIMEOUT_MSECS / TFTP_TIMER_MSECS */
  const TIMEOUT_TICKS := 10

  /** `parses` tells whether the file name and the mode of a request are terminated and short enough. */
  datatype Packet =
    | Request(write: bool, parses: bool)
    | Data(blk: u16, payload: seq<byte>)
    | Ack(blk: u16)
    | Failure(code: nat)
    | Unknown

  /** A packet on its way to a peer. */
  datatype Sent = Sent(p: Packet, ip: nat, port: u16)

  /** `ip == 0` and `port == 0` mean that no peer is bound. `file` is what the card holds. */
  datatype State = State(
    open: bool, modeWrite: bool, file: seq<byte>, pos: nat, lastData: Option<Packet>,
    ip: nat, port: u16, blknum: u16, timer: int, lastPkt: int, retries: nat)

  /** What the card answers: can the file be opened and what does it hold, does a write or read succeed. */
  datatype Card = Card(opens: bool, stored: seq<byte>, writable: bool, partial: nat, readable: bool)

  const ACCESS_VIOLATION := 2
  const FILE_NOT_FOUND := 1
  const ILLEGAL_OPERATION := 4
  const UNKNOWN_TRANSFER := 5

  /** `close_handle` */
  function Closed(s: State): State {
    s.(open := false, lastData := None, ip := 0, port := 0)
  }

  function Fail(code: nat, ip: nat, port: u16): seq<Sent> {
    [Sent(Failure(code), ip, port)]
  }

  /** `send_data`: reads the next block into `last_data` and sends it. */
  function SendBlock(s: State, card: Card): (State, seq<Sent>) {
    if !card.readable then (Closed(s), Fail(ACCESS_VIOLATION, s.ip, s.port))
    else
      var to := if s.pos + MAX_PAYLOAD <= |s.file| then s.pos + MAX_PAYLOAD else |s.file|;
      var d := Data(s.blknum, if s.pos <= to then s.file[s.pos..to] else []);
      (s.(lastData := Some(d), pos := s.pos + |d.payload|), [Sent(d, s.ip, s.port)])
  }

  /** What is on the card after a write of `bytes` at `pos`. */
  function Overwrite(file: seq<byte>, pos: nat, bytes: seq<byte>): seq<byte> {
    if pos > |file| then file + bytes
    else file[..pos] + bytes + if pos + |bytes| <= |file| then file[pos + |bytes|..] else []
  }

  predicate Foreign(s: State, ip: nat, port: u16) {
    (s.port != 0 && port != s.port) || (s.ip != 0 && s.ip != ip)
  }

  function OnRequest(s: State, p: Packet, ip: nat, port: u16, card: Card): (State, seq<Sent>)
    requires p.Request?
  {
    if s.open then (s, Fail(ACCESS_VIOLATION, ip, port))
    else if !p.parses then (s, Fail(ACCESS_VIOLATION, ip, port))
    else if !card.opens then (s.(blknum := 1), Fail(FILE_NOT_FOUND, ip, port))
    else
      var o := s.(open := true, blknum := 1, ip := ip, port := port, modeWrite := p.write, pos := 0,
                  file := card.stored);
      if p.write then (o, [Sent(Ack(0), ip, port)]) else SendBlock(o, card)
  }

  function OnData(s: State, p: Packet, ip: nat, port: u16, card: Card): (State, seq<Sent>)
    requires p.Data?
  {
    if !s.open || !s.modeWrite then (s, Fail(ACCESS_VIOLATION, ip, port))
    else if p.blk == s.blknum then
      var n := if card.partial <= |p.payload| then card.partial else |p.payload|;
      var x := if card.writable then p.payload else p.payload[..n];
      var o := s.(file := Overwrite(s.file, s.pos, x), pos := s.pos + |x|);
      var w := if card.writable then o else Closed(o);
      var reply := if card.writable then [Sent(Ack(p.blk), s.ip, s.port)] else Fail(ACCESS_VIOLATION, ip, port);
      (if |p.payload| < MAX_PAYLOAD then Closed(w) else w.(blknum := (w.blknum + 1) % TWO_16), reply)
    else if (p.blk + 1) % TWO_16 == s.blknum then (s, [Sent(Ack(p.blk), s.ip, s.port)])
    else (s, Fail(UNKNOWN_TRANSFER, ip, port))
  }

  function OnAck(s: State, p: Packet, ip: nat, port: u16, card: Card): (State, seq<Sent>)
    requires p.Ack?
  {
    if !s.open || s.modeWrite then (s, Fail(ACCESS_VIOLATION, ip, port))
    else if p.blk != s.blknum then (s, Fail(UNKNOWN_TRANSFER, ip, port))
    else if s.lastData.Some? && s.lastData.value.Data? && |s.lastData.value.payload| != MAX_PAYLOAD then (Closed(s), [])
    else SendBlock(s.(blknum := (s.blknum + 1) % TWO_16), card)
  }

  /** The receive callback. A packet of another peer is answered and changes nothing. */
  function Receive(s: State, p: Packet, ip: nat, port: u16, card: Card): (State, seq<Sent>) {
    if Foreign(s, ip, port) then (s, Fail(ACCESS_VIOLATION, ip, port))
    else
      var t := s.(lastPkt := s.timer, retries := 0);
      match p
      case Request(_, _) => OnRequest(t, p, ip, port, card)
      case Data(_, _) => OnData(t, p, ip, port, card)
      case Ack(_) => OnAck(t, p, ip, port, card)
      case _ => (t, Fail(ILLEGAL_OPERATION, ip, port))
  }

  /** The timer callback. */
  function Timeout(s: State): (State, seq<Sent>) {
    var t := s.(timer := s.timer + 1);
    if !t.open || t.timer - t.lastPkt <= TIMEOUT_TICKS then (t, [])
    else if t.lastData.Some? && t.retries < MAX_RETRIES then
      (t.(retries := t.retries + 1), [Sent(t.lastData.value, t.ip, t.port)])
    else (Closed(t), [])
  }

  /** The state after `tftp_init`. */
  function Initial(file: seq<byte>): State {
    State(false, false, file, 0, None, 0, 0, 0, 0, 0, 0)
  }

  // ---------------------------------------------------------------------------
  // The server
  // ---------------------------------------------------------------------------

  class Server {
    var open: bool
    var modeWrite: bool
    var file: seq<byte>
    var pos: nat
    var lastData: Option<Packet>
    var ip: nat
    var port: u16
    var blknum: u16
    var timer: int
    var lastPkt: int
    var retries: nat
    /** Packets handed to the network, in order. */
    var sent: seq<Sent>

    ghost function View(): State
      reads this
    {
      State(open, modeWrite, file, pos, lastData, ip, port, blknum, timer, lastPkt, retries)
    }

    constructor (onCard: seq<byte>)
      ensures View() == Initial(onCard) && sent == []
    {
      open, modeWrite, file, pos, lastData := false, false, onCard, 0, None;
      ip, port, blknum, timer, lastPkt, retries, sent := 0, 0, 0, 0, 0, 0, [];
    }

    method CloseHandle()
      modifies this
      ensures View() == Closed(old(View())) && sent == old(sent)
    {
      port := 0;
      ip := 0;
      lastData := None;
      open := false;
    }

    method SendError(toIp: nat, toPort: u16, code: nat)
      modifies `sent
      ensures sent == old(sent) + Fail(code, toIp, toPort)
    {
      sent := sent + [Sent(Failure(code), toIp, toPort)];
    }

    method SendAck(blk: u16)
      modifies `sent
      ensures sent == old(sent) + [Sent(Ack(blk), ip, port)]
    {
      sent := sent + [Sent(Ack(blk), ip, port)];
    }

    method ResendData()
      requires lastData.Some?
      modifies `sent
      ensures sent == old(sent) + [Sent(lastData.value, ip, port)]
    {
      sent := sent + [Sent(lastData.value, ip, port)];
    }

    method SendData(card: Card)
      modifies this
      ensures (View(), sent) == (var (s, out) := SendBlock(old(View()), card); (s, old(sent) + out))
    {
      lastData := None;
      if !card.readable {
        SendError(ip, port, ACCESS_VIOLATION);
        CloseHandle();
        return;
      }
      var to := if pos + MAX_PAYLOAD <= |file| then pos + MAX_PAYLOAD else |file|;
      var chunk := if pos <= to then file[pos..to] else [];
      lastData := Some(Data(blknum, chunk));
      pos := pos + |chunk|;
      ResendData();
    }

    method HandleRequest(p: Packet, fromIp: nat, fromPort: u16, card: Card)
      requires p.Request?
      modifies this
      ensures (View(), sent) ==
        (var (s, out) := OnRequest(old(View()), p, fromIp, fromPort, card); (s, old(sent) + out))
    {
      if open || !p.parses {
        SendError(fromIp, fromPort, ACCESS_VIOLATION);
        return;
      }
      blknum := 1;
      if !card.opens {
        SendError(fromIp, fromPort, FILE_NOT_FOUND);
        return;
      }
      open, pos, file := true, 0, card.stored;
      ip, port := fromIp, fromPort;
      if p.write {
        modeWrite := true;
        SendAck(0);
      } else {
        modeWrite := false;
        SendData(card);
      }
    }

    method HandleData(p: Packet, fromIp: nat, fromPort: u16, card: Card)
      requires p.Data?
      modifies this
      ensures (View(), sent) == (var (s, out) := OnData(old(View()), p, fromIp, fromPort, card); (s, old(sent) + out))
    {
      if !open || !modeWrite {
        SendError(fromIp, fromPort, ACCESS_VIOLATION);
      } else if p.blk == blknum {
        if card.writable {
          file, pos := Overwrite(file, pos, p.payload), pos + |p.payload|;
          SendAck(p.blk);
        } else {
          var n := if card.partial <= |p.payload| then card.partial else |p.payload|;
          file, pos := Overwrite(file, pos, p.payload[..n]), pos + n;
          SendError(fromIp, fromPort, ACCESS_VIOLATION);
          CloseHandle();
        }
        if |p.payload| < MAX_PAYLOAD {
          CloseHandle();
        } else {
          blknum := (blknum + 1) % TWO_16;
        }
      } else if (p.blk + 1) % TWO_16 == blknum {
        SendAck(p.blk);
      } else {
        SendError(fromIp, fromPort, UNKNOWN_TRANSFER);
      }
    }

    method HandleAck(p: Packet, fromIp: nat, fromPort: u16, card: Card)
      requires p.Ack?
      modifies this
      ensures (View(), sent) == (var (s, out) := OnAck(old(View()), p, fromIp, fromPort, card); (s, old(sent) + out))
    {
      if !open || modeWrite {
        SendError(fromIp, fromPort, ACCESS_VIOLATION);
      } else if p.blk != blknum {
        SendError(fromIp, fromPort, UNKNOWN_TRANSFER);
      } else {
        var last := lastData.Some? && lastData.value.Data? && |lastData.value.payload| != MAX_PAYLOAD;
        if !last {
          blknum := (blknum + 1) % TWO_16;
          SendData(card);
        } else {
          CloseHandle();
          assert sent + [] == sent;
        }
      }
    }

    method Recv(p: Packet, fromIp: nat, fromPort: u16, card: Card)
      modifies this
      ensures (View(), sent) == (var (s, out) := Receive(old(View()), p, fromIp, fromPort, card); (s, old(sent) + out))
    {
      if (port != 0 && fromPort != port) || (ip != 0 && ip != fromIp) {
        SendError(fromIp, fromPort, ACCESS_VIOLATION);
        return;
      }
      lastPkt := timer;
      retries := 0;
      match p
      case Request(_, _) => HandleRequest(p, fromIp, fromPort, card);
      case Data(_, _) => HandleData(p, fromIp, fromPort, card);
      case Ack(_) => HandleAck(p, fromIp, fromPort, card);
      case Failure(_) => SendError(fromIp, fromPort, ILLEGAL_OPERATION);
      case Unknown => SendError(fromIp, fromPort, ILLEGAL_OPERATION);
    }

    method Tick()
      modifies this
      ensures (View(), sent) == (var (s, out) := Timeout(old(View())); (s, old(sent) + out))
    {
      timer := timer + 1;
      assert sent + [] == sent;
      if !open {
        return;
      }
      if timer - lastPkt > TIMEOUT_TICKS {
        if lastData.Some? && retries < MAX_RETRIES {
          ResendData();
          retries := retries + 1;
        } else {
          CloseHandle();
        }
      }
    }
  }

  // ---------------------------------------------------------------------------
  // Sessions and time
  // ---------------------------------------------------------------------------

  /** What every callback keeps: a pending block belongs to an open read session with a bound peer. */
  predicate SessionInv(s: State) {
    && (s.lastData.Some? ==> s.open && !s.modeWrite && s.lastData.value.Data?)
    && (s.open && !s.modeWrite ==> s.lastData.Some?)
    && (!s.open ==> s.ip == 0 && s.port == 0)
    && s.retries <= MAX_RETRIES && s.lastPkt <= s.timer && (s.open ==> s.pos <= |s.file|)
  }

  lemma SessionKept(s: State, p: Packet, ip: nat, port: u16, card: Card)
    requires SessionInv(s)
    ensures SessionInv(Receive(s, p, ip, port, card).0)
    ensures SessionInv(Timeout(s).0)
  {
  }

  /** While a session is open no other peer changes it, and the session's peer is not answered for it. */
  lemma StrangersChangeNothing(s: State, p: Packet, ip: nat, port: u16, card: Card)
    requires SessionInv(s) && s.open && s.ip != 0 && s.port != 0 && (ip != s.ip || port != s.port)
    ensures Receive(s, p, ip, port, card) == (s, Fail(ACCESS_VIOLATION, ip, port))
  {
  }

  /** `n` timer calls with no packet between them: the state and everything that was sent. */
  function Silence(s: State, n: nat): (State, seq<Sent>) {
    if n == 0 then (s, [])
    else var (t, out) := Silence(s, n - 1); var (u, more) := Timeout(t); (u, out + more)
  }

  function Copies(x: Sent, n: nat): (r: seq<Sent>)
    ensures |r| == n && forall k :: 0 <= k < n ==> r[k] == x
  {
    seq(n, _ => x)
  }

  /** A peer that falls silent: open until the 16th call, five copies of the pending block, then closed. */
  lemma {:induction false} SilentReader(s: State, n: nat)
    requires SessionInv(s) && s.open && !s.modeWrite && s.retries == 0 && s.lastPkt == s.timer
    ensures Silence(s, n).0.open <==> n < TIMEOUT_TICKS + MAX_RETRIES + 1
    ensures n <= TIMEOUT_TICKS + MAX_RETRIES ==>
      Silence(s, n).0 == s.(timer := s.timer + n, retries := if n <= TIMEOUT_TICKS then 0 else n - TIMEOUT_TICKS)
    ensures Silence(s, n).1 == Copies(Sent(s.lastData.value, s.ip, s.port),
                                      if n <= TIMEOUT_TICKS then 0
                                      else if n <= TIMEOUT_TICKS + MAX_RETRIES then n - TIMEOUT_TICKS else MAX_RETRIES)
    decreases n
  {
    if n > 0 {
      SilentReader(s, n - 1);
    }
  }

  /** An upload has nothing to resend: a silent sender is dropped by the 11th call. */
  lemma {:induction false} SilentWriter(s: State, n: nat)
    requires SessionInv(s) && s.open && s.modeWrite && s.lastPkt == s.timer
    ensures Silence(s, n).0.open <==> n < TIMEOUT_TICKS + 1
    ensures n <= TIMEOUT_TICKS ==> Silence(s, n).0 == s.(timer := s.timer + n)
    ensures Silence(s, n).1 == []
    decreases n
  {
    if n > 0 {
      SilentWriter(s, n - 1);
    }
  }
  // ---------------------------------------------------------------------------
  // A packet restarts the time-out
  // ---------------------------------------------------------------------------

  /** The peer of an open session, or anyone while the server is closed. */
  predicate Heard(s: State, ip: nat, port: u16) {
    !s.open || (ip == s.ip && port == s.port)
  }

  /**
   Whatever the timer showed and however often the block had been sent: from a packet of its peer on, or from the
   request that opened it, a session that is then open is closed by the 11th timer call (upload) or the 16th (download),
   which has then sent its block five times more.
   */
  lemma PacketRestarts(s: State, p: Packet, ip: nat, port: u16, card: Card, n: nat)
    requires SessionInv(s) && Heard(s, ip, port) && Receive(s, p, ip, port, card).0.open
    ensures var t := Receive(s, p, ip, port, card).0; var (u, sent) := Silence(t, n);
      if t.modeWrite then (u.open <==> n < 11) && sent == []
      else && (u.open <==> n < 16)
           && sent == Copies(Sent(t.lastData.value, t.ip, t.port), if n <= 10 then 0 else if n <= 15 then n - 10 else 5)
  {
    SessionKept(s, p, ip, port, card);
    var t := Receive(s, p, ip, port, card).0;
    Restarted(s, p, ip, port, card);
    if t.modeWrite {
      SilentWriter(t, n);
    } else {
      SilentReader(t, n);
    }
  }

  lemma Restarted(s: State, p: Packet, ip: nat, port: u16, card: Card)
    requires SessionInv(s) && Heard(s, ip, port)
    ensures var t := Receive(s, p, ip, port, card).0; t.lastPkt == t.timer == s.timer && t.retries == 0
  {
  }

  /** A packet of anyone else does not: the session's time runs on. */
  lemma StrangersDoNotRestart(s: State, p: Packet, ip: nat, port: u16, card: Card, n: nat)
    requires SessionInv(s) && s.open && s.ip != 0 && s.port != 0 && !Heard(s, ip, port)
    ensures Silence(Receive(s, p, ip, port, card).0, n) == Silence(s, n)
  {
  }

  // ---------------------------------------------------------------------------
  // Where answers go
  // ---------------------------------------------------------------------------

  /** Every answer goes to whoever sent the packet, be it the peer or not; a resend goes to the peer. */
  lemma AnswersGoBack(s: State, p: Packet, ip: nat, port: u16, card: Card)
    requires SessionInv(s) && (s.open ==> s.ip != 0 && s.port != 0)
    ensures var out := Receive(s, p, ip, port, card).1;
      |out| <= 1 && forall k :: 0 <= k < |out| ==> out[k].ip == ip && out[k].port == port
    ensures var out := Timeout(s).1;
      |out| <= 1 && forall k :: 0 <= k < |out| ==> out[k].ip == s.ip && out[k].port == s.port
  {
  }

  /** While a session lasts, its peer is the sender of the request that opened it. */
  lemma PeerKept(s: State, p: Packet, ip: nat, port: u16, card: Card)
    requires SessionInv(s)
    ensures var t := Receive(s, p, ip, port, card).0;
      t.open ==> t.ip == (if s.open then s.ip else ip) && t.port == (if s.open then s.port else port)
    ensures var t := Timeout(s).0; t.open ==> s.open && t.ip == s.ip && t.port == s.port
  {
  }
  /**
   What is refused, with which code of RFC 1350, and that a refusal leaves session, file and peer as they are. `Failure`
   and unknown packets are illegal operations (4), numbers out of turn unknown transfers (5), a file that cannot be
   opened is not found (1); all else is an access violation (2).
   */
  lemma Refusals(s: State, p: Packet, ip: nat, port: u16, card: Card)
    requires SessionInv(s) && Heard(s, ip, port)
    ensures var (t, out) := Receive(s, p, ip, port, card);
      var refused := t == s.(lastPkt := s.timer, retries := 0);
      && (p.Request? && (s.open || !p.parses) ==> refused && out == [Sent(Failure(2), ip, port)])
      && (p.Request? && !s.open && p.parses && !card.opens ==>
            t == s.(lastPkt := s.timer, retries := 0, blknum := 1) && out == [Sent(Failure(1), ip, port)])
      && (p.Data? && (!s.open || !s.modeWrite) ==> refused && out == [Sent(Failure(2), ip, port)])
      && (p.Ack? && (!s.open || s.modeWrite) ==> refused && out == [Sent(Failure(2), ip, port)])
      && (p.Data? && s.open && s.modeWrite && p.blk != s.blknum && p.blk != (s.blknum - 1) % 0x1_0000 ==>
            refused && out == [Sent(Failure(5), ip, port)])
      && (p.Ack? && s.open && !s.modeWrite && p.blk != s.blknum ==> refused && out == [Sent(Failure(5), ip, port)])
      && (p.Failure? || p.Unknown? ==> refused && out == [Sent(Failure(4), ip, port)])
  {
  }
  /** The server starts closed, with no peer, and hears anyone. */
  lemma StartsClosed(file: seq<byte>, ip: nat, port: u16)
    ensures var s := Initial(file);
      && SessionInv(s) && !s.open && s.file == file && s.timer == 0
      && Heard(s, ip, port) && !Foreign(s, ip, port)
  {
  }
}
