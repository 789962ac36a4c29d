/**
 Downloads: the server against an RFC 1350 receiver (section 2) over channels that lose and
 duplicate packets, with the server's timer running freely.
 */
module TftpDownload {
  import opened Words
  import opened Wrappers
  import opened TftpServer
  import opened TftpChannel

  /**
   The receiver has taken `r` blocks into `got`; `complete` after a short one. History: `k` is the block
   the server is sending, 0 before the first request was granted.
   */
  datatype Sys = Sys(
    srv: State, ip: nat, port: u16, data: seq<byte>, got: seq<byte>, r: nat, complete: bool, aborted: bool,
    up: seq<Packet>, down: seq<Packet>, k: nat)

  datatype Event =
    | Retransmit
    | ReceiverTakes
    | ServerReceives(card: Card)
    | ServerTimer
    | LoseUp(i: nat) | DuplicateUp(i: nat) | LoseDown(i: nat) | DuplicateDown(i: nat)

  /** What the receiver sends after `r` blocks: its request, or the acknowledgement of block `r`. */
  function Reply(r: nat): Packet {
    if r == 0 then Request(false, true) else Ack(r % TWO_16)
  }

  /** Block `k` on the wire. */
  function DataOf(data: seq<byte>, k: nat): Packet
    requires 1 <= k <= LastBlock(data)
  {
    Data(k % TWO_16, Block(data, k))
  }

  /** The RFC 1350 receiver: takes the next block, and acknowledges a repeated one again. */
  function TakeBlock(l: Sys): Sys {
    if l.down == [] then l
    else
      var p := l.down[0];
      var m := l.(down := l.down[1..]);
      if l.aborted then m
      else if p.Failure? then m.(aborted := true)
      else if !p.Data? then m
      else if p.blk == (l.r + 1) % TWO_16 && !l.complete then
        m.(got := l.got + p.payload, r := l.r + 1, complete := |p.payload| < MAX_PAYLOAD, up := l.up + [Reply(l.r + 1)])
      else if l.r > 0 && p.blk == l.r % TWO_16 then m.(up := l.up + [Reply(l.r)])
      else m
  }

  /** The server moves to the next block when the acknowledgement of a full one arrives. */
  function ServerTakes(l: Sys, card: Card): Sys {
    if l.up == [] then l
    else
      var p := l.up[0];
      var (t, out) := Receive(l.srv, p, l.ip, l.port, card);
      var granted := p.Request? && !l.srv.open && card.opens;
      var advances := p.Ack? && l.srv.open && p.blk == l.srv.blknum && out != [];
      l.(srv := t, up := l.up[1..], down := l.down + Payloads(out),
         k := if granted then 1 else if advances then l.k + 1 else l.k)
  }

  function Next(l: Sys, e: Event): Sys {
    match e
    case Retransmit => if l.aborted then l else l.(up := l.up + [Reply(l.r)])
    case ReceiverTakes => TakeBlock(l)
    case ServerReceives(card) => ServerTakes(l, card)
    case ServerTimer => var (t, out) := Timeout(l.srv); l.(srv := t, down := l.down + Payloads(out))
    case LoseUp(i) => l.(up := Lose(l.up, i))
    case DuplicateUp(i) => l.(up := Duplicate(l.up, i))
    case LoseDown(i) => l.(down := Lose(l.down, i))
    case DuplicateDown(i) => l.(down := Duplicate(l.down, i))
  }

  /** The file on the card does not change during the session. */
  predicate Allowed(l: Sys, e: Event) {
    e.ServerReceives? ==> e.card.stored == l.data
  }

  predicate Initial(l: Sys) {
    && !l.srv.open && l.srv.lastData == None && l.srv.ip == 0 && l.srv.port == 0
    && l.ip != 0 && l.port != 0
    && l.got == [] && l.r == 0 && !l.complete && !l.aborted && l.up == [Reply(0)] && l.down == [] && l.k == 0
  }

  // ---------------------------------------------------------------------------
  // The invariant
  // ---------------------------------------------------------------------------

  /** `last_data`, `blknum` and the read position all describe block `k`. */
  predicate ServerInv(l: Sys) {
    && l.ip != 0 && l.port != 0
    && (if l.srv.open
        then 1 <= l.k <= LastBlock(l.data) && !l.srv.modeWrite && l.srv.file == l.data
             && l.srv.blknum == l.k % TWO_16 && l.srv.lastData == Some(DataOf(l.data, l.k))
             && l.srv.pos == |Prefix(l.data, l.k)| && l.srv.ip == l.ip && l.srv.port == l.port
        else l.srv.ip == 0 && l.srv.port == 0 && l.srv.lastData == None)
  }

  predicate ReceiverInv(l: Sys) {
    && l.r <= LastBlock(l.data) && l.got == Prefix(l.data, l.r)
    && (l.complete <==> l.r == LastBlock(l.data))
  }

  function UpOlder(l: Sys): Option<Packet> {
    if l.k == l.r && l.r > 0 then Some(Reply(l.r - 1)) else None
  }

  function DownOlder(l: Sys): Option<Packet>
    requires l.k <= LastBlock(l.data)
  {
    if l.k == l.r then (if l.k > 0 then Some(DataOf(l.data, l.k)) else None)
    else if l.k > 1 then Some(DataOf(l.data, l.k - 1)) else None
  }

  function DownNewer(l: Sys): Option<Packet>
    requires l.k <= LastBlock(l.data)
  {
    if l.k == l.r || l.k == 0 then None else Some(DataOf(l.data, l.k))
  }

  predicate ChannelInv(l: Sys) {
    && l.k <= LastBlock(l.data) && (l.k == l.r || l.k == l.r + 1)
    && Carries(l.up, UpOlder(l), Some(Reply(l.r)), false)
    && Carries(l.down, DownOlder(l), DownNewer(l), true)
  }

  predicate Inv(l: Sys) {
    ChannelInv(l) && ServerInv(l) && ReceiverInv(l)
  }

  lemma RepliesDiffer(r: nat)
    requires r > 0
    ensures Reply(r - 1) != Reply(r)
  {
  }

  lemma BlocksDiffer(data: seq<byte>, k: nat)
    requires 2 <= k <= LastBlock(data)
    ensures DataOf(data, k - 1) != DataOf(data, k) && (k - 1) % TWO_16 != k % TWO_16
  {
  }

  lemma OldAndNewDiffer(l: Sys)
    requires ChannelInv(l)
    ensures UpOlder(l) != Some(Reply(l.r)) && (DownOlder(l) != DownNewer(l) || DownNewer(l) == None)
  {
  }

  lemma UpStep(l: Sys, up: seq<Packet>)
    requires Inv(l) && Carries(up, UpOlder(l), Some(Reply(l.r)), false)
    ensures Inv(l.(up := up))
  {
  }

  lemma DownStep(l: Sys, down: seq<Packet>)
    requires Inv(l) && Carries(down, DownOlder(l), DownNewer(l), true)
    ensures Inv(l.(down := down))
  {
  }

  /** Loss, duplication and retransmission. */
  lemma NetworkStep(l: Sys, e: Event)
    requires Inv(l) && (e.LoseUp? || e.DuplicateUp? || e.LoseDown? || e.DuplicateDown? || e.Retransmit?)
    ensures Inv(Next(l, e))
  {
    OldAndNewDiffer(l);
    if e.LoseUp? {
      LoseKeeps(l.up, e.i, UpOlder(l), Some(Reply(l.r)), false);
      UpStep(l, Lose(l.up, e.i));
    } else if e.DuplicateUp? {
      DuplicateKeeps(l.up, e.i, UpOlder(l), Some(Reply(l.r)), false);
      UpStep(l, Duplicate(l.up, e.i));
    } else if e.LoseDown? {
      LoseKeeps(l.down, e.i, DownOlder(l), DownNewer(l), true);
      DownStep(l, Lose(l.down, e.i));
    } else if e.DuplicateDown? {
      DuplicateKeeps(l.down, e.i, DownOlder(l), DownNewer(l), true);
      DownStep(l, Duplicate(l.down, e.i));
    } else if !l.aborted {
      AppendNewer(l.up, UpOlder(l), Reply(l.r), false);
      UpStep(l, l.up + [Reply(l.r)]);
    }
  }

  // ---------------------------------------------------------------------------
  // The receiver
  // ---------------------------------------------------------------------------

  lemma NewBlockStep(l: Sys)
    requires Inv(l) && l.down != [] && !l.aborted && l.k == l.r + 1 && l.down[0] == DataOf(l.data, l.k)
    ensures Inv(TakeBlock(l)) && TakeBlock(l).r == l.r + 1
  {
    OldAndNewDiffer(l);
    RepliesDiffer(l.r + 1);
    BlockExtends(l.data, l.k);
    TakeNewer(l.down, DownOlder(l), DataOf(l.data, l.k), true);
    AppendNext(l.up, Reply(l.r), Reply(l.r + 1), false);
  }

  lemma OldBlockStep(l: Sys)
    requires Inv(l) && l.down != [] && !l.aborted && l.r > 0 && l.down[0] == DataOf(l.data, l.r)
    ensures Inv(TakeBlock(l)) && TakeBlock(l).got == l.got
  {
    OldAndNewDiffer(l);
    NumbersDiffer(l.r, l.r + 1);
    TakeKeeps(l.down, DownOlder(l), DownNewer(l), true);
    AppendNewer(l.up, UpOlder(l), Reply(l.r), false);
    DownStep(l, l.down[1..]);
    UpStep(l.(down := l.down[1..]), l.up + [Reply(l.r)]);
  }

  lemma ReceiverStep(l: Sys)
    requires Inv(l)
    ensures Inv(TakeBlock(l))
  {
    if l.down != [] {
      if l.aborted || l.down[0].Failure? {
        TakeKeeps(l.down, DownOlder(l), DownNewer(l), true);
        DownStep(l, l.down[1..]);
      } else if l.k == l.r + 1 && l.down[0] == DataOf(l.data, l.k) {
        NewBlockStep(l);
      } else {
        OldBlockStep(l);
      }
    }
  }

  // ---------------------------------------------------------------------------
  // The server
  // ---------------------------------------------------------------------------

  /** `send_data` at the read position of block `k - 1` reads and sends block `k`. */
  lemma SendsBlock(s: State, data: seq<byte>, k: nat, card: Card)
    requires 1 <= k <= LastBlock(data) && card.readable
    requires s.file == data && s.pos == |Prefix(data, k - 1)| && s.blknum == k % TWO_16
    ensures SendBlock(s, card) == (s.(lastData := Some(DataOf(data, k)), pos := |Prefix(data, k)|),
                                   [Sent(DataOf(data, k), s.ip, s.port)])
  {
  }

  /** The channels when a request starts the transfer at block 1, or the first read fails. */
  lemma GrantKeeps(l: Sys, t: State, x: Packet)
    requires Inv(l) && l.up != [] && l.up[0] == Reply(0) && !l.srv.open
    requires ServerInv(l.(srv := t, k := 1)) && (x == DataOf(l.data, 1) || x.Failure?)
    ensures Inv(l.(srv := t, up := l.up[1..], down := l.down + [x], k := 1))
  {
    OldAndNewDiffer(l);
    assert l.r <= 1 && l.k <= 1;
    TakeKeeps(l.up, UpOlder(l), Some(Reply(l.r)), false);
    var d := DataOf(l.data, 1);
    if l.k == 0 {
      Expect(l.down, None, d, true);
    }
    var older := if l.r == 0 then None else Some(d);
    var newer := if l.r == 0 then Some(d) else None;
    if x == d && l.r == 0 {
      AppendNewer(l.down, None, d, true);
    } else if x == d {
      AppendOlder(l.down, d, true);
    } else {
      AppendFailure(l.down, older, newer, x);
    }
  }

  /** A request that reaches a closed server starts the transfer at block 1. */
  lemma GrantStep(l: Sys, card: Card)
    requires Inv(l) && l.up != [] && l.up[0] == Reply(0) && !l.srv.open && card.opens && card.stored == l.data
    ensures Inv(ServerTakes(l, card))
  {
    var o := l.srv.(lastPkt := l.srv.timer, retries := 0, open := true, blknum := 1, ip := l.ip, port := l.port,
                    modeWrite := false, pos := 0, file := l.data);
    assert Receive(l.srv, l.up[0], l.ip, l.port, card) == SendBlock(o, card);
    var (t, out) := SendBlock(o, card);
    OneReply(out);
    if card.readable {
      SendsBlock(o, l.data, 1, card);
    }
    GrantKeeps(l, t, out[0].p);
  }

  /** The channels when the server moves to the next block, or fails to read it. */
  lemma AdvanceKeeps(l: Sys, t: State, x: Packet)
    requires Inv(l) && l.up != [] && l.k == l.r < LastBlock(l.data) && l.k > 0 && l.up[0] == Reply(l.k)
    requires ServerInv(l.(srv := t, k := l.k + 1)) && (x == DataOf(l.data, l.k + 1) || x.Failure?)
    ensures Inv(l.(srv := t, up := l.up[1..], down := l.down + [x], k := l.k + 1))
  {
    OldAndNewDiffer(l);
    BlocksDiffer(l.data, l.k + 1);
    TakeNewer(l.up, UpOlder(l), Reply(l.r), false);
    var d := DataOf(l.data, l.k + 1);
    Expect(l.down, DownOlder(l), d, true);
    if x == d {
      AppendNewer(l.down, DownOlder(l), d, true);
    } else {
      AppendFailure(l.down, DownOlder(l), Some(d), x);
    }
  }

  /** What the server does with the acknowledgement of a full block. */
  lemma AdvanceReply(l: Sys, card: Card)
    requires Inv(l) && l.up != [] && l.srv.open && l.k == l.r < LastBlock(l.data) && l.up[0] == Reply(l.k)
    ensures var (t, out) := Receive(l.srv, l.up[0], l.ip, l.port, card);
      && |out| == 1 && ServerInv(l.(srv := t, k := l.k + 1)) && (t.open <==> card.readable)
      && (out[0].p == DataOf(l.data, l.k + 1) || out[0].p.Failure?)
  {
    BlockExtends(l.data, l.k);
    var o := l.srv.(lastPkt := l.srv.timer, retries := 0, blknum := (l.srv.blknum + 1) % TWO_16);
    NextModulo16(l.k);
    assert Receive(l.srv, l.up[0], l.ip, l.port, card) == SendBlock(o, card);
    if card.readable {
      SendsBlock(o, l.data, l.k + 1, card);
    }
  }

  /** The acknowledgement of a full block: the next one is read and sent. */
  lemma AdvanceStep(l: Sys, card: Card)
    requires Inv(l) && l.up != [] && l.srv.open && l.k == l.r < LastBlock(l.data) && l.up[0] == Reply(l.k)
    ensures Inv(ServerTakes(l, card)) && ServerTakes(l, card).k == l.k + 1
    ensures ServerTakes(l, card).srv.open <==> card.readable
  {
    AdvanceReply(l, card);
    var (t, out) := Receive(l.srv, l.up[0], l.ip, l.port, card);
    OneReply(out);
    AdvanceKeeps(l, t, out[0].p);
    assert ServerTakes(l, card) == l.(srv := t, up := l.up[1..], down := l.down + [out[0].p], k := l.k + 1);
  }

  /** The acknowledgement of the last block closes the session without a reply. */
  lemma FinishStep(l: Sys, card: Card)
    requires Inv(l) && l.up != [] && l.srv.open && l.k == l.r == LastBlock(l.data) && l.up[0] == Reply(l.k)
    ensures Inv(ServerTakes(l, card)) && !ServerTakes(l, card).srv.open && l.got == l.data
  {
    OldAndNewDiffer(l);
    BlockExtends(l.data, l.k);
    var (t, out) := Receive(l.srv, l.up[0], l.ip, l.port, card);
    assert out == [] && t == Closed(l.srv.(lastPkt := l.srv.timer, retries := 0));
    assert l.down + Payloads(out) == l.down;
    TakeKeeps(l.up, UpOlder(l), Some(Reply(l.r)), false);
  }

  lemma Refused(l: Sys, card: Card)
    requires Inv(l) && l.up != []
    requires if l.srv.open then l.up[0] != Reply(l.k) else !(l.up[0].Request? && card.opens)
    ensures var (t, out) := Receive(l.srv, l.up[0], l.ip, l.port, card);
      |out| == 1 && out[0].p.Failure? && SameSession(l.srv, t)
    ensures l.srv.open && l.up[0].Ack? ==> l.up[0].blk != l.srv.blknum
  {
  }

  lemma AnswerKeeps(l: Sys, t: State, x: Packet)
    requires Inv(l) && l.up != [] && SameSession(l.srv, t) && x.Failure?
    ensures Inv(l.(srv := t, up := l.up[1..], down := l.down + [x]))
  {
    OldAndNewDiffer(l);
    TakeKeeps(l.up, UpOlder(l), Some(Reply(l.r)), false);
    AppendFailure(l.down, DownOlder(l), DownNewer(l), x);
  }

  /** Every other packet is answered with an error and leaves the session as it is. */
  lemma RefuseStep(l: Sys, card: Card)
    requires Inv(l) && l.up != []
    requires if l.srv.open then l.up[0] != Reply(l.k) else !(l.up[0].Request? && card.opens)
    ensures Inv(ServerTakes(l, card)) && SameSession(l.srv, ServerTakes(l, card).srv)
  {
    Refused(l, card);
    var (t, out) := Receive(l.srv, l.up[0], l.ip, l.port, card);
    OneReply(out);
    AnswerKeeps(l, t, out[0].p);
  }

  lemma ServerStep(l: Sys, card: Card)
    requires Inv(l) && card.stored == l.data
    ensures Inv(ServerTakes(l, card))
  {
    if l.up != [] {
      var p := l.up[0];
      if !l.srv.open && p.Request? && card.opens {
        assert p == Reply(0);
        GrantStep(l, card);
      } else if l.srv.open && p == Reply(l.k) {
        OldAndNewDiffer(l);
        assert l.k == l.r by {
          if l.k == l.r + 1 {
            RepliesDiffer(l.k);
          }
        }
        if l.k == LastBlock(l.data) {
          FinishStep(l, card);
        } else {
          AdvanceStep(l, card);
        }
      } else {
        RefuseStep(l, card);
      }
    }
  }

  /** The timer resends block `k`, whatever the receiver has. */
  lemma TimerStep(l: Sys)
    requires Inv(l)
    ensures Inv(Next(l, ServerTimer))
  {
    var (t, out) := Timeout(l.srv);
    if out == [] {
      assert l.down + Payloads(out) == l.down;
    } else {
      OneReply(out);
      assert out[0].p == DataOf(l.data, l.k);
      OldAndNewDiffer(l);
      if l.k == l.r {
        AppendOlder(l.down, DataOf(l.data, l.k), true);
      } else {
        AppendNewer(l.down, DownOlder(l), DataOf(l.data, l.k), true);
      }
    }
  }

  lemma Step(l: Sys, e: Event)
    requires Inv(l) && Allowed(l, e)
    ensures Inv(Next(l, e)) && Next(l, e).data == l.data
  {
    match e
    case ReceiverTakes => ReceiverStep(l);
    case ServerReceives(card) => ServerStep(l, card);
    case ServerTimer => TimerStep(l);
    case _ => NetworkStep(l, e);
  }

  // ---------------------------------------------------------------------------
  // Main results
  // ---------------------------------------------------------------------------

  ghost predicate AllowedRun(l: Sys, es: seq<Event>)
    decreases |es|
  {
    es == [] || (Allowed(l, es[0]) && AllowedRun(Next(l, es[0]), es[1..]))
  }

  ghost function Run(l: Sys, es: seq<Event>): Sys
    decreases |es|
  {
    if es == [] then l else Run(Next(l, es[0]), es[1..])
  }

  lemma InitialInv(l: Sys)
    requires Initial(l)
    ensures Inv(l)
  {
  }

  /**
   At every moment of every run the receiver holds a prefix of the file, whole blocks or all of it, the
   server is level with it or one block ahead, and what the server would resend is the block it counts.
   */
  lemma {:induction false} Download(l: Sys, es: seq<Event>)
    requires Inv(l) && AllowedRun(l, es)
    ensures var m := Run(l, es);
      && Inv(m) && m.data == l.data
      && m.got == Prefix(l.data, m.r) && m.got <= l.data
      && (m.complete ==> m.got == l.data)
      && (m.k == m.r || m.k == m.r + 1)
      && (m.srv.open ==> m.srv.lastData == Some(DataOf(l.data, m.k)))
    decreases |es|
  {
    if es != [] {
      Step(l, es[0]);
      Download(Next(l, es[0]), es[1..]);
    } else {
      BlockExtends(l.data, LastBlock(l.data));
    }
  }

  /** Without a read error, the session closes on a packet exactly when it is the acknowledgement of the last block. */
  lemma NormalClose(l: Sys, card: Card)
    requires Inv(l) && l.up != [] && l.srv.open && card.stored == l.data && card.readable
    ensures !ServerTakes(l, card).srv.open <==> l.k == LastBlock(l.data) && l.up[0] == Reply(l.k)
    ensures !ServerTakes(l, card).srv.open ==> l.got == l.data
  {
    OldAndNewDiffer(l);
    if l.up[0] == Reply(l.k) {
      assert l.k == l.r by {
        if l.k == l.r + 1 {
          RepliesDiffer(l.k);
        }
      }
      if l.k == LastBlock(l.data) {
        FinishStep(l, card);
      } else {
        BlockExtends(l.data, l.k);
        AdvanceStep(l, card);
      }
    } else {
      RefuseStep(l, card);
    }
  }
}
