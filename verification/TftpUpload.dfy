/**
 Uploads: the server against an RFC 1350 sender (section 2) over channels that lose and duplicate
 packets. Block numbers on the wire are 16-bit; the sender's and the ghost counts are not bounded.
 */
module TftpUpload {
  import opened Words
  import opened Wrappers
  import opened TftpServer
  import opened TftpChannel

  /**
   `cur` is the packet the sender waits for an acknowledgement of (0 is its request), `up` and `down` the
   channels. History: `held` is the file on the card before the upload, `s` the number of blocks the server has written,
   -1 before the first request was granted, and `failed` tells that a write has failed.
   */
  datatype Sys = Sys(
    srv: State, ip: nat, port: u16, data: seq<byte>, cur: nat, done: bool, aborted: bool,
    up: seq<Packet>, down: seq<Packet>, held: seq<byte>, s: int, failed: bool)

  datatype Event =
    | Retransmit
    | SenderReceives
    | ServerReceives(card: Card)
    | ServerTimer
    | LoseUp(i: nat) | DuplicateUp(i: nat) | LoseDown(i: nat) | DuplicateDown(i: nat)

  /** The sender's k-th packet. */
  function PacketOf(data: seq<byte>, k: nat): Packet
    requires k <= LastBlock(data)
  {
    if k == 0 then Request(true, true) else Data(k % TWO_16, Block(data, k))
  }

  function AckOf(k: nat): Packet {
    Ack(k % TWO_16)
  }

  /** The RFC 1350 sender: an acknowledgement of the current packet releases the next one. */
  function SenderTakes(l: Sys): Sys
    requires l.cur <= LastBlock(l.data)
  {
    if l.down == [] then l
    else
      var p := l.down[0];
      var m := l.(down := l.down[1..]);
      if l.done || l.aborted then m
      else if p.Failure? then m.(aborted := true)
      else if p != AckOf(l.cur) then m
      else if l.cur == LastBlock(l.data) then m.(done := true)
      else m.(cur := l.cur + 1, up := l.up + [PacketOf(l.data, l.cur + 1)])
  }

  function ServerTakes(l: Sys, card: Card): Sys {
    if l.up == [] then l
    else
      var p := l.up[0];
      var (t, out) := Receive(l.srv, p, l.ip, l.port, card);
      var granted := p.Request? && !l.srv.open && t.open;
      var writes := p.Data? && l.srv.open && l.srv.modeWrite && p.blk == l.srv.blknum;
      l.(srv := t, up := l.up[1..], down := l.down + Payloads(out),
         s := if granted then 0 else if writes && card.writable then l.s + 1 else l.s,
         failed := l.failed || (writes && !card.writable))
  }

  function Next(l: Sys, e: Event): Sys
    requires l.cur <= LastBlock(l.data)
  {
    match e
    case Retransmit => if l.done || l.aborted then l else l.(up := l.up + [PacketOf(l.data, l.cur)])
    case SenderReceives => SenderTakes(l)
    case ServerReceives(card) => ServerTakes(l, card)
    case ServerTimer => var (t, out) := Timeout(l.srv); l.(srv := t, down := l.down + Payloads(out))
    case LoseUp(i) => l.(up := Lose(l.up, i))
    case DuplicateUp(i) => l.(up := Duplicate(l.up, i))
    case LoseDown(i) => l.(down := Lose(l.down, i))
    case DuplicateDown(i) => l.(down := Duplicate(l.down, i))
  }

  /** Nothing else changes the file on the card. */
  predicate Allowed(l: Sys, e: Event) {
    e.ServerReceives? ==> e.card.stored == l.srv.file
  }

  predicate Initial(l: Sys) {
    && l.srv.file == l.held && l.srv.open == false && l.srv.lastData == None && l.srv.ip == 0 && l.srv.port == 0
    && l.ip != 0 && l.port != 0
    && l.cur == 0 && !l.done && !l.aborted && l.up == [PacketOf(l.data, 0)] && l.down == []
    && l.s == -1 && !l.failed
  }

  // ---------------------------------------------------------------------------
  // The invariant
  // ---------------------------------------------------------------------------

  /** The server's session, in terms of the number of blocks it has written. */
  predicate ServerInv(l: Sys) {
    && l.srv.lastData == None
    && l.ip != 0 && l.port != 0
    && (if l.srv.open
        then 0 <= l.s < LastBlock(l.data) && l.srv.modeWrite && l.srv.blknum == (l.s + 1) % TWO_16
             && l.srv.ip == l.ip && l.srv.port == l.port && !l.failed
        else l.srv.ip == 0 && l.srv.port == 0)
  }

  /**
   The file on the card: the first `s` blocks over the old file, and after a failed write perhaps a part of the next
   block. The write position tells how much has been written.
   */
  predicate FileInv(l: Sys) {
    if l.s < 0 then l.srv.file == l.held
    else
      && Written(l) && l.srv.file == Overlaid(l.held, l.data[..l.srv.pos])
  }

  predicate Written(l: Sys)
    requires l.s >= 0
  {
    && l.srv.pos <= |l.data|
    && if l.failed then |Prefix(l.data, l.s)| <= l.srv.pos <= |Prefix(l.data, l.s + 1)|
       else l.srv.pos == |Prefix(l.data, l.s)|
  }

  function Older(l: Sys): Option<Packet>
    requires l.cur <= LastBlock(l.data)
  {
    if l.cur > 0 then Some(PacketOf(l.data, l.cur - 1)) else None
  }

  function OlderAck(l: Sys): Option<Packet> {
    if l.cur > 0 then Some(AckOf(l.cur - 1)) else None
  }

  /** What can be on its way: the server is level with the sender, or one block behind. */
  predicate ChannelInv(l: Sys) {
    && l.cur <= LastBlock(l.data)
    && (l.s == l.cur || l.s == l.cur - 1)
    && Carries(l.up, if l.s == l.cur || l.failed then None else Older(l), Some(PacketOf(l.data, l.cur)), false)
    && Carries(l.down, OlderAck(l), if l.s == l.cur then Some(AckOf(l.cur)) else None, true)
    && (l.failed ==> l.s == l.cur - 1 && l.s >= 0)
    && (l.done ==> l.s == l.cur == LastBlock(l.data))
  }

  predicate Inv(l: Sys) {
    ChannelInv(l) && ServerInv(l) && FileInv(l)
  }

  lemma PacketsDiffer(data: seq<byte>, k: nat)
    requires 1 <= k <= LastBlock(data)
    ensures PacketOf(data, k - 1) != PacketOf(data, k) && AckOf(k - 1) != AckOf(k)
  {
  }

  /** The packets of the sender that may be in front of the current one. */
  function UpOlder(l: Sys): Option<Packet>
    requires l.cur <= LastBlock(l.data)
  {
    if l.s == l.cur || l.failed then None else Older(l)
  }

  function DownNewer(l: Sys): Option<Packet> {
    if l.s == l.cur then Some(AckOf(l.cur)) else None
  }

  lemma OldAndNewDiffer(l: Sys)
    requires l.cur <= LastBlock(l.data)
    ensures UpOlder(l) != Some(PacketOf(l.data, l.cur))
    ensures OlderAck(l) == None || OlderAck(l) != DownNewer(l)
  {
  }

  lemma UpStep(l: Sys, up: seq<Packet>)
    requires Inv(l) && Carries(up, UpOlder(l), Some(PacketOf(l.data, l.cur)), false)
    ensures Inv(l.(up := up))
  {
  }

  lemma DownStep(l: Sys, down: seq<Packet>)
    requires Inv(l) && Carries(down, OlderAck(l), DownNewer(l), true)
    ensures Inv(l.(down := down))
  {
  }

  /** Loss, duplication and retransmission. */
  lemma NetworkStep(l: Sys, e: Event)
    requires Inv(l) && (e.LoseUp? || e.DuplicateUp? || e.LoseDown? || e.DuplicateDown? || e.Retransmit?)
    ensures Inv(Next(l, e))
  {
    OldAndNewDiffer(l);
    var now := PacketOf(l.data, l.cur);
    if e.LoseUp? {
      LoseKeeps(l.up, e.i, UpOlder(l), Some(now), false);
      UpStep(l, Lose(l.up, e.i));
    } else if e.DuplicateUp? {
      DuplicateKeeps(l.up, e.i, UpOlder(l), Some(now), false);
      UpStep(l, Duplicate(l.up, e.i));
    } else if e.LoseDown? {
      LoseKeeps(l.down, e.i, OlderAck(l), DownNewer(l), true);
      DownStep(l, Lose(l.down, e.i));
    } else if e.DuplicateDown? {
      DuplicateKeeps(l.down, e.i, OlderAck(l), DownNewer(l), true);
      DownStep(l, Duplicate(l.down, e.i));
    } else if !(l.done || l.aborted) {
      AppendNewer(l.up, UpOlder(l), now, false);
      UpStep(l, l.up + [now]);
    }
  }

  /** The acknowledgement of the current packet: the sender moves on. */
  lemma SenderAdvances(l: Sys)
    requires Inv(l) && l.down != [] && l.down[0] == AckOf(l.cur) && !l.done && !l.aborted
    ensures Inv(SenderTakes(l))
  {
    OldAndNewDiffer(l);
    assert l.s == l.cur;
    TakeNewer(l.down, OlderAck(l), AckOf(l.cur), true);
    if l.cur < LastBlock(l.data) {
      PacketsDiffer(l.data, l.cur + 1);
      AppendNext(l.up, PacketOf(l.data, l.cur), PacketOf(l.data, l.cur + 1), false);
    } else {
      TakeKeeps(l.down, OlderAck(l), DownNewer(l), true);
    }
  }

  lemma SenderStep(l: Sys)
    requires Inv(l)
    ensures Inv(SenderTakes(l))
  {
    if l.down != [] {
      if l.down[0] == AckOf(l.cur) && !l.done && !l.aborted {
        SenderAdvances(l);
      } else {
        SenderStays(l);
      }
    }
  }

  /** Any other reply is dropped, but for a refusal, at which the sender gives up. */
  lemma SenderStays(l: Sys)
    requires Inv(l) && l.down != [] && (l.down[0] != AckOf(l.cur) || l.done || l.aborted)
    ensures Inv(SenderTakes(l))
  {
    TakeKeeps(l.down, OlderAck(l), DownNewer(l), true);
    var m := l.(down := l.down[1..]);
    DownStep(l, m.down);
    assert SenderTakes(l) == m || SenderTakes(l) == m.(aborted := true);
  }

  // ---------------------------------------------------------------------------
  // What the server does with the packet in front
  // ---------------------------------------------------------------------------

  /** A request that reaches a closed server opens the session afresh. */
  lemma GrantStep(l: Sys, card: Card)
    requires Inv(l) && l.up != [] && l.up[0] == PacketOf(l.data, 0) && !l.srv.open && card.opens
      && card.stored == l.srv.file
    ensures Inv(ServerTakes(l, card))
  {
    OldAndNewDiffer(l);
    var out := Receive(l.srv, l.up[0], l.ip, l.port, card).1;
    OneReply(out);
    assert out[0].p == AckOf(0);
    var n := ServerTakes(l, card);
    assert l.cur <= 1 && !l.failed && l.s <= 0;
    assert n.srv.file == l.srv.file && n.srv.pos == 0 && l.data[..0] == [] == Prefix(l.data, 0);
    if l.cur == 0 {
      TakeNewer(l.up, None, PacketOf(l.data, 0), false);
      if l.s == 0 {
        AppendNewer(l.down, None, AckOf(0), true);
      } else {
        AppendFirst(l.down, None, AckOf(0), true);
      }
    } else {
      TakeKeeps(l.up, Older(l), Some(PacketOf(l.data, 1)), false);
      AppendOlder(l.down, AckOf(0), true);
    }
  }

  /** Writing the first `n` bytes of the next block lays them over the file. */
  lemma WriteFile(l: Sys, n: nat)
    requires Inv(l) && l.s == l.cur - 1 >= 0 && !l.failed && n <= |Block(l.data, l.cur)|
    ensures l.srv.pos + n <= |Prefix(l.data, l.cur)|
    ensures Overwrite(l.srv.file, l.srv.pos, Block(l.data, l.cur)[..n]) == Overlaid(l.held, l.data[..l.srv.pos + n])
  {
    var head, block := l.data[..l.srv.pos], Block(l.data, l.cur);
    BlockExtends(l.data, l.cur);
    assert head + block[..n] == l.data[..l.srv.pos + n];
    OverwriteExtends(l.held, head, block[..n]);
  }

  /** What the server makes of the block it waits for: the file, the position and the answer. */
  lemma WriteResult(l: Sys, card: Card, n: nat)
    requires Inv(l) && l.up != [] && l.srv.open && l.s == l.cur - 1 && l.up[0] == PacketOf(l.data, l.cur)
    requires n == if card.writable then |Block(l.data, l.cur)| else Min(card.partial, |Block(l.data, l.cur)|)
    ensures var (t, out) := Receive(l.srv, l.up[0], l.ip, l.port, card);
      && |out| == 1 && t.lastData == None
      && t.file == Overwrite(l.srv.file, l.srv.pos, Block(l.data, l.cur)[..n]) && t.pos == l.srv.pos + n
      && (if card.writable then out[0].p == AckOf(l.cur) else out[0].p.Failure?)
    ensures l.up[0].blk == l.srv.blknum
  {
    var block := Block(l.data, l.cur);
    assert block[..|block|] == block;
  }

  /** And the session: open for the next block after a full one that was written, closed otherwise. */
  lemma WriteSession(l: Sys, card: Card)
    requires Inv(l) && l.up != [] && l.srv.open && l.s == l.cur - 1 && l.up[0] == PacketOf(l.data, l.cur)
    ensures var (t, out) := Receive(l.srv, l.up[0], l.ip, l.port, card);
      if card.writable && l.cur < LastBlock(l.data)
      then t.open && t.modeWrite && t.blknum == (l.cur + 1) % TWO_16 && t.ip == l.ip && t.port == l.port
      else !t.open && t.ip == 0 && t.port == 0
  {
    BlockExtends(l.data, l.cur);
    NextModulo16(l.cur);
  }

  lemma WrittenInv(l: Sys, t: State, good: bool, n: nat)
    requires Inv(l) && l.srv.open && l.s == l.cur - 1 >= 0 && n <= |Block(l.data, l.cur)|
    requires good ==> n == |Block(l.data, l.cur)|
    requires t.file == Overwrite(l.srv.file, l.srv.pos, Block(l.data, l.cur)[..n]) && t.pos == l.srv.pos + n
      && t.lastData == None
    requires if good && l.cur < LastBlock(l.data)
             then t.open && t.modeWrite && t.blknum == (l.cur + 1) % TWO_16 && t.ip == l.ip && t.port == l.port
             else !t.open && t.ip == 0 && t.port == 0
    ensures var m := l.(srv := t, s := if good then l.cur else l.s, failed := !good); ServerInv(m) && FileInv(m)
  {
    WriteFile(l, n);
    BlockExtends(l.data, l.cur);
  }

  lemma WriteReply(l: Sys, card: Card)
    requires Inv(l) && l.up != [] && l.srv.open && l.s == l.cur - 1 && l.up[0] == PacketOf(l.data, l.cur)
    ensures var (t, out) := Receive(l.srv, l.up[0], l.ip, l.port, card);
      var m := l.(srv := t, s := if card.writable then l.cur else l.s, failed := !card.writable);
      && |out| == 1 && ServerInv(m) && FileInv(m)
      && (if card.writable then out[0].p == AckOf(l.cur) else out[0].p.Failure?)
    ensures l.up[0].blk == l.srv.blknum
  {
    var n := if card.writable then |Block(l.data, l.cur)| else Min(card.partial, |Block(l.data, l.cur)|);
    WriteResult(l, card, n);
    WriteSession(l, card);
    WrittenInv(l, Receive(l.srv, l.up[0], l.ip, l.port, card).0, card.writable, n);
  }

  /** The block the server waits for: written once, and acknowledged. */
  lemma WriteStep(l: Sys, card: Card)
    requires Inv(l) && l.up != [] && l.srv.open && l.s == l.cur - 1 && l.up[0] == PacketOf(l.data, l.cur)
    ensures Inv(ServerTakes(l, card))
    ensures card.writable ==> ServerTakes(l, card).s == l.cur
  {
    WriteReply(l, card);
    var (t, out) := Receive(l.srv, l.up[0], l.ip, l.port, card);
    OneReply(out);
    OldAndNewDiffer(l);
    PacketsDiffer(l.data, l.cur);
    TakeNewer(l.up, Older(l), PacketOf(l.data, l.cur), false);
    if card.writable {
      AppendFirst(l.down, OlderAck(l), AckOf(l.cur), true);
    } else {
      AppendFailure(l.down, OlderAck(l), None, out[0].p);
    }
  }

  lemma AnswerKeeps(l: Sys, t: State, x: Packet)
    requires Inv(l) && l.up != [] && SameSession(l.srv, t)
    requires Carries(l.down + [x], OlderAck(l), DownNewer(l), true)
    ensures Inv(l.(srv := t, up := l.up[1..], down := l.down + [x]))
  {
    OldAndNewDiffer(l);
    TakeKeeps(l.up, UpOlder(l), Some(PacketOf(l.data, l.cur)), false);
  }

  /** What the server does with a copy of the block it has written last. */
  lemma AckAgainReply(l: Sys, card: Card)
    requires Inv(l) && l.up != [] && l.srv.open && l.s >= 1 && l.up[0] == PacketOf(l.data, l.s)
    ensures var (t, out) := Receive(l.srv, l.up[0], l.ip, l.port, card);
      |out| == 1 && out[0].p == AckOf(l.s) && SameSession(l.srv, t)
    ensures l.up[0].Data? && l.up[0].blk != l.srv.blknum
  {
    NextModulo16(l.s);
  }

  /** A copy of the block before: acknowledged again, nothing written. */
  lemma AckAgainStep(l: Sys, card: Card)
    requires Inv(l) && l.up != [] && l.srv.open && l.s >= 1 && l.up[0] == PacketOf(l.data, l.s)
    ensures Inv(ServerTakes(l, card)) && ServerTakes(l, card).srv.file == l.srv.file
  {
    AckAgainReply(l, card);
    var (t, out) := Receive(l.srv, l.up[0], l.ip, l.port, card);
    OneReply(out);
    OldAndNewDiffer(l);
    if l.s == l.cur {
      AppendNewer(l.down, OlderAck(l), AckOf(l.cur), true);
    } else {
      AppendOlder(l.down, AckOf(l.s), true);
    }
    AnswerKeeps(l, t, AckOf(l.s));
    assert ServerTakes(l, card) == l.(srv := t, up := l.up[1..], down := l.down + [AckOf(l.s)]);
  }

  /** Every other packet is answered with an error and changes neither the file nor the session. */
  lemma RefuseStep(l: Sys, card: Card)
    requires Inv(l) && l.up != []
    requires if l.srv.open then l.up[0].Request? else !(l.up[0].Request? && card.opens)
    ensures Inv(ServerTakes(l, card)) && ServerTakes(l, card).srv.file == l.srv.file
  {
    var (t, out) := Receive(l.srv, l.up[0], l.ip, l.port, card);
    OneReply(out);
    assert ServerTakes(l, card) == l.(srv := t, up := l.up[1..], down := l.down + [out[0].p]);
    OldAndNewDiffer(l);
    AppendFailure(l.down, OlderAck(l), DownNewer(l), out[0].p);
    AnswerKeeps(l, t, out[0].p);
  }

  lemma ServerStep(l: Sys, card: Card)
    requires Inv(l) && card.stored == l.srv.file
    ensures Inv(ServerTakes(l, card))
  {
    if l.up != [] {
      var p := l.up[0];
      assert p == PacketOf(l.data, l.cur)
        || (l.cur > 0 && !l.failed && l.s == l.cur - 1 && p == PacketOf(l.data, l.cur - 1));
      if !l.srv.open && p.Request? && card.opens {
        GrantStep(l, card);
      } else if !l.srv.open || p.Request? {
        RefuseStep(l, card);
      } else if l.s == l.cur - 1 && p == PacketOf(l.data, l.cur) {
        WriteStep(l, card);
      } else {
        AckAgainStep(l, card);
      }
    }
  }

  lemma TimerStep(l: Sys)
    requires Inv(l)
    ensures Inv(Next(l, ServerTimer))
  {
    assert l.down + Payloads(Timeout(l.srv).1) == l.down;
  }

  /** No event changes what is uploaded, or what the card held before. */
  lemma StepConstants(l: Sys, e: Event)
    requires l.cur <= LastBlock(l.data)
    ensures Next(l, e).data == l.data && Next(l, e).held == l.held
  {
  }

  lemma Step(l: Sys, e: Event)
    requires Inv(l) && Allowed(l, e)
    ensures Inv(Next(l, e)) && Next(l, e).data == l.data && Next(l, e).held == l.held
  {
    StepConstants(l, e);
    match e
    case SenderReceives => SenderStep(l);
    case ServerReceives(card) => ServerStep(l, card);
    case ServerTimer => TimerStep(l);
    case _ => NetworkStep(l, e);
  }

  // ---------------------------------------------------------------------------
  // Main result
  // ---------------------------------------------------------------------------

  ghost predicate AllowedRun(l: Sys, es: seq<Event>)
    requires Inv(l)
    decreases |es|
  {
    es == [] || (Allowed(l, es[0]) && (Step(l, es[0]); AllowedRun(Next(l, es[0]), es[1..])))
  }

  ghost function Run(l: Sys, es: seq<Event>): Sys
    requires Inv(l) && AllowedRun(l, es)
    decreases |es|
  {
    if es == [] then l else (Step(l, es[0]); Run(Next(l, es[0]), es[1..]))
  }

  lemma InitialInv(l: Sys)
    requires Initial(l)
    ensures Inv(l)
  {
  }

  /** The file on the card in terms of blocks. */
  ghost predicate CardHolds(l: Sys) {
    l.s >= 0 ==>
      if l.failed then
        exists n :: |Prefix(l.data, l.s)| <= n <= |Prefix(l.data, l.s + 1)|
          && l.srv.file == Overlaid(l.held, l.data[..n])
      else l.srv.file == Overlaid(l.held, Prefix(l.data, l.s))
  }

  /**
   At every moment of every run the file on the card is the sender's first `s` blocks, each once and in order, laid
   over what the card held before, with `s` the sender's current block or the one before. After a failed write a part
   of one more block may have been laid over it.
   */
  lemma {:induction false} Upload(l: Sys, es: seq<Event>)
    requires Inv(l) && AllowedRun(l, es)
    ensures var r := Run(l, es);
      Inv(r) && r.data == l.data && r.held == l.held && (r.s == r.cur || r.s == r.cur - 1) && CardHolds(r)
    decreases |es|
  {
    if es != [] {
      Step(l, es[0]);
      Upload(Next(l, es[0]), es[1..]);
    }
  }

  /**
   When the sender has seen its last acknowledgement, all of its data lies at the head of the file. It is the whole
   file exactly when the card held nothing longer before: the open callback does not truncate.
   */
  lemma UploadComplete(l: Sys, es: seq<Event>)
    requires Inv(l) && AllowedRun(l, es) && Run(l, es).done
    ensures Run(l, es).srv.file == Overlaid(l.held, l.data)
    ensures Run(l, es).srv.file == l.data <==> |l.held| <= |l.data|
  {
    Upload(l, es);
    BlockExtends(l.data, LastBlock(l.data));
    OverlaidIsHead(l.held, l.data);
  }

  lemma RunStep(l: Sys, es: seq<Event>)
    requires Inv(l) && es != [] && Allowed(l, es[0]) && Inv(Next(l, es[0])) && AllowedRun(Next(l, es[0]), es[1..])
    ensures AllowedRun(l, es) && Run(l, es) == Run(Next(l, es[0]), es[1..])
  {
  }

  /** The request and its grant. */
  lemma Granted(l: Sys, card: Card)
    requires Initial(l) && card.opens && card.stored == l.srv.file
    ensures var m := Next(Next(l, ServerReceives(card)), SenderReceives);
      && m.srv.open && m.srv.modeWrite && m.srv.file == l.held && m.srv.pos == 0 && m.srv.blknum == 1
      && m.srv.ip == l.ip && m.srv.port == l.port
      && m.up == [PacketOf(l.data, 1)] && m.down == [] && m.cur == 1 && !m.done && !m.aborted
  {
    var out := Receive(l.srv, l.up[0], l.ip, l.port, card).1;
    OneReply(out);
    assert Next(l, ServerReceives(card)).down == [AckOf(0)];
  }

  /** A single block is written, acknowledged, and the sender is done. */
  lemma Finished(l: Sys, card: Card)
    requires Inv(l) && l.srv.open && l.s == 0 && l.cur == 1 == LastBlock(l.data) && !l.done && !l.aborted
    requires l.up == [PacketOf(l.data, 1)] && l.down == [] && card.writable
    ensures var m := Next(Next(l, ServerReceives(card)), SenderReceives);
      m.done && m.srv.file == Overwrite(l.srv.file, l.srv.pos, Block(l.data, 1))
  {
    WriteResult(l, card, |Block(l.data, 1)|);
    assert Block(l.data, 1)[..|Block(l.data, 1)|] == Block(l.data, 1);
    OneReply(Receive(l.srv, l.up[0], l.ip, l.port, card).1);
    assert Next(l, ServerReceives(card)).down == [AckOf(1)];
  }

  /** One byte uploaded over a file of three: the sender is done, and two old bytes are still there. */
  lemma ShortOverLong(l: Sys, a: byte, b: byte, c: byte, x: byte)
    requires Initial(l) && l.held == [a, b, c] && l.data == [x]
    ensures var e := ServerReceives(Card(true, [a, b, c], true, 0, true));
      var es := [e, SenderReceives, e, SenderReceives];
      && Inv(l) && AllowedRun(l, es) && Run(l, es).done && Run(l, es).srv.file == [x, b, c]
  {
    InitialInv(l);
    var card := Card(true, [a, b, c], true, 0, true);
    var e := ServerReceives(card);
    Granted(l, card);
    Step(l, e);
    var l1 := Next(l, e);
    Step(l1, SenderReceives);
    var l2 := Next(l1, SenderReceives);
    assert Block(l.data, 1) == [x];
    Finished(l2, card);
    Step(l2, e);
    var l3 := Next(l2, e);
    Step(l3, SenderReceives);
    RunStep(l3, [SenderReceives]);
    RunStep(l2, [e, SenderReceives]);
    RunStep(l1, [SenderReceives, e, SenderReceives]);
    RunStep(l, [e, SenderReceives, e, SenderReceives]);
  }
}
