/**
 Uploads can finish: from every state with an open session, no failed write and a sender that has not given up, some
 events lead to the sender's last acknowledgement. Each lemma hands back such a list of events.
 */
module TftpUploadProgress {
  import opened TftpServer
  import opened TftpChannel
  import opened TftpUpload

  ghost predicate Finishes(l: Sys, es: seq<Event>)
    requires Inv(l)
  {
    AllowedRun(l, es) && Run(l, es).done
  }

  /** Neither side has failed, and the sender still waits. */
  predicate Live(l: Sys) {
    Inv(l) && !l.failed && !l.aborted && !l.done
  }

  predicate Quiet(l: Sys) {
    l.up == [] && l.down == []
  }

  /** A card on which everything succeeds. */
  function GoodCard(l: Sys): Card {
    Card(true, l.srv.file, true, 0, true)
  }

  lemma Prepend(l: Sys, e: Event, rest: seq<Event>)
    requires Inv(l) && Allowed(l, e) && Inv(Next(l, e)) && Finishes(Next(l, e), rest)
    ensures Finishes(l, [e] + rest)
  {
    assert ([e] + rest)[1..] == rest;
    RunStep(l, [e] + rest);
  }

  // ---------------------------------------------------------------------------
  // Block by block
  // ---------------------------------------------------------------------------

  /** Only the block that the server waits for is on its way. */
  predicate Sending(l: Sys) {
    Live(l) && l.srv.open && l.cur >= 1 && l.s == l.cur - 1 && l.up == [PacketOf(l.data, l.cur)] && l.down == []
  }

  /** Only the acknowledgement that the sender waits for is on its way. */
  predicate Acknowledged(l: Sys) {
    Live(l) && l.s == l.cur && (l.srv.open || l.cur == LastBlock(l.data)) && l.up == [] && l.down == [AckOf(l.cur)]
  }

  lemma Written(l: Sys)
    requires Sending(l)
    ensures Acknowledged(Next(l, ServerReceives(GoodCard(l)))) && Next(l, ServerReceives(GoodCard(l))).cur == l.cur
  {
    var card := GoodCard(l);
    WriteResult(l, card, |Block(l.data, l.cur)|);
    WriteSession(l, card);
    WriteStep(l, card);
    OneReply(Receive(l.srv, l.up[0], l.ip, l.port, card).1);
  }

  lemma Advanced(l: Sys)
    requires Acknowledged(l)
    ensures var m := Next(l, SenderReceives);
      && Inv(m) && m.data == l.data
      && if l.cur == LastBlock(l.data) then m.done else Sending(m) && m.cur == l.cur + 1
  {
    Step(l, SenderReceives);
  }

  lemma FromAcknowledged(l: Sys) returns (es: seq<Event>)
    requires Acknowledged(l)
    ensures Finishes(l, es)
    decreases LastBlock(l.data) - l.cur, 0
  {
    Advanced(l);
    var m := Next(l, SenderReceives);
    es := [];
    if !m.done {
      es := FromSending(m);
    }
    Prepend(l, SenderReceives, es);
    es := [SenderReceives] + es;
  }

  lemma FromSending(l: Sys) returns (es: seq<Event>)
    requires Sending(l)
    ensures Finishes(l, es)
    decreases LastBlock(l.data) - l.cur, 1
  {
    var e := ServerReceives(GoodCard(l));
    Written(l);
    StepConstants(l, e);
    es := FromAcknowledged(Next(l, e));
    Prepend(l, e, es);
    es := [e] + es;
  }

  // ---------------------------------------------------------------------------
  // With nothing on its way
  // ---------------------------------------------------------------------------

  lemma Resent(l: Sys)
    requires Live(l) && Quiet(l)
    ensures var m := Next(l, Retransmit); Inv(m) && m == l.(up := [PacketOf(l.data, l.cur)])
  {
    Step(l, Retransmit);
  }

  /** The server has the block, and its acknowledgement was lost: the block is sent and acknowledged again. */
  lemma AckedAgain(l: Sys)
    requires Live(l) && l.srv.open && l.s == l.cur >= 1 && l.up == [PacketOf(l.data, l.cur)] && l.down == []
    ensures Acknowledged(Next(l, ServerReceives(GoodCard(l)))) && Next(l, ServerReceives(GoodCard(l))).cur == l.cur
  {
    var card := GoodCard(l);
    AckAgainReply(l, card);
    AckAgainStep(l, card);
    OneReply(Receive(l.srv, l.up[0], l.ip, l.port, card).1);
  }

  /** A request that reaches a closed server is granted. */
  lemma GrantedAgain(l: Sys)
    requires Live(l) && !l.srv.open && l.cur == 0 && l.up == [PacketOf(l.data, 0)] && l.down == []
    ensures Acknowledged(Next(l, ServerReceives(GoodCard(l))))
  {
    var card := GoodCard(l);
    GrantStep(l, card);
    OneReply(Receive(l.srv, l.up[0], l.ip, l.port, card).1);
  }

  lemma FromClosed(l: Sys) returns (es: seq<Event>)
    requires Live(l) && Quiet(l) && !l.srv.open && l.cur == 0
    ensures Finishes(l, es)
  {
    Resent(l);
    var m := Next(l, Retransmit);
    var e := ServerReceives(GoodCard(m));
    GrantedAgain(m);
    es := FromAcknowledged(Next(m, e));
    Prepend(m, e, es);
    Prepend(l, Retransmit, [e] + es);
    es := [Retransmit] + ([e] + es);
  }

  /** Timer calls until the next one closes a silent session. */
  function Patience(l: Sys): nat {
    if l.srv.timer - l.srv.lastPkt > TIMEOUT_TICKS then 0 else TIMEOUT_TICKS + 1 - (l.srv.timer - l.srv.lastPkt)
  }

  lemma Ticks(l: Sys)
    requires Live(l) && Quiet(l) && l.srv.open
    ensures var m := Next(l, ServerTimer);
      && Live(m) && Quiet(m) && m.cur == l.cur && m.s == l.s && m.data == l.data
      && (m.srv.open ==> Patience(m) < Patience(l))
  {
    TimerStep(l);
    assert l.down + Payloads(Timeout(l.srv).1) == l.down;
  }

  /**
   The grant was lost: an open server refuses the request when it is repeated, so the session must time out before it
   can be granted again.
   */
  lemma FromLostGrant(l: Sys) returns (es: seq<Event>)
    requires Live(l) && Quiet(l) && l.srv.open && l.cur == 0
    ensures Finishes(l, es)
    decreases Patience(l)
  {
    Ticks(l);
    var m := Next(l, ServerTimer);
    if m.srv.open {
      es := FromLostGrant(m);
    } else {
      es := FromClosed(m);
    }
    Prepend(l, ServerTimer, es);
    es := [ServerTimer] + es;
  }

  lemma FromQuiet(l: Sys) returns (es: seq<Event>)
    requires Live(l) && Quiet(l) && l.srv.open
    ensures Finishes(l, es)
  {
    if l.cur == 0 {
      es := FromLostGrant(l);
      return;
    }
    Resent(l);
    var m := Next(l, Retransmit);
    if l.s == l.cur - 1 {
      es := FromSending(m);
    } else {
      var e := ServerReceives(GoodCard(m));
      AckedAgain(m);
      var rest := FromAcknowledged(Next(m, e));
      Prepend(m, e, rest);
      es := [e] + rest;
    }
    Prepend(l, Retransmit, es);
    es := [Retransmit] + es;
  }

  // ---------------------------------------------------------------------------
  // Main result
  // ---------------------------------------------------------------------------

  /** From every such state the upload can be finished, whatever is on its way. */
  lemma CanFinish(l: Sys) returns (es: seq<Event>)
    requires Live(l) && l.srv.open
    ensures Finishes(l, es)
    ensures Run(l, es).srv.file == Overlaid(l.held, l.data)
    decreases |l.up| + |l.down|
  {
    if Quiet(l) {
      es := FromQuiet(l);
    } else {
      var e := if l.up != [] then LoseUp(0) else LoseDown(0);
      NetworkStep(l, e);
      es := CanFinish(Next(l, e));
      Prepend(l, e, es);
      es := [e] + es;
    }
    UploadComplete(l, es);
  }

  /**
    A repeated request does not find the session that its lost grant has opened: it is refused, and a sender gives
    up.
  */
  lemma LostGrantRefused(l: Sys, card: Card)
    requires Live(l) && Quiet(l) && l.srv.open && l.cur == 0
    ensures var m := Next(Next(Next(l, Retransmit), ServerReceives(card)), SenderReceives); m.aborted
  {
    Resent(l);
    var m := Next(l, Retransmit);
    OneReply(Receive(m.srv, m.up[0], m.ip, m.port, card).1);
    assert Next(m, ServerReceives(card)).down == [Failure(ACCESS_VIOLATION)];
  }
}
