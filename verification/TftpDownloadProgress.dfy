/**
 Downloads can finish: from every state with an open session and a receiver that has not given up, some events bring the
 receiver the whole file. Each lemma hands back such a list of events.
 */
module TftpDownloadProgress {
  import opened TftpServer
  import opened TftpChannel
  import opened TftpDownload

  ghost predicate Finishes(l: Sys, es: seq<Event>) {
    AllowedRun(l, es) && Run(l, es).complete
  }

  /** The session is open, and the receiver still waits. */
  predicate Live(l: Sys) {
    Inv(l) && l.srv.open && !l.aborted && !l.complete
  }

  predicate Quiet(l: Sys) {
    l.up == [] && l.down == []
  }

  /** A card on which everything succeeds. */
  function GoodCard(l: Sys): Card {
    Card(true, l.data, true, 0, true)
  }

  lemma Prepend(l: Sys, e: Event, rest: seq<Event>)
    requires Allowed(l, e) && Finishes(Next(l, e), rest)
    ensures Finishes(l, [e] + rest)
  {
    var es := [e] + rest;
    assert es[0] == e && es[1..] == rest;
  }

  // ---------------------------------------------------------------------------
  // Block by block
  // ---------------------------------------------------------------------------

  /** Only the block that the receiver waits for is on its way. */
  predicate Sending(l: Sys) {
    Live(l) && l.k == l.r + 1 && l.up == [] && l.down == [DataOf(l.data, l.k)]
  }

  /** Only the acknowledgement that the server waits for is on its way. */
  predicate Acknowledging(l: Sys) {
    Live(l) && l.k == l.r && l.up == [Reply(l.r)] && l.down == []
  }

  lemma Taken(l: Sys)
    requires Sending(l)
    ensures var m := Next(l, ReceiverTakes);
      && Inv(m) && m.data == l.data && m.k == l.k
      && if l.k == LastBlock(l.data) then m.complete else Acknowledging(m)
  {
    NewBlockStep(l);
  }

  lemma Advanced(l: Sys)
    requires Acknowledging(l)
    ensures var m := Next(l, ServerReceives(GoodCard(l))); Sending(m) && m.k == l.k + 1 && m.data == l.data
  {
    var card := GoodCard(l);
    AdvanceReply(l, card);
    AdvanceStep(l, card);
    OneReply(Receive(l.srv, l.up[0], l.ip, l.port, card).1);
  }

  lemma FromSending(l: Sys) returns (es: seq<Event>)
    requires Sending(l)
    ensures Finishes(l, es)
    decreases LastBlock(l.data) - l.k, 1
  {
    Taken(l);
    var m := Next(l, ReceiverTakes);
    es := [];
    if !m.complete {
      es := FromAcknowledging(m);
    }
    Prepend(l, ReceiverTakes, es);
    es := [ReceiverTakes] + es;
  }

  lemma FromAcknowledging(l: Sys) returns (es: seq<Event>)
    requires Acknowledging(l)
    ensures Finishes(l, es)
    decreases LastBlock(l.data) - l.k, 0
  {
    var e := ServerReceives(GoodCard(l));
    Advanced(l);
    es := FromSending(Next(l, e));
    Prepend(l, e, es);
    es := [e] + es;
  }

  // ---------------------------------------------------------------------------
  // With nothing on its way
  // ---------------------------------------------------------------------------

  lemma Resent(l: Sys)
    requires Live(l) && Quiet(l)
    ensures var m := Next(l, Retransmit); Inv(m) && m == l.(up := [Reply(l.r)])
  {
    NetworkStep(l, Retransmit);
  }

  /** Timer calls until the pending block is sent again. */
  function Patience(l: Sys): nat {
    if l.srv.timer - l.srv.lastPkt > TIMEOUT_TICKS then 0 else TIMEOUT_TICKS + 1 - (l.srv.timer - l.srv.lastPkt)
  }

  /** While the server can resend, a timer call either does or brings that nearer. */
  lemma Ticks(l: Sys)
    requires Live(l) && Quiet(l) && l.k == l.r + 1 && l.srv.retries == 0
    ensures var m := Next(l, ServerTimer);
      m.data == l.data
        && (Sending(m) || (Live(m) && Quiet(m) && m.k == m.r + 1 && m.srv.retries == 0 && Patience(m) < Patience(l)))
  {
    TimerStep(l);
    var (t, out) := Timeout(l.srv);
    if out == [] {
      assert l.down + Payloads(out) == [];
    } else {
      OneReply(out);
    }
  }

  lemma FromResend(l: Sys) returns (es: seq<Event>)
    requires Live(l) && Quiet(l) && l.k == l.r + 1 && l.srv.retries == 0
    ensures Finishes(l, es)
    decreases Patience(l)
  {
    Ticks(l);
    var m := Next(l, ServerTimer);
    if Quiet(m) {
      es := FromResend(m);
    } else {
      es := FromSending(m);
    }
    Prepend(l, ServerTimer, es);
    es := [ServerTimer] + es;
  }

  /** An acknowledgement of an older block is refused, but it starts the server's patience again. */
  lemma Reminded(l: Sys)
    requires Live(l) && l.k == l.r + 1 && l.up == [Reply(l.r)] && l.down == []
    ensures var m := Next(Next(l, ServerReceives(GoodCard(l))), LoseDown(0));
      Live(m) && Quiet(m) && m.k == m.r + 1 && m.srv.retries == 0 && m.data == l.data
    ensures Inv(Next(l, ServerReceives(GoodCard(l))))
  {
    var card := GoodCard(l);
    RepliesDiffer(l.k);
    Refused(l, card);
    RefuseStep(l, card);
    var m := Next(l, ServerReceives(card));
    OneReply(Receive(l.srv, l.up[0], l.ip, l.port, card).1);
    assert |m.down| == 1 && m.k == l.k;
    NetworkStep(m, LoseDown(0));
  }

  lemma FromQuiet(l: Sys) returns (es: seq<Event>)
    requires Live(l) && Quiet(l)
    ensures Finishes(l, es)
  {
    Resent(l);
    var m := Next(l, Retransmit);
    if l.k == l.r {
      es := FromAcknowledging(m);
    } else {
      var e := ServerReceives(GoodCard(m));
      Reminded(m);
      var rest := FromResend(Next(Next(m, e), LoseDown(0)));
      Prepend(Next(m, e), LoseDown(0), rest);
      Prepend(m, e, [LoseDown(0)] + rest);
      es := [e] + ([LoseDown(0)] + rest);
    }
    Prepend(l, Retransmit, es);
    es := [Retransmit] + es;
  }

  // ---------------------------------------------------------------------------
  // Main result
  // ---------------------------------------------------------------------------

  /** From every such state the download can be finished, whatever is on its way. */
  lemma CanFinish(l: Sys) returns (es: seq<Event>)
    requires Live(l)
    ensures Finishes(l, es) && Run(l, es).got == l.data
    decreases |l.up| + |l.down|
  {
    if Quiet(l) {
      es := FromQuiet(l);
    } else {
      var e := if l.up != [] then LoseUp(0) else LoseDown(0);
      NetworkStep(l, e);
      es := CanFinish(Next(l, e));
      Prepend(l, e, es);
      es := [e] + es;
    }
    Download(l, es);
  }
}
