/**
 The trigger side of the snapshots: the address latches of ps_io.vhd, and the capture
 machine that the firmware pass of snapshots.c runs over its twenty trigger slots.
 */
module SnapshotTriggers {
  import opened Words
  import opened SnapshotCopy

  // ---------------------------------------------------------------------------
  // The latches in the gateware
  // ---------------------------------------------------------------------------

  /** Ring address and event time that a trigger line latched last. */
  datatype Stamp = Stamp(addr: u32, sec: u32, nsec: u32)

  datatype Line = Line(prev: bool, stamp: Stamp)

  /** Lines usr 0-3, flt 0-3, err 0-3, inj 0-3 and evr. */
  const LINES := 17

  /** One clock of one line: a rising edge latches; a reset zeroes the address alone. */
  function NextLine(l: Line, reset: bool, trig: bool, now: Stamp): Line {
    if reset then l.(stamp := l.stamp.(addr := 0))
    else Line(trig, if trig && !l.prev then now else l.stamp)
  }

  /** One clock of one line: its inputs and the stamp that is running. */
  datatype LineInput = LineInput(reset: bool, trig: bool, now: Stamp)

  function LineRun(l: Line, ins: seq<LineInput>): Line {
    if ins == [] then l
    else
      var i := ins[|ins| - 1];
      NextLine(LineRun(l, ins[..|ins| - 1]), i.reset, i.trig, i.now)
  }

  /** Clock `j` is the last one before `k` without a reset. */
  predicate LastLive(ins: seq<LineInput>, j: int, k: int) {
    0 <= j < k <= |ins| && !ins[j].reset && forall m :: j < m < k ==> ins[m].reset
  }

  /** A rise of the line at clock `k`: high there, and low when it was last looked at. */
  ghost predicate Rise(ins: seq<LineInput>, k: int) {
    0 <= k < |ins| && !ins[k].reset && ins[k].trig && exists j :: LastLive(ins, j, k) && !ins[j].trig
  }

  lemma {:induction false} LevelSeen(l: Line, ins: seq<LineInput>, j: int)
    requires LastLive(ins, j, |ins|)
    ensures LineRun(l, ins).prev == ins[j].trig
    decreases |ins|
  {
    var front := ins[..|ins| - 1];
    if j < |ins| - 1 {
      assert forall m :: 0 <= m < |front| ==> front[m] == ins[m];
      assert ins[|ins| - 1].reset && LastLive(front, j, |front|);
      LevelSeen(l, front, j);
    }
  }

  lemma LastLiveOf(ins: seq<LineInput>, k: int) returns (j: int)
    requires 0 <= k < |ins| && !ins[k].reset
    ensures k <= j && LastLive(ins, j, |ins|)
  {
    j := |ins| - 1;
    while ins[j].reset
      invariant k <= j < |ins| && forall m :: j < m < |ins| ==> ins[m].reset
      decreases j
    {
      j := j - 1;
    }
  }

  lemma FrontRise(ins: seq<LineInput>, m: int)
    requires 0 <= m < |ins| - 1
    ensures Rise(ins[..|ins| - 1], m) <==> Rise(ins, m)
  {
    var front := ins[..|ins| - 1];
    assert forall j :: 0 <= j < |front| ==> front[j] == ins[j];
    if Rise(ins, m) {
      var j :| LastLive(ins, j, m) && !ins[j].trig;
      assert LastLive(front, j, m) && !front[j].trig;
    }
    if Rise(front, m) {
      var j :| LastLive(front, j, m) && !front[j].trig;
      assert LastLive(ins, j, m) && !ins[j].trig;
    }
  }

  /**
   Over every run, from any state: a line shows the time of its last rise, the second and each later one too, and the
   ring address of that clock unless a reset has come behind it, which zeroes the address.
   */
  lemma {:induction false} LatchHolds(l: Line, ins: seq<LineInput>, k: int)
    requires Rise(ins, k) && forall m :: k < m < |ins| ==> !Rise(ins, m)
    ensures var stamp := LineRun(l, ins).stamp;
      && stamp.sec == ins[k].now.sec && stamp.nsec == ins[k].now.nsec
      && stamp.addr == if exists m :: k < m < |ins| && ins[m].reset then 0 else ins[k].now.addr
    decreases |ins|
  {
    var n := |ins| - 1;
    var front := ins[..n];
    assert forall m :: 0 <= m < n ==> front[m] == ins[m];
    if k == n {
      var j :| LastLive(ins, j, k) && !ins[j].trig;
      assert LastLive(front, j, n);
      LevelSeen(l, front, j);
    } else {
      FrontRise(ins, k);
      forall m | k < m < n
        ensures !Rise(front, m)
      {
        FrontRise(ins, m);
      }
      LatchHolds(l, front, k);
      if !ins[n].reset {
        var j := LastLiveOf(front, k);
        LevelSeen(l, front, j);
        assert LastLive(ins, j, n);
        assert !Rise(ins, n);
        assert forall m :: k < m < n && ins[m].reset ==> front[m].reset;
      }
    }
  }

  class TriggerLatch {
    const lines: array<Line>

    constructor ()
      ensures lines.Length == LINES && fresh(lines)
      ensures forall k :: 0 <= k < LINES ==> lines[k] == Line(false, Stamp(0, 0, 0))
    {
      lines := new Line[LINES](_ => Line(false, Stamp(0, 0, 0)));
    }

    method Tick(reset: bool, trigs: seq<bool>, now: Stamp)
      requires lines.Length == LINES && |trigs| == LINES
      modifies lines
      ensures forall k :: 0 <= k < LINES ==> lines[k] == NextLine(old(lines[k]), reset, trigs[k], now)
    {
      for k := 0 to LINES
        invariant forall j :: 0 <= j < k ==> lines[j] == NextLine(old(lines[j]), reset, trigs[j], now)
        invariant forall j :: k <= j < LINES ==> lines[j] == old(lines[j])
      {
        var l := lines[k];
        if reset {
          lines[k] := l.(stamp := l.stamp.(addr := 0));
        } else {
          if trigs[k] && !l.prev {
            l := l.(stamp := now);
          }
          lines[k] := l.(prev := trigs[k]);
        }
      }
    }
  }

  // ---------------------------------------------------------------------------
  // The capture machine: specification
  // ---------------------------------------------------------------------------

  datatype Trigger = Trigger(
    addr: u32, addrLast: u32, pre: u32, post: u32, active: bool, postdlycnt: nat, sendbuf: bool,
    msgID: nat, chan: nat)

  /** Passes from detection to send. */
  function Delay(s: Trigger): nat {
    s.post / 1000
  }

  /** A slot with no capture in progress, as every pass leaves it or finds it. */
  predicate Quiet(s: Trigger) {
    !s.active && !s.sendbuf
  }

  /** What one pass does to a slot that sees `reg` in its latch: the register poll and `ProcessTrigger`. */
  function Poll(s: Trigger, reg: u32): Trigger {
    var a := if s.active then s else s.(addr := reg);
    var b := if a.addr != a.addrLast && !a.active then a.(active := true, addrLast := a.addr, postdlycnt := 0) else a;
    if !b.active then b
    else if b.postdlycnt < Delay(b) then b.(postdlycnt := b.postdlycnt + 1)
    else b.(sendbuf := true)
  }

  predicate Sends(s: Trigger, reg: u32) {
    Poll(s, reg).sendbuf
  }

  predicate Detects(s: Trigger, reg: u32) {
    !s.active && reg != s.addrLast
  }

  /** One whole pass: the poll, and the send that ends the capture. */
  function Pass(s: Trigger, reg: u32): Trigger {
    var p := Poll(s, reg);
    if p.sendbuf then p.(sendbuf := false, active := false) else p
  }

  function Passes(s: Trigger, regs: seq<u32>): Trigger
    decreases |regs|
  {
    if regs == [] then s else Passes(Pass(s, regs[0]), regs[1..])
  }

  function CountDetects(s: Trigger, regs: seq<u32>): nat
    decreases |regs|
  {
    if regs == [] then 0
    else (if Detects(s, regs[0]) then 1 else 0) + CountDetects(Pass(s, regs[0]), regs[1..])
  }

  function CountSends(s: Trigger, regs: seq<u32>): nat
    decreases |regs|
  {
    if regs == [] then 0
    else (if Sends(s, regs[0]) then 1 else 0) + CountSends(Pass(s, regs[0]), regs[1..])
  }

  // ---------------------------------------------------------------------------
  // The capture machine: properties over every run of passes
  // ---------------------------------------------------------------------------

  /** What every pass keeps. */
  predicate SlotInv(s: Trigger) {
    !s.sendbuf && (s.active ==> s.addr == s.addrLast && 1 <= s.postdlycnt <= Delay(s))
  }

  lemma PassKeeps(s: Trigger, reg: u32)
    requires SlotInv(s)
    ensures SlotInv(Pass(s, reg))
    ensures Pass(s, reg).pre == s.pre && Pass(s, reg).post == s.post && Pass(s, reg).chan == s.chan
    ensures Detects(s, reg) <==> Pass(s, reg).addrLast != s.addrLast
  {
  }

  /** In a capture the address cannot move, whatever the register shows. */
  lemma {:induction false} WaitingPasses(s: Trigger, regs: seq<u32>)
    requires SlotInv(s) && s.active && |regs| <= Delay(s) - s.postdlycnt
    ensures Passes(s, regs) == s.(postdlycnt := s.postdlycnt + |regs|)
    ensures CountSends(s, regs) == 0 && CountDetects(s, regs) == 0
    decreases |regs|
  {
    if regs != [] {
      WaitingPasses(Pass(s, regs[0]), regs[1..]);
    }
  }

  lemma {:induction false} PassesSplit(s: Trigger, a: seq<u32>, b: seq<u32>)
    ensures Passes(s, a + b) == Passes(Passes(s, a), b)
    ensures CountSends(s, a + b) == CountSends(s, a) + CountSends(Passes(s, a), b)
    ensures CountDetects(s, a + b) == CountDetects(s, a) + CountDetects(Passes(s, a), b)
    decreases |a|
  {
    if a == [] {
      assert a + b == b;
    } else {
      assert (a + b)[0] == a[0] && (a + b)[1..] == a[1..] + b;
      PassesSplit(Pass(s, a[0]), a[1..], b);
    }
  }

  /**
   A capture, for any register contents after its first pass: the address polled at detection is the
   one in the slot up to the send; the send is the pass exactly `post / 1000` passes after the detecting one.
   */
  lemma Capture(s: Trigger, regs: seq<u32>)
    requires SlotInv(s) && Quiet(s) && |regs| == s.post / 1000 + 1 && regs[0] != s.addrLast
    ensures forall k :: 0 < k <= s.post / 1000 ==>
      var m := Passes(s, regs[..k]); m.active && m.addr == regs[0] && CountSends(s, regs[..k]) == 0
    ensures Sends(Passes(s, regs[..s.post / 1000]), regs[s.post / 1000])
    ensures CountSends(s, regs) == 1 && CountDetects(s, regs) == 1
    ensures Quiet(Passes(s, regs)) && Passes(s, regs).addr == regs[0] && Passes(s, regs).addrLast == regs[0]
  {
    var d := Delay(s);
    forall k | 0 < k <= d
      ensures Passes(s, regs[..k]) ==
        s.(active := true, addr := regs[0], addrLast := regs[0], postdlycnt := k)
      ensures CountSends(s, regs[..k]) == 0 && CountDetects(s, regs[..k]) == 1
    {
      assert regs[..k][0] == regs[0] && regs[..k][1..] == regs[1..k];
      WaitingPasses(Pass(s, regs[0]), regs[1..k]);
    }
    assert regs[..d] + [regs[d]] == regs;
    PassesSplit(s, regs[..d], [regs[d]]);
    var m := Passes(s, regs[..d]);
    assert [regs[d]][1..] == [];
    if d == 0 {
      assert m == s;
    }
  }

  /** Without a new address nothing happens; with one, the very next pass starts a capture. */
  lemma QuietPass(s: Trigger, reg: u32)
    requires SlotInv(s) && Quiet(s)
    ensures reg == s.addrLast ==> Quiet(Pass(s, reg)) && !Sends(s, reg) && Pass(s, reg).addrLast == s.addrLast
    ensures reg != s.addrLast ==> Detects(s, reg) && Pass(s, reg).addrLast == reg == Pass(s, reg).addr
    ensures reg != s.addrLast ==> (Sends(s, reg) <==> Delay(s) == 0)
  {
  }

  /** Every detection gives one send: none is lost, none is doubled, over any run of passes. */
  lemma {:induction false} OneSendEach(s: Trigger, regs: seq<u32>)
    requires SlotInv(s)
    ensures SlotInv(Passes(s, regs))
    ensures (if s.active then 1 else 0) + CountDetects(s, regs)
            == CountSends(s, regs) + (if Passes(s, regs).active then 1 else 0)
    decreases |regs|
  {
    if regs != [] {
      PassKeeps(s, regs[0]);
      OneSendEach(Pass(s, regs[0]), regs[1..]);
    }
  }

  // ---------------------------------------------------------------------------
  // The capture machine: the firmware
  // ---------------------------------------------------------------------------

  /** An address the recorder can have latched. */
  predicate RingAddress(a: u32) {
    BUFSTART <= a <= BUFSTART + BUFLEN && (a - BUFSTART) % BUFSTEPBYTES == 0
  }

  /** These are the addresses of the recorder's slots, the last one included. */
  lemma RingAddressExact(a: u32)
    ensures RingAddress(a) <==> exists k :: 0 <= k <= 200_000 && a == 0x1000_0000 + 160 * k
    ensures RingAddress(a) ==> a == 0x1000_0000 + 160 * SlotOf(a)
  {
    if RingAddress(a) {
      var k := SlotOf(a);
      assert 0 <= k <= 200_000 && a == 0x1000_0000 + 160 * k;
    }
  }

  function SlotOf(a: u32): nat
    requires RingAddress(a)
  {
    (a - BUFSTART) / BUFSTEPBYTES
  }

  const MSGWFMLEN := 4_000_000

  /** The record and the message buffer of one trigger slot. */
  class TriggerInfo {
    var addr: u32
    var addrLast: u32
    var pre: u32
    var post: u32
    var active: bool
    var postdlycnt: nat
    var sendbuf: bool
    var msgID: nat
    var chan: nat
    const msg: array<Float>

    ghost function View(): Trigger
      reads this
    {
      Trigger(addr, addrLast, pre, post, active, postdlycnt, sendbuf, msgID, chan)
    }

    constructor (pre: u32, post: u32, msgID: nat, chan: nat)
      ensures View() == Trigger(0, 0, pre, post, false, 0, false, msgID, chan)
      ensures fresh(msg) && msg.Length == 1_000_000
    {
      addr, addrLast, active, postdlycnt, sendbuf := 0, 0, false, 0, false;
      this.pre, this.post, this.msgID, this.chan := pre, post, msgID, chan;
      msg := new Float[MSGWFMLEN / 4](_ => Native(Plain(0)));
    }

    /** Reads the latch unless a capture is in progress, then runs `ProcessTrigger`. */
    method Check(reg: u32)
      modifies this
      ensures View() == Poll(old(View()), reg)
    {
      if !active {
        addr := reg;
      }
      ProcessTrigger();
    }

    method ProcessTrigger()
      modifies this
      ensures View() == (var s := old(View());
        var b :=
          if s.addr != s.addrLast && !s.active then s.(active := true, addrLast := s.addr, postdlycnt := 0) else s;
        if !b.active then b
        else if b.postdlycnt < Delay(b) then b.(postdlycnt := b.postdlycnt + 1) else b.(sendbuf := true))
    {
      if addr != addrLast && !active {
        active := true;
        addrLast := addr;
        postdlycnt := 0;
      }
      if active {
        if postdlycnt < post / 1000 {
          postdlycnt := postdlycnt + 1;
        } else {
          sendbuf := true;
        }
      }
    }

    /** Ends the capture; the message holds the window around the captured address, in network order. */
    method SendWfmData(mem: seq<u32>)
      requires RingAddress(addr) && 1 <= chan <= 4
      requires pre + post <= READER_SLOTS && COLUMNS * (pre + post) <= msg.Length
      requires READER_SLOTS * WORDS_PER_SAMPLE <= |mem|
      modifies this, msg
      ensures View() == old(View()).(sendbuf := false, active := false)
      ensures WindowSent(msg[..], mem, SlotOf(addr), pre, pre + post, chan)
      ensures forall k :: COLUMNS * (pre + post) <= k < msg.Length ==> Reversed(msg[k], old(msg[k]))
    {
      sendbuf := false;
      active := false;
      ReadDMABuf(msg, mem, addr, pre, post, chan, SlotOf(addr));
      ghost var copied := msg[..];
      HtonConv(msg);
      ReversedWindow(msg[..], copied, mem, SlotOf(addr), pre, pre + post, chan);
    }
  }

  // ---------------------------------------------------------------------------
  // A latch that was reset
  // ---------------------------------------------------------------------------

  /** Once a slot has served an address, a reset of its latch looks like a trigger at address 0. */
  lemma ResetLatchTriggers(s: Trigger, l: Line, trig: bool, now: Stamp)
    requires SlotInv(s) && Quiet(s)
    ensures var reg := NextLine(l, true, trig, now).stamp.addr;
      reg == 0 && !RingAddress(reg) && (Detects(s, reg) <==> s.addrLast != 0)
  {
  }

  /**
   The window is then read around address 0: `Delay` passes later, if the register stays, the slot sends, and the
   first part of the copy lies outside the ring.
   */
  lemma ResetLatchSends(s: Trigger, regs: seq<u32>)
    requires SlotInv(s) && Quiet(s) && s.addrLast != 0 && |regs| == Delay(s) + 1 && regs[0] == 0
    requires 0 < s.pre + s.post <= READER_SLOTS
    ensures var m := Passes(s, regs[..Delay(s)]);
      Sends(m, regs[Delay(s)]) && Poll(m, regs[Delay(s)]).addr == 0
    ensures !InRing(FirstPart(0, s.pre, s.post))
  {
    Capture(s, regs);
    ZeroAddressOutside(s.pre, s.post);
    var d := Delay(s);
    if d > 0 {
      assert Passes(s, regs[..d]).active && Passes(s, regs[..d]).addr == 0;
    } else {
      assert regs[..0] == [];
    }
  }
}
