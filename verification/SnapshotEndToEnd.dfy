/**
 Recorder, latch and firmware together. A run interleaves clock edges, which step the recorder against its memory and
 one trigger latch, with firmware passes over one trigger slot. Slots share no state, so one slot with any window and
 any trigger line stands for each of the twenty. Recorder and latch can be reset at any edge, together or apart.

 The model carries both ring sizes of the source: the recorder uses 200,001 slots and the copy 200,000.
 */
module SnapshotEndToEnd {
  import opened Words
  import opened AdcWriter
  import opened AdcWriterProofs
  import SnapshotCopy
  import opened SnapshotTriggers

  const READER_SLOTS := SnapshotCopy.READER_SLOTS

  /** Samples stored between two passes of the firmware. */
  const MIN_PER_PASS := 1_001
  const MAX_PER_PASS := 1_480

  /** Samples that may still be stored while a message is being copied. */
  const COPY_SLACK := 519

  /**
   History variables: `atPass` is the number of started frames at the last pass, `passes` counts the
   passes, `latched` and `captured` are the samples the latch and the slot refer to, `detected` is
   `atPass` of the detecting pass and `age` the passes since then.
   */
  datatype Sys = Sys(
    bus: Bus, line: Line, slot: Trigger,
    passes: nat, atPass: nat, latched: nat, captured: nat, detected: nat, age: nat)

  /** The register the firmware polls. */
  function Register(s: Sys): u32 {
    s.line.stamp.addr
  }

  datatype Event = Edge(i: Input, latchReset: bool, trig: bool, sec: u32, nsec: u32) | FirmwarePass

  /** The latch takes the address of the newest started frame. */
  function OnEdge(s: Sys, e: Event): Sys
    requires e.Edge? && Legal(s.bus, e.i)
  {
    var latches := !e.latchReset && e.trig && !s.line.prev && Started(s.bus) > 0;
    s.(bus := Clock(s.bus, e.i),
       line := NextLine(s.line, e.latchReset, e.trig, Stamp(s.bus.w.addrPtr, e.sec, e.nsec)),
       latched := if latches then Started(s.bus) - 1 else s.latched)
  }

  function OnPass(s: Sys): Sys {
    var n := Started(s.bus);
    var detects := Detects(s.slot, Register(s));
    s.(slot := Pass(s.slot, Register(s)),
       passes := s.passes + 1, atPass := n,
       captured := if detects then s.latched else s.captured,
       detected := if detects then n else s.detected,
       age := if detects then 0 else if s.slot.active then s.age + 1 else 0)
  }

  /** The rate between passes; the first pass follows the start of the run by any smaller distance too. */
  predicate PassTiming(s: Sys) {
    var gap := Started(s.bus) - s.atPass;
    gap <= MAX_PER_PASS && (s.passes > 0 ==> MIN_PER_PASS <= gap)
  }

  predicate Allowed(s: Sys, e: Event) {
    match e
    case Edge(i, _, _, _, _) => Legal(s.bus, i)
    case FirmwarePass => PassTiming(s)
  }

  function After(s: Sys, e: Event): Sys
    requires Allowed(s, e)
  {
    if e.Edge? then OnEdge(s, e) else OnPass(s)
  }

  ghost predicate AllowedRun(s: Sys, es: seq<Event>)
    decreases |es|
  {
    es == [] || (Allowed(s, es[0]) && AllowedRun(After(s, es[0]), es[1..]))
  }

  ghost function RunEvents(s: Sys, es: seq<Event>): Sys
    requires AllowedRun(s, es)
    decreases |es|
  {
    if es == [] then s else RunEvents(After(s, es[0]), es[1..])
  }

  /** A run starts with no trigger latched and no capture in progress. */
  ghost predicate Start(s: Sys) {
    && Inv(s.bus) && s.passes == 0 && s.age == 0 && s.atPass == Started(s.bus)
    && Register(s) == 0 && Quiet(s.slot) && s.slot.addr == 0 && s.slot.addrLast == 0
  }

  /** Windows the timing can serve; `InitTriggerInfo` uses 50,000 + 50,000 and 0 + 8,000. */
  predicate Serves(pre: nat, post: nat) {
    && post < post / 1000 * MIN_PER_PASS
    && (2 * (post / 1000) + 1) * MAX_PER_PASS + COPY_SLACK + pre < READER_SLOTS
  }

  /** The slack is the largest that the first of them leaves. */
  lemma ConfiguredWindowsServed()
    ensures Serves(50_000, 50_000) && Serves(0, 8_000)
    ensures (2 * (50_000 / 1000) + 1) * MAX_PER_PASS + (COPY_SLACK + 1) + 50_000 == READER_SLOTS
  {
  }

  // ---------------------------------------------------------------------------
  // The invariant
  // ---------------------------------------------------------------------------

  /** What the latch holds, what the slot has served last, and how old an unserved trigger can be. */
  predicate LatchInv(s: Sys) {
    && (Register(s) == 0 || (s.latched < Started(s.bus) && Register(s) == SlotAddress(s.latched)))
    && (s.slot.addrLast == 0 || s.slot.addrLast == SlotAddress(s.captured))
    && (Register(s) != 0 && Register(s) != s.slot.addrLast ==> s.latched + 1 + s.age * MAX_PER_PASS >= s.atPass)
  }

  /**
   A capture in progress: how long it has waited and, unless it is of the address 0 that a reset leaves, which sample it
   refers to and how far the recorder has moved since.
   */
  predicate CaptureInv(s: Sys) {
    s.slot.active ==>
      && s.passes > 0 && s.slot.postdlycnt == s.age + 1
      && s.detected + s.age * MIN_PER_PASS <= s.atPass <= s.detected + s.age * MAX_PER_PASS
      && (s.slot.addr != 0 ==>
            && s.slot.addr == SlotAddress(s.captured) && s.captured < s.detected
            && s.detected <= s.captured + 1 + (Delay(s.slot) + 1) * MAX_PER_PASS)
  }

  ghost predicate SysInv(s: Sys) {
    && Inv(s.bus) && SlotInv(s.slot) && s.atPass <= Started(s.bus)
    && s.age <= Delay(s.slot) && LatchInv(s) && CaptureInv(s)
  }

  lemma EdgeStep(s: Sys, e: Event)
    requires SysInv(s) && e.Edge? && Allowed(s, e)
    ensures SysInv(OnEdge(s, e))
    ensures s.bus.frames <= OnEdge(s, e).bus.frames
  {
    Step(s.bus, e.i);
  }

  lemma PassStep(s: Sys)
    requires SysInv(s) && PassTiming(s)
    ensures SysInv(OnPass(s))
  {
    PassKeeps(s.slot, Register(s));
  }

  lemma {:induction false} RunKeepsInv(s: Sys, es: seq<Event>)
    requires SysInv(s) && AllowedRun(s, es)
    ensures SysInv(RunEvents(s, es)) && RunEvents(s, es).slot.pre == s.slot.pre
      && RunEvents(s, es).slot.post == s.slot.post
    ensures RunEvents(s, es).slot.chan == s.slot.chan
    decreases |es|
  {
    if es != [] {
      if es[0].Edge? {
        EdgeStep(s, es[0]);
      } else {
        PassStep(s);
        PassKeeps(s.slot, Register(s));
      }
      RunKeepsInv(After(s, es[0]), es[1..]);
    }
  }

  // ---------------------------------------------------------------------------
  // Which triggers are seen
  // ---------------------------------------------------------------------------

  lemma SameSlot(a: nat, b: nat)
    ensures SlotAddress(a) == SlotAddress(b) <==> a % WRITER_SLOTS == b % WRITER_SLOTS
  {
  }

  /**
   With a trigger in the latch, an idle slot starts a capture in its next pass exactly when it has served nothing yet,
   or the trigger's sample and the one it served last differ modulo 200,001.
   */
  lemma TriggerSeen(s: Sys)
    requires SysInv(s) && Quiet(s.slot) && Register(s) != 0
    ensures Detects(s.slot, Register(s)) <==>
      s.slot.addrLast == 0 || s.latched % WRITER_SLOTS != s.captured % WRITER_SLOTS
  {
    SameSlot(s.latched, s.captured);
  }

  /** The same over every run. */
  lemma TriggersSeen(s0: Sys, run: seq<Event>)
    requires Start(s0) && AllowedRun(s0, run)
    ensures var s := RunEvents(s0, run);
      Quiet(s.slot) && Register(s) != 0 ==>
        (Detects(s.slot, Register(s)) <==>
           s.slot.addrLast == 0 || s.latched % WRITER_SLOTS != s.captured % WRITER_SLOTS)
  {
    RunKeepsInv(s0, run);
    var s := RunEvents(s0, run);
    if Quiet(s.slot) && Register(s) != 0 {
      TriggerSeen(s);
    }
  }

  /**
    A trigger any number of whole rounds of the ring behind the one served last is missed: the pass changes
    nothing.
  */
  lemma TriggerMissed(s: Sys, rounds: nat)
    requires SysInv(s) && Quiet(s.slot) && Register(s) != 0 && s.slot.addrLast != 0
    requires s.latched == s.captured + rounds * WRITER_SLOTS
    ensures !Detects(s.slot, Register(s)) && !Sends(s.slot, Register(s))
    ensures Pass(s.slot, Register(s)) == s.slot.(addr := s.slot.addrLast) && OnPass(s).captured == s.captured
  {
    WholeRounds(s.captured, rounds);
    TriggerSeen(s);
  }

  lemma {:induction false} WholeRounds(k: nat, rounds: nat)
    ensures (k + rounds * WRITER_SLOTS) % WRITER_SLOTS == k % WRITER_SLOTS
    decreases rounds
  {
    if rounds > 0 {
      WholeRounds(k, rounds - 1);
      assert k + rounds * WRITER_SLOTS == k + (rounds - 1) * WRITER_SLOTS + WRITER_SLOTS;
    }
  }

  // ---------------------------------------------------------------------------
  // A trigger is served
  // ---------------------------------------------------------------------------

  /** A rise of the line latches the newest started sample, and the time of that edge. */
  lemma RiseLatched(s: Sys, low: Event, high: Event)
    requires SysInv(s) && low.Edge? && Legal(s.bus, low.i) && !low.latchReset && !low.trig
    requires high.Edge? && Legal(Clock(s.bus, low.i), high.i) && !high.latchReset && high.trig
    requires Started(Clock(s.bus, low.i)) > 0
    ensures var t := Started(Clock(s.bus, low.i)) - 1; var m := OnEdge(OnEdge(s, low), high);
      && SysInv(m) && m.latched == t && m.slot == s.slot && m.captured == s.captured
      && m.line.stamp == Stamp(SlotAddress(t), high.sec, high.nsec)
  {
    EdgeStep(s, low);
    EdgeStep(OnEdge(s, low), high);
  }

  /** Edges only, without a reset of the latch and without a further rise. */
  ghost predicate NoRise(s: Sys, es: seq<Event>)
    requires AllowedRun(s, es)
    decreases |es|
  {
    es == [] || (es[0].Edge? && !es[0].latchReset && (es[0].trig ==> s.line.prev) && NoRise(After(s, es[0]), es[1..]))
  }

  lemma {:induction false} LatchedStays(s: Sys, es: seq<Event>)
    requires SysInv(s) && AllowedRun(s, es) && NoRise(s, es)
    ensures var m := RunEvents(s, es);
      && SysInv(m) && m.slot == s.slot && m.captured == s.captured && m.latched == s.latched
      && Register(m) == Register(s)
    decreases |es|
  {
    if es != [] {
      EdgeStep(s, es[0]);
      LatchedStays(After(s, es[0]), es[1..]);
    }
  }

  /** What the passes of a run poll. */
  ghost function Polls(s: Sys, es: seq<Event>): seq<u32>
    requires AllowedRun(s, es)
    decreases |es|
  {
    if es == [] then []
    else (if es[0].FirmwarePass? then [Register(s)] else []) + Polls(After(s, es[0]), es[1..])
  }

  /** In a capture, up to its last pass, only the delay counter of the slot moves. */
  lemma {:induction false} CaptureWaits(s: Sys, es: seq<Event>)
    requires AllowedRun(s, es) && SlotInv(s.slot) && s.slot.active
    requires |Polls(s, es)| <= Delay(s.slot) - s.slot.postdlycnt
    ensures var m := RunEvents(s, es);
      m.slot == s.slot.(postdlycnt := s.slot.postdlycnt + |Polls(s, es)|) && m.captured == s.captured
    decreases |es|
  {
    if es != [] {
      var m := After(s, es[0]);
      assert |Polls(s, es)| == |Polls(m, es[1..])| + if es[0].FirmwarePass? then 1 else 0;
      CaptureWaits(m, es[1..]);
    }
  }

  /**
   Every trigger that is seen is served: a rise of the line, edges without a further one, and a pass of a quiet slot.
   After that pass, whatever else happens, `post / 1000 - 1` passes send nothing, and the next one sends the window
   around the sample that was newest at the rise.
   */
  lemma TriggerServed(s: Sys, low: Event, high: Event, held: seq<Event>, wait: seq<Event>)
    requires SysInv(s) && low.Edge? && Legal(s.bus, low.i) && !low.latchReset && !low.trig
    requires high.Edge? && Legal(Clock(s.bus, low.i), high.i) && !high.latchReset && high.trig
    requires Started(Clock(s.bus, low.i)) > 0 && Quiet(s.slot) && Serves(s.slot.pre, s.slot.post)
    requires var t := Started(Clock(s.bus, low.i)) - 1;
      s.slot.addrLast == 0 || t % WRITER_SLOTS != s.captured % WRITER_SLOTS
    requires var a := OnEdge(OnEdge(s, low), high); AllowedRun(a, held) && NoRise(a, held)
    requires var b := RunEvents(OnEdge(OnEdge(s, low), high), held); PassTiming(b) && AllowedRun(OnPass(b), wait)
    requires var b := RunEvents(OnEdge(OnEdge(s, low), high), held);
      |Polls(OnPass(b), wait)| == s.slot.post / 1000 - 1
    ensures var t := Started(Clock(s.bus, low.i)) - 1;
      var b := RunEvents(OnEdge(OnEdge(s, low), high), held);
      var m := RunEvents(OnPass(b), wait);
      && !Sends(b.slot, Register(b)) && CountSends(OnPass(b).slot, Polls(OnPass(b), wait)) == 0
      && Sends(m.slot, Register(m)) && OnPass(m).captured == t && OnPass(m).slot.addr == SlotAddress(t)
  {
    RiseLatched(s, low, high);
    var a := OnEdge(OnEdge(s, low), high);
    LatchedStays(a, held);
    var b := RunEvents(a, held);
    TriggerSeen(b);
    PassKeeps(b.slot, Register(b));
    CaptureWaits(OnPass(b), wait);
    WaitingPasses(OnPass(b).slot, Polls(OnPass(b), wait));
  }

  // ---------------------------------------------------------------------------
  // The samples a window shows
  // ---------------------------------------------------------------------------

  /** The writer's extra slot, which the reader never visits. */
  predicate Hidden(k: nat) {
    Slot(k) == READER_SLOTS
  }

  /** The next sample the reader can see. */
  function NextShown(k: nat): nat {
    if Hidden(k + 1) then k + 2 else k + 1
  }

  /** The sample in row `r` of the window of a trigger at sample `t`. */
  function Shown(t: nat, pre: nat, r: nat): (k: int)
    requires pre < t
    ensures k >= 0
  {
    var s := Slot(t);
    if r < pre then (if s < pre - r then t - pre + r - 1 else t - pre + r)
    else if s + (r - pre) >= READER_SLOTS then t - pre + r + 1
    else t - pre + r
  }

  lemma SlotShift(t: nat, d: int)
    requires 0 <= t + d && -WRITER_SLOTS <= d <= WRITER_SLOTS
    ensures Slot(t + d) ==
      if Slot(t) + d < 0 then Slot(t) + d + WRITER_SLOTS
      else if Slot(t) + d < WRITER_SLOTS then Slot(t) + d
      else Slot(t) + d - WRITER_SLOTS
  {
  }

  /** Row `r` reads the slot where the recorder put the sample `Shown` names. */
  lemma ShownSlot(t: nat, pre: nat, post: nat, r: nat)
    requires pre < t && pre + post <= READER_SLOTS && r < pre + post
    ensures Slot(Shown(t, pre, r)) == SnapshotCopy.WindowSlot(Slot(t), pre, r)
  {
    SlotShift(t, Shown(t, pre, r) - t);
  }

  lemma NextRow(t: nat, pre: nat, post: nat, r: nat)
    requires pre < t && pre + post <= READER_SLOTS && r + 1 < pre + post
    ensures Shown(t, pre, r + 1) == NextShown(Shown(t, pre, r))
  {
  }

  /**
   The window is the run of shown samples through the trigger: every row is the sample after the row
   before it, less the hidden one; row `pre` is the trigger's sample, or its successor if that one is hidden.
   */
  lemma WindowConsecutive(t: nat, pre: nat, post: nat)
    requires pre < t && 0 < post && pre + post <= READER_SLOTS
    ensures Shown(t, pre, pre) == if Hidden(t) then t + 1 else t
    ensures forall r :: 0 <= r < pre + post ==> !Hidden(Shown(t, pre, r))
    ensures forall r :: 0 <= r < pre + post - 1 ==> Shown(t, pre, r + 1) == NextShown(Shown(t, pre, r))
  {
    forall r | 0 <= r < pre + post
      ensures !Hidden(Shown(t, pre, r))
    {
      ShownSlot(t, pre, post, r);
    }
    forall r | 0 <= r < pre + post - 1
      ensures Shown(t, pre, r + 1) == NextShown(Shown(t, pre, r))
    {
      NextRow(t, pre, post, r);
    }
  }

  /** If no sample from the window's reach is hidden, row `r` is sample `t - pre + r`. */
  lemma PlainRow(t: nat, pre: nat, post: nat, r: nat)
    requires pre < t && pre + post <= READER_SLOTS && r < pre + post
    requires forall k :: t - pre <= k < t + post ==> !Hidden(k)
    ensures Shown(t, pre, r) == t - pre + r
  {
    var s := Slot(t);
    if r < pre && s < pre - r {
      SlotShift(t, -s - 1);
      assert Hidden(t - s - 1);
    } else if r >= pre && s + (r - pre) >= READER_SLOTS {
      SlotShift(t, READER_SLOTS - s);
      assert Hidden(t + READER_SLOTS - s);
    }
  }

  /** The rows are `t - pre` to `t + post - 1` exactly when none of these samples is hidden. */
  lemma WindowPlain(t: nat, pre: nat, post: nat)
    requires pre < t && 0 < post && pre + post <= READER_SLOTS
    ensures (forall r :: 0 <= r < pre + post ==> Shown(t, pre, r) == t - pre + r)
            <==> (forall k :: t - pre <= k < t + post ==> !Hidden(k))
  {
    if forall k :: t - pre <= k < t + post ==> !Hidden(k) {
      forall r | 0 <= r < pre + post
        ensures Shown(t, pre, r) == t - pre + r
      {
        PlainRow(t, pre, post, r);
      }
    }
    if forall r :: 0 <= r < pre + post ==> Shown(t, pre, r) == t - pre + r {
      WindowConsecutive(t, pre, post);
      forall k | t - pre <= k < t + post
        ensures !Hidden(k)
      {
        assert Shown(t, pre, k - (t - pre)) == k;
      }
    }
  }

  // ---------------------------------------------------------------------------
  // Main result
  // ---------------------------------------------------------------------------

  /** At a send, the window is complete, and `COPY_SLACK` more samples overwrite nothing of it. */
  lemma SendTiming(s: Sys)
    requires SysInv(s) && PassTiming(s) && Sends(s.slot, Register(s)) && Serves(s.slot.pre, s.slot.post)
    requires OnPass(s).slot.addr != 0
    ensures var t := OnPass(s).captured; var n := Started(s.bus);
      && OnPass(s).slot.addr == SlotAddress(t)
      && t + s.slot.post + 2 <= n
      && n + COPY_SLACK <= t + READER_SLOTS - s.slot.pre
  {
    PassKeeps(s.slot, Register(s));
  }

  /** Every row's sample is stored whole at a send, and stays until `COPY_SLACK` more samples have started. */
  lemma RowsStored(bus: Bus, t: nat, pre: nat, post: nat, r: nat)
    requires Inv(bus) && pre < t && pre + post <= READER_SLOTS && r < pre + post
    requires t + post + 2 <= Started(bus) <= t + READER_SLOTS - pre
    ensures Shown(t, pre, r) < |bus.frames|
    ensures InMemory(bus.mem, Shown(t, pre, r), bus.frames[Shown(t, pre, r)])
    ensures IsFrame(bus.frames[Shown(t, pre, r)])
    ensures Shown(t, pre, r) >= bus.epoch ==> bus.frames[Shown(t, pre, r)].count == CountOf(Shown(t, pre, r), bus.epoch)
  {
  }

  /** Clock edges only, while the firmware copies. */
  ghost predicate EdgesOnly(es: seq<Event>) {
    forall k :: 0 <= k < |es| ==> es[k].Edge?
  }

  lemma {:induction false} CopyPhase(s: Sys, es: seq<Event>)
    requires SysInv(s) && AllowedRun(s, es) && EdgesOnly(es)
    ensures SysInv(RunEvents(s, es)) && s.bus.frames <= RunEvents(s, es).bus.frames
    ensures RunEvents(s, es).slot == s.slot && RunEvents(s, es).captured == s.captured
    ensures Started(s.bus) <= Started(RunEvents(s, es).bus)
    decreases |es|
  {
    if es != [] {
      EdgeStep(s, es[0]);
      Step(s.bus, es[0].i);
      CopyPhase(After(s, es[0]), es[1..]);
    }
  }

  /**
   End to end, over every run, resets included: take any run up to a pass that sends a captured trigger, with more than
   `pre` samples before the trigger's sample `t`, and any moment of the copy after it. Row `r` then shows, word for
   word, the frame the recorder stored for sample `Shown(t, pre, r)`, which was whole when the pass began.
   */
  lemma EndToEnd(s0: Sys, run: seq<Event>, copy: seq<Event>, r: nat)
    requires Start(s0) && Serves(s0.slot.pre, s0.slot.post) && s0.slot.pre + s0.slot.post <= READER_SLOTS
    requires AllowedRun(s0, run) && PassTiming(RunEvents(s0, run))
    requires Sends(RunEvents(s0, run).slot, Register(RunEvents(s0, run))) && OnPass(RunEvents(s0, run)).slot.addr != 0
    requires s0.slot.pre < OnPass(RunEvents(s0, run)).captured && r < s0.slot.pre + s0.slot.post
    requires AllowedRun(OnPass(RunEvents(s0, run)), copy) && EdgesOnly(copy)
    requires Started(RunEvents(OnPass(RunEvents(s0, run)), copy).bus) <= Started(RunEvents(s0, run).bus) + COPY_SLACK
    ensures var sending := OnPass(RunEvents(s0, run));
      var now := RunEvents(sending, copy);
      var t := sending.captured;
      var k := Shown(t, s0.slot.pre, r);
      && sending.slot.addr == SlotAddress(t)
      && k < |sending.bus.frames| && IsFrame(sending.bus.frames[k])
      && (k >= sending.bus.epoch ==> sending.bus.frames[k].count == CountOf(k, sending.bus.epoch))
      && SnapshotCopy.WindowSlot(Slot(t), s0.slot.pre, r) == Slot(k)
      && InMemory(now.bus.mem, k, sending.bus.frames[k])
  {
    RunKeepsInv(s0, run);
    var s := RunEvents(s0, run);
    SendTiming(s);
    PassStep(s);
    var sending := OnPass(s);
    var t := sending.captured;
    CopyPhase(sending, copy);
    var now := RunEvents(sending, copy);
    RowsStored(sending.bus, t, s0.slot.pre, s0.slot.post, r);
    RowsStored(now.bus, t, s0.slot.pre, s0.slot.post, r);
    ShownSlot(t, s0.slot.pre, s0.slot.post, r);
  }

  /** What cell `c` of a row shows of a stored frame: header, count, or a converter value of its channel. */
  function CellOfFrame(frame: Frame, chan: nat, c: nat): SnapshotCopy.Cell
    requires IsFrame(frame) && 1 <= chan <= 4 && c < SnapshotCopy.COLUMNS
  {
    if c == 0 then SnapshotCopy.Plain(0x8000_0000)
    else if c == 1 then SnapshotCopy.Plain(frame.count)
    else SnapshotCopy.Scaled(
      Column(ChannelOf(frame.taken[2 + 8 * (chan - 1) + (c - 2)], chan), c - 2),
      if c < 4 then SnapshotCopy.DacBits else SnapshotCopy.Bits16,
      [SnapshotCopy.DacDccts, SnapshotCopy.DacDccts, SnapshotCopy.DacDccts, SnapshotCopy.Vout,
       SnapshotCopy.Ignd, SnapshotCopy.Spare, SnapshotCopy.Regulator, SnapshotCopy.Error][c - 2],
      chan)
  }

  /** The copied row of a stored frame shows the converter values that the recorder sampled for it. */
  lemma RowShowsSamples(mem: seq<u32>, k: nat, frame: Frame, chan: nat, c: nat)
    requires InMemory(mem, k, frame) && IsFrame(frame) && 1 <= chan <= 4 && c < SnapshotCopy.COLUMNS
    ensures SnapshotCopy.CellAt(mem, SnapshotCopy.WORDS_PER_SAMPLE * Slot(k), chan, c) == CellOfFrame(frame, chan, c)
  {
    var j := if c < 2 then c else 2 + 8 * (chan - 1) + (c - 2);
    assert mem[Slot(k) * BURST_LEN + j] == frame.words[j] == WordValue(j, frame.count, frame.taken[j]);
    if c >= 2 {
      ColumnPosition(frame.taken[j], frame.count, chan, c - 2);
    }
  }

  /**
   The same from converter to float: every cell of a message, read from memory at a moment of the copy phase that may be
   its own, holds the value sampled for the shown sample.
   */
  lemma Waveform(s0: Sys, run: seq<Event>, copy: seq<Event>, out: seq<SnapshotCopy.Float>, r: nat, c: nat)
    requires Start(s0) && Serves(s0.slot.pre, s0.slot.post) && s0.slot.pre + s0.slot.post <= READER_SLOTS
    requires AllowedRun(s0, run) && PassTiming(RunEvents(s0, run))
    requires Sends(RunEvents(s0, run).slot, Register(RunEvents(s0, run))) && OnPass(RunEvents(s0, run)).slot.addr != 0
    requires s0.slot.pre < OnPass(RunEvents(s0, run)).captured && r < s0.slot.pre + s0.slot.post
    requires AllowedRun(OnPass(RunEvents(s0, run)), copy) && EdgesOnly(copy)
    requires Started(RunEvents(OnPass(RunEvents(s0, run)), copy).bus) <= Started(RunEvents(s0, run).bus) + COPY_SLACK
    requires 1 <= s0.slot.chan <= 4 && c < SnapshotCopy.COLUMNS
    requires var mem := RunEvents(OnPass(RunEvents(s0, run)), copy).bus.mem;
      var slot := SnapshotCopy.WindowSlot(Slot(OnPass(RunEvents(s0, run)).captured), s0.slot.pre, r);
      && |mem| == WRITER_SLOTS * BURST_LEN && SnapshotCopy.COLUMNS * r + c < |out|
      && out[SnapshotCopy.COLUMNS * r + c] ==
           SnapshotCopy.Network(SnapshotCopy.CellAt(mem, SnapshotCopy.WORDS_PER_SAMPLE * slot, s0.slot.chan, c))
    ensures var sending := OnPass(RunEvents(s0, run));
      var k := Shown(sending.captured, s0.slot.pre, r);
      && k < |sending.bus.frames| && IsFrame(sending.bus.frames[k])
      && out[SnapshotCopy.COLUMNS * r + c] ==
           SnapshotCopy.Network(CellOfFrame(sending.bus.frames[k], s0.slot.chan, c))
  {
    EndToEnd(s0, run, copy, r);
    var sending := OnPass(RunEvents(s0, run));
    var k := Shown(sending.captured, s0.slot.pre, r);
    RowShowsSamples(RunEvents(sending, copy).bus.mem, k, sending.bus.frames[k], s0.slot.chan, c);
  }
}
