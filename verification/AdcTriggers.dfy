/**
 Which triggers of the recorder start a frame, and that a frame that was started is stored: counted from the inputs.
 */
module AdcTriggers {
  import opened Words
  import opened AdcWriter
  import opened AdcWriterProofs

  // ---------------------------------------------------------------------------
  // One trigger
  // ---------------------------------------------------------------------------

  /** From any idle state a low trigger and then a high one start a frame at the ring address. */
  lemma RiseStarts(w: Writer, low: Input, high: Input)
    requires w.phase == Idle && !low.reset && !low.trigger && !high.reset && high.trigger
    ensures Next(w, low).phase == Idle
    ensures var t := Next(Next(w, low), high);
      && t.phase == Address && t.awvalid && t.awaddr == w.addrBase && t.addrPtr == w.addrBase
      && t.tenkhzcnt == w.datacnt && t.datacnt == (w.datacnt + 1) % TWO_32
  {
  }

  /** In the ring, the slot behind the stored frames is the one started. */
  lemma RiseStartsFrame(b: Bus, low: Input, high: Input)
    requires Inv(b) && b.w.phase == Idle && !low.reset && !low.trigger && !high.reset && high.trigger
    requires !low.bvalid && !high.bvalid
    ensures var c := Clock(Clock(b, low), high);
      && c.frames == b.frames && Started(c) == |b.frames| + 1
      && c.w.phase == Address && c.w.awvalid
      && c.w.awaddr == c.w.addrPtr == 0x1000_0000 + 160 * (|b.frames| % 200_001)
  {
  }

  // ---------------------------------------------------------------------------
  // All triggers of a run
  // ---------------------------------------------------------------------------

  /** What the recorder sees of the trigger: its level at the idle clocks without a reset. */
  function Seen(w: Writer, ins: seq<Input>): seq<bool>
    decreases |ins|
  {
    if ins == [] then []
    else (if w.phase.Idle? && !ins[0].reset then [ins[0].trigger] else []) + Seen(Next(w, ins[0]), ins[1..])
  }

  /** Rises of a signal that was at `last` before. */
  function Rises(last: bool, levels: seq<bool>): nat
    decreases |levels|
  {
    if levels == [] then 0 else (if levels[0] && !last then 1 else 0) + Rises(levels[0], levels[1..])
  }

  /** Frames started: how often `awvalid` goes high. */
  function Starts(w: Writer, ins: seq<Input>): nat
    decreases |ins|
  {
    if ins == [] then 0
    else (if !w.awvalid && Next(w, ins[0]).awvalid then 1 else 0) + Starts(Next(w, ins[0]), ins[1..])
  }

  lemma {:induction false} StartsFrom(w: Writer, ins: seq<Input>)
    requires w.awvalid <==> w.phase.Address?
    ensures Starts(w, ins) == Rises(w.prevTrigger, Seen(w, ins))
    decreases |ins|
  {
    if ins != [] {
      var rest := Seen(Next(w, ins[0]), ins[1..]);
      StartsFrom(Next(w, ins[0]), ins[1..]);
      if w.phase.Idle? && !ins[0].reset {
        assert ([ins[0].trigger] + rest)[1..] == rest;
      } else {
        assert [] + rest == rest;
      }
    }
  }

  /** After every run from power-up, resets included: one frame for each rise of the trigger seen in IDLE, no other. */
  lemma StartsAreRises(ins: seq<Input>)
    ensures Starts(POWER_UP, ins) == Rises(false, Seen(POWER_UP, ins))
  {
    StartsFrom(POWER_UP, ins);
  }

  lemma {:induction false} HighRises(last: bool, levels: seq<bool>)
    requires false !in levels
    ensures Rises(last, levels) <= if last then 0 else 1
    decreases |levels|
  {
    if levels != [] {
      assert levels[0] in levels;
      HighRises(true, levels[1..]);
    }
  }

  lemma {:induction false} SeenLevels(w: Writer, ins: seq<Input>)
    requires forall k :: 0 <= k < |ins| ==> ins[k].trigger
    ensures false !in Seen(w, ins)
    decreases |ins|
  {
    if ins != [] {
      SeenLevels(Next(w, ins[0]), ins[1..]);
    }
  }

  /** A trigger that is held high starts one frame at most, whatever else happens. */
  lemma HeldStartsOne(ins: seq<Input>)
    requires forall k :: 0 <= k < |ins| ==> ins[k].trigger
    ensures Starts(POWER_UP, ins) <= 1
  {
    StartsAreRises(ins);
    SeenLevels(POWER_UP, ins);
    HighRises(false, Seen(POWER_UP, ins));
  }

  // ---------------------------------------------------------------------------
  // A frame that was started
  // ---------------------------------------------------------------------------

  /** The handshake that a state waits for. */
  predicate Served(w: Writer, i: Input) {
    match w.phase
    case Idle => false
    case Address => i.awready
    case Word(_) => i.wready
    case AwaitResp => i.bvalid
  }

  /** Handshakes left to the end of the frame: the address, 40 words, the response. */
  function Remaining(w: Writer): int {
    match w.phase
    case Idle => 0
    case Address => 42
    case Word(k) => 41 - k
    case AwaitResp => 1
  }

  function Handshakes(w: Writer, ins: seq<Input>): nat
    decreases |ins|
  {
    if ins == [] then 0 else (if Served(w, ins[0]) then 1 else 0) + Handshakes(Next(w, ins[0]), ins[1..])
  }

  /** The converter values at the clocks of a run that take a word. */
  function Sampled(w: Writer, ins: seq<Input>): seq<Adcs>
    decreases |ins|
  {
    if ins == [] then []
    else (if w.phase.Word? && ins[0].wready then [ins[0].adcs] else []) + Sampled(Next(w, ins[0]), ins[1..])
  }

  /** The run lies within one frame: no reset, and no clock of it is idle. */
  ghost predicate Within(w: Writer, ins: seq<Input>)
    decreases |ins|
  {
    ins == [] || (!w.phase.Idle? && !ins[0].reset && Within(Next(w, ins[0]), ins[1..]))
  }

  /** From `b` to `r`, `n` handshakes and the words of `taken` later: the same frame, or the frame stored. */
  predicate Grown(b: Bus, r: Bus, n: nat, taken: seq<Adcs>) {
    && Remaining(r.w) == Remaining(b.w) - n
    && if r.w.phase.Idle? then r.frames == b.frames + [r.loaded] && r.loaded.taken == b.loaded.taken + taken
       else r.frames == b.frames && r.loaded.taken == b.loaded.taken + taken
  }

  lemma FrameClock(b: Bus, i: Input)
    requires Inv(b) && Legal(b, i) && !b.w.phase.Idle? && !i.reset
    ensures Clock(b, i).w == Next(b.w, i)
    ensures Grown(b, Clock(b, i), if Served(b.w, i) then 1 else 0,
                  if b.w.phase.Word? && i.wready then [i.adcs] else [])
  {
  }

  lemma GrownOn(b: Bus, c: Bus, r: Bus, m: nat, n: nat, first: seq<Adcs>, rest: seq<Adcs>)
    requires Grown(b, c, m, first) && !c.w.phase.Idle? && Grown(c, r, n, rest)
    ensures Grown(b, r, m + n, first + rest)
  {
    assert b.loaded.taken + first + rest == b.loaded.taken + (first + rest);
  }

  /** The bus behind the first clock of a run, and what the clock has added. */
  lemma FirstClock(b: Bus, ins: seq<Input>) returns (c: Bus, n: nat, first: seq<Adcs>)
    requires Inv(b) && LegalRun(b, ins) && Within(b.w, ins) && !b.w.phase.Idle? && ins != []
    ensures Inv(c) && LegalRun(c, ins[1..]) && Within(c.w, ins[1..]) && Run(b, ins) == Run(c, ins[1..])
    ensures c.w.phase.Idle? ==> ins[1..] == []
    ensures Grown(b, c, n, first)
    ensures Handshakes(b.w, ins) == n + Handshakes(c.w, ins[1..])
    ensures Sampled(b.w, ins) == first + Sampled(c.w, ins[1..])
  {
    Step(b, ins[0]);
    FrameClock(b, ins[0]);
    c := Clock(b, ins[0]);
    n := if Served(b.w, ins[0]) then 1 else 0;
    first := if b.w.phase.Word? && ins[0].wready then [ins[0].adcs] else [];
  }

  lemma {:induction false} FrameProgress(b: Bus, ins: seq<Input>)
    requires Inv(b) && LegalRun(b, ins) && Within(b.w, ins) && !b.w.phase.Idle?
    ensures Grown(b, Run(b, ins), Handshakes(b.w, ins), Sampled(b.w, ins))
    decreases |ins|
  {
    if ins != [] {
      var c, n, first := FirstClock(b, ins);
      if c.w.phase.Idle? {
        assert first + [] == first;
      } else {
        FrameProgress(c, ins[1..]);
        GrownOn(b, c, Run(c, ins[1..]), n, Handshakes(c.w, ins[1..]), first, Sampled(c.w, ins[1..]));
      }
    }
  }

  /**
   A frame that was started is stored with its 42nd handshake and not before, however long the slave takes for each, and
   holds the converter values of the clocks that took its words.
   */
  lemma StartedIsStored(b: Bus, ins: seq<Input>)
    requires Inv(b) && b.w.phase == Address && LegalRun(b, ins) && Within(b.w, ins)
    ensures var r := Run(b, ins); var n := Handshakes(b.w, ins);
      && n <= 42 && (r.w.phase.Idle? <==> n == 42)
      && if n < 42 then r.frames == b.frames
         else |r.frames| == |b.frames| + 1 && b.frames <= r.frames && IsFrame(r.frames[|b.frames|])
              && r.frames[|b.frames|].taken == Sampled(b.w, ins)
  {
    FrameProgress(b, ins);
    RecorderRun(b, ins);
    EmptyAtStart(b);
    StoredAreFrames(Run(b, ins));
  }

  lemma EmptyAtStart(b: Bus)
    requires Inv(b) && b.w.phase == Address
    ensures b.loaded.taken == []
  {
  }

  lemma StoredAreFrames(b: Bus)
    requires Inv(b)
    ensures forall k :: 0 <= k < |b.frames| ==> IsFrame(b.frames[k])
    ensures Remaining(b.w) >= 0 && (Remaining(b.w) == 0 <==> b.w.phase.Idle?)
  {
  }

  // ---------------------------------------------------------------------------
  // Starts, frames and resets
  // ---------------------------------------------------------------------------

  /** Frames that a reset cuts short. */
  function Cuts(b: Bus, ins: seq<Input>): nat
    decreases |ins|
  {
    if ins == [] then 0
    else (if ins[0].reset && !b.w.phase.Idle? then 1 else 0) + Cuts(Clock(b, ins[0]), ins[1..])
  }

  function Busy(b: Bus): nat {
    if b.w.phase.Idle? then 0 else 1
  }

  lemma OneClock(b: Bus, i: Input)
    requires Inv(b) && Legal(b, i)
    ensures var c := Clock(b, i);
      && c.w == Next(b.w, i)
      && Busy(b) + |b.frames| + (if !b.w.awvalid && c.w.awvalid then 1 else 0)
         == Busy(c) + |c.frames| + if i.reset && !b.w.phase.Idle? then 1 else 0
  {
  }

  /** Over every run each start is a stored frame, the frame in progress, or one that a reset has cut short. */
  lemma {:induction false} EveryStart(b: Bus, ins: seq<Input>)
    requires Inv(b) && LegalRun(b, ins)
    ensures var r := Run(b, ins);
      Busy(b) + |b.frames| + Starts(b.w, ins) == Busy(r) + |r.frames| + Cuts(b, ins)
    decreases |ins|
  {
    if ins != [] {
      Step(b, ins[0]);
      OneClock(b, ins[0]);
      EveryStart(Clock(b, ins[0]), ins[1..]);
    }
  }
}
