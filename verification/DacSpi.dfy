/**
 The SPI sender of dac_ad5781.vhd: for every start, a control word and a setpoint word of 24 bits
 each, shifted out most significant bit first and sampled by the DAC on the falling clock edge.

 Words are lists of bits, the first one the most significant.
 */
module DacSpi {
  import opened Words

  const CLK_DIV := 5
  const SYNC_WIDTH := 10
  const BITS := 24

  type Word = w: seq<bool> | |w| == BITS witness seq(BITS, _ => false)
  type Data = d: seq<bool> | |d| == 20 witness seq(20, _ => false)

  datatype Phase = Idle | SendCtrl | SendSetpoint | NSyncZero | FirstBit | SclkLo | SclkHi | DacDone | WaitSyncLow

  /** The control bits in the order bin2sc, rbuf, dac_tri, sdo_dis, op_gnd. */
  datatype Control = Control(bin2sc: bool, rbuf: bool, dacTri: bool, sdoDis: bool, opGnd: bool)

  datatype State = State(
    phase: Phase, data: Data, control: Control, shift: Word, bitCount: nat, clkCount: nat, initCount: nat,
    setpointSent: bool, nSync: bool, sclk: bool, done: bool)

  datatype Input = Input(reset: bool, start: bool, data: Data, control: Control)

  /** 0x400004, the first word after a reset, and 0x400000. */
  const RESET_WORD: Word := [false, true] + Zeros(19) + [true, false, false]
  const CLEAR_RESET_WORD: Word := [false, true] + Zeros(22)

  function ControlWord(c: Control): Word {
    [false, false, true, false] + Zeros(10) + Zeros(4) + [c.sdoDis, c.bin2sc, c.dacTri, c.opGnd, c.rbuf, false]
  }

  function SetpointWord(d: Data): Word {
    [false, false, false, true] + d
  }

  function OnIdle(s: State, i: Input): State {
    var t := s.(done := false);
    if !i.start then t
    else if s.initCount == 0 then t.(nSync := true, shift := RESET_WORD, phase := NSyncZero)
    else if s.initCount == 1 then t.(nSync := true, shift := CLEAR_RESET_WORD, phase := NSyncZero)
    else t.(nSync := true, phase := SendCtrl)
  }

  /** The end of the high half of a clock: the next bit, or the end of the word. */
  function EndOfHigh(s: State): State {
    if s.bitCount == BITS then
      s.(initCount := if s.initCount == 2 then 2 else s.initCount + 1, bitCount := 0, phase := DacDone, clkCount := 0)
    else s.(sclk := false, bitCount := s.bitCount + 1, phase := SclkLo, clkCount := 0)
  }

  /** The sending process. */
  function NextSend(s: State, i: Input): State {
    match s.phase
    case Idle => OnIdle(s, i)
    case SendCtrl => s.(shift := ControlWord(s.control), setpointSent := false, phase := NSyncZero)
    case SendSetpoint => s.(setpointSent := true, shift := SetpointWord(s.data), phase := NSyncZero)
    case NSyncZero =>
      if s.clkCount == SYNC_WIDTH then s.(nSync := false, clkCount := 0, sclk := true, phase := FirstBit)
      else s.(nSync := true, clkCount := s.clkCount + 1)
    case FirstBit =>
      if s.clkCount == CLK_DIV - 1 then s.(sclk := false, clkCount := 0, bitCount := s.bitCount + 1, phase := SclkLo)
      else s.(sclk := true, clkCount := s.clkCount + 1)
    case SclkHi =>
      if s.clkCount == CLK_DIV - 1 then EndOfHigh(s) else s.(sclk := true, clkCount := s.clkCount + 1)
    case SclkLo =>
      if s.clkCount == CLK_DIV - 1 then
        s.(sclk := true, clkCount := 0, shift := s.shift[1..] + [false], phase := SclkHi)
      else s.(sclk := false, clkCount := s.clkCount + 1)
    case DacDone =>
      if s.clkCount == SYNC_WIDTH - 1 then
        if !s.setpointSent then s.(clkCount := 0, nSync := true, phase := SendSetpoint)
        else s.(clkCount := 0, nSync := false, done := true, phase := WaitSyncLow)
      else s.(nSync := true, clkCount := s.clkCount + 1)
    case WaitSyncLow =>
      if s.clkCount == SYNC_WIDTH - 1 then s.(clkCount := 0, nSync := false, phase := Idle)
      else s.(nSync := false, clkCount := s.clkCount + 1)
  }

  /** One rising clock edge of both processes. */
  function Next(s: State, i: Input): State {
    if i.reset then
      s.(phase := Idle, initCount := 0, sclk := false, bitCount := 0, clkCount := 0, setpointSent := false,
         nSync := true, shift := Zeros(BITS), data := Zeros(20))
    else NextSend(s, i).(data := i.data, control := i.control)
  }

  class Ad5781 {
    var phase: Phase
    var data: Data
    var control: Control
    var shift: Word
    var bitCount: nat
    var clkCount: nat
    var initCount: nat
    var setpointSent: bool
    var nSync: bool
    var sclk: bool
    var done: bool

    ghost function View(): State
      reads this
    {
      State(phase, data, control, shift, bitCount, clkCount, initCount, setpointSent, nSync, sclk, done)
    }

    constructor ()
      ensures Ready(View())
    {
      phase, data, shift, control := Idle, Zeros(20), Zeros(BITS), Control(false, false, false, false, false);
      bitCount, clkCount, initCount := 0, 0, 0;
      setpointSent, nSync, sclk, done := false, true, false, false;
    }

    /** The states that clock a word out. */
    method ShiftOut(i: Input)
      requires phase == FirstBit || phase == SclkHi || phase == SclkLo
      modifies this
      ensures View() == NextSend(old(View()), i)
    {
      if clkCount != CLK_DIV - 1 {
        sclk := phase != SclkLo;
        clkCount := clkCount + 1;
        return;
      }
      clkCount := 0;
      if phase == SclkLo {
        sclk, shift, phase := true, shift[1..] + [false], SclkHi;
      } else if phase == SclkHi && bitCount == BITS {
        initCount := if initCount == 2 then 2 else initCount + 1;
        bitCount, phase := 0, DacDone;
      } else {
        sclk, bitCount, phase := false, bitCount + 1, SclkLo;
      }
    }

    /** The states around a word. */
    method Sequence(i: Input)
      requires phase != FirstBit && phase != SclkHi && phase != SclkLo
      modifies this
      ensures View() == NextSend(old(View()), i)
    {
      match phase
      case Idle =>
        done := false;
        if i.start {
          nSync := true;
          if initCount == 0 {
            shift, phase := RESET_WORD, NSyncZero;
          } else if initCount == 1 {
            shift, phase := CLEAR_RESET_WORD, NSyncZero;
          } else {
            phase := SendCtrl;
          }
        }
      case SendCtrl =>
        shift, setpointSent, phase := ControlWord(control), false, NSyncZero;
      case SendSetpoint =>
        shift, setpointSent, phase := SetpointWord(data), true, NSyncZero;
      case NSyncZero =>
        if clkCount == SYNC_WIDTH {
          nSync, clkCount, sclk, phase := false, 0, true, FirstBit;
        } else {
          nSync, clkCount := true, clkCount + 1;
        }
      case DacDone =>
        if clkCount == SYNC_WIDTH - 1 {
          clkCount := 0;
          if !setpointSent {
            nSync, phase := true, SendSetpoint;
          } else {
            nSync, done, phase := false, true, WaitSyncLow;
          }
        } else {
          nSync, clkCount := true, clkCount + 1;
        }
      case WaitSyncLow =>
        nSync := false;
        if clkCount == SYNC_WIDTH - 1 {
          clkCount, phase := 0, Idle;
        } else {
          clkCount := clkCount + 1;
        }
      case _ =>
    }

    method Tick(i: Input)
      modifies this
      ensures View() == Next(old(View()), i)
    {
      if i.reset {
        phase, initCount, sclk, bitCount, clkCount := Idle, 0, false, 0, 0;
        setpointSent, nSync, shift, data := false, true, Zeros(BITS), Zeros(20);
        return;
      }
      if phase == FirstBit || phase == SclkHi || phase == SclkLo {
        ShiftOut(i);
      } else {
        Sequence(i);
      }
      data, control := i.data, i.control;
    }
  }

  // ---------------------------------------------------------------------------
  // What the DAC sees
  // ---------------------------------------------------------------------------

  /** Between transactions: either no start since the reset, or both words of the last one sent. */
  predicate Ready(s: State) {
    && s.phase == Idle && s.bitCount == 0 && s.clkCount == 0
    && ((s.initCount == 0 && !s.setpointSent) || (s.initCount == 2 && s.setpointSent))
  }

  /**
   History of a transaction: words loaded, bits sampled of the present word, words sampled completely; whether it
   is the first one after a reset, and the control and data registers where they were loaded from.
   */
  datatype Sys = Sys(
    s: State, loads: seq<Word>, bits: seq<bool>, frames: seq<seq<bool>>, first: bool, control: Control, data: Data)

  predicate Loads(s: State, t: State) {
    s.phase != NSyncZero && t.phase == NSyncZero
  }

  /** A falling clock edge, where the DAC takes the bit on the data line. */
  predicate Falls(s: State, t: State) {
    s.sclk && !t.sclk
  }

  function Step(y: Sys, i: Input): Sys
    requires !i.reset
  {
    var t := Next(y.s, i);
    var begins := y.s.phase == Idle && i.start;
    var loads := (if begins then [] else y.loads) + (if Loads(y.s, t) then [t.shift] else []);
    var bits := if Loads(y.s, t) then [] else if Falls(y.s, t) then y.bits + [y.s.shift[0]] else y.bits;
    var frames := if begins then []
                  else if y.s.phase == SclkHi && t.phase == DacDone then y.frames + [y.bits] else y.frames;
    Sys(t, loads, bits, frames, if begins then y.s.initCount == 0 else y.first,
        if y.s.phase == SendCtrl then y.s.control else y.control,
        if y.s.phase == SendSetpoint then y.s.data else y.data)
  }

  /** The shift register after `k` shifts of `w`. */
  function Shifted(w: Word, k: nat): seq<bool>
    requires k <= BITS
  {
    w[k..] + Zeros(k)
  }

  /** The bits on the wire, against the word loaded last. */
  predicate WordInv(y: Sys) {
    var s := y.s;
    match s.phase
    case Idle => s.clkCount == 0 && s.bitCount == 0
    case SendCtrl => s.clkCount == 0 && s.bitCount == 0
    case SendSetpoint => s.clkCount == 0 && s.bitCount == 0
    case WaitSyncLow => s.clkCount < SYNC_WIDTH && s.bitCount == 0
    case DacDone => s.clkCount < SYNC_WIDTH && s.bitCount == 0
    case NSyncZero =>
      && s.clkCount <= SYNC_WIDTH && s.bitCount == 0 && y.bits == [] && y.loads != []
      && s.shift == y.loads[|y.loads| - 1]
    case FirstBit =>
      && s.clkCount < CLK_DIV && s.bitCount == 0 && y.bits == [] && y.loads != []
      && s.shift == y.loads[|y.loads| - 1] && s.sclk && !s.nSync
    case SclkLo =>
      && s.clkCount < CLK_DIV && 1 <= s.bitCount <= BITS && y.loads != [] && !s.sclk && !s.nSync
      && y.bits == y.loads[|y.loads| - 1][..s.bitCount] && s.shift == Shifted(y.loads[|y.loads| - 1], s.bitCount - 1)
    case SclkHi =>
      && s.clkCount < CLK_DIV && 1 <= s.bitCount <= BITS && y.loads != [] && s.sclk && !s.nSync
      && y.bits == y.loads[|y.loads| - 1][..s.bitCount] && s.shift == Shifted(y.loads[|y.loads| - 1], s.bitCount)
  }

  /** Which words of the transaction are loaded and which are complete. */
  predicate SequenceInv(y: Sys) {
    var s := y.s;
    && (forall k :: 0 <= k < |y.frames| && k < |y.loads| ==> y.frames[k] == y.loads[k])
    && match s.phase
       case Idle => (s.initCount == 0 && !s.setpointSent) || (s.initCount == 2 && s.setpointSent)
       case SendCtrl => y.frames == [] && y.loads == [] && s.initCount == 2
       case SendSetpoint => |y.frames| == |y.loads| == 1 && !s.setpointSent && 1 <= s.initCount <= 2
       case DacDone => |y.frames| == |y.loads| == (if s.setpointSent then 2 else 1)
                       && (if s.setpointSent then s.initCount == 2 else 1 <= s.initCount <= 2)
       case WaitSyncLow => |y.frames| == |y.loads| == 2 && s.setpointSent && s.initCount == 2
       case _ => |y.loads| == |y.frames| + 1 == (if s.setpointSent then 2 else 1)
                 && (if s.setpointSent then 1 <= s.initCount <= 2 else s.initCount == 0 || s.initCount == 2)
  }

  /** The words of a transaction: a control word, then 0001 and the twenty data bits. */
  function Expected(y: Sys): seq<Word> {
    [if y.first then RESET_WORD else ControlWord(y.control), SetpointWord(y.data)]
  }

  predicate ContentInv(y: Sys) {
    && (|y.loads| > 0 ==> y.loads[0] == Expected(y)[0])
    && (|y.loads| > 1 ==> y.loads[1] == Expected(y)[1])
    && (y.s.phase == SendCtrl ==> !y.first)
  }

  predicate Core(y: Sys) {
    WordInv(y) && SequenceInv(y)
  }

  predicate Inv(y: Sys) {
    Core(y) && ContentInv(y)
  }

  lemma ShiftOnce(w: Word, k: nat)
    requires k < BITS
    ensures Shifted(w, k)[1..] + [false] == Shifted(w, k + 1) && Shifted(w, k)[0] == w[k]
    ensures w[..k] + [w[k]] == w[..k + 1]
  {
  }

  lemma FirstShift(w: Word)
    ensures Shifted(w, 0) == w && w[..1] == [w[0]]
  {
  }

  /** Falling edges happen only while the DAC is selected. */
  lemma FallsSelected(y: Sys, i: Input)
    requires Inv(y) && !i.reset && Falls(y.s, Next(y.s, i))
    ensures !y.s.nSync && !Next(y.s, i).nSync && |y.bits| < BITS
  {
  }

  // ---------------------------------------------------------------------------
  // Progress
  // ---------------------------------------------------------------------------

  /** Clocks of one word from its load, and of the pause behind it. */
  const WORD_CLOCKS := SYNC_WIDTH + 1 + CLK_DIV + BITS * 2 * CLK_DIV

  function AfterWord(s: State): nat {
    if s.setpointSent then 2 * SYNC_WIDTH else SYNC_WIDTH + 1 + WORD_CLOCKS + 2 * SYNC_WIDTH
  }

  /** Clocks left until IDLE, whatever the inputs. */
  function Remaining(s: State): int {
    match s.phase
    case Idle => 0
    case SendCtrl => 1 + WORD_CLOCKS + SYNC_WIDTH + 1 + WORD_CLOCKS + 2 * SYNC_WIDTH
    case NSyncZero => WORD_CLOCKS - s.clkCount + AfterWord(s)
    case FirstBit => CLK_DIV - s.clkCount + BITS * 2 * CLK_DIV + AfterWord(s)
    case SclkLo => CLK_DIV - s.clkCount + CLK_DIV + (BITS - s.bitCount) * 2 * CLK_DIV + AfterWord(s)
    case SclkHi => CLK_DIV - s.clkCount + (BITS - s.bitCount) * 2 * CLK_DIV + AfterWord(s)
    case DacDone => SYNC_WIDTH - s.clkCount + AfterWord(s) - SYNC_WIDTH
    case SendSetpoint => 1 + WORD_CLOCKS + 2 * SYNC_WIDTH
    case WaitSyncLow => SYNC_WIDTH - s.clkCount
  }

  /** A step keeps the invariant and takes one clock off the rest of the transaction. */
  predicate Good(y: Sys, i: Input)
    requires !i.reset
  {
    Core(Step(y, i)) && Remaining(Next(y.s, i)) == Remaining(y.s) - 1
  }

  lemma StepIdle(y: Sys, i: Input)
    requires Core(y) && !i.reset && y.s.phase == Idle
    ensures Core(Step(y, i))
  {
  }

  lemma StepCtrl(y: Sys, i: Input)
    requires Core(y) && !i.reset && y.s.phase == SendCtrl
    ensures Good(y, i)
  {
  }

  lemma StepSetpoint(y: Sys, i: Input)
    requires Core(y) && !i.reset && y.s.phase == SendSetpoint
    ensures Good(y, i)
  {
  }

  lemma StepSync(y: Sys, i: Input)
    requires Core(y) && !i.reset && y.s.phase == NSyncZero
    ensures Good(y, i)
  {
    var t := Next(y.s, i);
    assert t.shift == y.s.shift && t.bitCount == 0 && t.setpointSent == y.s.setpointSent
      && t.initCount == y.s.initCount;
    assert Step(y, i).loads == y.loads && Step(y, i).bits == y.bits && Step(y, i).frames == y.frames;
  }

  /** Inside one half of a clock nothing is sampled, loaded or finished. */
  lemma StepInside(y: Sys, i: Input)
    requires Core(y) && !i.reset && y.s.clkCount < CLK_DIV - 1
    requires y.s.phase == FirstBit || y.s.phase == SclkLo || y.s.phase == SclkHi
    ensures Good(y, i)
  {
    var t := Next(y.s, i);
    assert t.phase == y.s.phase && t.shift == y.s.shift && t.sclk == y.s.sclk && t.clkCount == y.s.clkCount + 1;
    assert Step(y, i).loads == y.loads && Step(y, i).bits == y.bits && Step(y, i).frames == y.frames;
  }

  /** The end of the first half clock: the first falling edge. */
  lemma StepFirst(y: Sys, i: Input)
    requires Core(y) && !i.reset && y.s.phase == FirstBit && y.s.clkCount == CLK_DIV - 1
    ensures Good(y, i)
  {
    var w := y.loads[|y.loads| - 1];
    FirstShift(w);
    var t := Next(y.s, i);
    assert t.phase == SclkLo && t.shift == w && !t.sclk && !t.nSync && t.clkCount == 0 && t.bitCount == 1;
    assert t.setpointSent == y.s.setpointSent && t.initCount == y.s.initCount;
    assert Step(y, i).loads == y.loads && Step(y, i).bits == [w[0]] && Step(y, i).frames == y.frames;
  }

  /** The end of a low half: the rising edge shifts. */
  lemma StepLow(y: Sys, i: Input)
    requires Core(y) && !i.reset && y.s.phase == SclkLo && y.s.clkCount == CLK_DIV - 1
    ensures Good(y, i)
  {
    ShiftOnce(y.loads[|y.loads| - 1], y.s.bitCount - 1);
    assert Step(y, i).loads == y.loads && Step(y, i).bits == y.bits && Step(y, i).frames == y.frames;
  }

  /** The end of a high half in the word: a falling edge, where the next bit is sampled. */
  lemma StepHigh(y: Sys, i: Input)
    requires Core(y) && !i.reset && y.s.phase == SclkHi && y.s.clkCount == CLK_DIV - 1 && y.s.bitCount < BITS
    ensures Good(y, i)
  {
    var w := y.loads[|y.loads| - 1];
    ShiftOnce(w, y.s.bitCount);
    assert Step(y, i).loads == y.loads && Step(y, i).bits == y.bits + [w[y.s.bitCount]]
      && Step(y, i).frames == y.frames;
  }

  /** The end of the last high half: the word is complete, and there is no further edge. */
  lemma StepLast(y: Sys, i: Input)
    requires Core(y) && !i.reset && y.s.phase == SclkHi && y.s.clkCount == CLK_DIV - 1 && y.s.bitCount == BITS
    ensures Good(y, i)
  {
    var w := y.loads[|y.loads| - 1];
    assert w[..BITS] == w;
    assert Step(y, i).loads == y.loads && Step(y, i).frames == y.frames + [w];
  }

  lemma StepDone(y: Sys, i: Input)
    requires Core(y) && !i.reset && y.s.phase == DacDone
    ensures Good(y, i)
  {
  }

  lemma StepWait(y: Sys, i: Input)
    requires Core(y) && !i.reset && y.s.phase == WaitSyncLow
    ensures Good(y, i)
  {
  }

  lemma OneStep(y: Sys, i: Input)
    requires Inv(y) && !i.reset
    ensures Inv(Step(y, i))
    ensures y.s.phase != Idle ==> Good(y, i)
  {
    ContentStep(y, i);
    match y.s.phase
    case Idle => StepIdle(y, i);
    case SendCtrl => StepCtrl(y, i);
    case SendSetpoint => StepSetpoint(y, i);
    case NSyncZero => StepSync(y, i);
    case DacDone => StepDone(y, i);
    case WaitSyncLow => StepWait(y, i);
    case _ => StepClocking(y, i);
  }

  lemma StepClocking(y: Sys, i: Input)
    requires Core(y) && !i.reset && (y.s.phase == FirstBit || y.s.phase == SclkLo || y.s.phase == SclkHi)
    ensures Good(y, i)
  {
    if y.s.clkCount < CLK_DIV - 1 {
      StepInside(y, i);
    } else if y.s.phase == FirstBit {
      StepFirst(y, i);
    } else if y.s.phase == SclkLo {
      StepLow(y, i);
    } else if y.s.bitCount < BITS {
      StepHigh(y, i);
    } else {
      StepLast(y, i);
    }
  }

  lemma ContentIdle(y: Sys, i: Input)
    requires Inv(y) && !i.reset && y.s.phase == Idle
    ensures ContentInv(Step(y, i))
  {
  }

  lemma ContentLoad(y: Sys, i: Input)
    requires Inv(y) && !i.reset && (y.s.phase == SendCtrl || y.s.phase == SendSetpoint)
    ensures ContentInv(Step(y, i))
  {
  }

  /** In the other states nothing is loaded. */
  lemma ContentKept(y: Sys, i: Input)
    requires !i.reset && y.s.phase != Idle && y.s.phase != SendCtrl && y.s.phase != SendSetpoint
    ensures var z := Step(y, i);
      z.loads == y.loads && z.first == y.first && z.control == y.control && z.data == y.data && z.s.phase != SendCtrl
  {
  }

  lemma ContentStep(y: Sys, i: Input)
    requires Inv(y) && !i.reset
    ensures ContentInv(Step(y, i))
  {
    if y.s.phase == Idle {
      ContentIdle(y, i);
    } else if y.s.phase == SendCtrl || y.s.phase == SendSetpoint {
      ContentLoad(y, i);
    } else {
      ContentKept(y, i);
    }
  }

  /** IDLE is where the clocks run out. */
  lemma RemainingPositive(y: Sys)
    requires Inv(y)
    ensures Remaining(y.s) >= 0 && (Remaining(y.s) == 0 <==> y.s.phase == Idle)
  {
  }

  // ---------------------------------------------------------------------------
  // Main result
  // ---------------------------------------------------------------------------

  function Run(y: Sys, ins: seq<Input>): Sys
    requires forall k :: 0 <= k < |ins| ==> !ins[k].reset
    decreases |ins|
  {
    if ins == [] then y else Run(Step(y, ins[0]), ins[1..])
  }

  lemma {:induction false} RunsOut(y: Sys, ins: seq<Input>)
    requires Inv(y) && y.s.phase != Idle && (forall k :: 0 <= k < |ins| ==> !ins[k].reset) && |ins| == Remaining(y.s)
    ensures var z := Run(y, ins);
      && Inv(z) && z.s.phase == Idle && |z.frames| == |z.loads| == 2 && z.first == y.first && z.s.initCount == 2
    decreases |ins|
  {
    OneStep(y, ins[0]);
    RemainingPositive(y);
    RemainingPositive(Step(y, ins[0]));
    if |ins| > 1 {
      RunsOut(Step(y, ins[0]), ins[1..]);
    } else {
      assert Run(y, ins) == Run(Step(y, ins[0]), ins[1..]) == Step(y, ins[0]);
    }
  }

  /**
   A start accepted in IDLE, whatever the inputs do afterwards: the sender is back in IDLE after a fixed number
   of clocks, and the DAC has sampled two words of 24 bits, the control word and 0001 with the data held at its load.
   */
  lemma Transaction(y: Sys, ins: seq<Input>)
    requires Inv(y) && y.s.phase == Idle && ins != [] && ins[0].start
    requires forall k :: 0 <= k < |ins| ==> !ins[k].reset
    requires |ins| == 1 + Remaining(Next(y.s, ins[0]))
    ensures var z := Run(y, ins);
      && z.s.phase == Idle && Inv(z)
      && z.frames == [Expected(z)[0], Expected(z)[1]] && z.first == (y.s.initCount == 0)
    ensures |ins| == if y.s.initCount == 0 then 544 else 545
  {
    OneStep(y, ins[0]);
    RunsOut(Step(y, ins[0]), ins[1..]);
  }

  // ---------------------------------------------------------------------------
  // Many transactions
  // ---------------------------------------------------------------------------

  /**
    A finished transaction: whether it was the first behind a reset, what its words were made from, what was
    sampled.
  */
  datatype Exchange = Exchange(first: bool, control: Control, data: Data, frames: seq<seq<bool>>)

  predicate Correct(x: Exchange) {
    x.frames == [if x.first then RESET_WORD else ControlWord(x.control), SetpointWord(x.data)]
  }

  /** History of a whole run: starts accepted, and the transactions that have finished. */
  datatype Log = Log(y: Sys, starts: nat, finished: seq<Exchange>)

  function LogStep(l: Log, i: Input): Log
    requires !i.reset
  {
    var z := Step(l.y, i);
    Log(z, if l.y.s.phase == Idle && i.start then l.starts + 1 else l.starts,
        if l.y.s.phase != Idle && z.s.phase == Idle
        then l.finished + [Exchange(z.first, z.control, z.data, z.frames)] else l.finished)
  }

  /** Every start but the one in progress has been served, and only the first can send the reset word. */
  predicate LogInv(l: Log) {
    && Inv(l.y)
    && l.starts == |l.finished| + (if l.y.s.phase == Idle then 0 else 1)
    && (forall k :: 0 <= k < |l.finished| ==> Correct(l.finished[k]) && (k > 0 ==> !l.finished[k].first))
    && (l.starts > 0 && l.y.s.phase == Idle ==> l.y.s.initCount == 2)
    && (l.starts > 1 && l.y.s.phase != Idle ==> !l.y.first)
  }

  lemma TwoWords(y: Sys)
    requires Inv(y) && y.s.phase == WaitSyncLow
    ensures Correct(Exchange(y.first, y.control, y.data, y.frames)) && y.s.initCount == 2
  {
    assert y.frames == [y.frames[0], y.frames[1]];
  }

  /** IDLE is entered from the pause behind the second word only. */
  lemma IntoIdle(s: State, i: Input)
    requires !i.reset && s.phase != Idle && Next(s, i).phase == Idle
    ensures s.phase == WaitSyncLow
  {
  }

  lemma PauseKeeps(y: Sys, i: Input)
    requires !i.reset && y.s.phase == WaitSyncLow
    ensures var z := Step(y, i);
      && z.frames == y.frames && z.first == y.first && z.control == y.control && z.data == y.data
      && z.s.initCount == y.s.initCount
  {
  }

  lemma LastClock(y: Sys, i: Input)
    requires Inv(y) && !i.reset && y.s.phase != Idle && Step(y, i).s.phase == Idle
    ensures var z := Step(y, i); Correct(Exchange(z.first, z.control, z.data, z.frames)) && z.s.initCount == 2
    ensures Step(y, i).first == y.first
  {
    IntoIdle(y.s, i);
    TwoWords(y);
    PauseKeeps(y, i);
  }

  lemma LogKeeps(l: Log, i: Input)
    requires LogInv(l) && !i.reset
    ensures LogInv(LogStep(l, i)) && l.finished <= LogStep(l, i).finished
  {
    OneStep(l.y, i);
    if l.y.s.phase != Idle && Step(l.y, i).s.phase == Idle {
      LastClock(l.y, i);
    }
  }

  function LogRun(l: Log, ins: seq<Input>): Log
    requires forall k :: 0 <= k < |ins| ==> !ins[k].reset
    decreases |ins|
  {
    if ins == [] then l else LogRun(LogStep(l, ins[0]), ins[1..])
  }

  /**
   Over every run, with starts at any clock: each start accepted in IDLE yields its two words, in order, and only the
   first one behind a reset sends the reset word.
   */
  lemma {:induction false} ManyStarts(l: Log, ins: seq<Input>)
    requires LogInv(l) && forall k :: 0 <= k < |ins| ==> !ins[k].reset
    ensures LogInv(LogRun(l, ins)) && l.finished <= LogRun(l, ins).finished
    decreases |ins|
  {
    if ins != [] {
      LogKeeps(l, ins[0]);
      LogRunStep(l, ins);
      ManyStarts(LogStep(l, ins[0]), ins[1..]);
    }
  }

  lemma LogRunStep(l: Log, ins: seq<Input>)
    requires ins != [] && forall k :: 0 <= k < |ins| ==> !ins[k].reset
    ensures LogRun(l, ins) == LogRun(LogStep(l, ins[0]), ins[1..])
  {
  }

  /** The second reset word is never sent: the counter passes its value inside a transaction. */
  lemma ClearResetWordNeverLoaded(y: Sys, i: Input)
    requires Inv(y) && !i.reset && y.s.phase == Idle && i.start
    ensures y.s.initCount != 1 && (Loads(y.s, Next(y.s, i)) ==> Next(y.s, i).shift == RESET_WORD)
  {
  }

  lemma ReadyInv(s: State, y: Sys)
    requires Ready(s) && y.s == s && y.loads == [] && y.frames == []
    ensures Inv(y) && LogInv(Log(y, 0, []))
  {
  }

  /** A reset at any clock, in the middle of a word too, leads there, and the next start sends the reset word first. */
  lemma ResetReady(s: State, i: Input, control: Control, data: Data)
    requires i.reset
    ensures Ready(Next(s, i)) && Next(s, i).initCount == 0 && Next(s, i).nSync
    ensures LogInv(Log(Sys(Next(s, i), [], [], [], true, control, data), 0, []))
  {
    ReadyInv(Next(s, i), Sys(Next(s, i), [], [], [], true, control, data));
  }
  // ---------------------------------------------------------------------------
  // The words bit by bit
  // ---------------------------------------------------------------------------

  /** Bit `k` of a word, counted from the least significant. */
  function Db(w: Word, k: nat): bool
    requires k < BITS
  {
    w[BITS - 1 - k]
  }

  /** The control word writes register 2: linearity compensation 0, and the five control bits in bits 5 to 1. */
  lemma ControlBits(c: Control)
    ensures var w := ControlWord(c);
      && !Db(w, 23) && !Db(w, 22) && Db(w, 21) && !Db(w, 20)
      && (forall k :: 6 <= k < 20 ==> !Db(w, k))
      && Db(w, 5) == c.sdoDis && Db(w, 4) == c.bin2sc && Db(w, 3) == c.dacTri && Db(w, 2) == c.opGnd
      && Db(w, 1) == c.rbuf && !Db(w, 0)
  {
  }

  /** The setpoint word writes register 1 with the data, the reset word is 0x400004, the one not sent 0x400000. */
  lemma OtherBits(d: Data)
    ensures var w := SetpointWord(d);
      && !Db(w, 23) && !Db(w, 22) && !Db(w, 21) && Db(w, 20)
      && forall k :: 0 <= k < 20 ==> Db(w, k) == d[19 - k]
    ensures forall k :: 0 <= k < BITS ==> (Db(RESET_WORD, k) <==> k == 22 || k == 2)
    ensures forall k :: 0 <= k < BITS ==> (Db(CLEAR_RESET_WORD, k) <==> k == 22)
  {
  }
  // ---------------------------------------------------------------------------
  // The pins
  // ---------------------------------------------------------------------------

  /** A reset in any state: the registers behind it. */
  lemma ResetState(s: State, i: Input)
    requires i.reset
    ensures var t := Next(s, i);
      && t.phase == Idle && t.initCount == 0 && t.bitCount == 0 && t.clkCount == 0 && !t.setpointSent
      && t.nSync && !t.sclk && t.shift == Zeros(24) && t.data == Zeros(20) && t.control == s.control
  {
  }

  /** A word is made of what the inputs showed in the clock before it is loaded. */
  lemma WordOfInput(s: State, i: Input, j: Input)
    requires !i.reset && !j.reset
    ensures var t := Next(s, i);
      && (t.phase == SendCtrl ==> Next(t, j).shift == ControlWord(i.control))
      && (t.phase == SendSetpoint ==> Next(t, j).shift == SetpointWord(i.data))
  {
  }

  /**
   Select, clock and `done` in every state: the DAC is selected for the bits of a word, let go one clock behind the
   last, and selected again, with `done` high, for the pause behind the second word.
   */
  predicate Pins(s: State) {
    match s.phase
    case Idle => s.nSync == (s.initCount == 0)
    case SendCtrl => s.nSync && !s.done
    case NSyncZero => s.nSync && !s.done
    case FirstBit => !s.nSync && s.sclk && !s.done
    case SclkLo => !s.nSync && !s.sclk && !s.done
    case SclkHi => !s.nSync && s.sclk && !s.done
    case DacDone => (s.nSync <==> s.clkCount > 0) && !s.done
    case SendSetpoint => s.nSync && !s.done
    case WaitSyncLow => !s.nSync && s.done
  }

  lemma PinsStep(y: Sys, i: Input)
    requires Core(y) && Pins(y.s) && !i.reset
    ensures Pins(Next(y.s, i))
    ensures y.s.phase == Idle ==> !Next(y.s, i).done
  {
  }

  /** From a reset on, over every run. */
  lemma {:induction false} PinsRun(y: Sys, ins: seq<Input>)
    requires Inv(y) && Pins(y.s) && forall k :: 0 <= k < |ins| ==> !ins[k].reset
    ensures Pins(Run(y, ins).s)
    decreases |ins|
  {
    if ins != [] {
      PinsStep(y, ins[0]);
      OneStep(y, ins[0]);
      PinsRun(Step(y, ins[0]), ins[1..]);
    }
  }

  lemma ResetPins(s: State, i: Input)
    requires i.reset
    ensures Pins(Next(s, i))
  {
  }
}
