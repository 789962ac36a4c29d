/**
 The block averager of average.vhd: a sample RAM written in a ring, summed from the start after
 every sample.

 In an averaging mode with `A` samples the write counter passes through `A + 1` values, and at the last one the
 sample is not stored.
 */
module Averager {
  import opened Words

  const RAM := 500
  const ACC_HALF := 0x1000_0000

  datatype Phase = Idle | WriteToRam | Accumulate | Finished

  datatype State = State(
    phase: Phase, mode: nat, accum: int, addrCnt: nat, addrMax: nat, ramCnt: nat, ram: seq<s20>,
    avgOut: s32, done: bool)

  datatype Input = Input(reset: bool, start: bool, data: s20, sel: nat)

  /** Samples of a mode: one power line cycle, three, or the ramping average. */
  function SamplesOf(mode: nat): nat {
    if mode == 1 then 167 else if mode == 2 then 500 else if mode == 3 then 10 else 0
  }

  predicate Shape(s: State) {
    |s.ram| == RAM
  }

  /** The 29-bit accumulator, cut to the output word. */
  function Resize32(x: int): s32
  {
    Wrap(x, 0x8000_0000)
  }

  function OnIdle(s: State, i: Input): State {
    var t := s.(done := false);
    if !i.start then t
    else if s.mode == 0 then t.(accum := i.data, phase := Finished)
    else if s.mode <= 3 then t.(addrMax := SamplesOf(s.mode), phase := WriteToRam)
    else t
  }

  /** One rising clock edge of both processes. */
  function Next(s: State, i: Input): (t: State)
    requires Shape(s)
    ensures Shape(t)
  {
    var t := s.(mode := i.sel);
    if i.reset then t.(addrCnt := 0, accum := 0, phase := Idle, done := false)
    else
      match s.phase
      case Idle => OnIdle(s, i).(mode := i.sel)
      case WriteToRam =>
        if s.ramCnt == s.addrMax then t.(ramCnt := 0, phase := Accumulate)
        else t.(ram := if s.ramCnt < RAM then s.ram[s.ramCnt := i.data] else s.ram,
                ramCnt := s.ramCnt + 1, phase := Accumulate)
      case Accumulate =>
        if s.addrCnt == s.addrMax then t.(addrCnt := 0, phase := Finished)
        else t.(accum := Wrap(s.accum + (if s.addrCnt < RAM then s.ram[s.addrCnt] else 0), ACC_HALF),
                addrCnt := s.addrCnt + 1)
      case Finished => t.(avgOut := Resize32(s.accum), accum := 0, done := true, phase := Idle)
  }

  class BlockAverage {
    var phase: Phase
    var mode: nat
    var accum: int
    var addrCnt: nat
    var addrMax: nat
    var ramCnt: nat
    const ram: array<s20>
    var avgOut: s32
    var done: bool

    ghost function View(): State
      reads this, ram
    {
      State(phase, mode, accum, addrCnt, addrMax, ramCnt, ram[..], avgOut, done)
    }

    constructor ()
      ensures Shape(View()) && fresh(ram) && phase == Idle && ramCnt == 0 && accum == 0
    {
      phase, mode, accum, addrCnt, addrMax, ramCnt := Idle, 0, 0, 500, 0, 0;
      avgOut, done := 0, false;
      ram := new s20[RAM](_ => 0);
    }

    method Tick(i: Input)
      requires Shape(View())
      modifies this, ram
      ensures View() == Next(old(View()), i)
    {
      var wasMode := mode;
      mode := i.sel;
      if i.reset {
        addrCnt, accum, phase, done := 0, 0, Idle, false;
        return;
      }
      match phase
      case Idle =>
        done := false;
        if i.start {
          if wasMode == 0 {
            accum, phase := i.data, Finished;
          } else if wasMode <= 3 {
            addrMax, phase := SamplesOf(wasMode), WriteToRam;
          }
        }
      case WriteToRam =>
        if ramCnt == addrMax {
          ramCnt := 0;
        } else {
          if ramCnt < RAM {
            ram[ramCnt] := i.data;
          }
          ramCnt := ramCnt + 1;
        }
        phase := Accumulate;
      case Accumulate =>
        if addrCnt == addrMax {
          addrCnt, phase := 0, Finished;
        } else {
          accum := Wrap(accum + (if addrCnt < RAM then ram[addrCnt] else 0), ACC_HALF);
          addrCnt := addrCnt + 1;
        }
      case Finished =>
        avgOut, accum, done, phase := Resize32(accum), 0, true, Idle;
    }
  }

  // ---------------------------------------------------------------------------
  // Sums
  // ---------------------------------------------------------------------------

  function Sum(s: seq<s20>): int {
    if s == [] then 0 else Sum(s[..|s| - 1]) + s[|s| - 1]
  }

  lemma {:induction false} SumConcat(a: seq<s20>, b: seq<s20>)
    ensures Sum(a + b) == Sum(a) + Sum(b)
    decreases |b|
  {
    if b == [] {
      assert a + b == a;
    } else {
      var front := b[..|b| - 1];
      assert (a + b)[..|a + b| - 1] == a + front;
      SumConcat(a, front);
    }
  }

  /** A sum of 20-bit samples, and so every partial sum, fits 19 bits more than the count needs. */
  lemma {:induction false} SumBound(s: seq<s20>)
    ensures -0x8_0000 * |s| <= Sum(s) <= 0x7_FFFF * |s|
    decreases |s|
  {
    if s != [] {
      SumBound(s[..|s| - 1]);
    }
  }

  // ---------------------------------------------------------------------------
  // Runs in one averaging mode
  // ---------------------------------------------------------------------------

  /** History: the samples accepted, one for each start, the unstored ones included, and the complete rounds. */
  datatype Sys = Sys(s: State, accepted: seq<s20>, rounds: nat)

  predicate Allowed(mode: nat, i: Input) {
    !i.reset && i.sel == mode
  }

  function Step(y: Sys, i: Input): Sys
    requires Shape(y.s)
  {
    var t := Next(y.s, i);
    if y.s.phase == WriteToRam && !i.reset then
      Sys(t, y.accepted + [i.data], if y.s.ramCnt == y.s.addrMax then y.rounds + 1 else y.rounds)
    else y.(s := t)
  }

  /** RAM slots of the present round, and of the round before where this one has not come yet. */
  predicate RamInv(ram: seq<s20>, acc: seq<s20>, q: nat, a: nat) {
    && |ram| == RAM && a <= RAM && q <= a && q <= |acc| && (|acc| <= a ==> q == |acc|)
    && (forall c :: 0 <= c < q ==> ram[c] == acc[|acc| - q + c])
    && (|acc| > a ==> forall c :: q <= c < a ==> ram[c] == acc[|acc| - q - (a + 1) + c])
  }

  /** `A + 1` accepted samples make a round, and the write counter tells how far the present one is. */
  predicate Counted(y: Sys, a: nat) {
    |y.accepted| == y.rounds * (a + 1) + y.s.ramCnt
  }

  predicate Inv(y: Sys, mode: nat) {
    var s := y.s;
    var a := SamplesOf(mode);
    && 1 <= mode <= 3 && s.mode == mode
    && Counted(y, a) && RamInv(s.ram, y.accepted, s.ramCnt, a)
    && (s.phase != Idle ==> s.addrMax == a)
    && match s.phase
       case Idle => s.accum == 0 && s.addrCnt == 0
       case WriteToRam => s.accum == 0 && s.addrCnt == 0
       case Accumulate => s.addrCnt <= a && s.accum == Sum(s.ram[..s.addrCnt])
       case Finished => s.addrCnt == 0 && s.accum == Sum(s.ram[..a])
  }

  lemma StoreSample(ram: seq<s20>, acc: seq<s20>, q: nat, a: nat, x: s20)
    requires RamInv(ram, acc, q, a)
    ensures q < a ==> RamInv(ram[q := x], acc + [x], q + 1, a)
    ensures q == a ==> RamInv(ram, acc + [x], 0, a)
  {
  }

  lemma NextRound(rounds: nat, a: nat)
    ensures (rounds + 1) * (a + 1) == rounds * (a + 1) + a + 1
  {
  }

  lemma WriteStep(y: Sys, mode: nat, i: Input)
    requires Inv(y, mode) && Allowed(mode, i) && y.s.phase == WriteToRam
    ensures Inv(Step(y, i), mode)
  {
    var a := SamplesOf(mode);
    StoreSample(y.s.ram, y.accepted, y.s.ramCnt, a, i.data);
    NextRound(y.rounds, a);
    assert Sum(Step(y, i).s.ram[..0]) == 0;
  }

  /** The 29-bit accumulator and the 32-bit output hold every sum of up to 500 samples. */
  lemma NoOverflow(s: seq<s20>)
    requires |s| <= RAM
    ensures Wrap(Sum(s), ACC_HALF) == Sum(s) && Resize32(Sum(s)) == Sum(s)
  {
    SumBound(s);
  }

  lemma AccumulateStep(y: Sys, mode: nat, i: Input)
    requires Inv(y, mode) && Allowed(mode, i) && y.s.phase == Accumulate
    ensures Inv(Step(y, i), mode)
    ensures y.s.addrCnt < SamplesOf(mode) ==> Step(y, i).s.accum == y.s.accum + y.s.ram[y.s.addrCnt]
  {
    var k := y.s.addrCnt;
    if k < SamplesOf(mode) {
      assert y.s.ram[..k + 1][..k] == y.s.ram[..k];
      NoOverflow(y.s.ram[..k + 1]);
    }
  }

  lemma KeepStep(y: Sys, mode: nat, i: Input)
    requires Inv(y, mode) && Allowed(mode, i)
    ensures Inv(Step(y, i), mode)
  {
    if y.s.phase == WriteToRam {
      WriteStep(y, mode, i);
    } else if y.s.phase == Accumulate {
      AccumulateStep(y, mode, i);
    }
  }

  /** The last `a + 1` samples by write position: the present round first, then the rest of the one before. */
  function Ring(acc: seq<s20>, q: nat, a: nat): (r: seq<s20>)
    requires q <= a < |acc|
    ensures |r| == a + 1
  {
    acc[|acc| - q..] + acc[|acc| - (a + 1)..|acc| - q]
  }

  lemma RamIsRing(ram: seq<s20>, acc: seq<s20>, q: nat, a: nat)
    requires RamInv(ram, acc, q, a) && |acc| > a
    ensures ram[..a] == Ring(acc, q, a)[..a] && Ring(acc, q, a)[a] == acc[|acc| - q - 1]
  {
  }

  /** In whatever order they are added, they are the last `a + 1` samples. */
  lemma RingSum(acc: seq<s20>, q: nat, a: nat)
    requires q <= a < |acc|
    ensures Sum(Ring(acc, q, a)) == Sum(acc[|acc| - (a + 1)..])
  {
    var b := |acc| - q;
    SumConcat(acc[b..], acc[|acc| - (a + 1)..b]);
    SumConcat(acc[|acc| - (a + 1)..b], acc[b..]);
    assert acc[|acc| - (a + 1)..] == acc[|acc| - (a + 1)..b] + acc[b..];
  }

  /** The RAM adds up to the last `a + 1` samples less the one that closed the last round. */
  lemma RamSum(ram: seq<s20>, acc: seq<s20>, q: nat, a: nat)
    requires RamInv(ram, acc, q, a) && |acc| > a
    ensures Sum(ram[..a]) == Sum(acc[|acc| - (a + 1)..]) - acc[|acc| - q - 1]
  {
    RamIsRing(ram, acc, q, a);
    RingSum(acc, q, a);
  }

  /**
   Each output, once a round has been filled, is the exact sum of `A` of the last `A + 1` accepted samples: all
   but the one that closed the last complete round of `A + 1`.
   */
  lemma Output(y: Sys, mode: nat, i: Input)
    requires Inv(y, mode) && Allowed(mode, i) && y.s.phase == Finished && |y.accepted| > SamplesOf(mode)
    ensures var a := if mode == 1 then 167 else if mode == 2 then 500 else 10;
      var n := |y.accepted|;
      var closing := y.rounds * (a + 1) - 1;
      && n - (a + 1) <= closing < n
      && Step(y, i).s.done && Step(y, i).s.avgOut == Sum(y.accepted[n - (a + 1)..]) - y.accepted[closing]
  {
    var a := SamplesOf(mode);
    RamSum(y.s.ram, y.accepted, y.s.ramCnt, a);
    NoOverflow(y.s.ram[..a]);
  }

  ghost predicate AllowedRun(mode: nat, ins: seq<Input>) {
    forall k :: 0 <= k < |ins| ==> Allowed(mode, ins[k])
  }

  function Run(y: Sys, ins: seq<Input>): (z: Sys)
    requires Shape(y.s)
    ensures Shape(z.s)
    decreases |ins|
  {
    if ins == [] then y else Run(Step(y, ins[0]), ins[1..])
  }

  /** The invariant over whole runs in one mode; with `Output`, every output of every run is such a sum. */
  lemma {:induction false} RunKeeps(y: Sys, mode: nat, ins: seq<Input>)
    requires Inv(y, mode) && AllowedRun(mode, ins)
    ensures Inv(Run(y, ins), mode)
    decreases |ins|
  {
    if ins != [] {
      assert Allowed(mode, ins[0]);
      KeepStep(y, mode, ins[0]);
      RunKeeps(Step(y, ins[0]), mode, ins[1..]);
    }
  }

  /**
   A run starts with a reset. It leaves the write counter and the RAM alone, so the samples in front of the counter
   go on as those of the present round: the history starts with them.
   */
  lemma ResetInv(s: State, i: Input, mode: nat)
    requires 1 <= mode <= 3 && Shape(s) && i.reset && i.sel == mode && s.ramCnt <= SamplesOf(mode)
    ensures Inv(Sys(Next(s, i), s.ram[..s.ramCnt], 0), mode)
  {
  }

  /** At power-up the counter stands at 0, and the history is empty. */
  lemma PowerUpInv(s: State, i: Input, mode: nat)
    requires 1 <= mode <= 3 && Shape(s) && i.reset && i.sel == mode && s.ramCnt == 0
    ensures Inv(Sys(Next(s, i), [], 0), mode)
  {
    assert s.ram[..0] == [];
    ResetInv(s, i, mode);
  }
  /** Without averaging a started sample is the output two clocks later, and the RAM is not touched. */
  lemma PassThrough(s: State, i: Input, j: Input)
    requires Shape(s) && s.phase == Idle && s.mode == 0 && i.start && !i.reset && !j.reset
    ensures var t := Next(s, i); var u := Next(t, j);
      && !t.done && u.done && u.phase == Idle && u.avgOut == i.data
      && u.ram == s.ram && u.ramCnt == s.ramCnt
  {
  }
  /** The mode follows its input one clock behind, and in a reset too. */
  lemma ModeFollows(s: State, i: Input)
    requires Shape(s)
    ensures Next(s, i).mode == i.sel
  {
  }

  /** A reset in any state ends the sum; write counter, RAM and output stay. */
  lemma ResetState(s: State, i: Input)
    requires Shape(s) && i.reset
    ensures var t := Next(s, i);
      && t.phase == Idle && !t.done && t.accum == 0 && t.addrCnt == 0
      && t.ram == s.ram && t.ramCnt == s.ramCnt && t.avgOut == s.avgOut
  {
  }

  /** Clocks to the end of a sum. */
  function Left(s: State): int {
    match s.phase
    case Idle => 0
    case WriteToRam => s.addrMax + 3
    case Accumulate => s.addrMax - s.addrCnt + 2
    case Finished => 1
  }

  lemma LeftStep(y: Sys, mode: nat, i: Input)
    requires Inv(y, mode) && Allowed(mode, i)
    ensures Left(Step(y, i).s) == if y.s.phase != Idle then Left(y.s) - 1
                                  else if i.start then (if mode == 1 then 170 else if mode == 2 then 503 else 13) else 0
    ensures Step(y, i).s.done <==> y.s.phase == Finished || (y.s.done && y.s.phase != Idle)
  {
  }

  /** Every start accepted in IDLE gives an output after 170, 503 or 13 clocks more, whatever the other inputs do. */
  lemma {:induction false} Completes(y: Sys, mode: nat, ins: seq<Input>)
    requires Inv(y, mode) && AllowedRun(mode, ins) && y.s.phase != Idle && !y.s.done && |ins| == Left(y.s)
    ensures var z := Run(y, ins); z.s.phase == Idle && z.s.done
    ensures |Run(y, ins).accepted| == |y.accepted| + if y.s.phase == WriteToRam then 1 else 0
    decreases |ins|
  {
    assert Allowed(mode, ins[0]);
    KeepStep(y, mode, ins[0]);
    LeftStep(y, mode, ins[0]);
    var z := Step(y, ins[0]);
    if z.s.phase == Idle {
      assert ins[1..] == [] && Run(z, ins[1..]) == z;
    } else {
      Completes(z, mode, ins[1..]);
    }
  }
}
