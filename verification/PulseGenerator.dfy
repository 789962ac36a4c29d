/**
 The 10 kHz pulse generator of nco_srocgen.vhd: a 32-bit phase accumulator whose top bit, delayed
 twice, gives a pulse at each rising edge.
 */
module PulseGenerator {
  import opened Words

  const HALF := 0x8000_0000

  datatype State = State(acc: u32, msb: bool, msbD: bool, pulse: bool)

  predicate TopBit(x: int) {
    x % TWO_32 >= HALF
  }

  /** One rising clock edge. */
  function Next(s: State, reset: bool, step: u32, resync: bool): State {
    if reset then CLEARED
    else State(if resync then 0 else (s.acc + step) % TWO_32, TopBit(s.acc), s.msb, s.msb && !s.msbD)
  }

  const CLEARED := State(0, false, false, false)

  class Nco {
    var acc: u32
    var msb: bool
    var msbD: bool
    var pulse: bool

    ghost function View(): State
      reads this
    {
      State(acc, msb, msbD, pulse)
    }

    constructor ()
      ensures View() == CLEARED
    {
      acc, msb, msbD, pulse := 0, false, false, false;
    }

    method Tick(reset: bool, step: u32, resync: bool)
      modifies this
      ensures View() == Next(old(View()), reset, step, resync)
    {
      if reset {
        acc, msb, msbD, pulse := 0, false, false, false;
        return;
      }
      msb, msbD, pulse := acc >= HALF, msb, msb && !msbD;
      if resync {
        acc := 0;
      } else {
        acc := (acc + step) % TWO_32;
      }
    }
  }

  // ---------------------------------------------------------------------------
  // Free running
  // ---------------------------------------------------------------------------

  /** The state `n` clocks after a reset, without a resync. */
  function After(step: u32, n: nat): State {
    if n == 0 then CLEARED else Next(After(step, n - 1), false, step, false)
  }

  /** Pulses in the first `n` clocks after a reset. */
  function Pulses(step: u32, n: nat): nat {
    if n == 0 then 0 else Pulses(step, n - 1) + if After(step, n).pulse then 1 else 0
  }

  /** The accumulated phase, in turns rounded to the nearest. */
  function Turns(step: u32, n: nat): nat {
    (n * step + HALF) / TWO_32
  }

  lemma AddModulo(x: nat, step: nat)
    ensures (x % TWO_32 + step) % TWO_32 == (x + step) % TWO_32
  {
  }

  lemma {:induction false} Phase(step: u32, n: nat)
    ensures After(step, n).acc == (n * step) % TWO_32
    decreases n
  {
    if n > 0 {
      Phase(step, n - 1);
      AddModulo((n - 1) * step, step);
      assert (n - 1) * step + step == n * step;
    }
  }

  lemma TopBitModulo(x: nat)
    ensures TopBit(x % TWO_32) == TopBit(x)
  {
  }

  lemma TopOfPhase(step: u32, n: nat)
    ensures TopBit(After(step, n).acc) <==> TopBit(n * step)
  {
    Phase(step, n);
    TopBitModulo(n * step);
  }

  /** The two delays: three clocks after clock `m` the pulse shows the rise of the top bit from `m` to `m + 1`. */
  lemma ThreeClocks(step: u32, m: nat)
    ensures After(step, m + 3).pulse <==> TopBit(After(step, m + 1).acc) && !TopBit(After(step, m).acc)
  {
  }

  /** No pulse in the first two clocks. */
  lemma NoEarlyPulse(step: u32)
    ensures !After(step, 0).pulse && !After(step, 1).pulse && !After(step, 2).pulse
  {
    assert After(step, 1) == Next(CLEARED, false, step, false);
    assert After(step, 2) == Next(After(step, 1), false, step, false);
  }

  /** The pulse of clock `n + 2` is the rise of the phase's top bit at clock `n`. */
  lemma PulseIsRise(step: u32, n: nat)
    requires n > 0
    ensures After(step, n + 2).pulse <==> TopBit(n * step) && !TopBit((n - 1) * step)
  {
    TopOfPhase(step, n);
    TopOfPhase(step, n - 1);
    ThreeClocks(step, n - 1);
  }

  /** Up to half a turn a clock, the rounded turn count grows exactly where the top bit rises. */
  lemma TurnStep(x: nat, step: nat)
    requires step <= HALF
    ensures (x + step + HALF) / TWO_32 ==
      (x + HALF) / TWO_32 + if TopBit(x + step) && !TopBit(x) then 1 else 0
  {
  }

  /** No drift: the pulses of the first `n + 2` clocks are the turns of `n` steps, rounded to the nearest. */
  lemma {:induction false} NoDrift(step: u32, n: nat)
    requires step <= HALF
    ensures Pulses(step, n + 2) == Turns(step, n)
    decreases n
  {
    if n == 0 {
      NoEarlyPulse(step);
      assert Pulses(step, 2) == Pulses(step, 1) == Pulses(step, 0);
    } else {
      NoDrift(step, n - 1);
      PulseIsRise(step, n);
      TurnStep((n - 1) * step, step);
      assert (n - 1) * step + step == n * step;
    }
  }

  // ---------------------------------------------------------------------------
  // Exactly up to half a turn
  // ---------------------------------------------------------------------------

  /** The pulse output needs the top bit low between pulses, so two clocks apart at least. */
  lemma {:induction false} AtMostEveryOther(step: u32, n: nat)
    ensures 2 * Pulses(step, n + 1) <= n + 1
    ensures After(step, n + 1).pulse ==> 2 * Pulses(step, n + 1) <= n + 1 && 2 * Pulses(step, n) <= n
    decreases n
  {
    NoEarlyPulse(step);
    assert Pulses(step, 1) == Pulses(step, 0);
    if n > 0 {
      AtMostEveryOther(step, n - 1);
      if After(step, n + 1).pulse {
        NoTwoInARow(step, n);
        if n > 1 {
          AtMostEveryOther(step, n - 2);
        }
      }
    }
  }

  lemma NoTwoInARow(step: u32, n: nat)
    requires After(step, n + 1).pulse
    ensures !After(step, n).pulse
  {
  }

  /** The count is exact for every `n` exactly when the step is at most half a turn. */
  lemma ExactUpToHalfATurn(step: u32)
    ensures (forall n: nat :: Pulses(step, n + 2) == Turns(step, n)) <==> step <= HALF
  {
    if step <= HALF {
      forall n: nat
        ensures Pulses(step, n + 2) == Turns(step, n)
      {
        NoDrift(step, n);
      }
    } else {
      var n := 2 * TWO_32;
      AtMostEveryOther(step, n + 1);
      assert n * step >= n * (HALF + 1);
      assert Turns(step, n) >= TWO_32 + 2;
      assert Pulses(step, n + 2) != Turns(step, n);
    }
  }

  // ---------------------------------------------------------------------------
  // The gap between pulses
  // ---------------------------------------------------------------------------

  /** The pulse of clock `i + 3` completes a turn. */
  lemma PulseIsTurn(step: u32, i: nat)
    requires step <= HALF && After(step, i + 3).pulse
    ensures Turns(step, i) == Pulses(step, i + 2) && Turns(step, i + 1) == Pulses(step, i + 3) == Turns(step, i) + 1
  {
    NoDrift(step, i);
    NoDrift(step, i + 1);
  }

  /** Two consecutive pulses are the floor or the ceiling of 2^32 / step clocks apart. */
  lemma Gap(step: u32, a: nat, b: nat)
    requires 1 <= step <= HALF && 2 < a < b
    requires After(step, a).pulse && After(step, b).pulse && forall k :: a < k < b ==> !After(step, k).pulse
    ensures b - a == TWO_32 / step || b - a == (TWO_32 + step - 1) / step
  {
    var i, j := a - 3, b - 3;
    NoPulsesBetween(step, i + 3, j + 2);
    PulseIsTurn(step, i);
    PulseIsTurn(step, j);
    assert Turns(step, j) == Pulses(step, j + 2) == Pulses(step, i + 3) == Turns(step, i) + 1;
    TurnsApart(step, i, j);
  }

  /** From one step to the next turn to the step to the one after: the distance of the two. */
  lemma TurnsApart(step: u32, i: nat, j: nat)
    requires step > 0 && Turns(step, i + 1) == Turns(step, i) + 1 == Turns(step, j) == Turns(step, j + 1) - 1
    ensures j - i == TWO_32 / step || j - i == (TWO_32 + step - 1) / step
  {
    TurnsBounds(step, i);
    TurnsBounds(step, i + 1);
    TurnsBounds(step, j);
    TurnsBounds(step, j + 1);
    Distribute(i, j, step);
    NextProduct(i, step);
    NextProduct(j, step);
    GapArithmetic(step, j - i);
  }

  lemma NextProduct(i: nat, step: nat)
    ensures (i + 1) * step == i * step + step
  {
  }

  /** The phase lies within half a turn of its rounded turns. */
  lemma TurnsBounds(step: u32, n: nat)
    ensures Turns(step, n) * TWO_32 <= n * step + HALF < (Turns(step, n) + 1) * TWO_32
  {
  }

  lemma Distribute(i: nat, j: nat, step: nat)
    ensures (j - i + 1) * step == j * step - i * step + step
    ensures (j - i - 1) * step == j * step - i * step - step
  {
  }

  lemma {:induction false} NoPulsesBetween(step: u32, a: nat, c: nat)
    requires a <= c && forall k :: a < k <= c ==> !After(step, k).pulse
    ensures Pulses(step, c) == Pulses(step, a)
    decreases c
  {
    if a < c {
      NoPulsesBetween(step, a, c - 1);
    }
  }

  lemma Cancel(x: int, y: int, step: nat)
    requires x * step < y * step
    ensures x < y
  {
  }

  lemma GapArithmetic(step: nat, d: int)
    requires step > 0 && (d + 1) * step > TWO_32 && (d - 1) * step < TWO_32
    ensures d == TWO_32 / step || d == (TWO_32 + step - 1) / step
  {
    var f := TWO_32 / step;
    var r := TWO_32 % step;
    assert f * step + r == TWO_32;
    assert (f + 1) * step == f * step + step;
    Cancel(f, d + 1, step);
    Cancel(d - 1, f + 1, step);
    if r == 0 {
      Cancel(d - 1, f, step);
    } else {
      assert TWO_32 + step - 1 == (f + 1) * step + (r - 1);
      Quotient(f + 1, step, r - 1);
    }
  }

  lemma Quotient(q: nat, step: nat, r: nat)
    requires r < step
    ensures (q * step + r) / step == q
  {
    var p := (q * step + r) / step;
    var s := (q * step + r) % step;
    assert p * step + s == q * step + r;
    assert (p + 1) * step == p * step + step && (q + 1) * step == q * step + step;
    Cancel(p, q + 1, step);
    Cancel(q, p + 1, step);
  }
  // ---------------------------------------------------------------------------
  // Resynchronisation
  // ---------------------------------------------------------------------------

  /** `n` clocks behind `s`, without reset and resync. */
  function Free(s: State, step: u32, n: nat): State {
    if n == 0 then s else Next(Free(s, step, n - 1), false, step, false)
  }

  /** The accumulators are the same, and of the delays behind them the first `n`. */
  predicate Agree(s: State, t: State, n: nat) {
    && s.acc == t.acc && (n >= 1 ==> s.msb == t.msb)
    && (n >= 2 ==> s.msbD == t.msbD) && (n >= 3 ==> s.pulse == t.pulse)
  }

  lemma AgreeOn(s: State, t: State, step: u32, n: nat)
    requires Agree(s, t, n)
    ensures Agree(Next(s, false, step, false), Next(t, false, step, false), n + 1)
  {
  }

  lemma {:induction false} FreeAgrees(s: State, step: u32, n: nat)
    requires s.acc == 0
    ensures Agree(Free(s, step, n), After(step, n), n)
    decreases n
  {
    if n > 0 {
      FreeAgrees(s, step, n - 1);
      AgreeOn(Free(s, step, n - 1), After(step, n - 1), step, n - 1);
    }
  }

  /**
   A resync at any clock restarts the phase: from the third clock on the generator is in the state it would be in as
   many clocks after a reset, so that all counts of pulses hold from there.
   */
  lemma ResyncRestarts(s: State, before: u32, step: u32, n: nat)
    ensures var t := Free(Next(s, false, before, true), step, n);
      t.acc == (n * step) % TWO_32 && (n >= 3 ==> t == After(step, n))
  {
    FreeAgrees(Next(s, false, before, true), step, n);
    Phase(step, n);
  }

  /** The two pulses in between: the first still shows a rise from before the resync, the second clock has none. */
  lemma PulsesAtResync(s: State, before: u32, step: u32)
    ensures var r := Next(s, false, before, true);
      (Free(r, step, 1).pulse <==> TopBit(s.acc) && !s.msb) && !Free(r, step, 2).pulse
  {
    var r := Next(s, false, before, true);
    assert Free(r, step, 1) == Next(r, false, step, false);
    assert Free(r, step, 2) == Next(Free(r, step, 1), false, step, false);
  }

  /** So does a reset, at once. */
  lemma ResetRestarts(s: State, before: u32, resync: bool, step: u32, n: nat)
    ensures Free(Next(s, true, before, resync), step, n) == After(step, n)
  {
  }
}
