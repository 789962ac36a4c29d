/**
 The DAC setpoint path: the mode select of dac_chan.vhd, the offset, gain and saturation sequence of
 dac_gainoffset.vhd, and the 18 or 20-bit word handed to the SPI sender.
 */
module DacGain {
  import opened Words

  const FULL := 0x8_0000
  const ONE := 0x10_0000

  /** Gain words have 24 bits, products 44. */
  type s24 = x: int | -0x80_0000 <= x < 0x80_0000
  type s44 = x: int | -0x800_0000_0000 <= x < 0x800_0000_0000

  datatype Phase = Idle | ApplyOffsets | ApplyGains | Scale | CheckForSat | MultDly

  datatype State = State(phase: Phase, done: bool, sat: bool, dly: nat, oc: s20, fs: s44, setpt: s20, raw: s20)

  /** `mode` 0 is the smooth ramp, 1 the ramp table, 2 the fast feedback, 3 the jump setpoint. */
  datatype Input = Input(
    reset: bool, tenkhz: bool, twentyBits: bool, mode: nat, smooth: s20, ramp: s20, fofb: s20, jump: s20,
    offset: s20, gain: s24)

  function Selected(i: Input): s20 {
    if i.mode == 0 then i.smooth else if i.mode == 1 then i.ramp else if i.mode == 2 then i.fofb else i.jump
  }

  /** Bits 39 to 20 of a product. */
  function Slice(fs: s44): s20 {
    Wrap(fs / ONE, FULL)
  }

  /** The saturation test: on 20 bits a changed sign, on 18 bits the two limits. */
  function Saturate(setpt: s20, oc: s20, twentyBits: bool): s20 {
    if twentyBits then
      if setpt < 0 && oc >= 0 then FULL - 1 else if setpt >= 0 && oc < 0 then -FULL else setpt
    else
      if setpt > 131071 then 131071 else if setpt < -131072 then -131072 else setpt
  }

  lemma ProductFits(oc: int, gain: int)
    requires -FULL <= oc < FULL && -0x80_0000 <= gain < 0x80_0000
    ensures -0x800_0000_0000 <= oc * gain < 0x800_0000_0000
  {
    if oc >= 0 {
      MulMonotone(-0x80_0000, gain, oc);
      MulMonotone(gain, 0x7F_FFFF, oc);
    } else {
      MulMonotone(-0x7F_FFFF, -gain, -oc);
      MulMonotone(-gain, 0x80_0000, -oc);
    }
  }

  function Product(oc: s20, gain: s24): s44 {
    ProductFits(oc, gain);
    oc * gain
  }

  function NextRaw(s: State, i: Input): s20 {
    if i.reset then 0 else if i.tenkhz then Selected(i) else s.raw
  }

  /** One rising clock edge of both entities. A reset holds the sequence where it is. */
  function Next(s: State, i: Input): State {
    var t := s.(raw := NextRaw(s, i));
    if i.reset then t.(done := false)
    else
      match s.phase
      case Idle => t.(done := false, sat := false, phase := if i.tenkhz then ApplyOffsets else Idle)
      case ApplyOffsets => t.(oc := Wrap(s.raw - i.offset, FULL), phase := ApplyGains)
      case ApplyGains => t.(fs := Product(s.oc, i.gain), phase := Scale, dly := 0)
      case Scale => t.(setpt := Slice(s.fs), phase := CheckForSat)
      case CheckForSat =>
        t.(setpt := Saturate(s.setpt, s.oc, i.twentyBits),
           sat := s.sat || Saturate(s.setpt, s.oc, i.twentyBits) != s.setpt, phase := MultDly)
      case MultDly => if s.dly == 6 then t.(phase := Idle, done := true) else t.(dly := (s.dly + 1) % 16)
  }

  /** `dac_data`: the setpoint, or its low 18 bits moved up by two. */
  function DacData(setpt: s20, twentyBits: bool): s20 {
    if twentyBits then setpt else Wrap(4 * setpt, FULL)
  }

  class GainOffset {
    var phase: Phase
    var done: bool
    var sat: bool
    var dly: nat
    var oc: s20
    var fs: s44
    var setpt: s20
    var raw: s20

    ghost function View(): State
      reads this
    {
      State(phase, done, sat, dly, oc, fs, setpt, raw)
    }

    constructor ()
      ensures phase == Idle && !done
    {
      phase, done, sat, dly, oc, fs, setpt, raw := Idle, false, false, 0, 0, 0, 0, 0;
    }

    /** The check on the sliced product; `setpt` keeps the wrapped value for one clock before it. */
    method CheckSaturation(twentyBits: bool)
      modifies `setpt, `sat
      ensures setpt == Saturate(old(setpt), oc, twentyBits) && sat == (old(sat) || setpt != old(setpt))
    {
      if twentyBits {
        if setpt < 0 && oc >= 0 {
          sat, setpt := true, FULL - 1;
        } else if setpt >= 0 && oc < 0 {
          sat, setpt := true, -FULL;
        }
      } else {
        if setpt > 131071 {
          sat, setpt := true, 131071;
        } else if setpt < -131072 {
          sat, setpt := true, -131072;
        }
      }
    }

    method Tick(i: Input)
      modifies this
      ensures View() == Next(old(View()), i)
    {
      if i.reset {
        done := false;
      } else {
        match phase
        case Idle =>
          done, sat := false, false;
          if i.tenkhz {
            phase := ApplyOffsets;
          }
        case ApplyOffsets =>
          oc, phase := Wrap(raw - i.offset, FULL), ApplyGains;
        case ApplyGains =>
          ProductFits(oc, i.gain);
          fs, phase, dly := oc * i.gain, Scale, 0;
        case Scale =>
          setpt, phase := Slice(fs), CheckForSat;
        case CheckForSat =>
          CheckSaturation(i.twentyBits);
          phase := MultDly;
        case MultDly =>
          if dly == 6 {
            phase, done := Idle, true;
          } else {
            dly := (dly + 1) % 16;
          }
      }
      if i.reset {
        raw := 0;
      } else if i.tenkhz {
        raw := Selected(i);
      }
    }
  }

  // ---------------------------------------------------------------------------
  // One conversion
  // ---------------------------------------------------------------------------

  /** The computed setpoint as a function of what was sampled. */
  function Result(oc: s20, gain: s24, twentyBits: bool): s20 {
    Saturate(Slice(Product(oc, gain)), oc, twentyBits)
  }

  function Run(s: State, ins: seq<Input>): State
    decreases |ins|
  {
    if ins == [] then s else Run(Next(s, ins[0]), ins[1..])
  }

  lemma {:induction false} RunSplit(s: State, a: seq<Input>, b: seq<Input>)
    ensures Run(s, a + b) == Run(Run(s, a), b)
    decreases |a|
  {
    if a == [] {
      assert a + b == b;
    } else {
      assert (a + b)[1..] == a[1..] + b;
      RunSplit(Next(s, a[0]), a[1..], b);
    }
  }

  /** The seven clocks of the delay state hand the setpoint on unchanged. */
  lemma {:induction false} DelayClocks(s: State, ins: seq<Input>)
    requires s.phase == MultDly && !s.done && s.dly <= 6 && |ins| == 7 - s.dly
    requires forall k :: 0 <= k < |ins| ==> !ins[k].reset
    ensures var t := Run(s, ins); t.phase == Idle && t.done && t.setpt == s.setpt && t.oc == s.oc && t.sat == s.sat
    ensures forall k :: 0 <= k < |ins| ==> !Run(s, ins[..k]).done
    decreases 7 - s.dly
  {
    var t := Next(s, ins[0]);
    if s.dly == 6 {
      assert Run(s, ins) == Run(t, ins[1..]) == t;
      assert ins[..0] == [];
    } else {
      DelayClocks(t, ins[1..]);
      forall k | 0 <= k < |ins|
        ensures !Run(s, ins[..k]).done
      {
        if k > 0 {
          assert ins[..k][1..] == ins[1..][..k - 1];
        }
      }
    }
  }

  /**
   A 10 kHz trigger in IDLE, whether or not `done` is still high from the conversion before: `done` is high twelve
   clocks later and in none between, with the setpoint of the mode selected at the trigger, less the next clock's
   offset, times the gain of the clock after, saturated.
   */
  lemma Conversion(s: State, ins: seq<Input>)
    requires s.phase == Idle && |ins| == 12 && ins[0].tenkhz
    requires forall k :: 0 <= k < 12 ==> !ins[k].reset
    ensures var t := Run(s, ins);
      && t.done && t.phase == Idle
      && t.setpt == Result(Wrap(Selected(ins[0]) - ins[1].offset, FULL), ins[2].gain, ins[4].twentyBits)
      && (t.sat <==> t.setpt != Slice(Product(Wrap(Selected(ins[0]) - ins[1].offset, FULL), ins[2].gain)))
    ensures forall k :: 0 < k < 12 ==> !Run(s, ins[..k]).done
  {
    var s1 := Next(s, ins[0]);
    var s2 := Next(s1, ins[1]);
    var s3 := Next(s2, ins[2]);
    var s4 := Next(s3, ins[3]);
    var s5 := Next(s4, ins[4]);
    var front := [ins[0], ins[1], ins[2], ins[3], ins[4]];
    assert ins == front + ins[5..];
    assert front[1..] == [ins[1], ins[2], ins[3], ins[4]] && front[1..][1..] == [ins[2], ins[3], ins[4]];
    assert front[1..][1..][1..] == [ins[3], ins[4]] && front[1..][1..][1..][1..] == [ins[4]];
    assert Run(s4, [ins[4]]) == Run(s5, [ins[4]][1..]) == s5;
    assert Run(s3, [ins[3], ins[4]]) == s5 && Run(s2, [ins[2], ins[3], ins[4]]) == s5;
    assert Run(s1, front[1..]) == s5 && Run(s, front) == s5;
    RunSplit(s, front, ins[5..]);
    DelayClocks(s5, ins[5..]);
    forall k | 0 < k < 12
      ensures !Run(s, ins[..k]).done
    {
      if k >= 5 {
        assert ins[..k] == front + ins[5..][..k - 5];
        RunSplit(s, front, ins[5..][..k - 5]);
      } else if k == 4 {
        assert ins[..4][1..] == [ins[1], ins[2], ins[3]] && [ins[1], ins[2], ins[3]][1..] == [ins[2], ins[3]];
        assert [ins[2], ins[3]][1..] == [ins[3]];
        assert Run(s3, [ins[3]]) == Run(s4, [ins[3]][1..]) == s4;
        assert Run(s2, [ins[2], ins[3]]) == s4 && Run(s1, [ins[1], ins[2], ins[3]]) == s4;
      } else if k == 3 {
        assert ins[..3][1..] == [ins[1], ins[2]] && [ins[1], ins[2]][1..] == [ins[2]];
        assert Run(s2, [ins[2]]) == Run(s3, [ins[2]][1..]) == s3;
        assert Run(s1, [ins[1], ins[2]]) == s3;
      } else if k == 2 {
        assert ins[..2][1..] == [ins[1]];
        assert Run(s1, [ins[1]]) == Run(s2, [ins[1]][1..]) == s2;
      } else if k == 1 {
        assert Run(s, ins[..1]) == Run(s1, ins[..1][1..]) == s1;
      }
    }
  }

  // ---------------------------------------------------------------------------
  // Saturation is a clamp, exactly for these gains
  // ---------------------------------------------------------------------------

  function Clamp(x: int, half: int): int
    requires half > 0
  {
    if x < -half then -half else if x > half - 1 then half - 1 else x
  }

  /** The exact setpoint: the product scaled down and rounded to minus infinity. */
  function Scaled(oc: s20, gain: s24): int {
    Product(oc, gain) / ONE
  }

  lemma SliceInRange(x: s44)
    requires -FULL <= x / ONE < FULL
    ensures Slice(x) == x / ONE
  {
  }

  lemma FloorBounds(x: int)
    ensures x / ONE * ONE <= x < x / ONE * ONE + ONE
  {
  }

  /** With a gain between one step and two, the sign test finds every overflow. */
  lemma ClampTwenty(oc: s20, gain: s24)
    requires 1 <= gain <= 2 * ONE
    ensures Result(oc, gain, true) == Clamp(Scaled(oc, gain), FULL)
  {
    var v := Scaled(oc, gain);
    FloorBounds(Product(oc, gain));
    if oc >= 0 {
      Scale1(oc, gain);
      assert 0 <= v <= 2 * FULL - 2;
    } else {
      Scale2(oc, gain);
      assert -2 * FULL <= v <= -1;
    }
  }

  lemma Scale1(oc: nat, gain: nat)
    requires oc < FULL && gain <= 2 * ONE
    ensures 0 <= oc * gain <= (2 * FULL - 2) * ONE
  {
    assert oc * gain <= oc * (2 * ONE);
  }

  lemma Scale2(oc: int, gain: nat)
    requires -FULL <= oc < 0 && 1 <= gain <= 2 * ONE
    ensures -2 * FULL * ONE <= oc * gain < 0
  {
    assert oc * gain >= oc * (2 * ONE);
  }

  /** A product whose scaled value is one turn of the word away from where it belongs. */
  lemma SliceWraps(x: s44, v: int)
    requires v == x / ONE && (-3 * FULL <= v < -FULL || FULL <= v < 3 * FULL)
    ensures Slice(x) == if v < 0 then v + 2 * FULL else v - 2 * FULL
  {
  }

  /** A multiplier that brings `n * gain` just past `target`. */
  lemma JustPast(gain: int, target: nat) returns (n: nat)
    requires 0 < gain
    ensures target < n * gain <= target + gain && n == target / gain + 1
  {
    n := target / gain + 1;
    var q := target / gain;
    assert target == q * gain + target % gain;
    assert n * gain == q * gain + gain;
  }

  lemma MulMonotone(x: int, y: int, a: nat)
    requires x <= y
    ensures x * a <= y * a
  {
  }

  lemma QuotientBelow(target: int, gain: int, k: int)
    requires 0 <= target && 0 < k && 0 < gain && target < k * gain
    ensures target / gain < k
  {
  }

  /** Above twice the unit gain some input overflows by a whole turn, and the sign test misses it. */
  lemma TwentyMissesOverflow(gain: s24) returns (oc: s20)
    requires gain > 2 * ONE
    ensures Result(oc, gain, true) != Clamp(Scaled(oc, gain), FULL)
  {
    var target := 2 * FULL * ONE;
    assert target < FULL * gain;
    QuotientBelow(target, gain, FULL);
    var n := JustPast(gain, target);
    oc := -n;
    assert Product(oc, gain) == -(n * gain);
    FloorBounds(Product(oc, gain));
    SliceWraps(Product(oc, gain), Scaled(oc, gain));
  }

  /** On 20 bits the result is the clamped product for every input exactly when the gain is in (0, 2]. */
  lemma TwentyExact(gain: s24)
    ensures (forall oc: s20 :: Result(oc, gain, true) == Clamp(Scaled(oc, gain), FULL)) <==> 1 <= gain <= 2 * ONE
  {
    if 1 <= gain <= 2 * ONE {
      forall oc: s20
        ensures Result(oc, gain, true) == Clamp(Scaled(oc, gain), FULL)
      {
        ClampTwenty(oc, gain);
      }
    } else if gain > 2 * ONE {
      var oc := TwentyMissesOverflow(gain);
    } else if gain == 0 {
      assert Result(-1, gain, true) == -FULL && Scaled(-1, gain) == 0;
    } else {
      FloorBounds(gain);
      assert Product(1, gain) == gain;
      SliceInRange(gain);
      assert Result(1, gain, true) == FULL - 1 && Scaled(1, gain) < 0;
    }
  }

  /** On 18 bits the result is the clamped product whenever the product fits 20 bits. */
  lemma ClampEighteen(oc: s20, gain: s24)
    requires -FULL <= Scaled(oc, gain) < FULL
    ensures Result(oc, gain, false) == Clamp(Scaled(oc, gain), 131072)
  {
  }

  lemma UnitGainFits(oc: s20, gain: s24)
    requires -ONE < gain <= ONE
    ensures -FULL <= Scaled(oc, gain) < FULL
  {
    FloorBounds(Product(oc, gain));
    var a: nat := if oc >= 0 then oc else -(oc as int);
    MulMonotone(gain, ONE, a);
    MulMonotone(1 - ONE, gain, a);
    assert oc >= 0 ==> oc * gain == gain * a;
    assert oc < 0 ==> oc * gain == -(gain * a);
  }

  /** Beyond the unit gain some input overflows 20 bits, and the limits see the wrong sign. */
  lemma EighteenMissesOverflow(gain: s24) returns (oc: s20)
    requires gain > ONE || gain <= -ONE
    ensures Result(oc, gain, false) != Clamp(Scaled(oc, gain), 131072)
  {
    var m: int := if gain > 0 then gain else -(gain as int);
    var target := if gain > 0 then FULL * ONE else FULL * ONE - 1;
    assert target < FULL * m;
    QuotientBelow(target, m, FULL);
    var n := JustPast(m, target);
    oc := -n;
    if gain > 0 {
      assert Product(oc, gain) == -(n * m);
    } else {
      assert Product(oc, gain) == n * m;
    }
    FloorBounds(Product(oc, gain));
    SliceWraps(Product(oc, gain), Scaled(oc, gain));
  }

  /** On 18 bits the clamp is exact for every input exactly when the gain is in (-1, 1]. */
  lemma EighteenExact(gain: s24)
    ensures (forall oc: s20 :: Result(oc, gain, false) == Clamp(Scaled(oc, gain), 131072)) <==> -ONE < gain <= ONE
  {
    if -ONE < gain <= ONE {
      forall oc: s20
        ensures Result(oc, gain, false) == Clamp(Scaled(oc, gain), 131072)
      {
        UnitGainFits(oc, gain);
        ClampEighteen(oc, gain);
      }
    } else {
      var oc := EighteenMissesOverflow(gain);
    }
  }

  // ---------------------------------------------------------------------------
  // From the selected source to the setpoint
  // ---------------------------------------------------------------------------

  /** What the path should compute: the difference scaled without any limit on its size. */
  function Exact(raw: s20, offset: s20, gain: s24): int {
    (raw - offset) * gain / ONE
  }

  /**
    The difference is wrapped to 20 bits, not clamped: outside it changes sign, and the magnitude is below one
    turn.
  */
  lemma WrapTurns(d: int)
    requires -2 * FULL < d < 2 * FULL
    ensures Wrap(d, FULL) == if d < -FULL then d + 2 * FULL else if d < FULL then d else d - 2 * FULL
  {
  }

  lemma ScaledSign(d: int, gain: int)
    ensures d >= 0 && gain >= 0 ==> d * gain / ONE >= 0
    ensures d <= 0 && gain <= 0 ==> d * gain / ONE >= 0
    ensures d < 0 && gain > 0 ==> d * gain / ONE < 0
    ensures d > 0 && gain < 0 ==> d * gain / ONE < 0
  {
    FloorBounds(d * gain);
    if d >= 0 && gain >= 0 {
      MulMonotone(0, d, gain);
    } else if d < 0 && gain > 0 {
      MulMonotone(d, -1, gain);
    } else if d > 0 && gain < 0 {
      MulMonotone(1, d, -gain);
      assert d * gain == -(d * -gain);
    } else if d <= 0 && gain <= 0 {
      MulMonotone(0, -d, -gain);
      assert d * gain == -d * -gain;
    }
  }

  /** With a gain in (0, 2] the 20-bit path clamps the exact value exactly when the difference fits 20 bits. */
  lemma PathTwenty(raw: s20, offset: s20, gain: s24)
    requires 1 <= gain <= 2 * ONE
    ensures Result(Wrap(raw - offset, FULL), gain, true) == Clamp(Exact(raw, offset, gain), FULL)
            <==> -FULL <= raw - offset < FULL
  {
    var oc := Wrap(raw - offset, FULL);
    WrapTurns(raw - offset);
    ClampTwenty(oc, gain);
    ScaledSign(oc, gain);
    ScaledSign(raw - offset, gain);
  }

  /** With a gain in (-1, 1] the 18-bit path does so exactly when the difference fits 20 bits, or the gain is 0. */
  lemma PathEighteen(raw: s20, offset: s20, gain: s24)
    requires -ONE < gain <= ONE
    ensures Result(Wrap(raw - offset, FULL), gain, false) == Clamp(Exact(raw, offset, gain), 131072)
            <==> gain == 0 || -FULL <= raw - offset < FULL
  {
    var oc := Wrap(raw - offset, FULL);
    WrapTurns(raw - offset);
    UnitGainFits(oc, gain);
    ClampEighteen(oc, gain);
    ScaledSign(oc, gain);
    ScaledSign(raw - offset, gain);
  }

  /**
   A whole conversion, from the source selected at the trigger to the setpoint at `done`: in range of the gain, it is
   the clamped exact value exactly when source less offset fits 20 bits (or the gain is 0).
   */
  lemma ConversionExact(s: State, ins: seq<Input>)
    requires s.phase == Idle && |ins| == 12 && ins[0].tenkhz
    requires forall k :: 0 <= k < 12 ==> !ins[k].reset
    requires if ins[4].twentyBits then 1 <= ins[2].gain <= 2 * ONE else -ONE < ins[2].gain <= ONE
    ensures var raw, offset, gain := Selected(ins[0]), ins[1].offset, ins[2].gain;
      var half := if ins[4].twentyBits then FULL else 131072;
      && Run(s, ins).done
      && (Run(s, ins).setpt == Clamp(Exact(raw, offset, gain), half)
          <==> gain == 0 || -FULL <= raw - offset < FULL)
  {
    Conversion(s, ins);
    if ins[4].twentyBits {
      PathTwenty(Selected(ins[0]), ins[1].offset, ins[2].gain);
    } else {
      PathEighteen(Selected(ins[0]), ins[1].offset, ins[2].gain);
    }
  }

  /**
   The same source by source, in numbers: `x` less the offset, times the gain in units of 2^-20, clamped to 20 bits or
   to 18, exactly when the difference fits 20 bits (or the gain is 0).
   */
  predicate Converts(ins: seq<Input>, end: State, x: s20)
    requires |ins| == 12
  {
    var d := x - ins[1].offset;
    var exact := d * ins[2].gain / 1_048_576;
    var top := if ins[4].twentyBits then 524_287 else 131_071;
    && end.done
    && (end.setpt == (if exact > top then top else if exact < -top - 1 then -top - 1 else exact)
        <==> ins[2].gain == 0 || -524_288 <= d <= 524_287)
  }

  /** Mode 0 converts the smooth ramp, 1 the ramp table, 2 the fast feedback, 3 the jump setpoint of that clock. */
  lemma EachSource(s: State, ins: seq<Input>)
    requires s.phase == Idle && |ins| == 12 && ins[0].tenkhz && ins[0].mode <= 3
    requires forall k :: 0 <= k < 12 ==> !ins[k].reset
    requires if ins[4].twentyBits then 1 <= ins[2].gain <= 2_097_152 else -1_048_576 < ins[2].gain <= 1_048_576
    ensures ins[0].mode == 0 ==> Converts(ins, Run(s, ins), ins[0].smooth)
    ensures ins[0].mode == 1 ==> Converts(ins, Run(s, ins), ins[0].ramp)
    ensures ins[0].mode == 2 ==> Converts(ins, Run(s, ins), ins[0].fofb)
    ensures ins[0].mode == 3 ==> Converts(ins, Run(s, ins), ins[0].jump)
  {
    ConversionExact(s, ins);
  }

  /** Left justification loses nothing exactly on 18-bit values, and every 18-bit result is one. */
  lemma LeftJustification(setpt: s20, oc: s20, gain: s24)
    ensures DacData(setpt, false) == 4 * setpt <==> -131072 <= setpt <= 131071
    ensures DacData(Result(oc, gain, false), false) == 4 * Result(oc, gain, false)
  {
  }
  /** A reset holds the sequence where it is, and zeroes the selected setpoint. */
  lemma ResetHolds(s: State, i: Input)
    requires i.reset
    ensures Next(s, i) == s.(done := false, raw := 0)
  {
  }

  /** Out of reset the setpoint register takes a source at each trigger, and only there. */
  lemma SourceHeld(s: State, i: Input)
    requires !i.reset && !i.tenkhz
    ensures Next(s, i).raw == s.raw
  {
  }
}
