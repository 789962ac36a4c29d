/**
 What the fault logic guarantees over whole runs: debouncing as run length, the clear handshake,
 and the interlock of the ON1 output.
 */
module Interlock {
  import opened Words
  import opened FaultBlock

  // ---------------------------------------------------------------------------
  // The analog comparison
  // ---------------------------------------------------------------------------

  /**
   The comparison is that of the magnitudes exactly when both words, or neither, are the most negative
   code: alone, that code counts as the smallest value instead of the largest.
   */
  lemma ComparisonExact(x: int, threshold: int, half: int)
    requires half > 0 && -half <= x < half && -half <= threshold < half
    ensures (Exceeds(x, threshold, half) <==> Magnitude(x) >= Magnitude(threshold))
            <==> (x == -half <==> threshold == -half)
  {
  }

  // ---------------------------------------------------------------------------
  // Runs
  // ---------------------------------------------------------------------------

  datatype Clock = Clock(p: Params, i: Input)

  /** Runs without a reset; parameters and inputs may change at every clock. */
  predicate Fits(cs: seq<Clock>) {
    forall k :: 0 <= k < |cs| ==> |cs[k].p.limits| == COUNTERS && !cs[k].i.reset
  }

  predicate Full(s: State) {
    |s.cnt| == COUNTERS
  }

  function Run(s: State, cs: seq<Clock>): (t: State)
    requires Full(s) && Fits(cs)
    ensures Full(t)
    decreases |cs|
  {
    if cs == [] then s else Run(Next(s, cs[0].p, cs[0].i), cs[1..])
  }

  lemma {:induction false} RunSplit(s: State, a: seq<Clock>, b: seq<Clock>)
    requires Full(s) && Fits(a) && Fits(b)
    ensures Fits(a + b) && Run(s, a + b) == Run(Run(s, a), b)
    decreases |a|
  {
    if a == [] {
      assert a + b == b;
    } else {
      assert (a + b)[1..] == a[1..] + b;
      RunSplit(Next(s, a[0].p, a[0].i), a[1..], b);
    }
  }

  // ---------------------------------------------------------------------------
  // Debouncing is run length
  // ---------------------------------------------------------------------------

  /** What counter `k` sees at each 10 kHz pulse of a run: the condition, and no clear. */
  function Observed(s: State, cs: seq<Clock>, k: nat): (obs: seq<bool>)
    requires Full(s) && Fits(cs)
    decreases |cs|
  {
    if cs == [] then []
    else
      var rest := Observed(Next(s, cs[0].p, cs[0].i), cs[1..], k);
      if s.pulse then [Bad(k, s.dacChanged, cs[0].p, cs[0].i) && !s.clearPulse] + rest else rest
  }

  /** The length of the run of trues at the end of `obs`, after `before` trues in front of it. */
  function Trailing(before: nat, obs: seq<bool>): nat
    decreases |obs|
  {
    if obs == [] then before else Trailing(if obs[0] then before + 1 else 0, obs[1..])
  }

  /** The same without an accumulator: how many trues `obs` ends with. */
  lemma {:induction false} TrailingIsSuffix(before: nat, obs: seq<bool>)
    ensures var n := Trailing(before, obs);
      if false in obs then n < |obs| && !obs[|obs| - 1 - n] && (forall j :: |obs| - n <= j < |obs| ==> obs[j])
      else n == before + |obs|
    decreases |obs|
  {
    if obs != [] {
      var b := if obs[0] then before + 1 else 0;
      TrailingIsSuffix(b, obs[1..]);
      assert obs == [obs[0]] + obs[1..];
      if false in obs[1..] {
        assert obs[1..][|obs| - 2 - Trailing(before, obs)] == obs[|obs| - 1 - Trailing(before, obs)];
        assert forall j :: 1 <= j < |obs| ==> obs[j] == obs[1..][j - 1];
      } else {
        assert forall j :: 1 <= j < |obs| ==> obs[j] == obs[1..][j - 1];
      }
    }
  }

  predicate ConstantLimit(cs: seq<Clock>, k: nat, limit: u16)
    requires Fits(cs) && k < COUNTERS
  {
    forall j :: 0 <= j < |cs| ==> cs[j].p.limits[k] == limit
  }

  /** Counter and live bit stand for a run of length `n`. */
  predicate Stands(s: State, k: nat, limit: u16, n: nat)
    requires Full(s) && k < COUNTERS
  {
    s.cnt[k] == Min(n, limit) && (k in s.live <==> n > limit)
  }

  lemma CountStep(s: State, c: Clock, k: nat, limit: u16, n: nat)
    requires Full(s) && Fits([c]) && k < COUNTERS && |c.p.limits| == COUNTERS && !c.i.reset && c.p.limits[k] == limit
    requires Stands(s, k, limit, n)
    ensures Stands(Next(s, c.p, c.i), k, limit,
                   if !s.pulse then n else if Bad(k, s.dacChanged, c.p, c.i) && !s.clearPulse then n + 1 else 0)
  {
  }

  /** After any run the counter is the run length cut at the limit, and the live bit tells that it is longer. */
  lemma {:induction false} DebounceIsRunLength(s: State, cs: seq<Clock>, k: nat, limit: u16, n: nat)
    requires Full(s) && Fits(cs) && k < COUNTERS && ConstantLimit(cs, k, limit) && Stands(s, k, limit, n)
    ensures Stands(Run(s, cs), k, limit, Trailing(n, Observed(s, cs, k)))
    decreases |cs|
  {
    if cs != [] {
      assert cs[0] in cs;
      CountStep(s, cs[0], k, limit, n);
      var m := if !s.pulse then n else if Bad(k, s.dacChanged, cs[0].p, cs[0].i) && !s.clearPulse then n + 1 else 0;
      DebounceIsRunLength(Next(s, cs[0].p, cs[0].i), cs[1..], k, limit, m);
    }
  }

  /** A reset puts the analog counters there, the digital ones keep their counts. */
  lemma ResetStands(s: State, p: Params, i: Input, k: nat, limit: u16)
    requires Shape(s, p) && i.reset && k < COUNTERS
    ensures k < 6 ==> Stands(Next(s, p, i), k, limit, 0)
    ensures k >= 6 ==> Next(s, p, i).cnt[k] == s.cnt[k] && k !in Next(s, p, i).live
  {
  }

  /** A digital counter may power up anywhere: from the first good pulse on it counts run length too. */
  lemma {:induction false} DebounceAfterGoodPulse(s: State, cs: seq<Clock>, k: nat, limit: u16)
    requires Full(s) && Fits(cs) && k < COUNTERS && ConstantLimit(cs, k, limit) && false in Observed(s, cs, k)
    ensures Stands(Run(s, cs), k, limit, Trailing(0, Observed(s, cs, k)))
    decreases |cs|
  {
    var t := Next(s, cs[0].p, cs[0].i);
    assert cs[0] in cs;
    if s.pulse && !(Bad(k, s.dacChanged, cs[0].p, cs[0].i) && !s.clearPulse) {
      assert Stands(t, k, limit, 0);
      DebounceIsRunLength(t, cs[1..], k, limit, 0);
    } else {
      DebounceAfterGoodPulse(t, cs[1..], k, limit);
      TrailingForgets(0, if s.pulse then 1 else 0, Observed(t, cs[1..], k));
    }
  }

  lemma {:induction false} TrailingForgets(a: nat, b: nat, obs: seq<bool>)
    requires false in obs
    ensures Trailing(a, obs) == Trailing(b, obs)
    decreases |obs|
  {
    if obs[0] {
      assert false in obs[1..];
      TrailingForgets(a + 1, b + 1, obs[1..]);
    }
  }

  // ---------------------------------------------------------------------------
  // The clear window
  // ---------------------------------------------------------------------------

  /** A rising edge of `clear`, two clocks old. */
  predicate ClearEdge(s: State) {
    s.re && !s.reReg
  }

  lemma WindowOpensOnEdge(s: State, p: Params, i: Input)
    requires Shape(s, p)
    ensures ClearEdge(s) ==> Next(s, p, i).clearPulse
    ensures !s.clearPulse && Next(s, p, i).clearPulse ==> ClearEdge(s)
  {
  }

  /** Everything the clear is for: no counts, no live bits but the event receiver's, no latches. */
  predicate AllClear(s: State)
    requires Full(s)
  {
    && (forall k :: 0 <= k < COUNTERS ==> s.cnt[k] == 0)
    && (forall b :: b in s.live ==> b >= EVR_BIT)
    && (forall b :: b in s.lat ==> b > EVR_BIT)
  }

  /** Bit 11 is never raised: its detector is not there. */
  predicate NoHeartbeatBit(s: State) {
    11 !in s.live && 11 !in s.lat
  }

  lemma HeartbeatBitStaysOff(s: State, p: Params, i: Input)
    requires Shape(s, p) && NoHeartbeatBit(s)
    ensures NoHeartbeatBit(Next(s, p, i))
  {
  }

  lemma WindowClosesClear(s: State, p: Params, i: Input)
    requires Shape(s, p) && !i.reset && NoHeartbeatBit(s) && s.clearPulse && !Next(s, p, i).clearPulse
    ensures s.pulse && AllClear(Next(s, p, i))
  {
  }

  /** The state after the first `n` clocks of a run. */
  function At(s: State, cs: seq<Clock>, n: nat): (t: State)
    requires Full(s) && Fits(cs) && n <= |cs|
    ensures Full(t)
  {
    Run(s, cs[..n])
  }

  lemma AtStep(s: State, cs: seq<Clock>, n: nat)
    requires Full(s) && Fits(cs) && n < |cs|
    ensures At(s, cs, n + 1) == Next(At(s, cs, n), cs[n].p, cs[n].i)
  {
    assert cs[..n + 1] == cs[..n] + [cs[n]];
    RunSplit(s, cs[..n], [cs[n]]);
    assert Run(At(s, cs, n), [cs[n]]) == Run(Next(At(s, cs, n), cs[n].p, cs[n].i), [cs[n]][1..]);
  }

  /** An open window that is closed again has seen a 10 kHz pulse, and the state behind it is all clear. */
  lemma {:induction false} WindowClears(s: State, cs: seq<Clock>) returns (n: nat)
    requires Full(s) && Fits(cs) && NoHeartbeatBit(s) && s.clearPulse && !Run(s, cs).clearPulse
    ensures n < |cs| && At(s, cs, n).pulse && At(s, cs, n).clearPulse
    ensures !At(s, cs, n + 1).clearPulse && AllClear(At(s, cs, n + 1))
    decreases |cs|
  {
    var t := Next(s, cs[0].p, cs[0].i);
    assert cs[0] in cs;
    HeartbeatBitStaysOff(s, cs[0].p, cs[0].i);
    assert At(s, cs, 0) == s;
    AtStep(s, cs, 0);
    if t.clearPulse {
      var m := WindowClears(t, cs[1..]);
      assert cs[..m + 1][1..] == cs[1..][..m] && cs[..m + 2][1..] == cs[1..][..m + 1];
      n := m + 1;
    } else {
      WindowClosesClear(s, cs[0].p, cs[0].i);
      n := 0;
    }
  }

  // ---------------------------------------------------------------------------
  // After a clear
  // ---------------------------------------------------------------------------

  function BadPulses(s: State, cs: seq<Clock>, k: nat): nat
    requires Full(s) && Fits(cs)
    decreases |cs|
  {
    if cs == [] then 0
    else
      (if s.pulse && Bad(k, s.dacChanged, cs[0].p, cs[0].i) then 1 else 0)
      + BadPulses(Next(s, cs[0].p, cs[0].i), cs[1..], k)
  }

  /** From a run of length `n`, `limit - n` more bad pulses raise nothing. */
  lemma {:induction false} NoEarlyLatch(s: State, cs: seq<Clock>, k: nat, limit: u16, n: nat)
    requires Full(s) && Fits(cs) && k < COUNTERS && ConstantLimit(cs, k, limit) && Stands(s, k, limit, n)
    requires n + BadPulses(s, cs, k) <= limit && k !in s.lat
    ensures k !in Run(s, cs).live && k !in Run(s, cs).lat
    decreases |cs|
  {
    if cs != [] {
      assert cs[0] in cs;
      CountStep(s, cs[0], k, limit, n);
      var m := if !s.pulse then n else if Bad(k, s.dacChanged, cs[0].p, cs[0].i) && !s.clearPulse then n + 1 else 0;
      NoEarlyLatch(Next(s, cs[0].p, cs[0].i), cs[1..], k, limit, m);
    }
  }

  /** Behind a clear no debounced bit latches before `limit + 1` further bad pulses. */
  lemma ClearBuysTime(s: State, cs: seq<Clock>, k: nat, limit: u16)
    requires Full(s) && Fits(cs) && k < COUNTERS && ConstantLimit(cs, k, limit)
    requires AllClear(s) && BadPulses(s, cs, k) <= limit
    ensures k !in Run(s, cs).live && k !in Run(s, cs).lat
  {
    NoEarlyLatch(s, cs, k, limit, 0);
  }

  // ---------------------------------------------------------------------------
  // Latches and the interlock
  // ---------------------------------------------------------------------------

  /** No clear window is open at any clock of the run. */
  ghost predicate NoWindow(s: State, cs: seq<Clock>)
    requires Full(s) && Fits(cs)
  {
    forall n :: 0 <= n < |cs| ==> !At(s, cs, n).clearPulse
  }

  lemma NoWindowTail(s: State, cs: seq<Clock>)
    requires Full(s) && Fits(cs) && NoWindow(s, cs) && cs != []
    ensures !s.clearPulse && NoWindow(Next(s, cs[0].p, cs[0].i), cs[1..])
  {
    assert At(s, cs, 0) == s;
    var t := Next(s, cs[0].p, cs[0].i);
    forall n | 0 <= n < |cs| - 1
      ensures !At(t, cs[1..], n).clearPulse
    {
      assert cs[..n + 1][1..] == cs[1..][..n];
      assert At(s, cs, n + 1) == At(t, cs[1..], n);
    }
  }

  /** Outside clear windows latches only grow. */
  lemma {:induction false} LatchesOnlyGrow(s: State, cs: seq<Clock>)
    requires Full(s) && Fits(cs) && NoWindow(s, cs)
    ensures s.lat <= Run(s, cs).lat
    decreases |cs|
  {
    if cs != [] {
      NoWindowTail(s, cs);
      assert cs[0] in cs;
      LatchesOnlyGrow(Next(s, cs[0].p, cs[0].i), cs[1..]);
    }
  }

  /** The mask register behind a clock: the latched and enabled bits of 0x1FEF, which are 0 to 12 less 4. */
  lemma MaskExact(s: State, p: Params, i: Input, b: nat)
    requires Shape(s, p)
    ensures b in Next(s, p, i).latMask <==> b in s.lat && b in p.enable && b <= 12 && b != 4
    ensures Trips(Next(s, p, i)) <==> exists c :: c in s.lat && c in p.enable && c <= 12 && c != 4
  {
    var t := Next(s, p, i);
    if Trips(t) {
      var c :| c in t.latMask;
      assert c in s.lat;
    }
    if c :| c in s.lat && c in p.enable && c <= 12 && c != 4 {
      assert c in t.latMask;
    }
  }

  /** A latched, enabled trip bit reaches the mask register with the next clock. */
  lemma {:induction false} LatchedTrips(s: State, cs: seq<Clock>, b: nat)
    requires Full(s) && Fits(cs) && NoWindow(s, cs) && b in s.lat && b <= 12 && b != 4 && cs != []
    requires forall j :: 0 <= j < |cs| ==> b in cs[j].p.enable
    ensures b in Run(s, cs).lat && b in Run(s, cs).latMask
    decreases |cs|
  {
    NoWindowTail(s, cs);
    assert cs[0] in cs;
    var t := Next(s, cs[0].p, cs[0].i);
    if |cs| == 1 {
      assert Run(s, cs) == Run(t, cs[1..]) == t;
    } else {
      LatchedTrips(t, cs[1..], b);
    }
  }

  /**
   The interlock: from the third clock after the deciding pulse, and until a clear window, an enabled trip
   bit keeps ON1 low. `s` is the state behind the deciding pulse, which shows the live bit.
   */
  lemma InterlockHolds(s: State, cs: seq<Clock>, b: nat, psOn1: bool)
    requires Full(s) && Fits(cs) && NoWindow(s, cs) && b in s.live && b <= 12 && b != 4 && |cs| >= 2
    requires forall j :: 0 <= j < |cs| ==> b in cs[j].p.enable
    ensures Trips(Run(s, cs)) && !On1(Run(s, cs), psOn1)
  {
    NoWindowTail(s, cs);
    assert cs[0] in cs;
    LatchedTrips(Next(s, cs[0].p, cs[0].i), cs[1..], b);
  }

  /** The deciding pulse itself: the one that makes the run longer than the limit. */
  lemma DecidingPulse(s: State, c: Clock, k: nat, limit: u16)
    requires Full(s) && |c.p.limits| == COUNTERS && !c.i.reset && k < COUNTERS && c.p.limits[k] == limit
    requires Stands(s, k, limit, limit) && s.pulse && !s.clearPulse && Bad(k, s.dacChanged, c.p, c.i)
    ensures k !in s.live && k in Next(s, c.p, c.i).live
  {
    CountStep(s, c, k, limit, limit);
  }

  /**
   The glitch bit never switches the supply off: with or without it latched, the mask register is the same.
   Live and enabled it is all that the error trigger sees.
   */
  lemma GlitchNeverTrips(s: State, p: Params, i: Input)
    requires Shape(s, p)
    ensures GLITCH_BIT !in Next(s, p, i).latMask
    ensures Next(s, p, i).latMask == Next(s.(lat := s.lat - {GLITCH_BIT}), p, i).latMask
    ensures Next(s, p, i).errMask == if GLITCH_BIT in s.live && GLITCH_BIT in p.enable then {GLITCH_BIT} else {}
  {
  }
  // ---------------------------------------------------------------------------
  // From the inputs to ON1
  // ---------------------------------------------------------------------------

  /**
   The comparison of `x` with a threshold, both of `half` values a side: of the magnitudes, exactly unless just one of
   the two is the most negative code.
   */
  predicate Compares(bad: bool, x: int, threshold: int, half: int) {
    (bad <==> Magnitude(x) >= Magnitude(threshold)) <==> (x == -half <==> threshold == -half)
  }

  /**
   What each counter watches, over the inputs. The two error checks count only out of park and while the setpoint
   stands; the digital ones read their own line.
   */
  lemma Watches(moving: bool, p: Params, i: Input)
    ensures Compares(Bad(0, moving, p, i), i.dcct0, p.ovc1, 524_288)
    ensures Compares(Bad(1, moving, p, i), i.dcct1, p.ovc2, 524_288)
    ensures Compares(Bad(2, moving, p, i), i.voltage, p.ovv, 32_768)
    ensures if i.park || moving then !Bad(3, moving, p, i)
            else Compares(Bad(3, moving, p, i), i.psError, p.err1, 32_768)
    ensures if i.park || moving then !Bad(4, moving, p, i)
            else Compares(Bad(4, moving, p, i), i.psError, p.err2, 32_768)
    ensures Compares(Bad(5, moving, p, i), i.igndMon, p.ignd, 32_768)
    ensures (Bad(6, moving, p, i) <==> !i.dcctFault) && (Bad(7, moving, p, i) <==> i.fault1)
    ensures (Bad(8, moving, p, i) <==> i.fault2) && (Bad(9, moving, p, i) <==> i.fault3)
    ensures Bad(10, moving, p, i) <==> i.acOnOut && !i.acOnIn
  {
  }

  predicate Live(c: Clock) {
    |c.p.limits| == COUNTERS && !c.i.reset
  }

  function Then(s: State, c: Clock): (t: State)
    requires Full(s) && Live(c)
    ensures Full(t)
  {
    Next(s, c.p, c.i)
  }

  /** The pulse that the counters work on is the 10 kHz trigger of three clocks before. */
  lemma PulseDelay(s: State, a: Clock, b: Clock, c: Clock)
    requires Full(s) && Live(a) && Live(b) && Live(c)
    ensures Then(Then(Then(s, a), b), c).pulse == a.i.tenkhz
  {
  }

  /** A window opens two clocks behind a rise of the clear bit, at no other clock, and lasts until a pulse. */
  lemma WindowExact(s: State, a: Clock, b: Clock, c: Clock)
    requires Full(s) && Live(a) && Live(b) && Live(c)
    ensures var t := Then(Then(s, a), b);
      Then(t, c).clearPulse <==> (!a.p.clear && b.p.clear) || (t.clearPulse && !t.pulse)
  {
  }

  /** No 10 kHz trigger in the run. */
  predicate NoTrigger(cs: seq<Clock>) {
    forall k :: 0 <= k < |cs| ==> !cs[k].i.tenkhz
  }

  lemma {:induction false} SetpointsStay(s: State, cs: seq<Clock>)
    requires Full(s) && Fits(cs) && NoTrigger(cs)
    ensures Run(s, cs).dacNew == s.dacNew && Run(s, cs).dacOld == s.dacOld
    ensures cs != [] ==> (Run(s, cs).dacChanged <==> s.dacNew != s.dacOld)
    decreases |cs|
  {
    if cs != [] {
      assert !cs[0].i.tenkhz && !cs[0].i.reset;
      SetpointsStay(Next(s, cs[0].p, cs[0].i), cs[1..]);
    }
  }

  /** Between triggers the change flag tells whether the setpoints at the last two of them differ. */
  lemma SetpointMoves(s: State, first: Clock, between: seq<Clock>, second: Clock, after: seq<Clock>)
    requires Full(s) && Live(first) && Fits(between) && Live(second) && Fits(after)
    requires first.i.tenkhz && NoTrigger(between) && second.i.tenkhz && NoTrigger(after) && after != []
    ensures var moved := Run(Then(Run(Then(s, first), between), second), after).dacChanged;
      moved <==> first.i.dacSetpoint != second.i.dacSetpoint
  {
    SetpointsStay(Then(s, first), between);
    SetpointsStay(Then(Run(Then(s, first), between), second), after);
  }

  /** The event receiver's fault is live in the next clock and no longer than it lasts. */
  lemma EvrLive(s: State, p: Params, i: Input)
    requires Shape(s, p) && !i.reset
    ensures 12 in Next(s, p, i).live <==> i.evrFault
  {
  }

  /** A latch takes a live bit in every clock out of reset and window, and nothing else sets it. */
  lemma LatchExact(s: State, p: Params, i: Input, b: nat)
    requires Shape(s, p) && b <= 12
    ensures b in Next(s, p, i).lat <==> !i.reset && !s.clearPulse && (b in s.lat || b in s.live)
  {
  }

  /**
   A fault that has lasted longer than its limit switches ON1 off two clocks later, and keeps it off until a clear
   window is opened, whatever the inputs do: from a state without counts, with bit `k` enabled behind the deciding
   pulse.
   */
  lemma FaultTrips(s: State, cs: seq<Clock>, rest: seq<Clock>, k: nat, limit: u16, psOn1: bool)
    requires Full(s) && Fits(cs) && Fits(rest) && Fits(cs + rest) && k < COUNTERS && k != 4
    requires ConstantLimit(cs, k, limit) && Stands(s, k, limit, 0) && Trailing(0, Observed(s, cs, k)) > limit
    requires NoWindow(Run(s, cs), rest) && |rest| >= 2 && forall j :: 0 <= j < |rest| ==> k in rest[j].p.enable
    ensures !On1(Run(s, cs + rest), psOn1)
  {
    DebounceIsRunLength(s, cs, k, limit, 0);
    RunSplit(s, cs, rest);
    InterlockHolds(Run(s, cs), rest, k, psOn1);
  }

  /** Without a latched trip bit ON1 follows its command. */
  lemma NoFaultNoTrip(s: State, p: Params, i: Input, psOn1: bool)
    requires Shape(s, p) && forall b :: b in s.lat && b in p.enable ==> b == 4 || b > 12
    ensures On1(Next(s, p, i), psOn1) == psOn1
  {
    var t := Next(s, p, i);
    if c :| c in t.latMask {
      MaskExact(s, p, i, c);
    }
  }

  /** A reset leaves no fault, no pulse on its way and no change of the setpoint. */
  lemma ResetState(s: State, p: Params, i: Input)
    requires Shape(s, p) && i.reset
    ensures var t := Next(s, p, i);
      && t.live == {} && t.lat == {} && !t.pulse && !t.dff0 && !t.dff1 && !t.dacChanged && t.dacNew == t.dacOld == 0
  {
  }
  // ---------------------------------------------------------------------------
  // A limit that is lowered
  // ---------------------------------------------------------------------------

  /** A counter above its limit, as a limit lowered in mid-run or a power-up leaves it. */
  predicate Above(s: State, k: nat, limit: u16, n: nat)
    requires Full(s) && k < COUNTERS
  {
    s.cnt[k] == n && k !in s.live && limit < n < (if k == 10 then 0x1_0000_0000 else 0x1_0000)
  }

  lemma AboveStep(s: State, c: Clock, k: nat, limit: u16, n: nat)
    requires Full(s) && Live(c) && k < COUNTERS && c.p.limits[k] == limit && Above(s, k, limit, n)
    requires s.pulse ==> Bad(k, s.dacChanged, c.p, c.i) && !s.clearPulse
    ensures var t := Then(s, c);
      if !s.pulse then Above(t, k, limit, n)
      else if n + 1 < (if k == 10 then 0x1_0000_0000 else 0x1_0000) then Above(t, k, limit, n + 1)
      else Stands(t, k, limit, 0)
  {
  }

  lemma ObservedFirst(s: State, cs: seq<Clock>, k: nat)
    requires Full(s) && Fits(cs) && cs != [] && false !in Observed(s, cs, k)
    ensures var rest := Observed(Then(s, cs[0]), cs[1..], k);
      && false !in rest && |Observed(s, cs, k)| == |rest| + (if s.pulse then 1 else 0)
    ensures s.pulse ==> Bad(k, s.dacChanged, cs[0].p, cs[0].i) && !s.clearPulse
  {
    var obs := Observed(s, cs, k);
    if s.pulse {
      assert obs[0] in obs;
    }
  }

  /**
   Such a counter has to run on to its width, 16 bits or 32 for AC-on, and then up from 0: the fault comes `width - n`
   pulses late.
   */
  lemma {:induction false} LoweredLimit(s: State, cs: seq<Clock>, k: nat, limit: u16, n: nat)
    requires Full(s) && Fits(cs) && k < COUNTERS && ConstantLimit(cs, k, limit) && Above(s, k, limit, n)
    requires false !in Observed(s, cs, k)
    ensures var m := |Observed(s, cs, k)|; var width := if k == 10 then 0x1_0000_0000 else 0x1_0000;
      if m < width - n then Above(Run(s, cs), k, limit, n + m) else Stands(Run(s, cs), k, limit, m - (width - n))
    decreases |cs|
  {
    if cs != [] {
      assert cs[0] in cs;
      AboveStep(s, cs[0], k, limit, n);
      ObservedFirst(s, cs, k);
      var t := Then(s, cs[0]);
      if Stands(t, k, limit, 0) {
        DebounceIsRunLength(t, cs[1..], k, limit, 0);
        AllTrue(0, Observed(t, cs[1..], k));
      } else {
        LoweredLimit(t, cs[1..], k, limit, if s.pulse then n + 1 else n);
      }
    }
  }

  lemma {:induction false} AllTrue(before: nat, obs: seq<bool>)
    requires false !in obs
    ensures Trailing(before, obs) == before + |obs|
    decreases |obs|
  {
    if obs != [] {
      assert obs[0] in obs;
      AllTrue(before + 1, obs[1..]);
    }
  }
}
