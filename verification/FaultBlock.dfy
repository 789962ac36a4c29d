/**
 The fault interlock of one channel, fault_block.vhd: eleven debounce counters clocked by the 10 kHz
 pulse, live and latched fault bits, the clear handshake and the enable masks.

 A 16-bit fault register is the set of its bits that are one. The heartbeat detector drives nothing
 and is not carried.
 */
module FaultBlock {
  import opened Words

  /** Debounced faults: bits 0 to 5 are analog, 6 to 10 digital. Bit 12 is the event receiver's. */
  const COUNTERS := 11
  const ANALOG := 6
  const EVR_BIT := 12

  /** The glitch bit, which only triggers a snapshot. */
  const GLITCH_BIT := 4

  /** 0x1FEF: the bits that may switch the supply off. */
  predicate MayTrip(b: nat) {
    b <= EVR_BIT && b != GLITCH_BIT
  }

  /** `x"1FEF" and lat and enable` */
  function TripMask(lat: set<nat>, enable: set<nat>): set<nat> {
    set b <- lat | MayTrip(b) && b in enable
  }

  /** `x"0010" and live and enable` */
  function GlitchMask(live: set<nat>, enable: set<nat>): set<nat> {
    set b <- live | b == GLITCH_BIT && b in enable
  }

  datatype Params = Params(
    clear: bool, enable: set<nat>,
    ovc1: s20, ovc2: s20, ovv: s16, err1: s16, err2: s16, ignd: s16,
    limits: seq<u16>)

  datatype Input = Input(
    reset: bool, tenkhz: bool, dcct0: s20, dcct1: s20, voltage: s16, psError: s16, igndMon: s16,
    dcctFault: bool, fault1: bool, fault2: bool, fault3: bool, acOnOut: bool, acOnIn: bool,
    park: bool, dacSetpoint: s20, evrFault: bool)

  datatype State = State(
    dff0: bool, dff1: bool, pulse: bool,
    re: bool, reReg: bool, clearPulse: bool,
    dacNew: s20, dacOld: s20, dacChanged: bool,
    cnt: seq<nat>, live: set<nat>, lat: set<nat>, latMask: set<nat>, errMask: set<nat>)

  /** `abs` of a two's complement word: the most negative code stays as it is. */
  function Abs(x: int, half: int): int {
    if x == -half then -half else if x < 0 then -x else x
  }

  function Magnitude(x: int): nat {
    if x < 0 then -x else x
  }

  predicate Exceeds(x: int, threshold: int, half: int) {
    Abs(x, half) >= Abs(threshold, half)
  }

  /** The condition that counter `k` counts; the error checks are off in park and while the setpoint moves. */
  predicate Bad(k: nat, dacChanged: bool, p: Params, i: Input) {
    match k
    case 0 => Exceeds(i.dcct0, p.ovc1, 0x8_0000)
    case 1 => Exceeds(i.dcct1, p.ovc2, 0x8_0000)
    case 2 => Exceeds(i.voltage, p.ovv, 0x8000)
    case 3 => !i.park && !dacChanged && Exceeds(i.psError, p.err1, 0x8000)
    case 4 => !i.park && !dacChanged && Exceeds(i.psError, p.err2, 0x8000)
    case 5 => Exceeds(i.igndMon, p.ignd, 0x8000)
    case 6 => !i.dcctFault
    case 7 => i.fault1
    case 8 => i.fault2
    case 9 => i.fault3
    case 10 => i.acOnOut && !i.acOnIn
    case _ => false
  }

  /** Width of counter `k`: the AC-on counter has 32 bits. */
  function Width(k: nat): nat {
    if k == 10 then TWO_32 else TWO_16
  }

  predicate Shape(s: State, p: Params) {
    |s.cnt| == COUNTERS && |p.limits| == COUNTERS
  }

  /** What a 10 kHz pulse makes of counter `k` and of its live bit. */
  function NextCount(k: nat, s: State, p: Params, i: Input): nat
    requires Shape(s, p) && k < COUNTERS
  {
    if !Bad(k, s.dacChanged, p, i) || s.clearPulse then 0
    else if s.cnt[k] == p.limits[k] then s.cnt[k]
    else (s.cnt[k] + 1) % Width(k)
  }

  predicate NextLive(k: nat, s: State, p: Params, i: Input)
    requires Shape(s, p) && k < COUNTERS
  {
    Bad(k, s.dacChanged, p, i) && !s.clearPulse && (k in s.live || s.cnt[k] == p.limits[k])
  }

  function NextCounts(s: State, p: Params, i: Input): (c: seq<nat>)
    requires Shape(s, p)
    ensures |c| == COUNTERS
  {
    if i.reset then seq(COUNTERS, k requires 0 <= k < COUNTERS => if k < ANALOG then 0 else s.cnt[k])
    else if s.pulse then seq(COUNTERS, k requires 0 <= k < COUNTERS => NextCount(k, s, p, i))
    else s.cnt
  }

  function NextLives(s: State, p: Params, i: Input): set<nat>
    requires Shape(s, p)
  {
    if i.reset then {}
    else
      var counted := if s.pulse
                     then (set k: nat | k < COUNTERS && NextLive(k, s, p, i)) + (set b <- s.live | b >= COUNTERS)
                     else s.live;
      if i.evrFault then counted + {EVR_BIT} else counted - {EVR_BIT}
  }

  function NextLatched(s: State, i: Input): set<nat> {
    if i.reset then {}
    else if s.clearPulse then (set b <- s.lat | b > EVR_BIT)
    else s.lat + (set b <- s.live | b <= EVR_BIT)
  }

  /** One rising clock edge of every process. */
  function Next(s: State, p: Params, i: Input): (t: State)
    requires Shape(s, p)
    ensures Shape(t, p)
  {
    State(
      !i.reset && i.tenkhz, !i.reset && s.dff0, !i.reset && s.dff1,
      p.clear, s.re,
      if !s.reReg && s.re then true else if s.pulse then false else s.clearPulse,
      if i.reset then 0 else if i.tenkhz then i.dacSetpoint else s.dacNew,
      if i.reset then 0 else if i.tenkhz then s.dacNew else s.dacOld,
      !i.reset && s.dacNew != s.dacOld,
      NextCounts(s, p, i), NextLives(s, p, i), NextLatched(s, i),
      TripMask(s.lat, p.enable), GlitchMask(s.live, p.enable))
  }

  /** `flt_trig`, and the ON1 output it gates in digio_logic.vhd. */
  predicate Trips(s: State) {
    s.latMask != {}
  }

  predicate On1(s: State, psOn1: bool) {
    psOn1 && !Trips(s)
  }

  // ---------------------------------------------------------------------------
  // The entity
  // ---------------------------------------------------------------------------

  class FaultLogic {
    var dff0: bool
    var dff1: bool
    var pulse: bool
    var re: bool
    var reReg: bool
    var clearPulse: bool
    var dacNew: s20
    var dacOld: s20
    var dacChanged: bool
    var cnt: seq<nat>
    var live: set<nat>
    var lat: set<nat>
    var latMask: set<nat>
    var errMask: set<nat>

    ghost function View(): State
      reads this
    {
      State(dff0, dff1, pulse, re, reReg, clearPulse, dacNew, dacOld, dacChanged, cnt, live, lat, latMask, errMask)
    }

    constructor ()
      ensures |cnt| == 11 && live == {} && lat == {} && !clearPulse
    {
      dff0, dff1, pulse, re, reReg, clearPulse := false, false, false, false, false, false;
      dacNew, dacOld, dacChanged, cnt := 0, 0, false, seq(COUNTERS, _ => 0);
      live, lat, latMask, errMask := {}, {}, {}, {};
    }

    /** The debounce of one fault: the counter saturates at its limit and then raises the live bit. */
    method Debounce(k: nat, bad: bool, clear: bool, limit: u16)
      requires k < |cnt|
      modifies `cnt, `live
      ensures |cnt| == |old(cnt)|
      ensures cnt == old(cnt)[k := if !bad || clear then 0
                                   else if old(cnt)[k] == limit then old(cnt)[k] else (old(cnt)[k] + 1) % Width(k)]
      ensures live == if !bad || clear then old(live) - {k}
                      else if old(cnt)[k] == limit then old(live) + {k} else old(live)
    {
      if bad && !clear {
        if cnt[k] == limit {
          live := live + {k};
        } else {
          cnt := cnt[k := (cnt[k] + 1) % Width(k)];
        }
      } else {
        cnt := cnt[k := 0];
        live := live - {k};
      }
    }

    /** The threshold and digital checks of one 10 kHz pulse. */
    method CheckFaults(p: Params, i: Input)
      requires Shape(View(), p) && !i.reset && pulse
      modifies `cnt, `live
      ensures cnt == NextCounts(old(View()), p, i)
      ensures live ==
        (set k: nat | k < COUNTERS && NextLive(k, old(View()), p, i)) + (set b <- old(live) | b >= COUNTERS)
    {
      ghost var was := View();
      for k := 0 to COUNTERS
        invariant |cnt| == COUNTERS
        invariant forall j :: 0 <= j < k ==> cnt[j] == NextCount(j, was, p, i)
        invariant forall j :: k <= j < COUNTERS ==> cnt[j] == was.cnt[j]
        invariant forall j: nat :: j < k ==> (j in live <==> NextLive(j, was, p, i))
        invariant forall j: nat :: k <= j ==> (j in live <==> j in was.live)
      {
        Debounce(k, Bad(k, dacChanged, p, i), clearPulse, p.limits[k]);
      }
    }

    /** Counters, live bits and latches; the latches see the live bits from before the edge. */
    method MainProcess(p: Params, i: Input)
      requires Shape(View(), p)
      modifies `cnt, `live, `lat
      ensures cnt == NextCounts(old(View()), p, i) && live == NextLives(old(View()), p, i)
        && lat == NextLatched(old(View()), i)
    {
      if i.reset {
        var c := cnt;
        cnt := seq(COUNTERS, k requires 0 <= k < COUNTERS => if k < ANALOG then 0 else c[k]);
        live, lat := {}, {};
        return;
      }
      if clearPulse {
        lat := set b <- lat | b > EVR_BIT;
      } else {
        lat := lat + (set b <- live | b <= EVR_BIT);
      }
      if pulse {
        CheckFaults(p, i);
      }
      live := if i.evrFault then live + {EVR_BIT} else live - {EVR_BIT};
    }

    /** The mask registers see the latches and live bits from before the edge. */
    method MainAndMasks(p: Params, i: Input)
      requires Shape(View(), p)
      modifies `cnt, `live, `lat, `latMask, `errMask
      ensures cnt == NextCounts(old(View()), p, i) && live == NextLives(old(View()), p, i)
        && lat == NextLatched(old(View()), i)
      ensures latMask == TripMask(old(lat), p.enable) && errMask == GlitchMask(old(live), p.enable)
    {
      var trips, glitches := TripMask(lat, p.enable), GlitchMask(live, p.enable);
      MainProcess(p, i);
      latMask, errMask := trips, glitches;
    }

    /** The setpoint pair and the change flag, which lags it by one clock. */
    method SetpointProcess(i: Input)
      modifies `dacNew, `dacOld, `dacChanged
      ensures dacNew == if i.reset then 0 else if i.tenkhz then i.dacSetpoint else old(dacNew)
      ensures dacOld == if i.reset then 0 else if i.tenkhz then old(dacNew) else old(dacOld)
      ensures dacChanged == (!i.reset && old(dacNew) != old(dacOld))
    {
      dacChanged := !i.reset && dacNew != dacOld;
      if i.reset {
        dacNew, dacOld := 0, 0;
      } else if i.tenkhz {
        dacNew, dacOld := i.dacSetpoint, dacNew;
      }
    }

    /** The clear handshake: a rising edge opens the window, a 10 kHz pulse closes it. */
    method ClearProcess(p: Params)
      modifies `re, `reReg, `clearPulse
      ensures re == p.clear && reReg == old(re)
      ensures clearPulse == if !old(reReg) && old(re) then true else if pulse then false else old(clearPulse)
    {
      if !reReg && re {
        clearPulse := true;
      } else if pulse {
        clearPulse := false;
      }
      re, reReg := p.clear, re;
    }

    /** The 10 kHz trigger, three clocks late. */
    method PulseProcess(i: Input)
      modifies `dff0, `dff1, `pulse
      ensures dff0 == (!i.reset && i.tenkhz) && dff1 == (!i.reset && old(dff0)) && pulse == (!i.reset && old(dff1))
    {
      if i.reset {
        dff0, dff1, pulse := false, false, false;
      } else {
        dff0, dff1, pulse := i.tenkhz, dff0, dff1;
      }
    }

    /** One rising clock edge: every process reads the registers from before it. */
    method Tick(p: Params, i: Input)
      requires Shape(View(), p)
      modifies this
      ensures View() == Next(old(View()), p, i)
    {
      ghost var was := View();
      MainAndMasks(p, i);
      SetpointProcess(i);
      ClearProcess(p);
      PulseProcess(i);
      ghost var t := Next(was, p, i);
      assert cnt == t.cnt && live == t.live && lat == t.lat && latMask == t.latMask && errMask == t.errMask;
    }
  }
}
