/**
 The clock crossing of fofb_flt2fix.vhd: a setpoint and a toggle written on `fofb_clk`, three
 synchroniser flops and an edge detector on `pl_clk0`.

 The two clocks interleave freely. When the toggle has moved since the previous `pl_clk0` edge, the
 first flop may catch the old or the new value; the edge carries that choice.
 */
module ClockCrossing {
  import opened Words

  datatype State = State(
    setpt: s20, toggle: bool,
    meta: bool, sync1: bool, sync2: bool, prev: bool, setptOut: s20, dataRdy: bool,
    seen: bool)

  /** `seen` in the state is the toggle at the previous `pl_clk0` edge. */
  datatype Event =
    | FofbEdge(valid: bool, value: s20)
    | PlEdge(catchesNew: bool)

  /** One edge of either clock. */
  function Next(s: State, e: Event): State {
    match e
    case FofbEdge(valid, value) => if valid then s.(setpt := value, toggle := !s.toggle) else s
    case PlEdge(catchesNew) =>
      s.(meta := if catchesNew then s.toggle else s.seen,
         sync1 := s.meta, sync2 := s.sync1, prev := s.sync2,
         setptOut := if s.sync2 != s.prev then s.setpt else s.setptOut,
         dataRdy := s.sync2 != s.prev,
         seen := s.toggle)
  }

  /** The entity: one process on each clock. */
  class Flt2Fix {
    var setpt: s20
    var toggle: bool
    var meta: bool
    var sync1: bool
    var sync2: bool
    var prev: bool
    var setptOut: s20
    var dataRdy: bool
    var seen: bool

    ghost function View(): State
      reads this
    {
      State(setpt, toggle, meta, sync1, sync2, prev, setptOut, dataRdy, seen)
    }

    constructor ()
      ensures View() == POWER_UP
    {
      setpt, toggle, meta, sync1, sync2, prev := 0, false, false, false, false, false;
      setptOut, dataRdy, seen := 0, false, false;
    }

    method TickFofb(valid: bool, value: s20)
      modifies this
      ensures View() == Next(old(View()), FofbEdge(valid, value))
    {
      if valid {
        setpt := value;
        toggle := !toggle;
      }
    }

    method TickPl(catchesNew: bool)
      modifies this
      ensures View() == Next(old(View()), PlEdge(catchesNew))
    {
      if sync2 != prev {
        setptOut := setpt;
        dataRdy := true;
      } else {
        dataRdy := false;
      }
      meta, sync1, sync2, prev, seen := if catchesNew then toggle else seen, meta, sync1, sync2, toggle;
    }
  }

  const POWER_UP := State(0, false, false, false, false, false, 0, false, false)

  // ---------------------------------------------------------------------------
  // Runs
  // ---------------------------------------------------------------------------

  /** History: the setpoints strobed in, those handed out, and the `pl_clk0` edges since the last strobe. */
  datatype Sys = Sys(s: State, strobed: seq<s20>, delivered: seq<s20>, age: nat)

  const EDGES := 5

  function Step(y: Sys, e: Event): Sys {
    var t := Next(y.s, e);
    match e
    case FofbEdge(valid, value) =>
      if valid then Sys(t, y.strobed + [value], y.delivered, 0) else y.(s := t)
    case PlEdge(_) =>
      Sys(t, y.strobed, if t.dataRdy then y.delivered + [t.setptOut] else y.delivered, y.age + 1)
  }

  /** At least five `pl_clk0` edges lie between strobes. */
  predicate Spaced(y: Sys, e: Event) {
    e.FofbEdge? && e.valid ==> y.strobed == [] || y.age >= EDGES
  }

  ghost predicate SpacedRun(y: Sys, es: seq<Event>)
    decreases |es|
  {
    es == [] || (Spaced(y, es[0]) && SpacedRun(Step(y, es[0]), es[1..]))
  }

  function Run(y: Sys, es: seq<Event>): Sys
    decreases |es|
  {
    if es == [] then y else Run(Step(y, es[0]), es[1..])
  }

  const START := Sys(POWER_UP, [], [], 0)

  /** The last strobed setpoint has left the pipeline. */
  predicate Settled(s: State) {
    s.meta == s.sync1 == s.sync2 == s.prev == s.toggle == s.seen
  }

  /** Where the newest toggle value has got to, edge by edge; each flop may be one edge late. */
  predicate Pipeline(y: Sys) {
    var s := y.s;
    var t := s.toggle;
    if y.strobed == [] || y.age >= EDGES then Settled(s)
    else if y.age == 0 then s.meta == s.sync1 == s.sync2 == s.prev == s.seen == !t
    else
      && s.seen == t
      && (y.age == 1 ==> s.sync1 == s.sync2 == s.prev == !t)
      && (y.age == 2 ==> s.meta == t && s.sync2 == s.prev == !t)
      && (y.age == 3 ==> s.meta == s.sync1 == t && s.prev == !t)
      && (y.age == 4 ==> s.meta == s.sync1 == s.sync2 == t)
  }

  /** The newest setpoint is out once the edge detector has caught up, which takes four or five edges. */
  predicate IsOut(y: Sys) {
    y.strobed == [] || y.age >= EDGES || (y.age == 4 && y.s.prev == y.s.toggle)
  }

  predicate Inv(y: Sys) {
    && Pipeline(y)
    && (y.strobed != [] ==> y.s.setpt == y.strobed[|y.strobed| - 1])
    && y.delivered == (if IsOut(y) then y.strobed else y.strobed[..|y.strobed| - 1])
    && (y.delivered != [] ==> y.s.setptOut == y.delivered[|y.delivered| - 1])
  }

  lemma StepKeeps(y: Sys, e: Event)
    requires Inv(y) && Spaced(y, e)
    ensures Inv(Step(y, e))
  {
    PipelineKeeps(y, e);
    if e.FofbEdge? {
      StrobeKeeps(y, e);
    } else {
      HandsOut(y, e);
    }
  }

  lemma PipelineKeeps(y: Sys, e: Event)
    requires Pipeline(y) && Spaced(y, e)
    ensures Pipeline(Step(y, e))
  {
  }

  lemma StrobeKeeps(y: Sys, e: Event)
    requires Inv(y) && Spaced(y, e) && e.FofbEdge?
    ensures Pipeline(Step(y, e)) ==> Inv(Step(y, e))
  {
    var z := Step(y, e);
    if e.valid {
      assert z.strobed[..|z.strobed| - 1] == y.strobed;
    }
  }

  /** At a destination edge the newest setpoint goes out, or nothing does. */
  lemma HandsOut(y: Sys, e: Event)
    requires Inv(y) && e.PlEdge?
    ensures Pipeline(Step(y, e)) ==> Inv(Step(y, e))
  {
    if y.strobed != [] {
      assert y.strobed[..|y.strobed| - 1] + [y.strobed[|y.strobed| - 1]] == y.strobed;
    }
  }

  /**
   In every interleaving with five edges between strobes, the setpoints handed out are the strobed ones,
   each once and in order; only the newest may still be on its way, and for at most five edges.
   */
  lemma {:induction false} Crossing(y: Sys, es: seq<Event>)
    requires Inv(y) && SpacedRun(y, es)
    ensures var z := Run(y, es);
      && Inv(z)
      && (z.delivered == z.strobed || (z.strobed != [] && z.delivered == z.strobed[..|z.strobed| - 1]))
      && (z.age >= EDGES ==> z.delivered == z.strobed)
      && (z.age < 4 && z.strobed != [] ==> z.delivered != z.strobed)
    decreases |es|
  {
    if es != [] {
      StepKeeps(y, es[0]);
      Crossing(Step(y, es[0]), es[1..]);
    }
  }

  lemma StartInv()
    ensures Inv(START) && START.delivered == [] && START.s.setptOut == 0 && !START.s.dataRdy
  {
  }

  lemma RunStep(y: Sys, es: seq<Event>)
    requires es != []
    ensures Run(y, es) == Run(Step(y, es[0]), es[1..])
  {
  }

  lemma {:induction false} RunEdges(y: Sys, n: nat, after: seq<Event>)
    ensures Run(y, seq(n, _ => PlEdge(true)) + after) == Run(Edges(y, n), after)
    decreases n
  {
    var es := seq(n, _ => PlEdge(true)) + after;
    if n == 0 {
      assert es == after;
    } else {
      assert es[1..] == seq(n - 1, _ => PlEdge(true)) + after;
      RunEdges(Step(y, PlEdge(true)), n - 1, after);
    }
  }

  /** `n` edges of `pl_clk0` that catch the toggle as it is. */
  function Edges(y: Sys, n: nat): Sys
    decreases n
  {
    if n == 0 then y else Edges(Step(y, PlEdge(true)), n - 1)
  }

  /** Five edges are needed: with four, a late first flop loses the first of two setpoints and repeats the second. */
  lemma FourEdgesLoseASetpoint(v: s20, w: s20)
    requires v != w
    ensures var es := [FofbEdge(true, v), PlEdge(false)] + (seq(3, _ => PlEdge(true))
                      + ([FofbEdge(true, w)] + (seq(5, _ => PlEdge(true)) + [])));
      Run(START, es).strobed == [v, w] && Run(START, es).delivered == [w, w]
  {
    var tail := [FofbEdge(true, w)] + (seq(5, _ => PlEdge(true)) + []);
    var mid := seq(3, _ => PlEdge(true)) + tail;
    var es := [FofbEdge(true, v), PlEdge(false)] + mid;
    var y1 := Step(START, FofbEdge(true, v));
    var y2 := Step(y1, PlEdge(false));
    RunStep(START, es);
    RunStep(y1, es[1..]);
    assert es[1..][1..] == mid;
    RunEdges(y2, 3, tail);
    var y5 := Step(Step(Step(y2, PlEdge(true)), PlEdge(true)), PlEdge(true));
    assert Edges(y2, 3) == Edges(Step(y2, PlEdge(true)), 2) == Edges(Step(Step(y2, PlEdge(true)), PlEdge(true)), 1)
      == y5;
    var y6 := Step(y5, FofbEdge(true, w));
    RunStep(y5, tail);
    assert tail[1..] == seq(5, _ => PlEdge(true)) + [];
    RunEdges(y6, 5, []);
    var y9 := Step(Step(Step(y6, PlEdge(true)), PlEdge(true)), PlEdge(true));
    assert Edges(y6, 5) == Edges(Step(y6, PlEdge(true)), 4) == Edges(Step(Step(y6, PlEdge(true)), PlEdge(true)), 3)
      == Edges(y9, 2);
    var y11 := Step(Step(y9, PlEdge(true)), PlEdge(true));
    assert Edges(y9, 2) == Edges(Step(y9, PlEdge(true)), 1) == Edges(y11, 0);
  }
}
