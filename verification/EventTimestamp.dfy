/**
 The timestamp decoder of event_rcv_ts.vhd: seconds arrive as 0 and 1 events, most significant bit
 first, and a latch event publishes them and restarts the offset count.
 */
module EventTimestamp {
  import opened Words

  const ZERO_EVENT: byte := 0x70
  const ONE_EVENT: byte := 0x71
  const LATCH_EVENT: byte := 0x7D

  /** A 32-bit register by bit number; `pos` points at the bit that comes next. */
  datatype State = State(
    pos: nat, tmp: seq<bool>, seconds: seq<bool>, offset: u32, clear: bool, clearReg: bool,
    stampSeconds: seq<bool>, stampOffset: u32)

  datatype Input = Input(reset: bool, event: byte)

  predicate Shape(s: State) {
    |s.tmp| == 32 && |s.seconds| == 32 && |s.stampSeconds| == 32 && s.pos < 32
  }

  predicate IsBit(e: byte) {
    e == ZERO_EVENT || e == ONE_EVENT
  }

  /** One rising clock edge of the six processes. */
  function Next(s: State, i: Input): (t: State)
    requires Shape(s)
    ensures Shape(t)
  {
    State(
      if i.event == LATCH_EVENT then 31 else if IsBit(i.event) then (if s.pos == 0 then 31 else s.pos - 1) else s.pos,
      if i.reset || s.clearReg then Zeros(32)
      else if IsBit(i.event) then s.tmp[s.pos := i.event == ONE_EVENT]
      else s.tmp,
      if i.event == LATCH_EVENT then s.tmp else s.seconds,
      if i.event == LATCH_EVENT then 0 else (s.offset + 1) % TWO_32,
      i.event == LATCH_EVENT, s.clear,
      if i.reset then Zeros(32) else s.seconds,
      if i.reset then 0 else s.offset)
  }

  class EventReceiver {
    var pos: nat
    var tmp: seq<bool>
    var seconds: seq<bool>
    var offset: u32
    var clear: bool
    var clearReg: bool
    var stampSeconds: seq<bool>
    var stampOffset: u32

    ghost function View(): State
      reads this
    {
      State(pos, tmp, seconds, offset, clear, clearReg, stampSeconds, stampOffset)
    }

    constructor ()
      ensures Shape(View()) && pos == 31 && tmp == Zeros(32)
    {
      pos, offset, stampOffset, clear, clearReg := 31, 0, 0, false, false;
      tmp, seconds, stampSeconds := Zeros(32), Zeros(32), Zeros(32);
    }

    method Tick(i: Input)
      requires Shape(View())
      modifies this
      ensures View() == Next(old(View()), i)
    {
      // Timestamp control.
      if i.reset {
        stampSeconds, stampOffset := Zeros(32), 0;
      } else {
        stampSeconds, stampOffset := seconds, offset;
      }
      // Register seconds on event, offset control.
      if i.event == LATCH_EVENT {
        seconds, offset := tmp, 0;
      } else {
        offset := (offset + 1) % TWO_32;
      }
      // Seconds control.
      if i.reset || clearReg {
        tmp := Zeros(32);
      } else if i.event == ZERO_EVENT {
        tmp := tmp[pos := false];
      } else if i.event == ONE_EVENT {
        tmp := tmp[pos := true];
      }
      // Position control.
      if i.event == LATCH_EVENT {
        pos := 31;
      } else if i.event == ZERO_EVENT || i.event == ONE_EVENT {
        pos := if pos == 0 then 31 else pos - 1;
      }
      // Clear control.
      clear, clearReg := i.event == LATCH_EVENT, clear;
    }
  }

  // ---------------------------------------------------------------------------
  // One second
  // ---------------------------------------------------------------------------

  function Run(s: State, es: seq<byte>): (t: State)
    requires Shape(s)
    ensures Shape(t)
    decreases |es|
  {
    if es == [] then s else Run(Next(s, Input(false, es[0])), es[1..])
  }

  lemma {:induction false} RunSplit(s: State, a: seq<byte>, b: seq<byte>)
    requires Shape(s)
    ensures Run(s, a + b) == Run(Run(s, a), b)
    decreases |a|
  {
    if a == [] {
      assert a + b == b;
    } else {
      assert (a + b)[1..] == a[1..] + b;
      RunSplit(Next(s, Input(false, a[0])), a[1..], b);
    }
  }

  /** The bits that a stream of events carries, in order. */
  function BitsOf(es: seq<byte>): seq<bool> {
    if es == [] then [] else if IsBit(es[0]) then [es[0] == ONE_EVENT] + BitsOf(es[1..]) else BitsOf(es[1..])
  }

  /** The number that a list of bits spells, most significant first. */
  function Number(bits: seq<bool>): nat {
    if bits == [] then 0 else 2 * Number(bits[..|bits| - 1]) + if bits[|bits| - 1] then 1 else 0
  }

  /** The value of a register whose bit `k` has weight 2^k. */
  function Value(reg: seq<bool>): nat {
    if reg == [] then 0 else (if reg[0] then 1 else 0) + 2 * Value(reg[1..])
  }

  function Reverse(bits: seq<bool>): (r: seq<bool>)
    ensures |r| == |bits| && forall k :: 0 <= k < |bits| ==> r[k] == bits[|bits| - 1 - k]
  {
    seq(|bits|, k requires 0 <= k < |bits| => bits[|bits| - 1 - k])
  }

  lemma {:induction false} ValueOfReverse(bits: seq<bool>)
    ensures Value(Reverse(bits)) == Number(bits)
    decreases |bits|
  {
    if bits != [] {
      assert Reverse(bits)[1..] == Reverse(bits[..|bits| - 1]);
      ValueOfReverse(bits[..|bits| - 1]);
    }
  }

  /** The register after `bits`: filled from the top, zero below. */
  predicate Filled(reg: seq<bool>, bits: seq<bool>) {
    |reg| == 32 && |bits| <= 32 &&
    forall b :: 0 <= b < 32 ==> reg[b] == if 31 - b < |bits| then bits[31 - b] else false
  }

  /** Where the pointer stands after `n` bits; 32 bring it round. */
  function PosAfter(n: nat): nat
    requires n <= 32
  {
    if n == 32 then 31 else 31 - n
  }

  lemma RunStep(s: State, es: seq<byte>)
    requires Shape(s) && es != []
    ensures Run(s, es) == Run(Next(s, Input(false, es[0])), es[1..])
  {
  }

  lemma OneClock(s: State, e: byte)
    requires Shape(s)
    ensures Run(s, [e]) == Next(s, Input(false, e))
  {
  }

  lemma ThreeClocks(s: State, e: byte, f: byte, g: byte)
    requires Shape(s)
    ensures Run(s, [e, f, g]) == Next(Next(Next(s, Input(false, e)), Input(false, f)), Input(false, g))
  {
    var s1 := Next(s, Input(false, e));
    var s2 := Next(s1, Input(false, f));
    RunStep(s, [e, f, g]);
    RunStep(s1, [f, g]);
    RunStep(s2, [g]);
    assert [e, f, g][1..] == [f, g] && [f, g][1..] == [g] && [g][1..] == [];
  }

  /** What a register filled so far keeps between latch events. */
  predicate Filling(s: State, bits: seq<bool>) {
    && Shape(s) && !s.clear && !s.clearReg
    && |bits| <= 32 && Filled(s.tmp, bits) && s.pos == PosAfter(|bits|)
  }

  /** The bits so far and the bit of one event. */
  function More(bits: seq<bool>, e: byte): seq<bool> {
    if IsBit(e) then bits + [e == ONE_EVENT] else bits
  }

  /** One event between latches: a bit goes to its place, any other event changes nothing but the offset. */
  lemma OneEvent(s: State, e: byte, bits: seq<bool>)
    requires Filling(s, bits) && e != LATCH_EVENT && |More(bits, e)| <= 32
    ensures Filling(Next(s, Input(false, e)), More(bits, e)) && Next(s, Input(false, e)).seconds == s.seconds
  {
  }

  lemma MoreBits(bits: seq<bool>, es: seq<byte>)
    requires es != []
    ensures bits + BitsOf(es) == More(bits, es[0]) + BitsOf(es[1..])
  {
    if IsBit(es[0]) {
      assert bits + ([es[0] == ONE_EVENT] + BitsOf(es[1..])) == bits + [es[0] == ONE_EVENT] + BitsOf(es[1..]);
    }
  }

  /** Between latch events the register fills from the top, whatever other events come between. */
  lemma {:induction false} Fills(s: State, es: seq<byte>, bits: seq<bool>)
    requires Filling(s, bits) && LATCH_EVENT !in es && |bits| + |BitsOf(es)| <= 32
    ensures Filling(Run(s, es), bits + BitsOf(es)) && Run(s, es).seconds == s.seconds
    decreases |es|
  {
    if es == [] {
      assert bits + BitsOf(es) == bits;
    } else {
      var t := Next(s, Input(false, es[0]));
      OneEvent(s, es[0], bits);
      MoreBits(bits, es);
      Fills(t, es[1..], More(bits, es[0]));
      assert Run(s, es) == Run(t, es[1..]);
    }
  }

  /** The offset counts the clocks between latch events. */
  lemma {:induction false} OffsetCounts(s: State, es: seq<byte>)
    requires Shape(s) && LATCH_EVENT !in es
    ensures Run(s, es).offset == (s.offset + |es|) % TWO_32
    decreases |es|
  {
    if es != [] {
      var t := Next(s, Input(false, es[0]));
      assert t.offset == (s.offset + 1) % TWO_32;
      OffsetCounts(t, es[1..]);
      OffsetStep(s.offset, |es|);
    }
  }

  lemma OffsetStep(x: nat, n: nat)
    requires n > 0
    ensures ((x + 1) % TWO_32 + (n - 1)) % TWO_32 == (x + n) % TWO_32
  {
  }

  /** The bits of two streams, one behind the other. */
  lemma {:induction false} BitsOfConcat(a: seq<byte>, b: seq<byte>)
    ensures BitsOf(a + b) == BitsOf(a) + BitsOf(b)
    decreases |a|
  {
    if a == [] {
      assert a + b == b;
    } else {
      assert (a + b)[1..] == a[1..] + b;
      BitsOfConcat(a[1..], b);
    }
  }

  lemma BitsOfTwo(e0: byte, e1: byte)
    ensures BitsOf([e0, e1]) == More(More([], e0), e1)
  {
    assert [e0, e1][1..] == [e1] && [e1][1..] == [];
    assert BitsOf([e1]) == if IsBit(e1) then [e1 == ONE_EVENT] else [];
  }

  /**
   Two clocks behind a latch event the register has been cleared. A bit in these clocks has taken up its place,
   and reads as zero.
   */
  lemma ClearsInTwo(s: State, e0: byte, e1: byte)
    requires Shape(s) && e0 != LATCH_EVENT && e1 != LATCH_EVENT
    ensures var t := Run(s, [LATCH_EVENT, e0, e1]);
      t.tmp == Zeros(32) && Filling(t, Zeros(|BitsOf([e0, e1])|)) && t.offset == 2 && t.seconds == s.tmp
  {
    ThreeClocks(s, LATCH_EVENT, e0, e1);
    BitsOfTwo(e0, e1);
    var a := Next(s, Input(false, LATCH_EVENT));
    var b := Next(a, Input(false, e0));
    assert a.clear && a.pos == 31 && a.offset == 0 && a.seconds == s.tmp;
    assert b.clearReg && !b.clear && b.pos == (if IsBit(e0) then 30 else 31) && b.offset == 1 && b.seconds == s.tmp;
  }

  /** A full register read as a number is the number its bits spell. */
  lemma FilledValue(reg: seq<bool>, bits: seq<bool>)
    requires Filled(reg, bits) && |bits| == 32
    ensures Value(reg) == Number(bits)
  {
    assert reg == Reverse(bits);
    ValueOfReverse(bits);
  }

  /** What the register holds in front of the next latch event: the bits, but for the first two clocks zeros. */
  function Kept(e0: byte, e1: byte, es: seq<byte>): seq<bool> {
    Zeros(|BitsOf([e0, e1])|) + BitsOf(es)
  }

  /** Nothing is lost exactly when no ONE event falls in the first two clocks. */
  lemma KeptAll(e0: byte, e1: byte, es: seq<byte>)
    ensures |Kept(e0, e1, es)| == |BitsOf([e0, e1] + es)|
    ensures Kept(e0, e1, es) == BitsOf([e0, e1] + es) <==> e0 != ONE_EVENT && e1 != ONE_EVENT
  {
    var early := BitsOf([e0, e1]);
    BitsOfConcat([e0, e1], es);
    BitsOfTwo(e0, e1);
    var n := |early|;
    assert (early + BitsOf(es))[..n] == early && Kept(e0, e1, es)[..n] == Zeros(n);
    if e0 == ONE_EVENT {
      assert early[0] && !Zeros(n)[0];
    } else if e1 == ONE_EVENT {
      assert early[n - 1] && !Zeros(n)[n - 1];
    } else {
      assert early == Zeros(n);
    }
  }

  /** Different bits spell different numbers. */
  lemma {:induction false} NumberInjective(a: seq<bool>, b: seq<bool>)
    requires |a| == |b| && Number(a) == Number(b)
    ensures a == b
    decreases |a|
  {
    if a != [] {
      var n := |a| - 1;
      NumberInjective(a[..n], b[..n]);
      assert a == a[..n] + [a[n]] && b == b[..n] + [b[n]];
    }
  }

  /** From a latch event up to the next one. */
  lemma BeforeLatch(s: State, e0: byte, e1: byte, es: seq<byte>)
    requires Shape(s) && e0 != LATCH_EVENT && e1 != LATCH_EVENT && LATCH_EVENT !in es
    requires |BitsOf([e0, e1] + es)| <= 32
    ensures var t := Run(s, [LATCH_EVENT, e0, e1] + es);
      Filled(t.tmp, Kept(e0, e1, es)) && t.offset == (2 + |es|) % TWO_32
  {
    var c := Run(s, [LATCH_EVENT, e0, e1]);
    ClearsInTwo(s, e0, e1);
    KeptAll(e0, e1, es);
    RunSplit(s, [LATCH_EVENT, e0, e1], es);
    Fills(c, es, Zeros(|BitsOf([e0, e1])|));
    OffsetCounts(c, es);
  }

  /**
   A second on the wire: a latch event, then any events with up to 32 bits among them, `e0` and `e1` in the first two
   clocks. The next latch event publishes the bits from the top of the register down, with zeros for the bits of the
   first two clocks, and the timestamp shows the clocks between the two. So 32 bits decode to the number they spell
   exactly when neither of the first two events is a ONE.
   */
  lemma Second(s: State, e0: byte, e1: byte, es: seq<byte>, next: byte)
    requires Shape(s) && e0 != LATCH_EVENT && e1 != LATCH_EVENT && LATCH_EVENT !in es
    requires |BitsOf([e0, e1] + es)| <= 32
    ensures var after := Run(s, [LATCH_EVENT, e0, e1] + es + [LATCH_EVENT]);
      && Filled(after.seconds, Kept(e0, e1, es)) && after.offset == 0
      && after.stampOffset == (2 + |es|) % TWO_32
      && Next(after, Input(false, next)).stampSeconds == after.seconds
      && (|BitsOf([e0, e1] + es)| == 32 ==>
            (Value(after.seconds) == Number(BitsOf([e0, e1] + es)) <==> e0 != ONE_EVENT && e1 != ONE_EVENT))
  {
    BeforeLatch(s, e0, e1, es);
    var before := Run(s, [LATCH_EVENT, e0, e1] + es);
    RunSplit(s, [LATCH_EVENT, e0, e1] + es, [LATCH_EVENT]);
    OneClock(before, LATCH_EVENT);
    KeptAll(e0, e1, es);
    if |BitsOf([e0, e1] + es)| == 32 {
      FilledValue(before.tmp, Kept(e0, e1, es));
      if Number(Kept(e0, e1, es)) == Number(BitsOf([e0, e1] + es)) {
        NumberInjective(Kept(e0, e1, es), BitsOf([e0, e1] + es));
      }
    }
  }
  /** The event codes: 0x70 is a zero, 0x71 a one, 0x7D the latch, and no other event does anything. */
  lemma Codes(e: byte)
    ensures BitsOf([0x70]) == [false] && BitsOf([0x71]) == [true] && LATCH_EVENT == 0x7D
    ensures e != 0x70 && e != 0x71 ==> BitsOf([e]) == []
  {
  }

  /**
    A reset clears the register and the timestamp; the bit position, the seconds and the offset go on as without
    it.
  */
  lemma ResetState(s: State, e: byte)
    requires Shape(s)
    ensures var t := Next(s, Input(true, e)); var u := Next(s, Input(false, e));
      && t.tmp == t.stampSeconds == Zeros(32) && t.stampOffset == 0
      && t == u.(tmp := Zeros(32), stampSeconds := Zeros(32), stampOffset := 0)
  {
  }
}
