/**
 The 10 kHz recorder of adc2ddr.vhd: a clocked state machine that writes one 40-word frame
 per trigger into a ring of DDR memory through a single AXI write burst.

 `Next` is the clocked process, `AxiWriter` the entity with its registers. `Bus` puts the
 entity beside an AXI memory slave, so that the words can be followed into memory.
 */
module AdcWriter {
  import opened Words

  const BURST_LEN := 40
  const DDR_BASE: u32 := 0x1000_0000
  const DDR_MAX: u32 := 0x11E8_4800

  /** Slots the writer really uses: the one at `DDR_MAX` is written before the wrap. */
  const WRITER_SLOTS := 200_001

  datatype Channel = Channel(
    dcct0: s20, dcct1: s20,
    dacmon: s16, voltage: s16, ignd: s16, spare: s16, psReg: s16, psError: s16)

  datatype Adcs = Adcs(ps1: Channel, ps2: Channel, ps3: Channel, ps4: Channel)

  /** `Word(i)` is the i-th data state: 0 is HDR, 1 is CNT, 2 is PS1_DCCT1, ..., 39 is WRDLAST. */
  datatype Phase = Idle | Address | Word(i: nat) | AwaitResp

  datatype Writer = Writer(
    phase: Phase, addrBase: u32, datacnt: u32, prevTrigger: bool,
    awvalid: bool, awaddr: u32, wvalid: bool, wdata: u32, wlast: bool, bready: bool,
    addrPtr: u32, tenkhzcnt: u32)

  datatype Input = Input(
    reset: bool, trigger: bool, awready: bool, wready: bool, bvalid: bool, adcs: Adcs)

  /** The word of the eight states of one channel, DCCT1 to MON6. */
  function ChannelWord(c: Channel, col: nat): u32
    requires col < 8
  {
    match col
    case 0 => Bits32(c.dcct0)
    case 1 => Bits32(c.dcct1)
    case 2 => Bits32(c.dacmon)
    case 3 => Bits32(c.voltage)
    case 4 => Bits32(c.ignd)
    case 5 => Bits32(c.spare)
    case 6 => Bits32(c.psReg)
    case _ => Bits32(c.psError)
  }

  /** The word each data state puts on the bus. */
  function WordValue(i: nat, datacnt: u32, a: Adcs): u32
    requires i < BURST_LEN
  {
    if i == 0 then 0x8000_0000
    else if i == 1 then datacnt
    else if i < 10 then ChannelWord(a.ps1, i - 2)
    else if i < 18 then ChannelWord(a.ps2, i - 10)
    else if i < 26 then ChannelWord(a.ps3, i - 18)
    else if i < 34 then ChannelWord(a.ps4, i - 26)
    else i + 1
  }

  /** One rising clock edge. Every right-hand side reads the registers before the edge. */
  function Next(w: Writer, i: Input): Writer {
    if i.reset then
      w.(awvalid := false, wvalid := false, bready := false, wdata := 0, phase := Idle, datacnt := 0)
    else
      match w.phase
      case Idle =>
        if i.trigger && !w.prevTrigger then
          w.(prevTrigger := i.trigger, addrPtr := w.addrBase, tenkhzcnt := w.datacnt,
             datacnt := (w.datacnt + 1) % TWO_32, awaddr := w.addrBase, awvalid := true, phase := Address)
        else
          w.(prevTrigger := i.trigger)
      case Address =>
        if i.awready then w.(awvalid := false, wdata := 0, phase := Word(0)) else w
      case Word(k) =>
        if !i.wready || k >= BURST_LEN then w
        else w.(wvalid := true, wdata := WordValue(k, w.datacnt, i.adcs),
                wlast := w.wlast || k == BURST_LEN - 1,
                phase := if k == BURST_LEN - 1 then AwaitResp else Word(k + 1))
      case AwaitResp =>
        var r := w.(wlast := false, wvalid := false);
        if i.bvalid then
          r.(addrBase := NextAddress(w.addrBase), bready := false, phase := Idle)
        else
          r.(bready := true)
  }

  /** The ring address after a stored frame. */
  function NextAddress(a: u32): u32 {
    if a < DDR_MAX then a + 4 * BURST_LEN else DDR_BASE
  }

  /** The registers of the entity. */
  class AxiWriter {
    var phase: Phase
    var addrBase: u32
    var datacnt: u32
    var prevTrigger: bool
    var awvalid: bool
    var awaddr: u32
    var wvalid: bool
    var wdata: u32
    var wlast: bool
    var bready: bool
    var addrPtr: u32
    var tenkhzcnt: u32

    ghost function View(): Writer
      reads this
    {
      Writer(phase, addrBase, datacnt, prevTrigger, awvalid, awaddr, wvalid, wdata, wlast, bready,
             addrPtr, tenkhzcnt)
    }

    constructor ()
      ensures View() == POWER_UP
    {
      phase, addrBase, datacnt, prevTrigger := Idle, DDR_BASE, 0, false;
      awvalid, awaddr, wvalid, wdata, wlast, bready := false, 0, false, 0, false, false;
      addrPtr, tenkhzcnt := 0, 0;
    }

    /** `write_word`: the next word is offered only in a cycle that shows `wready`. */
    method WriteWord(data: u32, wready: bool, next: Phase)
      modifies `wvalid, `wdata, `phase
      ensures wready ==> wvalid && wdata == data && phase == next
      ensures !wready ==> unchanged(`wvalid, `wdata, `phase)
    {
      if wready {
        wvalid := true;
        wdata := data;
        phase := next;
      }
    }

    /** The data states HDR to WRD39. */
    method SendWord(k: nat, i: Input)
      requires !i.reset && phase == Word(k) && k < BURST_LEN - 1
      modifies `wvalid, `wdata, `phase
      ensures View() == Next(old(View()), i)
    {
      WriteWord(WordValue(k, datacnt, i.adcs), i.wready, Word(k + 1));
    }

    /** The state WRDLAST, the only one that raises `wlast`. */
    method SendLastWord(i: Input)
      requires !i.reset && phase == Word(BURST_LEN - 1)
      modifies `wvalid, `wlast, `wdata, `phase
      ensures View() == Next(old(View()), i)
    {
      if i.wready {
        wvalid, wlast, wdata, phase := true, true, 40, AwaitResp;
      }
    }

    method AwaitResponse(i: Input)
      requires !i.reset && phase == AwaitResp
      modifies this
      ensures View() == Next(old(View()), i)
    {
      wlast, wvalid, bready := false, false, true;
      if i.bvalid {
        addrBase := if addrBase < DDR_MAX then addrBase + 4 * BURST_LEN else DDR_BASE;
        bready, phase := false, Idle;
      }
    }

    method WaitForTrigger(i: Input)
      requires !i.reset && phase == Idle
      modifies this
      ensures View() == Next(old(View()), i)
    {
      if i.trigger && !prevTrigger {
        addrPtr, tenkhzcnt, datacnt := addrBase, datacnt, (datacnt + 1) % TWO_32;
        awaddr, awvalid, phase := addrBase, true, Address;
      }
      prevTrigger := i.trigger;
    }

    /** One rising clock edge. */
    method Tick(i: Input)
      modifies this
      ensures View() == Next(old(View()), i)
    {
      if i.reset {
        awvalid, wvalid, bready, wdata, phase, datacnt := false, false, false, 0, Idle, 0;
        return;
      }
      match phase
      case Idle =>
        WaitForTrigger(i);
      case Address =>
        if i.awready {
          awvalid, wdata, phase := false, 0, Word(0);
        }
      case Word(k) =>
        if k < BURST_LEN - 1 {
          SendWord(k, i);
        } else if k == BURST_LEN - 1 {
          SendLastWord(i);
        }
      case AwaitResp =>
        AwaitResponse(i);
    }
  }

  /** Power-up values of the registers. */
  const POWER_UP := Writer(Idle, DDR_BASE, 0, false, false, 0, false, 0, false, false, 0, 0)

  // ---------------------------------------------------------------------------
  // The writer and an AXI memory slave
  // ---------------------------------------------------------------------------

  /**
    The words of a burst, the converter values in the cycle where each was offered, and the sample count they
    carry.
  */
  datatype Frame = Frame(words: seq<u32>, taken: seq<Adcs>, count: u32)

  const NO_FRAME := Frame([], [], 0)

  /**
   `addrs`, `beats` and `lasts` are what the slave has accepted in the present burst, `loaded` the words the writer has
   offered in it; `frames` are the bursts that were acknowledged. `epoch` is the number of frames at the last reset, and
   `dirty` tells that a reset cut short a burst into the slot that comes next, `early` that the present burst began with
   `wlast` high.
   */
  datatype Bus = Bus(
    w: Writer, mem: seq<u32>, addrs: seq<u32>, beats: seq<u32>, lasts: seq<bool>,
    loaded: Frame, frames: seq<Frame>, epoch: nat, dirty: bool, early: bool)

  predicate NewBurst(w: Writer, i: Input) {
    w.phase.Idle? && !i.reset && i.trigger && !w.prevTrigger
  }

  /** The memory behind an edge: a beat is stored where valid and ready meet before the edge. */
  function Stored(b: Bus, i: Input): seq<u32> {
    var at := if b.addrs != [] then (b.addrs[0] - DDR_BASE) / 4 + |b.beats| else -1;
    if b.w.wvalid && i.wready && 0 <= at < |b.mem| then b.mem[at := b.w.wdata] else b.mem
  }

  /** One clock edge of both. A reset goes to the slave too: it forgets the burst in progress. */
  function Clock(b: Bus, i: Input): Bus {
    var w := b.w;
    if NewBurst(w, i) then
      b.(w := Next(w, i), addrs := [], beats := [], lasts := [], loaded := Frame([], [], Next(w, i).datacnt),
         early := w.wlast)
    else if i.reset then
      b.(w := Next(w, i), mem := Stored(b, i), addrs := [], beats := [], lasts := [], loaded := NO_FRAME,
         epoch := |b.frames|, dirty := b.dirty || !w.phase.Idle?)
    else
      var takesBeat := w.wvalid && i.wready;
      var offers := w.phase.Word? && i.wready && w.phase.i < BURST_LEN;
      var responds := w.phase.AwaitResp? && i.bvalid;
      b.(w := Next(w, i), mem := Stored(b, i),
         addrs := if w.awvalid && i.awready then b.addrs + [w.awaddr] else b.addrs,
         beats := if takesBeat then b.beats + [w.wdata] else b.beats,
         lasts := if takesBeat then b.lasts + [w.wlast] else b.lasts,
         loaded := if offers
                   then Frame(b.loaded.words + [WordValue(w.phase.i, w.datacnt, i.adcs)],
                              b.loaded.taken + [i.adcs], b.loaded.count)
                   else b.loaded,
         frames := if responds then b.frames + [b.loaded] else b.frames,
         dirty := b.dirty && !responds)
  }

  /** An AXI slave responds only after it has accepted the 40 beats that the address announced. */
  predicate SlaveRule(b: Bus, i: Input) {
    i.bvalid ==> b.w.phase.AwaitResp? && |b.beats| == BURST_LEN
  }

  predicate Legal(b: Bus, i: Input) {
    i.reset || SlaveRule(b, i)
  }

  /** The ring slot that holds frame `k`, and its byte address. */
  function Slot(k: nat): (s: nat)
    ensures s < WRITER_SLOTS
  {
    k % WRITER_SLOTS
  }

  function SlotAddress(k: nat): u32 {
    DDR_BASE + 160 * Slot(k)
  }

  /** Frames whose slot has been written to: the acknowledged ones, and the one in progress or cut short. */
  function Started(b: Bus): nat {
    |b.frames| + if b.w.phase.Idle? && !b.dirty then 0 else 1
  }

  /** The sample count of the frame at position `k`: frames count from 1 behind a reset. */
  function CountOf(k: nat, epoch: nat): u32
    requires epoch <= k
  {
    (k - epoch + 1) % TWO_32
  }

  /** Frame `k` lies in memory, whole and in order. */
  predicate InMemory(mem: seq<u32>, k: nat, frame: Frame) {
    |mem| == WRITER_SLOTS * BURST_LEN && |frame.words| == BURST_LEN &&
    forall j :: 0 <= j < BURST_LEN ==> mem[Slot(k) * BURST_LEN + j] == frame.words[j]
  }

  /** The first words of a frame: each is the value of its state, with the frame's sample count. */
  predicate WordsOf(frame: Frame) {
    |frame.words| == |frame.taken| <= BURST_LEN &&
    forall j :: 0 <= j < |frame.words| ==> frame.words[j] == WordValue(j, frame.count, frame.taken[j])
  }

  predicate IsFrame(frame: Frame) {
    |frame.words| == BURST_LEN && WordsOf(frame)
  }

  /** What a burst may have done so far in each state. */
  predicate BurstInv(b: Bus) {
    var w := b.w;
    && |b.lasts| == |b.beats| <= |b.loaded.words| <= BURST_LEN
    && b.beats == b.loaded.words[..|b.beats|]
    && (forall j :: 0 <= j < |b.lasts| ==> b.lasts[j] == (b.early || j == BURST_LEN - 1))
    && (w.awvalid <==> w.phase.Address?)
    && match w.phase
       case Idle => !w.wvalid
       case Address =>
         && b.addrs == [] && w.awaddr == w.addrBase && b.loaded.words == []
         && !w.wvalid && w.wlast == b.early
       case Word(k) =>
         && k < BURST_LEN && b.addrs == [w.addrBase] && |b.loaded.words| == k
         && w.wlast == b.early && (w.wvalid <==> k > 0)
         && |b.beats| == (if k > 0 then k - 1 else 0)
         && (k > 0 ==> w.wdata == b.loaded.words[k - 1])
       case AwaitResp =>
         && b.addrs == [w.addrBase] && |b.loaded.words| == BURST_LEN
         && (w.wvalid <==> w.wlast)
         && (w.wvalid ==> |b.beats| == BURST_LEN - 1 && w.wdata == b.loaded.words[BURST_LEN - 1])
         && |b.beats| >= BURST_LEN - 1
  }

  /** The ring: what is stored, how it is numbered, and what the present burst has overwritten. */
  predicate RingInv(b: Bus) {
    var n := |b.frames|;
    && |b.mem| == WRITER_SLOTS * BURST_LEN && b.epoch <= n
    && b.w.addrBase == SlotAddress(n)
    && b.w.datacnt == (n - b.epoch + if b.w.phase.Idle? then 0 else 1) % TWO_32
    && b.w.addrPtr == (if Started(b) > 0 then SlotAddress(Started(b) - 1) else 0)
    && (forall k :: 0 <= k < n ==> IsFrame(b.frames[k]))
    && (forall k :: b.epoch <= k < n ==> b.frames[k].count == CountOf(k, b.epoch))
    && (forall k :: 0 <= k < n && Started(b) - WRITER_SLOTS <= k ==> InMemory(b.mem, k, b.frames[k]))
  }

  /** The words of the frame in progress, and those that have reached memory. */
  predicate CurrentInv(b: Bus) {
    && |b.mem| == WRITER_SLOTS * BURST_LEN
    && (!b.w.phase.Idle? ==>
          && |b.beats| <= BURST_LEN && WordsOf(b.loaded) && b.loaded.count == b.w.datacnt
          && (forall j :: 0 <= j < |b.beats| ==> b.mem[Slot(|b.frames|) * BURST_LEN + j] == b.beats[j]))
  }

  predicate Inv(b: Bus) {
    BurstInv(b) && RingInv(b) && CurrentInv(b)
  }
}
