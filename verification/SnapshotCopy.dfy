/**
 The waveform copy of snapshots.c: `ReadDMABuf` splits a window of the DDR ring into at most
 three contiguous parts, and `CopyDataChan` projects one channel out of each part.

 The DDR is a sequence of words indexed from the ring base, addresses are 32-bit words, and a
 waveform cell is the conversion applied to a word: converting to float is left symbolic.
 */
module SnapshotCopy {
  import opened Words

  const BUFSTART: u32 := 0x1000_0000
  const BUFLEN: u32 := 0x01E8_4800
  const BUFSTEPBYTES: u32 := 0xA0
  const WORDS_PER_SAMPLE := 40
  const COLUMNS := 10

  /** Slots the reader wraps at: one fewer than the writer uses. */
  const READER_SLOTS := 200_000

  datatype Scale = DacBits | Bits16
  datatype Gain = DacDccts | Vout | Ignd | Spare | Regulator | Error

  /** A float of the waveform: a plain word, or a signed word times a scale and a channel gain. */
  datatype Cell = Plain(w: u32) | Scaled(raw: s32, scale: Scale, gain: Gain, chan: nat)

  /** One byte of the float of a cell; `place` 0 is the least significant. */
  datatype Octet = Octet(cell: Cell, place: nat)

  /** The four bytes of a float, in the order of their addresses. */
  datatype Float = Float(b0: Octet, b1: Octet, b2: Octet, b3: Octet)

  /** A float as the little-endian processor stores it. */
  function Native(c: Cell): Float {
    Float(Octet(c, 0), Octet(c, 1), Octet(c, 2), Octet(c, 3))
  }

  /** A float in network order, the most significant byte first. */
  function Network(c: Cell): Float {
    Float(Octet(c, 3), Octet(c, 2), Octet(c, 1), Octet(c, 0))
  }

  /** Byte `j` of the buffer that a message is. */
  function ByteAt(msg: seq<Float>, j: nat): Octet
    requires j < 4 * |msg|
  {
    var f := msg[j / 4];
    [f.b0, f.b1, f.b2, f.b3][j % 4]
  }

  // ---------------------------------------------------------------------------
  // Specification
  // ---------------------------------------------------------------------------

  /** Column `c` of the row for the frame at word `at`: which word, under which conversion. */
  function CellAt(mem: seq<u32>, at: nat, chan: nat, c: nat): Cell
    requires at + WORDS_PER_SAMPLE <= |mem| && 1 <= chan <= 4 && c < COLUMNS
  {
    if c < 2 then Plain(mem[at + c])
    else Scaled(Signed32(mem[at + 2 + 8 * (chan - 1) + (c - 2)]),
                if c < 4 then DacBits else Bits16,
                [DacDccts, DacDccts, DacDccts, Vout, Ignd, Spare, Regulator, Error][c - 2],
                chan)
  }

  /** The ten cells from `p` on are the row of the frame at word `at`. */
  predicate RowIs(out: seq<Float>, p: nat, mem: seq<u32>, at: nat, chan: nat)
    requires at + WORDS_PER_SAMPLE <= |mem| && 1 <= chan <= 4
  {
    p + COLUMNS <= |out| && forall c :: 0 <= c < COLUMNS ==> out[p + c] == Native(CellAt(mem, at, chan, c))
  }

  predicate RowsCopied(out: seq<Float>, p: nat, mem: seq<u32>, at: nat, rows: nat, chan: nat)
    requires at + rows * WORDS_PER_SAMPLE <= |mem| && 1 <= chan <= 4
  {
    forall r :: 0 <= r < rows ==> RowIs(out, p + COLUMNS * r, mem, at + WORDS_PER_SAMPLE * r, chan)
  }

  /** The frame that row `r` of a window around `slot` shows: one pass over the ring, modulo its size. */
  function WindowSlot(slot: nat, pre: nat, r: nat): (s: nat)
    ensures s < READER_SLOTS
  {
    (slot - pre + r) % READER_SLOTS
  }

  predicate WindowCopied(out: seq<Float>, mem: seq<u32>, slot: nat, pre: nat, rows: nat, chan: nat)
    requires READER_SLOTS * WORDS_PER_SAMPLE <= |mem| && 1 <= chan <= 4
  {
    forall r :: 0 <= r < rows ==>
      RowIs(out, COLUMNS * r, mem, WORDS_PER_SAMPLE * WindowSlot(slot, pre, r), chan)
  }

  /** Frames that a word count starts. */
  function RowsOf(numwords: nat): nat {
    (numwords + WORDS_PER_SAMPLE - 1) / WORDS_PER_SAMPLE
  }

  // ---------------------------------------------------------------------------
  // The copy
  // ---------------------------------------------------------------------------

  /** Two cells stored through the moving output pointer, which steps on behind each. */
  method PutTwo(out: array<Float>, pos: nat, v: Cell, w: Cell) returns (next: nat)
    requires pos + 2 <= out.Length
    modifies out
    ensures next == pos + 2 && out[pos] == Native(v) && out[pos + 1] == Native(w)
    ensures forall k :: 0 <= k < out.Length && k != pos && k != pos + 1 ==> out[k] == old(out[k])
  {
    next := pos;
    out[next] := Native(v);
    next := next + 1;
    out[next] := Native(w);
    next := next + 1;
  }

  /** One row; `first` is the channel's first word in the frame. */
  method CopyRow(out: array<Float>, pos: nat, mem: seq<u32>, at: nat, first: nat, chan: nat)
    returns (next: nat)
    requires 1 <= chan <= 4 && first == 2 + 8 * (chan - 1)
    requires at + WORDS_PER_SAMPLE <= |mem| && pos + COLUMNS <= out.Length
    modifies out
    ensures next == pos + COLUMNS
    ensures RowIs(out[..], pos, mem, at, chan)
    ensures forall k :: 0 <= k < out.Length && !(pos <= k < next) ==> out[k] == old(out[k])
  {
    var d := at + first;
    next := PutTwo(out, pos, Plain(mem[at]), Plain(mem[at + 1]));
    next := PutTwo(out, next, Scaled(Signed32(mem[d]), DacBits, DacDccts, chan),
                   Scaled(Signed32(mem[d + 1]), DacBits, DacDccts, chan));
    next := PutTwo(out, next, Scaled(Signed32(mem[d + 2]), Bits16, DacDccts, chan),
                   Scaled(Signed32(mem[d + 3]), Bits16, Vout, chan));
    next := PutTwo(out, next, Scaled(Signed32(mem[d + 4]), Bits16, Ignd, chan),
                   Scaled(Signed32(mem[d + 5]), Bits16, Spare, chan));
    next := PutTwo(out, next, Scaled(Signed32(mem[d + 6]), Bits16, Regulator, chan),
                   Scaled(Signed32(mem[d + 7]), Bits16, Error, chan));
  }

  /** A row stays what it is when only cells outside it change. */
  lemma RowKept(before: seq<Float>, after: seq<Float>, p: nat, mem: seq<u32>, at: nat, chan: nat)
    requires at + WORDS_PER_SAMPLE <= |mem| && 1 <= chan <= 4
    requires |before| == |after| && RowIs(before, p, mem, at, chan)
    requires forall k :: p <= k < p + COLUMNS ==> after[k] == before[k]
    ensures RowIs(after, p, mem, at, chan)
  {
  }

  /** Copies one contiguous part; an unknown channel copies nothing. */
  method CopyDataChan(out: array<Float>, pos: nat, mem: seq<u32>, at: nat, numwords: nat, chan: nat)
    returns (next: nat)
    requires at + RowsOf(numwords) * WORDS_PER_SAMPLE <= |mem|
    requires pos + COLUMNS * RowsOf(numwords) <= out.Length
    modifies out
    ensures 1 <= chan <= 4 ==>
      next == pos + COLUMNS * RowsOf(numwords) && RowsCopied(out[..], pos, mem, at, RowsOf(numwords), chan)
    ensures !(1 <= chan <= 4) ==> next == pos
    ensures forall k :: 0 <= k < out.Length && !(pos <= k < next) ==> out[k] == old(out[k])
  {
    next := pos;
    if 1 <= chan <= 4 {
      var first := if chan == 1 then 2 else if chan == 2 then 10 else if chan == 3 then 18 else 26;
      var i := 0;
      ghost var rows := 0;
      while i < numwords
        invariant i == WORDS_PER_SAMPLE * rows && rows <= RowsOf(numwords)
        invariant next == pos + COLUMNS * rows
        invariant RowsCopied(out[..], pos, mem, at, rows, chan)
        invariant forall k :: 0 <= k < out.Length && !(pos <= k < next) ==> out[k] == old(out[k])
      {
        ghost var before := out[..];
        next := CopyRow(out, next, mem, at + i, first, chan);
        forall r | 0 <= r < rows
          ensures RowIs(out[..], pos + COLUMNS * r, mem, at + WORDS_PER_SAMPLE * r, chan)
        {
          RowKept(before, out[..], pos + COLUMNS * r, mem, at + WORDS_PER_SAMPLE * r, chan);
        }
        i := i + WORDS_PER_SAMPLE;
        rows := rows + 1;
      }
    }
  }

  lemma WholeFrames(k: nat)
    ensures RowsOf(k * WORDS_PER_SAMPLE) == k
  {
  }

  /** Where a row of a window lies: before the wrap, after it, or past the end of the ring. */
  lemma WindowSlotCases(slot: nat, pre: nat)
    requires slot <= READER_SLOTS && pre <= READER_SLOTS
    ensures forall r :: 0 <= r < READER_SLOTS ==>
      WindowSlot(slot, pre, r) ==
        if slot - pre + r < 0 then slot - pre + r + READER_SLOTS
        else if slot - pre + r < READER_SLOTS then slot - pre + r
        else slot - pre + r - READER_SLOTS
  {
  }

  /** Joining a part that lies behind the rows already copied. */
  lemma JoinPart(before: seq<Float>, after: seq<Float>, mem: seq<u32>,
                 slot: nat, pre: nat, done: nat, part: nat, rows: nat, chan: nat)
    requires READER_SLOTS * WORDS_PER_SAMPLE <= |mem| && 1 <= chan <= 4
    requires |before| == |after| && COLUMNS * (done + rows) <= |after|
    requires WindowCopied(before, mem, slot, pre, done, chan)
    requires forall k :: 0 <= k < COLUMNS * done ==> after[k] == before[k]
    requires (part + rows) * WORDS_PER_SAMPLE <= |mem|
    requires RowsCopied(after, COLUMNS * done, mem, part * WORDS_PER_SAMPLE, rows, chan)
    requires forall r :: done <= r < done + rows ==> WindowSlot(slot, pre, r) == part + (r - done)
    ensures WindowCopied(after, mem, slot, pre, done + rows, chan)
  {
    forall r | 0 <= r < done + rows
      ensures RowIs(after, COLUMNS * r, mem, WORDS_PER_SAMPLE * WindowSlot(slot, pre, r), chan)
    {
      if r < done {
        RowKept(before, after, COLUMNS * r, mem, WORDS_PER_SAMPLE * WindowSlot(slot, pre, r), chan);
      } else {
        var q := r - done;
        assert RowIs(after, COLUMNS * done + COLUMNS * q, mem, part * WORDS_PER_SAMPLE + WORDS_PER_SAMPLE * q, chan);
      }
    }
  }

  /** One part of a window: `rows` frames from slot `part` on, behind `done` rows already copied. */
  method CopyPart(out: array<Float>, pos: nat, mem: seq<u32>, at: nat, numwords: nat, chan: nat,
                  ghost slot: nat, ghost pre: nat, ghost done: nat, ghost part: nat, ghost rows: nat)
    returns (next: nat)
    requires READER_SLOTS * WORDS_PER_SAMPLE <= |mem| && 1 <= chan <= 4
    requires pos == COLUMNS * done && at == WORDS_PER_SAMPLE * part && numwords == WORDS_PER_SAMPLE * rows
    requires part + rows <= READER_SLOTS && COLUMNS * (done + rows) <= out.Length
    requires forall r :: done <= r < done + rows ==> WindowSlot(slot, pre, r) == part + (r - done)
    requires WindowCopied(out[..], mem, slot, pre, done, chan)
    modifies out
    ensures next == COLUMNS * (done + rows)
    ensures WindowCopied(out[..], mem, slot, pre, done + rows, chan)
    ensures forall k :: next <= k < out.Length ==> out[k] == old(out[k])
  {
    ghost var before := out[..];
    WholeFrames(rows);
    next := CopyDataChan(out, pos, mem, at, numwords, chan);
    JoinPart(before, out[..], mem, slot, pre, done, part, rows, chan);
  }

  /** The window starts before the ring does: its head lies at the end of the ring. */
  method CopyPreWrap(out: array<Float>, mem: seq<u32>, addr: u32, pre: u32, post: u32, chan: nat, ghost slot: nat)
    requires slot < pre && addr == BUFSTART + BUFSTEPBYTES * slot
    requires pre + post <= READER_SLOTS && COLUMNS * (pre + post) <= out.Length
    requires READER_SLOTS * WORDS_PER_SAMPLE <= |mem| && 1 <= chan <= 4
    modifies out
    ensures WindowCopied(out[..], mem, slot, pre, pre + post, chan)
    ensures forall k :: COLUMNS * (pre + post) <= k < out.Length ==> out[k] == old(out[k])
  {
    WindowSlotCases(slot, pre);
    var preSecond := (addr - BUFSTART) / 4;
    var preFirst := pre * WORDS_PER_SAMPLE - preSecond;
    var startaddr := BUFSTART + BUFLEN - preFirst * 4;
    ghost var head := pre - slot;
    assert preSecond == WORDS_PER_SAMPLE * slot && preFirst == WORDS_PER_SAMPLE * head;
    FirstPartPreWrap(slot, pre, post);
    var next := CopyPart(out, 0, mem, (startaddr - BUFSTART) / 4, preFirst, chan,
                         slot, pre, 0, READER_SLOTS - head, head);
    next := CopyPart(out, next, mem, 0, preSecond, chan, slot, pre, head, 0, slot);
    next := CopyPart(out, next, mem, (addr - BUFSTART) / 4, post * WORDS_PER_SAMPLE, chan,
                     slot, pre, pre, slot, post);
  }

  /** The window ends behind the ring: its tail lies at the start of the ring. */
  method CopyPostWrap(out: array<Float>, mem: seq<u32>, addr: u32, pre: u32, post: u32, chan: nat, ghost slot: nat)
    requires pre <= slot <= READER_SLOTS < slot + post && addr == BUFSTART + BUFSTEPBYTES * slot
    requires pre + post <= READER_SLOTS && COLUMNS * (pre + post) <= out.Length
    requires READER_SLOTS * WORDS_PER_SAMPLE <= |mem| && 1 <= chan <= 4
    modifies out
    ensures WindowCopied(out[..], mem, slot, pre, pre + post, chan)
    ensures forall k :: COLUMNS * (pre + post) <= k < out.Length ==> out[k] == old(out[k])
  {
    WindowSlotCases(slot, pre);
    var startaddr := addr - pre * BUFSTEPBYTES;
    var postFirst := (BUFSTART + BUFLEN - addr) / 4;
    var postSecond := post * WORDS_PER_SAMPLE - postFirst;
    ghost var tail := READER_SLOTS - slot;
    FirstPartFrom(slot, pre, post);
    assert postFirst == WORDS_PER_SAMPLE * tail && postSecond == WORDS_PER_SAMPLE * (post - tail);
    var next := CopyPart(out, 0, mem, (startaddr - BUFSTART) / 4, pre * WORDS_PER_SAMPLE, chan,
                         slot, pre, 0, slot - pre, pre);
    next := CopyPart(out, next, mem, (addr - BUFSTART) / 4, postFirst, chan, slot, pre, pre, slot, tail);
    next := CopyPart(out, next, mem, 0, postSecond, chan, slot, pre, pre + tail, 0, post - tail);
  }

  /**
   The copy of a window of `pre + post` frames around a frame-aligned address of the ring. Every
   address is computed in 32 bits as the C code does.
   */
  method ReadDMABuf(out: array<Float>, mem: seq<u32>, addr: u32, pre: u32, post: u32, chan: nat, ghost slot: nat)
    requires slot <= READER_SLOTS && addr == BUFSTART + BUFSTEPBYTES * slot
    requires pre + post <= READER_SLOTS && COLUMNS * (pre + post) <= out.Length
    requires READER_SLOTS * WORDS_PER_SAMPLE <= |mem| && 1 <= chan <= 4
    modifies out
    ensures WindowCopied(out[..], mem, slot, pre, pre + post, chan)
    ensures forall k :: COLUMNS * (pre + post) <= k < out.Length ==> out[k] == old(out[k])
  {
    var startaddr: u32 := (addr - pre * BUFSTEPBYTES) % TWO_32;
    var stopaddr: u32 := (addr + post * BUFSTEPBYTES) % TWO_32;
    if startaddr < BUFSTART {
      CopyPreWrap(out, mem, addr, pre, post, chan, slot);
    } else if stopaddr > BUFSTART + BUFLEN {
      CopyPostWrap(out, mem, addr, pre, post, chan, slot);
    } else {
      WindowSlotCases(slot, pre);
      FirstPartFrom(slot, pre, post);
      var next := CopyPart(out, 0, mem, (startaddr - BUFSTART) / 4, (pre + post) * WORDS_PER_SAMPLE, chan,
                           slot, pre, 0, slot - pre, pre + post);
    }
  }

  // ---------------------------------------------------------------------------
  // Network byte order
  // ---------------------------------------------------------------------------

  /** The four bytes at `k` stand in reverse order. */
  predicate Reversed(now: Float, was: Float) {
    now.b0 == was.b3 && now.b1 == was.b2 && now.b2 == was.b1 && now.b3 == was.b0
  }

  /** `hton_conv` over a whole message. */
  method HtonConv(msg: array<Float>)
    modifies msg
    ensures forall k :: 0 <= k < msg.Length ==> Reversed(msg[k], old(msg[k]))
  {
    var i := 0;
    while i < msg.Length
      invariant 0 <= i <= msg.Length
      invariant forall k :: 0 <= k < i ==> Reversed(msg[k], old(msg[k]))
      invariant forall k :: i <= k < msg.Length ==> msg[k] == old(msg[k])
    {
      var temp := msg[i].b0;
      msg[i] := msg[i].(b0 := msg[i].b3);
      msg[i] := msg[i].(b3 := temp);
      temp := msg[i].b1;
      msg[i] := msg[i].(b1 := msg[i].b2);
      msg[i] := msg[i].(b2 := temp);
      i := i + 1;
    }
  }

  /** Byte by byte: byte `j` of a float takes the place of byte `3 - j`. */
  lemma ReversedBytes(now: seq<Float>, was: seq<Float>, k: nat, j: nat)
    requires |now| == |was| && k < |now| && j < 4 && Reversed(now[k], was[k])
    ensures ByteAt(now, 4 * k + j) == ByteAt(was, 4 * k + (3 - j))
  {
    FloatOf(k, j);
    FloatOf(k, 3 - j);
  }

  lemma FloatOf(k: nat, j: nat)
    requires j < 4
    ensures (4 * k + j) / 4 == k && (4 * k + j) % 4 == j
  {
  }

  /** In network order a cell's bytes go out from the most significant to the least. */
  lemma NetworkBytes(msg: seq<Float>, k: nat, j: nat, c: Cell)
    requires k < |msg| && j < 4 && msg[k] == Network(c)
    ensures ByteAt(msg, 4 * k + j) == Octet(c, 3 - j)
  {
    FloatOf(k, j);
  }

  /** The window as it goes out: every cell of every row in network order. */
  predicate WindowSent(out: seq<Float>, mem: seq<u32>, slot: nat, pre: nat, rows: nat, chan: nat)
    requires READER_SLOTS * WORDS_PER_SAMPLE <= |mem| && 1 <= chan <= 4
  {
    && COLUMNS * rows <= |out|
    && forall r, c :: 0 <= r < rows && 0 <= c < COLUMNS ==>
         out[COLUMNS * r + c] == Network(CellAt(mem, WORDS_PER_SAMPLE * WindowSlot(slot, pre, r), chan, c))
  }

  lemma ReversedWindow(now: seq<Float>, was: seq<Float>, mem: seq<u32>, slot: nat, pre: nat, rows: nat, chan: nat)
    requires READER_SLOTS * WORDS_PER_SAMPLE <= |mem| && 1 <= chan <= 4
    requires |now| == |was| && COLUMNS * rows <= |was| && WindowCopied(was, mem, slot, pre, rows, chan)
    requires forall k :: 0 <= k < |now| ==> Reversed(now[k], was[k])
    ensures WindowSent(now, mem, slot, pre, rows, chan)
  {
    forall r, c | 0 <= r < rows && 0 <= c < COLUMNS
      ensures now[COLUMNS * r + c] == Network(CellAt(mem, WORDS_PER_SAMPLE * WindowSlot(slot, pre, r), chan, c))
    {
      var at := WORDS_PER_SAMPLE * WindowSlot(slot, pre, r);
      assert RowIs(was, COLUMNS * r, mem, at, chan);
      assert was[COLUMNS * r + c] == Native(CellAt(mem, at, chan, c));
    }
  }

  // ---------------------------------------------------------------------------
  // A latch that was reset
  // ---------------------------------------------------------------------------

  /** A contiguous part of a copy: where it starts, and how many words it reads. */
  datatype Part = Part(start: u32, words: u32)

  predicate InRing(p: Part) {
    BUFSTART <= p.start && p.start + 4 * p.words <= BUFSTART + BUFLEN
  }

  /** The first part that the copy reads for any captured address, in the 32-bit arithmetic of the code. */
  function FirstPart(addr: u32, pre: u32, post: u32): Part {
    var start: u32 := (addr - pre * BUFSTEPBYTES) % TWO_32;
    var stop: u32 := (addr + post * BUFSTEPBYTES) % TWO_32;
    if start < BUFSTART then
      var second := (addr - BUFSTART) % TWO_32 / 4;
      var first := (pre * WORDS_PER_SAMPLE - second) % TWO_32;
      Part((BUFSTART + BUFLEN - first * 4) % TWO_32, first)
    else if stop > BUFSTART + BUFLEN then Part(start, pre * WORDS_PER_SAMPLE % TWO_32)
    else Part(start, (pre + post) * WORDS_PER_SAMPLE % TWO_32)
  }

  lemma Fits32(x: nat)
    requires x < TWO_32
    ensures x % TWO_32 == x
  {
  }

  lemma FirstPartPreWrap(slot: nat, pre: u32, post: u32)
    requires slot < pre && pre + post <= READER_SLOTS
    ensures FirstPart(BUFSTART + BUFSTEPBYTES * slot, pre, post) ==
      Part(0x11E8_4800 - 160 * (pre - slot), 40 * (pre - slot))
  {
    Fits32(BUFSTART + BUFSTEPBYTES * slot - pre * BUFSTEPBYTES);
    Fits32(BUFSTEPBYTES * slot);
    Fits32(WORDS_PER_SAMPLE * (pre - slot));
  }

  lemma FirstPartFrom(slot: nat, pre: u32, post: u32)
    requires pre <= slot <= READER_SLOTS && pre + post <= READER_SLOTS
    ensures FirstPart(BUFSTART + BUFSTEPBYTES * slot, pre, post) ==
      Part(BUFSTART + BUFSTEPBYTES * (slot - pre),
           WORDS_PER_SAMPLE * if slot + post > READER_SLOTS then pre else pre + post)
  {
    Fits32(BUFSTART + BUFSTEPBYTES * slot - pre * BUFSTEPBYTES);
    Fits32(BUFSTART + BUFSTEPBYTES * slot + post * BUFSTEPBYTES);
  }

  /** On a frame-aligned address of the ring it stays in the ring. */
  lemma FirstPartInRing(slot: nat, pre: u32, post: u32)
    requires slot <= READER_SLOTS && pre + post <= READER_SLOTS
    ensures InRing(FirstPart(BUFSTART + BUFSTEPBYTES * slot, pre, post))
  {
    if slot < pre {
      FirstPartPreWrap(slot, pre, post);
    } else {
      FirstPartFrom(slot, pre, post);
    }
  }

  lemma Below(x: nat)
    requires 0 < x < TWO_32
    ensures (0 - x) % TWO_32 == TWO_32 - x
  {
  }

  /** Without samples before the trigger the first part is longer than the ring. */
  lemma ZeroAddressTooLong(post: u32)
    ensures FirstPart(0, 0, post).words == 3_288_334_336
  {
    Below(BUFSTART);
    Below(1_006_632_960);
  }

  /** With them it starts behind the ring. */
  lemma ZeroAddressTooHigh(pre: u32, post: u32)
    requires 0 < pre && pre + post <= READER_SLOTS
    ensures FirstPart(0, pre, post).start == TWO_32 - pre * BUFSTEPBYTES
  {
    Below(pre * BUFSTEPBYTES);
    Fits32(post * BUFSTEPBYTES);
  }

  /** The address 0 that a reset leaves in a latch is not one: the first part for it lies outside the ring. */
  lemma ZeroAddressOutside(pre: u32, post: u32)
    requires 0 < pre + post <= READER_SLOTS
    ensures !InRing(FirstPart(0, pre, post))
  {
    if pre == 0 {
      ZeroAddressTooLong(post);
    } else {
      ZeroAddressTooHigh(pre, post);
    }
  }
}
