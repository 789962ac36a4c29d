/**
 What every run of the recorder keeps: the burst discipline of the AXI channel, and the contents of the ring. A run is
 any list of clock inputs, resets among them, against a slave that keeps the AXI response rule.
 */
module AdcWriterProofs {
  import opened Words
  import opened AdcWriter

  /** The state after the power-up reset, over any memory contents. */
  predicate Initial(b: Bus) {
    b.w == POWER_UP && |b.mem| == WRITER_SLOTS * BURST_LEN &&
    b.addrs == [] && b.beats == [] && b.lasts == [] && b.loaded == NO_FRAME && b.frames == []
    && b.epoch == 0 && !b.dirty && !b.early
  }

  /** Every step of the run is legal in the state where it is taken. */
  ghost predicate LegalRun(b: Bus, ins: seq<Input>)
    decreases |ins|
  {
    ins == [] || (Legal(b, ins[0]) && LegalRun(Clock(b, ins[0]), ins[1..]))
  }

  ghost function Run(b: Bus, ins: seq<Input>): Bus
    requires LegalRun(b, ins)
    decreases |ins|
  {
    if ins == [] then b else Run(Clock(b, ins[0]), ins[1..])
  }

  // ---------------------------------------------------------------------------
  // The burst
  // ---------------------------------------------------------------------------

  lemma BurstReset(b: Bus, i: Input)
    requires BurstInv(b) && Legal(b, i) && i.reset
    ensures BurstInv(Clock(b, i))
  {
  }

  lemma BurstIdle(b: Bus, i: Input)
    requires BurstInv(b) && Legal(b, i) && !i.reset && b.w.phase.Idle?
    ensures BurstInv(Clock(b, i))
  {
  }

  lemma BurstAddress(b: Bus, i: Input)
    requires BurstInv(b) && Legal(b, i) && !i.reset && b.w.phase.Address?
    ensures BurstInv(Clock(b, i))
  {
  }

  lemma BurstStalled(b: Bus, i: Input)
    requires BurstInv(b) && !i.reset && b.w.phase.Word? && !i.wready
    ensures BurstInv(Clock(b, i))
  {
  }

  /** The words accepted are still the first of those offered when one of each is added. */
  lemma FirstWords(beats: seq<u32>, words: seq<u32>, next: u32)
    requires |beats| < |words| && beats == words[..|beats|]
    ensures beats + [words[|beats|]] == (words + [next])[..|beats| + 1] && beats == (words + [next])[..|beats|]
  {
  }

  /** A word is offered, and the one offered before it, if any, is accepted. */
  lemma BurstOffers(b: Bus, i: Input)
    requires BurstInv(b) && !i.reset && b.w.phase.Word? && i.wready
    ensures BurstInv(Clock(b, i))
  {
    var c := Clock(b, i);
    var k := b.w.phase.i;
    var next := WordValue(k, b.w.datacnt, i.adcs);
    assert c.loaded.words == b.loaded.words + [next] && c.w.wdata == next && c.addrs == b.addrs && c.early == b.early;
    if k > 0 {
      FirstWords(b.beats, b.loaded.words, next);
      assert c.beats == b.beats + [b.loaded.words[k - 1]] && c.lasts == b.lasts + [b.early];
    } else {
      assert c.beats == [] && c.lasts == [];
    }
  }

  lemma BurstWord(b: Bus, i: Input)
    requires BurstInv(b) && Legal(b, i) && !i.reset && b.w.phase.Word?
    ensures BurstInv(Clock(b, i))
  {
    if i.wready {
      BurstOffers(b, i);
    } else {
      BurstStalled(b, i);
    }
  }

  lemma BurstAwait(b: Bus, i: Input)
    requires BurstInv(b) && Legal(b, i) && !i.reset && b.w.phase.AwaitResp?
    ensures BurstInv(Clock(b, i))
  {
  }

  lemma BurstStep(b: Bus, i: Input)
    requires BurstInv(b) && Legal(b, i)
    ensures BurstInv(Clock(b, i))
  {
    if i.reset {
      BurstReset(b, i);
    } else {
      match b.w.phase
      case Idle => BurstIdle(b, i);
      case Address => BurstAddress(b, i);
      case Word(_) => BurstWord(b, i);
      case AwaitResp => BurstAwait(b, i);
    }
  }

  /** Two different frames of the newest 200,001 never share a slot. */
  lemma SlotsDiffer(k: nat, n: nat)
    requires k < n < k + WRITER_SLOTS
    ensures Slot(k) != Slot(n)
  {
  }

  lemma SlotStep(k: nat)
    ensures NextAddress(SlotAddress(k)) == SlotAddress(k + 1)
  {
  }

  /** Storing one beat of frame `n` changes no word of another frame still in the ring. */
  lemma BeatKeepsOthers(mem: seq<u32>, k: nat, n: nat, frame: Frame, j: nat, v: u32)
    requires k < n < k + WRITER_SLOTS && j < BURST_LEN && InMemory(mem, k, frame)
    ensures InMemory(mem[Slot(n) * BURST_LEN + j := v], k, frame)
  {
  }

  // ---------------------------------------------------------------------------
  // The ring
  // ---------------------------------------------------------------------------

  lemma NewBurstStep(b: Bus, i: Input)
    requires Inv(b) && Legal(b, i) && NewBurst(b.w, i)
    ensures RingInv(Clock(b, i)) && CurrentInv(Clock(b, i))
  {
    var c := Clock(b, i);
    assert c.w.addrBase == b.w.addrBase == c.w.addrPtr && c.w.phase == Address;
    assert c.frames == b.frames && c.mem == b.mem && c.beats == [];
    assert Started(c) == |c.frames| + 1 && Started(b) <= Started(c);
    NextModulo32(|b.frames| - b.epoch);
  }

  lemma BeatAddress(b: Bus, i: Input)
    requires Inv(b) && Legal(b, i) && b.w.wvalid
    ensures |b.addrs| == 1 && (b.addrs[0] - DDR_BASE) / 4 + |b.beats| == Slot(|b.frames|) * BURST_LEN + |b.beats|
    ensures |b.beats| < BURST_LEN
  {
  }

  /** What reaches memory at an edge belongs to the slot of the frame in progress. */
  lemma StoredKeepsOthers(b: Bus, i: Input)
    requires Inv(b) && Legal(b, i) && !b.w.phase.Idle?
    ensures |Stored(b, i)| == |b.mem|
    ensures forall k :: 0 <= k < |b.frames| && Started(b) - WRITER_SLOTS <= k ==> InMemory(Stored(b, i), k, b.frames[k])
  {
    if b.w.wvalid && i.wready {
      BeatAddress(b, i);
      forall k | 0 <= k < |b.frames| && Started(b) - WRITER_SLOTS <= k
        ensures InMemory(Stored(b, i), k, b.frames[k])
      {
        BeatKeepsOthers(b.mem, k, |b.frames|, b.frames[k], |b.beats|, b.w.wdata);
      }
    }
  }

  lemma ResponseStep(b: Bus, i: Input)
    requires Inv(b) && Legal(b, i) && !i.reset && b.w.phase.AwaitResp? && i.bvalid
    ensures RingInv(Clock(b, i)) && CurrentInv(Clock(b, i))
  {
    CurrentIsWhole(b);
    Response(b, i);
    RingGrows(b, Clock(b, i));
  }

  /** Once 40 beats are accepted, the frame in progress stands whole in its slot. */
  lemma CurrentIsWhole(b: Bus)
    requires Inv(b) && b.w.phase.AwaitResp? && |b.beats| == BURST_LEN
    ensures InMemory(b.mem, |b.frames|, b.loaded) && IsFrame(b.loaded)
    ensures b.loaded.count == CountOf(|b.frames|, b.epoch)
  {
    assert b.beats == b.loaded.words;
  }

  /** The frame in progress is added to those stored, and the ring address moves. */
  predicate Grows(b: Bus, c: Bus) {
    && c.mem == b.mem && c.frames == b.frames + [b.loaded] && c.w.phase.Idle? && c.epoch == b.epoch
    && c.w.addrBase == NextAddress(b.w.addrBase) && c.w.addrPtr == b.w.addrPtr && c.w.datacnt == b.w.datacnt
    && Started(c) == Started(b) == |b.frames| + 1
  }

  /** A response does that. */
  lemma Response(b: Bus, i: Input)
    requires Inv(b) && Legal(b, i) && !i.reset && b.w.phase.AwaitResp? && i.bvalid
    ensures Grows(b, Clock(b, i))
  {
  }

  lemma RingGrows(b: Bus, c: Bus)
    requires RingInv(b) && !b.w.phase.Idle? && Grows(b, c)
    requires InMemory(b.mem, |b.frames|, b.loaded) && IsFrame(b.loaded)
    requires b.loaded.count == CountOf(|b.frames|, b.epoch)
    ensures RingInv(c) && CurrentInv(c)
  {
    SlotStep(|b.frames|);
  }

  /** A word offered is the value of its state, with the sample count of the frame. */
  lemma CurrentWords(b: Bus, i: Input)
    requires Inv(b) && !b.w.phase.Idle? && !i.bvalid && !i.reset
    ensures WordsOf(Clock(b, i).loaded) && Clock(b, i).loaded.count == Clock(b, i).w.datacnt
  {
    if b.w.phase.Word? && i.wready {
      FrameGrows(b.loaded, i.adcs);
    }
  }

  lemma FrameGrows(frame: Frame, adcs: Adcs)
    requires WordsOf(frame) && |frame.words| < BURST_LEN
    ensures WordsOf(
      Frame(frame.words + [WordValue(|frame.words|, frame.count, adcs)], frame.taken + [adcs], frame.count))
  {
  }

  /** A beat laid behind those of its slot. */
  lemma BeatLands(mem: seq<u32>, at: nat, beats: seq<u32>, v: u32)
    requires at + |beats| < |mem| && forall j :: 0 <= j < |beats| ==> mem[at + j] == beats[j]
    ensures var m := mem[at + |beats| := v]; forall j :: 0 <= j <= |beats| ==> m[at + j] == (beats + [v])[j]
  {
  }

  lemma AcceptedBeat(b: Bus, i: Input)
    requires Inv(b) && Legal(b, i) && !i.reset && b.w.wvalid && i.wready
    ensures var c := Clock(b, i); var at := Slot(|b.frames|) * BURST_LEN;
      && |b.beats| < BURST_LEN && c.beats == b.beats + [b.w.wdata]
      && at + |b.beats| < |b.mem| && c.mem == b.mem[at + |b.beats| := b.w.wdata]
  {
    BeatAddress(b, i);
  }

  /** A beat accepted lands behind the beats before it. */
  lemma CurrentBeats(b: Bus, i: Input)
    requires Inv(b) && Legal(b, i) && !b.w.phase.Idle? && !i.bvalid && !i.reset
    ensures var c := Clock(b, i); var at := Slot(|b.frames|) * BURST_LEN;
      && |c.beats| <= BURST_LEN && |c.mem| == WRITER_SLOTS * BURST_LEN
      && forall j :: 0 <= j < |c.beats| ==> c.mem[at + j] == c.beats[j]
  {
    if b.w.wvalid && i.wready {
      AcceptedBeat(b, i);
      BeatLands(b.mem, Slot(|b.frames|) * BURST_LEN, b.beats, b.w.wdata);
    } else {
      assert Clock(b, i).beats == b.beats && Clock(b, i).mem == b.mem;
    }
  }

  lemma MidBurstCurrent(b: Bus, i: Input)
    requires Inv(b) && Legal(b, i) && !b.w.phase.Idle? && !i.bvalid && !i.reset
    ensures CurrentInv(Clock(b, i))
  {
    CurrentWords(b, i);
    CurrentBeats(b, i);
  }

  lemma MidBurstRing(b: Bus, i: Input)
    requires Inv(b) && Legal(b, i) && !b.w.phase.Idle? && !i.bvalid && !i.reset
    ensures RingInv(Clock(b, i))
  {
    var c := Clock(b, i);
    assert c.frames == b.frames && c.w.addrBase == b.w.addrBase && Started(c) == Started(b);
    StoredKeepsOthers(b, i);
  }

  /** A reset keeps the ring: the numbering starts again at 1, and the slot of a burst cut short comes next. */
  lemma ResetStep(b: Bus, i: Input)
    requires Inv(b) && Legal(b, i) && i.reset
    ensures Inv(Clock(b, i))
    ensures Clock(b, i).frames == b.frames && Clock(b, i).epoch == |b.frames| && Started(Clock(b, i)) == Started(b)
    ensures Clock(b, i).w.datacnt == 0 && Clock(b, i).w.addrBase == b.w.addrBase
  {
    if !b.w.phase.Idle? {
      StoredKeepsOthers(b, i);
    }
  }

  lemma Step(b: Bus, i: Input)
    requires Inv(b) && Legal(b, i)
    ensures Inv(Clock(b, i))
    ensures b.frames <= Clock(b, i).frames
    ensures Started(b) <= Started(Clock(b, i)) <= Started(b) + 1
    ensures !i.reset ==> Clock(b, i).epoch == b.epoch && (!b.dirty ==> !Clock(b, i).dirty)
  {
    if i.reset {
      ResetStep(b, i);
    } else {
      BurstStep(b, i);
      if NewBurst(b.w, i) {
        NewBurstStep(b, i);
      } else if b.w.phase.AwaitResp? && i.bvalid {
        ResponseStep(b, i);
      } else if !b.w.phase.Idle? {
        MidBurstCurrent(b, i);
        MidBurstRing(b, i);
      }
    }
  }

  /**
   Main result on the recorder: after any legal run, resets included, the newest 200,001 frames (less the one whose slot
   is being rewritten) lie whole in the ring at their slots, numbered from 1 behind the last reset.
   */
  lemma {:induction false} RecorderRun(b: Bus, ins: seq<Input>)
    requires Inv(b) && LegalRun(b, ins)
    ensures Inv(Run(b, ins)) && b.frames <= Run(b, ins).frames
    decreases |ins|
  {
    if ins != [] {
      Step(b, ins[0]);
      RecorderRun(Clock(b, ins[0]), ins[1..]);
    }
  }

  lemma InitialInv(b: Bus)
    requires Initial(b)
    ensures Inv(b) && Clean(b) && Started(b) == 0
  {
  }

  // ---------------------------------------------------------------------------
  // The last beat
  // ---------------------------------------------------------------------------

  predicate NoReset(ins: seq<Input>)
    decreases |ins|
  {
    ins == [] || (!ins[0].reset && NoReset(ins[1..]))
  }

  predicate FirstAwait(b: Bus) {
    BurstInv(b) && b.w.phase.AwaitResp? && b.w.wvalid
  }

  /** All 40 words transfer exactly when `wready` is high in the first AWAITRESP cycle. */
  lemma {:induction false} LastBeat(b: Bus, i: Input, ins: seq<Input>)
    requires FirstAwait(b) && Legal(b, i) && LegalRun(Clock(b, i), ins) && NoReset([i] + ins)
    ensures i.wready ==> Clock(b, i).beats == b.loaded.words
    ensures !i.wready ==> Run(Clock(b, i), ins).beats == b.loaded.words[..BURST_LEN - 1]
                          && Run(Clock(b, i), ins).w.phase.AwaitResp?
                          && Run(Clock(b, i), ins).frames == b.frames
    decreases |ins|
  {
    assert ([i] + ins)[0] == i && ([i] + ins)[1..] == ins;
    if !i.wready {
      LostForever(Clock(b, i), ins);
    }
  }

  /** Once the last word was dropped the slave never answers, and the recorder stays where it is. */
  lemma {:induction false} LostForever(b: Bus, ins: seq<Input>)
    requires BurstInv(b) && b.w.phase.AwaitResp? && !b.w.wvalid && |b.beats| == BURST_LEN - 1
    requires LegalRun(b, ins) && NoReset(ins)
    ensures var r := Run(b, ins);
      r.w.phase.AwaitResp? && r.beats == b.beats && r.frames == b.frames && r.w.addrBase == b.w.addrBase
    decreases |ins|
  {
    if ins != [] {
      BurstStep(b, ins[0]);
      LostForever(Clock(b, ins[0]), ins[1..]);
    }
  }

  /** One address handshake a burst, and the ring address moves only with the response. */
  lemma AddressDiscipline(b: Bus, i: Input)
    requires Inv(b) && Legal(b, i)
    ensures Clock(b, i).w.addrBase != b.w.addrBase <==> !i.reset && b.w.phase.AwaitResp? && i.bvalid
    ensures b.w.phase.Word? || b.w.phase.AwaitResp? ==> b.addrs == [SlotAddress(|b.frames|)]
  {
    SlotStep(|b.frames|);
    assert SlotAddress(|b.frames|) != SlotAddress(|b.frames| + 1) by {
      SlotsDiffer(|b.frames|, |b.frames| + 1);
    }
  }

  /** The writer alone, over a list of inputs. */
  function After(w: Writer, ins: seq<Input>): Writer
    decreases |ins|
  {
    if ins == [] then w else After(Next(w, ins[0]), ins[1..])
  }

  /** The recorder does not come to AWAITRESP. */
  predicate BeforeAwait(w: Writer, ins: seq<Input>)
    decreases |ins|
  {
    !w.phase.AwaitResp? && (ins == [] || BeforeAwait(Next(w, ins[0]), ins[1..]))
  }

  /** Up to AWAITRESP nothing moves `wlast`, resets included. */
  lemma {:induction false} WlastKept(w: Writer, ins: seq<Input>)
    requires BeforeAwait(w, ins)
    ensures After(w, ins).wlast == w.wlast
    decreases |ins|
  {
    if ins != [] {
      assert !Next(w, ins[0]).phase.AwaitResp?;
      WlastKept(Next(w, ins[0]), ins[1..]);
    }
  }

  /** The one clock at which a reset leaves `wlast` high. */
  predicate BadReset(b: Bus, i: Input) {
    i.reset && b.w.phase.AwaitResp? && b.w.wvalid
  }

  /** `wlast` is where it belongs: low but for the end of a burst. */
  predicate Clean(b: Bus) {
    (b.w.phase.AwaitResp? || !b.w.wlast) && (b.w.phase.Idle? || !b.early)
  }

  /** It stays there exactly when no reset falls in the first AWAITRESP cycle of a burst. */
  lemma CleanStep(b: Bus, i: Input)
    requires BurstInv(b) && Legal(b, i) && Clean(b)
    ensures Clean(Clock(b, i)) <==> !BadReset(b, i)
  {
  }

  ghost predicate NoBadReset(b: Bus, ins: seq<Input>)
    requires LegalRun(b, ins)
    decreases |ins|
  {
    ins == [] || (!BadReset(b, ins[0]) && NoBadReset(Clock(b, ins[0]), ins[1..]))
  }

  /** Over every run without such a reset, `wlast` accompanies the 40th word of each burst and no other. */
  lemma {:induction false} CleanRun(b: Bus, ins: seq<Input>)
    requires BurstInv(b) && Clean(b) && LegalRun(b, ins) && NoBadReset(b, ins)
    ensures var r := Run(b, ins);
      && BurstInv(r) && Clean(r)
      && (!r.w.phase.Idle? ==> forall j :: 0 <= j < |r.lasts| ==> r.lasts[j] == (j == BURST_LEN - 1))
    decreases |ins|
  {
    if ins != [] {
      BurstStep(b, ins[0]);
      CleanStep(b, ins[0]);
      CleanRun(Clock(b, ins[0]), ins[1..]);
    }
  }

  /**
   A reset does not touch `wlast`: from a clean state, exactly when it falls in the first AWAITRESP cycle, the next
   burst, up to its own AWAITRESP, is sent with `wlast` high on every word.
   */
  lemma ResetLeavesWlast(b: Bus, i: Input, ins: seq<Input>)
    requires BurstInv(b) && Clean(b) && i.reset && BeforeAwait(Next(b.w, i), ins)
    ensures After(Next(b.w, i), ins).wlast <==> b.w.phase.AwaitResp? && b.w.wvalid
  {
    WlastKept(Next(b.w, i), ins);
  }

  // ---------------------------------------------------------------------------
  // Columns
  // ---------------------------------------------------------------------------

  /** The eight signals of a channel in the order of the frame. */
  function Column(c: Channel, col: nat): s20
    requires col < 8
  {
    [c.dcct0, c.dcct1, c.dacmon, c.voltage, c.ignd, c.spare, c.psReg, c.psError][col]
  }

  function ChannelOf(a: Adcs, chan: nat): Channel
    requires 1 <= chan <= 4
  {
    [a.ps1, a.ps2, a.ps3, a.ps4][chan - 1]
  }

  /** Column `col` of channel `chan` is word 2 + 8(chan-1) + col, and reads back as a signed value. */
  lemma ColumnPosition(a: Adcs, datacnt: u32, chan: nat, col: nat)
    requires 1 <= chan <= 4 && col < 8
    ensures Signed32(WordValue(2 + 8 * (chan - 1) + col, datacnt, a)) == Column(ChannelOf(a, chan), col)
  {
  }
  /** The other words: the header, the sample count, and behind the channels the numbers 35 to 40. */
  lemma FrameLayout(a: Adcs, datacnt: u32, i: nat)
    requires i < 40
    ensures i == 0 ==> WordValue(i, datacnt, a) == 0x8000_0000
    ensures i == 1 ==> WordValue(i, datacnt, a) == datacnt
    ensures i >= 34 ==> WordValue(i, datacnt, a) == i + 1
  {
  }
}
