/**
 The firmware task `snapshot_push`: twenty trigger slots, polled and served in one pass.

 `snapshot_push` polls the slots type by type and sends channel by channel; the polls leave no trace of their
 order, so both visit the slots in the order of the sends here.
 */
module SnapshotTask {
  import opened Words
  import opened SnapshotCopy
  import opened SnapshotTriggers

  /** Slots in the order of the sends: usr, flt, err, inj and evr of channel 1, then of channel 2, ... */
  const SLOTS := 20
  const TYPES := 5

  /** The latch each slot polls; the four evr slots share one. */
  function LineOf(k: nat): (l: nat)
    requires k < SLOTS
    ensures l < LINES
  {
    if k % TYPES == 4 then 16 else 4 * (k % TYPES) + k / TYPES
  }

  /** The constants of `InitTriggerInfo`. */
  function PreOf(k: nat): u32 {
    if k % TYPES == 3 then 0 else 50_000
  }

  function PostOf(k: nat): u32 {
    if k % TYPES == 3 then 8_000 else 50_000
  }

  function MessageOf(k: nat): nat {
    60 + 10 * (k % TYPES) + k / TYPES
  }

  function ChannelNumber(k: nat): (c: nat)
    ensures k < SLOTS ==> 1 <= c <= 4
  {
    k / TYPES + 1
  }

  /** One line of the set-up: the latch polled, the window, the message id and the channel. */
  datatype SlotSetup = SlotSetup(line: nat, pre: u32, post: u32, id: nat, chan: nat)

  /** The twenty slots written out: usr, flt, err, inj and evr of each channel. */
  const SETUP: seq<SlotSetup> := [
    SlotSetup(0, 50_000, 50_000, 60, 1), SlotSetup(4, 50_000, 50_000, 70, 1), SlotSetup(8, 50_000, 50_000, 80, 1),
    SlotSetup(12, 0, 8_000, 90, 1), SlotSetup(16, 50_000, 50_000, 100, 1),
    SlotSetup(1, 50_000, 50_000, 61, 2), SlotSetup(5, 50_000, 50_000, 71, 2), SlotSetup(9, 50_000, 50_000, 81, 2),
    SlotSetup(13, 0, 8_000, 91, 2), SlotSetup(16, 50_000, 50_000, 101, 2),
    SlotSetup(2, 50_000, 50_000, 62, 3), SlotSetup(6, 50_000, 50_000, 72, 3), SlotSetup(10, 50_000, 50_000, 82, 3),
    SlotSetup(14, 0, 8_000, 92, 3), SlotSetup(16, 50_000, 50_000, 102, 3),
    SlotSetup(3, 50_000, 50_000, 63, 4), SlotSetup(7, 50_000, 50_000, 73, 4), SlotSetup(11, 50_000, 50_000, 83, 4),
    SlotSetup(15, 0, 8_000, 93, 4), SlotSetup(16, 50_000, 50_000, 103, 4)]

  lemma SetupOf(k: nat)
    requires k < SLOTS
    ensures |SETUP| == SLOTS && SETUP[k] == SlotSetup(LineOf(k), PreOf(k), PostOf(k), MessageOf(k), ChannelNumber(k))
    ensures Quiet(InitialSlot(k)) && InitialSlot(k).addr == InitialSlot(k).addrLast == 0
  {
    if k < 5 {
    } else if k < 10 {
    } else if k < 15 {
    }
  }

  /** Each line of a channel has one slot, on that channel; message ids differ. */
  lemma SlotsDiffer(j: nat, k: nat)
    requires j < k < SLOTS
    ensures LineOf(j) == LineOf(k) ==> LineOf(k) == 16 && ChannelNumber(j) != ChannelNumber(k)
    ensures MessageOf(j) != MessageOf(k)
  {
  }

  /** The messages that the scan of the first `n` slots hands to the network. */
  function Messages(polled: seq<Trigger>, n: nat): seq<nat>
    requires |polled| == SLOTS && n <= SLOTS
  {
    if n == 0 then []
    else Messages(polled, n - 1) + if polled[n - 1].sendbuf then [MessageOf(n - 1)] else []
  }

  function AllMessages(polled: seq<Trigger>): seq<nat>
    requires |polled| == SLOTS
  {
    Messages(polled, |polled|)
  }

  /** What the polls make of the slots. */
  function Polled(was: seq<Trigger>, regs: seq<u32>): (v: seq<Trigger>)
    requires |was| == SLOTS && |regs| == LINES
    ensures |v| == SLOTS
  {
    seq(SLOTS, k requires 0 <= k < SLOTS => Poll(was[k], regs[LineOf(k)]))
  }

  function InitialSlot(k: nat): Trigger {
    Trigger(0, 0, PreOf(k), PostOf(k), false, 0, false, MessageOf(k), ChannelNumber(k))
  }

  class SnapshotPush {
    const slots: seq<TriggerInfo>
    /** Ids of the messages handed to the network, in order. */
    var sent: seq<nat>

    /** The slots are separate records with separate messages. */
    ghost predicate Separate() {
      && |slots| == SLOTS
      && forall j, k :: 0 <= j < k < SLOTS ==> slots[j] != slots[k] && slots[j].msg != slots[k].msg
    }

    /** The fixed part of slot `k`. */
    ghost predicate Configured(k: nat)
      requires k < |slots|
      reads slots[k]
    {
      && slots[k].msg.Length == MSGWFMLEN / 4
      && slots[k].pre == PreOf(k) && slots[k].post == PostOf(k) && slots[k].chan == ChannelNumber(k)
      && slots[k].msgID == MessageOf(k)
    }

    ghost predicate SlotValid(k: nat)
      requires k < |slots|
      reads slots[k]
    {
      Configured(k) && SlotInv(slots[k].View())
    }

    ghost predicate Valid()
      reads this, slots
    {
      Separate() && forall k :: 0 <= k < SLOTS ==> SlotValid(k)
    }

    /** Every slot that sends in this pass has captured a ring address. */
    ghost predicate SendsFit(regs: seq<u32>)
      reads this, slots
    {
      && |slots| == SLOTS && |regs| == LINES
      && forall k :: 0 <= k < SLOTS && Sends(slots[k].View(), regs[LineOf(k)]) ==>
        RingAddress(Poll(slots[k].View(), regs[LineOf(k)]).addr)
    }

    /** The states of the slots. */
    ghost function Views(): (v: seq<Trigger>)
      requires |slots| == SLOTS
      reads this, slots
      ensures |v| == SLOTS
    {
      seq(SLOTS, k requires 0 <= k < SLOTS reads this, slots => slots[k].View())
    }

    constructor ()
      ensures Valid() && sent == []
      ensures forall k :: 0 <= k < SLOTS ==>
        fresh(slots[k]) && fresh(slots[k].msg) && slots[k].View() == InitialSlot(k)
    {
      var all: seq<TriggerInfo> := [];
      for k := 0 to SLOTS
        invariant |all| == k
        invariant forall j :: 0 <= j < k ==>
          fresh(all[j]) && fresh(all[j].msg) && all[j].msg.Length == MSGWFMLEN / 4 && all[j].View() == InitialSlot(j)
        invariant forall i, j :: 0 <= i < j < k ==> all[i] != all[j] && all[i].msg != all[j].msg
      {
        var t := new TriggerInfo(PreOf(k), PostOf(k), MessageOf(k), ChannelNumber(k));
        all := all + [t];
      }
      slots := all;
      sent := [];
    }

    /** The poll of one slot. */
    method CheckSlot(k: nat, reg: u32)
      requires k < |slots| && Configured(k)
      modifies slots[k]
      ensures Waiting(k, Poll(old(slots[k].View()), reg))
    {
      slots[k].Check(reg);
    }

    /** `CheckforTriggers`: every slot polls its latch. */
    method CheckForTriggers(regs: seq<u32>)
      requires Valid() && |regs| == LINES
      modifies slots
      ensures forall k :: 0 <= k < SLOTS ==> Waiting(k, Polled(old(Views()), regs)[k])
    {
      ghost var was := Views();
      ghost var polled := Polled(was, regs);
      forall j | 0 <= j < SLOTS
        ensures Waiting(j, was[j])
      {
        assert SlotValid(j);
      }
      for k := 0 to SLOTS
        invariant forall j :: 0 <= j < SLOTS ==> Waiting(j, if j < k then polled[j] else was[j])
      {
        assert Waiting(k, was[k]);
        CheckSlot(k, regs[LineOf(k)]);
      }
    }

    /** The message of slot `k` holds the window around its captured address, in network order. */
    ghost predicate Filled(k: nat, mem: seq<u32>)
      requires k < SLOTS == |slots| && READER_SLOTS * WORDS_PER_SAMPLE <= |mem|
      reads slots[k], slots[k].msg
    {
      && RingAddress(slots[k].addr)
      && WindowSent(slots[k].msg[..], mem, SlotOf(slots[k].addr), PreOf(k), PreOf(k) + PostOf(k), ChannelNumber(k))
    }

    /** Slot `k` has been scanned, from the state `was`. */
    ghost predicate Scanned(k: nat, was: Trigger, mem: seq<u32>)
      requires k < SLOTS == |slots| && READER_SLOTS * WORDS_PER_SAMPLE <= |mem|
      reads slots[k], slots[k].msg
    {
      slots[k].View() == AfterScan(was) && Configured(k) && (was.sendbuf ==> Filled(k, mem))
    }

    /** Slot `k` waits for the scan in the state `was`. */
    ghost predicate Waiting(k: nat, was: Trigger)
      requires k < |slots|
      reads slots[k]
    {
      slots[k].View() == was && Configured(k)
    }

    /** Slot `k` in the scan. */
    ghost predicate InScan(k: nat, done: bool, was: Trigger, mem: seq<u32>)
      requires k < SLOTS == |slots| && READER_SLOTS * WORDS_PER_SAMPLE <= |mem|
      reads slots[k], slots[k].msg
    {
      if done then Scanned(k, was, mem) else Waiting(k, was) && (was.sendbuf ==> RingAddress(was.addr))
    }

    /** The first `n` slots have been scanned, the others wait. */
    ghost predicate ScanState(n: nat, was: seq<Trigger>, mem: seq<u32>)
      requires READER_SLOTS * WORDS_PER_SAMPLE <= |mem| && |slots| == SLOTS == |was|
      reads slots, set t <- slots :: t.msg
    {
      forall k :: 0 <= k < SLOTS ==> InScan(k, k < n, was[k], mem)
    }

    /** A slot whose capture is complete fills and sends its message. */
    method Serve(k: nat, ghost was: Trigger, mem: seq<u32>)
      requires k < SLOTS == |slots| && READER_SLOTS * WORDS_PER_SAMPLE <= |mem| && InScan(k, false, was, mem)
      modifies `sent, slots[k], slots[k].msg
      ensures InScan(k, true, was, mem)
      ensures sent == old(sent) + if was.sendbuf then [MessageOf(k)] else []
    {
      if slots[k].sendbuf {
        slots[k].SendWfmData(mem);
        sent := sent + [slots[k].msgID];
      }
    }

    /** The scan: every slot whose capture is complete fills and sends its message. */
    method SendWaveforms(mem: seq<u32>, ghost was: seq<Trigger>)
      requires Separate() && |was| == SLOTS && READER_SLOTS * WORDS_PER_SAMPLE <= |mem| && ScanState(0, was, mem)
      modifies `sent, slots, set t <- slots :: t.msg
      ensures ScanState(SLOTS, was, mem)
      ensures sent == old(sent) + AllMessages(was)
    {
      for k := 0 to SLOTS
        invariant ScanState(k, was, mem)
        invariant sent == old(sent) + Messages(was, k)
      {
        assert InScan(k, false, was[k], mem);
        Serve(k, was[k], mem);
      }
    }

    /** One turn of the loop of `snapshot_push`: the polls, then the scan. Every slot takes its own `Pass`. */
    method PassOnce(regs: seq<u32>, mem: seq<u32>)
      requires Valid() && SendsFit(regs) && READER_SLOTS * WORDS_PER_SAMPLE <= |mem|
      modifies `sent, slots, set t <- slots :: t.msg
      ensures Valid()
      ensures forall k :: 0 <= k < SLOTS ==> slots[k].View() == Pass(old(slots[k].View()), regs[LineOf(k)])
      ensures forall k :: 0 <= k < SLOTS && Sends(old(slots[k].View()), regs[LineOf(k)]) ==> Filled(k, mem)
      ensures sent == old(sent) + AllMessages(Polled(old(Views()), regs))
    {
      ghost var was := Views();
      forall k | 0 <= k < SLOTS
        ensures SlotInv(was[k])
      {
        assert SlotValid(k);
      }
      CheckForTriggers(regs);
      ghost var polled := Polled(was, regs);
      SendWaveforms(mem, polled);
      forall k | 0 <= k < SLOTS
        ensures slots[k].View() == Pass(was[k], regs[LineOf(k)]) && SlotValid(k)
        ensures Sends(was[k], regs[LineOf(k)]) ==> Filled(k, mem)
      {
        assert InScan(k, true, polled[k], mem);
        PassKeeps(was[k], regs[LineOf(k)]);
      }
    }
  }

  /** A slot behind the scan. */
  function AfterScan(s: Trigger): Trigger {
    if s.sendbuf then s.(sendbuf := false, active := false) else s
  }
}
