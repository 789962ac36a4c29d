# Verified model of the magnet power supply controller

This project models, in Dafny, the parts of the power supply controller's gateware (VHDL) and firmware (C)
that carry protocol, timing or exact-arithmetic guarantees, and proves those guarantees for every input,
every run and every interleaving the parts can meet.

`dafny verify dfyconfig.toml` checks the whole project.

## How the model is built

* **Clocked entities.** Each VHDL entity is a class whose fields are its registers and whose `Tick` method is
  one rising clock edge. A function `Next` from the register values before the edge to those after it is the
  specification of `Tick`; runs, and the history variables that properties speak of, are built from `Next`.
* **Firmware.** C functions that update records, buffers or a socket in place are methods over classes and
  arrays with loop invariants, proved against a specification on values. The properties over whole runs are
  lemmas about that specification.
* **Systems.** Where a property spans several parts (recorder, memory, latch and firmware; server, channels and
  peer; two clocks; a frame and its parser) a small system datatype joins their steps, and an invariant is
  carried over every run.
* **Widths.** Every counter and address that wraps does so explicitly. A float is four symbolic bytes of a
  waveform cell, whose conversion keeps its operands.

| files | subject |
|---|---|
| `Words`, `Wrappers` | machine words and byte order, optional values |
| `AdcWriter`, `AdcWriterProofs` | the 10 kHz recorder, its AXI burst and its DDR ring |
| `AdcTriggers` | which triggers start a frame, and that a started frame is stored |
| `SnapshotCopy`, `SnapshotTriggers`, `SnapshotTask` | window copy, trigger latches, capture machine, firmware pass |
| `SnapshotEndToEnd` | recorder, latch and firmware together |
| `TftpServer`, `TftpChannel` | the TFTP server, files as blocks of 512 bytes (RFC 1350, sections 2, 5 and 6) |
| `TftpUpload`, `TftpDownload` | what both transfers keep over a lossy network |
| `TftpUploadProgress`, `TftpDownloadProgress` | that both can always be finished |
| `FofbPacket`, `FofbReceiver`, `FofbRoundTrip`, `ClockCrossing` | fast orbit feedback from the printed packet to the DAC clock domain |
| `FaultBlock`, `Interlock` | debouncing, latches, clear handshake and interlock of one channel |
| `PulseGenerator`, `DacGain`, `DacSpi`, `EventTimestamp`, `Averager` | exact arithmetic and serialisation |
| `PscFraming` | message framing over a byte stream |

## What the code does that its comments do not say

The model follows the code in each of these places, and a lemma states the behaviour.

* The recorder writes slots 0 to 200,000 (the wrap test is made on the address before the increment), the copy
  wraps at 200,000 slots. The sample in the last slot is never shown: `SnapshotEndToEnd.WindowConsecutive`.
* The recorder lowers `wvalid` one clock after offering the last word, whether or not it was taken. If `wready` is
  low in that clock the word is lost and the recorder waits for a response that an AXI slave never gives:
  `AdcWriterProofs.LastBeat`, `AdcWriterProofs.LostForever`.
* A reset in that same clock leaves `wlast` high on every word of the next burst: `AdcWriterProofs.ResetLeavesWlast`.
* A trigger any number of whole rounds of 200,001 samples behind the one a slot served last latches the same address,
  and is not seen: `SnapshotEndToEnd.TriggersSeen`, `SnapshotEndToEnd.TriggerMissed`.
* A reset zeroes the trigger latches but not the address a slot served last, so the firmware sees a trigger at address 0
  and reads outside the ring: `SnapshotTriggers.ResetLatchTriggers`, `SnapshotTriggers.ResetLatchSends`.
* The open callback of the TFTP server does not truncate. A file shorter than the one it replaces keeps the old tail:
  `TftpUpload.UploadComplete`, `TftpUpload.ShortOverLong`.
* An upload whose grant is lost cannot be asked for again: the server refuses the repeated request until the session
  has timed out: `TftpUploadProgress.LostGrantRefused`.
* A read that fails while a message is skipped does not end the skip: what was left is asked for again, in one read into
  a buffer of 128 bytes, and the skip can still succeed: `PscFraming.LastReadFits`, `PscFraming.StalledSkip`.
* Source less offset wraps in the DAC path; the saturation behind it does not see that: `DacGain.ConversionExact`.
* The DAC's second start-up word, 0x400000, is never sent, because the start-up counter passes its value in the middle
  of a transaction: `DacSpi.ClearResetWordNeverLoaded`.
* The DAC saturation test is exact for gains above 0 up to 2.0 in 20-bit mode, and above -1.0 up to 1.0 in 18-bit mode,
  and for no other gain: `DacGain.TwentyExact`, `DacGain.EighteenExact`.
* A fault limit that is lowered below a running count is passed by: the counter first runs on to its width and wraps:
  `Interlock.LoweredLimit`.
* `abs` of the most negative converter code is negative, so that code compares as the smallest magnitude:
  `Interlock.ComparisonExact`.
* The fast feedback parser needs two idle clocks between frames: `FofbRoundTrip.ShortGapHidesFrame`. It takes the
  Ethernet check bytes for one more pair: `FofbRoundTrip.CheckBytesActAsPair`.
* With four destination clock edges between setpoints one can be lost and the next delivered twice; five suffice:
  `ClockCrossing.FourEdgesLoseASetpoint`, `ClockCrossing.Crossing`.
* A ONE in the first two clocks behind a latch event is read as a zero: `EventTimestamp.Second`.
* The averager keeps a block of samples and drops one sample in every `A + 1`; it is not the sliding sum that its
  comments describe: `Averager.Output`.

## Model

| member | source | states |
|---|---|---|
| `AdcWriter.AxiWriter.WriteWord` | src/hw/hdl/adc2ddr.vhd:58-72 | A word is offered, and the state left, only in a cycle that shows `wready`; otherwise the bus signals stay. |
| `AdcWriter.AxiWriter.AwaitResponse` | src/hw/hdl/adc2ddr.vhd:174-187 | The registers behind AWAITRESP: valid and last drop at once, the ring address moves only with the response. |
| `AdcWriter.AxiWriter.Tick` | src/hw/hdl/adc2ddr.vhd:78-192 | One clock edge of the recorder: all registers take the values that `Next` computes from those before the edge. |
| `AdcWriterProofs.BurstStep` | src/hw/hdl/adc2ddr.vhd:91-187 | For every stall pattern of the slave, with resets at any clock: the words accepted so far are the first of the words offered, each once and in order; `wlast` accompanies the 40th and, unless it was high when the burst began, no other; `awvalid` is high in ADDRESS only. |
| `AdcWriterProofs.SlotStep` | src/hw/hdl/adc2ddr.vhd:180-184 | The address increment and wrap step through 200,001 slots: the address after slot k is that of slot k + 1, modulo 200,001. |
| `AdcWriterProofs.Step` | src/hw/hdl/adc2ddr.vhd:78-192 | One clock, with a reset or without, keeps the whole recorder invariant (burst, ring contents, frame in progress), loses no stored frame and starts at most one. |
| `AdcWriterProofs.RecorderRun` | src/hw/hdl/adc2ddr.vhd:78-192 | After every run, with resets at any clock, against a slave that answers once it has taken the 40 words it was told of, the newest 200,001 frames, less the one being overwritten or cut short, lie whole in the ring at their slots, each holding header, its number counted from 1 behind the reset before it, and the converter values of its columns. |
| `AdcWriterProofs.InitialInv` | src/hw/hdl/adc2ddr.vhd:40-44 | Power-up over any memory contents satisfies the recorder invariant. |
| `AdcWriterProofs.LastBeat` | src/hw/hdl/adc2ddr.vhd:165-187 | All 40 words transfer exactly when `wready` is high in the first AWAITRESP cycle; otherwise the 40th is lost and, until a reset, no frame is ever completed again (section A3.2.1 of ARM IHI 0022). |
| `AdcWriterProofs.LostForever` | src/hw/hdl/adc2ddr.vhd:174-187 | A recorder whose last word was dropped stays in AWAITRESP over every further run without a reset, with the ring address unmoved. |
| `AdcWriterProofs.AddressDiscipline` | src/hw/hdl/adc2ddr.vhd:98-118 | One address handshake a burst, at the slot of the frame being stored; the ring address changes exactly at a response. |
| `AdcWriterProofs.ResetStep` | src/hw/hdl/adc2ddr.vhd:81-88 | A reset anywhere else keeps the ring and its address, restarts the numbering, and the slot of a burst it cut short is the next to be written. |
| `AdcWriterProofs.WlastKept` | src/hw/hdl/adc2ddr.vhd:81-172 | Up to AWAITRESP nothing moves `wlast`, whatever the inputs. |
| `AdcWriterProofs.CleanStep` | src/hw/hdl/adc2ddr.vhd:81-187 | In one clock, no `wlast` is left over for the next burst exactly unless the clock is a reset in the first AWAITRESP cycle. |
| `AdcWriterProofs.CleanRun` | src/hw/hdl/adc2ddr.vhd:81-187 | Over every run without such a reset `wlast` accompanies the 40th word of each burst and no other. |
| `AdcWriterProofs.ResetLeavesWlast` | src/hw/hdl/adc2ddr.vhd:81-88 | The burst after a reset, up to its own AWAITRESP, is sent with `wlast` high on every word exactly when the reset fell in the first AWAITRESP cycle, given that none was left over before it. |
| `AdcWriterProofs.ColumnPosition` | src/hw/hdl/adc2ddr.vhd:120-157 | Signal c of channel n is word 2 + 8(n-1) + c of a frame, and reads back as the sampled signed value. |
| `AdcWriterProofs.FrameLayout` | src/hw/hdl/adc2ddr.vhd:117-163 | The other words of a frame: the header 0x80000000, the sample count, and the numbers 35 to 40 at the end. |
| `AdcTriggers.RiseStarts` | src/hw/hdl/adc2ddr.vhd:92-112 | From any idle state, a clock with the trigger low and then one with it high give ADDRESS, with `awvalid` high and the ring address on `awaddr`, the pointer register at that address and the sample count stepped on. |
| `AdcTriggers.RiseStartsFrame` | src/hw/hdl/adc2ddr.vhd:92-112 | In the ring that is the slot behind the stored frames. |
| `AdcTriggers.StartsAreRises` | src/hw/hdl/adc2ddr.vhd:91-112 | After every run from power-up, resets included, the frames started (rises of `awvalid`) number exactly the rises of the trigger seen in IDLE, counted from the inputs. |
| `AdcTriggers.HeldStartsOne` | src/hw/hdl/adc2ddr.vhd:92-93 | A trigger held high starts one frame at most. |
| `AdcTriggers.StartedIsStored` | src/hw/hdl/adc2ddr.vhd:114-187 | A started frame is stored with its 42nd handshake and not before, however long the slave takes for each, and holds the converter values of the clocks that took its words. |
| `AdcTriggers.EveryStart` | src/hw/hdl/adc2ddr.vhd:78-187 | Over every run each start is a stored frame, the frame in progress, or one that a reset has cut short. |
| `SnapshotCopy.CopyRow` | src/sw/src/snapshots.c:138-157 | The ten cells of a row are header, counter and the eight words of the channel, in order, and nothing else of the message changes. |
| `SnapshotCopy.CopyDataChan` | src/sw/src/snapshots.c:88-252 | A contiguous part becomes exactly one row of ten cells a frame, in order; an unknown channel copies nothing; cells outside the part stay. |
| `SnapshotCopy.WindowSlotCases` | src/sw/src/snapshots.c:281-316 | Where a row of a window lies relative to the wrap: the modular index and the three address cases agree. |
| `SnapshotCopy.CopyPreWrap` | src/sw/src/snapshots.c:281-296 | The copy of a window that starts before the ring does equals one pass over its frames with the index taken modulo 200,000. |
| `SnapshotCopy.CopyPostWrap` | src/sw/src/snapshots.c:297-310 | The same for a window that runs past the end of the ring. |
| `SnapshotCopy.ReadDMABuf` | src/sw/src/snapshots.c:256-319 | For every frame-aligned address of the ring and every window of up to 200,000 frames, with addresses computed in 32 bits, the copy equals one pass over pre + post frames modulo 200,000, and writes exactly 10(pre + post) cells. |
| `SnapshotCopy.HtonConv` | src/sw/src/snapshots.c:21-35 | The four bytes of every float stand in reverse order, and none leaves its float. |
| `SnapshotCopy.ReversedBytes` | src/sw/src/snapshots.c:21-35 | In the buffer, byte 4k + j is the former byte 4k + 3 - j. |
| `SnapshotCopy.ReversedWindow` | src/sw/src/snapshots.c:330-332 | A window in processor order becomes the window in network order, every cell with its most significant byte first. |
| `SnapshotCopy.FirstPartInRing` | src/sw/src/snapshots.c:279-316 | For an address of the ring the first part that the copy reads stays in the ring. |
| `SnapshotCopy.ZeroAddressOutside` | src/sw/src/snapshots.c:279-316 | For address 0 and any window of up to 200,000 frames, it lies outside. |
| `SnapshotTriggers.TriggerLatch.Tick` | src/hw/hdl/ps_io.vhd:555-670 | Each of the 17 lines latches address and time exactly on its own rising edge; a reset zeroes the address alone. |
| `SnapshotTriggers.LatchHolds` | src/hw/hdl/ps_io.vhd:555-667 | Over every run, from any state: a line shows the time of its last rise, counted from the inputs, the second and each later one too, and the ring address of that clock unless a reset has come behind it. |
| `SnapshotTriggers.PassKeeps` | src/sw/src/snapshots.c:341-361 | No `sendbuf` survives a pass, a capture in progress keeps its address and has waited between 1 and floor(posttrigpts/1000) passes, and the served address changes exactly at a detection. |
| `SnapshotTriggers.WaitingPasses` | src/sw/src/snapshots.c:341-361 | During a capture, whatever the register shows, only the delay counter moves; nothing is sent or detected. |
| `SnapshotTriggers.Capture` | src/sw/src/snapshots.c:324-361 | From a detection on, for any later register contents, the captured address is fixed up to the send, which is the pass exactly floor(posttrigpts/1000) passes later and the only one. |
| `SnapshotTriggers.QuietPass` | src/sw/src/snapshots.c:341-361 | An idle slot starts a capture in the very next pass if the register differs from the address served last, and otherwise does nothing. |
| `SnapshotTriggers.OneSendEach` | src/sw/src/snapshots.c:324-361 | Over every run of passes, detections and sends balance: none is lost and none doubled. |
| `SnapshotTriggers.TriggerInfo.Check` | src/sw/src/snapshots.c:371-373 | One poll of one slot: the register is read only outside a capture, then the slot steps as `Poll`. |
| `SnapshotTriggers.TriggerInfo.ProcessTrigger` | src/sw/src/snapshots.c:341-361 | The record after `ProcessTrigger`, field by field. |
| `SnapshotTriggers.TriggerInfo.SendWfmData` | src/sw/src/snapshots.c:324-336 | Ends the capture; cell 10r + c of the message is the cell of row r and column c of the window around the captured address in network order, and the floats behind the window have been byte-reversed where they were. |
| `SnapshotTriggers.ResetLatchTriggers` | src/hw/hdl/ps_io.vhd:558-575 | A reset of the latch is seen as a trigger at address 0, which is no ring address, exactly by the slots that have served an address before. |
| `SnapshotTriggers.ResetLatchSends` | src/sw/src/snapshots.c:341-361 | Such a slot sends floor(posttrigpts/1000) passes later, from address 0, and the first part of its copy lies outside the ring. |
| `SnapshotTask.SnapshotPush.constructor` | src/sw/src/snapshots.c:462-494 | Twenty separate records with the windows, channels and message ids of `InitTriggerInfo`, none capturing. |
| `SnapshotTask.SetupOf` | src/sw/src/snapshots.c:367-494 | Latch, window, message id and channel of each slot, as a written-out table of the twenty. |
| `SnapshotTask.SlotsDiffer` | src/sw/src/snapshots.c:367-494 | Each channel line is polled by one slot, the evr line by one a channel; no two slots share a message id. |
| `SnapshotTask.SnapshotPush.CheckForTriggers` | src/sw/src/snapshots.c:367-455 | Whatever the latches show, every slot polls its own latch and no other; the four evr slots share one. |
| `SnapshotTask.SnapshotPush.SendWaveforms` | src/sw/src/snapshots.c:526-538 | Exactly the slots with a complete capture are filled and sent, in the order of the scan; the others stay. |
| `SnapshotTask.SnapshotPush.PassOnce` | src/sw/src/snapshots.c:521-538 | A pass of `snapshot_push`, if the slots that send have captured ring addresses, is a `Pass` of each slot on its own latch; a message is filled for each slot that sends, the message ids go out in scan order, and the invariant of all slots holds again. |
| `SnapshotEndToEnd.ConfiguredWindowsServed` | src/sw/src/snapshots.c:462-494 | The timing bounds admit both configured windows, 50,000 + 50,000 and 0 + 8,000 frames; the slack of 519 samples for the copy is the largest the first of them leaves. |
| `SnapshotEndToEnd.EdgeStep` | src/hw/hdl/ps_io.vhd:583-667 | A clock edge, with resets of recorder or latch in it or not, keeps the system invariant: the latch names a frame that was started, the address served last is that of the captured trigger, and a capture knows how far the recorder has moved on. |
| `SnapshotEndToEnd.PassStep` | src/sw/src/snapshots.c:341-361 | A pass at the assumed rate (1,001 to 1,480 samples after the one before) keeps the system invariant. |
| `SnapshotEndToEnd.RunKeepsInv` | src/sw/src/snapshots.c:256-361 | The system invariant holds after every run of clock edges, resets and passes. |
| `SnapshotEndToEnd.TriggerSeen` | src/sw/src/snapshots.c:341-361 | An idle slot starts a capture for a latched trigger exactly when it has served nothing yet, or when the sample of the trigger and that of the one served last differ modulo 200,001. |
| `SnapshotEndToEnd.TriggersSeen` | src/sw/src/snapshots.c:256-361 | The same after every run of clock edges, resets and passes. |
| `SnapshotEndToEnd.TriggerMissed` | src/sw/src/snapshots.c:341-361 | A trigger any number of whole rounds of 200,001 samples behind the one served last is missed: its pass neither detects nor sends, and changes nothing but the address polled. |
| `SnapshotEndToEnd.TriggerServed` | src/sw/src/snapshots.c:256-361 | Every trigger that is seen is served: from a rise of the line on, the next pass of a quiet slot starts a capture, floor(posttrigpts/1000) - 1 passes send nothing, and the one after sends the window around the sample that was newest at the rise, whatever else happens. |
| `SnapshotEndToEnd.ShownSlot` | src/sw/src/snapshots.c:276-316 | A row of a window reads the slot where the recorder, with its 200,001 slots, has put the sample that `Shown` names. |
| `SnapshotEndToEnd.WindowConsecutive` | src/sw/src/snapshots.c:276-316 | The rows of a window are consecutive samples through the trigger, except that the sample in slot 200,000, if met, is skipped; a row never shows that slot. |
| `SnapshotEndToEnd.WindowPlain` | src/sw/src/snapshots.c:276-316 | The rows are the samples t - pre to t + post - 1 if and only if none of these lies in slot 200,000. |
| `SnapshotEndToEnd.SendTiming` | src/sw/src/snapshots.c:341-361 | At a send of a captured trigger the last sample of the window is complete, and 519 further samples overwrite nothing of it. |
| `SnapshotEndToEnd.RowsStored` | src/hw/hdl/adc2ddr.vhd:174-187 | Every row of such a window is in the ring, whole, with its own number and samples. |
| `SnapshotEndToEnd.EndToEnd` | src/sw/src/snapshots.c:256-361 | Over every run, resets of recorder and latch included: for each waveform sent for a captured trigger at sample t with more than pre samples before it, row r reads the whole frame of sample `Shown(t, pre, r)` at every moment of the copy, with its number counted from the last reset if it was stored behind that. |
| `SnapshotEndToEnd.Waveform` | src/sw/src/snapshots.c:324-336 | The same from converter to waveform: each cell of the message, read from memory at any moment of the copy, goes out in network order as the header, the sample number or the converter value that the recorder sampled for that row, channel and column. No two cells need be read at the same moment. |
| `TftpServer.Server.SendData` | src/sw/src/tftp_server.c:173-201 | The next block is read into `last_data` and sent under the present number; a read error closes the session and is reported. |
| `TftpServer.Server.HandleRequest` | src/sw/src/tftp_server.c:225-280 | Requests: refused while a session is open or if malformed or if the file cannot be opened; else the peer is bound, numbering starts at 1, the position at 0 with the file as the card holds it, and block 0 is acknowledged or block 1 sent. |
| `TftpServer.Server.HandleData` | src/sw/src/tftp_server.c:282-320 | A block is laid over the file at the position only under the expected number; the one before is acknowledged again; a short one, or a failed write, closes the session. |
| `TftpServer.Server.HandleAck` | src/sw/src/tftp_server.c:322-356 | The acknowledgement of the pending block brings the next block, or the close after a short one; any other is refused. |
| `TftpServer.Server.Recv` | src/sw/src/tftp_server.c:203-364 | The receive callback over every packet, sender and card answer: new state and packets sent. |
| `TftpServer.Server.Tick` | src/sw/src/tftp_server.c:366-389 | The timer callback: resend, close or nothing. |
| `TftpServer.SessionKept` | src/sw/src/tftp_server.c:203-389 | Every callback keeps: a pending block exists exactly in an open read session, a closed server has no peer bound, at most five resends are counted. |
| `TftpServer.StrangersChangeNothing` | src/sw/src/tftp_server.c:212-217 | While a session is open a packet from another address or port is answered with an error to its sender and changes nothing at all. |
| `TftpServer.SilentReader` | src/sw/src/tftp_server.c:366-389 | A download whose peer falls silent stays open through 15 timer calls and is closed by the 16th, with exactly five copies of the pending block sent. |
| `TftpServer.SilentWriter` | src/sw/src/tftp_server.c:366-389 | An upload whose peer falls silent is closed by the 11th timer call, with nothing sent. |
| `TftpServer.PacketRestarts` | src/sw/src/tftp_server.c:217-222 | Whatever the timer showed: from a packet of its peer on, or the request that opened it, a session that is then open is closed by the 11th timer call of silence (upload, nothing sent) or by the 16th (download, five resends), and by no earlier one. |
| `TftpServer.StrangersDoNotRestart` | src/sw/src/tftp_server.c:210-215 | A packet of anyone else leaves the time-out running. |
| `TftpServer.AnswersGoBack` | src/sw/src/tftp_server.c:105-170 | Every answer goes to the sender of the packet, peer or not, and every resend to the peer; there is one at most. |
| `TftpServer.PeerKept` | src/sw/src/tftp_server.c:262-263 | The peer of a session is the sender of the request that opened it, as long as it lasts. |
| `TftpServer.Refusals` | src/sw/src/tftp_server.c:225-389 | What is refused, with which code of RFC 1350 (1 not found, 2 access violation, 4 illegal operation, 5 number out of turn), to whom, and that session, peer and file stay as they are. |
| `TftpChannel.BlockExtends` | src/sw/src/tftp_server.c:183-200 | Block k extends the first k - 1 blocks to the first k; only the last block is short; together they are the file (section 2 of RFC 1350). |
| `TftpChannel.OverwriteExtends` | src/sw/src/tftp_handler.c:55-72 | Writing behind a head that lies over an old file lays more of the upload over it and leaves the rest of the old file. |
| `TftpChannel.OverlaidIsHead` | src/sw/src/tftp_handler.c:16-30 | Nothing of the old file is left exactly when it was no longer than what was written. |
| `TftpChannel.NumbersDiffer` | src/sw/src/tftp_server.c:296-313 | Two blocks less than 65,536 apart have different numbers. |
| `TftpUpload.InitialInv` | src/sw/src/tftp_server.c:395-422 | A server behind `tftp_init` and a sender with its request on the way satisfy the invariant. |
| `TftpUpload.SenderAdvances` | src/sw/src/tftp_server.c:138-154 | When the sender takes the acknowledgement of its current block, the server has written exactly that many blocks, and the invariant moves on by one. |
| `TftpUpload.WriteFile` | src/sw/src/tftp_handler.c:55-72 | Writing any first part of the next block lays exactly these bytes over the file. |
| `TftpUpload.WriteStep` | src/sw/src/tftp_server.c:297-312 | The block the server waits for is written once, acknowledged and counted; a failed write ends the session. |
| `TftpUpload.AckAgainStep` | src/sw/src/tftp_server.c:313-315 | A copy of the block before is acknowledged again and not written again. |
| `TftpUpload.RefuseStep` | src/sw/src/tftp_server.c:233-262 | Every other packet is refused and leaves file and session as they were. |
| `TftpUpload.Step` | src/sw/src/tftp_server.c:203-389 | Each event (loss, duplication, retransmission, delivery, timer) keeps the invariant. |
| `TftpUpload.Upload` | src/sw/src/tftp_server.c:282-320 | At every moment of every run over lossy, duplicating FIFO channels the file on the card is the first s blocks of the sender, each written once and in order, laid over what the card held before, s the sender's current block or one less, for files of any length. After a failed write part of one further block may have been laid over it. |
| `TftpUpload.UploadComplete` | src/sw/src/tftp_handler.c:16-30 | When the sender is done, its data lies at the head of the file, and the file is the data if and only if the old file was not longer. |
| `TftpUpload.ShortOverLong` | src/sw/src/tftp_handler.c:16-30 | A run that uploads one byte over a file of three ends with the sender done and two old bytes still there. |
| `TftpUploadProgress.CanFinish` | src/sw/src/tftp_server.c:203-389 | An upload can always finish: from every reachable state with an open session, no failed write and a sender that has not given up, whatever packets are on their way or lost, some run of allowed events ends with the sender done and every block laid over the old file. |
| `TftpUploadProgress.LostGrantRefused` | src/sw/src/tftp_server.c:233-236 | If the acknowledgement that grants an upload is lost, the request that the sender repeats is refused while the session is open, and the sender gives up. |
| `TftpDownload.InitialInv` | src/sw/src/tftp_server.c:395-422 | A server behind `tftp_init` and a receiver with its request on the way satisfy the invariant. |
| `TftpDownload.SendsBlock` | src/sw/src/tftp_server.c:173-200 | Reading at the position behind block k - 1 yields and sends bytes 512(k-1) up to min(512k, length) under number k. |
| `TftpDownload.AdvanceStep` | src/sw/src/tftp_server.c:342-351 | The acknowledgement of full block k brings block k + 1. |
| `TftpDownload.FinishStep` | src/sw/src/tftp_server.c:352-354 | The acknowledgement of the last block closes the session without a reply, and the receiver then holds the file. |
| `TftpDownload.TimerStep` | src/sw/src/tftp_server.c:379-388 | The timer resends block k, whatever the receiver already has, and keeps the invariant. |
| `TftpDownload.Step` | src/sw/src/tftp_server.c:203-389 | Each event keeps the download invariant. |
| `TftpDownload.Download` | src/sw/src/tftp_server.c:173-201 | At every moment of every run `last_data` and `blknum` describe the same block k, the receiver holds the first r blocks with r = k or k - 1, always a prefix of the file, and all of it when complete. |
| `TftpDownload.NormalClose` | src/sw/src/tftp_server.c:322-356 | Without read errors a packet closes the session exactly when it acknowledges block floor(length/512) + 1, and the receiver then holds the file. |
| `TftpDownloadProgress.CanFinish` | src/sw/src/tftp_server.c:203-389 | A download can always finish: from every reachable state with an open session and a receiver that has not given up, whatever packets are on their way or lost, some run of allowed events ends with the receiver holding the whole file. |
| `FofbPacket.Print` | testing/fofb/caen_fast_genpacket.c:23-59 | The printed buffer is protocol, command, nonce and the pairs, big-endian and in order, of length 12 + 6n; more than ten pairs print nothing. |
| `FofbPacket.NonceLow` | testing/fofb/caen_fast_genpacket.c:36-39 | The last four of the eight nonce bytes spell the low 32 bits of the nonce. |
| `FofbPacket.NonceSpelled` | testing/fofb/caen_fast_genpacket.c:36-39 | All eight nonce bytes spell the nonce, the most significant first. |
| `FofbReceiver.UdpRx.UpdateChannels` | src/hw/hdl/fofb_udp_rx.vhd:193-204 | A setpoint reaches every channel with its address and no other. |
| `FofbReceiver.UdpRx.Tick` | src/hw/hdl/fofb_udp_rx.vhd:54-219 | One clock edge of the parser. |
| `FofbRoundTrip.PreambleStarts` | src/hw/hdl/fofb_udp_rx.vhd:74-87 | Any preamble up to the delimiter brings a ready parser to the header, without a pulse. |
| `FofbRoundTrip.HeaderDecides` | src/hw/hdl/fofb_udp_rx.vhd:89-162 | 54 header bytes: stored in order, and the frame is accepted exactly if destination address and protocol id match; a rejected one publishes nothing. |
| `FofbRoundTrip.OnePair` | src/hw/hdl/fofb_udp_rx.vhd:164-211 | The six bytes of a pair bring its setpoint to the channels with its address. |
| `FofbRoundTrip.AllPairs` | src/hw/hdl/fofb_udp_rx.vhd:164-211 | A list of pairs leaves each channel with the setpoint of the last pair with its address, or unchanged if there is none. |
| `FofbRoundTrip.LastMatch` | src/hw/hdl/fofb_udp_rx.vhd:193-204 | The pair named is one with the address, and no later pair has it. |
| `FofbRoundTrip.GapEnds` | src/hw/hdl/fofb_udp_rx.vhd:164-168 | Two idle clocks end an accepted frame with exactly one `rx_done` clock and a ready parser. |
| `FofbRoundTrip.ShortGapHidesFrame` | src/hw/hdl/fofb_udp_rx.vhd:74-82 | After a gap of one clock the next frame, whatever it is, changes nothing. |
| `FofbRoundTrip.HeadFields` | src/hw/hdl/fofb_udp_rx.vhd:137-155 | The parser reads out of the printed head the protocol, the command and the low half of the nonce that were put in, and the destination address of the IP header (section 3.1 of RFC 791). |
| `FofbRoundTrip.FrameWithPairs` | src/hw/hdl/fofb_udp_rx.vhd:73-211 | A whole frame up to its last pair: header published and channels updated if it is for this unit, untouched if not, and no `rx_done` yet. |
| `FofbRoundTrip.RoundTrip` | src/hw/hdl/fofb_udp_rx.vhd:73-216 | For every packet, preamble and 42-byte header: an accepted frame counts once, publishes command and nonce and leaves every channel as its last pair says, with one `rx_done` clock; any other frame changes nothing. |
| `FofbRoundTrip.CheckBytesActAsPair` | src/hw/hdl/fofb_udp_rx.vhd:164-211 | Four more bytes on the wire act as one further pair, completed by two idle bytes (clause 3.2.9 of IEEE 802.3). |
| `FofbRoundTrip.RoundTripWithCheckBytes` | src/hw/hdl/fofb_udp_rx.vhd:73-216 | The round trip with check bytes: statistics and channels are those of the list of pairs with that one appended, and `rx_done` still fires once. |
| `FofbRoundTrip.CheckBytesHarmless` | src/hw/hdl/fofb_udp_rx.vhd:193-204 | Check bytes leave the channels unchanged, whatever follows them, if and only if their first two are no configured address. |
| `ClockCrossing.Flt2Fix.TickFofb` | src/hw/hdl/fofb_flt2fix.vhd:73-81 | One edge of the feedback clock. |
| `ClockCrossing.Flt2Fix.TickPl` | src/hw/hdl/fofb_flt2fix.vhd:85-102 | One edge of the destination clock, the first flop catching either value of a moving toggle. |
| `ClockCrossing.StartInv` | src/hw/hdl/fofb_flt2fix.vhd:73-102 | The power-up state satisfies the pipeline invariant. |
| `ClockCrossing.StepKeeps` | src/hw/hdl/fofb_flt2fix.vhd:73-102 | An edge of either clock keeps the pipeline invariant, if strobes are five destination edges apart. |
| `ClockCrossing.Crossing` | src/hw/hdl/fofb_flt2fix.vhd:73-102 | In every interleaving, each setpoint is handed out exactly once, in order, with one `data_rdy` each, after four or five edges. |
| `ClockCrossing.FourEdgesLoseASetpoint` | src/hw/hdl/fofb_flt2fix.vhd:85-102 | With only four edges there is an interleaving that loses the first of two setpoints and hands out the second twice. |
| `FaultBlock.FaultLogic.Debounce` | src/hw/hdl/fault_block.vhd:222-231 | One debounce counter at a 10 kHz pulse: saturates at its limit and then raises its live bit; cleared by a good pulse or a clear. |
| `FaultBlock.FaultLogic.CheckFaults` | src/hw/hdl/fault_block.vhd:216-374 | All eleven checks of one pulse, each counter on its own condition. |
| `FaultBlock.FaultLogic.MainProcess` | src/hw/hdl/fault_block.vhd:200-407 | Counters, live bits and latches after an edge; the latches see the live bits before it. |
| `FaultBlock.FaultLogic.ClearProcess` | src/hw/hdl/fault_block.vhd:138-150 | The clear handshake registers after an edge. |
| `FaultBlock.FaultLogic.Tick` | src/hw/hdl/fault_block.vhd:95-407 | One clock edge of all processes of the entity. |
| `Interlock.ComparisonExact` | src/hw/hdl/fault_block.vhd:222-299 | The threshold test compares magnitudes if and only if both words, or neither, are the most negative code. |
| `Interlock.TrailingIsSuffix` | src/hw/hdl/fault_block.vhd:222-231 | The run length used below is the number of trues that the observations end with. |
| `Interlock.CountStep` | src/hw/hdl/fault_block.vhd:216-374 | One clock takes counter and live bit from standing for a run of n to standing for the run after it. |
| `Interlock.DebounceIsRunLength` | src/hw/hdl/fault_block.vhd:216-374 | After every run with a constant limit, the counter is min(run length, limit), and the live bit is set exactly when the run is longer than the limit. |
| `Interlock.ResetStands` | src/hw/hdl/fault_block.vhd:203-211 | A reset puts the analog counters at run length 0 and keeps the counts of the digital ones. |
| `Interlock.DebounceAfterGoodPulse` | src/hw/hdl/fault_block.vhd:313-371 | A digital counter, whatever it powers up with, counts run length from the first good pulse on. |
| `Interlock.HeartbeatBitStaysOff` | src/hw/hdl/fault_block.vhd:376-386 | Bit 11, whose detector is commented out, is never raised or latched. |
| `Interlock.WindowOpensOnEdge` | src/hw/hdl/fault_block.vhd:141-145 | A clear window opens exactly at a rising edge of the clear bit. |
| `Interlock.WindowClears` | src/hw/hdl/fault_block.vhd:138-150 | Every window that closes has seen a 10 kHz pulse and leaves all counters, debounced live bits and latches zero. |
| `Interlock.ClearBuysTime` | src/hw/hdl/fault_block.vhd:392-401 | Behind a clear no debounced bit is live or latched before limit + 1 further bad pulses. |
| `Interlock.LatchesOnlyGrow` | src/hw/hdl/fault_block.vhd:392-401 | Over every run without a clear window no latch is lost. |
| `Interlock.LatchExact` | src/hw/hdl/fault_block.vhd:392-401 | A latch takes a live bit in every clock out of reset and window, and nothing else sets it. |
| `Interlock.MaskExact` | src/hw/hdl/fault_block.vhd:98 | A bit is in the mask register behind a clock exactly when it is latched, enabled, at most 12 and not 4. |
| `Interlock.LatchedTrips` | src/hw/hdl/fault_block.vhd:95-101 | A latched, enabled bit 0 to 12 other than 4 stays in the mask register over every run without a clear window. |
| `Interlock.InterlockHolds` | src/hw/hdl/digio_logic.vhd:44 | From the third clock after the deciding pulse and until a clear window, an enabled live bit 0 to 12 other than 4 keeps ON1 low, whatever the inputs. |
| `Interlock.DecidingPulse` | src/hw/hdl/fault_block.vhd:222-227 | The bad pulse that finds the run at its limit is the one that raises the live bit. |
| `Interlock.GlitchNeverTrips` | src/hw/hdl/fault_block.vhd:98-99 | The glitch bit never enters the trip mask and never influences it; the error trigger sees it, live and enabled, and nothing else. |
| `Interlock.Watches` | src/hw/hdl/fault_block.vhd:216-374 | What each counter watches: signal against threshold by magnitude, exactly unless just one of them is the most negative code; the error checks out of park with the setpoint standing; the digital lines. |
| `Interlock.PulseDelay` | src/hw/hdl/fault_block.vhd:121-134 | The counting pulse is the 10 kHz trigger three clocks late. |
| `Interlock.WindowExact` | src/hw/hdl/fault_block.vhd:138-150 | A clear window opens two clocks behind a rise of the clear bit and at no other clock, and lasts until a pulse. |
| `Interlock.SetpointMoves` | src/hw/hdl/fault_block.vhd:104-196 | Between triggers the change flag tells exactly whether the setpoints of the last two differ. |
| `Interlock.FaultTrips` | src/hw/hdl/fault_block.vhd:95-407 | A fault that has lasted longer than its limit switches ON1 off two clocks later and keeps it off until a clear window, whatever the inputs do. |
| `Interlock.NoFaultNoTrip` | src/hw/hdl/fault_block.vhd:95-101 | With no latched, enabled trip bit ON1 follows its command. |
| `Interlock.LoweredLimit` | src/hw/hdl/fault_block.vhd:222-227 | A counter above its limit runs on to its width (16 bits, 32 for AC-on) and then up from 0: the fault comes that many pulses late. |
| `PulseGenerator.Nco.Tick` | src/hw/hdl/nco_srocgen.vhd:23-45 | One clock edge of the generator. |
| `PulseGenerator.NoEarlyPulse` | src/hw/hdl/nco_srocgen.vhd:39-42 | There is no pulse behind a reset nor in the two clocks after. |
| `PulseGenerator.PulseIsRise` | src/hw/hdl/nco_srocgen.vhd:39-42 | For every n > 0, the pulse of clock n + 2 is the rise of the top bit of n steps of phase. |
| `PulseGenerator.TurnStep` | src/hw/hdl/nco_srocgen.vhd:36-42 | For a step of up to half a turn, the rounded number of turns grows exactly where the top bit rises. |
| `PulseGenerator.NoDrift` | src/hw/hdl/nco_srocgen.vhd:22-45 | With step up to 2^31, the pulses in the first n + 2 clocks after reset number exactly floor((n step + 2^31) / 2^32), for every n. |
| `PulseGenerator.ExactUpToHalfATurn` | src/hw/hdl/nco_srocgen.vhd:22-45 | That count is exact for every n if and only if step is at most 2^31. |
| `PulseGenerator.Gap` | src/hw/hdl/nco_srocgen.vhd:22-45 | Consecutive pulses are floor(2^32 / step) or ceiling(2^32 / step) clocks apart. |
| `PulseGenerator.ResyncRestarts` | src/hw/hdl/nco_srocgen.vhd:31-42 | A resync at any clock restarts the phase; from the third clock on the generator is in the state it would be in as many clocks after a reset. |
| `PulseGenerator.PulsesAtResync` | src/hw/hdl/nco_srocgen.vhd:39-42 | In the two clocks before that, the first still shows a rise from before the resync, and the second has no pulse. |
| `DacGain.GainOffset.CheckSaturation` | src/hw/hdl/dac_gainoffset.vhd:94-112 | The saturation step on the registers. |
| `DacGain.GainOffset.Tick` | src/hw/hdl/dac_gainoffset.vhd:62-132 | One clock edge of the setpoint sequence and of the mode select. |
| `DacGain.Conversion` | src/hw/hdl/dac_chan.vhd:89-109 | A trigger in IDLE, whether or not `done` is still high from the conversion before, raises `done` twelve clocks later and in none of the clocks between, with the setpoint computed from the source selected at the trigger, the offset one clock later and the gain two clocks later. |
| `DacGain.ClampTwenty` | src/hw/hdl/dac_gainoffset.vhd:77-102 | In 20-bit mode with gain above 0 up to 2.0 the setpoint is floor(oc gain / 2^20) clamped to 20 bits: the sign test finds every overflow. |
| `DacGain.TwentyMissesOverflow` | src/hw/hdl/dac_gainoffset.vhd:94-102 | For every gain above 2.0 some input overflows unnoticed. |
| `DacGain.TwentyExact` | src/hw/hdl/dac_gainoffset.vhd:77-102 | In 20-bit mode the clamp is exact for every input if and only if the gain is above 0 and at most 2.0. |
| `DacGain.ClampEighteen` | src/hw/hdl/dac_gainoffset.vhd:103-110 | In 18-bit mode the clamp to 18 bits is exact whenever the scaled product fits 20 bits. |
| `DacGain.EighteenMissesOverflow` | src/hw/hdl/dac_gainoffset.vhd:103-110 | For every gain outside (-1.0, 1.0] some input is clamped to the wrong limit. |
| `DacGain.EighteenExact` | src/hw/hdl/dac_gainoffset.vhd:77-111 | In 18-bit mode the clamp is exact for every input if and only if the gain is in (-1.0, 1.0]. |
| `DacGain.PathTwenty` | src/hw/hdl/dac_gainoffset.vhd:77-102 | With offset: in 20-bit mode and gain in (0, 2.0] the result is the clamped exact value if and only if source less offset fits 20 bits. |
| `DacGain.PathEighteen` | src/hw/hdl/dac_gainoffset.vhd:77-111 | In 18-bit mode and gain in (-1.0, 1.0] it is if and only if source less offset fits 20 bits or the gain is 0. |
| `DacGain.ConversionExact` | src/hw/hdl/dac_gainoffset.vhd:68-122 | The same for a whole conversion, from the source selected at the trigger to the setpoint at `done`. |
| `DacGain.EachSource` | src/hw/hdl/dac_chan.vhd:89-109 | Source by source, in numbers: mode 0 converts the smooth ramp of the trigger clock, 1 the ramp table, 2 the fast feedback, 3 the jump setpoint, to the clamped exact value exactly when source less offset fits 20 bits (or the gain is 0). |
| `DacGain.LeftJustification` | src/hw/hdl/dac_chan.vhd:158 | Left justification loses nothing exactly on 18-bit values, and every 18-bit result is one. |
| `DacSpi.Ad5781.Tick` | src/hw/hdl/dac_ad5781.vhd:82-236 | One clock edge of the sender. |
| `DacSpi.ReadyInv` | src/hw/hdl/dac_ad5781.vhd:101-109 | A state between transactions, behind a reset or behind the second word, satisfies the invariants. |
| `DacSpi.ResetReady` | src/hw/hdl/dac_ad5781.vhd:101-109 | A reset in any state, in the middle of a word or out of it, gives such a state. |
| `DacSpi.FallsSelected` | src/hw/hdl/dac_ad5781.vhd:142-199 | Falling clock edges happen only with the DAC selected, and at most 24 a word. |
| `DacSpi.OneStep` | src/hw/hdl/dac_ad5781.vhd:98-236 | A clock keeps the invariant (bits sampled are the first bits of the loaded word, words complete are the words loaded) and takes one clock off the rest of the transaction. |
| `DacSpi.RunsOut` | src/hw/hdl/dac_ad5781.vhd:98-236 | From any point of a transaction the sender is back in IDLE after exactly the remaining clocks, with two words sampled. |
| `DacSpi.Transaction` | src/hw/hdl/dac_ad5781.vhd:111-233 | Every start accepted in IDLE yields exactly two 24-bit words, sampled most significant bit first on the falling edges: the control word (or the reset word after a reset), then 0001 and the twenty data bits held at load time, in 545 clocks (544 the first time), whatever the inputs do. |
| `DacSpi.ManyStarts` | src/hw/hdl/dac_ad5781.vhd:98-236 | Over every run, with starts at any clock: each start accepted in IDLE has yielded its two words, in order, or is in progress, and only the first behind a reset sends the reset word. |
| `DacSpi.ClearResetWordNeverLoaded` | src/hw/hdl/dac_ad5781.vhd:119-125 | No start finds the start-up counter at 1, so the word 0x400000 is never loaded. |
| `DacSpi.ControlBits` | src/hw/hdl/dac_ad5781.vhd:132 | The control word bit by bit: register 2, the five control bits in bits 5 to 1, all others low. |
| `DacSpi.OtherBits` | src/hw/hdl/dac_ad5781.vhd:119-139 | The setpoint word bit by bit: register 1 and the data; the reset words are 0x400004 and 0x400000. |
| `DacSpi.PinsRun` | src/hw/hdl/dac_ad5781.vhd:98-236 | Select, clock and `done` over every run: the DAC is selected for the bits of a word and let go one clock behind the last; `done` is high through the pause behind the second word and in no other state of a transaction. |
| `EventTimestamp.EventReceiver.Tick` | src/hw/hdl/event_rcv_ts.vhd:51-125 | One clock edge of the six processes. |
| `EventTimestamp.ValueOfReverse` | src/hw/hdl/event_rcv_ts.vhd:64-76 | A register filled from bit 31 down has the value its bits spell, most significant first. |
| `EventTimestamp.Fills` | src/hw/hdl/event_rcv_ts.vhd:51-76 | Between latch events the register fills from the top, whatever other events come between. |
| `EventTimestamp.OffsetCounts` | src/hw/hdl/event_rcv_ts.vhd:89-99 | Between latch events the offset counts the clocks modulo 2^32. |
| `EventTimestamp.ClearsInTwo` | src/hw/hdl/event_rcv_ts.vhd:102-113 | Two clocks behind a latch event the register is zero; a bit in these clocks has taken up its place. |
| `EventTimestamp.KeptAll` | src/hw/hdl/event_rcv_ts.vhd:64-76 | The bits kept are the bits sent if and only if no ONE falls in these two clocks. |
| `EventTimestamp.NumberInjective` | src/hw/hdl/event_rcv_ts.vhd:64-76 | Different bits of the same number spell different numbers. |
| `EventTimestamp.Second` | src/hw/hdl/event_rcv_ts.vhd:52-125 | After a latch event, for any events with up to 32 bits among them, the next latch event stores the bits from the top down, with zeros for those of the first two clocks; 32 bits give the number they spell if and only if neither of the first two events is a ONE; the timestamp shows these seconds, and before them the clocks since the latch modulo 2^32. |
| `Averager.BlockAverage.Tick` | src/hw/hdl/average.vhd:48-123 | One clock edge of the averager, the sample RAM written in place. |
| `Averager.ResetInv` | src/hw/hdl/average.vhd:58-62 | A reset in mid-round leaves counter and RAM alone: it satisfies the invariant with the samples in front of the counter as history. |
| `Averager.PowerUpInv` | src/hw/hdl/average.vhd:37-41 | The first reset after power-up satisfies it with no history. |
| `Averager.NoOverflow` | src/hw/hdl/average.vhd:36-38 | Neither the 29-bit accumulator nor the 32-bit output overflows on a sum of up to 500 20-bit samples. |
| `Averager.KeepStep` | src/hw/hdl/average.vhd:64-120 | A clock in a constant mode keeps: the RAM holds the newest samples at their write positions, the accumulator the exact partial sum. |
| `Averager.RamSum` | src/hw/hdl/average.vhd:89-107 | The RAM adds up to the last A + 1 samples less the one that closed the last round. |
| `Averager.Output` | src/hw/hdl/average.vhd:89-115 | Once filled, each output is the exact sum of A distinct samples out of the last A + 1 accepted, with A = 167, 500 or 10: all but the one that closed the last complete round. |
| `Averager.RunKeeps` | src/hw/hdl/average.vhd:64-120 | The invariant holds over every run in one mode. |
| `Averager.Completes` | src/hw/hdl/average.vhd:64-120 | Every start accepted in IDLE gives an output 170, 503 or 13 clocks later, whatever the other inputs do. |
| `Averager.PassThrough` | src/hw/hdl/average.vhd:67-72 | Without averaging a sample is the output two clocks later, and the RAM is not touched. |
| `PscFraming.MoveAllTakes` | src/sw/src/pscmsg.c:28-62 | The loops of psc_sendall and psc_recvall, for every way the calls split the bytes: a success moves exactly the bytes asked for, an error fewer. |
| `PscFraming.FailureCode` | src/sw/src/pscmsg.c:28-62 | A failure has the code of its last call: the error of that call, or 128 where the stream has ended. |
| `PscFraming.ReadSteady` | src/sw/src/pscmsg.c:46-62 | A stream whose calls do not fail is read up to its end, and fails only there. |
| `PscFraming.SendAll` | src/sw/src/pscmsg.c:28-44 | However the stream splits the buffer, success means all of it is on the wire and nothing else, failure a first part of it. |
| `PscFraming.RecvAll` | src/sw/src/pscmsg.c:46-62 | However the stream splits it, the bytes read are the next ones of the stream, in order at the start of the buffer, and nothing else of it changes. |
| `PscFraming.RecvSkip` | src/sw/src/pscmsg.c:64-73 | The skip as the code does it on every stream, failed reads included: its result, where the stream stands, and how long its last read was. |
| `PscFraming.LastReadFits` | src/sw/src/pscmsg.c:69-72 | The last read of a skip stays within the 128-byte buffer if and only if no chunk read failed while more than 128 bytes were left. |
| `PscFraming.StalledSkip` | src/sw/src/pscmsg.c:69-72 | A stream on which a read brings 50 of 300 bytes and the next times out: the skip succeeds with a last read of 300 bytes, and 350 are gone. |
| `PscFraming.SkipSteady` | src/sw/src/pscmsg.c:64-73 | On a stream that does not fail the skip takes exactly its bytes, within the buffer, and fails only at the end. |
| `PscFraming.SendMsg` | src/sw/src/pscmsg.c:89-102 | The wire grows by exactly the encoded message, or after an error by a first part of it. |
| `PscFraming.RecvHead` | src/sw/src/pscmsg.c:126-144 | The id and length of a well-formed header; eight bytes are read in any case. |
| `PscFraming.HeaderRefused` | src/sw/src/pscmsg.c:139-140 | Eight bytes that do not begin with P and S are refused with code 5, and are gone. |
| `PscFraming.RecvMsg` | src/sw/src/pscmsg.c:146-173 | One receive on any stream: result, id, body cut to the buffer, and where the stream stands. |
| `PscFraming.FrontFields` | src/sw/src/pscmsg.c:126-173 | When a whole framed message is in front, and what its fields are. |
| `PscFraming.ReceivedIsFront` | src/sw/src/pscmsg.c:146-173 | On any stream a success returns id and body of the message in front; what has gone is that message and the fewer than 128 bytes a failed chunk read took, none if the last read stayed within its buffer. |
| `PscFraming.ReceiveSteady` | src/sw/src/pscmsg.c:146-173 | On a stream that does not fail a receive succeeds exactly if a whole framed message is in front, and takes just that. |
| `PscFraming.ParseEncoded` | src/sw/src/pscmsg.c:75-173 | An encoded message parses to itself, cut to the buffer, with the rest of the stream untouched. |
| `PscFraming.ParseAllEncoded` | src/sw/src/pscmsg.c:75-173 | A list of encoded messages parses to the same ids and bodies in order, bodies cut to the buffer size. |
| `PscFraming.ParsedIsEncoded` | src/sw/src/pscmsg.c:126-173 | Conversely, what parses off any stream is the encoding of what is returned. |
| `PscFraming.HandleClient` | src/sw/src/listener.c:208-216 | The client loop hands on the messages of repeated receives up to the first error. |
| `PscFraming.ServedSteady` | src/sw/src/listener.c:208-216 | On a stream that does not fail these are all the messages that parse off it. |
| `PscFraming.SendMsgs` | src/sw/src/listener.c:235-256 | Messages sent one after the other: the wire grows by their encodings in order, or after an error by a first part of them. |
| `PscFraming.RoundTrip` | src/sw/src/pscmsg.c:28-173 | For every list of messages and every way of splitting the writes and the reads, repeated sends and the client loop at the far end give the same ids and bodies, in order, bodies cut to the buffer. |

## Left out

- PscFraming.RecvSkip: what a last read longer than the buffer overwrites; the model gives it memory of its own and states its length.
- SnapshotTask.SnapshotPush.PassOnce: what a slot sends that has captured address 0 behind a reset of its latch; `SnapshotTriggers.ResetLatchSends` states when that happens. The polls of one pass read the latches at one moment, and the memory does not change while messages are filled; `SnapshotEndToEnd.EndToEnd` and `SnapshotEndToEnd.Waveform` show for one slot that the window is the same at every moment of the copy.
- SnapshotEndToEnd.EndToEnd: captures of address 0 behind a reset of the latch (`SnapshotTriggers.ResetLatchSends`). Assumes the rate between passes and the slack for the copy; scheduling, the time a send takes and the data cache (of whose ring the code invalidates 16,000,000 of 32,000,000 bytes) are not modelled.
- TftpServer.Server.Recv: parsing of file name and mode is reduced to whether it succeeds, packet buffers can always be allocated, and the file is a byte sequence whose reads are short only at its end and which nothing else changes during a session.
- TftpServer.Server.Tick: timer calls are arbitrary events; how often the callback is armed, and an overflow of its counter, are not modelled.
- AdcWriterProofs.RecorderRun: a slave that ends a burst at the first `wlast`, when a burst behind a reset in the first AWAITRESP cycle carries it on every word; the model's slave counts the 40 announced words. A reset reaches the slave with the recorder.
- Averager.RunKeeps: a constant mode; a mode change in mid-run is not covered.
- Interlock.InterlockHolds: one channel with park as an input; channel 2 takes its park from channel 1's output bit (src/hw/hdl/fault_module.vhd:76).
- FofbRoundTrip.RoundTrip: whole frames; a frame cut inside a pair is completed by idle bytes, as `FofbRoundTrip.CheckBytesActAsPair` shows for the check bytes.
- Heartbeat detector, `error_sub`, `wordnum` and `databytenum`: registers that drive nothing.
- Float arithmetic of the waveform cells, and the snapshot statistics message.
- Vendor cores (float multiply, float to fixed, CORDIC, transceivers) and the ramp generators: their outputs are inputs here.
- The UDP socket part of the packet generator, `psc_sendmsgsingle`, `psc_error`, lwIP, FatFS, FreeRTOS, console, I2C and QSPI: I/O.
- Register wiring of ps_io.vhd outside the latch process, message dispatch, discovery and listener: one branch a register, no property across calls.
- fofb_sync.vhd, adc2dma.vhd, test benches, constraints and build scripts.
