# The TDMA energy-monitoring network: a model and its proofs

The firmware runs a star network: one gateway and up to eight metering nodes share a LoRa
channel in superframes of three seconds. This project models what the two programs do to
their state and proves what that amounts to over whole runs.

* **Slots, epoch, eviction** (`SlotTable`, `SlotMask`, `GatewayTask`, `NodeTask`, `Network`,
  `EpochRate`, `GhostUplinks`, `DeafNode`, `Recovery`,
  `EvictionCycle`, `FirstEviction`). `GatewayTask.Gateway` and
  `NodeTask.Station` update their fields as the C++ does and are proved to compute the
  functions of `SlotTable` and `NodeTask`; `Network` composes one gateway and any number of
  nodes into a step whose losses, collisions, backoffs and reboots are inputs. The epoch is the
  real byte; an unbounded counter beside it exists for the proofs only.
* **Downlink commands** (`Mailbox`, `RelayNode`, `DownlinkRuns`, `ExactlyOnce`, `NodeSettings`,
  `PendingTimeout`). A one-cell mailbox per slot with retries, an ack bit and a timeout,
  feeding the relay and schedule state of a node. Queueing may happen between any two radio
  actions.
* **Persistence** (`FramLayout`, `FramStore`, `FramTask`, `CrashLoss`, `LateSaves`,
  `RingSafety`, `NodeNames`). `FramTask.Chip` is the
  32 KB byte array; its writes refine eight records, and those refine a queue of eight keys.
* **Rings and energy** (`HistoryRing`, `Energy`, `LogRing`, `LineRelay`).
* **Words and clocks** (`Crc16`, `PacketCrypto`, `Packets`, `Hopping`, `SlotTiming`,
  `ScheduleClock`, `RelayTrajectory`), over `Words` and `Protocol`. Integers are unbounded, so
  every 8-, 16- and 32-bit wrap of the firmware is written out; CRC and cipher work on bit
  vectors. AES is an arbitrary function from blocks to blocks, so what is proved holds for any
  block cipher.

The fields of one `NodeState` (src/gateway_state.h) are split by concern: registration in
`SlotTable.Entry`, mailbox in `Mailbox.Slot`, history in `HistoryRing.Ring`, what is persisted
in `FramTask.Hint`. Node reboots are placed at superframe boundaries in `Network`; a reboot
later in the superframe is one at the next boundary plus lost packets. A region guarded by a
mutex is one atomic step.

Device UIDs are assumed distinct where the slot protocol needs it. `Crc16` says when that is so
for UIDs computed from MAC addresses.

## Where code and documentation disagree

The model follows the code.

* The repository's README.md:168 promises that an evicted node never sends into a slot that belongs to another
  device. The epoch is a byte, so this fails for a node that is deaf long enough.
  `DeafNode.SafeExactlyUpTo286` gives the exact limit, 286 superframes: the epoch can rise by at
  most 8 in any 9 superframes, so it cannot come full circle sooner.
* src/tdma_protocol.h:184-186 wants every command to be absolute so that retries are harmless. A
  nudge is not: each delivery blinks (`ExactlyOnce.RepeatableUnlessNudge`).
* src/fram_store.h:118-123 speaks of wiping all node data. Erasing and reinitialising leave all
  records in place (`FramTask.Chip.Erase`, `FramTask.Chip.InitHeader`). Among them are ring indices, which
  come back unchecked and which addHistory() writes to: `RingSafety.RingSafeExactly` says for which chips
  that is always inside the ring.
* The repository's README.md:178 says that the accumulator is immune to power-cycle resets of the
  meter. Any decrease of the counter is read as a rollover and any other reset goes unseen:
  one reset is read right exactly if the meter stood at 0 (`Energy.OneResetMisread`), and
  `Energy.RightExactly` gives the condition for any number of them;
  `Energy.PowerCycleExample` is a misread input, `Energy.ResetsCost` the total error.
* The repository's README.md:199 says that energy is flushed every ten packets. The flush is a request
  that is carried out later, with the total of that moment, or dropped when the queue is full.
  `CrashLoss.CrashLosesFewPackets` bounds what is missing, `CrashLoss.NineteenMissing` meets the bound and
  `CrashLoss.FewerThanTenExactly` says when fewer than ten packets are missing.
* src/gateway_tdma_task.cpp:285 saves an evicted device. The message names the slot only, so what it saves
  is what the slot shows when it is carried out. A record that is behind gets the total exactly if no other
  device is in the slot by then and no restore of the slot has read another total in between
  (`LateSaves.FiledByEviction`, `LateSaves.EvictionFiledExactly`). `LateSaves.LateSaveExample` and
  `LateSaves.RestoreOvertakesExample` are runs from power-up that fail in each of the two ways.
* src/fram_store.cpp:327-328 keeps a stored name through an eviction because the label is empty by then. A
  device that joins again before the save finds its slot with a default label, and the save stores that:
  `NodeNames.NameAfterEviction` is the exact condition, `NodeNames.QuickReturnExample` a run from power-up,
  `NodeNames.NameReturns` the case in which the promise holds.
* src/tdma_protocol.h:202 gives a schedule the relay state inside its window. The node ignores that byte
  (`NodeSettings.CommandsOnTheWire`).
* src/gateway_state.h:107-110 promises a clock that rolls over once a day. Elapsed time comes from the
  32-bit millis(), so a clock that is not set again is right exactly while a multiple of 84375 turns
  of millis() has passed: for the first 49.7 days (`ScheduleClock.RightExactlyInCycle`).

## Model

| member | source | states |
|---|---|---|
| SlotTable.JoinKeepsOwners | src/gateway_tdma_task.cpp:326-362 | A join request never takes a slot from its owner; the acked slot belongs to the requester and has a clean miss count; every other entry is untouched; there is no ack exactly when the table is full of other devices. |
| SlotTable.UplinkKeepsOwners | src/gateway_tdma_task.cpp:437-447 | The uplink windows change miss counts only: the table stays well formed and ownership is the same before and after. |
| SlotTable.EvictionTakesOwners | src/gateway_tdma_task.cpp:271-296 | Eviction acts only on a full table with a stale entry; then every stale entry is freed with its count cleared, every other entry keeps its contents, and the epoch rises by one however many go. |
| SlotTable.EvictionExactly | src/gateway_tdma_task.cpp:271-277 | A free slot protects every owner: eviction acts if and only if all eight slots are taken and some owner has missed eight superframes. |
| SlotTable.SuperframeKeepsOwners | src/gateway_tdma_task.cpp:388-466 | Over a whole superframe the table stays well formed, and the 8-bit epoch moves, by exactly one, precisely when some owner lost its slot. |
| SlotTable.MissCounts | src/gateway_tdma_task.cpp:126-146 | Over a superframe the miss count of an owner that keeps its slot is reset by its own uplink or join only, grows by one for a window without a packet, and stays for a packet with a foreign UID. |
| GatewayTask.Gateway.HandleJoinRequest | src/gateway_tdma_task.cpp:326-376 | The two scans over the node array, in place, give the join of the specification and its ack slot; the slot mask still mirrors the active flags. |
| GatewayTask.Gateway.CloseUplinkWindow | src/gateway_tdma_task.cpp:126-146 | Effect of one uplink window on one entry: reset on the right UID, one more miss when nothing was decoded, nothing on a foreign UID; all other entries stay. |
| GatewayTask.Gateway.EvictStaleNodes | src/gateway_tdma_task.cpp:271-296 | The in-place eviction loop, guarded by the mask, gives the eviction of the specification and keeps mask and flags in step. |
| GatewayTask.Gateway.RunSuperframe | src/gateway_tdma_task.cpp:388-466 | One pass of the superframe loop: slots, then contention, then eviction, with the ack slot and the 16-bit superframe counter. |
| GatewayTask.MaskFull | src/gateway_tdma_task.cpp:272 | The guard mask == 0xFF means that all eight entries are active. |
| SlotMask.BitIsDigit | src/tdma_protocol.h:129-142 | Bit N of the mask is its N-th binary digit, lowest first. |
| NodeTask.Station.HearBeacon | src/node_tdma_task.cpp:493-521 | A beacon confirms a registration exactly when epoch and slot bit agree; otherwise the node forgets slot and epoch and contends. |
| NodeTask.LostRegistration | src/node_tdma_task.cpp:498-521 | A beacon with another epoch, or without the bit of the slot, leaves the node as after power-up but for the epoch seen; any other beacon leaves the registration alone. |
| NodeTask.Station.RunSuperframe | src/node_tdma_task.cpp:493-588 | One superframe of the node: whether it sends a join request or an uplink and in which slot, and its registration afterwards, including the echo check of the join ack. |
| Network.StepShaped | src/gateway_tdma_task.cpp:388-466 | A superframe of gateway and all nodes keeps the joint state well formed: slot numbers in range, device identities fixed, epoch byte equal to the unbounded epoch modulo 256, history only appended to. |
| Network.SilentInFreeSlots | src/node_tdma_task.cpp:498-509 | Whatever epochs coincide, nobody sends in a slot that the beacon calls free. |
| Network.GatewayRestart | src/node_tdma_task.cpp:498-521 | After a restart of the gateway every node that hears the beacon contends, whatever epoch the gateway drew. |
| Network.RestartForgets | src/node_tdma_task.cpp:498-521 | A node that restarts contends at the first beacon it hears and sends nothing before. |
| EpochRate.YoungGrows | src/gateway_tdma_task.cpp:271-296 | Every further superframe of an unbroken series of epoch steps leaves at least one more slot that cannot be evicted within the series. |
| EpochRate.StepPaced | src/gateway_tdma_task.cpp:388-466 | Invariant of every superframe: the epoch rises by at most one, and never in nine superframes in a row. |
| EpochRate.RunPaced | src/gateway_tdma_task.cpp:388-466 | The same over every run from power-up, for any losses, reboots and joins. |
| EpochRate.RateBound | src/gateway_tdma_task.cpp:293 | Over any w superframes of a legal history the epoch rises by at most w - floor(w / 9). |
| GhostUplinks.ConfirmedIsCurrent | src/node_tdma_task.cpp:498-509 | A registration that a beacon confirms was made in this very epoch, wrap-around included, and its slot is still recorded as the node's own, if the node was deaf for at most 286 superframes. |
| GhostUplinks.AckedOwnsSlot | src/node_tdma_task.cpp:574-588 | A node that decodes a matching join ack owns the acked slot at the end of the superframe unless the epoch moved in it. |
| GhostUplinks.StepKeepsInvariant | src/node_tdma_task.cpp:493-588 | The registration invariant (join epoch is that of the last beacon heard; same epoch implies same owner) is kept by every superframe. |
| GhostUplinks.NoGhostUplinks | src/node_tdma_task.cpp:493-521 | In every superframe of every run with silences of at most 286 superframes, each uplink in slot s comes from the active owner of s, and no two nodes send in one slot. |
| DeafNode.DeafNodeWakesAsGhost | src/gateway_tdma_task.cpp:271-296 | A concrete 296-superframe run of nine devices, from power-up, in which a node wakes after 287 superframes to its own epoch byte and sends in a slot owned by another device. |
| DeafNode.DeafRunGap | src/node_tdma_task.cpp:498-509 | No registered node of that run is silent for more than 287 superframes. |
| DeafNode.SafeExactlyUpTo286 | src/node_tdma_task.cpp:498-509 | The guarantee of uplinks only from slot owners holds for silences of up to g superframes if and only if g is at most 286. |
| Recovery.UplinksReset | src/gateway_tdma_task.cpp:437-447 | During recovery a slot whose owner is back is reset by its uplink and a slot whose owner still waits is exactly one miss older. |
| Recovery.ContenderJoins | src/gateway_tdma_task.cpp:326-362 | During recovery the contender always finds room, gets a slot of its own with a clean count, and no owner loses a slot to it. |
| Recovery.NoEviction | src/gateway_tdma_task.cpp:456-460 | During recovery nobody is stale when eviction looks, because contention comes first. |
| Recovery.ProgressStep | src/gateway_tdma_task.cpp:388-466 | One clear superframe brings exactly one more node back; all others have waited exactly one superframe longer. |
| Recovery.EveryoneRecovers | src/gateway_tdma_task.cpp:328-337 | With at most eight live devices, after as many clear superframes as there are of them each is registered in the epoch of the eviction, no owner has lost its slot, and every owner is back in exactly its old slot, whatever silent devices the table forgot. |
| Recovery.RecoveryPossible | src/gateway_tdma_task.cpp:328-337 | From every aftermath such superframes exist: a run that brings every live device back is constructed. |
| EvictionCycle.EvictionStartsRecovery | src/gateway_tdma_task.cpp:271-296 | After a superframe that evicts, no registered live device holds the byte of the new epoch, so all of them contend again. |
| EvictionCycle.EveryEvictionHeals | src/gateway_tdma_task.cpp:388-466 | In every run from power-up, whenever a superframe evicts and the remaining owners were just heard, the live devices all get back, each owner into its old slot, in as many clear superframes as there are live devices. |
| Recovery.LastSurvivorIsStale | src/gateway_tdma_task.cpp:456-460 | The bound is tight: after its last uplink window the last of eight survivors is stale in a full table, so eviction before contention would take its slot; contention resets it and it keeps the slot. |
| Recovery.AnyoneCanBeLast | src/gateway_tdma_task.cpp:456-460 | From every aftermath with eight live devices, any owner can be that last one: the superframes are constructed. |
| FirstEviction.FirstEvictionHeals | src/gateway_tdma_task.cpp:271-296 | Such histories exist: a concrete run from power-up fills the table, evicts a silent device in superframe 8, and is continued until all eight devices are back. |
| FirstEviction.LastSurvivorExample | src/gateway_tdma_task.cpp:456-460 | A concrete continuation of that run in which the device of slot 8 is the last one, stale before its contention. |
| Mailbox.Slot.QueueCommand | src/gateway_tdma_task.cpp:488-509 | Accepts commands of 1 to 8 bytes on an active slot: the bytes and their number are then in the cell, behind them what was there before, and all pending fields start anew; otherwise nothing changes. |
| Mailbox.Slot.SendDownlink | src/gateway_tdma_task.cpp:244-261 | Sends an armed command of at least two bytes, zero-padded to seven; only a successful transmission disarms it and restarts the timeout. |
| Mailbox.Slot.ProcessUplink | src/gateway_tdma_task.cpp:166-191 | Confirmation by ack bit or state match, re-arming up to three times, and the 15 s timeout in wrapping arithmetic. |
| Mailbox.QueuedIsSent | src/gateway_tdma_task.cpp:495-504 | Whatever the cell held before, the frame on air is the queued command, zero-padded to seven bytes. |
| Mailbox.UnackedUplink | src/gateway_tdma_task.cpp:166-191 | Without ack and within 15 s, a manual command stays pending exactly unless the relay state is the commanded one, a schedule unless mode and schedule state say so, a clear unless both are 0, a threshold or nudge always; what stays pending is re-armed up to three times. |
| Mailbox.PendingEnds | src/gateway_tdma_task.cpp:176-191 | Pending ends only by the ack bit, by the timeout, or, for the three relay commands, by a report; what else each of these changes in the cell, a command still armed at the timeout included. |
| RelayNode.Controller.EvaluateSchedule | src/node_tdma_task.cpp:126-153 | The schedule evaluator as a function of state and time of day; in schedule mode the relay is on exactly on the arc from start to end, midnight-wrapping windows included. |
| RelayNode.Controller.HandleDownlink | src/node_tdma_task.cpp:260-320 | Effect of every command type on relay, schedule and threshold; frames under two bytes, for other nodes or of unknown type change nothing and are not acked; a frame too short for its type is acked without effect. |
| RelayNode.FullFramesApplied | src/node_tdma_task.cpp:260-320 | A frame of the size sent on air that is acked has been applied. |
| RelayNode.InsideIsArc | src/node_tdma_task.cpp:132-140 | For times of day the window is the arc of the clock from start to end: a minute is inside exactly if it comes sooner after the start than the end does, over midnight or not. |
| RelayNode.InsideBeyondDay | src/node_tdma_task.cpp:132-140 | What the same test makes of times past the end of the day, which a command may carry. |
| RelayNode.ShortFrames | src/node_tdma_task.cpp:260-320 | A frame too short for its type is acked without effect; one for another node, of unknown type or under two bytes has none at all. |
| NodeSettings.SettingsAfterRun | src/node_tdma_task.cpp:260-320 | After any lossy run of the downlink pipeline, mode, window, threshold and nudge count are those of the newest command of their kind delivered since the last restart; the relay output is that of the newest command or schedule evaluation that sets it, on the circle of the day; the meter register is the threshold in force at the last pass over the meter, across restarts; and each such command is the one queued under its number. |
| NodeSettings.CommandsOnTheWire | src/gateway_web.cpp:341-421 | The five commands as the web handlers build them, byte by byte, and what each changes; a threshold arrives as the number of watts sent, and the onState byte of a schedule has no effect. |
| RelayNode.Controller.SetSchedule | src/node_tdma_task.cpp:279-285 | A schedule command stores the window and is evaluated at once. |
| RelayNode.Controller.TakeReport | src/node_tdma_task.cpp:368-375 | The uplink carries status, schedule window and a sequence byte with the ack in bit 7 over a rolling 7-bit counter; the ack is cleared with the report, whether or not the report arrives. |
| DownlinkRuns.StepKeepsAckBound | src/node_tdma_task.cpp:319 | Every event keeps the binding of an armed ack to a frame accepted in the slot that is open now. |
| DownlinkRuns.AckMeansApplied | src/gateway_tdma_task.cpp:156-178 | After any run, an uplink with the ack bit clears the pending state, and the node has applied in this same slot exactly the frame of the downlink window; it is the command still in the mailbox unless one was queued in between. |
| DownlinkRuns.NoStaleAck | src/node_tdma_task.cpp:374-375 | Outside a slot no ack is armed, so a lost uplink leaves none for a later one. |
| DownlinkRuns.DeliveredAsQueued | src/gateway_tdma_task.cpp:244-261 | In every run, whatever is lost, retried or overwritten: the frame delivered for the q-th command is that command as it was queued, zero-padded. |
| DownlinkRuns.UnackedConfirmation | src/gateway_tdma_task.cpp:166-175 | After any run, an uplink without ack within 15 s ends the pending state if and only if the node is in the state that the newest command asks for; thresholds and nudges are never confirmed that way. |
| DownlinkRuns.MailboxMoves | src/gateway_tdma_task.cpp:244-261 | The mailbox changes only by a command, a successful transmission, or a decoded packet of a node in its slot; the node only by its own inputs: what is lost on air changes nothing at the other end. |
| DownlinkRuns.SilentAfterRestart | src/node_tdma_task.cpp:493-521 | A node that restarts between downlink and uplink of a slot leaves mailbox and pending state alone. |
| DownlinkRuns.StepKeepsBudget | src/gateway_tdma_task.cpp:165-191 | Invariant: while pending, frames sent plus one if armed equals retries plus one. |
| DownlinkRuns.AtMostFourTransmissions | src/gateway_tdma_task.cpp:179-186 | In every run each queued command goes on air at most 1 + MAX_DL_RETRIES = 4 times, and never after a newer one. |
| ExactlyOnce.Redelivery | src/node_tdma_task.cpp:260-320 | Delivering a command again while it is in effect is one schedule tick for a schedule and invisible otherwise. |
| ExactlyOnce.ReactKeepsSameEffect | src/node_tdma_task.cpp:260-320 | Two node states that look the same keep looking the same under every input, and an accepted command is in effect after its delivery. |
| ExactlyOnce.EffectLasts | src/node_tdma_task.cpp:126-153 | A command in effect stays in effect through schedule ticks and meter passes. |
| ExactlyOnce.OnceIsEnough | src/node_tdma_task.cpp:260-320 | A node that received a log of deliveries, ticks, meter passes and restarts looks the same as one that received it with all repetitions taken out. |
| ExactlyOnce.OnceDeliversOnce | src/gateway_tdma_task.cpp:179-186 | The reduced log delivers each command at most once between restarts, in queueing order. |
| ExactlyOnce.OnceKeepsEveryCommand | src/gateway_tdma_task.cpp:179-186 | The reduced log still contains every command that was delivered, with the same bytes. |
| ExactlyOnce.CommandsTakeEffectOnce | src/gateway_tdma_task.cpp:244-261 | After any lossy run the visible state of the node is that of delivering each delivered command once, in order. |
| ExactlyOnce.RepeatableUnlessNudge | src/tdma_protocol.h:184-186 | A command can be repeated without trace if and only if it is not an accepted nudge. |
| PendingTimeout.WhilePending | src/gateway_tdma_task.cpp:166-191 | A command still pending after k superframes has used min(k, 3) retries, was last sent in superframe min(k, 4), and k is at most 8. |
| PendingTimeout.ClearsWithinNine | src/gateway_tdma_task.cpp:188-191 | With every downlink sent and an uplink processed in every superframe the command is no longer pending after nine superframes. |
| PendingTimeout.PendingForEight | src/gateway_tdma_task.cpp:188-191 | Nine is exact: unconfirmed and with nominal timing it is still pending after eight. |
| FramLayout.BlocksDisjoint | src/fram_store.cpp:33-51 | The eight blocks lie behind the header, pairwise disjoint, inside the 32 KB chip. |
| FramLayout.LayoutNumbers | src/fram_store.cpp:33-51 | Offsets and sizes of the fields in numbers; block k starts at 16 + 1968 k. |
| FramLayout.LittleEndian | src/fram_store.cpp:62-65 | Integers lie least significant byte first. |
| FramLayout.FieldWriteRefines | src/fram_store.cpp:62-65 | Writing a field of a block at byte level changes that field of that record and nothing else on the chip. |
| FramLayout.HeaderWriteRefines | src/fram_store.cpp:113-122 | Header writes leave all eight records alone. |
| FramLayout.HistoryRoundTrip | src/fram_store.cpp:288-290 | The 1920 history bytes read back as the points that were written. |
| FramStore.HasIsMembership | src/fram_store.cpp:71-77 | The scan over the blocks finds a UID exactly when it is among the eight stamps. |
| FramStore.ApplyIsPush | src/fram_store.cpp:84-93 | Refinement: every save or restore is a push of its UID on a queue of eight; a known UID moves nothing, a new one pushes the oldest out. |
| FramStore.ApplyKeepsDistinct | src/fram_store.cpp:241-363 | Non-blank UID stamps stay pairwise distinct under every message. |
| FramStore.ApplyIsLocal | src/fram_store.cpp:311-361 | A message changes only the record of its own UID; the one other record that can go, when a new UID comes in, is the oldest. |
| FramStore.ApplyWrites | src/fram_store.cpp:311-361 | The record written is found again under its UID, with the written fields. |
| FramStore.RecordSurvives | src/fram_store.cpp:84-93 | A record at position i of the queue outlives i allocations by other devices unchanged and is gone after the next one, over every sequence of messages. |
| FramStore.SevenThenGone | src/fram_store.cpp:84-93 | A new record survives exactly the next seven allocations and is replaced by the eighth. |
| FramTask.MessageRoundTrip | src/fram_store.cpp:225-239 | Index and flags packed into one byte come apart again, and a save is never taken for a restore. |
| FramTask.Chip.FindUid | src/fram_store.cpp:71-77 | The byte-level scan returns the first block stamped with the UID, or none. |
| FramTask.Chip.AllocFifoSlot | src/fram_store.cpp:84-93 | Returns the block under the write index and advances the index modulo eight; nothing else changes. |
| FramTask.Chip.WriteField | src/fram_store.cpp:324-326 | The byte writes of one field give the record update on the chip's contents. |
| FramTask.Chip.ReadRecord | src/fram_store.cpp:281-290 | The field reads give back the stored record. |
| FramTask.Chip.Place | src/fram_store.cpp:321-322 | The block for a UID: its own, or the one under the write index, which then advances. |
| FramTask.Chip.PutEnergy | src/fram_store.cpp:321-332 | The field writes of an energy save are one save of the specification. |
| FramTask.Chip.PutHistory | src/fram_store.cpp:347-360 | The field writes of a history save are one save of the specification. |
| FramTask.Chip.PutLabel | src/fram_store.cpp:191-198 | The field writes of a rename are one label save of the specification. |
| FramTask.Chip.Stamp | src/fram_store.cpp:263-273 | The field writes for a novel UID are one stamp of the specification: label kept, totals zero. |
| FramTask.Chip.InitHeader | src/fram_store.cpp:110-126 | A blank chip or an older version gets a fresh header and write index; no record is wiped. |
| FramTask.Chip.Erase | src/fram_store.cpp:372-377 | Erasing changes the magic number only; every record stays. |
| FramTask.Task.SaveNodeEnergy | src/fram_store.cpp:312-333 | An energy save through the shared snapshot buffer is one write of the specification, with an empty label kept out. |
| FramTask.Task.SaveNodeHistory | src/fram_store.cpp:336-361 | The same for head, count, label and the whole ring. |
| FramTask.Task.SaveLabel | src/fram_store.cpp:184-198 | A rename goes straight to the chip, an allocation included, even with an empty label. |
| FramTask.Task.RestoreNode | src/fram_store.cpp:251-309 | A restore stamps a novel UID with zeroed totals, or copies the record into the node entry, label only if there is one; no other entry changes. |
| FramTask.Task.QueueSave | src/fram_store.cpp:225-232 | The request is appended, or dropped without a trace when sixteen are waiting. |
| FramTask.Task.QueueRestore | src/fram_store.cpp:234-239 | The same for a restore request. |
| FramTask.Task.ProcessNext | src/fram_store.cpp:244-361 | One message from the queue: bad indices are skipped, restore wins over save, energy goes before history, a blank UID ends the message. |
| FramTask.SavedRecord | src/fram_store.cpp:311-361 | After a full save the record of the node holds every field of its entry, and its label if it has one. |
| FramTask.SavedFields | src/fram_store.cpp:312-361 | Every field of the record after a save with any flags: energy and history as asked for, the rest as it was, and the stored label untouched when the entry has none. |
| FramTask.KnownRestored | src/fram_store.cpp:281-300 | A restore of a known device brings totals, indices and history of the record, and its label unless that is empty. |
| FramTask.NovelStamped | src/fram_store.cpp:261-278 | A device without a record gets one with zero totals, an empty ring and the label of its entry; the entry stays. |
| FramTask.RenamedFields | src/fram_store.cpp:184-198 | A rename changes stamp and label of its record only. |
| FramTask.SaveThenRestore | src/fram_store.cpp:241-363 | Save, then any messages that do not push the record out, then restore into an entry of the same UID: energy, head, count and history are the saved ones and so is a non-empty label. |
| FramTask.HistoryViewPersists | src/gateway_web.cpp:668-681 | The history the web page shows is the same before a save and after the restore. |
| CrashLoss.Accumulator.AccumulateEnergy | src/gateway_tdma_task.cpp:91-101 | Wrapping addition to the slot's total and the dirty counter that asks for a save at every tenth packet. |
| CrashLoss.AcceptAsks | src/gateway_tdma_task.cpp:97-120 | The tenth packet asks for an energy save and the tenth point for a history save, in that order, and no other does. |
| CrashLoss.StepKeepsAccounts | src/gateway_tdma_task.cpp:91-101 | Every accepted packet, join, eviction, rename, clearing (of an unused slot too) and drained message keeps the books of every slot: total = stored energy + carry + energy since the flush (mod 2^32); packets since the flush and the dirty counter then are the dirty counter now and ten for each save asked for, and every such save is still queued. |
| CrashLoss.CrashLosesFewPackets | src/fram_store.cpp:292-300 | After any run from power-up without queue overflow, on a fresh or a used chip and with any number of devices, a restore of a filed device gives the total of its last flush, and fewer than ten packets, plus ten for each energy save still queued, are missing from it. |
| CrashLoss.MessageFiles | src/fram_store.cpp:311-333 | Every energy save and every restore of a device files it; a save and a restore of a known device leave nothing unaccounted for. |
| CrashLoss.FiledUntil | src/fram_store.cpp:241-363 | A filed device stays so exactly until another device joins in its slot, another slot with its UID is served, or newer devices push its record out; meanwhile only a clearing changes the carry. |
| CrashLoss.NineteenMissing | src/gateway_tdma_task.cpp:97-100 | The bound is met: in a concrete run from power-up nineteen packets are missing from a record while one energy save waits in the queue. |
| CrashLoss.FewerThanTenExactly | src/gateway_tdma_task.cpp:91-101 | After any such run fewer than ten packets are missing if and only if none of the saves asked for since the last flush is outstanding, or one is and the dirty counter is still below where it was at that flush. |
| LateSaves.EvictionFiledExactly | src/gateway_tdma_task.cpp:285-290 | After an eviction and any events until its save is carried out (packets and clearings of the slot itself apart): if the evicted device is the last to have joined the slot, its record holds its total if and only if no restore of the slot read another total in between; otherwise if and only if it did so already and the newcomer does not take its block, and the save files the total under the newcomer. |
| LateSaves.FiledByEviction | src/gateway_tdma_task.cpp:285-290 | So a record that is behind gets the evicted total if and only if no other device is in the slot by then and no restore in between read a different total. |
| LateSaves.FiledWithoutRestore | src/fram_store.cpp:311-361 | If no restore of the slot was waiting at the eviction, only the occupant of the slot at the time of the save decides. |
| LateSaves.LateSaveMisfiled | src/gateway_tdma_task.cpp:285-290 | If another device joins in an evicted slot before the save of the eviction is carried out, the evicted total is filed under the new UID and the old record stays without it. |
| LateSaves.RestoreOvertakes | src/fram_store.cpp:251-309 | If a restore of the slot was waiting at the eviction and finds a record, the save stores the total of that record again. |
| LateSaves.LateSaveExample | src/gateway_tdma_task.cpp:285-290 | A concrete run from power-up in which the evicted total ends up under the UID of a newcomer. |
| LateSaves.RestoreOvertakesExample | src/fram_store.cpp:251-309 | A concrete run from power-up in which no other device joins and the evicted total is lost to a waiting restore. |
| RingSafety.RunSound | src/gateway_tdma_task.cpp:106-114 | From a state with all ring indices in range and a chip with all stored ones in range, every run keeps both so, hence addHistory() writes inside the ring. |
| RingSafety.RingSafeExactly | src/fram_store.cpp:281-298 | From power-up, every run keeps write index and count of every slot in range if and only if all eight blocks of the chip hold a write index below 120 and a count of at most 120, blocks without a stamp included. |
| NodeNames.NameReturns | src/fram_store.cpp:327-332 | A named device that is evicted and saved, and joins again in any slot with any default label, has its name back after the restore, whatever happened to others in between, unless newer devices pushed its record out. |
| NodeNames.NameAfterEviction | src/fram_store.cpp:327-332 | The save of an eviction leaves the stored name alone if and only if the slot shows no label by then, or the same one. |
| NodeNames.QuickReturn | src/gateway_tdma_task.cpp:338-349 | A device back in its slot before that save is carried out has its name replaced by the default label. |
| NodeNames.QuickReturnExample | src/gateway_tdma_task.cpp:338-349 | A concrete run from power-up in which a name is lost that way. |
| NodeNames.RenameSticks | src/fram_store.cpp:184-198 | A renaming is in entry and record at once. |
| NodeNames.QuietKeepsRecord | src/fram_store.cpp:241-363 | Events that serve other devices leave the whole record of a device as it was, as long as it is there. |
| NodeNames.EntryMoves | src/gateway_web.cpp:505-531 | What can change the entry of a slot: its UID only a join; label, total and history each only the events listed, or a restore of a device with a record. |
| HistoryRing.WalkIsChronological | src/gateway_web.cpp:668-681 | The reader's walk yields exactly the last min(n, 120) points in chronological order. |
| HistoryRing.Ring.AddHistory | src/gateway_tdma_task.cpp:106-114 | Writing a point keeps the ring equal to the tail of the log of all points ever added. |
| HistoryRing.Ring.ReadHistory | src/gateway_web.cpp:668-681 | The reading loop returns the last 120 points of the log, oldest first. |
| Energy.MeterBase.TakeDelta | src/node_tdma_task.cpp:338-351 | The increment put into a packet, in 32-bit arithmetic, and the new base. |
| Energy.DeltaIsTravel | src/node_tdma_task.cpp:344-349 | An increment is the true travel of the meter modulo 9,999,990. |
| Energy.DeltasConserve | src/node_tdma_task.cpp:338-351 | The transmitted increments never exceed the true travel, and equal it if and only if the meter never turns fully between two packets. |
| Energy.EnergyConserved | src/gateway_tdma_task.cpp:91-94 | What the gateway accumulated plus what was lost on air is the true travel, modulo 2^32. |
| Energy.RightExactly | src/node_tdma_task.cpp:344-349 | With rollovers and resets of the meter between two packets, in any order, the increment is the true consumption if and only if nothing but at most one rollover is in the gap: no full turn, and no reset of a meter that had counted, save that discarded counts of exactly one full range read as the rollover. |
| Energy.OneResetMisread | src/node_tdma_task.cpp:344-349 | One reset between two packets is read rightly if and only if the meter stood at zero anyway. |
| Energy.PowerCycleExample | src/node_tdma_task.cpp:346-349 | A meter at 5000 Wh that loses its count: nothing consumed reads as 9,994,990 Wh, and 6000 Wh read as 1000 Wh. |
| Energy.ResetsCost | src/node_tdma_task.cpp:338-351 | Over any life of a meter, with rollovers and resets in any gap, the reported energy is off by exactly the sum of the errors of the gaps, and all increments are right if and only if every gap is rightly read. |
| LogRing.Ring.LogAsync | src/log_async.cpp:44-53 | A message, clipped to 127 bytes, is enqueued whole if it fits into 1023 bytes and not at all otherwise, through every wrap of the 16-bit indices; what was drained plus what is queued is always the concatenation of the accepted messages. |
| LogRing.Ring.Append | src/log_async.cpp:46-51 | The copy loop appends the bytes at the end of the queue, around the buffer end and the index wrap. |
| LogRing.Ring.TakeChunk | src/log_async.cpp:61-68 | The drain loop removes bytes from the front of the queue and returns them in order. |
| LogRing.Ring.Drain | src/log_async.cpp:61-68 | The drain takes the oldest bytes, at most 64, in order, and keeps that invariant. |
| LogRing.FreeSpaceIsRest | src/log_async.cpp:45 | Masking the difference of the free-running indices gives the true free space. |
| LineRelay.Splitter.RelayChunk | src/log_async.cpp:73-86 | The in-place line accumulator computes the line splitter of the specification on every chunk. |
| LineRelay.ChunkingIrrelevant | src/log_async.cpp:70-87 | However the byte stream is cut into chunks, the offered lines and the held rest are the same. |
| LineRelay.RelayLossless | src/log_async.cpp:75-85 | The relay offers exactly the non-empty newline-separated lines if and only if none is longer than 95 characters. |
| LineRelay.RelayExactly | src/log_async.cpp:73-86 | The relay on every stream: of each 96 characters of a line the first 95 are offered as a piece and the 96th is dropped, the remainder is offered at the newline, and what follows the last newline is held. |
| LineRelay.LongLineExample | src/log_async.cpp:75-82 | A line of 96 characters is relayed without its last one. |
| Crc16.Crc16ccitt | src/tdma_protocol.h:278-287 | The nested shift loop computes the register recursion that the lemmas are about. |
| Crc16.CrcAffine | src/tdma_protocol.h:278-287 | For equal lengths the checksum is affine over bytewise exclusive or. |
| Crc16.SameCrc | src/tdma_protocol.h:278-287 | Two strings of one length share a checksum if and only if their difference has remainder zero. |
| Crc16.AdjacentBytesSeen | src/tdma_protocol.h:278-287 | Strings of any equal length that differ only inside two adjacent bytes share a checksum only if they are equal. |
| Crc16.RegisterInjective | src/tdma_protocol.h:280-285 | Whatever bytes follow, two different register states stay different. |
| Crc16.LeadingZeroSeen | src/tdma_protocol.h:279 | The initial value 0xFFFF tells every string from the same string behind a zero byte. |
| Crc16.BatchUidsDistinct | src/tdma_protocol.h:289-293 | MAC addresses that agree in the first four bytes give equal UIDs only if they are equal. |
| Crc16.ThreeBytesCollide | src/tdma_protocol.h:289-293 | Two bytes is the limit: two addresses that differ in three adjacent bytes have the same UID. |
| Crc16.ZeroAddressUid | src/tdma_protocol.h:278-293 | The UID of the all-zero address is 0x0E10: initial value, polynomial and absence of a final inversion in one number. |
| PacketCrypto.ProcessTwice | src/crypto.cpp:79-97 | Encrypting twice with the same nonce gives the plaintext back, for any block cipher, in every build. |
| PacketCrypto.CounterBlocksDistinct | src/crypto.cpp:83-87 | Counter blocks of two key-stream positions of messages up to 4096 bytes coincide if and only if the 16-bit superframe count, slot, direction and position all agree. |
| PacketCrypto.NonceLayout | src/crypto.cpp:83-87 | The nonce byte by byte: count, slot, direction number, twelve zeros. |
| PacketCrypto.NoncesInUse | src/pkt_crypto.h:41-53 | What each of the five transmissions sends under a key uses exactly the nonces of CounterBlocksDistinct; without one it goes out as it is. |
| PacketCrypto.BumpAddsOne | src/crypto.cpp:93-95 | The counter block is a 128-bit number, most significant byte first, that grows by one per block, carries included. |
| PacketCrypto.NoncePeriod | src/crypto.cpp:83-87 | A transmission finds its nonce again k superframes later if and only if 65536 divides k; blocks that stay distinct for the whole life of a key, as section 6.5 of NIST SP 800-38A asks for, need a new key within that time. |
| PacketCrypto.CryptCtr | src/crypto.cpp:93-95 | The byte-wise in-place loop with its mutable counter block flips each byte with the key stream and touches nothing outside the buffer part. |
| PacketCrypto.PacketLayer.CryptoProcess | src/crypto.cpp:79-97 | Without a key or bytes nothing happens; otherwise exactly the given part of the buffer is flipped. |
| PacketCrypto.PacketLayer.PktEncrypt | src/pkt_crypto.h:41-53 | Encryption and decryption are this one operation, and a no-op in plain builds. |
| PacketCrypto.PacketLayer.PktReceive | src/pkt_crypto.h:62-71 | Fails exactly on too short input and then leaves the output alone; otherwise the output is the decrypted prefix. |
| PacketCrypto.PacketLayer.PktReceiveBeacon | src/pkt_crypto.h:85-95 | The same for the beacon, with the nonce taken from its first two bytes, which are copied unchanged. |
| Packets.BeaconRoundTrip | src/gateway_tdma_task.cpp:224-228 | For every beacon the receiver decodes the beacon that was built, without shared state, and sfCount stays readable on air. |
| Packets.SuperframeExchange | src/pkt_crypto.h:62-95 | With the node's count taken from the decoded beacon and the gateway's from its own counter, every command, telemetry packet, join request and join ack arrives as it was built. |
| Packets.TelemetryLayout | src/tdma_protocol.h:151-174 | Reading the 32 packed little-endian bytes gives back every telemetry field. |
| Packets.TelemetryOffsets | src/tdma_protocol.h:151-174 | Which bytes of the 32 hold which field. |
| Packets.SmallOffsets | src/tdma_protocol.h:225-239 | The same for beacon, join request and join ack, with the byte order of a field. |
| Packets.BeaconNonce | src/pkt_crypto.h:85-95 | The two bytes of a beacon that travel in the clear are the first two of its nonce. |
| Packets.StatusRoundTrip | src/tdma_protocol.h:251-262 | The status byte codec returns each field masked to its width, and re-encoding a decoded byte returns its five used bits. |
| Hopping.SlotsOnDistinctChannels | src/tdma_protocol.h:270-272 | In one superframe two slots share a channel only if they are the same slot. |
| Hopping.HopsDown | src/tdma_protocol.h:270-272 | Every slot starts on the channel of its number and moves one channel down per superframe. |
| Hopping.EveryChannelOnce | src/tdma_protocol.h:270-272 | In any eight consecutive superframes, the wrap of sfCount included, a slot meets every channel exactly once. |
| Hopping.PeriodIsEight | src/tdma_protocol.h:270-272 | A slot is back on its channel after k superframes if and only if 8 divides k. |
| SlotTiming.WaitUntil | src/tdma_protocol.h:299-308 | The two waiting loops never return before the target and let at most one reading at or after it go by, for gaps below 2^31 ms, wherever the 32-bit clock wraps. |
| SlotTiming.EarlyExactlyBeyondHalf | src/tdma_protocol.h:296-298 | A wait is taken for over before its time if and only if the gap is 2^31 ms or more. |
| SlotTiming.Wakes | src/tdma_protocol.h:299-308 | A wait for a given offset after an instant ends exactly then, on any device's own wrapping clock. |
| SlotTiming.SlotWakes | src/node_tdma_task.cpp:604-612 | On the devices' own clocks the receive window opens at its nominal time and the node starts exactly its beacon latency later. |
| SlotTiming.UplinkInWindow | src/node_tdma_task.cpp:604-639 | An uplink (34 ms) lies inside the gateway's receive window if and only if beacon latency plus transmit lateness is at most 66 ms. |
| SlotTiming.UplinksDisjoint | src/tdma_protocol.h:65-87 | Uplinks of different slots never overlap if and only if the node in the earlier slot is at most 131 ms later than the other. |
| SlotTiming.JoinInWindow | src/node_tdma_task.cpp:539-571 | For every backoff of 0 to 24 ms the join request (16 ms) lies inside the contention window, and the node is listening when the ack airs, if and only if the beacon latency is at most 20 ms. |
| SlotTiming.ZonesTile | src/tdma_protocol.h:49-69 | Beacon, eight slot pairs, contention, idle and guard follow each other without gap or overlap; contention opens at 1360 ms, the superframe is 3000 ms. |
| SlotTiming.ContentionClear | src/gateway_tdma_task.cpp:302-324 | Uplinks and join requests never share the air: every uplink inside its window is over before any contender sends, and a node is clear of every contender, in every slot and for every backoff, if and only if it is at most 81 ms later than the contender; the ack is over before the idle zone. |
| ScheduleClock.NodeRtc.ConditionalSync | src/node_tdma_task.cpp:101-118 | The correction in int32 milliseconds with its fold around midnight, and that the RTC is within two seconds of the beacon afterwards. |
| ScheduleClock.WithinTwoSeconds | src/node_tdma_task.cpp:101-118 | After every beacon, whatever its time bytes, the RTC is within two seconds of it on the 24-hour circle. |
| ScheduleClock.TouchedExactlyBeyondTwo | src/node_tdma_task.cpp:110-117 | A running RTC is touched if and only if the beacon is more than two seconds away on the circle. |
| ScheduleClock.UnsetClock | src/node_tdma_task.cpp:90-118 | A clock that was never set shows midnight, and the first beacon sets it to its own time. |
| ScheduleClock.NodeRtc.GetSec | src/node_tdma_task.h:48-51 | The RTC reading in wrapping arithmetic. |
| ScheduleClock.NodeRtc.SetTo | src/node_tdma_task.cpp:90-94 | Setting the RTC makes the given time the base at the current millis(). |
| ScheduleClock.GatewayClock.SetGatewayTime | src/gateway_state.h:99-105 | The same for the gateway clock. |
| ScheduleClock.GatewayClock.GetTimeSec | src/gateway_state.h:111-118 | The gateway reading in wrapping arithmetic; midnight while the clock was never set. |
| ScheduleClock.GatewayClock.GetHMS | src/gateway_state.h:121-126 | Hours, minutes and seconds recombine to the gateway's seconds since midnight and are a valid time of day. |
| ScheduleClock.NeverCorrectedWithoutDrift | src/node_tdma_task.cpp:101-118 | An RTC set from a beacon of a gateway clock with the same rate is not touched by any later beacon until the gateway's millis() has gone once round since its clock was set. |
| ScheduleClock.RightExactlyInCycle | src/gateway_state.h:111-118 | A clock that is never set again shows the right time if and only if the number of turns millis() has made since is a multiple of 84375. |
| RelayTrajectory.UntouchedExactlyIfClose | src/node_tdma_task.cpp:101-118 | Over any sequence of valid beacons and schedule evaluations the RTC is never touched if and only if each beacon is within two seconds of the free-running clock. |
| RelayTrajectory.FreeRunning | src/node_tdma_task.cpp:716-721 | Then the relay output of every evaluation, at a beacon or by the ten-second schedule task, is what the schedule says at the free-running time: for times of day, on exactly on the arc from start to end. |
| RelayTrajectory.AtBeacon | src/node_tdma_task.cpp:480-490 | At a beacon the schedule is evaluated on the corrected clock: whatever the RTC showed, the relay is where the schedule has it within two seconds of the gateway time. |
| RelayTrajectory.TwiceADay | src/node_tdma_task.cpp:126-153 | Then the relay switches at most 2d times in any d days of schedule mode in which millis(), counted from the setting of the RTC, makes no turn, and with k turns at most twice more for each day begun of the 25033 k seconds that the clock skips (2d + 2 for k up to 3); over all evaluations, for every schedule, malformed times included, and for a node that hears no beacon at all. |
| RelayTrajectory.FourInADay | src/node_tdma_task.cpp:126-153 | That bound is met: a window from 16:00 to 17:00, five schedule ticks within 24 hours around a turn of millis(), four switches. |

## Left out

- GhostUplinks.NoGhostUplinks: assumes distinct device UIDs and no gateway reboot; a new random epoch at a gateway boot and the epoch step of a key change (keyRegenTask) are not events of the model.
- Recovery.EveryoneRecovers: assumes that one join and its ack succeed in every superframe; how likely random backoff makes that is not modelled.
- EvictionCycle.EveryEvictionHeals: the remaining owners are taken to have been heard in the evicting superframe; an owner that is already counting misses has less time than the eight superframes.
- CrashLoss.CrashLosesFewPackets: speaks of runs in which the save queue never overflows, and of the two UIDs 0 and 0xFFFF, which the store refuses, it claims nothing.
- FramTask.Task.RestoreNode: one atomic step. The code holds the mutex twice, with the chip reads in between; packets accepted there are overwritten like those accepted before the message, and a rename or a change of device there is not modelled.
- DownlinkRuns.AckMeansApplied: nothing is claimed for a confirmation by state match, which can be satisfied by an older state of the node.
- Mailbox.Slot.SendDownlink: takes queued commands of at most seven bytes, which all callers of tdmaQueueCommand() keep to; an eight-byte command would not fit the transmit buffer.
- FramTask.SaveThenRestore: bytes behind the terminator of a label are not part of the claim, and nothing is claimed for history left in a block by its previous owner.
- LineRelay.Splitter.RelayChunk: the relay queue is unbounded; a full one drops lines.
- SlotTiming.UplinkInWindow: airtimes of 34 and 16 ms are taken as given, and PHASE_GUARD_US is part of the lateness.
- PacketCrypto.CounterBlocksDistinct: key generation and storage are not modelled; contenders in one superframe share a nonce by design.
- LateSaves.EvictionFiledExactly: packets and clearings of the evicted slot before the save change the total itself and are kept out; so is a full queue, which drops the save.
- RingSafety.RingSafeExactly: after a write outside the ring nothing is claimed about the run.
- RelayTrajectory.TwiceADay: the schedule stays the same over the stretch of time; what a new command does is in RelayNode.
- Network.StepShaped: a radio reception is decoded or not; capture, signal strength and partial frames are not modelled.
- A missing FRAM chip and a queue that was never created: persistence is taken to be up.
- Mutex timeouts: every acquisition succeeds, so the paths on which a timed-out lock makes framTask() reuse its snapshot buffer are outside the model.
- The floats of readings and history points: history keeps their bit patterns, the scaling to wire units is not modelled.
- framSaveEnergy() and framSaveHistory(): they have no callers and write the same fields as the queued saves.
- Default labels ("Node 3"), lastSeen, RSSI and the telemetry snapshot kept for display.
- What an eviction does to queued commands and history of the slot: they stay for the next owner until a restore, so nothing is claimed for them.
- Web handlers, JSON, WebSocket, captive portal, RFID provisioning, LEDs, buttons, PZEM Modbus, NVS and the Wi-Fi state machine.
