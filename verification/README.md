# Smart Agriculture Edge AI: protocol model and proofs

This project models the parts of the system that carry its safety claims, from the sensor node B1 over
the two gateways A1 and A2 to the controllers C1/C2 and the cloud, and proves what they keep over whole
runs. Losses, repetitions, reordering, crashes and durable saves that fail after an unknown commit are
inputs of the model: a save ends as `Committed`, `LostUnapplied` (it failed and had no effect) or
`LostApplied` (it failed after its effect). Every safety theorem holds for every choice of them; the
progress theorems say what follows, from every reachable state, once nothing fails any more.

Where the source works step by step, a class or an array method carries the algorithm and is proved
against a function on values; the lemmas are about that function, over all inputs or all runs.

| files | subject |
|---|---|
| `bytes`, `crc32`, `hex_text`, `wrappers` | words on the wire, CRC-32 (section 8 of RFC 1952), hexadecimal text, optional values and save outcomes |
| `lora_frame`, `lora_routes`, `wire_layout`, `lora_stream`, `lora_resync`, `bitmask`, `reassembler`, `lora_receiver`, `reassembly_theorems`, `reassembly_complete` | LoRa frames, the UART parser, and the two reassemblers |
| `b1_record`, `b1_checkpoint`, `b1_outbox`, `b1_pacing`, `b1_windows`, `b1_store`, `b1_progress` | the outbox of B1, its byte checkpoint, its pacing, its crash safety and its progress |
| `boot_lease`, `snapshot_walk`, `b1_snapshot` | boot counters and the deep-sleep snapshot |
| `trust_reference`, `least_squares`, `trust_verdicts`, `sensor_trust` | the five-fault detector as a list program and as a ring buffer, and what its verdicts mean for a stream |
| `recent_commands`, `command_window`, `safety_guard`, `controller`, `controller_theorems`, `controller_cooldown`, `controller_progress`, `controller_lockout`, `state_store` | command admission at a controller and the host checkpoints |
| `gateway_ownership`, `gateway_theorems`, `gateway_agreement` | the two-gateway ownership protocol |
| `offline_queue`, `control_freshness`, `cloud`, `conservation`, `conservation_contents`, `chain_progress` | store and forward from B1 to the cloud |

## Main results

- **At-most-once actuation.** No command id moves an actuator twice, although the window of remembered
  commands evicts: an evicted id is past its time to live, so the freshness check refuses it
  (`ControllerTheorems.AtMostOnce`). Outcomes stay until confirmed (`OutcomesAreKept`). The condition
  that the time to live is positive is the one `common/settings.py:29` enforces.
- **Rest and limits.** Over every run an actuator moves only for a fresh command within its limits, a full
  cooldown after the last movement of its kind in the same boot and after a start with an epoch on record
  (`ControllerCooldown.ActuatorsRest`, `FullRestBetween`). An idle controller with working storage moves
  exactly when all requirements hold and the window has its places (`ControllerProgress.MovesExactly`),
  and any other command is answered (`RefusedIsAnswered`).
- **Epoch fence.** Admitted epochs never decrease, one gateway per epoch, and the durable epoch covers
  them all (`ControllerTheorems.EpochFence`).
- **Gateway exclusion.** From every reachable state an exchange of current heartbeats leaves no node that
  both gateways may control, whichever saves fail during it, and this lasts under any old messages until
  a timeout or a restart (`GatewayTheorems.ExchangeEndsDualControl`). Both registries then agree on every
  claimed node, except exactly those both had claimed at one epoch (`GatewayAgreement.RegistriesAgree`).
- **Conservation.** Every message of an admitted record of high importance is in B1's flash, in a gateway
  outbox or in the cloud, which holds at most one row of it (`Conservation.NothingIsLost`), and what is
  kept has the contents that were offered (`ConservationContents.ContentsAreKept`).
- **Progress.** From every reachable state of the chain, whatever was lost or failed before, a continuation
  without failures empties B1 and both gateways into the cloud (`ChainProgress.EverythingArrives`).
- **B1 crash safety and pacing.** `B1Store.AdmittedRecordsSurvive`, `B1Pacing.OneInFlight`,
  `RapidThenProbes`, `EightyPerMinute`.
- **LoRa.** Canonical codec, rejection of damage, a lossless resynchronising parser, and reassembly that
  is sound and complete; the firmware's four slots with a 64-bit mask simulate the dictionary and set.
- **Sensor trust.** The slope of the drift detector is that of the one line with the least sum of squared
  errors (`LeastSquares.SlopeFits`); RANGE, MISSING and STUCK mean a property of the stream, and on a steady
  trend DRIFT comes exactly when it is steeper than the threshold for long enough
  (`TrustVerdicts.LineDriftsExactly`).
- **Snapshots, boot counters, trust, freshness.** `B1Snapshot.SnapshotIsCanonical`, `RestoresExactly`,
  `BootLease.CountersNeverRepeat`, `SensorTrustRing.SensorTrust.Update`, `ControlFreshness.DecisionsIncrease`.

Some properties hold under a condition, which is proved exact. A restart of a controller with working
storage accepts commands if and only if the saved owner is a known gateway and the result window has a
free place for each interrupted command without a pending result (`ControllerTheorems.RestartSucceeds`);
`ControllerLockout.FullWindowLocksOut` is a run of a controller that ends without that place. A sample
counts as newest if and only if it comes after every receipt of its own boot, alerts included, and no
receipt of another boot shadows it (`ControlFreshness.FreshExactly`). Whether another boot can have a
receipt in the range is a test on the two boot names (`OverlapIsExact`); without such a name in the
ledger, counting as newest is being newest (`FreshMeansNewest`), and a shadowing receipt errs on the safe
side. At every boot that is offered a saved lease the counters go on increasing if and only if it is not a
stale lease of the newest block, and the single-use snapshot of the firmware never is one (`BootLease.StaleLeaseRepeats`, `DisciplineSuffices`).
The rate limit of the outbox holds in every run in which no acknowledgement empties it while its
communication window is open (`B1Pacing.EightyPerMinute`). After one that does, the code has closed the
window without a pause, and as long as order numbers are left some continuation puts eighty-one attempts
at one instant (`EmptyingLiftsTheLimit`); the comment at `firmware/b1/main/b1_outbox.h:54-56` promises
the limit without that exception. The exclusion of the gateways needs the exchange: cut off from each other both take over all nodes
(`GatewayTheorems.PartitionGivesTwo`), and only the fence at the controllers stands between them.

## Model

| member | source | states |
|---|---|---|
| Crc32.AlCrc32 | firmware/b1/components/agri_lora/agri_lora.c:22-30 | the two nested loops compute the CRC-32 of the n bytes |
| Crc32.StepsInjective | firmware/b1/components/agri_lora/agri_lora.c:26-28 | the bit step of the CRC loses no information |
| Crc32.BurstChangesCrc | firmware/b1/components/agri_lora/agri_lora.c:22-30 | replacing up to four consecutive bytes always changes the checksum |
| Crc32.CheckValue | firmware/b1/components/agri_lora/agri_lora.c:22-30 | the catalogued check value: the string "123456789" gives cbf43926 |
| LoraFrame.CodecIsCanonical | firmware/b1/components/agri_lora/agri_lora.c:60-115 | decoding yields a frame if and only if the bytes are the encoding of that valid frame, both round trips |
| LoraFrame.BurstRejected | firmware/b1/components/agri_lora/agri_lora.c:60-87 | damage within four consecutive bytes inside or outside the frame checksum is rejected |
| LoraFrame.SingleByteRejected | firmware/b1/components/agri_lora/agri_lora.c:60-87 | changing any one byte of an accepted frame, of any length, makes it rejected |
| LoraRoutes.ZoneIsRoute | common/lora/codec.py:34-47 | the numbers of the C route table say what the names of the Python table say, for all roles and kinds |
| LoraRoutes.ValidIsRouted | firmware/b1/components/agri_lora/agri_lora.c:47-50 | a valid frame travels on a permitted link and names its zone |
| WireLayout.FrameLayout | common/lora/codec.py:78-85 | every field of a frame at its byte position, least significant byte first |
| LoraFrame.StartsInside | firmware/b1/components/agri_lora/agri_lora.c:51-57 | indices below the count are exactly those whose fragment starts inside the message |
| LoraFrame.AlDecode | firmware/b1/components/agri_lora/agri_lora.c:60-87 | the C decoder accepts exactly the wires the codec accepts, with the same frame |
| LoraFrame.AlEncode | firmware/b1/components/agri_lora/agri_lora.c:88-115 | what is written decodes to the frame; otherwise the buffer is untouched |
| LoraFrame.AlFragment | firmware/b1/components/agri_lora/agri_lora.c:116-135 | the requested slice is written as a frame that decodes to it, or nothing is written |
| LoraStream.Stream.Byte | firmware/b1/components/agri_lora/agri_lora.c:221-260 | one byte is fed as the parser function says; the overflow branch is never taken |
| LoraStream.Stream.Expire | firmware/b1/components/agri_lora/agri_lora.c:2-6 | an idle or backward clock empties the buffer and counts one rejection |
| LoraStream.FeedRests | firmware/b1/components/agri_lora/agri_lora.c:225-259 | after every byte the buffer is below one maximum frame, so nothing is dropped for lack of room |
| LoraStream.FeedAllConserves | firmware/b1/components/agri_lora/agri_lora.c:221-260 | input so far is the in-order concatenation of skipped bytes, emitted frames and the buffer |
| LoraStream.EmittedFramesDecode | firmware/b1/components/agri_lora/agri_lora.c:245-257 | every emitted frame is one the decoder accepts |
| LoraStream.FeedAllRefinesScan | firmware/b1/components/agri_lora/agri_lora.c:221-260 | the byte-wise parser finds what a greedy scan of the whole input finds, up to what is still buffered |
| LoraStream.FewFramesPending | firmware/b1/components/agri_lora/agri_lora.c:230-259 | at most two frames are still buffered at any time |
| LoraStream.FramesComeOut | firmware/b1/components/agri_lora/agri_lora.c:221-260 | a concatenation of valid frames comes out frame by frame and leaves an empty buffer |
| LoraResync.FrameBehindDamage | firmware/b1/components/agri_lora/agri_lora.c:230-259 | behind any bytes in which no frame can start a valid frame comes out, and nothing else |
| LoraResync.FrameBehindDamagedFrame | firmware/b1/components/agri_lora/agri_lora.c:245-257 | a valid frame right behind a damaged one is not lost |
| Bitmask.SetBit | firmware/b1/components/agri_lora/agri_lora.c:194-204 | setting and testing a bit of the mask are insertion and membership |
| Bitmask.FullMask | firmware/b1/components/agri_lora/agri_lora.c:206-208 | the comparison with the full mask, 64 fragments included, is completeness of the index set |
| Reassembler.Receiver.Expire | common/lora/reassembly.py:16-23 | exactly the slots past their deadline go and are counted; a clock going back abandons all |
| Reassembler.Receiver.Feed | common/lora/reassembly.py:25-55 | expiry, session table, capacity, quarantine, storage and completion of one wire |
| Reassembler.FeedWireKeeps | common/lora/reassembly.py:25-56 | every slot keeps a buffer and an index set that fit its metadata |
| LoraReceiver.Receiver.AlReceive | firmware/b1/components/agri_lora/agri_lora.c:148-220 | return value, output, slots and counters of the C receiver, quarantine and rejection included |
| LoraReceiver.Comparisons | firmware/b1/components/agri_lora/agri_lora.c:137-147 | the field comparisons are equality of the Python key and metadata |
| LoraReceiver.AbsOfTimeout | firmware/b1/components/agri_lora/agri_lora.c:158-162 | expiring slots is expiring dictionary entries |
| LoraReceiver.PickedSlot | firmware/b1/components/agri_lora/agri_lora.c:168-187 | the slot chosen is the dictionary entry of the key, free slots run out exactly at capacity |
| LoraReceiver.ReceiveSimulates | firmware/b1/components/agri_lora/agri_lora.c:148-220 | one wire: same answer, same partial messages, at most one active slot a key |
| LoraReceiver.RunsAgree | common/lora/reassembly.py:25-56 | over arbitrary wires and a clock that does not go back both receivers answer alike for ever |
| ReassemblyTheorems.CompletedBytesWereHeard | common/lora/reassembly.py:25-56 | all bytes of a completed message come from accepted fragments with exactly its metadata |
| ReassemblyTheorems.QuarantineHolds | common/lora/reassembly.py:38-46 | a quarantined slot rejects every fragment of its key until its deadline |
| ReassemblyTheorems.SessionTable | common/lora/reassembly.py:28-30 | exactly the fragments of a listed source in another session are turned away, and they change no partial message |
| ReassemblyTheorems.FirmwareBytesWereHeard | firmware/b1/components/agri_lora/agri_lora.c:193-219 | the same soundness for every run of the firmware receiver |
| ReassemblyTheorems.FirmwareQuarantineHolds | firmware/b1/components/agri_lora/agri_lora.c:188-200 | a quarantined firmware slot answers -1 for its key until its deadline |
| ReassemblyComplete.HonestRunsGather | common/lora/reassembly.py:25-56 | fragments of up to four messages in any order with any repetition are answered as an index-set reference says |
| ReassemblyComplete.FirstCompletion | common/lora/reassembly.py:25-56 | a fragment before its message's own deadline, whatever the other messages do: incomplete until its index set is first full, then the original bytes |
| ReassemblyComplete.FirmwareFirstCompletion | firmware/b1/components/agri_lora/agri_lora.c:148-220 | the same for the firmware's four slots and its bit mask |
| HexText.HexOrder | gateway/sensor_delivery.py:22-24 | numeric order of numbers is lexicographic order of their fixed-width digits |
| B1Record.SampleIdInjective | firmware/b1/main/b1_outbox.c:35-38 | a sample identity determines its boot and its sequence |
| B1Record.SealIsIdempotent | firmware/b1/main/b1_outbox.c:7-38 | a valid record is its own seal |
| B1Checkpoint.CheckpointIsCanonical | firmware/b1/main/b1_checkpoint.c:22-82 | version 2: a blob decodes to a record if and only if it is the encoding of that record |
| B1Checkpoint.DamageRejected | firmware/b1/main/b1_checkpoint.c:48-67 | changing one byte behind the magic of an accepted blob makes it rejected |
| WireLayout.CheckpointLayout | firmware/b1/main/b1_checkpoint.c:30-46 | every field of a checkpoint at its byte position |
| B1Checkpoint.CheckpointCrc | firmware/b1/main/b1_checkpoint.c:13-21 | the loop computes the CRC-32 with the four checksum bytes taken as zero |
| B1Checkpoint.B1CheckpointEncode | firmware/b1/main/b1_checkpoint.c:22-47 | what is written decodes to the record; otherwise nothing is written |
| B1Checkpoint.B1CheckpointDecode | firmware/b1/main/b1_checkpoint.c:48-82 | the C decoder accepts exactly the version-2 blobs of the codec |
| B1Outbox.Deadline | firmware/b1/main/b1_retry.h:11-13 | saturates and never lies before its start |
| B1Outbox.Best | firmware/b1/main/b1_outbox.c:124-132 | the least order among the due entries, or that none is due |
| B1Outbox.B1OutboxQueue.RestoreSlot | firmware/b1/main/b1_outbox.c:54-64 | a valid record with new order and sample takes the slot; anything else changes nothing |
| B1Outbox.B1OutboxQueue.AdmitRecord | firmware/b1/main/b1_outbox.c:66-95 | refusals, numbering, quarantine after an uncertain save |
| B1Outbox.B1OutboxQueue.TickTo | firmware/b1/main/b1_outbox.c:97-118 | time-outs, backoff, probing and closing of the window |
| B1Outbox.B1OutboxQueue.NextSlot | firmware/b1/main/b1_outbox.c:120-151 | the entry to transmit, window and attempt accounting |
| B1Outbox.B1OutboxQueue.AckMessage | firmware/b1/main/b1_outbox.c:153-175 | the two acknowledgement bits, deletion only when complete and removed |
| B1Pacing.RunKeeps | firmware/b1/main/b1_outbox.c:97-175 | the pacing invariant holds in every run of a boot |
| B1Pacing.OneInFlight | firmware/b1/main/b1_outbox.c:120-151 | at most one record in flight, only in an open window, its deadline inside the window |
| B1Pacing.RapidThenProbes | firmware/b1/main/b1_outbox.c:106-118 | at most five rapid attempts a boot; each probe a minute after any earlier attempt of its record |
| B1Pacing.EightyPerMinute | firmware/b1/main/b1_outbox.c:133-151 | two attempts less than a minute apart have fewer than eighty between them, unless an acknowledgement emptied the outbox in an open window |
| B1Windows.WindowsAndPauses | firmware/b1/main/b1_outbox.h:54-55 | under the same condition two attempts are less than thirty seconds or at least a minute apart |
| B1Pacing.EmptyingLiftsTheLimit | firmware/b1/main/b1_outbox.c:171 | the converse: after any reachable acknowledgement that empties the outbox in an open window, with order numbers left, some continuation breaks the limit |
| B1Progress.SilentPeer | firmware/b1/main/b1_outbox.c:106-116 | to a silent peer: five attempts after 1, 2, 4 and 8 seconds, then probes after 1, 2, 4, 8 and every 15 minutes |
| B1Progress.PlacesForHigh | firmware/b1/main/b1_outbox.c:72-85 | over every run with crashes four places stay for records of high importance |
| B1Progress.OldestIsSent | firmware/b1/main/b1_outbox.c:120-151 | with records waiting a later poll sends the oldest, whatever went unanswered |
| B1Progress.SlotBecomesFree | firmware/b1/main/b1_outbox.c:153-175 | after both acknowledgements of a transmitted record its slot and its flash are free and no other slot changed |
| B1Store.BackendLoad | firmware/b1/main/b1_store_backend.c:20-35 | slots are restored in order; the first unreadable, undecodable or clashing one ends the load |
| B1Store.ReloadSucceeds | firmware/b1/main/b1_store_backend.c:20-35 | whatever a crash leaves, a reload without read errors succeeds and restores every owed record with content and order |
| B1Store.ReloadBoots | firmware/b1/main/b1_store_backend.c:20-35 | a reloaded outbox is one the pacing results start from |
| B1Store.CrashKeeps | firmware/b1/main/b1_outbox.c:54-95 | the crash-safety invariant survives any crash |
| B1Store.AdmittedRecordsSurvive | firmware/b1/main/b1_outbox.c:66-95 | over every run an admitted record without its acknowledgements is in the outbox and in any reload |
| B1Store.LoadFailsOnlyUnread | firmware/b1/main/b1_store_backend.c:27-33 | a load fails only on a slot it could not read |
| BootLease.SleepIdentity.BootLeaseTake | firmware/b1/main/b1_snapshot.c:7-21 | when the lease continues, when a block is reserved, when there is none left |
| BootLease.SleepIdentity.SleepBootIdentity | firmware/b1/main/b1_storage.c:69-78 | a counter is used only when its block is committed |
| BootLease.TakeAdvances | firmware/b1/main/b1_snapshot.c:12-20 | a counter taken is positive, inside its lease, above the stored one for a new block |
| BootLease.CountersNeverRepeat | firmware/b1/main/b1_deep_sleep.c:88-124 | over every run of boots, sleeps, resets and uncertain commits, with lost snapshots and snapshots of older blocks, the counters used strictly increase |
| BootLease.StaleLeaseRepeats | firmware/b1/main/b1_snapshot.c:7-21 | a boot offered any lease ever saved keeps the counters increasing if and only if the lease is not a stale one of the newest block; a stale one repeats a counter |
| BootLease.DisciplineSuffices | firmware/b1/main/b1_deep_sleep.c:88-124 | a snapshot that is used once, by the wake that ends its sleep, is never stale |
| BootLease.SamplesOfBootsDiffer | firmware/b1/main/b1_storage.c:77 | boots with different counters give their samples different identities |
| SnapshotWalk.Cursor.Word | firmware/b1/main/b1_snapshot.c:32-46 | one word read or written at the cursor; a failure is kept and moves nothing |
| SnapshotWalk.Cursor.Walk | firmware/b1/main/b1_snapshot.c:47-89 | the same calls write the fields or read them, and succeed exactly when all fit and pass |
| SnapshotWalk.ReadOfWritten | firmware/b1/main/b1_snapshot.c:32-89 | fields written are read back, whatever follows |
| SnapshotWalk.WrittenOfRead | firmware/b1/main/b1_snapshot.c:32-89 | fields read are written back as the same bytes |
| B1Snapshot.SnapshotSize | firmware/b1/main/b1_snapshot.c:151-282 | the walk has 951 fields and a snapshot 5070 bytes, inside the RTC buffer |
| B1Snapshot.SnapshotIsCanonical | firmware/b1/main/b1_snapshot.c:321-391 | a snapshot is accepted as an image if and only if it is the encoding of that image |
| B1Snapshot.EncodedRestores | firmware/b1/main/b1_snapshot.c:321-391 | an encoded policy restores under trusted time to itself at saved plus elapsed time |
| B1Snapshot.AcceptedIsExact | firmware/b1/main/b1_snapshot.c:367-371 | accepted input is consumed to its last byte and meets the minimum epoch |
| B1Snapshot.RestoresExactly | firmware/b1/main/b1_snapshot.c:367-386 | exactly when an encoding restores, and to what: everything under trusted time; identity, threshold and margin, all else as after a first start and clock 0, without it |
| B1Snapshot.UntrustedForgets | firmware/b1/main/b1_snapshot.c:373-381 | without trusted time snapshots with equal identity, threshold and margin restore to the same image |
| B1Snapshot.OnlyEncodingsRestore | firmware/b1/main/b1_snapshot.c:348-372 | nothing but the encoding of an image of this profile restores |
| B1Snapshot.TrustIsPast | firmware/b1/main/b1_snapshot.c:151-294 | no point of a restored trust window lies in the future and its ring is in order |
| B1Snapshot.HistoryIsPast | firmware/b1/main/b1_snapshot.c:284-305 | no entry of a restored detector history lies in the future and the entries are in order |
| B1Snapshot.ReportIsPast | firmware/b1/main/b1_snapshot.c:284-309 | no other restored time lies in the future; lease and sleep are possible ones |
| B1Snapshot.FieldsFit | firmware/b1/main/b1_snapshot.c:47-89 | no restored float is infinite or no number, and every other field is within its range |
| B1Snapshot.LaddersFit | firmware/b1/main/b1_snapshot.c:238-246 | every restored ladder position and rung count is one the profile has |
| B1Snapshot.SleepState.EncodeTo | firmware/b1/main/b1_snapshot.c:321-347 | the snapshot in the buffer is the encoding, the state is unchanged |
| B1Snapshot.SleepState.RestoreFrom | firmware/b1/main/b1_snapshot.c:348-391 | state, clock and result of a restore; a rejection leaves policy and identity unchanged |
| TrustReference.VariancePositive | sensor_node/sensor_trust.py:104-106 | the denominator of the slope is never zero |
| TrustReference.StuckMeans | sensor_node/sensor_trust.py:96-99 | STUCK exactly when no two values of the window are stuck_epsilon apart |
| TrustReference.AnyFaultShows | sensor_node/sensor_trust.py:116-117 | healthy exactly without a fault; RANGE or MISSING always means FAULT |
| TrustReference.DriftNeedsAgreement | sensor_node/sensor_trust.py:100-114 | DRIFT only after drift_window valid samples in a row whose trends point one way |
| LeastSquares.SlopeFits | sensor_node/sensor_trust.py:100-106 | the slope belongs to the line with the least sum of squared errors, and to no line of another slope |
| LeastSquares.LineHasItsSlope | sensor_node/sensor_trust.py:100-106 | points on a line have the slope of that line |
| LeastSquares.OffsetKeepsSlope | sensor_node/sensor_trust.py:100-106 | an offset of all values does not change the slope |
| TrustVerdicts.StateMeans | sensor_node/sensor_trust.py:116-117 | which faults, alone or together, degrade a channel and which take it out |
| TrustVerdicts.ScoreMeans | sensor_node/sensor_trust.py:59-117 | the score of each fault; every further one lowers it, down to zero |
| TrustVerdicts.RangeMeans | sensor_node/sensor_trust.py:86-87 | RANGE exactly when the newest value is usable and outside the limits |
| TrustVerdicts.MissingMeans | sensor_node/sensor_trust.py:79-85 | MISSING exactly when the newest missing_limit samples were unusable |
| TrustVerdicts.WindowMeans | sensor_node/sensor_trust.py:66-95 | the window holds the newest usable readings in order |
| TrustVerdicts.StuckIsClose | sensor_node/sensor_trust.py:96-99 | STUCK exactly when the newest stuck_window readings lie closer together than the epsilon |
| TrustVerdicts.LineDriftsExactly | sensor_node/sensor_trust.py:100-114 | on a steady trend DRIFT exactly when it is steeper than the threshold and two drift windows less one sample were seen |
| TrustVerdicts.QuietHasNoSpikes | sensor_node/sensor_trust.py:88-94 | no SPIKE while neighbouring readings are close |
| TrustVerdicts.JumpAndAfter | sensor_node/sensor_trust.py:88-94 | a jump and the return from it are SPIKEs, a value that stays at the new level is none |
| TrustReference.ChannelTrust.Update | sensor_node/sensor_trust.py:75-118 | one sample of the list-based detector: history, streak, flags, score and state |
| SensorTrustRing.PushIsListPush | firmware/b1/components/sensor_trust/sensor_trust.c:41-60 | a push into the ring is a push to the bounded list |
| SensorTrustRing.NormalisedFit | firmware/b1/components/sensor_trust/sensor_trust.c:120-147 | fitting over the normalised span and rescaling is the least-squares slope per second |
| SensorTrustRing.SensorTrust.SlopePerSecond | firmware/b1/components/sensor_trust/sensor_trust.c:92-147 | the loops compute the reference slope over the reals |
| SensorTrustRing.SensorTrust.WindowPush | firmware/b1/components/sensor_trust/sensor_trust.c:41-60 | the stored points change as the reference window does |
| SensorTrustRing.SensorTrust.Detect | firmware/b1/components/sensor_trust/sensor_trust.c:288-372 | same flags and same history as the reference for a valid sample |
| SensorTrustRing.SensorTrust.Update | firmware/b1/components/sensor_trust/sensor_trust.c:375-416 | flags, score, state and history of the ring buffer equal the reference; an invalid configuration only reports FAULT |
| RecentCommands.TrimIsOnePass | controller_node/recent_commands.py:78-83 | the eviction loop drops exactly the oldest evictable rows needed, and fails when too few may go |
| RecentCommands.TrimKeeps | controller_node/recent_commands.py:78-83 | only completed, confirmed and expired rows are evicted; the rest stays within capacity |
| RecentCommands.RecentCommandStore.Validate | controller_node/recent_commands.py:44-76 | a checkpoint of either version is accepted exactly when window, rows and pending results are well formed |
| RecentCommands.RecentCommandStore.Load | controller_node/recent_commands.py:25-41 | what a start has in memory and on disk, migrated rows of old checkpoints included, or that it fails |
| RecentCommands.RecentCommandStore.Migrate | controller_node/recent_commands.py:32-38 | every row without a deadline gets one, the others are kept |
| RecentCommands.RecentCommandStore.TrimRows | controller_node/recent_commands.py:78-83 | the loop evicts as the recursive form does |
| RecentCommands.RecentCommandStore.Begin | controller_node/recent_commands.py:90-104 | the intent is durable before it is in memory; backpressure and errors change nothing |
| RecentCommands.RecentCommandStore.Complete | controller_node/recent_commands.py:106-112 | outcome and pending result change together |
| RecentCommands.RecentCommandStore.QueueResult | controller_node/recent_commands.py:125-134 | a result is queued once; a conflict or a full window changes nothing |
| RecentCommands.RecentCommandStore.AcknowledgeResult | controller_node/recent_commands.py:136-142 | exactly the acknowledged identity goes |
| CommandWindow.SoundValidates | controller_node/recent_commands.py:44-76 | every window the controller keeps passes the restore validator |
| CommandWindow.EvictedIsConfirmed | controller_node/recent_commands.py:78-83 | an evicted command was confirmed and no pending result stands on it |
| CommandWindow.BegunGood | controller_node/recent_commands.py:90-104 | after a begin every admitted id has its row or is out of time and confirmed |
| CommandWindow.ResultMessageFits | controller_node/controller_node.py:393-408 | the message chosen for a result never conflicts with a queued one |
| CommandWindow.QueuedGood | controller_node/recent_commands.py:114-134 | queueing a chosen message meets no identity conflict and keeps the window sound |
| CommandWindow.FinishedGood | controller_node/recent_commands.py:106-112 | completion finds its row and its reserved place and keeps the window sound |
| SafetyGuards.Refusal | controller_node/safety_guard.py:130-166 | no reason exactly when every single requirement holds, whatever the order of the checks |
| SafetyGuards.SafetyGuard.constructor | controller_node/safety_guard.py:63-84 | a start adopts the durable epoch and a full cooldown, or refuses everything |
| SafetyGuards.SafetyGuard.Check | controller_node/safety_guard.py:109-166 | the decision chain gives the first failing requirement |
| SafetyGuards.SafetyGuard.SetOwnership | controller_node/safety_guard.py:88-105 | no older epoch, no second owner of an epoch, durable before adopted |
| SafetyGuards.SafetyGuard.Commit | controller_node/safety_guard.py:168-185 | what an execution adds to ids, cooldown, epoch and owner |
| Controller.ControllerNode.constructor | controller_node/controller_node.py:85-99 | a start restores both checkpoints and recovers interrupted commands |
| Controller.ControllerNode.Deliver | controller_node/controller_node.py:246-373 | check, durable epoch, durable intent and admission, or the reply to a refusal |
| Controller.ControllerNode.End | controller_node/controller_node.py:304-373 | commit, durable outcome and queued result after an execution |
| Controller.ControllerNode.Recover | controller_node/controller_node.py:410-424 | every interrupted command without a pending result is reported UNKNOWN, until a save fails |
| Controller.ControllerNode.AdoptOwnership | controller_node/controller_node.py:231-238 | ownership goes through set_ownership when source, target, owner and epoch of the message fit, else nothing changes |
| Controller.ControllerNode.AcceptResultAck | controller_node/controller_node.py:426-437 | a result leaves the window when every field of the acknowledgement fits, else nothing changes |
| ControllerTheorems.NeverAgain | controller_node/safety_guard.py:138-153 | an id the window no longer knows but that is in time was never admitted |
| ControllerTheorems.CompletionNeverRefused | controller_node/recent_commands.py:94-96 | the place reserved at admission makes completion fail only with its save |
| ControllerTheorems.RecordedKeeps | controller_node/safety_guard.py:168-185 | commit never changes the fence of an epoch-bearing command, even after ownership moved |
| ControllerTheorems.AtMostOnce | controller_node/controller_node.py:269-329 | no command id actuates twice in any run with crashes, uncertain saves and evictions |
| ControllerTheorems.EpochFence | controller_node/safety_guard.py:142-151 | admitted epochs never decrease, one gateway an epoch, durable epoch at least each of them |
| ControllerTheorems.OutcomesAreKept | controller_node/recent_commands.py:78-112 | in memory and on disk no admitted command is forgotten before it is out of time and confirmed |
| ControllerTheorems.DurableEpochAdvances | controller_node/safety_guard.py:88-105 | the durable epoch never decreases nor changes hands within an epoch |
| ControllerTheorems.RecoverySucceeds | controller_node/controller_node.py:410-424 | recovery succeeds if and only if the result window has room for the unreported intents |
| ControllerTheorems.RestartSucceeds | controller_node/controller_node.py:85-99 | a restart of any reachable controller accepts commands if and only if the saved owner is known and the saved window has room for the unreported intents |
| ControllerCooldown.ActuatorsRest | controller_node/safety_guard.py:160-179 | over every run each movement is fresh, within its limits, and a full cooldown after every earlier movement of its kind in the boot and after a start with an epoch on record |
| ControllerCooldown.FullRestBetween | controller_node/safety_guard.py:75-82 | between two movements of a kind, the first by a command with an epoch, a full cooldown passes after the end of the first or after a start since |
| ControllerCooldown.NoRecordNoRest | controller_node/safety_guard.py:75-82 | without a record a start demands no rest |
| ControllerProgress.MovesExactly | controller_node/controller_node.py:269-304 | in every reachable state an idle controller with working storage moves if and only if every requirement holds and the window has its places |
| ControllerProgress.RefusedIsAnswered | controller_node/controller_node.py:331-373 | a command that does not move is answered by a rejection or its earlier outcome, unless the window is full |
| ControllerProgress.RetryGetsOutcome | controller_node/controller_node.py:355-364 | a fresh and entitled retry gets the original outcome again |
| ControllerProgress.ConfirmedLeaves | controller_node/recent_commands.py:136-142 | a confirmed result leaves memory and disk and nothing else changes |
| ControllerProgress.LoadedIsSafe | controller_node/recent_commands.py:25-76 | whatever the checkpoint holds, a loaded window has one row an id, deadlines, and fits the capacity |
| ControllerProgress.LegacyRowKept | controller_node/recent_commands.py:34-38 | a row of an old checkpoint is kept for a full time to live |
| ControllerProgress.GuardStartsSafe | controller_node/safety_guard.py:63-84 | whatever the record holds, a guard starts with an epoch and a known owner or refuses |
| ControllerProgress.RestartReports | controller_node/controller_node.py:410-424 | a start that leaves the controller open has reported every interrupted command as unknown |
| ControllerLockout.FullWindowLocksOut | controller_node/controller_node.py:410-424 | an orderly run with working storage ends in a restarted controller that refuses all commands |
| StateStore.Store.SaveRaw | common/state_store.py:44-53 | both slots after a save, a damaged current slot never becomes the previous one |
| StateStore.Store.LoadRaw | common/state_store.py:27-42 | the candidate loop: current slot, previous slot only when allowed, else failure |
| StateStore.NeverStale | common/state_store.py:27-53 | a load that may not use the previous slot finds the last effective checkpoint or fails |
| StateStore.SavedIsLoaded | common/state_store.py:27-53 | a saved checkpoint is loaded exactly when it validates; saving it again changes nothing |
| StateStore.PreviousRescues | common/state_store.py:27-53 | after damage to the newer of two checkpoints a load that may finds the older, also after further saves over damage |
| GatewayOwnership.OwnershipManager.Takeover | gateway/ownership.py:64-76 | the peer's nodes at an epoch above both known ones |
| GatewayOwnership.OwnershipManager.ObservePeer | gateway/ownership.py:88-106 | a newer peer epoch demotes unless the peer is reported offline; nothing promotes |
| GatewayOwnership.OwnershipManager.Transfer | gateway/registry.py:102-112 | exactly the named nodes move |
| GatewayOwnership.GatewayNode.constructor | gateway/gateway.py:192-225 | a start waits in STANDBY for evidence, or persists its first claim, or refuses |
| GatewayOwnership.GatewayNode.Persist | gateway/gateway.py:227-239 | a failed save demotes the gateway for good |
| GatewayOwnership.GatewayNode.OnPeerHeartbeat | gateway/gateway.py:495-554 | validation, merge, conflict, recovery and save of one heartbeat |
| GatewayOwnership.GatewayNode.TakeOver | gateway/gateway.py:1228-1257 | all nodes at one new epoch, unless the peer is already fenced |
| GatewayOwnership.AllMoved | gateway/gateway.py:1243-1253 | moving the peer's nodes and renewing the own ones puts every node at the new epoch |
| GatewayTheorems.ReachableGateways | gateway/gateway.py:192-239 | pairs equal, own rows at the own epoch, checkpoints pass the validator, no epoch known or announced above the durable one |
| GatewayTheorems.EpochsNeverDecrease | gateway/gateway.py:518-545 | within an incarnation row epochs and the durable epoch never decrease |
| GatewayTheorems.StepKeeps | gateway/gateway.py:495-554 | every step of either gateway keeps the system invariant |
| GatewayTheorems.CurrentClaimAccepted | gateway/gateway.py:495-515 | the current heartbeat of a gateway is never rejected |
| GatewayTheorems.StepsBack | gateway/gateway.py:527-538 | a newer epoch or an active claim to an owned node at the own epoch demotes |
| GatewayTheorems.ExchangeExcludes | gateway/gateway.py:495-554 | after both current heartbeats were heard, or the first save failed, no node may be controlled by both and no message changes that |
| GatewayTheorems.MessagesNeverGrant | gateway/ownership.py:82-106 | outside recovery no message gives control of a node |
| GatewayTheorems.ExclusionLasts | gateway/ownership.py:82-106 | exclusion lasts under any old messages until a timeout or a restart |
| GatewayTheorems.ExchangeEndsDualControl | gateway/gateway.py:495-554 | from any reachable state, after an exchange and any sends and deliveries, late or repeated, no node is controlled by both |
| GatewayTheorems.PartitionGivesTwo | gateway/ownership.py:11-14 | two gateways that never hear each other may both control every node |
| GatewayAgreement.HeardRows | gateway/gateway.py:518-526 | an accepted newer claim replaces the known row, and no other row changes |
| GatewayAgreement.ActsAfterHearing | gateway/gateway.py:527-545 | exactly when a gateway acts after a heartbeat, recovery after a restart included |
| GatewayAgreement.RestartRestores | gateway/gateway.py:192-239 | a restart goes on with the rows, epochs and role saved last, waiting for evidence |
| GatewayAgreement.StartIsSafe | gateway/gateway.py:192-225 | whatever the checkpoint holds, a start from it controls nothing, with paired nodes and own rows at the own epoch, or refuses |
| GatewayAgreement.TakeoverControls | gateway/gateway.py:1228-1257 | after a saved takeover every node is controlled, at the least epoch above both known ones |
| GatewayAgreement.TakeoverOnce | gateway/gateway.py:1228-1240 | a second timeout creates no further epoch |
| GatewayAgreement.RegistriesAgree | gateway/gateway.py:518-545 | after an exchange from any reachable state both registries have the same row for each claimed node if and only if not both claimed it at one epoch |
| OfflineQueues.OfflineQueue.Insert | gateway/offline_queue.py:136-157 | one row an identity, refused when its share of the capacity is used |
| OfflineQueues.OfflineQueue.AdmitSensor | gateway/offline_queue.py:168-197 | receipt and outbox row together or neither; a repeated identity with other evidence is refused |
| OfflineQueues.OfflineQueue.IsFresh | gateway/offline_queue.py:159-166 | newest exactly when above every receipt in the range of its prefix |
| OfflineQueues.OfflineQueue.Peek | gateway/offline_queue.py:266-273 | the oldest rows in order |
| OfflineQueues.AdmissionKeeps | gateway/offline_queue.py:168-197 | no receipt or row is lost, a new receipt has its row, order and limits hold |
| OfflineQueues.ReserveKept | gateway/offline_queue.py:141-148 | a normal upload leaves the reserve for urgent ones |
| OfflineQueues.DeletedIdentity | gateway/offline_queue.py:283-287 | deleting a row deletes its identity and no other |
| OfflineQueues.Uplink.FlushBatch | gateway/gateway.py:807-839 | exactly the oldest uploads that were confirmed are deleted, up to the first that was not |
| ControlFreshness.SensorConsumer.Process | gateway/gateway.py:596-676 | an acknowledgement only with a durable receipt, a decision only for a newest new sample |
| ControlFreshness.PrefixOfIdentity | gateway/offline_queue.py:162 | cutting two parts off leaves source and boot, dashes in the boot included |
| ControlFreshness.DeviceIdentity | firmware/b1/main/b1_outbox.c:160-166 | B1 and the gateway give the messages of a record the same identities |
| ControlFreshness.IdentityOrder | gateway/sensor_delivery.py:22-24 | within a boot identities are ordered as their sequence numbers |
| ControlFreshness.FreshIsNewer | gateway/offline_queue.py:159-166 | a sample that counts as newest is newer than every receipted one of its boot |
| ControlFreshness.FreshExactly | gateway/offline_queue.py:159-166 | for every ledger, alerts and other boots included: counts as newest if and only if it comes after every receipt of its boot and no receipt of another boot shadows it |
| ControlFreshness.OverlapIsExact | gateway/offline_queue.py:162-165 | another boot can have a receipt in the range if and only if a test on the two boot names says so |
| ControlFreshness.FreshMeansNewest | gateway/offline_queue.py:159-166 | counting as newest is being newest, when no boot name in the ledger overlaps |
| ControlFreshness.DecisionsIncrease | gateway/gateway.py:596-676 | over every run with restarts the numbers decided on strictly increase for each source and boot |
| ControlFreshness.DashedBootBlocks | gateway/offline_queue.py:162-165 | every receipt of a boot id that extends another one by a dash and eight digits shadows the samples of that one below the number |
| ControlFreshness.DecidedExactly | gateway/gateway.py:596-676 | for every ledger exactly when a message is decided on |
| ControlFreshness.OnlyUsableDecided | gateway/gateway.py:596-646 | every decision was taken on a usable sample with its receipt committed |
| Cloud.Database.Commit | server/database.py:369-370 | inside a transaction a commit of an insert does nothing |
| Cloud.Deduplicator.IsNew | server/dedup.py:38-54 | true exactly for an id not processed before |
| Cloud.Server.Store | server/server.py:162-178 | one transaction for deduplication and row, acknowledged only after its commit, counters put back on failure |
| Cloud.StoredKeeps | server/server.py:162-189 | a message id never has two rows, durable rows stay, an acknowledged id has exactly one |
| Cloud.AnswersExactly | server/server.py:162-178 | every valid tracked upload whose transaction commits is acknowledged, new or repeated, and nothing else is |
| Conservation.ArriveKeeps | gateway/gateway.py:710-734 | an acknowledgement to B1 means the message is safe |
| Conservation.RowsGo | gateway/gateway.py:807-839 | a row deleted after its receipt leaves its message safe in the cloud |
| Conservation.StepKeeps | gateway/gateway.py:794-839 | every step of device, gateways, network and cloud keeps the conservation invariant |
| Conservation.NothingIsLost | firmware/b1/main/b1_outbox.c:153-175 | each message of an admitted record of high importance is in B1's flash, a gateway outbox or the cloud, at most once there |
| Conservation.CloudHasOneRow | server/server.py:180-185 | no message id has two rows in the cloud |
| ConservationContents.ContentsAreKept | gateway/offline_queue.py:136-197 | when uploads carry what belongs to their ids, each message beyond the device is kept with it, and so is every row of the cloud |
| ChainProgress.RowLeaves | server/server.py:162-178 | from every reachable state a queued row is sent, stored, confirmed and deleted, be its message new to the cloud or there already |
| ChainProgress.OutboxDrains | gateway/gateway.py:807-839 | from every reachable state the outbox of a gateway drains into the cloud |
| ChainProgress.RepeatIsAcknowledged | gateway/offline_queue.py:168-184 | a repeated message with the same evidence is acknowledged and changes nothing else |
| ChainProgress.EverythingArrives | gateway/gateway.py:710-839 | from every reachable state a continuation without failures empties device and gateways, and the cloud holds every message of every admitted record of high importance |

## Left out

- B1Checkpoint.B1CheckpointDecode: the native version-1 blobs of `b1_checkpoint.c:72-80` are not decoded; their layout is that of a C struct on one ABI. A blob without the version-2 magic is rejected.
- B1Record.Valid: texts are the characters before the terminator and the bytes behind it are zero, as `b1_queue.c` prepares them; garbage behind a terminator is not modelled.
- B1Pacing.EightyPerMinute: says nothing of runs in which an acknowledgement emptied the outbox in an open window; `EmptyingLiftsTheLimit` shows that the code exceeds the limit there.
- Reassembler.Receiver.Feed: ends with the completed bytes; `application(raw, f)` at `reassembly.py:56`, which checks them as a message, touches no state of the reassembler and is not modelled.
- ControlFreshness.SensorConsumer.Process: the other conditions of a decision (trust, age, configuration) are one boolean input.
- ChainProgress.EverythingArrives: needs a gateway whose ledger, which never forgets, has room for the new receipts, and a clock of B1 some hours from its end; full ledgers refuse new messages for good.
- LoraReceiver.RunsAgree: without a session table and for a clock below the last three seconds of 64 bits, where the firmware refuses new messages.
- B1Snapshot.Consistent: comparisons of floats are over the reals they stand for; the rounding of the division by 1000 is not modelled. `unsigned long` has 32 bits, as on the device.
- SensorTrustRing.SensorTrust.Update: over the reals; rounding, FLT_MAX bounds and overflow of the drift streak are not modelled.
- StateStore.NeverStale: SHA-256 is taken as injective and damage never forges a checksum.
- Cloud.Server.Store: history tables are one table; the columns and the policy tables are opaque.
- Diagnostic counters of the B1 outbox, of the gateways and of the controllers.
- Link retry of B1 (`b1_link_failed`, `b1_link_ready`): a rate limit of connections that would only add easy members.
- Fields of commands and samples of the wrong type, and JSON itself: a field that is not of its type is a missing one.
- Timing of heartbeats and of the failover: a gateway may time out at any moment.
- HMAC sessions, nonces, sockets, asyncio scheduling, LoRa radio and ESP-IDF drivers.
- The best-effort upload path where samples wait in memory, and controllers without a state database.
- Control decisions, policies, adaptive sampling and the AI engines.
