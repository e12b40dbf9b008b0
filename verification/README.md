# Verification of the RAVENNA/AES67 ALSA driver

A Dafny model of the audio path of the RAVENNA ALSA kernel driver, with proofs. The driver follows a
PTP master with a small phase-locked loop, wakes up once per audio frame, moves samples between the
ALSA buffers and per-channel rings, and carries the rings over one or two NICs as RTP packets.

The project follows the program:

| files | part of the driver |
|---|---|
| `CInt`, `Arith`, `Rings` | C integer widths, facts of non-linear arithmetic, ring positions |
| `WakeUp`, `PtpModel`, `PtpSafety`, `PtpLock`, `PtpClock` | the PTP clock: wake-up accumulator, step functions, what every run keeps, runs that reach the lock, the clock object |
| `PtpServo`, `PtpCount`, `PtpMessages`, `PtpWatch` | what one event does to it: the servo, the sample count, election and Sync, link and watchdog |
| `Checksum`, `Dispatch` | IPv4 header checksum, dispatch key of a sink |
| `Convert`, `SampleValue` | interleaving and de-interleaving converters, the value of a sample on its way |
| `Timestamp`, `Packetise`, `RtpSend` | RTP timestamps, splitting a frame into packets, the send loop on the rings |
| `RtpReceive`, `SinkRun`, `Merge`, `Mute`, `LateAudio` | the receive path, packets of several senders, the merge of two ST 2022-7 legs, muting, packets that are too late |
| `AlsaRing`, `DelayLine`, `AudioTick` | playback copies and positions, the playback delay line, the tick and runs of it |
| `Transport`, `EndToEnd`, `MergedDelivery`, `CapturePath` | what a sent packet is at the receiver; a frame taken in by a sink, or by two attached sinks; the way from playback to capture |
| `PoolModel`, `PoolSafety`, `PoolRuns`, `PoolEffects`, `StreamPool` | the pool of source streams: steps, invariant, runs, the exact effect of each step, the arrays themselves |
| `SinkPairs`, `SinkEffects`, `SinkPool` | pairing of sinks across the NICs: steps and runs, the exact effect of each step, the arrays themselves |
| `ManagerModel`, `ManagerSafety`, `ManagerRules`, `LockWait`, `AudioManager` | start, stop, I/O, frame size, the clock that is followed, the wait for the lock, the tick over both clocks |

Code that updates fields or buffers in place is a class or a method on arrays; its contract ties the
new state to a step function, and the properties are proved about runs of these functions. A lock
region is one atomic step. Clock readings, link states, packets and the contents of the ALSA buffer
are inputs. Arithmetic modulo 2^16, 2^32 and 2^64, signed truncation and division toward zero are
written out.

## Results about the code that differ from its comments or intent

- `WakeUp.ClosedFormIsLoop`: the closed wake-up formula equals the loop it replaced if and only if the total
  fraction is at most one unit, or is below 2^32 and not a multiple of the unit. `ClosedFormCanDiffer` (a multiple)
  and `CastCanTruncate` (beyond 2^32) show the two failing cases. The phase is conserved in every case, and the
  driver only ever advances by one frame, where the two forms agree.
- `Packetise.AcceptedSizeCanWrap`: the size test of `is_valid` multiplies in 32 bits and accepts some
  sources whose packets exceed the payload limit; `AcceptedSourceFits` says exactly when the packets of an
  accepted source fit.
- `Mute.StaleStreamPassesTheTest`: the mute test cuts a 64-bit difference to 32 bits, so a stream silent for
  almost 2^32 samples counts as alive; `MustMuteIff` says for which counts.
- `Mute.PrepareBufferLives`: the status flag `sink_muted` is never raised, since its variable is shadowed.
- `LateAudio.LateAudioStays`: there is no in-time test, so a packet that covers no frame to come is copied all the
  same, while every tick goes on counting as muted. Exactly its words in the frames that the mute counter has room
  for are overwritten. `LateAfterSilence`: after a whole ring of silence the counter is at its limit, and such audio
  stays in the ring over any number of muted ticks. `Mute.SaturatesIff`: a ring without mute words is muted by a
  whole ring of ticks exactly when the counter starts at zero.
- `DelayLine.SentFromPosition`: the send offset is the ring position exactly when the count has passed one
  frame or the position is 0; `FirstFrameSentFromStart` covers the rest, where it is 0.
- `Merge.EachPacketOnceIff`: two loss-free legs are merged without a loss under every interleaving if and only if
  both sinks start with a mark below the end of the first packet. A reused slot keeps its old mark, and
  `StaleMarkLosesPackets` is a run in which neither leg writes a packet that both deliver.
- `Merge.LossNotRepaired`: a packet lost on one leg stays lost when the leg's next packet comes before the
  twin of the lost one; `WrittenExactlyWhenFresh` says for every run and all starting marks what is written.
- `PoolRuns.AddLeaksIff`: an add that finds a slot, but whose stream cannot be created or whose list is full,
  keeps the slot acquired and unlisted; exactly these adds do. `LeakStaysIff`: only a remove-all takes it back.
- `LockWait.RateChangeCanSucceedIff`: a rate change while started waits for both clocks to lock, which some course of
  the wait brings about if and only if both NICs are in use; with one, every rate change runs into its time-out.
- `PtpMessages.TimelessMasterStays`: a master whose last Announce came in at local time 0 is never timed out.
- `SinkPairs.AddSymmetricIff`: a second sink with an id that is already paired leaves a one-sided link.

## Model

| member | source | states |
|---|---|---|
| `WakeUp.PhaseConserved` | driver/PTP.c:801-828 | any advance by n frames moves the wake-up by exactly n periods on the picosecond time line, modulo the 64-bit wrap |
| `WakeUp.FracBounded` | driver/PTP.c:801-828 | the fraction stays at most one unit iff the accumulated fraction fits 32 bits; for one frame always |
| `WakeUp.NoDrift` | driver/PTP.c:801-828 | k ticks at a constant period accumulate no drift |
| `WakeUp.ClosedFormIsLoop` | driver/PTP.c:801-828 | for every state, period and number of frames the closed form equals the commented loop iff the total fraction is at most one unit, or below 2^32 and no multiple of the unit |
| `WakeUp.OneTickIsLoop` | driver/PTP.c:801-828 | for one frame the two forms always agree |
| `WakeUp.ClosedFormCanDiffer` | driver/PTP.c:801-828 | two frames at once from a full fraction: the closed form and the loop differ |
| `WakeUp.CastCanTruncate` | driver/PTP.c:801-828 | fifty frames at once overrun the 32-bit cast: the two forms differ |
| `PtpSafety.FoldWithinHalfPeriod` | driver/PTP.c:619-668 | every phase error that reaches the integrator is at most half a base period after the fold |
| `PtpSafety.IgrStaysBounded` | driver/PTP.c:669-686 | the clamped leaky integrator keeps its bound for every bounded input |
| `PtpSafety.PeriodStaysPositive` | driver/PTP.c:671-690 | the largest correction is smaller than the base period |
| `PtpSafety.CorrectKeeps` | driver/PTP.c:619-709 | one correction keeps integrator and period bounds and lowers the TIC counter by one when in range; the re-arm branch is not taken |
| `PtpSafety.ProcessT1Progress` | driver/PTP.c:526-733 | a new timestamp brings the lock nearer by at most one step, and by exactly one when in range |
| `PtpSafety.StepKeeps` | driver/PTP.c:229-512 | every event keeps the clock invariant |
| `PtpSafety.Run` | driver/PTP.c:114-187 | every state reachable from power-up satisfies the clock invariant |
| `PtpSafety.PeriodBoundedOnEveryRun` | driver/PTP.c:619-690 | on every run the integrator is within min(4000000, 19 pmax); with the PTP lock held the period is positive and within min(4e8, 1900 pmax) ps of the base |
| `PtpSafety.StepTowardsLock` | driver/PTP.c:296-485 | unless the lock is reset, a step keeps the elected identity and only an accepted timestamp brings LOCKED nearer |
| `PtpSafety.LockedNeedsEightTimestamps` | driver/PTP.c:541-709 | LOCKED implies at least eight accepted timestamps since the reset, all from the identity that is still elected |
| `PtpSafety.EightTimestampsLock` | driver/PTP.c:541-709 | eight new in-range timestamps, handed to the servo, reach LOCKED from any state |
| `PtpLock.GoodSyncCounts` | driver/PTP.c:392-449 | a one-step Sync of the elected master that arrives on its frame boundary is accepted and brings LOCKED exactly one step nearer |
| `PtpLock.LockReachable` | driver/PTP.c:229-512 | every run that ends with a started clock can be continued to LOCKED: a tick, an Announce and eight Syncs |
| `PtpSafety.StatusOnlyClimbs` | driver/PTP.c:201-216 | the status climbs one rung at a time and falls only to UNLOCKED through a full reset |
| `PtpSafety.BaseIsFrameDuration` | driver/PTP.c:1071-1095 | on every run the base period is the duration of a frame, cut to picoseconds |
| `PtpSafety.StartAndStop` | driver/PTP.c:1071-1107 | a start takes over frame size and rate, runs on their period and starts the lock over; a stop starts the lock over; nothing else changes |
| `PtpMessages.LiveMasterStays` | driver/PTP.c:329-362 | an elected master heard within five seconds stays, whoever announces; only its own Announce is taken in; the lock is left alone |
| `PtpMessages.SilentMasterReplaced` | driver/PTP.c:329-362 | without a master, or after more than five seconds of silence, the sender of the Announce is elected and the lock starts over |
| `PtpMessages.TimelessMasterStays` | driver/PTP.c:333-337 | a master with announce time 0 is kept |
| `PtpMessages.ForeignDomain` | driver/PTP.c:312-318 | an Announce in a foreign domain changes nothing, unless the elected master sends it, which is then given up |
| `PtpMessages.NewSettings` | driver/PTP.c:302-310 | after a change of the settings the next Announce starts the election over |
| `PtpMessages.SettingsRestartElection` | driver/PTP.c:302-362 | other settings lead to a new election with the next Announce, the same settings change nothing |
| `PtpMessages.LiveMasterElected` | driver/PTP.c:296-363 | on every run in which the settings stand still and the master is never silent for more than five seconds before an Announce, it stays elected, whatever others announce |
| `PtpMessages.ForeignSync` | driver/PTP.c:393-398 | Sync and Follow_Up of anyone but the elected master change nothing |
| `PtpMessages.SyncGap` | driver/PTP.c:409-417 | a Sync whose number is not among the last one and the four after it starts the lock over and none of its times is used |
| `PtpMessages.TwoStepSync` | driver/PTP.c:418-432 | a two-step Sync notes its arrival and the time of the last tick and nothing else |
| `PtpMessages.TwoStepsAreOne` | driver/PTP.c:392-485 | a two-step Sync with its Follow_Up does what the one-step Sync with the same time does |
| `PtpMessages.LateFollowUp` | driver/PTP.c:478-485 | a Follow_Up with the number of another Sync is ignored |
| `PtpMessages.RepeatedTime` | driver/PTP.c:528-533 | a repeated master time is ignored |
| `PtpSafety.ZeroErrorDecays` | driver/PTP.c:669-676 | without phase error the integrator strictly decays and keeps its sign |
| `PtpSafety.CorrectionHasSignOfError` | driver/PTP.c:619-690 | while the 64-bit product does not wrap, the correction of the period has the sign of the folded error, and there is one as soon as error times period is 55000000 |
| `PtpServo.TimestampSteers` | driver/PTP.c:526-733 | a timestamp with the PTP lock held: the offset is t2 - t1; the error is the local time of the last frame boundary of the master less that of the last tick; in range it is folded into half a period, goes into the integrator with its gain and leak, and the period differs from its base by a hundred times the integrator; out of range only the base period is restored |
| `PtpServo.TimestampPrimes` | driver/PTP.c:550-580 | the timestamp before the lock: the period is the base times the ratio of local and master interval, the wake-up five periods after the folded frame boundary |
| `PtpServo.TimestampCountsDown` | driver/PTP.c:541-549 | the timestamps before that only count down |
| `PtpSafety.OffsetFollowsMaster` | driver/PTP.c:584-586 | with the lock held, a tick at t2 + d counts the samples of master time t1 + d |
| `PtpSafety.TickSac` | driver/PTP.c:908-963 | after each tick the sample count is the start of a frame, one frame before the next one, and within the tolerance of PTP time unless it ran on by itself |
| `PtpCount.TickCounts` | driver/PTP.c:908-963 | the sample count of a tick for every frame size and tolerance: start or end of the frame of PTP time when less than the tolerance away, else one frame on |
| `PtpCount.TickFollowsPtpTime` | driver/PTP.c:916-931 | with frames of two tolerances or more: a tick near frame boundary n of PTP time has the count of n, a tick near none runs on |
| `PtpCount.TickAtMasterTime` | driver/PTP.c:911-931 | with the offset of timestamp (t1, t2) a tick at t2 + d near a frame boundary of master time t1 + d has exactly the sample count of the master there |
| `PtpCount.ToleranceIs` | driver/PTP.c:916-916 | the tolerance is four samples at 44.1 kHz, in proportion at other rates |
| `PtpWatch.TickResetsIff` | driver/PTP.c:973-1003 | a tick starts the lock over iff the link is down or no Sync came in since the watchdog looked two seconds ago; servo, watchdog, times and master after it |
| `PtpWatch.SilenceUnlocks` | driver/PTP.c:985-1003 | over any sequence of ticks without a Sync the clock is unlocked once two ticks lie two seconds apart, the first two seconds after the last look |
| `PtpWatch.TickWakes` | driver/PTP.c:1015-1053 | every tick moves the wake-up on by one period; a clock that is not locked and half a period or more late restarts one base period from now |
| `PtpWatch.NeverLate` | driver/PTP.c:1042-1048 | after a tick that leaves the clock unlocked the wake-up is not half a period late |
| `PtpSafety.StepKeepsAligned` | driver/PTP.c:908-963 | the sample count stays on frame boundaries under every event but a restart |
| `PtpClock.ClockPtp.GetLockStatus` | driver/PTP.c:1121-1132 | LOCKED iff both counters are 0, UNLOCKED iff the PTP counter is not |
| `PtpClock.ClockPtp.ResetPTPLock` | driver/PTP.c:201-216 | both counters back to their hysteresis, integrator cleared |
| `PtpClock.ClockPtp.ComputeNextAbsoluteTime` | driver/PTP.c:801-828 | the object advances its wake-up as the closed form |
| `PtpClock.ClockPtp.CorrectPeriod` | driver/PTP.c:619-709 | fold, integrate, clamp, correct and count down: the servo step, which `PtpServo.TimestampSteers` spells out |
| `PtpClock.ClockPtp.ProcessTimestamp` | driver/PTP.c:526-733 | the object does the timestamp step |
| `PtpClock.ClockPtp.ProcessAnnounce` | driver/PTP.c:296-363 | the object does the announce step, which the rows of `PtpMessages` spell out case by case, and keeps its invariant |
| `PtpClock.ClockPtp.ProcessSync` | driver/PTP.c:392-449 | the object does the Sync step and keeps its invariant |
| `PtpClock.ClockPtp.ProcessFollowUp` | driver/PTP.c:467-485 | the object does the Follow_Up step and keeps its invariant |
| `PtpClock.ClockPtp.TimerProcess` | driver/PTP.c:842-1067 | the object does the tick step, which the rows of `PtpCount` and `PtpWatch` spell out, keeps its invariant and hands out its next wake-up |
| `PtpClock.ClockPtp.StartTimer` | driver/PTP.c:1071-1095 | started with new frame size and rate, nominal period, lock reset, invariant kept |
| `PtpClock.ClockPtp.StopTimer` | driver/PTP.c:1098-1107 | stopped, lock reset |
| `Checksum.AccumulatorFits` | driver/MTAL_EthUtils.c:385-418 | for any 16-bit length the 32-bit accumulator does not overflow and two folds suffice |
| `Checksum.FinishMeaning` | driver/MTAL_EthUtils.c:385-418 | the checksum complements the word sum modulo 0xFFFF; exact cases of 0 and 0xFFFF |
| `Checksum.ComputeChecksum` | driver/MTAL_EthUtils.c:385-418 | the loop computes the folded complement of the sum of big-endian words, odd octet included |
| `Checksum.RecomputeIsZero` | driver/RTP_audio_stream.c:958-963 | storing the checksum in network order makes a recomputation return 0 |
| `Checksum.AcceptedExactlyWhenCongruent` | driver/MTAL_EthUtils.c:385-418 | another value in the field passes iff it is congruent to the computed one modulo 0xFFFF |
| `Dispatch.KeyMatchesAddress` | driver/RTP_stream_info.c:57-66 | the key of a packet equals the key of a stream iff NIC, destination address and port agree |
| `Dispatch.SwapReverses` | driver/RTP_stream_info.c:57-66 | the swaps of the key reverse the octets of address and port |
| `Dispatch.Serve` | driver/RTP_streams_manager.c:888-898 | the dispatch loop serves exactly the listed sinks of the packet's address, in order |
| `Convert.PackUnpack` | driver/MTConvert.c:1719-1915 | a sample packed on one host and unpacked on another of any byte order keeps the bytes the format has room for, the rest cleared |
| `SampleValue.WireBytes` | driver/MTConvert.c:1301-1471 | the wire formats carry the top 2, 3 or 4 bytes of the value of a sample, most significant first, on hosts of either byte order |
| `SampleValue.WireWord` | driver/MTConvert.c:1763-1915 | a received sample is its big-endian value, aligned to the top of the ring word |
| `SampleValue.PlayedWordValue` | driver/audio_driver.c:1496-1515 | a played sample is its little-endian value, aligned to the top of the ring word |
| `SampleValue.CapturedBytes` | driver/MTConvert.c:1719-1757 | a captured sample is the top of the value of the ring word, least significant byte first |
| `SampleValue.ValueArrives` | driver/MTConvert.c:1301-1915 | a sample played on one host has the same value in the ring of a receiver of any byte order |
| `Convert.Interleave` | driver/MTConvert.c:1301-1471 | the sample-major loops write the frames one after the other and touch nothing else |
| `Convert.InterleavedAt` | driver/MTConvert.c:1719-1757 | sample i of channel ch is found at byte (i m + ch) w of the interleaved buffer |
| `Convert.DeinterleaveChannel` | driver/MTConvert.c:1763-1804 | one channel of a payload lands in its ring span, the rest of the ring is unchanged |
| `Convert.Deinterleave` | driver/MTConvert.c:1763-1804 | the channel-major loops do so for every channel; of several channels on one ring the last one stays |
| `Convert.InterleaveThenDeinterleave` | driver/MTConvert.c:1719-1804 | the two loop nests undo each other up to the cleared low bytes |
| `Timestamp.ExtensionExact` | driver/RTP_audio_stream.c:674-691 | within 0x3FFFFFFF samples the 64-bit count is recovered from the 32-bit timestamp, whatever the offset |
| `Timestamp.RadiusIsTight` | driver/RTP_audio_stream.c:674-691 | one sample beyond that radius the recovery fails, in both directions |
| `Packetise.TwoSegments` | driver/RTP_audio_stream.c:933-952 | the two copies around the ring end are the modular slice of the ring |
| `Packetise.ModularSlice` | driver/RTP_audio_stream.c:933-952 | frame i of a payload is ring frame (offset + i) mod L |
| `Packetise.PayloadsAreTheFrame` | driver/RTP_audio_stream.c:858-883 | the payloads of a frame, one after the other, are the modular ring slice of the whole frame |
| `Packetise.PacketAt` | driver/RTP_audio_stream.c:858-883 | packet k in closed form: sequence number mod 2^16, timestamp, ring slice from (offset + k * size) mod L |
| `Packetise.PacketCount` | driver/RTP_audio_stream.c:858-883 | the loop stops after the frame size over the packet size, rounded up |
| `Packetise.EndSeqNum` | driver/RTP_audio_stream.c:858-883 | the next frame continues the sequence numbers modulo 2^16 |
| `Packetise.PacketsInFrame` | driver/RTP_audio_stream.c:858-883 | the number of packets depends on frame size and packet size only |
| `Packetise.AllFitIff` | driver/RTP_audio_stream.c:858-883 | all payloads of a frame fit 1460 bytes iff the packet size, cut to the frame size, does |
| `Packetise.AcceptedSourceFits` | driver/RTP_stream_info.c:139-146 | the packets of an accepted source fit iff its size product did not wrap or the frame itself is short enough |
| `Packetise.AcceptedSizeFits` | driver/RTP_stream_info.c:139-146 | an accepted size product is within 1460 iff it did not wrap |
| `Packetise.AcceptedSizeCanWrap` | driver/RTP_stream_info.c:139-146 | an accepted source whose first packet exceeds the limit in every frame of six samples or more |
| `RtpSend.SourceStream.SendPacket` | driver/RTP_audio_stream.c:889-971 | one packet: sequence number, timestamp, modular ring slice |
| `RtpSend.SendPackets` | driver/RTP_audio_stream.c:814-886 | the packets of a frame on each NIC, each leg from its own channel map, none on a NIC that is down, sequence number advanced all the same; both legs equal when format, offset and the words of the frame are |
| `RtpSend.SendLoop` | driver/RTP_audio_stream.c:858-883 | the loop sends the packets of the specification, in order, on both legs |
| `RtpSend.LegsIdentical` | driver/RTP_audio_stream.c:866-870 | legs of equal format and timestamp offset whose channel maps show the same words of the frame carry identical packets, whatever else the rings hold |
| `RtpReceive.PlayoutExact` | driver/RTP_audio_stream.c:674-693 | the playout position is the sender's count plus the playout delay |
| `RtpReceive.TimelyJudged` | driver/RTP_audio_stream.c:571-715 | a packet within the timestamp radius is placed at its count plus the playout delay, its end recorded, and copied unless the other leg has got as far |
| `RtpReceive.StoreFrames` | driver/RTP_audio_stream.c:721-755 | the two de-interleaving copies store n frames around the ring end and nothing else |
| `RtpReceive.SinkStream.FrameCount` | driver/RTP_audio_stream.c:616-640 | the number of whole frames in the payload |
| `RtpReceive.SinkStream.ProcessPacket` | driver/RTP_audio_stream.c:505-807 | a packet is used iff version, padding, payload type and sender are right and it holds a frame; any other leaves every ring word alone, and one with a wrong header the whole sink; every ring word, mark and verdict afterwards |
| `SinkRun.OnlyTheKnownSender` | driver/RTP_audio_stream.c:579-603 | once a sender is known it stays, and after packets of any senders in any order what the sink remembers and every ring word are as after the packets of that sender alone |
| `SinkRun.ReceiveAll` | driver/RTP_audio_stream.c:505-807 | the run of packets on the object, with that outcome |
| `Merge.MarkOrdersPackets` | driver/RTP_audio_stream.c:702-715 | the mark of a leg is below the end of packet k iff the leg last received an earlier packet, or none and started below |
| `Merge.Merges` | driver/RTP_audio_stream.c:702-755 | whatever came before and whatever the marks were at the start, a packet is copied, at its playout position, iff the other leg is before it |
| `Merge.WrittenExactlyWhenFresh` | driver/RTP_audio_stream.c:702-755 | over all arrival sequences, lossy or not, and all starting marks: a packet is written iff one of its arrivals finds the other leg before it |
| `Merge.EachPacketOnce` | driver/RTP_audio_stream.c:702-755 | under every interleaving of two gap-free legs that start below the first packet each packet is copied once, in order |
| `Merge.EachPacketOnceIff` | driver/RTP_audio_stream.c:702-805 | that holds for every interleaving iff both starting marks are below the end of the first packet |
| `Merge.StaleMarkLosesPackets` | driver/RTP_audio_stream.c:709-714 | with a stale mark ahead, a packet that both legs deliver is written by neither |
| `Merge.LossNotRepaired` | driver/RTP_audio_stream.c:709-714 | a run in which a lost packet is skipped on the other leg |
| `Mute.MustMuteIff` | driver/RTP_audio_stream.c:1017-1022 | what the truncated mute test decides, for every pair of counts |
| `Mute.MuteTestExact` | driver/RTP_audio_stream.c:1017-1022 | within 2^31 samples it mutes iff the current frame is incomplete |
| `Mute.AllMutedIff` | driver/RTP_audio_stream.c:1045-1051 | with both marks nearby a frame is muted iff neither leg has audio up to its end; one leg that has is enough to keep it |
| `Mute.LateIsMuted` | driver/RTP_audio_stream.c:1017-1022 | with no audio past the count on any leg every tick of the next 2^31 samples counts as muted |
| `Mute.StaleStreamPassesTheTest` | driver/RTP_audio_stream.c:1017-1022 | a silent stream that passes the test |
| `Mute.FrameInside` | driver/RTP_audio_stream.c:1063-1083 | a span that starts on a frame boundary does not cross the ring end |
| `Mute.RunExact` | driver/RTP_audio_stream.c:1050-1090 | n muted ticks from any counter value: the frames the counter has room for are mute, every other word is unchanged |
| `Mute.Saturates` | driver/RTP_audio_stream.c:1065-1073 | after a ring of muted ticks every word is the mute pattern and stays so although writing stops |
| `Mute.CurrentFrameMute` | driver/RTP_audio_stream.c:1050-1090 | at every tick of a muted run the frame captured next is mute |
| `Mute.SaturatesIff` | driver/RTP_audio_stream.c:1065-1073 | a ring without mute words is muted by a whole ring of ticks iff the counter started at zero |
| `Mute.MuteTicks` | driver/RTP_audio_stream.c:1026-1100 | n silent ticks on a sink object: counter and every word of every ring, the frames the counter has room for mute and the rest unchanged; a whole ring from counter zero mutes all |
| `Mute.PrepareBufferLives` | driver/RTP_audio_stream.c:1026-1148 | with the marks within 2^31 samples muted iff neither leg covers the frame; when one covers it all rings are untouched and the counter is 0; NIC 0 writes; counter, rings and status flags after the call |
| `LateAudio.LateAudioStays` | driver/RTP_audio_stream.c:695-699 | a packet that is too late, then n muted ticks: which of its words are overwritten and which stay, in every ring |
| `LateAudio.LateAfterSilence` | driver/RTP_audio_stream.c:1056-1073 | after a whole ring of silence all words of a late packet stay over any number of muted ticks, everything else is mute |
| `AlsaRing.FastChannel` | driver/audio_driver.c:1341-1460 | the optimised copy of one channel, both segments, every ring word |
| `AlsaRing.GenericChannel` | driver/audio_driver.c:1478-1552 | the generic copy of one channel, stepping both pointers |
| `AlsaRing.FastCopy` | driver/audio_driver.c:1341-1460 | the optimised copy of all channels |
| `AlsaRing.GenericCopy` | driver/audio_driver.c:1462-1552 | the generic copy of all channels |
| `AlsaRing.CopiesAgree` | driver/audio_driver.c:1341-1552 | the optimised and the generic copy of equal ring sets both leave the played frame in place, byte for byte the same, for every format, channel count, position and frame count |
| `AlsaRing.FastRuleIsGeneric` | driver/audio_driver.c:1496-1515 | each of the four optimised sample rules is the generic one for the logical width of its format |
| `AlsaRing.Playback.Interrupt` | driver/audio_driver.c:714-762 | the ring words after the interrupt, the position stepped, the DMA offset still position times frame bytes |
| `AlsaRing.Playback.Pointer` | driver/audio_driver.c:1115-1145 | the pointer callback reports the ring position |
| `DelayLine.SentFromPosition` | driver/manager.c:1417-1442 | the send offset is the ring position iff the count has passed one frame or the position is 0 |
| `DelayLine.FirstFrameSentFromStart` | driver/manager.c:1427-1431 | in the first frame of the count the send offset is 0 |
| `DelayLine.OlderCountBehind` | driver/manager.c:1417-1442 | the offset of an older count lies behind the ring position by its distance, around the ring |
| `DelayLine.PosAligned` | driver/audio_driver.c:752-754 | ring positions are multiples of the frame size and whole frames fit |
| `DelayLine.FrameSurvives` | driver/audio_driver.c:727-754 | a played frame stays in the ring until the ring comes round |
| `DelayLine.ReturnsAfterOneRing` | driver/audio_driver.c:727-754 | one ring length later the position is the same and the frame still there |
| `DelayLine.SentOneRingLater` | driver/manager.c:1578-1586 | the packets sent at tick k + L/F carry exactly the frame delivered at tick k |
| `AudioTick.AudioFrameTIC` | driver/manager.c:1470-1588 | every source sends what the rings held before the tick and counts on by the packets of a frame, sent or not; then the next frame of the ALSA buffer is played |
| `AudioTick.TickRun` | driver/manager.c:1578-1586 | a run of ticks on the objects from prepare on, with any number of sources and the link going up and down: the packets of tick j carry, on every stream, the frame the ALSA buffer delivered at tick j - L/F, and the sequence numbers go on from tick to tick |
| `AudioTick.NumbersConsecutive` | driver/RTP_audio_stream.c:858-883 | over a whole run packet i of tick j has the first sequence number plus j frames of packets plus i, modulo 2^16; a tick with the link down uses up its numbers |
| `Transport.FramesRecovered` | driver/RTP_audio_stream.c:633-640 | the sink counts the frames the source put into the packet |
| `Transport.SampleRecovered` | driver/MTConvert.c:1719-1915 | each sample of a wrapped payload is the source sample with its low bytes cleared |
| `Transport.BitExactIff` | driver/MTConvert.c:1301-1471 | a payload format carries every sample of a PCM format unchanged iff it has room for its bytes |
| `EndToEnd.DeliverPacket` | driver/RTP_audio_stream.c:642-755 | a sent packet at a sink, within the timestamp radius: each sample stored at (count + playout delay + i) mod L with its low bytes cleared unless the other leg delivered it, no other word changed, the end of the audio recorded |
| `EndToEnd.DeliverFrame` | driver/RTP_audio_stream.c:505-807 | all packets of a frame taken in by a sink: every sample of the frame in place |
| `MergedDelivery.DeliverOn` | driver/RTP_audio_stream.c:702-755 | the next packet on one of two attached sinks that share their rings: the rings hold what either leg has delivered |
| `MergedDelivery.DeliverMerged` | driver/RTP_audio_stream.c:505-807 | under every interleaving of both legs each leg takes in as many packets as it has turns, and once one of them has had a turn for every packet every sample of the frame is in place |
| `CapturePath.PlayedIsCaptured` | driver/audio_driver.c:1398-1460 | what the ALSA buffer delivered to the playback rings is found, byte for byte, at the mapped channel of the interleaved capture |
| `CapturePath.TickSends` | driver/manager.c:1578-1586 | in a run of ticks, tick j sends from rings that hold the frame of tick j - L/F |
| `CapturePath.PlayToCapture` | driver/audio_driver.c:665-672 | ticks of the sender from prepare on, receive path for every packet of a tick, capture loop over the capture channel map: the captured bytes are those the ALSA buffer held one ring length before |
| `PoolSafety.AddKeeps` | driver/RTP_streams_manager.c:254-323 | adding keeps the pool invariant, whether or not it succeeds |
| `PoolSafety.RemoveKeeps` | driver/RTP_streams_manager.c:390-434 | removing keeps it, succeeds iff the stream is listed, and the stream is no longer listed |
| `PoolSafety.RemoveAllKeeps` | driver/RTP_streams_manager.c:494-512 | remove-all keeps it |
| `PoolSafety.TakeKeeps` | driver/RTP_streams_manager.c:990-1009 | taking a snapshot keeps it |
| `PoolSafety.LeaveKeeps` | driver/RTP_streams_manager.c:1030-1041 | leaving keeps it; streams that other snapshots hold survive |
| `PoolSafety.InsertOk` | driver/RTP_streams_manager.c:298-315 | insertion keeps the list distinct, active and ordered by channels |
| `PoolEffects.AddEffect` | driver/RTP_streams_manager.c:254-323 | the first unused slot of the NIC, the stream in it, its place on the list behind all with as many channels or more, success, and nothing else |
| `PoolEffects.RemoveEffect` | driver/RTP_streams_manager.c:390-434 | a listed stream leaves the list and its slot is freed, torn down unless a snapshot holds it, and nothing else |
| `PoolEffects.RemoveAllEffect` | driver/RTP_streams_manager.c:494-512 | the list is empty and every slot freed |
| `PoolEffects.TakeEffect` | driver/RTP_streams_manager.c:990-1009 | the snapshot is the list as it is and each of its streams has one more reader |
| `PoolEffects.LeaveEffect` | driver/RTP_streams_manager.c:1030-1041 | one reader less on each stream of the snapshot; a removed stream is torn down by its last reader |
| `PoolEffects.LeaveUndoesTake` | driver/RTP_streams_manager.c:990-1041 | a snapshot taken and left has no effect |
| `PoolEffects.RemoveUndoesAdd` | driver/RTP_streams_manager.c:254-434 | adding and removing a stream restores the list and every other slot |
| `PoolRuns.SafeOnEveryRun` | driver/RTP_audio_stream.c:1185-1233 | on every interleaving: reader counts are the outstanding snapshots, held streams stay alive and in place, nothing is torn down twice, the list is in order |
| `PoolRuns.FreeSlotExists` | driver/RTP_streams_manager.h:51-51 | of the 128 slots of a NIC one is free, by counting |
| `PoolRuns.AddSucceeds` | driver/RTP_streams_manager.c:259-273 | the doubled pool suffices: with one snapshot, no earlier leak and room on the list an add succeeds |
| `PoolRuns.AddLeaksIff` | driver/RTP_streams_manager.c:259-294 | an add leaks its slot iff it finds one and the stream cannot be created or the list is full |
| `PoolRuns.AddSucceedsIff` | driver/RTP_streams_manager.c:254-323 | an add succeeds iff it finds a slot, the stream can be created and the list has room |
| `PoolRuns.FailedCreateLeaks` | driver/RTP_streams_manager.c:274-278 | on a fresh pool a failed Create leaves a leak |
| `PoolRuns.FullListLeaks` | driver/RTP_streams_manager.c:290-294 | an add to a full list keeps its slot |
| `PoolRuns.LeakStaysIff` | driver/RTP_streams_manager.c:390-512 | a step takes a leaked slot back iff it is a remove-all |
| `StreamPool.InsertInto` | driver/RTP_streams_manager.c:303-308 | the shift loop inserts at the position |
| `StreamPool.RemoveFrom` | driver/RTP_streams_manager.c:399-404 | the shift loop removes the position |
| `StreamPool.SourcePool.Add` | driver/RTP_streams_manager.c:254-323 | the arrays after an add are those of the step |
| `StreamPool.SourcePool.Remove` | driver/RTP_streams_manager.c:390-434 | the arrays after a remove are those of the step |
| `StreamPool.SourcePool.RemoveAll` | driver/RTP_streams_manager.c:494-512 | the arrays after remove-all are those of the step |
| `StreamPool.SourcePool.Take` | driver/RTP_streams_manager.c:996-1008 | the copy of the list, every stream of it entered |
| `StreamPool.SourcePool.Leave` | driver/RTP_streams_manager.c:1030-1041 | every stream of the snapshot left, torn down where it was the last use |
| `SinkPairs.JoinKeeps` | driver/RTP_streams_manager.c:629-654 | attaching keeps the matching when the id is new on its NIC |
| `SinkPairs.PartKeeps` | driver/RTP_streams_manager.c:659-681 | detaching keeps the matching |
| `SinkEffects.AddEffect` | driver/RTP_streams_manager.c:330-376 | the first unused slot of the NIC, the sink under its id at the end of the list of its NIC, both links with the twin, success, and nothing else |
| `SinkEffects.RemoveEffect` | driver/RTP_streams_manager.c:437-475 | the sink leaves its list and slot, its twin is alone, and nothing else |
| `SinkEffects.ListsBounded` | driver/RTP_streams_manager.c:357-365 | on every run of adds and removes the lists keep to their 64 places |
| `SinkPairs.MatchedOnEveryRun` | driver/RTP_streams_manager.c:332-475 | on every run of adds and removes two sinks are linked iff they are listed on the two NICs under one id |
| `SinkPairs.AddSymmetricIff` | driver/RTP_streams_manager.c:644-652 | an add keeps links mutual iff its id is not already paired |
| `SinkPairs.AttachIn` | driver/RTP_streams_manager.c:629-654 | the loop links the first sink with the id |
| `SinkPairs.DetachIn` | driver/RTP_streams_manager.c:659-681 | the loop unlinks the first sink with the id |
| `SinkPool.SinkPool.Add` | driver/RTP_streams_manager.c:330-376 | the arrays after an add, with or without a failing Create, are those of the step; the matching is kept when the id is new on its NIC and the list has room |
| `SinkPool.SinkPool.Remove` | driver/RTP_streams_manager.c:437-475 | the arrays after a remove are those of the step, and the matching is kept |
| `ManagerSafety.StepKeeps` | driver/manager.c:252-356 | every step keeps: I/O runs iff a direction runs, only while started; both clocks keep their invariant, and running clocks use the frame size and the rate of the manager |
| `ManagerSafety.FrameSizeFixedUnderIo` | driver/manager.c:435-558 | no step that ends with I/O running has changed the frame size |
| `ManagerRules.MultipleOfBase` | driver/manager.c:359-396 | the clock of every supported rate is its base rate times the multiple of the frame size |
| `ManagerRules.AnyOtherIsSingle` | driver/manager.c:386-391 | any other rate has the multiple 1 |
| `ManagerRules.FrameDuration` | driver/manager.c:359-396 | a frame lasts as long at every rate of a family, unless the maximum cuts it |
| `ManagerRules.FollowsTheBetter` | driver/manager.c:601-626 | the clock followed: of two locked ones that of the smaller priority value, of one locked that one, else NIC 0 |
| `ManagerRules.AudioMovesIff` | driver/manager.c:1476-1476 | audio moves at a tick iff I/O runs and at least one clock was locked |
| `ManagerRules.BothTick` | driver/module_main.c:110-131 | both clocks take their own tick, whichever is followed, and nothing else changes but the wake-up of the other one |
| `ManagerRules.WakesTogether` | driver/module_main.c:121-130 | the clock that is not followed wakes up with the one that is |
| `ManagerRules.RateChanged` | driver/manager.c:435-464 | a rate change is refused while I/O runs, else rate and frame size are in force and the clocks of the NICs in use run on them with the lock started over |
| `ManagerRules.Reframed` | driver/manager.c:528-558 | new frame settings while started switch I/O off and restart the clocks of the NICs in use on the new frame size |
| `ManagerRules.StartsOneDirection` | driver/manager.c:303-331 | starting a direction switches on that one only, and only while started |
| `ManagerRules.StopsOneDirection` | driver/manager.c:334-356 | stopping a direction switches off that one only |
| `ManagerRules.StopUndoesStart` | driver/manager.c:303-356 | stopping a direction undoes starting it |
| `ManagerRules.StopsAll` | driver/manager.c:275-300 | after a stop no direction runs, no clock, no lock |
| `ManagerSafety.OneNicNeverBothLocked` | driver/manager.c:465-474 | with one NIC in use the condition a rate change waits for does not hold in any state of a run |
| `LockWait.CanSucceedIff` | driver/manager.c:465-474 | with the clocks of the NICs in use running, some course of ticks and messages lets one of the 3999 polls see both clocks locked iff both NICs are in use |
| `LockWait.WaitIsRun` | driver/manager.c:465-474 | what happens in a wait is a run of the manager |
| `LockWait.RateChangeCanSucceedIff` | driver/manager.c:435-479 | the wait of a rate change while started can succeed iff both NICs are in use |
| `ManagerSafety.Run` | driver/manager.c:252-356 | the invariant holds on every run |
| `ManagerSafety.SelectedIsAligned` | driver/module_main.c:110-133 | after a tick with the selected clock running the global count is a multiple of the manager's frame size |
| `ManagerSafety.MovesOnRunningClock` | driver/manager.c:1476-1476 | audio is moved only while the selected clock runs |
| `ManagerSafety.AudioOnFrameBoundaries` | driver/manager.c:1397-1407 | on every run, whenever audio is moved the count is a multiple of the frame size and the span there does not cross the ring end |
| `ManagerSafety.CaptureInside` | driver/audio_driver.c:665-690 | capture prepared on a frame boundary never crosses the ring end |
| `ManagerSafety.CaptureOnEveryRun` | driver/manager.c:1752-1760 | on every run, capture prepared at the global count after a tick reads whole frames at every later interrupt |
| `AudioManager.AudioManager.RefreshFrameSize` | driver/manager.c:359-396 | the frame size of the rate, limited by the maximum |
| `AudioManager.AudioManager.Start` | driver/manager.c:252-272 | the clocks of the NICs in use run on the frame size; the manager invariant is kept, as by every method below |
| `AudioManager.AudioManager.Stop` | driver/manager.c:275-300 | I/O and both clocks stopped |
| `AudioManager.AudioManager.StartIO` | driver/manager.c:303-331 | refused unless started |
| `AudioManager.AudioManager.StopIO` | driver/manager.c:334-356 | I/O runs on while the other direction does |
| `AudioManager.AudioManager.SetSamplingRate` | driver/manager.c:435-479 | refused while I/O runs, else new frame size and restarted clocks; while started the state after the events of the wait, ended by the first of 3999 polls that finds both clocks locked, else refused; never accepted with one NIC in use |
| `AudioManager.AudioManager.SetTICFrameSizeAt1FS` | driver/manager.c:528-542 | stop, new frame size, start again |
| `AudioManager.AudioManager.SetMaxTICFrameSize` | driver/manager.c:544-558 | stop, new maximum, start again |
| `AudioManager.AudioManager.SelectPtpNic` | driver/manager.c:601-626 | the clock that is followed, and the lock states seen |
| `AudioManager.AudioManager.ClockTimer` | driver/module_main.c:110-131 | both clocks tick and the other one takes over the next wake-up |

## Left out

- Kernel services (buffers, netfilter hooks, timers, netlink, spinlocks, logging): foreign calls; a lock region is one step.
- Concurrent entry between two lock regions inside one manager call, except for the sleeps of a rate change.
- ALSA constraint negotiation, mixer controls, card probe: the PCM geometry is a parameter, with the frame size dividing the buffer as a hypothesis.
- DSD, DoP, float and Windows converters; the capture copy without a converter function.
- RTCP, statistics, ahead-time and jitter figures, drop counters, sequence-number and SAC error counters.
- Decoding of PTP messages and of the RTP header into fields, and Delay_Req messages.
- The period estimate before the PTP lock is held: bounds on the period are stated for lock counter 0.
- Frame sizes and rates for which the C arithmetic is undefined (`PtpModel.Defined`: frame size or rate 0, a signed overflow in the nominal period or in three half periods, a period that is a multiple of 2^32 ps): assumed away, not modelled.
- Failure to acquire a transmit buffer, and the source on NIC 1 that leaves sending to its twin.
- Attachment after remove-all and detachment of sources: the driver leaves the pointers in place.
- Mute and output buffer clearing at I/O start and stop.
- The UDP checksum, which the driver leaves at 0.
- `update_RTP_stream_name`, status queries, interface names and channel counts.
- PtpSafety.CorrectionHasSignOfError: assumes that the 64-bit product of the proportional term does not wrap, which holds for periods up to 43 seconds.
- PtpSafety.TickSac: assumes the 64-bit frame counter is not at its end; so do the lemmas of PtpCount.
- PtpServo.TimestampSteers: assumes that master time times rate and error times period fit 64 bits.
- PtpServo.TimestampPrimes: assumes that the products of times, rate and period fit 64 bits.
- PtpCount.TickAtMasterTime: assumes a rate that is a multiple of 100, as all supported ones are; the driver divides the rate by 100 first.
- PtpMessages.LiveMasterElected: the run contains no stop and no change of settings.
- ManagerSafety.AudioOnFrameBoundaries: assumes the 64-bit frame counter of the selected clock is not at its end.
- RtpReceive.SinkStream.ProcessPacket: assumes a packet whose header extension lies inside it and that holds no more frames than the ring.
- RtpReceive.StoreFrames: assumes no more frames than the ring holds.
- Mute.PrepareBufferLives: assumes all channels mapped, as the de-interleaving converters do; the driver's mute loop skips unused channels.
- AlsaRing.Playback.Interrupt: assumes that the frame does not cross the end of the ALSA buffer, which DelayLine.PosAligned shows when the frame size divides the buffer.
- PtpClock.ClockPtp.StartTimer: assumes settings with defined arithmetic (PtpModel.Defined); so do the manager methods that start clocks.
- AudioManager.AudioManager.SetSamplingRate: what happens in the sleeps of the wait is a parameter, and is limited to ticks and to messages and settings for the clocks; other manager calls in that time are not modelled.
- LockWait.CanSucceedIff: clock readings are inputs, so the wait that succeeds is not held to real time.
- AudioTick.AudioFrameTIC: the sending and playing part of the tick; the muting before it is Mute.PrepareBufferLives, attached legs are RtpSend.SendPackets, and the capture interrupt only reads its rings.
- CapturePath.PlayedIsCaptured: the sender is a little-endian host, as the playback copies assume.
- EndToEnd.DeliverPacket: every channel of the sink has a ring of its own; two channels on one ring cannot both be kept (RtpReceive.SinkStream.ProcessPacket covers that case).
- EndToEnd.DeliverFrame: a sink whose twin has delivered none of the frame; MergedDelivery.DeliverMerged covers both legs.
- CapturePath.PlayToCapture: the captured stretch lies inside the ring, as ManagerSafety.CaptureOnEveryRun shows for captured frames.
- AlsaRing.GenericChannel: PCM mode, in which the output step is one word.
