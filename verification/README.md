# A model of fpvd's adaptive link

fpvd runs a digital FPV video link. A ground station watches the signal, picks a
modulation rung (MCS) and sends it to the drone; the drone derives bitrate and error
correction from the rung and drives a radio and a video encoder. This project models the
parts where state, timing and arithmetic interact, and proves what they promise for every
input, every reachable state and every run.

`dafny verify dfyconfig.toml` checks everything.

How the pieces fit together:

- **The drone's controller** (`Controller`, `Backends`, `Watchdog`) is one function of the
  events it can see — datagram, tick, gap expiration, configuration reload — and a class whose
  methods do what the function says. `ControllerSafety` proves that after every event
  the encoder is told at most what the radio is set up for, and exactly when single writes within
  an event break that. `ControllerEffects` says what each event leaves on the hardware, and
  `ControllerRecovery` when the watchdog trips and how it and the sequence filter recover from a
  restarted ground station. `ControllerRefinement` compares the
  controller with one that re-sends every setting every time, `ControllerChannel` follows the
  decisions through it, and `ControllerWitness` gives the runs that reach each failure.
- **The rate arithmetic** (`Rate`, `RateNumbers`) is what makes a staged change safe: a higher rung
  never means a lower bitrate, and the result is the largest that fits in two thirds of the air.
- **The packet** (`Crc`, `Wire`) and **the channel** (`Dedup`, `Channel`): what decodes is what
  was sent, and what is accepted is a growing sequence of sends although packets are lost,
  repeated and reordered and the 32-bit counter wraps.
- **The ground station's policy** (`Knee`, `Selector`, `Policy` and the modules named after
  them): a log of every selector call is the independent witness, and each promote and each flap
  charge in any run is justified from the log alone (`SelectorHistory`, `PolicyRuns`).
  `SelectorMoves` and `PolicyMoves` say exactly when a call or a tick moves the rung, in its
  inputs; `PolicyCounters` what the debounce counters count, and `PolicySlope` what the slope
  minimises.
- **Start order** (`Graph`, `Orchestrator`, `Validate`, `Daemon`): Kahn's algorithm and the
  depth-first cycle search are proved against one definition of a cycle, and the daemon's
  seeding of both is decided exactly.
- **Byte streams** (`Mavlink`, `Aggregation`, `Tunnel`), **configuration patches**
  (`ConfigLock`) and **port planning** (`Cluster`).

Some statements one would expect are false of the code. Each has its exact condition and an
input that reaches the failure:

- A higher rung can lower the bitrate at a link width of 40 MHz, and at no other width
  (`Rate.Width40Falls`, `Rate.ClimbsExactly`). Validation refuses 40 MHz with the dynamic link.
- Between two writes the encoder can be ahead of the radio: exactly at a trip, or at a decision
  applied in one shot, that lowers the bitrate. One-shot decisions are the first after boot or a
  trip, and all of them when staggering is off (`ControllerSafety.OverrunsExactly`,
  `ControllerWitness.UnstaggeredFallOverruns`, `ControllerWitness.SilenceOverruns`).
- Suppressed writes can leave the video radio's stbc and ldpc stale after a change in mid-gap, and
  the probe's flags and bandwidth stale after a change at any time
  (`ControllerRefinement.FlagsExactly`, `ControllerRefinement.ProbeExactly`,
  `ControllerWitness.MidGapFlipMissesRadio`, `ControllerWitness.IdleFlipMissesProbe`).
- RS parity disappears on the air when a block runs to 255 packets or more, because k and n both
  saturate a byte (`Rate.ParityOnAir`, `Rate.ParityLost`).
- A validated region-of-interest curve can be unusable where it is used, because its fields are
  narrowed on the way (`Rate.NarrowedExactly`, `Rate.NarrowingLoses`).
- With no minimum time between changes a policy tick can climb straight back out of its own demote
  (`PolicyRuns.DemoteStandsExactly`, `PolicyRuns.EagerRebounds`).
- Validated services always start, except when a service takes the name of a built-in that
  another built-in waits for (`Daemon.ValidatedStarts`, `Daemon.TunnelTakeover`).
- An empty message put into an empty aggregation queue leaves later messages without a
  pending timer (`Aggregation.PutTidyExactly`, `Aggregation.EmptyMessageStalls`). The tunnel
  never queues an empty message; a zero-length UDP datagram from the MAVLink peer would.

The configuration lock on its own lets every patch through that is not an object
(`ConfigLock.PassedHarmlessExactly`); the daemon's conversion refuses those before the lock is
asked, so no patch of any shape changes a locked value (`ConfigLock.PendingConfig.PatchPending`).

Where code and documentation disagree the model follows the code. The docstring of
`rung_confident` in `learned_prior.py` counts an inherited knee as confidence; the code reports
a rung as confident only when its own knee is trusted.

## Model

| member | source | states |
|---|---|---|
| ControllerSafety.StepKeeps | drone/src/dynlink/controller.cpp:369-592 | every event, in any phase and stale gap expirations included, keeps the invariant that orders radio and encoder |
| ControllerSafety.EncoderNeverAhead | drone/src/dynlink/controller.cpp:449-592 | in every run the encoder's bitrate is at most that of the decision last sent to the radio; an idle controller holds one decision in both or has invalidated both |
| ControllerSafety.OverrunsExactly | drone/src/dynlink/controller.cpp:449-592 | for every event: some single write leaves the encoder above the radio's decision if and only if the event is a trip, or a decision applied in one shot, that lowers the bitrate |
| ControllerSafety.RunOverrunsExactly | drone/src/dynlink/controller.cpp:369-592 | so in every run: a write put the encoder ahead if and only if such an event occurred |
| ControllerSafety.StagedNeverOverruns | drone/src/dynlink/controller.cpp:483-503 | a decision that can be staged never puts the encoder ahead at any write, whichever way the bitrate moves |
| ControllerSafety.TripOverrunsExactly | drone/src/dynlink/controller.cpp:534-557 | a trip leaves the encoder ahead between its writes if and only if the encoder was above the failsafe rate |
| ControllerRecovery.FirstAfterTripExactly | drone/src/dynlink/controller.cpp:474-487 | whatever happens between a trip and the next accepted decision, that decision puts the encoder ahead if and only if its rate is below the failsafe rate of the trip; under an unchanged configuration no rung of the table is, at any width but 40 |
| ControllerWitness.UnstaggeredFallOverruns | drone/src/dynlink/controller.cpp:481-487 | with staggering off, from boot, any two packets whose rate falls put the encoder ahead |
| ControllerWitness.SilenceOverruns | drone/src/dynlink/controller.cpp:534-542 | from boot, a packet above the failsafe rate and silence until the timeout put the encoder ahead |
| ControllerRecovery.WatchdogStep | drone/src/dynlink/watchdog.cpp:8-26 | over any event, only an accepted decision feeds the watchdog, only a trip latches it, and its timeout is the configuration's, a reload's from then on |
| ControllerRecovery.TimeoutFollows | drone/src/dynlink/controller.cpp:386-434 | in every run from boot the watchdog's timeout is the health timeout of the configuration in force |
| ControllerRecovery.TripsExactly | drone/src/dynlink/watchdog.cpp:10-26 | in every run a tick trips if and only if a decision was accepted, none has tripped since, and the last one is the configured health timeout old, read off a log of accepted decisions and trips |
| ControllerRecovery.TripFollowsDecision | drone/src/dynlink/watchdog.cpp:10-26 | no trip before a first accepted decision, and an accepted decision between any two trips |
| ControllerRecovery.RunAmnesia | drone/src/dynlink/controller.cpp:545-557 | in every run a tripped controller has forgotten every baseline and the last sequence number |
| ControllerRecovery.SilenceKeepsClock | drone/src/dynlink/controller.cpp:451-456 | dropped and undecodable packets leave the watchdog's clock alone over any stretch of events |
| ControllerRecovery.RestartRecovered | drone/src/dynlink/controller.cpp:516-562 | a ground station restarted at any sequence number is recovered by the first tick at or past the configured health timeout; the next valid packet is accepted and re-emitted in full |
| ControllerEffects.DecisionLeaves | drone/src/dynlink/controller.cpp:456-503 | what an accepted decision leaves on the hardware, exactly: both sides, or the radio with the encoder waiting on the way up, or the encoder with the radio waiting on the way down |
| ControllerEffects.GapLeaves | drone/src/dynlink/controller.cpp:573-592 | a gap expiration completes the waiting side with the pending decision and leaves the other alone; a stale one changes no device |
| ControllerEffects.TripLeaves | drone/src/dynlink/controller.cpp:534-562 | a trip leaves radio, probe, power and encoder at rung 0 of the configuration in force, at the frame rate they had |
| ControllerEffects.ReloadLeaves | drone/src/dynlink/controller.cpp:386-434 | a reload adopts the whole configuration, curve and watchdog timeout included, and writes the radio word if and only if a flag changed while idle with a decision in force |
| ControllerEffects.AcceptsExactly | drone/src/dynlink/controller.cpp:438-471 | a datagram is accepted if and only if its bytes are a packet and its number is 1 to 2^31 - 1 ahead or the first; what is applied is its rung at the configured width, 5 and 10 MHz modulated as 20 |
| ControllerEffects.Widths | drone/src/link_width.hpp:9-11 | 5 and 10 MHz are modulated as 20 MHz, every other width as itself |
| ControllerRefinement.SuppressionRefines | drone/src/dynlink/controller.cpp:187-280 | after every run FEC, the radio's rung and bandwidth, the probe's rung, transmit power and the encoder are as a controller that re-sends everything leaves them |
| ControllerRefinement.FlagsStep | drone/src/dynlink/controller.cpp:197-207 | one step, exactly: after a radio write of the always-send controller the flags agree if and only if the program writes too or its radio already has the configured flags |
| ControllerRefinement.FlagsExactly | drone/src/dynlink/controller.cpp:187-280 | over every run the radio's flags agree if and only if the last such write was not held back with stale flags |
| ControllerRefinement.FreshStep | drone/src/dynlink/controller.cpp:412-434 | configured flags on the radio go stale through a flag change in mid-gap and through nothing else |
| ControllerRefinement.FlagsRefine | drone/src/dynlink/controller.cpp:412-434 | the stbc and ldpc flags agree too in runs without a flag change in mid-gap |
| ControllerRefinement.ProbeExactly | drone/src/dynlink/controller.cpp:216-227 | over every run the probe's flags and bandwidth agree if and only if its last write was not held back, the rung being unchanged, with stale ones |
| ControllerRefinement.ProbeRefine | drone/src/dynlink/controller.cpp:216-227 | the probe agrees in full in every run whose reloads leave flags and modulation width alone |
| ControllerWitness.MidGapFlipMissesRadio | drone/src/dynlink/controller.cpp:424-434 | from boot: rise, flag change in mid-gap, same rung again; the radio keeps the old flags |
| ControllerWitness.IdleFlipMissesProbe | drone/src/dynlink/controller.cpp:216-227 | from boot: packet, flag change while idle, same rung again; the probe keeps the old flags |
| ControllerWitness.DemoRuns | drone/src/dynlink/controller.cpp:369-592 | one validated 20 MHz configuration in which all four of these runs happen |
| ControllerChannel.AcceptedBetweenTrips | drone/src/dynlink/controller.cpp:449-457 | in the whole controller, between boot or a trip and the next trip, the decisions accepted are a strictly increasing subsequence of those sent, whatever ticks, expirations and reloads interleave |
| ControllerChannel.FilterFresh | drone/src/dynlink/controller.cpp:557 | the sequence filter is as new at boot and after every trip |
| Controller.DynamicLinkController.ReadDatagram | drone/src/dynlink/controller.cpp:438-526 | decode, filter, supersede and stage one decision: the new state is the event's step |
| Controller.DynamicLinkController.ReadTick | drone/src/dynlink/controller.cpp:528-571 | the watchdog tick and its failsafe: the new state is the event's step |
| Controller.DynamicLinkController.ReadGap | drone/src/dynlink/controller.cpp:573-592 | phase two of a staged change: the new state is the event's step |
| Controller.DynamicLinkController.ReadReload | drone/src/dynlink/controller.cpp:386-434 | adopting a configuration: the new state is the event's step, whose parts ReloadLeaves states |
| Controller.DynamicLinkController.DispatchTxApply | drone/src/dynlink/controller.cpp:187-245 | the writes a decision causes, in order and in full, each suppressed exactly when its cache agrees |
| Controller.DynamicLinkController.DispatchTxSafe | drone/src/dynlink/controller.cpp:247-280 | the failsafe's writes and the decision it returns |
| Backends.EncoderClient.Apply | drone/src/dynlink/encoder_client.cpp:14-40 | the encoder write and the cache it leaves, suppressed only when bitrate, ROI-QP and frame rate are all unchanged |
| Backends.EncoderClient.ApplySafe | drone/src/dynlink/encoder_client.cpp:42-59 | the failsafe bitrate reaches the encoder and the cache |
| Backends.RadioTxpower.Apply | drone/src/dynlink/radio_txpower.cpp:82-92 | a fixed power is set unless already in force |
| Backends.RadioTxpower.ApplyAuto | drone/src/dynlink/radio_txpower.cpp:71-80 | automatic power is set unless already in force |
| Watchdog.Timer.Tick | drone/src/dynlink/watchdog.cpp:16-26 | fires once when due, and stays latched |
| Rate.RateMonotone | drone/src/dynlink/local_compute.cpp:10-45 | at every width but 40 the derived bitrate never falls from a rung to a higher one, for every valid ratio, mtu, frame rate, block bounds and probe, in both modes |
| Rate.ClimbsExactly | drone/src/dynlink/bitrate.cpp:6-64 | that holds for every valid configuration of a width if and only if the width is not 40 |
| Rate.Width40Falls | drone/src/dynlink/bitrate.cpp:6-30 | a valid 40 MHz configuration whose bitrate falls from rung 6 to rung 7 |
| Rate.TargetStep | drone/src/dynlink/bitrate.cpp:32-45 | the wire target grows by at least 95/84 per rung |
| Rate.CodeRateDrop | drone/src/dynlink/fec.cpp:22-24 | rounding parity up costs a longer block at most a ninth of its code rate against a shorter one |
| Rate.KMono | drone/src/dynlink/fec.cpp:7-20 | block size lies within its bounds and never falls as the target grows |
| Rate.AirtimeBudget | drone/src/dynlink/bitrate.cpp:32-71 | source, parity and probe airtime stay within two thirds of the table rate whenever the bitrate is above its floor, in rs and swfec modes |
| RateNumbers.BaseRates | drone/src/dynlink/bitrate.cpp:6-30 | the eight 20 MHz rates, 10 MHz at exactly half of each, and none beyond the eight rungs |
| RateNumbers.OtherWidths | drone/src/dynlink/bitrate.cpp:23-29 | widths other than 10, 20 and 40 MHz have no rate |
| RateNumbers.ProbeCost | drone/src/dynlink/local_compute.cpp:12-20 | the probe's share of the air: 280 kbps at the rung above, under its ceiling, or nothing when it is off |
| RateNumbers.BudgetFilled | drone/src/dynlink/bitrate.cpp:32-71 | the bitrate is the largest that fits: within its bounds, and one more kbps would take source, parity and probe over two thirds of the table rate |
| RateNumbers.TenMhzRates | drone/src/dynlink/local_compute.cpp:17-20 | without probe and overhead a 10 MHz link is given 2166 kbps at rung 0 and 18333 at rung 7 |
| RateNumbers.BlockExactly | drone/src/dynlink/fec.cpp:7-20 | k packets and their parity fit a frame's share of the target and k + 1 would not, within the bounds |
| RateNumbers.ParityExactly | drone/src/dynlink/fec.cpp:22-24 | n is the least whole number of packets that reaches the redundancy ratio |
| RateNumbers.SlotsExactly | drone/src/dynlink/local_compute.cpp:28-44 | what each slot of the derived record holds in both modes |
| RateNumbers.RoiExactly | drone/src/dynlink/roi_qp.cpp:9-24 | the offset is the floor scaled by the distance below the threshold, in whole steps toward zero |
| Rate.ParityOnAir | drone/src/dynlink/local_compute.cpp:18-42 | n exceeds k as computed, and as sent if and only if the block stays under 255 packets by its bounds or its traffic |
| Rate.ParityLost | drone/src/dynlink/local_compute.cpp:36-40 | every valid rs configuration with both block bounds at 300 sends 255 of 255 |
| Rate.RoiMonotone | drone/src/dynlink/roi_qp.cpp:9-24 | the region-of-interest offset never falls as the bitrate grows |
| Rate.RoiRange | drone/src/dynlink/roi_qp.cpp:9-24 | the offset stays between its floor and zero |
| Rate.NarrowedExactly | drone/src/dynlink/runtime_config.cpp:17-22 | a validated curve reaches the controller unchanged if and only if its fields fit, and usable if and only if what is left of them keeps the validated order |
| Rate.NarrowingLoses | drone/src/dynlink/runtime_config.cpp:17-22 | validated curves that arrive with a step of zero and a threshold of one |
| Rate.DerivedPositive | drone/src/dynlink/local_compute.cpp:10-45 | derived bitrate and frame rate are positive and fit their fields |
| Crc.Crc32 | drone/src/dynlink/wire.cpp:42-52 | the masked bit-serial loop leaves the complement of the remainder of polynomial division |
| Crc.ChecksumIsDivision | drone/src/dynlink/wire.cpp:42-52 | the checksum is the remainder of the message polynomial by the generator of IEEE 802.3 clause 3.2.9 |
| Crc.RemainderUnique | drone/src/dynlink/wire.cpp:42-52 | division by that generator has one remainder |
| Crc.BurstDetected | drone/src/dynlink/wire.cpp:42-52 | messages that differ within any 32 consecutive bits have different registers |
| Wire.EncodeDecision | drone/src/dynlink/wire.cpp:68-80 | fills the buffer with the packet, or writes nothing when it is short, and touches nothing beyond |
| Wire.DecodeDecision | drone/src/dynlink/wire.cpp:82-103 | the verdict in the order of the tests; Ok means the bytes are the packet of the decision returned |
| Wire.PacketLayout | drone/src/dynlink/wire.cpp:68-80 | the packet byte by byte, words high byte first |
| Wire.VerdictExactly | drone/src/dynlink/wire.cpp:82-103 | each verdict and each decoded field in terms of the bytes |
| Wire.RoundTrip | drone/src/dynlink/wire.cpp:68-103 | an encoded decision decodes to its flags, sequence and rung, whatever follows it |
| Wire.OnlyPacketsDecode | drone/src/dynlink/wire.cpp:82-103 | only encoder output decodes |
| Wire.WindowRejected | drone/src/dynlink/wire.cpp:82-94 | any change within four consecutive payload bytes is rejected |
| Wire.BurstRejected | drone/src/dynlink/wire.cpp:82-94 | so is any change within 32 consecutive payload bits, at any alignment |
| Wire.Encoder.Encode | gs/fpvdgs/dynlink/wire.py:49-66 | the ground station's packet carries the counter, which then wraps at 2^32, or an explicit number, which leaves the counter alone |
| Dedup.Filter.Check | drone/src/dynlink/dedup.cpp:7-18 | drops exactly what is not ahead of the last accepted number on the 32-bit circle |
| Channel.AcceptedIncreasing | drone/src/dynlink/controller.cpp:449-457 | with lag of at most 2^31 sends, what is accepted between resets is a strictly increasing subsequence of what was sent, bit for bit, across any number of wrap-arounds |
| Channel.AcceptedExactlyNewest | drone/src/dynlink/dedup.cpp:7-18 | with jumps below 2^31 too, a packet is accepted if and only if it is newer than all before it |
| Channel.LagBoundTight | drone/src/dynlink/dedup.cpp:7-18 | one send beyond the lag bound an old packet is accepted |
| Knee.KneeModel.Observe | gs/fpvdgs/dynlink/learned_prior.py:78-92 | one observation moves the knee and decays the confidences, as FailuresTighten, CleanRelaxes, FirstFailure, OthersFade and OwnGrows state in numbers |
| Knee.FailuresTighten | gs/fpvdgs/dynlink/learned_prior.py:88-91 | n failures at v above the knee x, among any observations of other rungs, leave v - knee == (v - x) * (1 - alphaTighten)^n |
| Knee.CleanRelaxes | gs/fpvdgs/dynlink/learned_prior.py:88-91 | n clean samples at v below it leave knee - v == (x - v) * (1 - alphaRelax)^n |
| Knee.FirstFailure | gs/fpvdgs/dynlink/learned_prior.py:84-91 | a first failure plants the knee where it failed; clean samples never plant or raise one, failures never lower one |
| Knee.OthersFade | gs/fpvdgs/dynlink/learned_prior.py:81-83 | n observations of other rungs fade a confidence by decay^n |
| Knee.OwnGrows | gs/fpvdgs/dynlink/learned_prior.py:81-92 | n observations of a rung add up to the geometric sum, or to n without decay |
| Knee.EffectiveExactly | gs/fpvdgs/dynlink/learned_prior.py:94-124 | a rung has a knee if and only if its own has the samples; it is the largest trusted one at or below, and unviable means under it by the margin |
| Knee.KneeModel.EffKnees | gs/fpvdgs/dynlink/learned_prior.py:94-102 | the running-maximum loop yields the effective knee of every rung |
| Knee.RunningIsMax | gs/fpvdgs/dynlink/learned_prior.py:94-102 | the running value is the largest trusted knee so far, and absent only when there is none |
| Knee.UnviablePropagates | gs/fpvdgs/dynlink/learned_prior.py:104-124 | what is unviable at a rung is unviable at every confident rung above |
| Knee.KneeBracketed | gs/fpvdgs/dynlink/learned_prior.py:78-92 | over any history from any stored knees, a knee is unset until stored or first failed and then lies between the smallest observed and the largest failing value, a stored knee counting as both |
| Knee.ConfidenceBounded | gs/fpvdgs/dynlink/learned_prior.py:78-92 | over any history total confidence stays within its start and 1/(1 - decay) |
| Selector.LeadingSelector.Choose | gs/fpvdgs/dynlink/policy.py:299-440 | one selector call: the new state is Select's, which the SelectorMoves rows state in the inputs |
| Selector.LeadingSelector.ExternalDemote | gs/fpvdgs/dynlink/policy.py:283-297 | a demote decided elsewhere |
| Selector.LeadingSelector.SnapbackTarget | gs/fpvdgs/dynlink/policy.py:272-281 | the loop finds the highest live confirmed rung within the margin |
| Selector.LeadingSelector.Suppressed | gs/fpvdgs/dynlink/policy.py:231-255 | the damper's verdict and how it was released |
| SelectorMoves.DemotesExactly | gs/fpvdgs/dynlink/policy.py:351-379 | a call lowers the rung, by one, if and only if it may, there is one below, and loss, FEC pressure or starvation says so |
| SelectorMoves.PromotesExactly | gs/fpvdgs/dynlink/policy.py:403-436 | a call raises the rung, by one, if and only if it is clean with an SNR and room, the rate limit, the probe and the damper allow it, and a rung's confirmation is nearly recovered or the dwell is ripe; and by which route. The window of twenty it takes for granted is RecentIsLatest's |
| SelectorMoves.CallLeaves | gs/fpvdgs/dynlink/policy.py:341-436 | time of the last change, dwell and probation after any call |
| SelectorMoves.FailExactly | gs/fpvdgs/dynlink/policy.py:257-270 | what a call reports to be taught: the raw SNR of a collapse, else the SNR of a failed probation, else nothing |
| SelectorMoves.ReportsExactly | gs/fpvdgs/dynlink/policy.py:342-436 | the reason a call gives: the route of a promote, the class of a demote on loss, emergency, or none |
| SelectorMoves.SuppressedExactly | gs/fpvdgs/dynlink/policy.py:231-255 | the damper's verdict from its table and the last twenty raw windows |
| SelectorMoves.MemoryLeaves | gs/fpvdgs/dynlink/policy.py:386-398 | which calls confirm a rung, for how long and at which SNR |
| SelectorMoves.DamperLeaves | gs/fpvdgs/dynlink/policy.py:223-229 | a probation loss charges the rung, a long dwell clears it, nothing else touches it |
| SelectorMoves.LevelDecays | gs/fpvdgs/dynlink/policy.py:215-221 | every whole quiet decay period forgives one level |
| SelectorMoves.BackoffExactly | gs/fpvdgs/dynlink/policy.py:209-213 | the window is base times multiplier^(n - 1) in whole milliseconds, up to the cap, with the exponent held at 40 |
| SelectorMoves.RecentIsLatest | gs/fpvdgs/dynlink/policy.py:338-340 | in every run the damper looks at the last twenty raw SNR windows |
| SelectorHistory.RunSound | gs/fpvdgs/dynlink/policy.py:299-440 | over every run the log bears out the dwell counter, the deadlines and the damper tables, and the bar of a rung is the highest SNR confirmed in its entry's unbroken life |
| SelectorHistory.PromotesJustified | gs/fpvdgs/dynlink/policy.py:381-436 | a knee or explore promote follows a full clean dwell at its rung; a snap-back aims at a rung so confirmed within the time to live, and comes within the margin of every confirmation since its entry last lapsed, however old |
| SelectorHistory.BarNeverFalls | gs/fpvdgs/dynlink/policy.py:386-398 | while every operation finds a rung's entry live, its bar never falls |
| SelectorHistory.ChargesSpaced | gs/fpvdgs/dynlink/policy.py:209-255 | consecutive charges of a rung are the first backoff apart unless the rung was re-entered by a raw-minimum or probe release |
| Policy.Engine.OnTick | gs/fpvdgs/dynlink/policy.py:500-702 | one tick: the new state is Tick's, which the PolicyMoves rows state in the signals |
| Policy.Engine.OnLoss | gs/fpvdgs/dynlink/policy.py:704-761 | the fast path between ticks |
| Policy.Engine.ResetForNewSession | gs/fpvdgs/dynlink/policy.py:775-792 | a new session forgets everything but the knees |
| Policy.Engine.BindLearnedPrior | gs/fpvdgs/dynlink/policy.py:763-773 | another card or width brings its own knees and touches nothing else; the same one changes nothing |
| PolicyMoves.PreparedExactly | gs/fpvdgs/dynlink/policy.py:505-575 | a tick lowers the rung before the selector if and only if there is one below, the cooldown is over, and the projected SNR foretells a failure for the debounce count or the SNR is under the knee for the other; and every counter then |
| PolicyMoves.TickExactly | gs/fpvdgs/dynlink/policy.py:500-632 | a tick lowers or raises the rung, by one, if and only if a condition on its signals and the state before holds |
| PolicyMoves.TickTeaches | gs/fpvdgs/dynlink/policy.py:628-652 | the knees after a tick are what the loss that lowered the rung and then the settled clean sample teach |
| PolicyMoves.LossExactly | gs/fpvdgs/dynlink/policy.py:704-761 | a loss event lowers the rung if and only if the loss breaches, the cooldown is over and there is one below; what it teaches, and that it touches nothing else |
| PolicyCounters.CountersCount | gs/fpvdgs/dynlink/policy.py:509-606 | in every run the debounce counters are numbers of consecutive windows, read off a log, and the slope is over the last SNR values |
| PolicyCounters.StarvationLowers | gs/fpvdgs/dynlink/policy.py:509-516 | starvationWindows starved windows in a row lower the rung once the cooldown is over, with a positive minimum time between changes |
| PolicyCounters.SinkingLowers | gs/fpvdgs/dynlink/policy.py:555-575 | snrDebounce windows in a row under the knee lower the rung once the cooldown is over, with a positive minimum time between changes |
| PolicySlope.SlopeIsBest | gs/fpvdgs/dynlink/learned_prior.py:30-41 | the slope is that of the line with the least squared distance from the samples, and of no other |
| PolicyRuns.TickMoves | gs/fpvdgs/dynlink/policy.py:505-629 | a tick moves at most one rung, demotes only after the cooldown and, with a positive minimum time between changes, never undoes a demote it made |
| PolicyRuns.DemoteStandsExactly | gs/fpvdgs/dynlink/policy.py:403-436 | a demote made before the selector runs is undone if and only if there is no minimum time and every other guard of a promote is open |
| PolicyRuns.EagerRebounds | gs/fpvdgs/dynlink/policy.py:534-553 | under a configuration the schema accepts, from a new session with a stored knee: four windows of falling SNR, the last of which undoes its own demote |
| PolicyRuns.CooldownHolds | gs/fpvdgs/dynlink/policy.py:713-732 | over all demote paths and any interleaving, D events that lower the rung need (D - 1) times the cooldown in ticks |
| PolicyRuns.PromoteHeadroom | gs/fpvdgs/dynlink/policy.py:577-626 | no promote enters a rung whose confident knee the SNR does not clear by the promote margin |
| PolicyRuns.RunIsSelectorRun | gs/fpvdgs/dynlink/policy.py:500-761 | every policy run drives its selector as a run of selector operations |
| PolicyRuns.PolicyRunSound | gs/fpvdgs/dynlink/policy.py:500-761 | so promotes are justified, bars are those of unbroken lives and charges are spaced in every policy run, re-bound priors included |
| Orchestrator.Registry.StartOrder | drone/src/supervise/orchestrator.cpp:39-70 | Kahn's loop: a duplicate-free order of all specs with registered dependencies first, beginning with the names that wait for nobody in key order, or the error, which comes if and only if there is a cycle |
| Orchestrator.Registry.StopOrder | drone/src/supervise/orchestrator.cpp:72-76 | its reverse |
| Graph.StuckCyclic | drone/src/supervise/orchestrator.cpp:67-68 | processes that all wait for one another contain a cycle |
| Graph.TopologicalAcyclic | drone/src/supervise/orchestrator.cpp:39-70 | a dependency-first order excludes cycles |
| Validate.HasCycle | drone/src/config/validate.cpp:35-58 | the coloured depth-first search answers true if and only if there is a cycle |
| Validate.CycleSearch.Visit | drone/src/config/validate.cpp:37-52 | one visit: a cycle, or the node and all it waits for are finished in dependency order |
| Daemon.ValidatedStarts | drone/src/daemon.cpp:93-154 | validation guarantees a start order for a set of service names if and only if no built-in left in place waits for one of them |
| Daemon.TunnelTakeover | drone/src/daemon.cpp:105-107 | a validated service named wfb_tun_rx that leaves no start order |
| Daemon.BuiltinsFirst | drone/src/daemon.cpp:93-130 | in every start order in which no service replaces it, the encoder, the tunnel and the telemetry router come after the links they use |
| Daemon.ProbeFirst | drone/src/daemon.cpp:140-154 | the probe's feed comes after its transmitter, whatever the services are called |
| Daemon.SeedOrchestrator | drone/src/daemon.cpp:93-154 | built-ins, enabled services and probe, later registrations replacing earlier ones |
| Daemon.BringUp | drone/src/daemon.cpp:93-154 | validation, seeding and ordering together |
| Daemon.RemoveProbeStream | drone/src/daemon.cpp:266-269 | the probe's processes go and a start order remains |
| Mavlink.Parser.Send | gs/fpvdgs/wfb/mavproxy.py:76-128 | one chunk: the frames of the scan, the rest retained, whatever the garbage-collection threshold |
| Mavlink.ChunksIrrelevant | gs/fpvdgs/wfb/mavproxy.py:76-128 | however a stream is cut, the parser finds what one scan of the whole finds |
| Mavlink.ScanAccounts | gs/fpvdgs/wfb/mavproxy.py:105-128 | every byte is framed, skipped or retained, at most 279 are retained, and what is framed is well formed |
| Mavlink.Resynchronises | gs/fpvdgs/wfb/mavproxy.py:115-128 | frames behind any run of bytes that are not start markers come out exactly |
| Mavlink.SplitFrames | gs/fpvdgs/wfb/mavproxy.py:131-141 | a concatenation of well-formed frames is split into exactly those frames |
| Mavlink.FrameLayout | gs/fpvdgs/wfb/mavproxy.py:105-128 | a frame is well formed if and only if its length is header, payload and checksum of its version, and the signature where flagged |
| Mavlink.PackRadioStatus | gs/fpvdgs/wfb/mavproxy.py:57-73 | the injected frame is one well-formed frame that survives the splitter, with its fields and a valid checksum |
| Mavlink.X25IsBitwise | gs/fpvdgs/wfb/mavproxy.py:44-50 | the byte-wise checksum update is eight divisions by the CCITT polynomial |
| Mavlink.X25Check | gs/fpvdgs/wfb/mavproxy.py:44-50 | the published check value of this checksum |
| Aggregation.RunDelivers | gs/fpvdgs/wfb/agg_queue.py:30-73 | under any interleaving of non-empty messages, expiries and flushes: batches within the limit, a timer pending if and only if something waits, every accepted message once and in order |
| Aggregation.PutTidyExactly | gs/fpvdgs/wfb/agg_queue.py:36-63 | the put that keeps this is exactly one that is refused, passed through, not empty, or joins waiting messages |
| Aggregation.PutExactly | gs/fpvdgs/wfb/agg_queue.py:30-63 | what fits joins the waiting bytes, what does not sends them as one batch and waits alone, what is over the limit is refused |
| Aggregation.FlushExactly | gs/fpvdgs/wfb/agg_queue.py:65-73 | a flush sends whatever waits as one batch |
| Aggregation.EmptyMessageStalls | gs/fpvdgs/wfb/agg_queue.py:60-73 | an empty message into an empty queue strands the next one |
| Aggregation.AggQueue.PutMessage | gs/fpvdgs/wfb/agg_queue.py:30-63 | the new state, and what was sent is the batch joined |
| Aggregation.AggQueue.TimerFires | gs/fpvdgs/wfb/agg_queue.py:65-73 | the timer's flush, which keeps the spent handle when there is nothing to send |
| Tunnel.TunnelDelivers | gs/fpvdgs/wfb/tunnel.py:358-371 | packets unpacked from the batches sent, then those queued, are exactly the packets read off the tun, in order; none is refused as oversize |
| Tunnel.UnpackBatch | gs/fpvdgs/wfb/tunnel.py:67-90 | the unpacking loop |
| Tunnel.RoundTrip | gs/fpvdgs/wfb/tunnel.py:61-90 | unpacking packed packets returns them |
| Tunnel.UnpackPrefix | gs/fpvdgs/wfb/tunnel.py:67-90 | on any bytes the packets are a prefix, cut where no complete packet follows |
| Tunnel.UnpackMaximal | gs/fpvdgs/wfb/tunnel.py:67-90 | no other reading finds more packets |
| ConfigLock.DeepMergeJson | drone/src/config/store.cpp:13-26 | the merging loop |
| ConfigLock.MergeIdempotent | drone/src/config/store.cpp:13-26 | merging a patch twice is merging it once |
| ConfigLock.CollectWrittenPaths | drone/src/config/lock.cpp:32-47 | exactly the paths that lead to a leaf or an empty object |
| ConfigLock.CheckDynamicLinkLock | drone/src/config/lock.cpp:78-101 | exactly the written paths at, above or below a locked one |
| ConfigLock.TripsExactly | drone/src/config/lock.cpp:7-26 | the locked names, so stbc, ldpc, width and the rest of link.fec are free, and link.fec as a whole is not |
| ConfigLock.HarmlessExactly | drone/src/config/store.cpp:13-26 | a patch leaves a path alone in every base if and only if it neither reaches it nor replaces an ancestor by a leaf |
| ConfigLock.RefusesExactly | drone/src/config/lock.cpp:59-99 | the lock refuses exactly the patches that can change a locked value and those with an empty object above one |
| ConfigLock.LockProtects | drone/src/config/lock.cpp:78-101 | an object patch that passes leaves every locked value as it was, for every base |
| ConfigLock.PassedHarmlessExactly | drone/src/config/lock.cpp:78-84 | of the patches the lock lets through, exactly the objects are harmless to a locked path; every other patch is let through |
| ConfigLock.PendingConfig.PatchPending | drone/src/daemon.cpp:271-289 | accepted if and only if it converts, passes the lock and validates; only then is the pending configuration changed, and no patch changes a locked value while the dynamic link is enabled |
| Cluster.PlanCluster | gs/fpvdgs/wfb/cluster.py:92-139 | cards by node, one server port per service, one block of injector ports per node and service, and the receive-only cards |
| Cluster.CardsKept | gs/fpvdgs/wfb/cluster.py:70-100 | a node has every card that names it as often as it is listed, the local node those that name none, and no other |
| Cluster.PortsDisjoint | gs/fpvdgs/wfb/cluster.py:115-124 | every block of a node is contiguous, sized to its cards and disjoint from its others; server ports are distinct |
| Cluster.ProbeAppendOnly | gs/fpvdgs/wfb/cluster.py:58-59 | adding the probe changes no base service's port |
| Cluster.WlanIdInjective | gs/fpvdgs/wfb/cluster.py:79-80 | ids are injective for indices below 2^24, and collide at 2^24 |

## Left out

- Floating point: doubles and Python floats are exact reals, so rounding is not modelled; integer intermediates of the rate arithmetic are unbounded before they saturate.
- Region-of-interest curves that narrowing makes unusable: the controller's configuration is taken after narrowing, with a usable curve.
- Device failures: every write to the radio, the encoder and `iw` succeeds, so the caches' error branches are not modelled.
- OSD text, status publication, sockets, poll, threads and sleeps: only the events they deliver, in any order.
- A minimum delay between the two phases of a staged change: a stale gap expiration can end the first phase early, so the order is proved and not the delay.
- Wire.WindowRejected: covers the payload, not windows that reach into the checksum bytes themselves.
- PolicyRuns.CooldownHolds: counts within one session, because a session reset restores the cooldown counter, and counts a demote that its own tick undoes as none.
- PolicyRuns.PolicyRunSound: starts from a fresh session with a clock that does not run backwards.
- Policy output that does not steer the rung (reasons, flight log, flap telemetry) and the prior's files on disk: `load` takes the stored knees as given.
- Orchestrator.Registry.StartOrder: the sorted enumeration of the map is an argument, and the order among names that become ready later is not stated; starting, stopping and restarting processes is not modelled.
- The rest of validation (ranges, codecs, names): its range rules appear as preconditions of the rate lemmas, and its verdict as an argument of PatchPending.
- ConfigLock.CheckDynamicLinkLock: the order of the reported paths and their dotted spelling are not modelled.
- ConfigLock.PendingConfig.PatchPending: of the conversion to a configuration only its refusal of anything but an object is modelled; whether the fields convert is an argument, and the defaults it fills in are left out.
- Mavlink.Parser.Send: the count of bytes skipped before resynchronising is only logged and is not modelled.
- Mavlink.PackRadioStatus: system and component ids outside a byte, which make packing fail, are excluded by type.
- Tunnel.Pack: packets over 65535 bytes, on which packing fails, are excluded; the mtu is otherwise unconstrained.
- Tunnel keepalives, socket selection and tun writes; MAVLink peers; SSH sessions and scripts of cluster nodes.
- Cluster.PlanCluster: the spelling of the peer strings is not modelled; receive-only cards are node and index pairs, which WlanIdInjective ties to ids.
- Cluster.WlanIdInjective: takes the IPv4 address as a number; parsing the dotted form is not modelled.
- HTTP API, configuration files, beamforming, radio bring-up and the ground station's user interface are not part of this model.
