# Treccia datapath: models and proofs

Treccia bonds several WAN links into one tunnel. A sender numbers the bulk
ciphertexts of WireGuard, protects them with Reed-Solomon parity and stripes them
over the links; the receiver rebuilds lost packets, puts the stream back in order
and hands it up. This project models that datapath in Dafny and proves what it
promises, over every run.

Each public method of the program takes one mutex, so an operation is one atomic
step here. Time, random choices and the iteration order of Go maps are inputs.
Where the program mutates objects, the model is a class with loops; the class is
proved to simulate functions over plain values, and the theorems about runs are
lemmas about those functions.

| files | what they hold |
|---|---|
| `Words`, `BigEndian` | wrapping words, byte encodings |
| `ReorderModel`, `ReorderBuffer`, `ReorderRuns`, `ReorderAccounting`, `ReorderCounters`, `ReorderExpiry`, `ReorderDeadline`, `ReorderFaithful` | the resequencing buffer: ordered-map model, ring, theorems |
| `FecShards`, `FecEncoder`, `FecGeometry`, `FecDecoder`, `FecRepair`, `FecTheorems`, `FecEviction`, `FecOnce`, `FecTwice`, `ErasureCodes` | forward error correction, both sides |
| `Scheduler`, `SchedulerFairness`, `SchedulerChurn` | weighted round-robin, its fairness, paths that come and go |
| `LinkProbes`, `DelayBaseline` | path liveness, RTT estimate, one-way-delay baseline |
| `Correlator` | plaintext to ciphertext correlation |
| `Wire`, `Control`, `Datagrams` | datagram formats |
| `EndToEnd`, `EndToEndOrder`, `EndToEndRepair` | sender, network and receiver composed |
| `ReceiveQueue`, `SlabFlow`, `SlabSafety`, `SlabContents` | receive queue, pooled slabs and the threads that pass them on |

Main results:

- `ReorderRuns.OrderedRelease`, `ReorderAccounting.Conservation`,
  `ReorderAccounting.NoSilentLoss`: the ring of 8192 slots with 32-bit sequence
  numbers behaves as an ordered map over unwrapped positions; releases between
  resets strictly increase, and every packet has exactly one outcome.
- `FecTheorems.EnoughShardsRepair`, `FecEviction.ShardsWithinSecondRepair`: any k of
  k+m shards bring back a whole group, in particular when they arrive within a second.
- `FecOnce.AtMostOneRepair` with `FecTwice.RepairedTwice`: no packet is rebuilt
  twice exactly when a group has at most as much parity as data (m <= k).
- `EndToEnd.EndToEndSafety`, `EndToEndOrder.EndToEndOrder`,
  `EndToEndRepair.EndToEndRepairs`: the same promises for the composed system over a
  network that loses, reorders and duplicates, for streams of any length. Contents
  are right always; order is right while no packet comes 2^31 or more away from the
  release point, and `ReorderFaithful.StaleCopyOvertakes` shows what happens then.
- `SchedulerFairness.Fairness`, `SchedulerFairness.NoStarvation`: fairness for
  weights that change arbitrarily at every pick; `SchedulerChurn.ChurnBound`: among N
  paths that come and go no balance ever leaves [-(N-1)/2, (N-1)/2].
- `SlabSafety.OneOwnerAlways`, `SlabSafety.TouchedIsOwned`,
  `SlabContents.DecoderKeepsCopies`, `SlabContents.NothingIsGarbled`: threads that
  interleave freely and pass slabs around without any check never share, leak, return
  twice or touch a slab they do not hold, and nothing that is handed up or sent is
  garbled by reuse.

The Reed-Solomon code is a foreign library. It is a pair of functions here, and
`FecShards.Lawful` states the one law used of it; `ErasureCodes.RepetitionIsLawful`
and `ErasureCodes.SumIsLawful` show that the law can be met. The message authentication code is an arbitrary
function with 16-byte results.

Places where the code differs from its comments or documents; the model follows
the code:

- The hold time is clamped to 250 ms (`internal/reorder/buffer.go:91`), not 100 ms
  (`docs/ARCHITECTURE.md:95`).
- Expiry tests the lowest waiting sequence, not the packet that has waited longest
  (`internal/reorder/buffer.go:240-262`). A packet can therefore outwait the hold
  time: `ReorderExpiry.OldestMayOutwaitHold` is such a run,
  `ReorderExpiry.ExpireExact` says exactly which packets a pass leaves behind, and
  `ReorderDeadline.OutByTwiceHold` bounds the wait from the last arrival below.
- `SetParams` changes the close test of the group that is already open
  (`internal/fec/fec.go:132`, `internal/fec/fec.go:168`):
  `FecGeometry.KChangesMidGroup` is such a run and
  `FecGeometry.AnnouncedExactly` says exactly which k a group announces.
- The table of geometries has m <= k, but a flush closes a group with fewer packets
  (`internal/fec/fec.go:174-181`), so a packet can be repaired twice under the default
  table: `FecTwice.FlushedGroupRepairedTwice`.
- Acknowledgements that bring a path up need not be consecutive
  (`internal/pathmon/link.go:12`, `internal/pathmon/link.go:125`):
  `LinkProbes.UpDespiteLosses`.
- A dead path is not always down within the RTO and one probe gap of its oldest
  unanswered probe (`internal/pathmon/link.go:122`): a path slower than the 2 s cap
  comes up with overdue probes. `LinkProbes.SlowPathOutlivesRto` is such a run and
  `LinkProbes.DownWithinRto` the exact condition.
- Finished FEC groups are deleted, so the `done` flag of a stored group is never
  set (`internal/fec/fec.go:274`, `internal/fec/fec.go:313`); entries have no such
  flag here.
- The correlator has a `Flush` for handshakes that nothing calls
  (`internal/wgbridge/correlator.go:76`), so eight lost packets can block it for good:
  `Correlator.EightLostBlock`.

## Model

| member | source | states |
|---|---|---|
| `ReorderBuffer.Buffer.Push` | internal/reorder/buffer.go:110-165 | one push on the ring is one push on the ordered map keyed by unwrapped positions, in every branch, with counters and callbacks |
| `ReorderBuffer.Buffer.InsertLocked` | internal/reorder/buffer.go:167-180 | a taken slot means the same sequence is already waiting; otherwise the packet is stored under its position |
| `ReorderBuffer.Buffer.DrainLocked` | internal/reorder/buffer.go:182-197 | the loop releases what the model's drain releases |
| `ReorderBuffer.Buffer.FlushLocked` | internal/reorder/buffer.go:199-213 | one scan of the ring releases everything in ascending position order and leaves the release point |
| `ReorderBuffer.Buffer.ResetLocked` | internal/reorder/buffer.go:215-220 | flush, move the release point, clear the far count |
| `ReorderBuffer.Buffer.ArmTimerLocked` | internal/reorder/buffer.go:222-228 | the timer is armed when packets wait and none is pending |
| `ReorderBuffer.Buffer.OnTimer` | internal/reorder/buffer.go:230-238 | simulates the model's timer step |
| `ReorderBuffer.Buffer.ExpireLocked` | internal/reorder/buffer.go:240-262 | the nested loops simulate the model's expiry; they terminate |
| `ReorderBuffer.Buffer.FirstTaken` | internal/reorder/buffer.go:246-255 | while a packet waits the scan finds the lowest one, so "none found" is unreachable |
| `ReorderBuffer.Buffer.Tick` | internal/reorder/buffer.go:264-269 | simulates expiry |
| `ReorderBuffer.Buffer.Close` | internal/reorder/buffer.go:271-280 | flushes and disarms without moving the release point |
| `ReorderBuffer.Buffer.SetHold` | internal/reorder/buffer.go:83-97 | the hold time becomes `d`, or the nearer of 2 ms and 250 ms, and nothing else changes |
| `ReorderBuffer.Buffer.Snapshot` | internal/reorder/buffer.go:99-106 | depth is the number of waiting packets |
| `ReorderModel.ClampHold` | internal/reorder/buffer.go:87-93 | the hold stays in [2 ms, 250 ms] and in-range values are kept |
| `ReorderBuffer.CellOfWrap` | internal/reorder/buffer.go:168 | wrapping to 32 bits does not move a sequence to another slot |
| `ReorderBuffer.CellInjective` | internal/reorder/buffer.go:169-170 | two positions of one window never share a slot, so a collision is a duplicate |
| `ReorderBuffer.MirrorsSlide` | internal/reorder/buffer.go:195 | the window may slide over empty positions without touching the ring |
| `ReorderModel.PositionDiff` | internal/reorder/buffer.go:119 | the signed 32-bit difference is the distance between positions |
| `ReorderRuns.DrainExact` | internal/reorder/buffer.go:182-197 | draining releases exactly the maximal contiguous run at the release point |
| `ReorderRuns.FlushExact` | internal/reorder/buffer.go:199-213 | flushing releases every waiting packet, once, in ascending order |
| `ReorderRuns.StepKeeps` | internal/reorder/buffer.go:110-269 | every operation keeps order, window, tally and timer invariants |
| `ReorderRuns.OrderedRelease` | internal/reorder/buffer.go:108-280 | over every run up to and including `Close`, in-order releases strictly increase between resets; before `Close` the last one is just before the release point, whose slot is empty, and a non-empty buffer has its timer armed |
| `ReorderAccounting.Conservation` | internal/reorder/buffer.go:110-262 | the packets pushed are, as a multiset, those that left in order, left late, were dropped or wait |
| `ReorderAccounting.CountersAddUp` | internal/reorder/buffer.go:28-37 | Delivered + Duplicates + Late + Depth is the number of pushes |
| `ReorderCounters.CountersMean` | internal/reorder/buffer.go:28-37 | over every run Delivered counts in-order releases, Duplicates the pushes that found a copy waiting, Late the late releases and the far drops |
| `ReorderAccounting.DropReason` | internal/reorder/buffer.go:119-153 | a push drops its packet exactly when a copy waits or it is far and below the reset threshold; then nothing else changes, otherwise nothing is dropped |
| `ReorderAccounting.NoSilentLoss` | internal/reorder/buffer.go:110-165 | a packet that was not far from the window is, for the rest of every run, waiting or handed up |
| `ReorderExpiry.ExpireExact` | internal/reorder/buffer.go:240-262 | a packet survives an expiry pass exactly when a contiguous run at or below it has a head younger than the hold |
| `ReorderExpiry.ExpireStops` | internal/reorder/buffer.go:255-257 | a pass ends with nothing waiting or a young lowest packet |
| `ReorderExpiry.ExpireEmpties` | internal/reorder/buffer.go:243-262 | once all packets waited the hold time, a pass empties the buffer |
| `ReorderExpiry.TimeoutsCountGaps` | internal/reorder/buffer.go:258 | TimedOut grows by one for every gap given up |
| `ReorderExpiry.TimerRearms` | internal/reorder/buffer.go:230-238 | after the timer fires it is armed again exactly when packets wait |
| `ReorderExpiry.OldestMayOutwaitHold` | internal/reorder/buffer.go:240-257 | a run in which a packet waits past the hold time behind a younger, lower one |
| `ReorderDeadline.OutAfterHold` | internal/reorder/buffer.go:240-262 | over every run the first pass a hold time after the last arrival at or below a position releases everything up to it |
| `ReorderDeadline.OutByTwiceHold` | internal/reorder/buffer.go:222-262 | with the timer firing at least every hold time a packet is out within twice the hold time of the last arrival at or below it |
| `ReorderDeadline.SetHoldRules` | internal/reorder/buffer.go:83-97 | after `SetHold(d)` and any operations a pass leaves the lowest waiting packet in place exactly when it arrived less than the clamped `d` before |
| `ReorderDeadline.DefaultHoldRules` | internal/reorder/buffer.go:72-81 | until it is set the hold time is 75 ms |
| `ReorderExpiry.PushReleasesRun` | internal/reorder/buffer.go:160-164 | the packet at the release point leaves with the whole run behind it |
| `ReorderExpiry.PushWaits` | internal/reorder/buffer.go:160-164 | a new packet past the release point waits and arms the timer; nothing is released |
| `ReorderExpiry.PushOverruns` | internal/reorder/buffer.go:141-164 | an overrun releases everything in order, then the packet, and jumps |
| `ReorderExpiry.FarPacketsCount` | internal/reorder/buffer.go:119-153 | below the threshold far packets are dropped and counted, near stragglers pass, nothing moves |
| `ReorderExpiry.PeerRestart` | internal/reorder/buffer.go:119-160 | after at most 15 drops the sixteenth far packet releases everything in order, then itself, and the stream goes on behind it |
| `ReorderExpiry.FarCountReset` | internal/reorder/buffer.go:136-160 | window and overrun packets clear the far count, near stragglers pass late and keep it |
| `ReorderFaithful.PositionExact` | internal/reorder/buffer.go:119 | the wire number denotes the packet's own position exactly when it is within 2^31 of the release point, across wraps |
| `ReorderFaithful.PushFaithful` | internal/reorder/buffer.go:110-165 | fed from a stream of any length, the buffer only ever holds and releases packets under the number they were sent under |
| `ReorderFaithful.PushExact` | internal/reorder/buffer.go:110-165 | while packets are pushed near the release point each is held and released at its very position in the stream, across wraps |
| `ReorderFaithful.StaleCopyOvertakes` | internal/reorder/buffer.go:119-165 | near the end of the number space a stale copy of packet 1 is released in order behind packet 2^32 - 2 |
| `FecShards.ShardRoundTrip` | internal/fec/fec.go:61-82 | a zero-padded shard gives back its packet exactly when the length fits 16 bits |
| `FecShards.ShardLayout` | internal/fec/fec.go:61-71 | four bytes of number, two of length, then the ciphertext |
| `ErasureCodes.RepetitionIsLawful` | internal/fec/fec.go:84-108 | the erasure-code law has an instance for one data shard and any parity |
| `ErasureCodes.SumIsLawful` | internal/fec/fec.go:84-108 | the erasure-code law has an instance for any number of data shards and one parity shard |
| `FecEncoder.PickParams` | internal/fec/fec.go:28-43 | the table yields well-formed geometries with m <= k, off exactly below 0.1% |
| `FecEncoder.RedundancyRises` | internal/fec/fec.go:28-43 | parity per packet never falls as loss rises and rises exactly across a threshold; the group sizes |
| `FecEncoder.Encoder.Add` | internal/fec/fec.go:146-172 | groups, stamps and closes as the model's history of groups does |
| `FecEncoder.Encoder.Flush` | internal/fec/fec.go:174-181 | closes a stale partial group |
| `FecEncoder.Encoder.SetParams` | internal/fec/fec.go:132-137 | replaces the geometry, leaves the open group |
| `FecEncoder.Encoder.CloseLocked` | internal/fec/fec.go:183-214 | records the group and emits its parity |
| `FecEncoder.Encoder.PadLocked` | internal/fec/fec.go:190-198 | all data shards padded to the longest |
| `FecEncoder.Encoder.EmitLocked` | internal/fec/fec.go:206-212 | emits the m parity shards with their headers |
| `FecGeometry.Geometry` | internal/fec/fec.go:132-214 | under every interleaving a closed group has 1..64 packets indexed 0..k-1, the m in force at its first packet, and exactly its own parity |
| `FecGeometry.StampExact` | internal/fec/fec.go:146-171 | the stamp of the next packet names the group after the closed ones by 24 bits and its index, or there is none |
| `FecGeometry.PlacedExactly` | internal/fec/fec.go:163-171 | the stamped packets are exactly the packets of the groups at their indexes |
| `FecGeometry.ParityExactly` | internal/fec/fec.go:206-212 | parity datagrams are exactly indexes k..k+m-1 of closed groups announcing the true k and m, nothing truncated |
| `FecGeometry.KChangesMidGroup` | internal/fec/fec.go:132-171 | a geometry change reaches into the open group |
| `FecGeometry.AnnouncedExactly` | internal/fec/fec.go:132-181 | over every run with changes and flushes a group announces k exactly when packet k is the first whose number reaches the k in force, or k packets came before the flush and none did |
| `FecGeometry.SteadyGroupsAreFull` | internal/fec/fec.go:152-181 | over every run without a change of k a group announces it exactly when that many packets come before the flush, else the number that came |
| `FecGeometry.CountersExact` | internal/fec/fec.go:122-124 | GroupsClosed counts the closed groups and ParityEmitted their parity |
| `FecGeometry.FlushIsTimedFromFirstPacket` | internal/fec/fec.go:174-181 | a partial group is flushed exactly when 8 ms passed since its first packet |
| `FecDecoder.Decoder.AddData` | internal/fec/fec.go:268-282 | one data registration as a function of the state |
| `FecDecoder.Decoder.AddParity` | internal/fec/fec.go:284-299 | one parity registration, learning the geometry |
| `FecDecoder.Decoder.GroupLocked` | internal/fec/fec.go:255-266 | finds or starts a group, sweeping a full table |
| `FecDecoder.Decoder.SweepLocked` | internal/fec/fec.go:358-366 | removes exactly the stale groups and at most one victim that map order allows |
| `FecDecoder.Decoder.SettleLocked` | internal/fec/fec.go:301-349 | keeps, completes or repairs the group |
| `FecDecoder.Decoder.CountData` | internal/fec/fec.go:305-310 | counts the data shards at hand |
| `FecDecoder.Decoder.AlignShards` | internal/fec/fec.go:319-330 | hands the codec every shard in range, cut or padded to the shard length |
| `FecDecoder.Decoder.MaybeSweepLocked` | internal/fec/fec.go:351-356 | sweeps stale groups on every 128th registration |
| `FecRepair.RepairExact` | internal/fec/fec.go:316-337 | true shards, at least k of them, give back the padded data despite padding |
| `FecRepair.SettleExact` | internal/fec/fec.go:301-349 | for a truthful entry: stored, complete without output, or repaired with exactly the missing packets |
| `FecTheorems.StepSafe` | internal/fec/fec.go:268-349 | a truthful registration keeps the entry true and emits only packets of its group |
| `FecTheorems.EnoughShardsRepair` | internal/fec/fec.go:268-349 | once k distinct shards are registered, in any order, with repeats and arbitrary traffic of other groups, and without eviction, every packet of the group arrived or was emitted with its exact number and bytes |
| `FecEviction.EvictionExact` | internal/fec/fec.go:255-266 | which other groups a registration forgets, exactly: those idle for more than a second on a 128th registration or in a full table of 512, and the victim of a full table |
| `FecEviction.EvictionReason` | internal/fec/fec.go:351-366 | a group is swept only when idle for more than a second or as victim of a table of 512 |
| `FecEviction.PeriodicSweepIsThorough` | internal/fec/fec.go:351-366 | after every 128th registration no other group idle for more than a second is left |
| `FecEviction.OwnGroup` | internal/fec/fec.go:255-266 | the registered group is touched and keeps its shards unless it was swept as idle |
| `FecEviction.ActiveNeverEvicted` | internal/fec/fec.go:238-266 | with at most 512 groups and everything within a second nothing is evicted |
| `FecEviction.ShardsWithinSecondRepair` | internal/fec/fec.go:268-349 | k shards of a group that arrive within a second among at most 512 groups bring back every packet |
| `FecEviction.FailedRepairKeepsShards` | internal/fec/fec.go:331-337 | a repair the code cannot do emits nothing and keeps all shards |
| `FecTheorems.TableBounded` | internal/fec/fec.go:238-264 | the table never exceeds 512 groups |
| `FecOnce.AtMostOneRepair` | internal/fec/fec.go:255-349 | with each shard arriving at most once and m <= k, no packet is emitted twice, evictions included |
| `FecOnce.CompletedStaysQuiet` | internal/fec/fec.go:311-315 | with m <= k a group completed by its own data never emits afterwards |
| `FecTwice.RepairedTwice` | internal/fec/fec.go:255-349 | for every group with m > k there is a run, each shard once, that emits a packet twice |
| `FecTwice.FlushedGroupRepairedTwice` | internal/fec/fec.go:28-43 | the default table gets there: at 3% loss a flushed single packet is a group with m = 3 and is repaired twice |
| `Scheduler.Weighted.Pick` | internal/sched/weighted.go:27-92 | the loops compute the pick and the balances that `PickExact` and `FewCandidates` describe |
| `Scheduler.Weighted.ComputeShares` | internal/sched/weighted.go:38-74 | the three passes compute the shares |
| `Scheduler.SharesBalanced` | internal/sched/weighted.go:61-74 | shares sum to one credit and none is below 1/(n+20) |
| `SchedulerFairness.PickExact` | internal/sched/weighted.go:76-91 | for any balances: each candidate earns its share, the first of the richest pays one credit, paths that left keep their balance, and with more than twice as many balances as candidates all start from nothing |
| `SchedulerFairness.FewCandidates` | internal/sched/weighted.go:31-36 | no candidate: nothing; one: that one, without charge |
| `SchedulerFairness.Fairness` | internal/sched/weighted.go:11-13 | for arbitrary weights per pick balances sum to 0 and lie in (-1, n-1); picks stay within (-(n-1), 1) of entitlement |
| `SchedulerFairness.NoStarvation` | internal/sched/weighted.go:23-25 | every candidate is picked in any n(n+20) consecutive picks |
| `SchedulerChurn.ChurnBound` | internal/sched/weighted.go:76-91 | over every run with arbitrary candidates and weights among N paths balances sum to zero and stay in [-(N-1)/2, (N-1)/2] |
| `SchedulerFairness.SharesProportional` | internal/sched/weighted.go:38-60 | known weights above the floor are split in exact proportion |
| `SchedulerFairness.SharesLifted` | internal/sched/weighted.go:38-74 | known weights are split in proportion to their part of the total, less than 5% counting as 5% |
| `SchedulerFairness.SharesEqual` | internal/sched/weighted.go:38-60 | equal or unknown weights get equal shares |
| `SchedulerFairness.UnknownCountsAsMean` | internal/sched/weighted.go:40-57 | an unknown weight counts between the least and the greatest known one |
| `SchedulerFairness.UnknownSharesAverage` | internal/sched/weighted.go:40-60 | shares are those of the weights with the average of the known ones in place of the unknown |
| `LinkProbes.PathLink.OnProbeSent` | internal/pathmon/link.go:118-136 | sends, numbers, expires and trims as the model |
| `LinkProbes.PathLink.OnProbeAck` | internal/pathmon/link.go:138-179 | an acknowledgement answers the one waiting probe with its number, or is ignored |
| `LinkProbes.PathLink.ProbeRTO` | internal/pathmon/link.go:104-116 | the RTO is srtt + 4 rttvar, kept in [300 ms, 2 s] |
| `LinkProbes.PathLink.MarkDown` | internal/pathmon/link.go:181-195 | goes down, forgets probes and count, and restarts the loss factor at 0.2 |
| `LinkProbes.UpNeedsThreeAcks` | internal/pathmon/link.go:118-195 | over every run of a new link the path is up exactly when three or more distinct probes sent since it last went down were acknowledged in send order |
| `LinkProbes.UpDespiteLosses` | internal/pathmon/link.go:125-179 | five probes of which numbers 2 and 4 are lost bring the path up |
| `LinkProbes.NoTrimWhileUp` | internal/pathmon/link.go:125-134 | while up, the 32-entry bound never drops a probe |
| `LinkProbes.SendTakesDown` | internal/pathmon/link.go:107-128 | a probe takes an up path down exactly when the oldest unanswered one is older than srtt + 4 rttvar, or than 300 ms or 2 s where that is beyond them |
| `LinkProbes.SendExact` | internal/pathmon/link.go:118-136 | what a probe leaves: itself alone when the path went down, otherwise the last 32 unanswered ones |
| `LinkProbes.StaysSpaced` | internal/pathmon/link.go:122-151 | waiting probes stay a probe interval apart over every run |
| `LinkProbes.DownWithinDeadline` | internal/pathmon/link.go:118-136 | unanswered, an up path goes down with the first probe sent more than the RTO after the oldest waiting one, so at most one gap after that moment or after the last probe, whichever is later |
| `LinkProbes.DownWithinRto` | internal/pathmon/link.go:118-136 | whatever waits, every silent continuation takes the path down within RTO plus one gap of its oldest unanswered probe, if and only if the last probe left within the RTO of it |
| `LinkProbes.SentIsUnexpired` | internal/pathmon/link.go:118-136 | after every probe an up path sends, the condition holds |
| `LinkProbes.SlowPathOutlivesRto` | internal/pathmon/link.go:107-179 | a path with a round trip of 2.5 s comes up in a state where the condition fails and outlives the bound |
| `LinkProbes.RttStaysWithin` | internal/pathmon/link.go:158-172 | the estimate stays in the range of the samples over every run |
| `LinkProbes.SampleExact` | internal/pathmon/link.go:158-172 | the first sample and its half, then an eighth and a quarter of the way, rounded down; others are ignored |
| `LinkProbes.SmoothingContracts` | internal/pathmon/link.go:164-171 | each sample leaves seven eighths of the error and never overshoots, as in section 2 of RFC 6298 |
| `DelayBaseline.Baseline.Update` | internal/pathmon/link.go:266-281 | the baseline is the least delay over the current and previous bucket, and a real report |
| `DelayBaseline.CoversLastHalfWindow` | internal/pathmon/link.go:264-281 | every report of the last 15 s counts, across all rotations |
| `DelayBaseline.ForgetsOldReports` | internal/pathmon/link.go:264-281 | with steady reports nothing older than 30 s and one gap counts |
| `Correlator.ExpectedCtLenTight` | internal/wgbridge/correlator.go:37-42 | the least multiple of 16 that holds the plaintext, plus 32 |
| `Correlator.Matcher.PushPlain` | internal/wgbridge/correlator.go:44-51 | appends unless the FIFO is full |
| `Correlator.Matcher.MatchCiphertext` | internal/wgbridge/correlator.go:53-74 | takes the first entry of this length in the window, or misses and changes nothing |
| `Correlator.LookupExact` | internal/wgbridge/correlator.go:59-71 | a hit exactly when the window holds the length |
| `Correlator.NeverOvertakes` | internal/wgbridge/correlator.go:53-74 | the matched position is never past the true one |
| `Correlator.Correlates` | internal/wgbridge/correlator.go:9-15 | no entry goes before its ciphertext; at most 7 lost means no miss; none lost means every class is exact |
| `Correlator.WindowWedges` | internal/wgbridge/correlator.go:59-73 | eight foreign entries at the front make every later lookup miss |
| `Correlator.EightLostBlock` | internal/wgbridge/correlator.go:59-73 | from the start: once eight plaintexts of one length are lost and later ones differ, every lookup of the run misses, however long it is |
| `Correlator.EightLostMiss` | internal/wgbridge/correlator.go:30-31 | seven is tight: with eight lost the next ciphertext misses |
| `Wire.DataRoundTrip` | internal/wire/header.go:76-118 | every canonical DATA header with any payload parses back to itself |
| `Wire.DataUnique` | internal/wire/header.go:93-118 | every accepted DATA datagram re-encodes to the same bytes |
| `Wire.FecRoundTrip` | internal/wire/fec.go:26-68 | the same for FEC datagrams |
| `Wire.FecUnique` | internal/wire/fec.go:42-68 | every accepted FEC datagram re-encodes to the same bytes |
| `Wire.PutDataHeader` | internal/wire/header.go:75-91 | writes exactly the header bytes and nothing behind them |
| `Wire.PutFecHeader` | internal/wire/fec.go:26-40 | writes exactly the header bytes and nothing behind them |
| `Wire.HeaderRoundTrip` | internal/wire/header.go:28-50 | header bytes parse back, unknown types are refused |
| `Wire.FlagsRoundTrip` | internal/wire/header.go:22-26 | class, FEC bit and duplicate bit are read back independently |
| `Wire.DataLayout` | internal/wire/header.go:75-91 | where each field of a DATA header is, most significant byte first |
| `Wire.FecLayout` | internal/wire/fec.go:26-40 | where each field of an FEC header is |
| `Control.EncodeCtrl` | internal/control/ctrl.go:42-65 | the loop writes the first 40 records |
| `Control.ParseCtrl` | internal/control/ctrl.go:67-100 | the loop accepts and returns what `AcceptedExactly` says |
| `Control.AcceptedExactly` | internal/wire/hmac.go:49-58 | accepted exactly: whole records with at most one stray byte followed by the right tag, with header, session and path statistics returned |
| `Control.RecordLayout` | internal/control/ctrl.go:53-63 | where each field of a path record is |
| `Control.ForwardCompatible` | internal/control/ctrl.go:67-100 | header, session and known records survive any mix of unknown ones |
| `Control.CtrlRoundTrip` | internal/control/ctrl.go:42-100 | parsing an encoded report gives the session and its paths, of more than 40 the first 40 |
| `Control.UnknownRecordIgnored` | internal/control/ctrl.go:87-89 | an unknown record anywhere changes nothing |
| `Control.SplitOnlyJoined` | internal/control/ctrl.go:80-86 | only whole records, with at most one stray byte, are accepted |
| `Datagrams.DataArrives` | internal/engine/client.go:338-370 | a packet of any class that fits a slab arrives as itself, class 0 as bulk with its stamp and the others for direct delivery |
| `Datagrams.FrameFields` | internal/engine/client.go:339-360 | session, number, path, path number, time stamp, class and duplicate mark are read back |
| `Datagrams.BulkArrives` | internal/engine/client.go:339-370 | a bulk packet that fits a slab arrives as itself with its stamp, otherwise it is not sent |
| `Datagrams.ParityArrives` | internal/engine/client.go:300-336 | the same for a parity shard |
| `Datagrams.BytesRefineModel` | internal/engine/client.go:398-438 | through bytes the decoder is fed exactly what the end-to-end model says |
| `EndToEnd.StepKeeps` | internal/engine/client.go:288-295 | every step of sender, network and receiver keeps the system invariant, whatever the order in which receiving threads push what they received or rebuilt |
| `EndToEnd.ClosedStep` | internal/engine/engine.go:132-136 | parity that fits a slab rebuilds packets that fit one, so the copy never truncates |
| `EndToEnd.EndToEndSafety` | internal/engine/client.go:420-437 | over every run and for streams of any length each packet released or dropped was sent under the number it carries, the only one until numbers are reused, and in-order releases strictly increase between resets |
| `EndToEndOrder.EndToEndOrder` | internal/engine/client.go:288-295 | while every push is within 2^31 of the release point each packet released is the one at that position of the sent stream, for streams of any length, so in-order releases are an increasing subsequence |
| `EndToEndOrder.ShortStreamsInOrder` | internal/engine/client.go:288-295 | below 2^31 packets that holds over every network |
| `EndToEndRepair.EndToEndRepairs` | internal/engine/engine.go:132-136 | when k datagrams of a group get through without eviction, every packet of it was pushed or is about to be; until numbers are reused its ciphertext is about to be pushed, waits, was handed up or was far out of the window |
| `ReceiveQueue.EngineBind.Deliver` | internal/wgbridge/bind.go:124-143 | the slab is queued or returned, never both and never neither |
| `ReceiveQueue.QueueTakes` | internal/wgbridge/bind.go:124-143 | an open queue takes packets in order up to 1024, a closed or unopened one none |
| `ReceiveQueue.EngineBind.Receive` | internal/wgbridge/bind.go:82-92 | hands out the oldest slab and returns it |
| `ReceiveQueue.EngineBind.Open` | internal/wgbridge/bind.go:73-94 | refuses when open, otherwise starts an empty queue |
| `ReceiveQueue.EngineBind.Close` | internal/wgbridge/bind.go:96-104 | closes an open queue and keeps what is in it |
| `SlabSafety.OneOwnerAlways` | internal/engine/client.go:300-469 | over every interleaving of receiving, sending and handing-up threads each slab is held exactly once, and every view of it has its content |
| `SlabSafety.HandleSound` | internal/engine/client.go:398-469 | in every branch the handler returns its slab, hands it over or keeps it for the decoder, exactly once |
| `SlabSafety.TouchedIsOwned` | internal/engine/client.go:339-438 | every slab a thread reads or writes is held by that thread and by nobody else |
| `SlabSafety.AllReturned` | internal/buffers/pool.go:17-39 | when threads are idle and nothing waits every slab is back in the pool, once |
| `SlabSafety.CallbacksSound` | internal/engine/engine.go:158-170 | the callbacks of the buffer move every slab to exactly one place |
| `SlabContents.DecoderKeepsCopies` | internal/fec/fec.go:268-299 | the memory of a shard the decoder keeps is no slab and stays unchanged |
| `SlabContents.NothingIsGarbled` | internal/wgbridge/bind.go:82-92 | every ciphertext handed up is one that arrived or was rebuilt, and every datagram sent is one that was framed, byte for byte |
| `SlabContents.DecoderFedAsModelled` | internal/engine/client.go:409-445 | whatever other threads do meanwhile, the decoder is fed what the value model reads from the datagram |
| `SlabContents.SentAsModelled` | internal/engine/client.go:338-370 | whatever other threads do meanwhile, the socket is given the bytes of the value model, or nothing when they do not fit a slab |
| `SlabContents.OtherClassesBypass` | internal/engine/client.go:420-434 | a DATA datagram of class 1 or 2 goes to the receive queue or back to the pool; buffer and decoder do not see it |
| `SlabContents.BulkIsResequenced` | internal/engine/client.go:420-428 | a bulk datagram goes to the decoder and the buffer, not to the queue |
| `SlabContents.ForeignIsReturned` | internal/engine/client.go:409-445 | a datagram of another session, or FEC without a decoder, only gives its slab back |
| `SlabContents.RebuiltIsPushed` | internal/engine/engine.go:132-136 | the callback pushes each rebuilt packet under its own number with its own bytes |
| `SlabContents.PacketIsPushed` | internal/engine/client.go:422-428 | after the decoder the handler pushes its packet under its number, or returns its slab |
| `SlabContents.DeliveredInOrder` | internal/engine/engine.go:158-170 | what leaves the buffer is offered to the receive queue in that order |
| `SlabContents.OldestGoesUp` | internal/wgbridge/bind.go:82-92 | the receive function hands up the oldest packet |

## Left out

- Sockets, dialing, goroutines, tickers and logging: input and output plumbing; locked methods are atomic steps.
- The server's data path: it mirrors the client's.
- Concurrent senders: numbering a packet and adding it to its FEC group are one step here.
- The Reed-Solomon matrices, BLAKE2s and wireguard-go: foreign libraries, replaced by hypotheses.
- `OnCtrl` loss and capacity smoothing, the delay discount and the drop probability: single-branch clamps over floating point.
- Floating-point rounding in the scheduler: real arithmetic is used.
- 64-bit overflow of counters and durations: unbounded integers are used.
- Probe cadence of the engine and `internal/pathmon/select.go`, `internal/pathmon/rxstats.go`, `internal/classify`: heuristics and short folds.
- `internal/control/hello.go`, `internal/control/probe.go`: fixed layouts like the ones modelled.
- Choice of path and class when sending, the pending queue, configuration, dashboard, metrics, keys and the TUN shim.
- FEC geometries that no caller produces: negative ones, and more than 256 shards in total, for which nothing is emitted here.
- FecDecoder.Decoder.SweepLocked: the order in which a forced sweep visits groups is any order, as in Go.
- EndToEnd.EndToEndSafety: covers runs of at most 2^24 groups, before group identifiers are reused, and up to `Close`.
- SlabSafety.OneOwnerAlways: a push and the deliveries it causes are one action, as they run under the buffer's lock.
- ErasureCodes.SumIsLawful: no single code for all geometries up to 64 + 16 is constructed; that is the foreign library's.
- DelayBaseline.Baseline.Update: only the baseline of `updateDelayLocked`, for reports whose differences fit in 32 bits.
