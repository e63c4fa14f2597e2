# Verified model of the repeater's packet, metrics and policy logic

A Dafny 4.11 project that models the parts of the repeater whose correctness is hardest to see from one
function: a mesh relay with a duplicate cache, single delivery under concurrency, tiered metrics retention,
several transactional state machines, a policy compiler, and two integer algorithms of the concentrator library.
`dafny verify dfyconfig.toml` checks all of it.

## What is modelled

- **Single delivery to companions** (`CompanionCache`, `CompanionDelivery`, `CompanionRuns`). Copies of a packet are
  coroutines; a run is any sequence of their uninterrupted sections, mixed with cancellations and the passing of time.
- **Metrics retention** (`SqlAggregates`, `MetricsRollup`, `RetentionTiers`, `RetentionLedger`, `RetentionPass`,
  `ChannelBaseline`). Tables are sequences of rows; the SQL aggregates are defined on exact numbers with NULL.
  Proofs keep a ledger of the samples each summary row stands for.
- **The relay** (`MeshPacket`, `WireFormat`, `SeenPackets`, `RelayRules`, `RelaySends`, `Repeater`, `RelayPaths`,
  `RelayRuns`). Three wire parsers, the duplicate cache, the forwarders as methods that change the packet object and
  the cache, when a packet is sent and what, and what follows: for floods, direct routes and acknowledgements across
  a network, and for one node over a whole run. A hash stands for its preimage.
- **State machines** (`DedupWriter`; `IdentityRegistry`, `RoomActivation`, `RoomRuns`; `ContactBook`,
  `AdvertRuns`). The lock-protected sections and the sections between awaits are methods; runs interleave them.
- **Policies** (`PolicyText`, `PolicyEngine`, `PolicyService`, `PolicyChecks`, `PolicyMeaning`, `PolicyGroups`,
  `PolicyStability`). Normalising a document is a transformation of JSON, the evaluator gives its meaning.
- **The concentrator library** (`RxMerge`, `TimeOnAir`, `Transmission`, `ListenBeforeTalk`, `CarrierSense`). The in-place
  duplicate merge, the LoRa time on air against the real-valued formula of the data sheet, the transmit-time guard
  it feeds against what is sent, and the threshold register of carrier sensing.

Imperative code is modelled by classes and methods proved equal to specification functions; the theorems are
lemmas about those functions and about whole runs of them. What each operation does is stated on its inputs, fields
and tables alone, with the source's constants written as numbers, so that no specification function is its own
witness.

## Where the code does less than it promises

Each of these is proved as an exact condition, with a concrete input where it fails.

- The time on air of SF12 at 62.5 kHz is computed as 0, because its 65536 us symbol does not fit a `uint16_t`;
  the transmit-time guard then admits packets of any length (`TimeOnAir.TimeOnAirIsExactIff`,
  `ListenBeforeTalk.GuardProtectsIff`, `ListenBeforeTalk.LongPacketPassesGuard`).
- The guard computes with the preamble as asked for, but the transmitter fills in a missing one and lengthens a
  short one afterwards, so such packets can overrun the limit they were admitted under
  (`ListenBeforeTalk.GuardProtectsIff`, `ListenBeforeTalk.PreambleDecides`,
  `ListenBeforeTalk.MissingPreambleOverruns`, `ListenBeforeTalk.MissingFskPreambleOverruns`).
- A continuous carrier has no computed duration either, so the guard admits it on every channel it matches
  whose limit is 2 ms or more (`ListenBeforeTalk.GuardProtectsIff`, `ListenBeforeTalk.CarrierPassesGuard`).
- A channel without sensing is to permit everything, with a threshold of 127 dBm. The radio's register cannot express
  it: it is armed with a level of 0 dBm or less that moves with the configured offset, and permits every reading at
  two offsets only (`CarrierSense.PermitAllLevel`, `CarrierSense.PermitAllIff`, `CarrierSense.PermitAllBlocks`).
- The duplicate merge prefers a checked good frame over a bad one, but can drop a good frame for a similar one
  whose CRC was not checked (`RxMerge.KeepsMeritIff`, `RxMerge.GoodFrameIsDropped`).
- A node whose key prefix is shorter than a packet's hash width floods a packet that every other node rejects
  (`RelayPaths.FloodStaysValidIff`, `RelayPaths.ShortKeyBreaksFlood`).
- The dedup writer reads its handler when the thread first runs, outside the lock. Events admitted for any other
  handler go to that one, or to nobody if there was none (`DedupWriter.ReachesItsHandlerIff`,
  `DedupWriter.BatchesLostIff`, `DedupWriter.HandlerReadTooEarly`).
- Distinct counts are summed when rows are merged, so they are exact only if no hash is in two pieces
  (`MetricsRollup.DistinctCountExactIff`, `MetricsRollup.SharedHashCountsTwice`). The source says so.
- A document without groups need not be a fixed point of normalisation (`PolicyStability.NormalisationIsStableIff`,
  `PolicyStability.FirstProjectionAdds`).

## Model

| member | source | states |
|---|---|---|
| CompanionRuns.EveryRunIsSafe | overlay/pymc_repeater/repeater/packet_router.py:203-255 | From the empty router, in every interleaving of arriving copies, cancellations, answers, failures and the passing of time: at most one delivery per packet and bridge is under way, all copies of a key share the one lock entry in the dictionary, which exists exactly while it has users and counts them, every cached result is true, and at most 1024 deliveries are cached |
| CompanionDelivery.StepKeepsInv | overlay/pymc_repeater/repeater/packet_router.py:203-255 | Each uninterrupted section between two awaits keeps that invariant, and a cancelled route holds its lock until the bridge has answered |
| CompanionRuns.AcquireAnswers | overlay/pymc_repeater/repeater/packet_router.py:217-219 | A copy that gets the lock while an unexpired entry is cached always finds a result to return, it is true, and the copy leaves without reaching the bridge; otherwise it starts a delivery |
| CompanionRuns.AuthenticatedSuppressesCopies | overlay/pymc_repeater/repeater/packet_router.py:239-243 | After an authenticated delivery with a reserved slot, over any continuation of less than 60 seconds the result stays cached with the same expiry, and nobody delivers that packet to that bridge again |
| CompanionRuns.AnswerCachedIff | overlay/pymc_repeater/repeater/packet_router.py:166-171 | Whatever happens in between, a finished delivery leaves a cached result for 60 seconds if and only if it was authenticated and, when it started, at most 200 entries were cached or fewer than 1024 other ones were unexpired or locked; otherwise no trace of it is left |
| CompanionRuns.OneDelivererPerKey | overlay/pymc_repeater/repeater/packet_router.py:212-222 | Shared lock entries and locks held exactly by deliverers imply a single deliverer per key |
| CompanionCache.PacketRouter.ShouldDeliverPath | overlay/pymc_repeater/repeater/packet_router.py:138-171 | The copy is suppressed exactly if an unexpired entry is there; the other keys stay or go as pruning says; a delivery drops the old result and reserves a slot for 60 seconds exactly if at most 200 entries were there or fewer than 1024 others are unexpired or locked |
| CompanionCache.PacketRouter.Prune | overlay/pymc_repeater/repeater/packet_router.py:145-154 | Above 200 entries the loop removes from both dictionaries exactly the expired keys without a lock entry; at 200 or fewer it removes nothing |
| CompanionCache.LookupEffect | overlay/pymc_repeater/repeater/packet_router.py:143-171 | What a lookup does to every key, on expiry times and locks: which other keys survive with the same expiry and result, when the copy is suppressed, and when and for how long a slot is reserved |
| CompanionCache.PacketRouter.Enter | overlay/pymc_repeater/repeater/packet_router.py:210-211 | A new copy gets the key's entry, or a fresh one, with the user count raised |
| CompanionCache.PacketRouter.Leave | overlay/pymc_repeater/repeater/packet_router.py:252-255 | The entry's count falls by one and the key is popped exactly when it reaches zero |
| CompanionCache.PacketRouter.Settle | overlay/pymc_repeater/repeater/packet_router.py:235-248 | The result and its expiry are stored if authenticated and still reserved; otherwise both are removed |
| MetricsRollup.MergeAgrees | overlay/pymc_repeater/repeater/metrics_retention.py:455-495 | Merging the summary rows of a group gives for every exact aggregate (count, sum, minimum, maximum, NULL-aware average and its denominator) what the direct query on all their samples gives; the distinct count lies between the true one and the number of samples |
| MetricsRollup.DistinctCountExactIff | overlay/pymc_repeater/repeater/metrics_retention.py:481-483 | Adding distinct counts never undercounts, and is right if and only if no hash occurs in two of the pieces |
| MetricsRollup.SharedHashCountsTwice | overlay/pymc_repeater/repeater/metrics_retention.py:481-483 | A packet heard in two successive minutes, which the merged quarter hour counts twice |
| MetricsRollup.CoarseOfFine | overlay/pymc_repeater/repeater/metrics_retention.py:444-464 | The coarse bucket of a fine bucket is the coarse bucket of the sample, for every time and all widths that pass the divisibility check |
| MetricsRollup.BucketEndsAfter | overlay/pymc_repeater/repeater/metrics_retention.py:396-396 | No sample is at or after the end of its own bucket, negative times included |
| MetricsRollup.BucketHolds | overlay/pymc_repeater/repeater/metrics_retention.py:396-396 | A bucket is named by a multiple of its width and holds its samples; before zero, by its end, as truncation does |
| MetricsRollup.RowSays | overlay/pymc_repeater/repeater/metrics_retention.py:400-410 | A summary row counts its samples, bounds their values by two that occur, and its mean times its own denominator is the sum, which is NULL exactly if that is zero |
| MetricsRollup.AgreesPermuted | overlay/pymc_repeater/repeater/metrics_retention.py:400-410 | What a row says of its samples does not depend on their order |
| SqlAggregates.FoldAppend | overlay/pymc_repeater/repeater/metrics_retention.py:466-486 | SUM, MIN and MAX with NULLs skipped are homomorphisms: a column can be aggregated in pieces |
| SqlAggregates.ExtremesAre | overlay/pymc_repeater/repeater/metrics_retention.py:400-410 | MIN and MAX are values of the column that no other lies beyond, NULL exactly if all are |
| SqlAggregates.AverageTimesCount | overlay/pymc_repeater/repeater/metrics_retention.py:297-300 | An average times its own non-NULL count is the sum again, NULL exactly if every value was NULL |
| RetentionTiers.MetricTables.AggregateFromSource | overlay/pymc_repeater/repeater/metrics_retention.py:352-423 | Moves the raw rows of a time range into partial summary rows; a fault after any number of inserted rows leaves all tables as they were |
| RetentionTiers.MetricTables.AggregateFromSummary | overlay/pymc_repeater/repeater/metrics_retention.py:427-508 | Moves summary rows into coarser ones when the widths divide, refuses otherwise, and restores all tables on any fault |
| RetentionTiers.MetricTables.CleanupOnce | overlay/pymc_repeater/repeater/metrics_retention.py:662-772 | One pass over a metric is exactly the sequence of those of its steps that do not fail, or nothing if the connection fails; where that leaves a sample is PassTiers and PassPlaces |
| RetentionTiers.MetricTables.Downsample | overlay/pymc_repeater/repeater/metrics_retention.py:702-722 | The tiers of a pass: warm and cold from raw rows, cold from 1-minute rows, each failing on its own, with the ranges and targets that PassPlaces spells out |
| RetentionTiers.MetricTables.Expire | overlay/pymc_repeater/repeater/metrics_retention.py:724-768 | Expiry of raw rows by timestamp and of summary rows by the end of their bucket, each failing on its own |
| RetentionLedger.RunConserves | overlay/pymc_repeater/repeater/metrics_retention.py:669-772 | Over any interleaving of arriving samples with the single statements of passes, whatever statements fail: every row agrees with the samples it stands for, a sample is never represented more often than it arrived, and one that is as new as every expiry's cutoff is represented exactly as often as it arrived |
| RetentionLedger.PassIsRun | overlay/pymc_repeater/repeater/metrics_retention.py:669-768 | An uninterrupted pass, with whatever faults, is the run of its statements that take effect |
| RetentionLedger.BooksShowRun | overlay/pymc_repeater/repeater/metrics_retention.py:369-508 | The bookkeeping of samples behind the rows is faithful: dropping it after any steps gives the tables of those steps |
| RetentionLedger.BookKeepsSound | overlay/pymc_repeater/repeater/metrics_retention.py:369-508 | Every step leaves rows that agree with their samples, all of which lie in the row's bucket and group |
| RetentionLedger.BookConserves | overlay/pymc_repeater/repeater/metrics_retention.py:369-508 | No step loses or duplicates a sample, except that expiry drops samples strictly older than its cutoff |
| RetentionLedger.ExpiredAreOld | overlay/pymc_repeater/repeater/metrics_retention.py:754-762 | A summary row that expires stands for no sample at or after the cutoff |
| RetentionLedger.TiersAddUp | overlay/pymc_repeater/repeater/metrics_retention.py:393-394 | From empty tables, after any such run, for every quarter hour and group whose samples are all as new as every expiry's cutoff: adding up the 1-minute rows, the 15-minute rows and the raw samples gives what the direct query on the arrived samples gives |
| RetentionPass.PassTiers | overlay/pymc_repeater/repeater/metrics_retention.py:669-722 | After a pass without faults a raw sample within the retention is still raw if it is less than seven hours old, is in a 1-minute row of its own minute if it is less than three days old, and else in a 15-minute row of its own quarter hour, which also takes the minute that began more than three days ago |
| RetentionPass.PassPlaces | overlay/pymc_repeater/repeater/metrics_retention.py:669-768 | How often the raw table and each summary table represent any retained sample after such a pass, from how often they did before: nothing is lost, doubled or put into another tier |
| RetentionPass.PassLeavesTiers | overlay/pymc_repeater/repeater/metrics_retention.py:669-768 | Whatever the tables held, after such a pass no raw sample is older than seven hours, no 1-minute row that starts within the retention starts more than three days ago, and no row of any table has ended before the retention |
| RetentionTiers.OneRowPerGroup | overlay/pymc_repeater/repeater/metrics_retention.py:396-410 | GROUP BY over raw rows: a bucket and group gets exactly one row, the summary of all its samples, if it has any, and none otherwise |
| RetentionTiers.OneRowPerCoarseGroup | overlay/pymc_repeater/repeater/metrics_retention.py:461-495 | The same over summary rows: one merged row for each coarse bucket and group that has rows |
| ChannelBaseline.ExpiryKeepsDeltas | overlay/pymc_repeater/repeater/metrics_retention.py:726-744 | Expiry leaves every snapshot of the window in place and in order, and the difference it contributes to its channel's counter unchanged |
| ChannelBaseline.ExpiryKeepsOneBaseline | overlay/pymc_repeater/repeater/metrics_retention.py:729-740 | Before the window, an active channel keeps exactly its newest snapshot by time and then rowid, and an inactive channel keeps none |
| ChannelBaseline.PassesKeepDelta | overlay/pymc_repeater/repeater/metrics_retention.py:726-744 | However many passes run, a snapshot that is in every window keeps its difference |
| ChannelBaseline.ChannelHistory.ExpireOlder | overlay/pymc_repeater/repeater/metrics_retention.py:726-744 | The DELETE keeps the window with all its differences and, before it, exactly the newest snapshot of each channel that is active |
| SeenPackets.LookupMeetsHistory | overlay/pymc_repeater/repeater/engine.py:734-775 | With a clock that never goes back, after any run a lookup says duplicate if and only if the key's last mark is no older than the TTL and fewer than max_cache_size other keys were marked since |
| SeenPackets.RunKeepsInv | overlay/pymc_repeater/repeater/engine.py:753-775 | After every run the cache explains itself by the history: insertion order is mark order, and what is missing is too old or pushed out |
| SeenPackets.CleanupIsExpiry | overlay/pymc_repeater/repeater/engine.py:594-599 | The full sweep and the prefix-only expiry remove the same entries of every reachable cache |
| SeenPackets.SeenCache.EvictExpired | overlay/pymc_repeater/repeater/engine.py:753-764 | The loop from the oldest end computes the expiry function |
| SeenPackets.SeenCache.IsDuplicate | overlay/pymc_repeater/repeater/engine.py:734-751 | The answer is that of the whole history, and the cache afterwards the expired one |
| SeenPackets.SeenCache.MarkSeen | overlay/pymc_repeater/repeater/engine.py:766-775 | Marks the key last, evicts the oldest beyond the maximum, and records the mark |
| SeenPackets.SeenCache.CleanupCache | overlay/pymc_repeater/repeater/engine.py:594-599 | The sweep leaves exactly the entries that are not expired |
| MeshPacket.ShiftAndMask | overlay/pymc_core/src/openhop_core/meshcore_wire.py:18-24 | The path-length byte read by cases is the shift by six bits plus one and the mask of six bits |
| MeshPacket.PathBytesIsProduct | overlay/pymc_repeater/repeater/engine.py:788-793 | The path length read by cases is hash count times hash size |
| WireFormat.AcceptedIffWellFormed | overlay/pymc_repeater/repeater/protocol_validator.py:252-344 | The validator accepts a frame if and only if it is the frame of some packet of version 0 with a defined type, its type's minimum of payload, whole hops of one to three bytes, and at most 64 bytes of path, 184 of payload and 255 in all |
| WireFormat.ParseThenWire | overlay/pymc_repeater/repeater/protocol_validator.py:171-250 | For every accepted frame, header, codes, path length, hashes and payload, put together again, are the frame |
| WireFormat.WireThenParse | overlay/pymc_repeater/repeater/protocol_validator.py:171-250 | Splitting the frame of a well-formed packet gives the packet back |
| WireFormat.IdentityOfWire | overlay/pymc_core/src/openhop_core/meshcore_wire.py:11-32 | On an accepted frame the identity takes its structured branch, and its payload starts where the validator says |
| WireFormat.SameIdentityIff | overlay/pymc_core/src/openhop_core/meshcore_wire.py:18-32 | Two accepted frames have the same identity if and only if type and payload are equal, and for TRACE the path-length byte too |
| WireFormat.HopHashesOfAccepted | overlay/pymc_repeater/repeater/bridge_engine.py:1381-1452 | The bridge's parser lists exactly hop_count whole hashes of an accepted frame, which together are its path, and reads source and destination from the first two payload bytes as each type has them |
| WireFormat.RefusalIsTrue | overlay/pymc_repeater/repeater/protocol_validator.py:252-344 | The reason that the validator gives for a refusal is a fault that the frame has |
| WireFormat.ParsePathInfo | overlay/pymc_repeater/repeater/bridge_engine.py:1381-1452 | The parser's loop computes the path information function, truncated frames included |
| RelayPaths.FloodStaysValidIff | overlay/pymc_repeater/repeater/engine.py:777-998 | A flooded packet satisfies validate_packet again if and only if the node's key prefix is at least as long as the hash width |
| RelayPaths.ShortKeyBreaksFlood | overlay/pymc_repeater/repeater/engine.py:988-998 | A packet and a node with a one-byte key prefix for which the relayed packet is invalid |
| RelayPaths.RelayKeepsIdentity | overlay/pymc_core/src/openhop_core/meshcore_wire.py:18-32 | Flooding and direct forwarding keep the identity of every packet that is not a TRACE, on the air and as cache key |
| RelayPaths.SentRankDrops | overlay/pymc_repeater/repeater/engine.py:1225-1278 | Whatever a node sends on, acknowledgement copies included, has strictly fewer hops left |
| RelayPaths.RelayChainIsBounded | overlay/pymc_repeater/repeater/engine.py:1225-1278 | In any network a packet causes relay chains of at most 63 hops |
| RelayPaths.FloodRecordsRoute | overlay/pymc_repeater/repeater/engine.py:926-998 | A flood through any list of nodes carries exactly the concatenation of their hash prefixes, with their count |
| RelayPaths.DirectFollowsRouteIff | overlay/pymc_repeater/repeater/engine.py:1000-1042 | A direct packet passes a list of nodes in turn if and only if they are, in order, the first hops its path names, each stripping exactly its own |
| RelayPaths.FloodedRouteLeadsBack | overlay/pymc_repeater/repeater/engine.py:926-1042 | A path recorded by a flood leads a direct packet through exactly the nodes that recorded it and ends empty, and through no other list of as many nodes with other prefixes |
| RelayPaths.OwnHashWithinThreshold | overlay/pymc_repeater/repeater/engine.py:812-830 | After a flood hop the node's own hash occurs in the path at most as often as its mode and the hash width allow |
| RelayPaths.StrictFloodsNeverRepeat | overlay/pymc_repeater/repeater/engine.py:46-50 | If every relay of a flood that started with an empty path is strict, no hash repeats in the path |
| RelayPaths.WrapperRegeneratesPlainAck | overlay/pymc_repeater/repeater/engine.py:1072-1146 | Any next hop regenerates from the redundancy wrapper exactly the packet it regenerates from the plain acknowledgement |
| RelayPaths.CopiesDoNotSuppressEachOther | overlay/pymc_repeater/repeater/engine.py:1080-1146 | Plain acknowledgement and wrapper have different cache keys, so relaying one does not change the lookup of the other within the window |
| RelayRuns.NoSecondRelay | overlay/pymc_repeater/repeater/engine.py:965-992 | Over any run of a node, received packets mixed with own transmissions, lookups and cleanups: after a call that marked a key, a packet with that key is relayed only if more than the TTL has passed or max_cache_size other keys were marked in between |
| RelayRuns.RelayedAgainIff | overlay/pymc_repeater/repeater/engine.py:734-775 | A packet that may be sent but for duplicates is relayed again if and only if, since its key was last marked, more than the TTL has passed or max_cache_size other keys were marked |
| RelayRuns.FirstCopyIsRelayed | overlay/pymc_repeater/repeater/engine.py:734-751 | A packet that may be sent but for duplicates and whose key was never marked is always relayed |
| RelayRuns.EventsAreProcessPackets | overlay/pymc_repeater/repeater/engine.py:1225-1278 | The calls on the cache that a run assumes are those the method for process_packet makes |
| Repeater.RepeaterHandler.CheckFloodLoop | overlay/pymc_repeater/repeater/engine.py:812-830 | The counting loop over the path decides as the number of occurrences of the own hash does |
| Repeater.RepeaterHandler.FloodForward | overlay/pymc_repeater/repeater/engine.py:926-998 | The packet object and the cache after flood_forward are those of the flood decision; a refusal changes neither path nor cache |
| Repeater.RepeaterHandler.DirectForward | overlay/pymc_repeater/repeater/engine.py:1000-1042 | The same for direct_forward: next-hop check, duplicate check, and the stripped path |
| Repeater.RepeaterHandler.ForwardMultipart | overlay/pymc_repeater/repeater/engine.py:1080-1113 | The same for multipart acknowledgements, which are regenerated as plain ones |
| Repeater.RepeaterHandler.ForwardRoutedAck | overlay/pymc_repeater/repeater/engine.py:1115-1133 | The same for routed acknowledgements with their redundancy copies |
| Repeater.RepeaterHandler.ProcessPacket | overlay/pymc_repeater/repeater/engine.py:1225-1278 | A packet is sent exactly if MaySend holds of its header, path, payload, the settings and the cache's answer; what is sent is that of the decision function, with exactly the lookups and marks of the chosen forwarder |
| RelaySends.SentIff | overlay/pymc_repeater/repeater/engine.py:777-1278 | process_packet sends exactly: nothing in a mode that does not repeat, against the policy, as a duplicate, marked or malformed; a flood of types 0 to 8 with its codes or the global setting allowed, its own hash below the loop threshold and room for one more hop; a direct packet whose first hop is the node, acknowledgements with their minimum payload |
| RelaySends.FloodSends | overlay/pymc_repeater/repeater/engine.py:965-998 | What a flood leaves with: the node's hash appended, the hop count raised by one, everything else as it was |
| RelaySends.DirectSends | overlay/pymc_repeater/repeater/engine.py:1000-1042 | What a direct packet leaves with: the first hop removed, the hop count lowered by one, everything else as it was |
| RelaySends.RoutedAckSends | overlay/pymc_repeater/repeater/engine.py:1115-1150 | A routed acknowledgement leaves as a plain direct one without transport codes, due at once; with redundancy it moves 300 ms and a transmit delay later, together with one wrapped copy |
| RelaySends.MultipartSends | overlay/pymc_repeater/repeater/engine.py:1080-1150 | So does a wrapped one without its wrapper byte, due after as many spacings of 300 ms as that byte's high bits say, plus one |
| RelaySends.DropsAreTrue | overlay/pymc_repeater/repeater/engine.py:777-1278 | The reason given for every drop is true of the packet and the settings |
| RelaySends.SameKeyIff | overlay/pymc_repeater/repeater/engine.py:1080-1110 | Two packets are one to the duplicate cache exactly if type and payload agree, for TRACE the path-length byte too; multipart packets go without the wrapper byte |
| DedupWriter.DoneMeansAllHanded | overlay/pymc_repeater/repeater/bridge_engine.py:1317-1371 | In every interleaving, when the writer is done the concatenation of all batches is exactly the sequence of admitted events, in order |
| DedupWriter.AdmittedAre | overlay/pymc_repeater/repeater/bridge_engine.py:1346-1371 | Over every run the admitted events, and the handlers they were admitted for, are exactly those recorded while the bridge was not stopped and a handler was attached, in order |
| DedupWriter.AllRecordedAreHanded | overlay/pymc_repeater/repeater/bridge_engine.py:1303-1371 | So when the writer is done, it has handed out exactly the events recorded in time |
| DedupWriter.WriterFinishes | overlay/pymc_repeater/repeater/bridge_engine.py:1317-1344 | Left alone, the waiting writer of a stopped bridge hands out all that is queued as one batch and ends |
| DedupWriter.EveryRunKeepsInv | overlay/pymc_repeater/repeater/bridge_engine.py:1303-1371 | At every moment what was handed out, what the writer holds and what is queued are the admitted events in order, and the one sentinel is last in the queue |
| DedupWriter.StopClosesAdmission | overlay/pymc_repeater/repeater/bridge_engine.py:1716-1727 | Nothing is admitted after the stop, however the run goes on |
| DedupWriter.WriterTerminates | overlay/pymc_repeater/repeater/bridge_engine.py:1317-1344 | After a stop the writer takes boundedly many further steps in any run |
| DedupWriter.WriterProgresses | overlay/pymc_repeater/repeater/bridge_engine.py:1320-1338 | After a stop the writer can always take its next step until it is done, and each step brings it nearer |
| DedupWriter.BatchesLostIff | overlay/pymc_repeater/repeater/bridge_engine.py:1317-1319 | All batches go to the handler that was attached when the thread first ran; they are lost if and only if none was attached at that moment |
| DedupWriter.ReachesItsHandlerIff | overlay/pymc_repeater/repeater/bridge_engine.py:1303-1371 | Event by event: the i-th event handed out is the i-th admitted one, and it reaches the handler attached at its admission if and only if that handler was attached when the thread first ran |
| DedupWriter.HandlerReadTooEarly | overlay/pymc_repeater/repeater/bridge_engine.py:1303-1319 | A run in which an event admitted for an attached handler goes to nobody |
| DedupWriter.BridgeEngine.RecordDedupEvent | overlay/pymc_repeater/repeater/bridge_engine.py:1346-1371 | Admits the event exactly if the bridge is not stopped and a handler is attached |
| DedupWriter.BridgeEngine.SetSqliteHandler | overlay/pymc_repeater/repeater/bridge_engine.py:1303-1315 | Raises on a stopped bridge; otherwise attaches, and starts the one writer thread |
| DedupWriter.BridgeEngine.StopAdmission | overlay/pymc_repeater/repeater/bridge_engine.py:1716-1727 | Stops once, with a sentinel exactly if there is a writer thread |
| DedupWriter.BridgeEngine.FinishWriting | overlay/pymc_repeater/repeater/bridge_engine.py:1317-1344 | Once admission is closed the writer loop hands out all that is left, in order, and empties the queue |
| IdentityRegistry.RegisterKeepsOneToOne | overlay/pymc_repeater/repeater/identity_manager.py:15-37 | Registration keeps names and hashes in one-to-one correspondence over the three dictionaries, and refuses a taken name or hash |
| IdentityRegistry.NamesAreInjective | overlay/pymc_repeater/repeater/identity_manager.py:15-37 | Two registered names have the same hash only if they are the same name |
| IdentityRegistry.WithdrawUndoesRegister | overlay/pymc_repeater/repeater/room_lifecycle.py:198-204 | The rollback's removal restores the three dictionaries exactly |
| IdentityRegistry.IdentityManager.RegisterIdentity | overlay/pymc_repeater/repeater/identity_manager.py:15-37 | Refuses exactly a name or a hash that is taken, changing nothing; otherwise all three dictionaries gain the identity, the last under its kind and name |
| RoomRuns.RoomsAreAllOrNothing | overlay/pymc_repeater/repeater/room_lifecycle.py:110-217 | From a daemon without rooms, at every await of every run: a room ever attempted owns all of its five handler entries and its registration, or nothing at all, and a pending one is hidden |
| RoomRuns.EveryRunIsAllOrNothing | overlay/pymc_repeater/repeater/room_lifecycle.py:110-217 | The invariant behind it holds from any state that meets it, over every run, and the manager stays one-to-one |
| RoomRuns.FailureRestores | overlay/pymc_repeater/repeater/room_lifecycle.py:192-217 | An activation that fails at any point leaves maps and manager exactly as it found them |
| RoomRuns.StepsAreHosts | overlay/pymc_repeater/repeater/room_lifecycle.py:171-204 | In every reachable state the preconditions of the completing section hold, and the step of the run has the effect that the section's contract states; the same for the beginning section |
| RoomRuns.ShutdownClosesRooms | overlay/pymc_repeater/repeater/room_lifecycle.py:172-173 | Once shutdown has started no activation publishes anything, however the run goes on |
| RoomRuns.PublishedParts | overlay/pymc_repeater/repeater/room_lifecycle.py:183-188 | Publishing adds all of the room and leaves what every other identity owns as it was |
| RoomRuns.BeginsIff | overlay/pymc_repeater/repeater/room_lifecycle.py:110-140 | An activation begins exactly if the daemon is not shutting down, the request is well formed, its saved specification unchanged, and name and hash are taken by no identity, handler, companion or the node itself |
| RoomRuns.PublishesIff | overlay/pymc_repeater/repeater/room_lifecycle.py:168-192 | A room is published exactly if at that moment the daemon is not shutting down, the saved specification is still the same, all five entries are there, carry the identity, share one access list and the sync task runs, name and hash are still vacant, and monitoring started |
| RoomRuns.ActiveWasChecked | overlay/pymc_repeater/repeater/room_lifecycle.py:168-192 | Every room that became active in a run was published by a step that found all of that |
| RoomActivation.DetachUndoesPublishing | overlay/pymc_repeater/repeater/room_lifecycle.py:148-166 | Publishing any part of the five entries into free slots and detaching them restores the maps and yields exactly what was published |
| RoomActivation.RemoveUndoesPublishing | overlay/pymc_repeater/repeater/room_lifecycle.py:193-197 | The rollback of a complete publication restores the maps |
| RoomActivation.RemoveSparesOthers | overlay/pymc_repeater/repeater/room_lifecycle.py:193-197 | Entries of another owner under the same hash are never removed |
| RoomActivation.RoomHost.Begin | overlay/pymc_repeater/repeater/room_lifecycle.py:116-166 | Up to its first await an activation changes nothing that others can see, whether it is admitted or not |
| RoomActivation.RoomHost.Complete | overlay/pymc_repeater/repeater/room_lifecycle.py:171-204 | After its last await an activation publishes everything if all checks pass again, and changes nothing otherwise |
| AdvertRuns.EventKeepsInv | overlay/pymc_repeater/repeater/companion/advert_persistence.py:18-119 | After every advert, saved or not, the stored rows are exactly the real contacts, no key is twice in the book, both pools are within their limits, and a failed event changed neither contacts nor rows |
| AdvertRuns.EventFailsIff | overlay/pymc_repeater/repeater/companion/advert_persistence.py:84-113 | An event fails if and only if it has something to commit and no revision is left or the save it needs fails; prepare_load never raises |
| AdvertRuns.RowsAreTheContacts | overlay/pymc_repeater/repeater/companion/advert_persistence.py:18-119 | From an empty book, after any events: the stored rows are exactly the real contacts and both pools are within their limits |
| AdvertRuns.EveryRunKeepsInv | overlay/pymc_repeater/repeater/companion/advert_persistence.py:18-119 | The same over every sequence of adverts, settings, clocks and save failures |
| AdvertRuns.DeletedIff | overlay/pymc_repeater/repeater/companion/advert_persistence.py:62-83 | A deletion is reported for a key if and only if that key left the real contacts |
| AdvertRuns.KnownIsNeverRefused | overlay/pymc_repeater/repeater/companion/advert_persistence.py:44-83 | A known peer's newer advert is never refused, however full the book is, and removes the peer from the real contacts only if it turns anonymous |
| AdvertRuns.AcceptedIff | overlay/pymc_repeater/repeater/companion/advert_persistence.py:28-91 | An advert is accepted exactly if it is newer than what the book has of its sender, comes from a known peer or passes type and hop filters and finds a place, a 32-bit revision is left, and its save, if it needs one, succeeds |
| AdvertRuns.NewContactIsTheAdvert | overlay/pymc_repeater/repeater/companion/advert_persistence.py:44-91 | A sender that was no peer enters as the advert says with the new revision, nothing taken over from an anonymous recipient |
| AdvertRuns.RefusedEffect | overlay/pymc_repeater/repeater/companion/advert_persistence.py:28-122 | An advert that is no news changes no contact; a refused one forgets an anonymous recipient of its key and changes no other, and the book is reported full exactly if the filters passed |
| AdvertRuns.OwnKnowledgeKept | overlay/pymc_repeater/repeater/companion/advert_persistence.py:44-54 | A known peer keeps its flags, outbound route and sync state, its location unless the advert has one, and its stored packet unless the advert brings one; name, type and timestamp are the advert's |
| AdvertRuns.EvictedIsOldest | overlay/pymc_repeater/repeater/companion/advert_persistence.py:71-83 | Another peer is evicted only from a full book with overwriting allowed, and it is the longest unchanged of those that are no favourites |
| AdvertRuns.ThinnedEvicts | overlay/pymc_repeater/repeater/companion/advert_persistence.py:64-68 | An anonymous recipient is evicted only from a full pool, and it is the one longest unchanged |
| AdvertRuns.FavouriteStays | overlay/pymc_repeater/repeater/companion/advert_persistence.py:72-78 | Another peer's advert never evicts or changes a favourite |
| AdvertRuns.FavouriteOutlasts | overlay/pymc_repeater/repeater/companion/advert_persistence.py:72-78 | Nor do any number of them |
| AdvertRuns.TimeRises | overlay/pymc_repeater/repeater/companion/advert_persistence.py:24-32 | A contact that stays in the book is unchanged, or the advert was its own with a strictly larger timestamp |
| AdvertRuns.TimeOnlyRises | overlay/pymc_repeater/repeater/companion/advert_persistence.py:24-32 | Over any sequence of events a retained contact is the same or has a larger advert timestamp |
| AdvertRuns.RevisionIsNew | overlay/pymc_repeater/repeater/companion/contact_commands.py:74-88 | An accepted contact gets a 32-bit revision above everything in the book and above every revision given out before |
| AdvertRuns.LoadableLoads | overlay/pymc_core/src/openhop_core/companion/contact_store.py:300-352 | Pools that keep apart and within their limits pass every check of prepare_load and are published as they are |
| AdvertRuns.PrepareLoadIff | overlay/pymc_core/src/openhop_core/companion/contact_store.py:300-352 | prepare_load accepts two pools exactly if no key occurs twice among them, each is within its limit, and anonymous recipients are in the second alone |
| ContactBook.CompanionBook.HandleAdvert | overlay/pymc_repeater/repeater/companion/advert_persistence.py:18-119 | The handler decides and updates as the event function: stale, refused, or taken with its deletion |
| ContactBook.CompanionBook.Publish | overlay/pymc_repeater/repeater/companion/advert_persistence.py:84-113 | Revision, validation, save and only then publication |
| ContactBook.CompanionBook.ContactPools | overlay/pymc_repeater/repeater/companion/contact_commands.py:62-72 | The loop splits the contacts into the two pools in order and raises the watermark to the latest revision |
| PolicyMeaning.NormalisationKeepsMeaning | overlay/pymc_repeater/repeater/policy_service.py:236-295 | For every accepted document and every packet, the engine of the normalised document takes the same action with the same matched flag as the engine of the original with its objects replaced by those that ReferencesResolve describes |
| PolicyGroups.ReferencesResolve | overlay/pymc_repeater/repeater/policy_service.py:252-258 | In the projected normal form of every accepted document, a reference to a channel or key group by its id resolves to the values of that group's entries in order, any other name under the two objects to nothing, and all other objects are as they came |
| PolicyGroups.ReferenceIsItsList | overlay/pymc_repeater/repeater/policy_engine.py:162-173 | A comparison with such a reference decides as the same comparison with the list itself |
| PolicyGroups.ListsAcceptedIff | overlay/pymc_repeater/repeater/policy_service.py:128-164 | A list of groups, or of entries, is accepted exactly if each is and no two have the same id, and becomes the list of the normalised ones in order |
| PolicyGroups.GroupAcceptedIff | overlay/pymc_repeater/repeater/policy_service.py:136-164 | A group is accepted exactly if it has known parts, an id can be made of its id or its name, its texts are texts and its entries are accepted |
| PolicyGroups.EntryAcceptedIff | overlay/pymc_repeater/repeater/policy_service.py:146-159 | An entry is accepted exactly if it has known parts, a value that suits the kind, and a text to make an id of, the value itself if nothing else |
| PolicyGroups.GroupsComeFrom | overlay/pymc_repeater/repeater/policy_service.py:128-136 | Each kind of groups comes from the list under its own name, and no other kind is accepted |
| PolicyGroups.GroupKeeps | overlay/pymc_repeater/repeater/policy_service.py:136-164 | An accepted group keeps its texts and entries, and its id is the identifier of the given id or else of its name |
| PolicyGroups.EntryKeeps | overlay/pymc_repeater/repeater/policy_service.py:146-159 | An accepted entry keeps its texts, with the normalised value |
| PolicyGroups.ChannelSpellings | overlay/pymc_repeater/repeater/policy_engine.py:593-622 | A channel hash is the same by its number, its decimal digits and its normal form |
| PolicyMeaning.DisabledDocumentAllows | overlay/pymc_repeater/repeater/policy_engine.py:69-71 | A document that is not enabled allows every packet |
| PolicyMeaning.UnprojectedMeaning | overlay/pymc_repeater/repeater/policy_service.py:236-295 | So when projection leaves the objects as they were, the two engines agree on every packet |
| PolicyMeaning.AcceptedIsMeaningful | overlay/pymc_repeater/repeater/policy_service.py:167-233 | An accepted condition names only operators the evaluator carries out and objects it resolves, to values that suit field and operator |
| PolicyChecks.ComparisonAcceptedIff | overlay/pymc_repeater/repeater/policy_service.py:182-233 | A comparison is accepted exactly if it has the three known parts, its operator and reference are known, the operator applies to the kind of the field, membership goes with lists, and the values have the field's type |
| PolicyChecks.DocumentAcceptedIff | overlay/pymc_repeater/repeater/policy_service.py:236-262 | A document is accepted exactly if it has one of the two forms with known parts of the right types, its groups are accepted, and its rules are with the objects it ends up with |
| PolicyChecks.RuleAcceptedIff | overlay/pymc_repeater/repeater/policy_service.py:262-293 | A rule is accepted exactly if its parts are known and well typed, it names one known action, its condition is accepted, and its id, or else its number, is new |
| PolicyGroups.RulesAcceptedIff | overlay/pymc_repeater/repeater/policy_service.py:262-293 | A list of rules is accepted exactly if each is at its place and no two have the same id |
| PolicyChecks.HopDigits | overlay/pymc_repeater/repeater/policy_engine.py:544-576 | A hop hash given as text is as wide as it is written, prefixed or not, and an error at any other width than 2, 4 or 6 digits |
| PolicyChecks.DepthIff | overlay/pymc_repeater/repeater/policy_service.py:167-181 | Where a condition stands matters only through the limit: it is accepted at another depth exactly if no comparison is then more than 16 deep, with the same result |
| PolicyChecks.PlainIff | overlay/pymc_repeater/repeater/policy_service.py:74-89 | An object is accepted exactly if it is at most 16 levels deep and holds only finite numbers |
| PolicyChecks.IntegersAreFiniteUpTo | overlay/pymc_repeater/repeater/policy_service.py:92-98 | Integers are numbers up to where a double ends |
| PolicyMeaning.OperatorMeaning | overlay/pymc_repeater/repeater/policy_engine.py:636-685 | The evaluator reads every accepted spelling of an operator as the name it is normalised to |
| PolicyStability.NormalisationIsStable | overlay/pymc_repeater/repeater/policy_service.py:236-295 | Normalising a document that came with groups a second time changes nothing |
| PolicyStability.NormalisationIsStableIff | overlay/pymc_repeater/repeater/policy_service.py:252-258 | The normal form of an accepted document is a fixed point if and only if the first pass projected its groups, or its objects already held under each group's id the values of its entries and nothing else |
| PolicyStability.FirstProjectionAdds | overlay/pymc_repeater/repeater/policy_service.py:252-258 | The empty document is accepted and its normal form is no fixed point |
| PolicyStability.GroupsStable | overlay/pymc_repeater/repeater/policy_service.py:128-164 | Normalised groups are normal: identifiers, names and entry values stay as they are |
| PolicyText.IdentifierIsStable | overlay/pymc_repeater/repeater/policy_service.py:55-63 | An identifier made of any text is made of itself |
| PolicyText.IdentifierShape | overlay/pymc_repeater/repeater/policy_service.py:55-63 | An identifier consists of small letters and digits with single underscores between them, at most 128 |
| PolicyText.ShapeIsIdentifier | overlay/pymc_repeater/repeater/policy_service.py:55-63 | Every text of that shape is its own identifier, up to 128 characters |
| PolicyText.PublicKeyIsStable | overlay/pymc_repeater/repeater/policy_service.py:117-125 | A normalised public key is normal |
| PolicyText.KeyOfDigits | overlay/pymc_repeater/repeater/policy_service.py:119-125 | Every text of 1 to 32 bytes in small hexadecimal digits is a key, read as itself |
| PolicyText.KeyHasDigits | overlay/pymc_repeater/repeater/policy_service.py:119-125 | Every accepted key is such a text |
| PolicyText.SecretIsStable | overlay/pymc_repeater/repeater/policy_engine.py:503-513 | A channel secret, prefixed and in capitals, is read as the same secret again |
| PolicyText.SecretIsRead | overlay/pymc_repeater/repeater/policy_engine.py:503-513 | 16 or 32 bytes of hexadecimal text are a secret, prefixed or not |
| PolicyEngine.FirstMatchDecides | overlay/pymc_repeater/repeater/policy_engine.py:69-91 | The first rule that applies decides, whatever follows it, and without one the default action does |
| PolicyEngine.OnlyNamedDrops | overlay/pymc_repeater/repeater/policy_engine.py:69-109 | The evaluator drops a packet only if a rule or the default says so by name |
| PolicyEngine.DisabledRuleIsSkipped | overlay/pymc_repeater/repeater/policy_engine.py:77-90 | A rule that is switched off is as good as not there |
| PolicyEngine.DistinctHasEachOnce | overlay/pymc_repeater/repeater/policy_engine.py:516-541 | The secrets written into rules are collected once each |
| PolicyEngine.BranchMeaning | overlay/pymc_repeater/repeater/policy_engine.py:111-130 | An all-condition matches if and only if every one of its conditions does, an any-condition if and only if one does |
| PolicyEngine.EvaluateRules | overlay/pymc_repeater/repeater/policy_engine.py:69-91 | The loop with early return decides as the first rule that applies |
| PolicyService.NormalizeEntries | overlay/pymc_repeater/repeater/policy_service.py:144-160 | The loop over a group's entries computes the normalised list, or fails on the first bad or repeated entry |
| PolicyService.NormalizeGroups | overlay/pymc_repeater/repeater/policy_service.py:128-164 | The loop over the groups of a kind does the same for groups |
| PolicyService.NormalizeRules | overlay/pymc_repeater/repeater/policy_service.py:260-293 | The loop over the rules does the same for rules, numbering those without an id |
| RxMerge.MergePackets | overlay/hal/libloragw/src/loragw_hal.c:416-510 | The in-place loop that restarts after each removal ends, and leaves exactly the merged sequence in the array, of which MergeStep says each removal and PairOutcome each choice |
| RxMerge.MergeStep | overlay/hal/libloragw/src/loragw_hal.c:450-505 | The merge takes the first similar pair in the order of the loops, overwrites with the last packet the bad one next to a good one, or else the second if the first has a precise timestamp, or else the first, and starts again |
| RxMerge.PairOutcome | overlay/hal/libloragw/src/loragw_hal.c:460-482 | Of a good and a bad packet the good one is kept in both orders; of any others the one with a precise timestamp in both orders if there is just one, the first if both have one, the second if none |
| RxMerge.MergeLeavesNoDuplicates | overlay/hal/libloragw/src/loragw_hal.c:443-510 | No two surviving packets are similar, and the survivors are a part of the input |
| RxMerge.DroppedIsLinkedToSurvivor | overlay/hal/libloragw/src/loragw_hal.c:455-498 | Every packet is linked by a chain of similar packets to a survivor; when every CRC was checked the chain from a good packet consists of good ones, and when similar packets agree in status the chain from a packet with a precise timestamp consists of such packets |
| RxMerge.KeepsMeritIff | overlay/hal/libloragw/src/loragw_hal.c:455-498 | For arrays of any length: whatever part of the packets is received together and in whatever order, every good frame is represented by a good survivor, if and only if no good packet is similar to an unchecked one without being the only one of the two with a precise timestamp; and every precisely timed packet by such a survivor, if and only if no bad one of them is similar to a good one without |
| RxMerge.GoodFrameIsDropped | overlay/hal/libloragw/src/loragw_hal.c:460-490 | Two demodulations of one frame, with a good CRC and without a CRC, of which the good one is dropped |
| RxMerge.LosesGoodFrameIff | overlay/hal/libloragw/src/loragw_hal.c:460-490 | For a pair of similar packets with any statuses: exactly when the good one is the one that is dropped |
| RxMerge.SameIsSymmetric | overlay/hal/libloragw/src/loragw_hal.c:346-368 | Similarity is symmetric |
| RxMerge.SameIff | overlay/hal/libloragw/src/loragw_hal.c:346-368 | Two packets are similar exactly if channel, datarate and payload agree and one counter is the other moved by at most 24 us in either direction, across the wrap |
| RxMerge.SameIsRolloverInvariant | overlay/hal/libloragw/src/loragw_hal.c:346-368 | Advancing both 32-bit counters by any amount changes nothing |
| RxMerge.SameIsNotTransitive | overlay/hal/libloragw/src/loragw_hal.c:346-368 | Three packets that show that similarity is not transitive |
| RxMerge.RemovePacket | overlay/hal/libloragw/src/loragw_hal.c:372-393 | Removal moves the last packet into the gap, and refuses an index outside the live part |
| RxMerge.FindSimilar | overlay/hal/libloragw/src/loragw_hal.c:451-459 | The inner loop finds the first later similar packet, if there is one |
| TimeOnAir.TimeOnAirIsExactIff | overlay/hal/libloragw/src/loragw_aux.c:111-194 | The integer computation gives exactly the duration of section 6.1.4 of the SX1261/2 data sheet if and only if the setting is not SF12 at 62.5 kHz, where it gives 0 |
| TimeOnAir.TimeOnAirIsMonotone | overlay/hal/libloragw/src/loragw_aux.c:141-179 | A longer payload or a stronger code never shortens a packet |
| TimeOnAir.FitsUint32 | overlay/hal/libloragw/src/loragw_aux.c:171-179 | The duration of every accepted packet fits 32 bits with room for the later conversion |
| TimeOnAir.LdroAgrees | overlay/hal/libloragw/src/loragw_aux.c:167-167 | The computation's rule for low data rate optimisation selects the same settings as the data sheet's |
| ListenBeforeTalk.GuardProtectsIff | overlay/hal/libloragw/src/loragw_lbt.c:155-167 | The transmit-time guard protects a packet that can be sent, under every channel limit, if and only if it is no continuous carrier, its duration is not lost to the 16-bit symbol, and what the transmitter adds to the preamble, less what it saves elsewhere, is shorter than the room that rounding leaves |
| ListenBeforeTalk.PreambleDecides | overlay/hal/libloragw/src/loragw_sx1302.c:2880-2887 | For LoRa: up to 1.5 ms of added preamble is always harmless, and from 125 kHz on more than 2.5 ms always defeats the guard |
| ListenBeforeTalk.MissingPreambleOverruns | overlay/hal/libloragw/src/loragw_sx1302.c:2880-2887 | A LoRa packet without an explicit preamble that is computed as 365 ms, sent for 496 ms, and admitted under a limit of 400 ms |
| ListenBeforeTalk.MissingFskPreambleOverruns | overlay/hal/libloragw/src/loragw_sx1302.c:3033-3039 | The same for FSK: 113 ms computed, 192 ms sent, admitted under 115 ms |
| ListenBeforeTalk.SentIsComputedPlusExtra | overlay/hal/libloragw/src/loragw_sx1302.c:2880-2963 | The transmission lasts exactly as long as computed, plus the added preamble, minus the payload symbols saved without low data rate optimisation or the rounding of the FSK bit clock |
| ListenBeforeTalk.NoExtraWithoutPreamble | overlay/hal/libloragw/src/loragw_sx1302.c:2880-2963 | A packet whose preamble is sent as asked for never lasts longer than computed |
| ListenBeforeTalk.RoomBounds | overlay/hal/libloragw/src/loragw_hal.c:1775-1810 | Rounding leaves between 1.5 and 2.5 ms for LoRa and between 2 and 3 ms for FSK below the smallest limit that the guard accepts |
| Transmission.SentPreamble | overlay/hal/libloragw/src/loragw_sx1302.c:2880-2887 | The preamble sent is never shorter than asked for or than the minimum, at most 8 longer, and as asked for from the minimum on |
| Transmission.BitIsShort | overlay/hal/libloragw/src/loragw_sx1302.c:3027-3031 | A sent FSK bit is never longer than the data rate asks for |
| ListenBeforeTalk.CarrierPassesGuard | overlay/hal/libloragw/src/loragw_hal.c:1803-1806 | A continuous carrier that is admitted under every limit from 2 ms, however long it lasts |
| ListenBeforeTalk.LongPacketPassesGuard | overlay/hal/libloragw/src/loragw_lbt.c:155-167 | A packet that is sent for 23.9 seconds and is admitted under every limit from 2 ms, its duration being computed as 0 |
| ListenBeforeTalk.AdmittedStaysBelow | overlay/hal/libloragw/src/loragw_lbt.c:155-167 | Every other packet, once admitted, ends more than 1.5 ms before the channel's limit as it is sent, millisecond rounding included, if its preamble is sent as asked for; otherwise at most the added time later |
| ListenBeforeTalk.NoWrapInGuard | overlay/hal/libloragw/src/loragw_hal.c:1775-1810 | The guard's millisecond product never wraps, whatever can be sent |
| ListenBeforeTalk.LostDurationIsLong | overlay/hal/libloragw/src/loragw_aux.c:160-179 | A packet whose duration is lost is sent for at least 1.19 seconds |
| CarrierSense.ArmedAsConfiguredIff | overlay/hal/libloragw/src/loragw_sx1261.c:555-600 | The radio is armed with the configured target plus offset if and only if that sum lies between -127 and 0 dBm |
| CarrierSense.RegisterIsExactIff | overlay/hal/libloragw/src/loragw_sx1261.c:559-559 | A threshold reaches the radio unchanged if and only if it lies between -127 and 0 dBm |
| CarrierSense.WrapDisappears | overlay/hal/libloragw/src/loragw_sx1261.c:559-559 | The wrap of the sum to an int8_t never reaches the radio: the register is the byte of minus twice the true sum |
| CarrierSense.PermitAllLevel | overlay/hal/libloragw/src/loragw_lbt.c:176-187 | What a channel without sensing is armed with for every offset: offset - 1 dBm from -126 to 1, offset - 129 dBm from 2, and 0 and -1 dBm at -127 and -128 |
| CarrierSense.PermitAllIff | overlay/hal/libloragw/src/loragw_lbt.c:176-187 | Such a channel permits every reading of the radio if and only if the offset is 1 or -127 |
| CarrierSense.PermitsUpToIff | overlay/hal/libloragw/src/loragw_lbt.c:176-187 | For every level from -127 to 0 dBm: exactly the offsets with which it permits all readings up to that level |
| CarrierSense.PermitAllBlocks | overlay/hal/libloragw/src/loragw_lbt.c:176-187 | The registers at offsets 0, 1, 2 and -60, and the readings they block |
| CarrierSense.StartScan | overlay/hal/libloragw/src/loragw_sx1261.c:555-600 | The scan count and the threshold register that are written, and the refusal of an unknown scan time |
| ListenBeforeTalk.IsLbtChannel | overlay/hal/libloragw/src/loragw_lbt.c:113-127 | The loop finds the first channel within 10 kHz whose bandwidth is the transmission's, or 125 kHz for one of 62.5 kHz, or none |
| ListenBeforeTalk.Lbt.Start | overlay/hal/libloragw/src/loragw_lbt.c:132-199 | What a successful start has checked and written to the radio: the scan count of its scan time, and the register of 127 dBm on a disabled channel, of the channel's own target if it is not zero, else of the common one; and what every refusal means |
| ListenBeforeTalk.DurationAllowedIff | overlay/hal/libloragw/src/loragw_lbt.c:156-163 | Where the product in milliseconds does not wrap, a packet is admitted exactly if it and the 1.5 ms of lead fit the channel's transmit time |

## Left out

- RxMerge.MergePackets: ends before the sort by counter; signed differences order counters only within half their range.
- TimeOnAir.TimeOnAirIsExactIff: the optional out-values for symbol counts and durations are not returned.
- ListenBeforeTalk.Lbt.Start: setting the radio's receive parameters and starting the scan are parameters that succeed or fail; the clock and the reading of the noise floor are left out.
- CarrierSense.PermitAllIff: that the radio finds a channel busy exactly when a reading is above the armed level is assumed; the sources only call the threshold unreachable.
- ListenBeforeTalk.AdmittedStaysBelow: floating-point rounding of the FSK duration is not modelled; it is a real number. That an FSK bit lasts its register's number of 32 MHz ticks, and that LoRa is sent with the data sheet's symbols for the programmed settings, is taken from the register names.
- SeenPackets.LookupMeetsHistory: TTL and maximum size are fixed over a run, as the settings of a running engine; hashes are their preimages.
- Repeater.RepeaterHandler.ProcessPacket: the random transmit delay, the packet score, the duty-cycle budget and the policy verdict are parameters; the airtime manager is not part of this model.
- RelayRuns.NoSecondRelay: TTL and maximum size are fixed over the run, settings and policy may change from call to call; the two clock readings of one call are one.
- Repeater.RepeaterHandler.FloodForward: whether the packet's transport codes are allowed is a parameter; region keys are not part of this model.
- CompanionCache.PacketRouter.ShouldDeliverPath: calls without a packet key or without a recipient, which use no lock, are left out.
- CompanionRuns.EveryRunIsSafe: the router's in-flight counter and task set, and delivery to several bridges in turn, would only add easy members.
- MetricsRollup.MergeAgrees: one value column stands for all of a table's columns; numbers are exact, so SQLite's rounding is not modelled.
- RetentionTiers.MetricTables.CleanupOnce: one metric table at a time; returned row counts and logging are left out. A connection fault undoes the whole pass; one that undoes only the steps since the last commit is a pass whose later steps fail.
- RetentionLedger.TiersAddUp: starts without legacy 10-minute rows, which do not line up with quarter hours; RunConserves covers them. Rows written before denominators were kept are not modelled.
- ChannelBaseline.PassesKeepDelta: a channel that was inactive at some pass has lost its baseline by design, and a late insertion before a snapshot changes its difference.
- DedupWriter.DoneMeansAllHanded: a batch counts as handed out when the store is called; a store that raises loses it, as the source logs. The in-memory ring buffer is left out.
- DedupWriter.WriterTerminates: bounds the writer's steps and shows that it is never blocked; that the operating system schedules it is assumed.
- RoomRuns.RoomsAreAllOrNothing: other owners may change anything except entries of rooms; deleting a room is elsewhere. Start tasks and the room's own shutdown are events without effect on the maps.
- RoomActivation.RoomHost.Begin: which entries the helpers publish before they fail is a parameter; the key's decoding is reduced to its length, and blank names to ASCII white space.
- ContactBook.CompanionBook.HandleAdvert: a database is always attached; path cache, notifications and signal values are left out, and the field validation of contacts that were validated when decoded.
- PolicyMeaning.NormalisationKeepsMeaning: what a field is in a packet and how a resolved value compares is an arbitrary function of objects, secrets, field, operator and value, so decryption and hash comparison are covered only as unchanged.
- PolicyText.IdentifierIsStable: text is ASCII; Unicode case folding, white space and digits are not modelled.
- PolicyService.NormalizeRules: error messages are not modelled, only that there is an error; the service's file, lock and installed engine are left out.
- SPI and ioctl code, sockets, HTTP, threads' scheduling and the file system have no meaning that the sources show.
- Configuration files, region scopes, message channels, displays and telemetry would only add easy members.
