# Verification model of the parachain introspection tools

The tools follow a relay chain, decode what its runtime reports, group it by relay height, keep it for a
limited number of blocks, hand it over bounded channels, and track every candidate of a parachain from its
backing to its inclusion. This project models those six parts in Dafny and proves what they promise over
whole runs.

| part | files |
|---|---|
| tracker of one para: a state machine per core | `BlockInfo`, `TrackerSpec`, `Tracker`, `TrackerRuns`, `TrackerTotals`, `TrackerHistory`, `TrackerReports`, `TrackerFates` |
| broadcast watcher: one tracker per active para | `Watcher`, `Delivery` |
| collector: events grouped by height, linked records | `CollectorSpec`, `Collector`, `CollectorRuns`, `LinkedRecords`, `BrokenLinks`, `RecordHistory`, `Authors` |
| dispute events rebuilt from snapshots, quorums | `Disputes`, `Quorum` |
| the two expiring stores | `StoreSpec`, `Store`, `StoreRuns`, `Lifetimes`, `PlainRuns`, `StoreValues` |
| SCALE codecs (section A.2.2 of the Polkadot Protocol Specification) and the two inherent decoders | `Scale`, `Decoders`, `Layouts`, `Inherent`, `InherentLayout`, `Dynamic`, `Denotations` |
| key format language | `KvdbFormat`, `KvdbKeys` |
| priority channel | `Channel` |

Code that changes state in the repository is a class whose methods update its fields (`SubxtTracker`,
`BroadcastWatcher`, `Collector`, the two stores, `PriorityChannel` and its `Receiver`) or a method with a loop (the inherent
decoder with its cursor, the format parser, the key pipeline). Each of them is proved equal to a function on
values, and the laws are proved about those functions: over every sequence of inputs, from the initial state.

How to read the main results:

- **Conservation** counts one arbitrary hash `h`. `Conservation` says that the number of times `h` was
  backed equals the number of Included events plus Dropped events plus live entries with that hash, whatever
  order each block visits the map of cores in. A hash backed once is therefore terminal at most once.
- **History** of a tracker is the list of blocks whose inherent was found; blocks without one change
  nothing but are reported again.
- **Broken promises** are stated as exact conditions, each with an input that meets it.
  `LinkedStepExactly` names the only operation that can separate the records of a candidate
  (`OrphanFromStart`, `PointerLostInRun`), `AgreementStep` the only ones that make the plain index disagree
  with its records (`DeleteLeavesItsKey`), `MissedExactly` the only crossings the rebuilt events miss
  (`SecondConclusionMissed`), `BackedAgainExactly` when a candidate is reported Backed more than once
  (`BackedTwice`), `StillEmptyExactly` when a bulk message overtakes a priority message (`BulkOvertakes`),
  `LivesWithItsBlockExactly` when a record can die before its block (`DeletedKeyDiesEarly`,
  `SharedKeyDiesEarly`), `PrintParseExactly` and `AcceptsItsKeysExactly` which formats survive printing and
  accept their own keys, `SlowVersusThreshold` the only counts the slow predicate misses.
- **Meanings.** The functions that methods are proved against are themselves tied to descriptions that do not use
  them: lists to the elements they select, in order and once each (`Selects`), decoders to bytes or values written
  out field by field (`CandidateEventsExactly`, `ParainherentReads`, `InherentExactly`, `ParseExactly`), records to
  the events of the run that wrote them (`CandidateRecorded`, `DisputeRecorded`, `ReadsLastWrite`), reports to the
  blocks observed (`SurvivorExactly`, `SlowReportedExactly`, `ReportedTimes`), inboxes and queues to what was sent
  (`InboxExactly`, `SendExactly`). `FedReportWasBacked` joins the collector and a tracker end to end.
- **A receive** of the priority channel is two queue operations, and other handles can run in between. The
  schedules of `Channel` interleave those single operations; `TryNextWithStrategy` and `PollNext` describe
  the call that nobody interrupts.
- **Where the code and its comments differ** the code is followed. `Persistent` is documented as not pruned
  automatically, but the prefixed store indexes and prunes such records too (`ReadableExactly` does not look
  at the record type). `prune` is documented by distance from the current block, but it counts distinct block
  numbers; `DistanceRuleExactly` says when the two agree. Keys are documented as unique across prefixes, but
  the collector uses one candidate hash under three of them, and pruning relies on it
  (`LinkedUnlessRebacked`). Linked records need no bound on the relay parent's height.

## Model

| member | source | states |
|---|---|---|
| Tracker.SubxtTracker.InjectBlock | parachain-tracer/src/tracker.rs:115-148 | all passes of one relay block run in the source's order, in place; a missing inherent changes nothing |
| Tracker.SubxtTracker.SetRelayBlock | parachain-tracer/src/tracker.rs:211-232 | the current block moves on, and unless it is a fork the two non-fork timestamps shift |
| Tracker.SubxtTracker.SetForks | parachain-tracer/src/tracker.rs:234-244 | a block of a new height clears the fork list, every block joins it; afterwards it is not empty |
| Tracker.SubxtTracker.SetCores | parachain-tracer/src/tracker.rs:246-249 | exactly the cores assigned to the para are kept |
| Tracker.SubxtTracker.SetIncludedCandidates | parachain-tracer/src/tracker.rs:251-275 | every hit entry is Included with the bits of its own core; the inclusion times and the last fork change iff some entry was hit |
| Tracker.SubxtTracker.SetBackedCandidates | parachain-tracer/src/tracker.rs:277-312 | own backings are pushed in order, the backing mode and last fork follow them, and a skipped slot is pushed on exactly the idle assigned cores |
| Tracker.SubxtTracker.SetCoreAssignment | parachain-tracer/src/tracker.rs:333-349 | only the last entry of an assigned core, and only if Backed, learns whether its core is occupied |
| Tracker.SubxtTracker.SetPendingAvailability | parachain-tracer/src/tracker.rs:392-410 | only Backed last entries of assigned cores become Pending, unless the para was just backed |
| Tracker.SubxtTracker.SetDroppedCandidates | parachain-tracer/src/tracker.rs:314-331 | every open candidate but the last open one of its core becomes Dropped |
| Tracker.SubxtTracker.NotifyCandidateState | parachain-tracer/src/tracker.rs:485-546 | the events of all entries, core by core, in some visiting order of the map |
| Tracker.SubxtTracker.MakeProgress | parachain-tracer/src/tracker.rs:150-189 | a report exists iff a block was ever observed |
| Tracker.SubxtTracker.MaybeResetState | parachain-tracer/src/tracker.rs:191-202 | only Backed and Pending entries stay; cores left empty leave the map |
| Tracker.SubxtTracker.WatchBlock | parachain-tracer/src/main.rs:346-360 | one turn of the watch loop is inject, report, reset |
| TrackerRuns.RunInvariant | parachain-tracer/src/tracker.rs:191-202 | after any run each core of the map holds exactly one entry, Backed or Pending, filed under that core |
| TrackerRuns.Partition | parachain-tracer/src/tracker.rs:485-546 | each entry is reported Included, reported Dropped, or kept by the reset: exactly one of them |
| TrackerRuns.StepConserves | parachain-tracer/src/tracker.rs:115-202 | one block moves every candidate of a core to exactly one of: Included event, Dropped event, live entry |
| TrackerRuns.ConservationOnCore | parachain-tracer/src/tracker.rs:115-202 | over any run, on each core, backings = Included events + Dropped events + live entries |
| TrackerTotals.SumAgrees | parachain-tracer/src/tracker.rs:565-571 | a total over the map does not depend on the order it is visited in |
| TrackerTotals.Conservation | parachain-tracer/src/main.rs:346-360 | the same conservation over the whole event stream of a run with forks and missing inherents, for every visiting order |
| TrackerHistory.RunStartIsMaximal | parachain-tracer/src/tracker.rs:573-578 | the current run is the longest suffix of observed blocks at the last height |
| TrackerHistory.RunIsWholeHeight | parachain-tracer/src/tracker.rs:573-578 | with non-decreasing heights it is every block observed at that height |
| TrackerHistory.InclusionReported | parachain-tracer/src/tracker.rs:251-275 | an Included event appears on some core iff a tracked candidate was included by the block |
| TrackerHistory.HistoryRefinement | parachain-tracer/src/tracker.rs:211-275 | forks = blocks of the current equal-height run; the non-fork timestamps = first blocks of the last two runs; the inclusion times = last two blocks that reported an inclusion |
| TrackerHistory.BackingModeIsHistory | parachain-tracer/src/tracker.rs:277-297 | the mode is Async iff two consecutive own backings had heights one apart |
| TrackerHistory.NeverBackToSync | parachain-tracer/src/tracker.rs:277-297 | Async never returns to Sync |
| TrackerHistory.SkippedSlotExactly | parachain-tracer/src/tracker.rs:298-312 | a skipped slot is reported on a core iff it is assigned, nothing own was backed at this height, and (by mode) nothing was included or is still backed |
| TrackerHistory.SkippedSlotIsSafe | parachain-tracer/src/tracker.rs:580-594 | a skipped slot at a height excludes any own backing, on any core, in any fork observed at that height |
| TrackerHistory.BackedAgainExactly | parachain-tracer/src/tracker.rs:392-410 | a waiting candidate is reported Backed once more iff its core is not assigned or some own candidate was backed at this height on any core; otherwise as pending |
| TrackerHistory.BackedTwice | parachain-tracer/src/tracker.rs:392-410 | every candidate whose core is unassigned in the next block is reported Backed in both |
| TrackerReports.OwnExactly | parachain-tracer/src/tracker.rs:279 | the own candidates of a block are the backed ones of the para: exactly those, in order and once each |
| TrackerReports.BackedAreConserved | parachain-tracer/src/tracker.rs:115-202 | counted over all candidates the blocks of a run back for the para: backings = Included events + Dropped events + live entries, for every hash and visiting order |
| TrackerReports.ReportedWasBacked | parachain-tracer/src/tracker.rs:277-297 | an event about a candidate on a core means that some block of the run backed it for this para on this core |
| TrackerReports.OwnCoresExactly | parachain-tracer/src/tracker.rs:246-249 | a core is kept iff some assignment to it names the para |
| TrackerReports.BitsMean | parachain-tracer/src/tracker.rs:609-621 | the availability of a core is the number of bitfields with its bit set, out of the validators of all groups |
| TrackerReports.ReportedTimes | parachain-tracer/src/tracker.rs:150-165 | the reported block is the last observed one, a fork iff the one before has its height, and the previous time is that of the first block of the run of heights before |
| TrackerReports.ReportedSession | parachain-tracer/src/tracker.rs:451-455 | a report announces the session notice right before its block, and no other |
| TrackerReports.ListedInOrder | parachain-tracer/src/tracker.rs:485-546 | a core lists the events of its entries from the oldest to the newest |
| TrackerReports.NotifiedInOrder | parachain-tracer/src/tracker.rs:565-567 | the report lists core by core in the order of the visit |
| TrackerFates.NewOnExactly | parachain-tracer/src/tracker.rs:277-297 | the candidates new on a core are those backed for the para on it, in order and once each |
| TrackerFates.SurvivorExactly | parachain-tracer/src/tracker.rs:277-410 | which candidate a core holds after a block, and in which state: the last one backed on it, else the held one unless included; a held Backed one turns pending iff the core is assigned and nothing own was backed at this height |
| TrackerFates.FatesReported | parachain-tracer/src/tracker.rs:485-546 | event by event: Included iff the held candidate was included, with this block's bits; Dropped iff a newer candidate follows; Backed or pending iff it is the candidate kept |
| TrackerFates.PendingSince | parachain-tracer/src/tracker.rs:392-410 | a pending candidate carries the bits and the occupation of the block that turned it pending, and has stood alone on its core since |
| TrackerFates.SlowReportedExactly | parachain-tracer/src/tracker.rs:605-607 | over any run, slow availability is reported with these bits iff the candidate turned pending in a block with these bits that found the core occupied, no slot is skipped now, and nothing own was backed at this height |
| Watcher.BroadcastWatcher.Receive | parachain-tracer/src/main.rs:416-445 | a head starts or feeds its tracker and updates the books, a higher one also evicts; a session reaches all trackers |
| Watcher.BroadcastWatcher.EvictStalled | parachain-tracer/src/main.rs:479-493 | exactly the paras more than ten blocks behind the largest last block leave both maps |
| Watcher.KeysAgree | parachain-tracer/src/main.rs:416-493 | in every run the two maps have the same keys |
| Watcher.KeptExactly | parachain-tracer/src/main.rs:416-493 | with non-decreasing heights a para has a tracker iff one of its heads came within the last ten heights |
| Watcher.InboxExactly | parachain-tracer/src/main.rs:416-445 | in every run the inbox of a live tracker is what arrived since its para was last started, its own heads and all sessions, in order and once each |
| Watcher.EndsExactly | parachain-tracer/src/main.rs:439-493 | in every run, heights in any order, a tracker ends iff a head above all earlier ones is more than ten above the latest head of its para |
| Delivery.BroadcastIsNonDecreasing | essentials/src/collector/mod.rs:570-618 | the heads a run of the collector broadcasts never go back in height, in whatever order each round is sent |
| Delivery.WatcherKeepsExactly | parachain-tracer/src/main.rs:416-493 | so behind the collector the watcher keeps exactly the active paras, for any heads that arrive |
| Delivery.FedHistoryIsNonDecreasing | parachain-tracer/src/main.rs:346-360 | a tracker fed with a subscriber's events observes heights that never go down |
| Delivery.FedSkippedSlotIsSafe | parachain-tracer/src/tracker.rs:580-594 | so its skipped slots are safe, for any heads that arrive |
| Delivery.FedReportWasBacked | parachain-tracer/src/main.rs:346-360 | end to end: whatever a tracker behind the collector reports about a candidate on a core, the collector had accepted a backing of it for this para on this core |
| Delivery.FedInclusionWasAccepted | parachain-tracer/src/main.rs:346-360 | and it reports an inclusion only after the collector accepted it |
| Collector.Collector.ProcessNewHead | essentials/src/collector/mod.rs:709-738 | higher heads publish, equal ones join, lower ones fail and change nothing |
| Collector.Collector.EventFor | essentials/src/collector/mod.rs:542-618 | the event of a para: the height's lists, its own candidates, its concluded disputes in order, and for subscribers only the authors who missed their slots |
| Collector.Collector.RefreshParas | essentials/src/collector/mod.rs:570-596 | seen paras are refreshed, then those silent for more than the stall limit are evicted |
| Collector.Collector.UpdateState | essentials/src/collector/mod.rs:542-631 | every subscriber and every broadcast para gets one event, then all lists restart with the new block |
| Collector.Collector.ReadHeader | essentials/src/collector/mod.rs:1281-1304 | a header is read from the store, or fetched and stored under its own block |
| Collector.Collector.ProcessBacked | essentials/src/collector/mod.rs:935-1023 | a duplicate is ignored; otherwise pointer, header and candidate are written in that order and the backing is listed |
| Collector.Collector.ProcessOutcome | essentials/src/collector/mod.rs:1025-1107 | an inclusion or timeout of a stored candidate is recorded and listed; an unknown one is ignored |
| Collector.Collector.FindCandidateByHash | essentials/src/collector/mod.rs:1112-1121 | pointer first, then the candidate of that para |
| Collector.Collector.ExtractDisputeInitiators | essentials/src/collector/mod.rs:1183-1211 | the voters of the invalid statements about the candidate in the stored inherent, with its session; nobody and the current session when there is none |
| Collector.Collector.ProcessDisputeInitiated | essentials/src/collector/mod.rs:1123-1181 | the dispute is listed with its initiators and, unless one is stored, written, and the candidate marked |
| Collector.Collector.ProcessDisputeConcluded | essentials/src/collector/mod.rs:1213-1279 | the stored dispute gets its outcome and is listed again; the candidate is marked either way |
| Authors.AuthorsMissingTheirSlots | essentials/src/collector/mod.rs:493-540 | the loop over skipped slots lists the owner of each slot's drawn authority, newest slot first |
| Authors.MissingExactly | essentials/src/collector/mod.rs:493-540 | an author is listed iff some slot strictly between the two blocks was theirs |
| Authors.OnePerSlot | essentials/src/collector/mod.rs:493-540 | at most one author per skipped slot, and exactly one iff every turn has a known owner |
| Authors.MissingInOrder | essentials/src/collector/mod.rs:493-540 | the authors of newer slots come before those of older ones |
| CollectorRuns.HeadStreamConserves | essentials/src/collector/mod.rs:542-631 | each field of the events sent to a subscriber, missing authors included, then the unsent part, equals everything accepted: in order, once each, under the height it was accepted at |
| CollectorRuns.HeightsIncrease | essentials/src/collector/mod.rs:709-738 | heights strictly increase on every channel, and every round reaches all subscribers |
| CollectorRuns.QuietStep | essentials/src/collector/mod.rs:709-738 | only a higher head sends anything; a lower head changes nothing |
| CollectorRuns.BroadcastSetExactly | essentials/src/collector/mod.rs:570-618 | the paras notified at height h are exactly those with a candidate event accepted in [h - max stall, h] |
| CollectorRuns.BroadcastConservesSeen | essentials/src/collector/mod.rs:570-618 | the broadcast channel never loses or repeats a candidate of any para, although paras join it late |
| CollectorRuns.ChannelsAgree | essentials/src/collector/mod.rs:542-631 | round by round the broadcast carries, about a para, what its subscribers get without the missing authors |
| RecordHistory.InitiatorsExactly | essentials/src/collector/mod.rs:1183-1211 | the initiators are the validators with an invalid statement in the first set about the candidate in the stored inherent, in order, with its session; nobody and the current session without inherent or set; unknown only if the record does not decode |
| RecordHistory.InitiationListed | essentials/src/collector/mod.rs:1123-1181 | an initiation of a known candidate lists one dispute of its para with exactly these initiators; any other changes nothing |
| RecordHistory.CandidateRecorded | essentials/src/collector/mod.rs:935-1279 | a stored candidate was written by an accepted backing and says exactly what happened since: heights of its backing, last inclusion and last time-out, and the last dispute event |
| RecordHistory.DisputeRecorded | essentials/src/collector/mod.rs:1123-1279 | a stored dispute was opened by an accepted initiation at its height with these initiators; its outcome and height are those of the last accepted conclusion since, or absent |
| RecordHistory.HeaderRecorded | essentials/src/collector/mod.rs:1281-1304 | a stored header number was written, or fetched, for that block by some event of the run |
| RecordHistory.SessionExactly | essentials/src/collector/mod.rs:776-778 | the current session is the one of the latest notice, 0 before the first |
| LinkedRecords.InsertPerKey | essentials/src/storage.rs:359-378 | a write evicts all records of a key, under every prefix, or none |
| LinkedRecords.LinkedStepExactly | essentials/src/collector/mod.rs:930-1279 | one operation keeps pointer, candidate and dispute linked iff it is not a new backing that leaves an orphan pointer (header unknown) or loses the pointer between its writes but keeps the candidate |
| LinkedRecords.OrphanIsDeaf | essentials/src/collector/mod.rs:957-979 | after a backing without a header, no later event about the candidate has any effect while the orphan pointer is stored |
| LinkedRecords.LinkedThroughoutExactly | essentials/src/collector/mod.rs:930-1279 | a run keeps all links all along iff none of its backings meets such a break |
| LinkedRecords.LinkedUnlessRebacked | essentials/src/collector/mod.rs:930-1279 | without missing headers and re-used hashes there is no break, for any store size and any relay parent height |
| LinkedRecords.LostTogether | essentials/src/storage.rs:359-378 | if a hash filed only under the current height loses its pointer during its backing, it loses the candidate too |
| LinkedRecords.TouchedWasUsed | essentials/src/storage.rs:421-434 | only hashes some earlier operation wrote appear in the index or the records |
| LinkedRecords.OneParaPerHash | essentials/src/collector/mod.rs:1112-1121 | in a linked store a hash belongs to one para, and lookup by hash finds it iff the pointer is stored |
| BrokenLinks.OrphanFromStart | essentials/src/collector/mod.rs:957-979 | any first backing with an unknown relay parent leaves an orphan pointer, in a store of any size |
| BrokenLinks.PointerLostInRun | essentials/src/collector/mod.rs:957-999 | a run of the collector in which backing an evicted candidate again stores it without its pointer |
| Disputes.ConclusionsAgree | essentials/src/collector/mod.rs:421-447 | in every block of every dispute run, the chain's conclusions less the excluded candidates equal those rebuilt from the snapshot |
| Disputes.InitiationsAgree | essentials/src/collector/mod.rs:1390-1396 | the rebuilt initiations are exactly the disputes absent from the previous snapshot |
| Disputes.MissedExactly | essentials/src/collector/mod.rs:1366-1389 | a crossing is missed iff the dispute had concluded in an earlier block |
| Disputes.SecondConclusionMissed | essentials/src/collector/mod.rs:1366-1389 | a run of the dispute process in which one validator votes both ways and the second conclusion is missed |
| Disputes.StepConclusions | essentials/src/collector/mod.rs:1370-1424 | the two-snapshot form, with the excluded set characterised |
| Disputes.InitiationsExactly | essentials/src/collector/mod.rs:1392-1396 | one initiation for each dispute that started in the block, in order, naming the block |
| Disputes.ConclusionExactly | essentials/src/collector/mod.rs:1397-1423 | a dispute concluded in the block yields one conclusion per side with more than two thirds of the validators, the valid one first |
| Disputes.ConclusionsInOrder | essentials/src/collector/mod.rs:1397-1423 | the conclusions follow the order of the disputes |
| Quorum.ThresholdIsLeast | essentials/src/api/decode.rs:136-141 | for n > 0 the threshold is the least t with 3t > 2n |
| Quorum.BothSidesOverlap | essentials/src/api/decode.rs:119-141 | if both sides conclude, at least (n-1)/3 + 1 validators voted on both |
| Quorum.SlowVersusThreshold | parachain-tracer/src/parachain_block_info.rs:33-35 | slow is never true at or above the threshold, and misses a count below it iff n mod 3 = 2 and one vote is lacking |
| Store.HashedPlainRecordsStorage.Insert | essentials/src/storage.rs:200-215 | refuses duplicates; otherwise stores, indexes unless persistent, prunes |
| Store.HashedPlainRecordsStorage.Prune | essentials/src/storage.rs:229-246 | over the limit, the oldest bucket and its keys go |
| Store.HashedPlainRecordsStorage.Replace | essentials/src/storage.rs:217-227 | swaps an existing entry and returns the old one, never touching the index |
| Store.HashedPlainRecordsStorage.Delete | essentials/src/storage.rs:256-261 | removes the record but not its index entry |
| Store.HashedPrefixedRecordsStorage.InsertPrefix | essentials/src/storage.rs:421-434 | refuses duplicates; otherwise stores and indexes every record type, prunes |
| Store.HashedPrefixedRecordsStorage.Prune | essentials/src/storage.rs:359-378 | over the limit, the keys of the oldest bucket go from every prefix |
| Store.HashedPrefixedRecordsStorage.ReplacePrefixed | essentials/src/storage.rs:436-453 | swaps an existing entry of one prefix |
| Store.HashedPrefixedRecordsStorage.DeletePrefix | essentials/src/storage.rs:467-481 | removes the record of one prefix but not its index entry |
| Store.HashedPrefixedRecordsStorage.Replace | essentials/src/storage.rs:346-357 | swaps the entry under one prefix that has the key |
| StoreRuns.NewestStep | essentials/src/storage.rs:359-378 | adding a block and dropping the least when over n keeps the n newest of all blocks ever written |
| StoreRuns.IndexRefinesTopK | essentials/src/storage.rs:359-434 | after any run the index is the max_blocks largest blocks ever written, each with exactly the keys written under it |
| StoreRuns.StoredKeysAreIndexed | essentials/src/storage.rs:421-434 | in every run each stored key is in some live bucket |
| StoreRuns.DistanceRuleExactly | essentials/src/storage.rs:155-156 | pruning by distance, as documented, describes the index iff as many written blocks lie within it as the index can hold |
| StoreRuns.ReplaceKeepsLifetimes | essentials/src/storage.rs:436-453 | erasing all replacements from a run leaves the same keys and the same index |
| StoreValues.ReadsLastWrite | essentials/src/storage.rs:421-453 | a readable record holds the entry of the last insert or replacement of it that counted, and has been readable since |
| StoreValues.LastBlockIs | essentials/src/storage.rs:427 | the last block is that of the last successful insert |
| StoreValues.PlainIndexRefinesTopK | essentials/src/storage.rs:200-246 | in any run the plain index is the newest blocks that expiring records were written under, with their keys |
| StoreValues.PlainStepExactly | essentials/src/storage.rs:200-261 | which keys are there after an operation on the plain store, and with which entry |
| StoreValues.PlainReadsLastWrite | essentials/src/storage.rs:200-261 | a plain record holds the entry of the last write that counted |
| Lifetimes.ReadableExactly | essentials/src/storage.rs:359-481 | in any run, deletions and shared keys included, a record written and not deleted since is readable iff every block its key is filed under is live: the live buckets holding it before the write, the write's block, and the blocks of later writes of the key under any prefix |
| Lifetimes.ReadableIff | essentials/src/storage.rs:359-481 | any key of any run is readable iff it has such a write and all those blocks are live |
| Lifetimes.LivesWithItsBlockExactly | essentials/src/storage.rs:359-481 | whatever happens to other keys, a record lives exactly as long as its block iff its key is filed under no smaller block |
| Lifetimes.TestBeforeInsert | essentials/src/storage.rs:421-434 | the same as a test before the insert: no live bucket of a smaller block holds the key |
| Lifetimes.LivesWithItsOnlyBlock | essentials/src/storage.rs:359-434 | a key only ever written under one block is readable iff that block is live, whatever is deleted elsewhere |
| Lifetimes.ReadableWhileNewest | essentials/src/storage.rs:359-434 | the special case of runs without deletions |
| Lifetimes.DeletedKeyDiesEarly | essentials/src/storage.rs:467-481 | a run in which a deleted and rewritten key dies with its old bucket |
| Lifetimes.SharedKeyDiesEarly | essentials/src/storage.rs:366-370 | a run in which a key under two prefixes dies with the older block in both |
| PlainRuns.AgreementStep | essentials/src/storage.rs:200-261 | an operation destroys the agreement of buckets and records iff it deletes an expiring record or replaces one across the persistent boundary |
| PlainRuns.DeleteLeavesItsKey | essentials/src/storage.rs:256-261 | deleting any freshly inserted expiring record breaks the agreement |
| PlainRuns.PlainStoreAgrees | essentials/src/storage.rs:200-246 | without such operations the buckets are disjoint, at most max_blocks, and hold exactly the expiring keys |
| PlainRuns.PersistentRecordsStay | essentials/src/storage.rs:200-246 | a persistent record stays readable until it is deleted |
| Scale.CompactRoundTrip | essentials/src/api/decode.rs:487-493 | compact lengths of every size class decode to themselves, whatever follows |
| Scale.CompactCanonical | essentials/src/api/decode.rs:487-493 | and each has only one accepted encoding |
| Scale.PackRoundTrip | essentials/src/api/decode.rs:147-156 | bits packed least significant first unpack to themselves |
| Scale.LittleEndian | essentials/src/api/decode.rs:46-56 | byte k of a fixed-width number has the weight 256^k |
| Scale.CompactModes | essentials/src/api/decode.rs:487-493 | the low two bits of a compact number give its size, its bytes the number, and the mode is the first that fits |
| Scale.PackedBit | essentials/src/api/decode.rs:147-156 | bit i of a bit vector is bit i mod 8 of byte i / 8, the least significant first |
| Scale.RoundTrip | essentials/src/api/decode.rs:46-101 | for every shape, decoding an encoding gives the value and hands on the rest |
| Scale.Extension | essentials/src/api/decode.rs:46-101 | decoding is local: appended bytes are handed on untouched |
| Scale.ExactConsumption | essentials/src/api/decode.rs:160-162 | if all of b is accepted, every proper extension and every proper prefix is rejected |
| Scale.DecodedFits | essentials/src/api/decode.rs:46-101 | whatever is decoded is a value of its shape |
| Scale.Canonical | essentials/src/api/decode.rs:75-84 | without bit vectors, the accepted bytes are the encoding of the value decoded |
| Decoders.CandidateEventsExact | essentials/src/api/decode.rs:75-101 | candidate events: exact consumption |
| Decoders.CandidateEventsCanonical | essentials/src/api/decode.rs:75-101 | an accepted result is the encoding of its events, one by one |
| Decoders.EventWindow | essentials/src/api/decode.rs:40-101 | the candidate hash is the hash of the 324 bytes after the tag; para id and relay parent lead them |
| Layouts.CandidateEventsExactly | essentials/src/api/decode.rs:40-101 | candidate events, both ways: these events are returned iff the bytes are, tag by tag and field by field, an encoding of events with these types, paras, relay parents, cores and receipt hashes |
| Decoders.DisputesRoundTrip | essentials/src/api/decode.rs:147-186 | every list of disputes with votes below its validator count decodes from its packed bit sets to itself |
| Layouts.DisputesLayout | essentials/src/api/decode.rs:147-156 | the encoder of that round trip, byte by byte |
| Decoders.DisputesAcceptedExactly | essentials/src/api/decode.rs:160-175 | bytes are accepted iff they are raw disputes whose two bit sets agree in length |
| Decoders.DisputesExact | essentials/src/api/decode.rs:160-186 | disputes: exact consumption |
| Decoders.DecodedDisputesWellVoted | essentials/src/api/decode.rs:163-186 | all decoded vote lists strictly increase below the validator count |
| Decoders.DecodedDisputesOverlap | essentials/src/api/decode.rs:119-141 | the quorum intersection for every dispute that any bytes decode to |
| Decoders.AvailabilityCoresRoundTrip | essentials/src/api/decode.rs:188-242 | core states decode to their variants in order, whatever the payloads hold |
| Layouts.CoresDecode | essentials/src/api/decode.rs:188-242 | encoded core states with tags 0, 1, 2 and any payloads decode to occupied, scheduled, free, in order |
| Decoders.AvailabilityCoresExact | essentials/src/api/decode.rs:230-242 | core states: exact consumption |
| Decoders.BabeEpochIgnoresTail | essentials/src/api/decode.rs:305-322 | every extension of an accepted epoch decodes to the same epoch |
| Decoders.BabeEpochRoundTrip | essentials/src/api/decode.rs:305-322 | authorities and randomness are read back from an encoded epoch with any tail |
| Layouts.EpochDecodes | essentials/src/api/decode.rs:285-322 | three numbers of eight bytes, authorities, randomness: read at these places whatever follows |
| Inherent.ReadBitfields | essentials/src/api/decode.rs:505-517 | the loop keeps each payload and passes over index and signature, or fails as the whole list does |
| Inherent.DecodeParainherent | essentials/src/api/decode.rs:487-542 | the cursor decoder equals the shape-by-shape description, errors included |
| Inherent.ExtrinsicRoundTrip | essentials/src/api/decode.rs:480-542 | any inherent with any indices, signatures, candidates and header is read back from its extrinsic; a version byte that is not bare is refused |
| Inherent.ExtrinsicExact | essentials/src/api/decode.rs:480-542 | nothing can be cut off or appended to an accepted extrinsic |
| InherentLayout.ParainherentReads | essentials/src/api/decode.rs:440-542 | the decoder on written-out bytes of any inherent, skipped parts included: a bare extrinsic reads back as its payloads and unsigned statements, any other is refused |
| Dynamic.DecodeDisputeStatementSet | essentials/src/api/dynamic.rs:252-282 | the loop over statements equals the element-wise description, errors included |
| Dynamic.DynamicRoundTrip | essentials/src/api/dynamic.rs:198-367 | the dynamic value of an inherent decodes to its bitfields and disputes, for any depth of wrapper types |
| Dynamic.TwoDecodersAgree | essentials/src/api/decode.rs:440-542 | both decoders return the same, encoded content for every inherent |
| Denotations.SetExactly | essentials/src/api/dynamic.rs:252-365 | a dispute set is read as this one iff the dynamic value stands for it; every other value is refused |
| Denotations.InherentExactly | essentials/src/api/dynamic.rs:95-367 | over all dynamic values the decoder returns an inherent iff the value stands for it |
| KvdbFormat.ParseFormatString | kvdb/src/decode.rs:106-160 | the loop over the remaining string is the recursive parser |
| KvdbFormat.PrintParseExactly | kvdb/src/decode.rs:106-160 | a printed format parses to itself iff it is well formed |
| KvdbFormat.TrailingLiteralIsEmpty | kvdb/src/decode.rs:152-155 | a trailing literal becomes an empty literal, whatever it says |
| KvdbFormat.ParserOutput | kvdb/src/decode.rs:106-160 | everything the parser returns is well formed up to one empty literal at the end |
| KvdbFormat.ParseExactly | kvdb/src/decode.rs:106-160 | on every string the parser returns these elements iff the string spells them, leading zeros and an ignored last literal included, and fails iff it spells nothing |
| KvdbKeys.ProcessDecodersPipeline | kvdb/src/decode.rs:162-178 | the pipeline consumes each element's size in turn and fails on the first truncation or mismatch |
| KvdbKeys.KeyRoundTrip | kvdb/src/decode.rs:51-178 | an encoded key, with any UTF-8 literals and texts, decodes to its fields and takes exactly the sum of the sizes |
| KvdbKeys.KeyIsDetermined | kvdb/src/decode.rs:51-178 | conversely the decoded fields, if they show no replacement character, determine the consumed bytes |
| KvdbKeys.BigEndian | kvdb/src/decode.rs:51-67 | numbers are the reversed little-endian bytes |
| KvdbKeys.SignedWord | kvdb/src/decode.rs:51-58 | a signed word is congruent to its unsigned reading and in the signed range |
| KvdbKeys.HexAt | kvdb/src/decode.rs:69-79 | two digits a byte, the high half first |
| KvdbKeys.Utf8Shape | kvdb/src/decode.rs:81-104 | lead bytes tell the length, continuation bytes follow |
| KvdbKeys.TrailingLiteralRefusesItsKeys | kvdb/src/decode.rs:220-234 | a format ending in a literal refuses the keys that really end in it, unless failures are ignored |
| KvdbKeys.AcceptsItsKeysExactly | kvdb/src/decode.rs:106-234 | a printed format accepts the keys written with it iff it does not end in a literal |
| KvdbKeys.Utf8Injective | kvdb/src/decode.rs:81-104 | two texts with the same bytes are equal |
| KvdbKeys.DecoderExists | kvdb/src/decode.rs:81-104 | a lossy decoder with the assumed behaviour exists |
| KvdbKeys.DecodeEntries | kvdb/src/decode.rs:232-248 | succeeds iff every entry up to one beyond the limit decodes, and returns the first ones in order |
| KvdbKeys.DecodeKeys | kvdb/src/decode.rs:220-252 | the same for a format, over the keys with its literal prefix; without a percent field nothing is read |
| Channel.PriorityChannel.TrySend | priority-channel/src/lib.rs:230-233 | a full queue refuses, a closed one is disconnected, otherwise the message joins the bulk queue |
| Channel.PriorityChannel.TryRecv | priority-channel/src/lib.rs:147-149 | one queue operation: the head, or empty, or closed |
| Channel.Receiver.TryFirst | priority-channel/src/lib.rs:140-149 | the first queue is tried; only empty and open lets the receive go on |
| Channel.Receiver.TrySecond | priority-channel/src/lib.rs:149-154 | the other queue is tried, as other handles have left it |
| Channel.Receiver.TryNextWithStrategy | priority-channel/src/lib.rs:140-155 | a receive that nobody interrupts tries the second queue iff the first is empty and open |
| Channel.Receiver.PollNext | priority-channel/src/lib.rs:72-83 | polling is the priority-first receive; a closed priority queue ends the stream |
| Channel.ScheduleConserves | priority-channel/src/lib.rs:140-247 | under any interleaving of the single queue operations of any handles, per queue, accepted = received followed by queued, and no queue exceeds its capacity |
| Channel.ClosedExactly | priority-channel/src/lib.rs:210-237 | a queue is closed iff it was closed before; capacities never change |
| Channel.SendExactly | priority-channel/src/lib.rs:229-237 | over any schedule: disconnected iff closed before, full iff open and as many messages as its capacity are unreceived, accepted otherwise as the newest of its queue |
| Channel.TryExactly | priority-channel/src/lib.rs:140-155 | over any schedule: trying a queue hands out the oldest unreceived message; without one it is empty while open and closed after |
| Channel.PriorityFirst | priority-channel/src/lib.rs:72-83 | a priority-first receive hands out a bulk message, the oldest, only after that receiver observed the priority queue empty and open |
| Channel.StillEmptyExactly | priority-channel/src/lib.rs:147-154 | the priority queue is still empty then iff every urgent message accepted since the observation was received by another handle |
| Channel.BulkOvertakes | priority-channel/src/lib.rs:147-154 | a schedule in which a bulk message overtakes an urgent one sent between the two operations |
| Channel.UninterruptedPriorityFirst | priority-channel/src/lib.rs:140-155 | without interruption a bulk message is handed out only when the priority queue is empty and open |
| Channel.RecvMissesPriority | priority-channel/src/lib.rs:59-64 | consumers that only call recv never get a priority message |
| Channel.DrainOpen | priority-channel/src/lib.rs:140-155 | while the first queue is open, draining yields that queue, then the other |
| Channel.DrainClosed | priority-channel/src/lib.rs:147-154 | once the first queue is closed, draining yields it alone; nothing is lost iff the other was empty |

## Left out

- RPC, subxt, websocket, telemetry, database, metrics, CLI, terminal output and file caches: foreign calls and plumbing. What they return is an arbitrary input of the model.
- Failing storage reads in the middle of an injection, and failing sends: they stop the program.
- Panics (a bit or core index out of range, a multi-byte character after a percent sign): the first two read as unset, the last as a parse error, so runs without panics are covered.
- The tracker's disputes, message queues, finality lag, block time and statistics: they only copy stored values into the report.
- Tracker.SubxtTracker.MakeProgress: the report holds the block, its fork flag, its previous timestamp, the session notice and the candidate events; the core assignment, bitfield, dispute and message queue events read single fields and are not modelled.
- `ParachainBlockInfo` is a value, not an object: each one is owned by one vector entry and is never shared. The flag `included` of a fork stands for the hash the source keeps there, which is only tested for presence and depends on the map's order.
- Collector.Collector.UpdateState: several channels of one para get the same event, so one is modelled; several broadcast channels repeat a refresh that changes nothing the second time.
- Waiting for space in a channel is not modelled: no send fails. `len` of the channel reads the two queues one after the other; the model's sum is that of a moment without other handles.
- Timestamps and the first-seen time inside stored records.
- HRMP channels, session keys, claim queues and the other writes of a head appear in collector runs as arbitrary writes and deletes under other prefixes.
- The other whole-input decoders (claim queue, validator groups, account keys, HRMP): instances of the same codec laws. Storage keys and hash functions: the hasher is a parameter.
- Layout of the block header's digest, and the bit vector limit of 0x1fffffff bits, follow the codec library; that library's sources are not part of this model.
- KvdbKeys.KeyIsDetermined: the lossy decoder is a parameter, exact on valid UTF-8 and leaving a replacement character otherwise; texts that show that character do not determine their bytes.
- TrackerHistory.SkippedSlotIsSafe and Watcher.KeptExactly assume heights that never go down, as `inject_block` asks of its callers; behind the collector `Delivery` proves it.
- The relay runtime's dispute pallet: only the process of growing votes that the collector's comments describe. Real votes that are withdrawn or validator sets that change are outside it.
- Error texts: results are `Ok` or `Err`.
- Tokio scheduling, timers, retries and the shutdown broadcast; floating-point averages; vector capacities.
