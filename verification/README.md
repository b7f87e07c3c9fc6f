# Verified models of chunking, ledger, scheduling and device sync

This project models four components of the repository in Dafny and proves what they promise:

1. **Erasure chunks** (`pkg/bundle/chunk_engine.go`). A payload becomes `n` data shards and `p` parity shards
   over GF(2^8) with reduction byte 0x1d; any `n` chunks give it back by Gauss-Jordan inversion. `Gf256` proves
   that the byte operations form a field (the inverse is the 254th power, by the Frobenius map), `LinearAlgebra`
   and `GaussJordan` prove the in-place elimination correct although it skips columns, `CauchyCode` finds the
   exact range of shard counts that is always decodable, `ErasureCode` and `ChunkWire` prove the round trips,
   and `Reassembler` with `ReassemblyRuns` covers whole runs of interleaved bundles.
2. **Event ledger and sync** (`pkg/ledger`). `LedgerModel` is the ledger as a state machine, `Ledger` the object
   whose methods are proved to take exactly those steps, with every map iterated in an arbitrary order.
   `LedgerIndexes`, `LedgerRuns`, `LedgerInvariants`, `Retention`, `PruningEffects`, `Confirmation` and `SnapshotReload`
   prove what all runs keep and what a pruning costs, with concrete runs in `LedgerExamples`. `SyncModel`, `Sync`,
   `SyncRounds` and `SyncConvergence` cover planning, transfer and what an exchange ends with. `BoundedApply`,
   `BoundedRefinement`, `ObservedRefinement`, `VerifiedEventCache` and `OptimizedApply` prove that the batched, cached
   and concurrent apply path refines the plain one, and `MessageRuns` that every message is a run. `Acceptance`,
   `WitnessMarks` and `BoundedLimits` say in the events' own terms what is accepted, indexed, confirmed and refused.
3. **Priority scheduler** (`pkg/ledgersync/service.go`). `SchedulerModel`, `Scheduler`, `SchedulerRuns` and
   `SchedulerLeak`: three compacting FIFO queues, peer quotas, demotion, eviction, weighted round robin.
4. **Device sync** (`pkg/devsync`). `DeviceSync` is the service object, `DeviceSyncRuns` a system of any number of
   replicas whose batches may arrive late, repeatedly, out of order or never, `DeviceSyncCausality` its causal order.

`Strings`, `Results`, `Sorting` and `FiniteSums` hold shared definitions.

SHA-256, Ed25519, base64, JSON and payload decoding are arbitrary functions (the `Env` record of the ledger, the
`Hash` and `IdHash` parameters elsewhere), so every theorem holds for all of them; where a theorem needs a fact
about them (identifiers carry no blanks, decodable keys carry no NUL byte) it is a named hypothesis. The clock is a
parameter. A locked method is one step; verification workers proceed in an arbitrary order.

Results where the code does less than one might expect, with the exact condition or a run that shows it:

- Any `n` chunks decode if and only if `n <= 129` and `p <= 127`; outside that range a coding entry vanishes and a
  particular choice of chunks is singular (`CauchyCode.SafeRangeIsExact`).
- A chunk survives the wire if and only if its shard size is at most 65535, although 65536 is a legal size
  (`ChunkWire.WireRoundTrip`). The reserved byte of the header is neither checked nor covered by the checksum
  (`ChunkWire.ParsesExactly`).
- Eviction leaves the evicted item charged to its peer: exact charges stay exact if and only if the call evicts
  nothing (`SchedulerRuns.EnqueueKeepsExact`).
- So evictions starve a peer: items of a class are refused in every continuation, even with empty queues, if and only
  if the peer's evicted items fill its whole share, or that class and every class below it
  (`SchedulerLeak.StarvedExactly`, with runs in `SchedulerLeak.StarvationIsReached`). Only normal and background items
  are evicted, so with the default limits (64 and 128 against a share of 256) critical items are never starved, but 64
  evicted background items end all background traffic of a peer (`SchedulerLeak.LeakIsBounded`).
- Rebuilding after retention keeps the events stored, so each re-addition is a no-op and only the heads are really
  recomputed (`Ledger.Ledger.Rebuild`). The other indexes are exact if and only if nothing was dropped, or the last drop
  left nothing (`PruningEffects.ExactExactlyUntilPruned`). While they are not, an equivocation against a survivor goes
  undetected until an event of that author and number is stored again (`PruningEffects.PruningHidesEquivocation`), and
  own events start again at number 1, so that a peer that was not pruned takes the node for an equivocator and
  compromises its key (`PruningEffects.PruningIncriminatesSelf`).
- The snapshot of a sound ledger can be reloaded if and only if each author and number names one event and every link
  to an event that sorts before its successor fits (`SnapshotReload.ReloadWorksExactly`). Both conditions can fail: a
  pruning can hide a second event of one number (`LedgerExamples.EquivocationAfterPruning`), and without a demand for
  known previous events a link is not checked if its previous event arrives later
  (`LedgerExamples.StrayLinkPreventsReload`). With that demand and trimmed observer names, a node can
  restart at any time before its first pruning (`SnapshotReload.StrictRunReloads`). A restart repairs the indexes and forgets the compromised keys
  (`SnapshotReload.ReloadStartsSound`).
- An own event continues its author's chain if and only if the observer's name is trimmed or new: the chain is looked
  up under the name as given and signed under the trimmed one (`LedgerInvariants.DraftLinked`).
- The batched apply path screens identifiers before signatures, so a copy with a forged signature in front of a
  genuine event hides it, while the plain path stores it (`BoundedRefinement.ForgedCopyMasks`). The two paths agree if
  and only if no event repeats an identifier that the plain path does not hold by then
  (`BoundedRefinement.BulkIsPlainExactly`); unique identifiers are enough.
- After a pruning that drops something the missing references are forgotten: the sync plan is empty if and only if the
  peer's heads are held (`SyncRounds.PrunedLedgerAsksForHeadsOnly`), even if an event reachable from them is missing
  (`LedgerExamples.EmptyPlanAfterPruning`). Convergence is therefore proved for ledgers whose indexes are exact.
- An exchange of rounds ends with the least set of events that holds what was there before and everything on offer whose
  link the policy lets in, whatever weights and order were used (`SyncConvergence.SyncConverges`,
  `SyncConvergence.SyncOutcomeIsUnique`). With known previous events required this can be far from everything: a refused
  event leaves no trace among the missing references, so its predecessor is never asked for, and it fills up limits
  that are too small (`SyncConvergence.RepeatedRoundEnds`). A new node gets nothing at all if and only if no head of its
  peer is a first event (`SyncConvergence.NewNodeStallsExactly`, with a run in
  `LedgerExamples.StrictSyncStalls`).
- With an observer the two apply paths leave the same ledger unless an event is masked or outdated: only the plain path
  reports an outdated event as a replay, and the ledgers differ if and only if that report can be stored
  (`ObservedRefinement.OnlyPlainReportsReplays`). The counts otherwise agree if and only
  if no event was signed by the node itself meanwhile (`ObservedRefinement.ObservedBulkIsPlain`).

Verify everything with `dafny verify dfyconfig.toml`.

## Model

| member | source | states |
|---|---|---|
| `Gf256.GfMul` | pkg/bundle/chunk_engine.go:474-488 | the shift-and-add loop computes the field product |
| `Gf256.GfPow` | pkg/bundle/chunk_engine.go:490-500 | square-and-multiply computes the power; negative exponents give 1 |
| `Gf256.GfInv` | pkg/bundle/chunk_engine.go:502-507 | the result is a multiplicative inverse of every nonzero byte |
| `Gf256.MulInv` | pkg/bundle/chunk_engine.go:502-507 | a times its 254th power is 1 for every nonzero a |
| `Gf256.ReductionByte` | pkg/bundle/chunk_engine.go:474-488 | the reduction byte of the field is 0x1d |
| `Gf256.MulComm` | pkg/bundle/chunk_engine.go:474-488 | the product is commutative |
| `Gf256.MulAssoc` | pkg/bundle/chunk_engine.go:474-488 | the product is associative |
| `Gf256.FrobeniusIdentity` | pkg/bundle/chunk_engine.go:474-488 | squaring eight times is the identity, so the field has 256 elements |
| `LinearAlgebra.CombineAssoc` | pkg/bundle/chunk_engine.go:272-284 | (c M) v = c (M v): decoding a coded column is multiplying by inverse times coding matrix |
| `LinearAlgebra.LeftInverseNonsingular` | pkg/bundle/chunk_engine.go:423-470 | a matrix with a left inverse has a trivial kernel |
| `GaussJordan.SwapKeeps` | pkg/bundle/chunk_engine.go:448-450 | swapping rows keeps the elimination invariant |
| `GaussJordan.ScaleKeeps` | pkg/bundle/chunk_engine.go:451-454 | scaling the pivot row keeps the elimination invariant |
| `GaussJordan.ReduceKeeps` | pkg/bundle/chunk_engine.go:455-463 | subtracting the pivot row keeps the elimination invariant |
| `GaussJordan.ScaleFrom` | pkg/bundle/chunk_engine.go:452-454 | scaling from the pivot column on scales the whole row, because the skipped part is zero |
| `GaussJordan.ReduceFrom` | pkg/bundle/chunk_engine.go:459-462 | adding from the pivot column on adds the whole row, because the skipped part is zero |
| `GaussJordan.FindPivot` | pkg/bundle/chunk_engine.go:438-444 | the first row at or below the column with a nonzero entry, or none |
| `GaussJordan.EliminateColumn` | pkg/bundle/chunk_engine.go:448-463 | one round turns the next column into a column of the identity and keeps the invariant |
| `GaussJordan.NoPivotSingular` | pkg/bundle/chunk_engine.go:445-447 | a column without a pivot yields a nonzero kernel vector of the input |
| `GaussJordan.IdentityReached` | pkg/bundle/chunk_engine.go:465-470 | when all columns are done the right half is a left inverse |
| `GaussJordan.InvertMatrix` | pkg/bundle/chunk_engine.go:423-470 | for every square matrix: a left inverse if the kernel is trivial, unrecoverable otherwise; other shapes are invalid |
| `CauchyCode.BuildCodingRow` | pkg/bundle/chunk_engine.go:409-421 | the loop builds the unit row of a data shard or the Cauchy row of a parity shard |
| `CauchyCode.EliminationIdentity` | pkg/bundle/chunk_engine.go:409-421 | one elimination step on a Cauchy block leaves a scaled Cauchy block |
| `CauchyCode.CauchyKernel` | pkg/bundle/chunk_engine.go:409-421 | k parity rows kill no nonzero vector supported on at most k columns |
| `CauchyCode.SafeRange` | pkg/bundle/chunk_engine.go:409-421 | within 129 data and 127 parity shards every choice of n chunks is invertible |
| `CauchyCode.VanishedEntry` | pkg/bundle/chunk_engine.go:409-421 | where abscissa and ordinate meet, a choice of n chunks is singular |
| `CauchyCode.SafeRangeIsExact` | pkg/bundle/chunk_engine.go:409-421 | every choice of n chunks is invertible if and only if n <= 129 and p <= 127 |
| `ErasureCode.PlanLayout` | pkg/bundle/chunk_engine.go:49-83 | gives the layout asked for exactly if it is within the limits: positive counts as they are, else as many 768-byte shards as the payload needs and a third as many parity shards, each shard no larger than asked unless the payload requires it |
| `ErasureCode.OneLayout` | pkg/bundle/chunk_engine.go:55-83 | options and payload length ask for one layout only |
| `ErasureCode.AddScaled` | pkg/bundle/chunk_engine.go:106-112 | adds a multiple of a shard bytewise, zero coefficients included |
| `ErasureCode.CombineShards` | pkg/bundle/chunk_engine.go:105-113 | accumulating shard by shard computes the row combination |
| `ErasureCode.CopyShard` | pkg/bundle/chunk_engine.go:90-99 | a shard is a slice of the payload padded with zeros |
| `ErasureCode.SplitPayload` | pkg/bundle/chunk_engine.go:88-100 | the data shards are the rows of the data matrix |
| `ErasureCode.ParityShards` | pkg/bundle/chunk_engine.go:101-114 | each parity shard is its coding row applied to the data matrix |
| `ErasureCode.EncodeErasureChunks` | pkg/bundle/chunk_engine.go:49-139 | n + p chunks in order, each a valid checksummed chunk of this payload, in the layout asked for; refused exactly if that layout exceeds a limit |
| `ErasureCode.CollectByIndex` | pkg/bundle/chunk_engine.go:238-251 | accepts exactly consistent chunk lists and keys them by index |
| `ErasureCode.LowestIndices` | pkg/bundle/chunk_engine.go:255-260 | the n lowest indices in order, whatever the map order |
| `ErasureCode.DecodeColumn` | pkg/bundle/chunk_engine.go:273-284 | inverse times coded bytes is the payload byte |
| `ErasureCode.Decode` | pkg/bundle/chunk_engine.go:272-288 | recombines the shards with the inverse and joins the rows |
| `ErasureCode.DecodedIsPayload` | pkg/bundle/chunk_engine.go:272-289 | the joined rows start with the payload |
| `ErasureCode.ReconstructErasurePayload` | pkg/bundle/chunk_engine.go:230-298 | for any list of chunks of one encoding, in any order with repeats: the payload if enough distinct indices are there and the lowest n rows are invertible, unrecoverable otherwise; every success matches digest, id and size |
| `ErasureCode.EnoughChunksDecode` | pkg/bundle/chunk_engine.go:230-298 | in the safe range every set of at least n indices meets that condition |
| `ChunkWire.HeaderFields` | pkg/bundle/chunk_engine.go:141-159 | every field of a marshalled chunk sits at its fixed offset |
| `ChunkWire.HeaderNumbers` | pkg/bundle/chunk_engine.go:141-159 | the numbers of the header are big-endian; a shard size of 65536 reads as zero |
| `ChunkWire.WireRoundTrip` | pkg/bundle/chunk_engine.go:141-185 | parsing a marshalled valid chunk gives it back if and only if its shard size is at most 65535; size 65536 is rejected |
| `ChunkWire.ParsesExactly` | pkg/bundle/chunk_engine.go:161-228 | bytes parse if and only if magic, version, counts, sizes and checksum are in order, whatever the reserved byte; the chunk then marshals to the same bytes with the reserved byte zero |
| `Reassembler.ChunkReassembler.constructor` | pkg/bundle/chunk_engine.go:314-326 | starts empty with the default limits in place of non-positive ones |
| `Reassembler.ChunkReassembler.AddChunk` | pkg/bundle/chunk_engine.go:336-375 | every call is a step of the reassembly relation and keeps all partials uniform, incomplete and exactly accounted |
| `Reassembler.RecordedOk` | pkg/bundle/chunk_engine.go:353-361 | recording a chunk that fits keeps uniform header, exact byte sum and limit |
| `Reassembler.Rebuild` | pkg/bundle/chunk_engine.go:365-374 | the collected chunks reach the decoder in whatever order the map yields |
| `ReassemblyRuns.StepKeepsOk` | pkg/bundle/chunk_engine.go:336-375 | every step, on any chunk at all, keeps the cache invariant |
| `ReassemblyRuns.StepMatches` | pkg/bundle/chunk_engine.go:336-375 | one arrival is answered as specified and the cache holds exactly the pending chunks |
| `ReassemblyRuns.RunMatches` | pkg/bundle/chunk_engine.go:336-375 | so it stays along every run |
| `ReassemblyRuns.RunDelivers` | pkg/bundle/chunk_engine.go:336-375 | in every interleaving with repeats each payload is returned exactly at its n-th distinct chunk if the rows are invertible |
| `ReassemblyRuns.SafeRangeDelivers` | pkg/bundle/chunk_engine.go:336-375 | in the safe range no arrival is answered with an error |
| `LedgerInvariants.OwnEventIsGenuine` | pkg/ledger/types.go:98-159 | an own event passes the identifier and signature checks of every receiver, if the hash leaves identifier and signature out and signatures verify |
| `Ledger.Ledger.NormalizeIds` | pkg/ledger/types.go:317-339 | trimming, dropping blanks and repetitions and sorting give the sorted set of trimmed identifiers |
| `Strings.TrimTakesSpaces` | pkg/ledger/types.go:317-339 | trimming takes off spaces at both ends and nothing else |
| `Strings.LessExactly` | pkg/ledger/types.go:317-339 | strings compare as proper prefixes or at the first difference |
| `Strings.ByteLengthOne` | pkg/ledger/types.go:161-222 | kind and payload reference are measured in UTF-8 bytes: one to four for 7, 11, 16 and 21 bits |
| `LedgerInvariants.OwnParentsAreHeads` | pkg/ledger/types.go:317-339 | in a sound ledger that normalization leaves the heads an own event names as parents unchanged |
| `LedgerInvariants.OwnEventSays` | pkg/ledger/types.go:98-159 | an own event carries the observer's trimmed name and key, the kind and time given, and as parents the heads in order, at most the first 32 |
| `Ledger.Ledger.constructor` | pkg/ledger/ledger.go:52-64 | a new ledger is empty |
| `Ledger.Ledger.TrackMissingRefs` | pkg/ledger/ledger.go:1641-1677 | counts previous, parent and attested references that are absent |
| `LedgerIndexes.StoredMarks` | pkg/ledger/ledger.go:1679-1731 | indexing a stored event keeps the witness index equal to the marks of the stored events |
| `WitnessMarks.StoringTestifies` | pkg/ledger/ledger.go:1679-1731 | storing an event adds its author's key under the event and context it attests, the heads it checkpoints or the subject it introduces, and nowhere else |
| `WitnessMarks.TestimonyExactly` | pkg/ledger/ledger.go:1679-1731 | with exact indexes a key is listed exactly if a stored event of that key testifies it |
| `Ledger.Ledger.UpdateHeads` | pkg/ledger/ledger.go:1582-1590 | referenced events leave the heads, a head-affecting event joins them |
| `Ledger.Ledger.StoreEvent` | pkg/ledger/ledger.go:1575-1590 | the new state is that of storing and indexing the event |
| `Ledger.Ledger.AddLocked` | pkg/ledger/ledger.go:1557-1592 | known events are ignored, unlinked or conflicting ones refused, others stored |
| `Ledger.Ledger.Add` | pkg/ledger/ledger.go:154-214 | the unpoliced path: validation, conflict and link checks, then storing |
| `Ledger.Ledger.HighestSeq` | pkg/ledger/ledger.go:1594-1605 | the author's highest number and its event, whatever the map order |
| `Ledger.Ledger.NextSeq` | pkg/ledger/ledger.go:1594-1621 | next number, previous event and sorted, capped heads as parents |
| `Ledger.Ledger.EmitOwn` | pkg/ledger/ledger.go:280-286 | an own event is stored if it validates and dropped otherwise |
| `Ledger.Ledger.AutoWitnessAfterApply` | pkg/ledger/ledger.go:529-608 | attestation and checkpoint after a critical event, each at most once |
| `WitnessMarks.TrustedWitnessTestifies` | pkg/ledger/ledger.go:529-608 | after accepting a critical event a trusted witness has attested it, and checkpointed the heads if it is a new one, exactly if it had before or its own event can be stored; nobody else testifies |
| `Ledger.Ledger.InsertValidated` | pkg/ledger/ledger.go:319-379 | duplicates, equivocation, links, insertion and witnessing as in the state machine |
| `Ledger.Ledger.ApplyWithContext` | pkg/ledger/ledger.go:244-380 | the whole application step |
| `Ledger.Ledger.ApplyVerifiedWithContext` | pkg/ledger/ledger.go:386-527 | the same step without the signature check |
| `Acceptance.TimeWindows` | pkg/ledger/kinds.go:131-140 | a valid event is from the future or too old exactly if it is further from the clock than the policy allows |
| `Acceptance.AcceptedExactly` | pkg/ledger/ledger.go:244-380 | a new event is accepted if and only if it is complete and signed, within both time windows, of an admissible kind and payload, without a rival of its author and number, and fits the preceding event; the form for checked signatures accepts the same; what is accepted is stored as it came and nothing is lost |
| `Acceptance.RivalsAreStored` | pkg/ledger/ledger.go:323-329 | with exact indexes, no rival means that no stored event has that author and number |
| `Acceptance.MissingExactly` | pkg/ledger/ledger.go:1641-1677 | with exact indexes, missing is exactly what a stored event names as previous, parent or attested event and what is not stored |
| `Acceptance.HeadsExactly` | pkg/ledger/ledger.go:1733-1751 | a recomputed head is a head-affecting event that no other one names as previous event or parent |
| `Acceptance.KindRoles` | pkg/ledger/ledger.go:66-98 | which known kinds affect the heads and which are critical; unknown kinds affect the heads and are not critical |
| `Ledger.Ledger.RecomputeHeads` | pkg/ledger/ledger.go:1733-1751 | mark-and-unmark finds exactly the unreferenced head-affecting events |
| `Ledger.Ledger.Rebuild` | pkg/ledger/ledger.go:1623-1639 | empties the indexes and recomputes the heads; the re-additions change nothing |
| `Ledger.Ledger.ReferencedIds` | pkg/ledger/ledger.go:1310-1318 | exactly the identifiers named as previous or parent |
| `Ledger.Ledger.DropExpired` | pkg/ledger/ledger.go:1320-1341 | drops exactly the unprotected events past the age limit, in any map order |
| `Ledger.Ledger.DropSurplus` | pkg/ledger/ledger.go:1343-1377 | drops exactly the oldest unprotected events the size limit asks for |
| `Ledger.Ledger.AnchorFor` | pkg/ledger/ledger.go:1380-1406 | the anchor depends on the set of dropped events, not on their order |
| `Ledger.Ledger.ApplyRetention` | pkg/ledger/ledger.go:1290-1411 | the new state is that of the retention specification, the count is the number dropped |
| `Ledger.Ledger.DropOutdated` | pkg/ledger/ledger.go:1231-1248 | drops exactly the outdated, unreferenced, non-head events of short-lived kinds |
| `Ledger.Ledger.Prune` | pkg/ledger/ledger.go:1206-1253 | pruning by kind |
| `Ledger.Ledger.Confirmed` | pkg/ledger/ledger.go:1054-1097 | true exactly if the summed positive weights of uncompromised witnesses reach a positive threshold, despite arbitrary order and early exit |
| `WitnessMarks.ConfirmedExactly` | pkg/ledger/ledger.go:1054-1097 | with exact indexes a stored event is confirmed if and only if the positive weights of the uncompromised authors of stored attestations reach a positive threshold |
| `WitnessMarks.AttestationScores` | pkg/ledger/ledger.go:1679-1693 | an accepted attestation raises the score of the event it names by its author's weight, once per uncompromised author, and no other score |
| `WitnessMarks.AttestationConfirms` | pkg/ledger/ledger.go:1054-1097 | the attestation of a new uncompromised witness confirms the event exactly if its weight makes the score reach the threshold |
| `Ledger.Ledger.TakeSnapshot` | pkg/ledger/ledger.go:1517-1546 | events oldest first, heads in order, anchors |
| `Ledger.Ledger.AddAll` | pkg/ledger/ledger.go:128-133 | adds in order and stops at the first refusal |
| `Ledger.Ledger.RestoreHeads` | pkg/ledger/ledger.go:134-147 | the listed stored heads, or the recomputed ones |
| `Ledger.Ledger.FromSnapshot` | pkg/ledger/ledger.go:124-152 | loads exactly what the reload specification says, with the same errors |
| `LedgerIndexes.TrackCounts` | pkg/ledger/ledger.go:1641-1677 | tracking adds the number of occurrences for every absent identifier |
| `LedgerIndexes.StoredExact` | pkg/ledger/ledger.go:1557-1592 | storing a new conflict-free event keeps author, missing and witness indexes equal to their definitions |
| `LedgerIndexes.ExactIsUnique` | pkg/ledger/ledger.go:1641-1731 | exact indexes are a function of the stored events |
| `LedgerIndexes.ApplyCompatible` | pkg/ledger/ledger.go:244-380 | one event of a compatible set is accepted at any of the clock readings, in any state drawn from the set |
| `LedgerIndexes.AnyOrderAccepts` | pkg/ledger/ledger.go:244-380 | every application order, each event at its own clock reading, accepts every event and keeps the indexes exact |
| `LedgerIndexes.OrderIndependence` | pkg/ledger/ledger.go:244-380 | two orders at any clock readings end with the same events and the same indexes |
| `Retention.PrunedStored` | pkg/ledger/ledger.go:1310-1377 | only stored, unprotected events are dropped |
| `Retention.SurvivorsKeepReferences` | pkg/ledger/ledger.go:1310-1318 | survivors keep every reference they had |
| `Retention.RetentionEffect` | pkg/ledger/ledger.go:1290-1411 | heads, referenced and protected critical events stay; everything unprotected past the age limit goes; the end is within the size limit or all protected |
| `Retention.OldestGoFirst` | pkg/ledger/ledger.go:1343-1377 | no younger unprotected event is dropped for size while an older one stays |
| `Retention.RetentionDropsWhatIsDue` | pkg/ledger/ledger.go:1310-1377 | whatever goes was no head, named by no stored event and not spared, and was past the age limit or the ledger still holds at least as many events as the size limit; every such event past the age limit goes; within the limit the older ones go first |
| `Retention.KindPruningDropsWhatIsDue` | pkg/ledger/ledger.go:1231-1248 | pruning by kind drops an event if and only if it is older than the retention time of its kind, no head and named by no stored event |
| `Retention.AnchorCovers` | pkg/ledger/ledger.go:1380-1406 | a retention that drops something adds one anchor that counts what is gone, spans its creation times exactly, hashes its identifiers in the order of age and continues the chain of anchors; otherwise nothing changes |
| `LedgerRuns.EmitPath` | pkg/ledger/ledger.go:780-1052 | emitting is at most one store of the author's next event |
| `LedgerRuns.StepPath` | pkg/ledger/ledger.go:244-380 | every operation that changes the ledger, Add and ApplyVerified included, is a path of stores, suspicions and drops |
| `LedgerRuns.VerifiedPath` | pkg/ledger/ledger.go:386-527 | ApplyVerified on a signed event is a path of the moves of an application |
| `LedgerRuns.AddPath` | pkg/ledger/ledger.go:154-214 | Add is nothing or one store whose link was checked |
| `LedgerInvariants.RunIsSound` | pkg/ledger/ledger.go:1557-1751 | in every run from a sound ledger, retention included: stored events valid, indexes sound, heads between the recomputed heads and the head-affecting events |
| `LedgerInvariants.CausalRunHeads` | pkg/ledger/ledger.go:1582-1590 | in every run in which references arrive before new referrers, redeliveries at any time, the heads stay the recomputed heads |
| `LedgerInvariants.EmptyStart` | pkg/ledger/ledger.go:52-64 | the empty ledger is sound, exact and linked, so these run theorems start from it |
| `LedgerInvariants.RetentionSparesHeadAffecting` | pkg/ledger/ledger.go:1290-1411 | retention never drops a head-affecting event of a sound ledger |
| `LedgerInvariants.StepGrows` | pkg/ledger/ledger.go:244-380 | compromised keys never shrink; every step but a pruning only adds and keeps exact indexes exact |
| `LedgerInvariants.ExactUntilPruned` | pkg/ledger/ledger.go:1623-1639 | in every run from exact indexes, as long as nothing is dropped, every index stays exact and each author and number names one event |
| `PruningEffects.ExactExactlyUntilPruned` | pkg/ledger/ledger.go:1623-1639 | along every run from exact indexes they are exact if and only if nothing was dropped or the last drop left nothing; no later arrival closes the gap |
| `PruningEffects.RetentionKeepsExactIff` | pkg/ledger/ledger.go:1290-1411 | retention keeps exact indexes exact if and only if it drops nothing or everything |
| `PruningEffects.KindPruningKeepsExactIff` | pkg/ledger/ledger.go:1206-1253 | the same for pruning by kind |
| `PruningEffects.PruningForgets` | pkg/ledger/ledger.go:1623-1639 | a pruning changes nothing or empties the author, missing and witness indexes and keeps the survivors |
| `PruningEffects.PruningHidesEquivocation` | pkg/ledger/ledger.go:323-357 | after a drop, in every later state before an event of that author and number is stored again, a second event with the author and number of a survivor is accepted, both are stored and nobody is compromised |
| `PruningEffects.ExactDetectsEquivocation` | pkg/ledger/ledger.go:323-357 | with exact indexes the same event is refused as an equivocation and both keys are compromised |
| `PruningEffects.PruningRestartsNumbers` | pkg/ledger/ledger.go:1594-1621 | after a drop every author's next own event starts again at number 1 |
| `PruningEffects.PruningIncriminatesSelf` | pkg/ledger/ledger.go:323-357 | after a drop the node's next own event is refused as an equivocation by a peer with exact indexes that holds its first event, and the node's key is compromised there |
| `LedgerExamples.EquivocationAfterPruning` | pkg/ledger/ledger.go:1623-1639 | a run in which a pruning hides an equivocation, leaves the indexes inexact and makes the snapshot impossible to reload |
| `LedgerInvariants.DraftLinked` | pkg/ledger/ledger.go:1594-1621 | an own event continues the chain if and only if the observer's name is trimmed or new |
| `LedgerInvariants.RunKeepsChain` | pkg/ledger/ledger.go:359-379 | with known previous events required, every stored event stays linked in every run from a sound, linked ledger |
| `LedgerInvariants.ChainToFirst` | pkg/ledger/ledger.go:359-379 | so each event has a stored chain of its author down to number 1 |
| `LedgerExamples.BlankNameBreaksChain` | pkg/ledger/ledger.go:1594-1621 | a run with an untrimmed observer name that breaks the chain |
| `Confirmation.ConfirmedGrows` | pkg/ledger/ledger.go:1054-1097 | more attestations never unconfirm |
| `Confirmation.ConfirmedStays` | pkg/ledger/ledger.go:1054-1097 | a confirmed event stays confirmed along runs of any operations without new compromises or dropped events |
| `Confirmation.CompromisedGrow` | pkg/ledger/ledger.go:328-331 | compromised keys grow along every run |
| `SnapshotReload.LoadCompatible` | pkg/ledger/ledger.go:124-214 | conflict-free, link-consistent valid events all load and leave exact indexes |
| `SnapshotReload.AcyclicHasHead` | pkg/ledger/ledger.go:1733-1751 | acyclic head-affecting events have a head |
| `SnapshotReload.AnySnapshotLoads` | pkg/ledger/ledger.go:124-152 | whatever snapshot loads: listed valid events only, one for each listed identifier, exact indexes, no compromised key; listed stored heads are taken over whatever their kind, strangers replaced by the recomputed heads |
| `SnapshotReload.ReloadRestores` | pkg/ledger/ledger.go:124-152 | reloading the snapshot of a sound ledger restores events, heads and anchors with exact indexes |
| `SnapshotReload.ReloadWorksExactly` | pkg/ledger/ledger.go:124-214 | the snapshot of a sound ledger reloads if and only if each author and number names one event and every link to an older stored event fits |
| `SnapshotReload.ReloadStartsSound` | pkg/ledger/ledger.go:124-152 | under that condition the reloaded ledger is sound with the same events and exact indexes, even after a pruning; compromised keys are forgotten |
| `SnapshotReload.RestartedRun` | pkg/ledger/ledger.go:124-152 | under that condition runs of a restarted node keep soundness, exactness until pruning, and chains |
| `SnapshotReload.StrictRunReloads` | pkg/ledger/ledger.go:124-152 | with known previous events required and trimmed observer names, every run without a drop leaves a ledger that reloads with the same events |
| `LedgerExamples.StrayLinkPreventsReload` | pkg/ledger/ledger.go:359-372 | a run without any pruning, ending sound and exact, after which the snapshot cannot be reloaded |
| `Sync.BuildInventoryMessage` | pkg/ledger/sync.go:47-77 | sorted heads and up to the limit many identifiers; complete if the ledger fits |
| `Sync.AddWants` | pkg/ledger/sync.go:141-161 | adds obtainable identifiers once each until the limit |
| `Sync.PlanSyncFromPeer` | pkg/ledger/sync.go:113-231 | obtainable missing references by urgency, then other obtainable heads, cut at the limit, for any weighting |
| `SyncRounds.PlanIsUrgent` | pkg/ledger/sync.go:171-231 | only the limit keeps wanted identifiers out of a plan; what is asked for outranks what is left out by weight, frequency and name, and heads come after all missing references |
| `Sync.BuildEventsMessage` | pkg/ledger/sync.go:237-262 | the stored events among the wanted ones in order, cut at the limit |
| `Sync.CountMentions` | pkg/ledger/sync.go:805-821 | counts the references of an event to the batch |
| `Sync.CountParents` | pkg/ledger/sync.go:812-820 | counts the trimmed parents that are in the batch |
| `Sync.OrderEvents` | pkg/ledger/sync.go:791-841 | the stable sort of the batch by kind, references, age and identifier |
| `SyncModel.BatchIsOrdered` | pkg/ledger/sync.go:822-841 | the comparison is a strict weak order, the batch is sorted by it and urgent kinds come first |
| `SyncModel.MentionedExactly` | pkg/ledger/sync.go:791-860 | what counts as mentioned is what is in the batch and named by an event of it as previous event or parent |
| `SyncModel.ReferredEventsLead` | pkg/ledger/sync.go:791-860 | among events of one priority those that the batch refers to go before the others |
| `SyncModel.OlderEventsLead` | pkg/ledger/sync.go:791-860 | among those that the batch does not refer to the older ones go first |
| `SyncModel.IdentitiesLead` | pkg/ledger/sync.go:791-860 | events about identities come first and unknown kinds last |
| `Sync.ApplyNext` | pkg/ledger/sync.go:331-342 | one event is a duplicate, applied or rejected |
| `Sync.ApplyInOrder` | pkg/ledger/sync.go:331-342 | applies the events in turn and counts them |
| `Sync.ApplyEventsMessage` | pkg/ledger/sync.go:322-344 | the whole operation; another schema changes nothing |
| `SyncRounds.PlanEmptyIffSettled` | pkg/ledger/sync.go:113-231 | the plan is empty if and only if the peer holds no missing reference and no missing head |
| `SyncRounds.PrunedLedgerAsksForHeadsOnly` | pkg/ledger/ledger.go:1623-1639 | after either pruning, if it changed something, the plan is empty if and only if the peer's heads are held |
| `LedgerExamples.EmptyPlanAfterPruning` | pkg/ledger/sync.go:113-231 | a pruned ledger and a sound peer: the plan is empty although the parent of the peer's head, reachable from it, is missing |
| `SyncRounds.EmptyPlanMeansCaughtUp` | pkg/ledger/sync.go:113-231 | an empty plan means every peer event reachable from its heads is stored with its content |
| `SyncRounds.BatchIsWanted` | pkg/ledger/sync.go:237-262 | what the peer sends is new, wanted and nonempty whenever something is wanted, and all that is wanted if the limit allows |
| `SyncRounds.ApplyAllCompatible` | pkg/ledger/sync.go:322-344 | compatible events in any order: indexes stay exact, nothing changes if and only if every new event is kept out by its link, no set that holds every free event is left, and without a demand for previous events all are stored and none is rejected |
| `SyncRounds.RoundProgress` | pkg/ledger/sync.go:113-344 | under any policy a round changes nothing if and only if every event of its batch is kept out by its link, and otherwise stores new peer events; without a demand for previous events it then has nothing left to ask for |
| `SyncConvergence.WantedIsOffered` | pkg/ledger/sync.go:113-231 | what is planned for is exactly what the peer holds, is a head of it or referred to by a held event, and is not held |
| `SyncConvergence.RoundStopsExactly` | pkg/ledger/sync.go:113-344 | a round whose limits cut nothing off changes nothing if and only if everything on offer whose link is free is held |
| `SyncConvergence.SyncStays` | pkg/ledger/sync.go:113-344 | no exchange, whatever its limits, leaves a closed set of events that holds the ledger |
| `SyncConvergence.SyncConverges` | pkg/ledger/sync.go:113-344 | under any policy, within as many rounds as the peer has events this ledger lacks, each at its own clock reading and, if links can be refused, with limits that cut nothing off, the ledger holds exactly the least closed set; if no link held anything back the plan is empty and every reachable peer event is stored |
| `SyncConvergence.SyncOutcomeIsUnique` | pkg/ledger/sync.go:113-344 | two such exchanges with other limits, weights and clock readings end with the same events and indexes |
| `SyncConvergence.SyncStallsExactly` | pkg/ledger/sync.go:113-344 | an exchange of any length changes nothing if and only if the ledger is closed from the start |
| `SyncConvergence.RepeatedRoundEnds` | pkg/ledger/sync.go:113-344 | with any limits, repeating a round ends, within as many rounds, where every event of its batch is kept out by its link |
| `SyncConvergence.NewNodeStallsExactly` | pkg/ledger/ledger.go:359-363 | with known previous events required, an empty ledger gets nothing if and only if no head of the peer is a first event |
| `LedgerExamples.StrictSyncStalls` | pkg/ledger/ledger.go:359-363 | a peer with the first and second event of an author, from which a new node with that demand never gets either, in any number of rounds |
| `SyncConvergence.HeadAffectingReachable` | pkg/ledger/ledger.go:1733-1751 | with acyclic references every head-affecting event is reachable from the heads |
| `SyncConvergence.SyncDeliversHistory` | pkg/ledger/sync.go:113-344 | so those rounds deliver every head-affecting event of the peer, if each absent event is a first one, has its previous event here, or needs none under the policy |
| `VerifiedEventCache.Cache.constructor` | pkg/ledger/sync.go:411-424 | starts empty with defaults for non-positive limits |
| `VerifiedEventCache.Cache.Match` | pkg/ledger/sync.go:426-445 | hits exactly unexpired entries, moves them to the front, removes expired ones |
| `VerifiedEventCache.Cache.Put` | pkg/ledger/sync.go:447-471 | refreshes or adds at the front and evicts from the back down to the limit |
| `VerifiedEventCache.KeyInjective` | pkg/ledger/sync.go:430-430 | cache keys of texts without NUL never collide |
| `VerifiedEventCache.NulMakesKeysCollide` | pkg/ledger/sync.go:430-430 | with NUL in them they can |
| `VerifiedEventCache.HitIsVerified` | pkg/ledger/sync.go:426-445 | a hit in a cache of verified puts proves the signature |
| `BoundedApply.PlainRun` | pkg/ledger/sync.go:369-394 | the counts of the plain form add up to the events processed |
| `OptimizedApply.PlainAll` | pkg/ledger/sync.go:368-395 | the plain loop with its byte budget and early error |
| `OptimizedApply.ApplyEventsMessageBounded` | pkg/ledger/sync.go:346-396 | the plain bounded operation |
| `OptimizedApply.AskCache` | pkg/ledger/sync.go:723-726 | a cache hit stands for a checked signature |
| `OptimizedApply.ScreenNext` | pkg/ledger/sync.go:681-728 | screens one event in the order of the checks |
| `OptimizedApply.ScreenAll` | pkg/ledger/sync.go:669-728 | the first pass marks the candidates and leaves the unverified ones to the workers |
| `OptimizedApply.Work` | pkg/ledger/sync.go:742-759 | a worker checks one signature and only caches a good one |
| `OptimizedApply.VerifyTasks` | pkg/ledger/sync.go:730-768 | in any order of work exactly the signed candidates end up verified and the cache stays trusted |
| `OptimizedApply.CommitAll` | pkg/ledger/sync.go:770-788 | the second pass commits verified candidates and rejects the others |
| `OptimizedApply.ApplyEventsMessageBoundedOptimized` | pkg/ledger/sync.go:629-789 | the outcome is that of the bulk specification, whatever the cache held and whatever order the workers took |
| `BoundedLimits.RefusedExactly` | pkg/ledger/sync.go:350-382 | both forms refuse a message exactly if its schema is another one, it has too many events, or the encoded sizes of its events within the event limit exceed the message limit |
| `BoundedLimits.OversizedAreRejected` | pkg/ledger/sync.go:369-394 | otherwise the plain form applies the events that encode within the limit in turn and the bulk form treats the message as if it had only those; each other event counts as rejected |
| `BoundedLimits.FittingMessageIsApplied` | pkg/ledger/sync.go:369-394 | a message within all limits leaves ledger and report of applying all its events in turn |
| `BoundedLimits.OversizedAreNeverStored` | pkg/ledger/sync.go:376-379 | for every message, refused or not, each event that either form stores is one of the message that encodes within the limit, or the observer's own |
| `BoundedRefinement.ApplyAgrees` | pkg/ledger/ledger.go:244-527 | plain application refuses what screening or the signature refuses and else inserts alike |
| `BoundedRefinement.EvenStep` | pkg/ledger/sync.go:369-394 | on any event the bulk form counts one duplicate more than the plain form exactly if the event is masked |
| `BoundedRefinement.AgreeStep` | pkg/ledger/sync.go:681-728 | on an event that is not masked both forms store and count alike |
| `BoundedRefinement.RunsEven` | pkg/ledger/sync.go:681-728 | over a whole batch the duplicate counts differ by the number of masked events |
| `BoundedRefinement.RunsAgree` | pkg/ledger/sync.go:668-789 | without masked events both forms agree over the whole batch |
| `BoundedRefinement.BulkIsPlainExactly` | pkg/ledger/sync.go:629-789 | without an observer and within the limits, ledger and report are those of the plain form if and only if no event repeats a screened identifier that the plain form does not hold at its turn |
| `BoundedRefinement.BulkRefinesPlain` | pkg/ledger/sync.go:629-789 | so with unique identifiers ledger and report are those of the plain form, and the counts add up to the events sent |
| `BoundedRefinement.SameError` | pkg/ledger/sync.go:362-382 | for every message both forms return the same error, and on an error the bulk form has not touched the ledger |
| `BoundedRefinement.ForgedCopyMasks` | pkg/ledger/sync.go:697-711 | a forged copy in front of a genuine event hides it from the bulk form only |
| `ObservedRefinement.ObservedStep` | pkg/ledger/sync.go:681-728 | with any observer, an event that is neither masked nor reported leaves the same ledger in both forms |
| `ObservedRefinement.ObservedBulkIsPlain` | pkg/ledger/sync.go:629-789 | with any observer, without masked or reported events: the same ledger, and the same outcome if and only if no event was signed by the node itself meanwhile |
| `ObservedRefinement.ObservedBulkRefines` | pkg/ledger/sync.go:629-789 | with any observer, a message with unique identifiers of which none is answered with a replay report leaves the same ledger |
| `ObservedRefinement.OnlyPlainReportsReplays` | pkg/ledger/sync.go:712-716 | an outdated event makes the plain form emit a replay report and the bulk form none; the ledgers differ if and only if the observer's keys are usable and the report is acceptable, new and free of conflicts |
| `ObservedRefinement.BulkCountsEveryEvent` | pkg/ledger/sync.go:629-789 | for every message without error the counts add up to the events sent, whatever the observer |
| `MessageRuns.BulkIsRun` | pkg/ledger/sync.go:770-788 | applying any message in bulk is a run that brings verified events of the message |
| `MessageRuns.BoundedIsRun` | pkg/ledger/sync.go:346-396 | applying any message plainly is a run that brings events of the message |
| `MessageRuns.BulkKeeps` | pkg/ledger/sync.go:629-789 | whatever message is applied in bulk with whatever observer: soundness, exact indexes, stored events and chains are kept |
| `MessageRuns.ReachableBulkIsPlain` | pkg/ledger/sync.go:629-789 | on every reachable ledger, without an observer, the two forms agree if and only if no event is masked, and always for unique identifiers |
| `Scheduler.FifoQueue.Push` | pkg/ledgersync/service.go:645-647 | appends to the contents |
| `Scheduler.FifoQueue.Pop` | pkg/ledgersync/service.go:649-660 | removes the first item; compaction does not show |
| `Scheduler.PriorityScheduler.constructor` | pkg/ledgersync/service.go:688-711 | starts with empty queues and the weighted pattern |
| `Scheduler.BuildPattern` | pkg/ledgersync/service.go:688-711 | each class as often as its weight |
| `Scheduler.PriorityScheduler.Len` | pkg/ledgersync/service.go:713-720 | the number of queued items |
| `Scheduler.PriorityScheduler.EvictForCritical` | pkg/ledgersync/service.go:764-774 | drops background, then normal items until the total fits |
| `Scheduler.PriorityScheduler.Demote` | pkg/ledgersync/service.go:739-757 | the class an item lands in |
| `Scheduler.PriorityScheduler.Enqueue` | pkg/ledgersync/service.go:722-791 | exactly the enqueue step of the model |
| `Scheduler.PriorityScheduler.ServePosition` | pkg/ledgersync/service.go:807-842 | one position of the pattern is served, or nothing but the position changes |
| `Scheduler.PriorityScheduler.Next` | pkg/ledgersync/service.go:793-846 | exactly the serve step of the model |
| `SchedulerRuns.EnqueueEffect` | pkg/ledgersync/service.go:722-791 | at most one item is evicted, never a critical one, and none by a call that refuses; the item goes behind its class; the total stays within its bound |
| `SchedulerRuns.EnqueueAcceptsExactly` | pkg/ledgersync/service.go:739-791 | an item is accepted if and only if a class at or below the asked one has room and the scheduler is not full or something can be evicted for a critical item; it goes to the end of the highest such class and is charged there |
| `SchedulerRuns.PeersGoByName` | pkg/ledgersync/service.go:726-729 | peers are told apart by their trimmed names, and nameless ones share a quota |
| `SchedulerRuns.EnqueueKeepsInv` | pkg/ledgersync/service.go:722-791 | charges stay upper bounds within the caps despite demotion |
| `SchedulerRuns.EnqueueKeepsExact` | pkg/ledgersync/service.go:764-774 | exact charges stay exact if and only if the call evicts nothing |
| `SchedulerRuns.NextEffect` | pkg/ledgersync/service.go:793-846 | serves the first item of one class and discharges its peer, or changes no queue |
| `SchedulerRuns.NextKeepsInv` | pkg/ledgersync/service.go:793-846 | serving keeps the invariant and exactness |
| `SchedulerRuns.NextFailsExactly` | pkg/ledgersync/service.go:793-846 | nothing is served if and only if every class of the pattern is empty |
| `SchedulerRuns.RunKeepsInv` | pkg/ledgersync/service.go:722-846 | total bound, peer caps and charge bounds hold in every run |
| `SchedulerRuns.RunKeepsExact` | pkg/ledgersync/service.go:722-846 | in eviction-free runs charges equal what is queued |
| `SchedulerRuns.OneStepFifo` | pkg/ledgersync/service.go:633-660 | each operation removes at the front and adds at the back |
| `SchedulerRuns.RunIsFifo` | pkg/ledgersync/service.go:633-846 | in every run each class leaves in the order it came, and critical items leave only by being served |
| `SchedulerLeak.RunFromInitial` | pkg/ledgersync/service.go:688-711 | from a new scheduler on: bounds, caps, exact charges without evictions, and first in first out |
| `SchedulerLeak.LeakCountsEvictions` | pkg/ledgersync/service.go:764-774 | along every run the charges without a queued item grow by exactly the peer's evicted items |
| `SchedulerLeak.ChargesAreQueuedPlusEvicted` | pkg/ledgersync/service.go:722-846 | conservation: a peer is charged for its queued and its evicted items |
| `SchedulerLeak.RefusedExactlyIfStarved` | pkg/ledgersync/service.go:722-791 | with empty queues an item is refused if and only if the peer's evicted items fill its share, or the item's class and every class below it |
| `SchedulerLeak.StarvedForEver` | pkg/ledgersync/service.go:739-757 | under that condition every later item of the class is refused in every continuation |
| `SchedulerLeak.StarvedExactly` | pkg/ledgersync/service.go:722-846 | with every class in the pattern, that condition holds if and only if the item is refused in every continuation |
| `SchedulerLeak.LeakIsBounded` | pkg/ledgersync/service.go:764-774 | from a new scheduler on critical items never leak and a peer leaks at most the limits of the other two classes, so critical items are never starved if those leave room in its share |
| `SchedulerLeak.StarvationIsReached` | pkg/ledgersync/service.go:764-774 | a run that ends with empty queues and refuses a peer's background items for ever, and its critical ones too exactly if it may queue one item |
| `SchedulerRuns.WeightedFairness` | pkg/ledgersync/service.go:793-846 | any run with as many serves as the pattern is long serves a class at least its weight many times or finds it empty |
| `SchedulerRuns.PatternWeights` | pkg/ledgersync/service.go:688-711 | with positive weights each class occurs exactly its weight many times |
| `DeviceSync.PruneSeen` | pkg/devsync/types.go:114-128 | keeps the newest seen identifiers within the limit |
| `DeviceSync.PrunedKeepsNewest` | pkg/devsync/types.go:100-113 | what truncating drops has no larger Lamport time than what it keeps, and it drops nothing below 50000 events |
| `DeviceSync.SavedInOrder` | pkg/devsync/types.go:100-113 | a saved state lists its events by Lamport time, then device, then number |
| `DeviceSync.RecordedEvent` | pkg/devsync/service.go:90-103 | the next number of the local device, a Lamport time one above the larger of clock and number, and the trimmed kind, payload and time given |
| `DeviceSync.BeforeIsWeakOrder` | pkg/devsync/types.go:100-110 | the canonical comparison is a strict weak order |
| `DeviceSync.Service.Save` | pkg/devsync/types.go:94-129 | events in canonical order, the newest kept |
| `DeviceSync.Service.Record` | pkg/devsync/service.go:74-126 | the whole recording step, or no change for refused arguments |
| `DeviceSync.Service.BuildBatch` | pkg/devsync/service.go:128-162 | the first events the peer's cursors do not cover |
| `DeviceSync.Service.ApplyEvent` | pkg/devsync/service.go:181-201 | one event is skipped as seen, skipped as covered, or appended |
| `DeviceSync.AppliedExactly` | pkg/devsync/service.go:181-201 | an event, named by its hash if it came without an identifier, is appended exactly if it is unseen and beyond its device's cursor; the clock moves one past both times |
| `DeviceSync.Service.ApplyBatch` | pkg/devsync/service.go:164-204 | the whole application step with its count |
| `DeviceSyncRuns.ApplyAllKeeps` | pkg/devsync/service.go:164-204 | applying a gap-free batch for earlier cursors keeps the prefixes and covers the batch |
| `DeviceSyncRuns.BatchContinues` | pkg/devsync/service.go:128-162 | every batch continues the cursors it was built for without a gap |
| `DeviceSyncRuns.StepKeeps` | pkg/devsync/service.go:74-204 | every step of every replica keeps the invariant of the system |
| `DeviceSyncRuns.RunKeeps` | pkg/devsync/service.go:74-204 | in every run each replica holds, for each device, exactly the gap-free prefix up to its cursor, no event twice |
| `DeviceSyncRuns.EqualCursorsEqualEvents` | pkg/devsync/types.go:94-113 | replicas with equal cursors hold the identical sequence |
| `DeviceSyncCausality.RunIsClosed` | pkg/devsync/service.go:128-204 | in every run each replica, and each batch with the cursors it was built for, is causally closed |
| `DeviceSyncCausality.OrderExtendsHappenedBefore` | pkg/devsync/types.go:94-113 | in every run, whatever happened before an event, through any chain of replicas, is held wherever the event is, at an earlier position |
| `DeviceSyncRuns.PullDelivers` | pkg/devsync/service.go:128-204 | a pull delivers the smaller of limit and missing events, and all of them apply |

## Left out

- Cryptography and encodings (SHA-256, Ed25519, base64, JSON, age): arbitrary functions in every theorem.
- Kind-specific payload rules of `pkg/ledger/kinds.go`: one arbitrary predicate.
- The clock is read once per operation; different operations, arrivals and rounds have their own readings.
- `missingRefWeight` of the ledger: planning is proved for an arbitrary weighting instead of the stored one.
- The three witness maps are one set of tagged marks; empty inner maps do not show.
- Arguments of own events other than the link: payload text and signature of an emitted event are arbitrary functions, and its jittered creation time is the clock parameter.
- Durations and times are whole seconds.
- Text that is not valid UTF-8 is not modelled; strings are sequences of code points, and lengths count their bytes.
- Argument checks of `EmitWitnessAttest`, `EmitWitnessCheckpoint`, `EmitSyncSummary` and `EmitSybilMisbehavior`: their shared tail is `EmitOwn`, and a refused call changes nothing, so the run theorems cover any subset of the calls.
- OptimizedApply.ApplyEventsMessageBoundedOptimized: batch size, worker count and scheduler yields are not modelled, because they only choose among the orders the contract already covers.
- BoundedRefinement.BulkRefinesPlain: states the case without an observer; `ObservedRefinement.ObservedBulkIsPlain` states the other.
- DeviceSync.Service.Record: sequence numbers and Lamport times are unbounded, without the wrap-around of 64 bits, and a failed save is not modelled.
- DeviceSync.Service.Save: the validation and the write of the encrypted store are left out; sorting and truncating are what saving does to the state.
- `BuildEventsMessageBounded`, `VerifyBatch`, `PlanSyncFromInventory`, `Introduced` and `Checkpointed`: they repeat loops that are modelled here and would only add easy members.
- `Sweep` of the reassembler, outbox handling of devsync and `SetLocalDeviceID`: single loops or field updates.
- The rest of `pkg/ledgersync` (message loop, relays, privacy delays, security scores) and all other packages: input and output, randomness or short validations.
