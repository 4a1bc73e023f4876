# Verified model of Klein's state, submission and query cores

This project models the parts of Klein whose correctness rests on several functions
agreeing with one another, and proves that they do:

- **Keyed state and rescaling.** Integer routing to key groups, equality-preserving
  canonicalisation of keys, order-preserving byte keys, the memory and RocksDB backends
  with their expiry index and timer queue, the timer service, key-group snapshots and
  their redistribution. The main result is end to end: snapshotting N backends,
  redistributing to M subtasks and restoring loses nothing, duplicates nothing and puts
  every entry where routing sends its key (`RescaleTheorem`).
- **Checkpoints.** The file-system checkpoint store as atomic steps with a crash possible
  after each of them, and the MVCC owner of hot state as a state machine over the calls of
  clients that retry.
- **Submission.** Submitting sinks while the pipeline's lock is released, over every
  interleaving, and the ownership of sinks by statement sets.
- **Queries.** The AI projection rewrite against direct evaluation, and JSON paths.
- **Two algorithms.** Sliding windows and the operator tree.

Objects that the source updates in place are classes (`MemoryStateBackend`,
`RocksDbStateBackend`, `TimerService`, `FileSystemCheckpointStore`,
`ObjectStoreStateBackend`, `KleinContext`, `Pipeline`, `StatementSet`). Their methods are
tied to functions on values (`KeyedState`, `CheckpointProtocol`, `ObjectStoreRegistry`,
`Submission`, `Statements`), and the laws are lemmas about those functions and their runs.
What the functions answer is determined in turn by laws that speak of inputs, times, positions
and keys alone: `KeyedHistory`, `SnapshotLaws`, `CheckpointRecovery`, `StateObjects`,
`ManifestReading`, `CommitLaws`, `SelectionLaws`, `StatementLaws`, `StatementSteps`, `SqlMeaning`,
`ProjectionLaws`, `JsonMeaning` and `TreePrefixes`.
The backends' class invariant relates the physical byte dictionaries to the logical
contents, so every method is proved on bytes and specified on values.

## How the modules fit together

- `Wrappers`, `Bytes`, `Texts`, `Sorting`, `IntegerSort`, `Rationals`, `Decimals`,
  `HexTexts`: results,
  byte and text order, big-endian integers, Python's `sorted`, ratios in lowest terms,
  numerals.
- `KeyGroups` → `KeyEncoding` → `KeyEquality`, `CanonicalForms` → `StateCodec` → `KeyCodec`,
  `StoredLayout`: routing, keys and codecs.
- `KeyedState` → `Encodings`, `StoredState`, `StateScans` → `MemoryBackend`,
  `RocksDbBackend` → `BackendLaws`, `BackendConformance`, `CleanupRuns`, `Timers`,
  `KeyedHistory`.
- `ManagedSnapshot`, `KeyGroupSnapshots` → `SnapshotLaws`, `Rescale` → `RescaleTheorem` →
  `RoutedRuns`, `RestoreAcceptance`, `RescaleProcedure`, `RocksDbRescale`.
- `Manifests`, `CheckpointFiles` → `CheckpointProtocol` → `CheckpointStore`,
  `CheckpointLaws`, `CheckpointRetention`, `DigestCollisions` → `CheckpointRecovery`,
  `StateObjects`, `ManifestReading`; `ObjectStoreRegistry` → `CommitLaws`.
- `Submission` → `Statements` → `StatementRuns` → `StatementThreads` → `StatementRaces`;
  `SelectionLaws`, `StatementLaws`, `StatementSteps`.
- `SqlExpressions` → `SqlMeaning`, `AiProjections` → `ProjectionLaws`, `AiRewrite` → `AiBatches`;
  `JsonPaths` → `JsonMeaning`; `SlidingWindows`; `OperatorTree` → `TreePrefixes`.
- `Serialization` → `KeyPlatforms`, `CheckpointEnvironments`, `SqlRenderings`: platforms that
  meet the assumptions below.

## Assumptions

They are the `Lawful`, `Trusted`, `Faithful`, `Injective` and `Pointwise` predicates, and
each theorem that needs one requires it. All but the last, which only says what an AI
backend's batched answer is, come with a lemma that some platform meets them:
`KeyPlatforms.TrustedExists` and `BlobCodecLawful`, `CheckpointEnvironments.LawfulExists`,
`SqlRenderings.RenderingExists`, `ReaderExists` and `PartitionRankInjective`. Two methods in
`KeyPlatforms` construct both backends with such a codec and call them.

- Pickling is injective on canonical keys and unpickling thaws them; the routing hash is any
  function of the canonical key; timer payloads round-trip. Encoded keys are of any length:
  a component of 4 GiB or more is the error that packing its length raises.
- The timer digest never collides. It is a byte string of any length here, since no function
  to 32 bytes tells all pairs apart; the same holds for SHA-256 of state objects.
- JSON text without floats decodes to what was encoded, which covers all that the store
  writes; read JSON may hold floats, as ratios. Percent-quoting of job and operator ids is
  injective, and the URI of a path leads back to the path.
- Different SQL calls render to different texts. An AI backend answers each call of a batch
  by itself, and the rows of a table have the same, at least one, columns.
- Reading a quoted text literal or an integer numeral inverts printing it; `int` is taken to
  read numerals of any length, which Python limits to some thousands of digits.
- Recursion is not limited: at Python's recursion limit the operator tree walk would raise on
  a very deep chain instead of ending.
- Single object writes and directory deletes are atomic, and one process at a time uses a
  checkpoint store.

## Where the code does less than it promises

Each of these is a lemma with the exact condition under which the promise holds.

- `_latest` is documented as a mere optimisation, but valid JSON that is not an object, or an
  infinite id, makes `latest` raise (`CheckpointRetention.LatestFailsIff`; for the number 5
  in `NumberPointerFails`). Otherwise `latest` is the highest committed checkpoint whatever the pointer holds.
- The scan takes a directory `chk-007` for checkpoint 7. Retention counts it twice, and
  keeping one checkpoint can then delete the newest (`StrayDirectoryLosesCheckpoint`;
  exact conditions in `CleanupKeepsNewestIff` and `NewestSurvivesIff`).
- `write_state` never rewrites an existing object, so it returns an entry that cannot be read
  when other bytes stand at the path (`CheckpointLaws.WriteThenRead`). Since names carry
  sixteen digits of a digest, two payloads of one version can share a path, whatever the
  digest is (`DigestCollisions.SecondWriteUnreadable`).
- An expiry of -1 is stored as "no expiry" (`StateCodec.StateValueRoundTrip`).
- A limited cleanup of the memory backend spends its limit on stale index entries and can
  differ from RocksDB (`BackendLaws.LimitedCleanupAgreesIff`; a run from empty backends in
  `CleanupRuns.LimitedCleanupDisagrees`).
- After `advance_watermark(w)` event-time timers at or below `w` remain when `w` was not ahead
  (`Timers.NoneDueRemainsIff`; a timer registered for `w` after it, in `LateTimerStays`).
- Between threads, tokens and lists of statement sets agree throughout a run exactly when no
  step interferes (`StatementThreads.AgreesOverRunsIff`), and each kind of interference comes
  from another thread stepping into a window that no lock covers (`StatementRaces`):
  plain `Pipeline.execute` may submit an owned sink (`PlainSubmitsOwnedIff`,
  `OwnedSinkSubmitted`); a submitted set clears its whole list but frees only what it
  submitted (`ClearingOrphansIff`), which leaves an orphan that no continuation frees
  (`OrphanArises`, `OrphanForever`); a terminal built in a capture scope is discarded although
  a set owns it (`CaptureDiscardsOwnedIff`, `OwnedSinkDiscarded`); and a registration writes
  although its checks no longer hold (`StaleRegistrationIff`), so that two sets list one sink
  (`SinkInTwoSets`).
- A failed submission's sinks are selectable again unless they were discarded meanwhile
  (`Submission.FailedIsSelectableIff`, `DiscardedInFlight`).
- A retried commit is recognised by version and input sequence alone; another value sent under
  the same pair is dropped (`ObjectStoreRegistry.ReplayIff`, `OtherValueDropped`).

## Model

| member | source | states |
|---|---|---|
| `KeyGroups.RoutingDuality` | src/ray/klein/state/key_group_range.py:37-62 | for all valid parallelisms a subtask's range contains a key group exactly when the owner computed for the group is that subtask |
| `KeyGroups.OwnerInRange` | src/ray/klein/state/key_group_range.py:54-62 | every valid key group is owned by one of the subtasks |
| `KeyGroups.RangesTile` | src/ray/klein/state/key_group_range.py:37-51 | the ranges are non-empty, adjacent in subtask order, and cover exactly the key groups |
| `KeyGroups.RangesBalanced` | src/ray/klein/state/key_group_range.py:37-51 | any two ranges differ in length by at most one |
| `KeyGroups.OwnerDefinedIff` | src/ray/klein/state/key_group_range.py:54-62 | a group has an owner exactly when it is one of the groups and subtasks are no more than groups, and which one |
| `KeyGroups.RangeDefinedIff` | src/ray/klein/state/key_group_range.py:37-51 | a range is assigned exactly to existing subtasks; it begins and ends where the shares of the groups do |
| `KeyEquality.CanonicalRatioDecides` | src/ray/klein/state/key_encoding.py:158-172 | canonical numbers coincide exactly when the ratios are equal |
| `CanonicalForms.CanonicalNumber` | src/ray/klein/state/key_encoding.py:158-172 | a canonical number is the same number in lowest terms: an integer exactly when whole, else a float exactly when its denominator is a power of two and a float can hold it, else a fraction |
| `KeyEquality.CanonicalRangeDecides` | src/ray/klein/state/key_encoding.py:204-214 | canonical ranges coincide exactly when the ranges yield the same integers |
| `KeyEquality.CanonicalRangeTwice` | src/ray/klein/state/key_encoding.py:204-214 | a canonical range is its own canonical form |
| `KeyEquality.CanonicalDecidesEquality` | src/ray/klein/state/key_encoding.py:82-214 | for nested keys, canonical forms coincide exactly when Python's `==` holds, independent of set and dictionary order |
| `KeyEquality.PyEqualIsEquivalence` | src/ray/klein/state/key_encoding.py:82-214 | equality of keys, defined as Python compares them, is reflexive, symmetric and transitive |
| `KeyEquality.CanonicalTwice` | src/ray/klein/state/key_encoding.py:82-214 | canonicalising a canonical form changes nothing |
| `KeyEquality.DecodedKeepsCanonicalForm` | src/ray/klein/state/key_encoding.py:37-66 | a decoded key is a valid key with the canonical form of the one encoded |
| `KeyEquality.DecodedKeyIsEqual` | src/ray/klein/state/key_encoding.py:37-66 | a key that went through storage equals the key stored |
| `KeyCodec.StructuralCodecLawful` | src/ray/klein/state/key_encoding.py:37-66 | the canonical codec meets every law the backends need, and encoded keys coincide exactly for equal keys |
| `KeyCodec.KeyGroupIs` | src/ray/klein/state/key_group_range.py:65-81 | the group of a key is in range and a multiple of the parallelism away from the routed hash, and keys with one encoding share it |
| `KeyPlatforms.TrustedExists` | src/ray/klein/state/key_encoding.py:37-66 | whichever ratios floats can hold, some pickling and digest meet all that structural keys ask for |
| `StateCodec.StateKeyRoundTrip` | src/ray/klein/state/state_codec.py:16-51 | decoding accepts exactly the encodings of three components and inverts them |
| `StateCodec.PrefixSelectsNameAndKey` | src/ray/klein/state/state_codec.py:26-28 | a state key starts with a scan prefix exactly when its name and key are the prefix's |
| `StateCodec.StateValueRoundTrip` | src/ray/klein/state/state_codec.py:54-63 | a stored value comes back exactly when its expiry is not the sentinel of "no expiry" |
| `StateCodec.ExpiryKeyRoundTrip` | src/ray/klein/state/state_codec.py:66-73 | index keys decode to what they encode and only encodings decode |
| `StateCodec.ExpiryKeyOrder` | src/ray/klein/state/state_codec.py:66-68 | byte order on index keys is order by expiry, then state key |
| `StateCodec.TimerKeyRoundTrip` | src/ray/klein/state/state_codec.py:76-95 | a timer key yields its timestamp and digest, and its prefix names its domain |
| `StateCodec.TimerKeyOrder` | src/ray/klein/state/state_codec.py:76-84 | byte order on timer keys of a domain is order by timestamp, then digest |
| `StoredLayout.StateKeyLayout` | src/ray/klein/state/state_codec.py:16-24 | three lengths of four bytes, each before its component |
| `StoredLayout.StateValueLayout` | src/ray/klein/state/state_codec.py:54-56 | eight bytes of expiry in two's complement, -1 for none, before the payload |
| `StoredLayout.TimerKeyLayout` | src/ray/klein/state/state_codec.py:76-84 | the letter of the domain, eight bytes of timestamp, and the digest |
| `Sorting.PrefixScanStops` | src/ray/klein/state/rocks_db_state_backend.py:125-132 | a prefix scan over sorted keys may stop at the first key outside the prefix: no later key has it |
| `MemoryBackend.MatchingNamespaces` | src/ray/klein/state/memory_state_backend.py:98-100 | the filtering pass over sorted keys finds exactly the namespaces under a name and key |
| `MemoryBackend.MemoryStateBackend.Get` | src/ray/klein/state/memory_state_backend.py:53-76 | returns the value that is visible, drops an expired one but keeps its index entry, and renews when the TTL says so |
| `MemoryBackend.MemoryStateBackend.Put` | src/ray/klein/state/memory_state_backend.py:78-88 | replaces value and expiry and moves the index entry |
| `MemoryBackend.MemoryStateBackend.Delete` | src/ray/klein/state/memory_state_backend.py:90-96 | removes the value and its index entry |
| `MemoryBackend.MemoryStateBackend.Namespaces` | src/ray/klein/state/memory_state_backend.py:98-100 | lists the namespaces of a name and key in byte order, expired values included |
| `MemoryBackend.MemoryStateBackend.RegisterTimer` | src/ray/klein/state/memory_state_backend.py:102-106 | files the timer once under its domain, time, key and namespace, or reports the first error |
| `MemoryBackend.MemoryStateBackend.DeleteTimer` | src/ray/klein/state/memory_state_backend.py:108-109 | removes exactly that timer |
| `MemoryBackend.MemoryStateBackend.PopDueTimers` | src/ray/klein/state/memory_state_backend.py:111-130 | pops the earliest due timers of one domain, at least one when any is due, and leaves the others |
| `MemoryBackend.MemoryStateBackend.CleanupExpired` | src/ray/klein/state/memory_state_backend.py:132-144 | processes the earliest overdue index entries up to the limit, drops the values they still describe, and counts those |
| `MemoryBackend.MemoryStateBackend.SnapshotKeyGroups` | src/ray/klein/state/memory_state_backend.py:173-214 | fails exactly when a key does not decode; otherwise the loops fill one bucket for each requested group that has entries, holding exactly its entries |
| `MemoryBackend.MemoryStateBackend.RestoreKeyGroups` | src/ray/klein/state/memory_state_backend.py:216-239 | installs the joined snapshots, whatever they hold, or changes nothing when one is not supported; bytes that encode a keyed state give a backend with that state |
| `RocksDbBackend.ScannedNamespaces` | src/ray/klein/state/rocks_db_state_backend.py:125-132 | the prefix scan finds exactly the namespaces under a name and key |
| `RocksDbBackend.RocksDbStateBackend.Get` | src/ray/klein/state/rocks_db_state_backend.py:80-103 | as the memory backend, but an expired value takes its index entry with it |
| `RocksDbBackend.RocksDbStateBackend.Put` | src/ray/klein/state/rocks_db_state_backend.py:105-120 | one batch replaces value and index entry |
| `RocksDbBackend.RocksDbStateBackend.DeleteStateKey` | src/ray/klein/state/rocks_db_state_backend.py:385-395 | one batch removes the value and the index entry of its stored expiry |
| `RocksDbBackend.RocksDbStateBackend.Delete` | src/ray/klein/state/rocks_db_state_backend.py:122-123 | removes the value and its index entry |
| `RocksDbBackend.RocksDbStateBackend.Namespaces` | src/ray/klein/state/rocks_db_state_backend.py:125-132 | lists the namespaces of a name and key in byte order |
| `RocksDbBackend.RocksDbStateBackend.RegisterTimer` | src/ray/klein/state/rocks_db_state_backend.py:134-141 | files the timer once, or reports the first error |
| `RocksDbBackend.RocksDbStateBackend.DeleteTimer` | src/ray/klein/state/rocks_db_state_backend.py:143-145 | removes exactly that timer |
| `RocksDbBackend.RocksDbStateBackend.PopDueTimers` | src/ray/klein/state/rocks_db_state_backend.py:147-169 | the prefix scan pops the earliest due timers of one domain |
| `RocksDbBackend.RocksDbStateBackend.CleanupExpired` | src/ray/klein/state/rocks_db_state_backend.py:171-192 | processes the earliest overdue index entries up to the limit |
| `RocksDbBackend.RocksDbStateBackend.SnapshotKeyGroups` | src/ray/klein/state/rocks_db_state_backend.py:225-266 | as the memory backend |
| `RocksDbBackend.RocksDbStateBackend.RestoreKeyGroups` | src/ray/klein/state/rocks_db_state_backend.py:268-297 | validates every entry first: refuses unsupported, invalid or conflicting snapshots without a change, and otherwise installs their union |
| `KeyPlatforms.WriteThenReadMemory` | src/ray/klein/state/memory_state_backend.py:53-88 | on a fresh memory backend a value that was put is read until it expires; an oversized component is an error |
| `KeyPlatforms.WriteThenReadRocksDb` | src/ray/klein/state/rocks_db_state_backend.py:80-120 | the same on a fresh RocksDB backend |
| `BackendConformance.PerformOnMemory` | src/ray/klein/state/memory_state_backend.py:44-144 | every call on the memory backend is a step of the abstract TTL map and gives its response |
| `BackendConformance.PerformOnRocksDb` | src/ray/klein/state/rocks_db_state_backend.py:71-192 | every call on the RocksDB backend is a step of the abstract TTL map and gives its response |
| `BackendLaws.IndexInvariant` | src/ray/klein/state/memory_state_backend.py:53-144 | in every reachable state each value with an expiry is indexed; RocksDB's index has nothing else |
| `BackendLaws.CleanupRemovesExactlyExpired` | src/ray/klein/state/memory_state_backend.py:132-144 | an unlimited cleanup removes exactly the expired values and returns their number |
| `BackendLaws.RepeatedCleanupConverges` | src/ray/klein/state/memory_state_backend.py:132-144 | cleanups with limits of at least one reach the state and total of an unlimited one |
| `BackendLaws.LimitedCleanupAgreesIff` | src/ray/klein/state/rocks_db_state_backend.py:171-192 | limited cleanups of the two backends agree exactly when no live overdue entry waits behind a stale one |
| `CleanupRuns.LimitedCleanupDisagrees` | src/ray/klein/state/memory_state_backend.py:53-144 | five calls from empty backends after which a cleanup with limit 1 returns 0 in memory and 1 on RocksDB |
| `BackendLaws.BackendsSimulate` | src/ray/klein/state/rocks_db_state_backend.py:80-192 | over every run with unlimited cleanups the two backends give the same responses and keep the same values and timers |
| `KeyedHistory.RunsAreHistory` | src/ray/klein/state/memory_state_backend.py:44-144 | over every run of either backend with unlimited cleanups, what is stored for a value is what the history of the calls and their times leaves of it |
| `KeyedHistory.ReadsTellHistory` | src/ray/klein/state/memory_state_backend.py:53-76 | after any such run from empty backends a read returns exactly what the history of its value says |
| `KeyedHistory.ReadAfterReadsIff` | src/ray/klein/state/memory_state_backend.py:53-88 | after a write and any number of reads, the last one returns the payload exactly when each read came within the time-to-live of the write or, with renewal on reading, of the read before it; other values and timers do not change |
| `KeyedHistory.SecondReadIff` | src/ray/klein/state/memory_state_backend.py:53-76 | with one read in between, the payload is returned exactly within the time-to-live of the write, or of that read's renewal |
| `KeyedHistory.ReadRepeatedlyFromMemory` | src/ray/klein/state/memory_state_backend.py:53-88 | the memory backend answers any number of reads after a write as those times say |
| `KeyedHistory.ReadRepeatedlyFromRocksDb` | src/ray/klein/state/rocks_db_state_backend.py:80-120 | so does the RocksDB backend |
| `KeyedHistory.SlotErrorIs` | src/ray/klein/state/state_codec.py:16-24 | a call on a value fails exactly without a current key or with a component of 4 GiB or more |
| `KeyedHistory.PrefixErrorIs` | src/ray/klein/state/state_codec.py:26-28 | listing namespaces fails exactly without a current key or with a name or key of 4 GiB or more |
| `KeyedHistory.TimerErrorsAre` | src/ray/klein/state/memory_state_backend.py:102-109 | the exact condition of each error of registering and deleting a timer |
| `KeyedHistory.NamespacesListed` | src/ray/klein/state/memory_state_backend.py:98-100 | the listing has one namespace for each value of the name and key, expired or not, in the byte order of the stored keys |
| `KeyedHistory.PopCounts` | src/ray/klein/state/memory_state_backend.py:111-130 | a limited pop takes all that is due or as many as the limit says, and at least one when any is due |
| `KeyedHistory.CleanupTakesEarliest` | src/ray/klein/state/memory_state_backend.py:132-144 | a limited cleanup processes as many entries as the limit says, or all, and none it leaves is earlier than one it processed |
| `Timers.TimerService.AdvanceWatermark` | src/ray/klein/state/timer_service.py:22-26 | fires the due event-time timers when the watermark advances, and nothing otherwise |
| `Timers.TimerService.RestoreWatermark` | src/ray/klein/state/timer_service.py:28-31 | refuses exactly watermarks below -1 |
| `Timers.TimerService.RegisterEventTimeTimer` | src/ray/klein/state/timer_service.py:33-34 | registers an event-time timer for the current key, or reports the first error and changes nothing |
| `Timers.TimerService.DeleteEventTimeTimer` | src/ray/klein/state/timer_service.py:36-37 | deletes exactly that event-time timer |
| `Timers.TimerService.RegisterProcessingTimeTimer` | src/ray/klein/state/timer_service.py:39-40 | registers a processing-time timer for the current key |
| `Timers.TimerService.DeleteProcessingTimeTimer` | src/ray/klein/state/timer_service.py:42-43 | deletes exactly that processing-time timer |
| `Timers.TimerService.PopDueProcessingTimeTimers` | src/ray/klein/state/timer_service.py:45-47 | pops all due processing-time timers and no others |
| `Timers.PopTakesEarliest` | src/ray/klein/state/memory_state_backend.py:111-130 | a pop takes distinct due timers in timestamp order, and none it leaves is earlier than one it took |
| `Timers.UnlimitedPopTakesAll` | src/ray/klein/state/memory_state_backend.py:111-130 | without a limit every due timer is popped |
| `Timers.AdvanceFiresDue` | src/ray/klein/state/timer_service.py:22-26 | after an advance to w no event-time timer at or below w remains and processing-time timers are untouched |
| `Timers.NoneDueRemainsIff` | src/ray/klein/state/timer_service.py:22-26 | no event-time timer at or below w remains exactly when w was ahead of the watermark or none was there |
| `Timers.LateTimerStays` | src/ray/klein/state/timer_service.py:22-34 | advance to w, register a timer for w, advance to w again: nothing fires and the timer stays |
| `Timers.RegisteringTwice` | src/ray/klein/state/timer_service.py:33-34 | registering a pending timer again adds no timer |
| `Timers.TimersConserved` | src/ray/klein/state/timer_service.py:22-47 | over every run each distinct registration ends exactly once: fired, deleted or pending |
| `Timers.FiredAreHandedOut` | src/ray/klein/state/timer_service.py:22-47 | over every run as many timers fired as events were handed out |
| `ManagedSnapshot.Redistribute` | src/ray/klein/state/managed_state_snapshot.py:145-158 | files every group in its owner's bucket, and fails exactly when a group disagrees with one filed before |
| `ManagedSnapshot.Repartition` | src/ray/klein/state/managed_state_snapshot.py:55-95 | succeeds exactly on acceptable inputs, and then yields the redistributed envelopes |
| `ManagedSnapshot.MinWatermarkIs` | src/ray/klein/state/managed_state_snapshot.py:55-95 | the outputs' watermark is the least of the inputs' |
| `SnapshotLaws.EnvelopeValidIff` | src/ray/klein/state/managed_state_snapshot.py:98-122 | an envelope is valid exactly in the current formats, with a range inside the key groups and groups inside the range |
| `ManagedSnapshot.RepartitionConserves` | src/ray/klein/state/managed_state_snapshot.py:55-158 | the outputs hold exactly the union of the input groups, each only with its owner, and are valid envelopes |
| `ManagedSnapshot.OutputsAcceptable` | src/ray/klein/state/managed_state_snapshot.py:98-122 | every output passes the validator and can be redistributed again |
| `ManagedSnapshot.RepartitionComposes` | src/ray/klein/state/managed_state_snapshot.py:55-158 | going to A and then to B equals going straight to B |
| `ManagedSnapshot.RepartitionIgnoresOrder` | src/ray/klein/state/managed_state_snapshot.py:55-158 | order and repetition of the inputs do not matter |
| `KeyGroupSnapshots.FillBuckets` | src/ray/klein/state/memory_state_backend.py:173-214 | the three loops over state, expiry and timers fail exactly on a key that does not decode, and otherwise yield exactly the restriction to each requested group |
| `SnapshotLaws.BucketHolds` | src/ray/klein/state/memory_state_backend.py:173-214 | a group has a bucket exactly when it was asked for and has an entry, and the bucket holds the group's entries with their values, in the current formats |
| `SnapshotLaws.EntryGroups` | src/ray/klein/state/memory_state_backend.py:186-204 | an entry's group is that of its key: for index entries of the value's key, for timers of the stored key |
| `SnapshotLaws.DecodesIff` | src/ray/klein/state/state_codec.py:40-95 | an entry decodes exactly when it is the encoding of something; a timer key from nine bytes on |
| `KeyGroupSnapshots.JoinSnapshots` | src/ray/klein/state/memory_state_backend.py:216-239 | joining snapshots one after another yields their union, or fails on an unsupported one |
| `SnapshotLaws.OtherFormatsRefused` | src/ray/klein/state/memory_state_backend.py:216-226 | a snapshot of another format or key encoding is refused, whatever it holds |
| `KeyGroupSnapshots.ValidateSnapshots` | src/ray/klein/state/rocks_db_state_backend.py:426-483 | accepts exactly supported snapshots with valid entries and without conflicts, and then yields their union |
| `SnapshotLaws.EntryValidIff` | src/ray/klein/state/rocks_db_state_backend.py:458-483 | which entries a restore accepts: encoded keys with an expiry before the value, encoded index keys without a value, and timer keys that are their payload's |
| `KeyGroupSnapshots.UpdatedIff` | src/ray/klein/state/memory_state_backend.py:216-239 | where parts agree, an entry is in the joined dictionary exactly when some part holds it |
| `Rescale.RangeIsOwned` | src/ray/klein/state/key_group_range.py:37-62 | the key groups of a subtask's range are the groups it owns |
| `Rescale.FragmentsAcceptable` | src/ray/klein/state/managed_state_snapshot.py:55-122 | the snapshots of all subtasks of one job can be redistributed |
| `Rescale.ReceivedPieces` | src/ray/klein/state/managed_state_snapshot.py:145-158 | a new subtask is handed exactly the old subtasks' non-empty groups that it owns |
| `Rescale.RescalePreservesEntries` | src/ray/klein/state/memory_state_backend.py:173-239 | on bytes, a new backend ends up with exactly the entries of all old ones whose key group it owns, in whatever order it joins them |
| `RescaleTheorem.EntriesFollowKey` | src/ray/klein/state/key_group_range.py:65-81 | values and timers of a key are grouped as routing groups the key, however it was written |
| `RescaleTheorem.UnionStored` | src/ray/klein/state/memory_state_backend.py:216-239 | the joined bytes of the old backends hold the union of their keyed states |
| `RescaleTheorem.RestoredBackends` | src/ray/klein/state/memory_state_backend.py:173-239 | snapshot, redistribution and restore give each new backend exactly the keyed state it must have, holding only keys of its own range |
| `RescaleTheorem.RescaleConserves` | src/ray/klein/state/memory_state_backend.py:173-239 | old and new backends divide the same values, index entries and timers, and each new one holds what routing sends to it |
| `RescaleTheorem.RescaleKeepsIndex` | src/ray/klein/state/memory_state_backend.py:173-239 | the expiry index still covers every expiring value after a rescale |
| `RoutedRuns.RunsStayPlaced` | src/ray/klein/runtime/partitioning/key_partitioner.py:83-87 | over every run whose selected keys are routed to a subtask its backend holds only entries of the subtask's key groups |
| `RoutedRuns.LifeStaysPlaced` | src/ray/klein/runtime/partitioning/key_partitioner.py:83-87 | so it is from an empty start through any number of routed runs and rescales |
| `RoutedRuns.RescaleAfterLife` | src/ray/klein/runtime/operator/managed_state_operator.py:153-228 | after any such history, snapshot, redistribution and restore give each new backend what routing assigns to it |
| `RescaleProcedure.RescaleBackends` | src/ray/klein/runtime/operator/managed_state_operator.py:153-228 | the backends' own snapshot and restore with the redistribution between them: succeeds exactly for a valid target, and every new backend holds its share |
| `RestoreAcceptance.StoredIsValid` | src/ray/klein/state/rocks_db_state_backend.py:458-483 | every entry of a backend passes the validation of a restore |
| `RestoreAcceptance.SharesAccepted` | src/ray/klein/state/rocks_db_state_backend.py:426-455 | what a new subtask is handed in a rescale is supported, valid and without conflicts |
| `RocksDbRescale.RescaleBackends` | src/ray/klein/runtime/operator/managed_state_operator.py:153-228 | the same end to end for RocksDB backends, whose validation never refuses a share |
| `Manifests.ItemsOfDict` | src/ray/klein/state/state_checkpoint_manifest.py:32-84 | positions come back unchanged exactly when their names ascend strictly |
| `Manifests.ManifestRoundTrip` | src/ray/klein/state/state_checkpoint_manifest.py:32-84 | a manifest read from its dictionary is the one written with sorted positions, and the very same exactly when both position lists ascend |
| `ManifestReading.EntryReadIff` | src/ray/klein/state/state_checkpoint_manifest.py:58-84 | an entry is read from an object exactly when it is valid and the object has the fields it is written with |
| `ManifestReading.ManifestReadIff` | src/ray/klein/state/state_checkpoint_manifest.py:58-84 | a manifest is read exactly when it is valid and the object has its fields, its entries one by one, and its positions with ascending names, or none |
| `CheckpointFiles.NameIsPlain` | src/ray/klein/state/checkpoint_layout.py:38-40 | of the names that denote a checkpoint the layout uses the one without superfluous zeros |
| `CheckpointFiles.DirectoriesApart` | src/ray/klein/state/checkpoint_layout.py:38-43 | directories of different checkpoints do not contain one another |
| `CheckpointFiles.StateInOwnDirectory` | src/ray/klein/state/checkpoint_layout.py:61-81 | exclusive state lies in its own checkpoint's directory only, shared and task-owned state in none |
| `StateObjects.LayoutNames` | src/ray/klein/state/checkpoint_layout.py:22-81 | the names of the directories, the metadata and the pointer of a job |
| `StateObjects.DeleteRemovesTree` | src/ray/klein/state/file_system_checkpoint_store.py:138-142 | deleting a directory removes it and what is below it, and nothing else |
| `CheckpointEnvironments.LawfulExists` | src/ray/klein/state/checkpoint_layout.py:38-81 | however `int` reads texts, some quoting, JSON text, URI and hexadecimal digest meet all that the store's theorems ask for |
| `CheckpointProtocol.ScanCounts` | src/ray/klein/state/file_system_checkpoint_store.py:126-136 | the listing holds an id once for each directory that denotes it |
| `CheckpointRecovery.NamesAre` | src/ray/klein/state/file_system_checkpoint_store.py:126-130 | the scan meets exactly the directories directly below the job's own |
| `CheckpointProtocol.ScanOrderIrrelevant` | src/ray/klein/state/file_system_checkpoint_store.py:126-136 | the order in which directories are met does not change the listing |
| `CheckpointStore.FileSystemCheckpointStore.WriteState` | src/ray/klein/state/file_system_checkpoint_store.py:38-62 | writes the object unless its path exists, and returns its entry |
| `CheckpointStore.FileSystemCheckpointStore.CheckEntries` | src/ray/klein/state/file_system_checkpoint_store.py:64-68 | reports the first entry whose object is missing or outside the root |
| `CheckpointStore.FileSystemCheckpointStore.Commit` | src/ray/klein/state/file_system_checkpoint_store.py:64-85 | the files pass through exactly the states of the protocol: metadata once, then the pointer |
| `CheckpointStore.FileSystemCheckpointStore.ListCompletedCheckpoints` | src/ray/klein/state/file_system_checkpoint_store.py:126-136 | yields the sorted listing from directories met in any order |
| `CheckpointStore.FileSystemCheckpointStore.Latest` | src/ray/klein/state/file_system_checkpoint_store.py:87-111 | the candidate loop yields the manifest of the largest readable candidate |
| `CheckpointStore.FileSystemCheckpointStore.CleanupCheckpoints` | src/ray/klein/state/file_system_checkpoint_store.py:144-151 | deletes the listed ids but the last `retained` entries, oldest first |
| `CheckpointLaws.WrittenEntriesAreOwn` | src/ray/klein/state/file_system_checkpoint_store.py:38-62 | every entry that writing returns may go into its checkpoint's manifest, and its object is there |
| `CheckpointLaws.WriteThenRead` | src/ray/klein/state/file_system_checkpoint_store.py:38-124 | a written payload is read back exactly when no other bytes stood at its path |
| `StateObjects.WriteStateAccepts` | src/ray/klein/state/file_system_checkpoint_store.py:38-62 | a write is refused exactly for an exclusive object of a negative checkpoint; its entry describes the payload and leads to its path, and no other file changes |
| `StateObjects.WrittenEntryIsValid` | src/ray/klein/state/file_system_checkpoint_store.py:38-62 | what writing returns passes the checks of an entry |
| `StateObjects.ManifestChecks` | src/ray/klein/state/state_checkpoint_manifest.py:21-30 | a manifest is of one job, its entries pass their checks and its numbers are not negative |
| `StateObjects.SameObjectIff` | src/ray/klein/state/checkpoint_layout.py:61-81 | two writes go to one object exactly when job, operator, key group and scope agree, and the checkpoint if exclusive, and the payload if shared, or else the version and sixteen digits of the digest |
| `StateObjects.ReadTellsDamage` | src/ray/klein/state/file_system_checkpoint_store.py:113-124 | whatever happened to the files, reading through the entry of a write returns its payload or tells a missing object, another length or other bytes |
| `DigestCollisions.SecondWriteUnreadable` | src/ray/klein/state/checkpoint_layout.py:61-81 | for every hexadecimal digest there are two payloads such that the second one written returns an entry that cannot be read |
| `CheckpointLaws.ReadBack` | src/ray/klein/state/file_system_checkpoint_store.py:153-170 | committed metadata is read back as the stored manifest |
| `CheckpointLaws.DiscoverableIsComplete` | src/ray/klein/state/file_system_checkpoint_store.py:153-170 | every discoverable manifest has all its state objects |
| `CheckpointLaws.DeleteKeepsSound` | src/ray/klein/state/file_system_checkpoint_store.py:138-142 | deleting a checkpoint takes nothing from the others |
| `CheckpointLaws.CrashSafety` | src/ray/klein/state/file_system_checkpoint_store.py:38-151 | whatever calls are made and wherever crashes stop them, every discoverable manifest has its objects, given that manifests own their exclusive state |
| `CheckpointLaws.DeletionSafeIff` | src/ray/klein/state/file_system_checkpoint_store.py:138-142 | a deletion leaves all manifests complete exactly when no other checkpoint's manifest lists an object in the deleted directory |
| `CheckpointRetention.MetadataIsWriteOnce` | src/ray/klein/state/file_system_checkpoint_store.py:70-80 | metadata that is there keeps its bytes in every state any call passes through |
| `CheckpointRetention.RecommitIff` | src/ray/klein/state/file_system_checkpoint_store.py:73-76 | committing an id again succeeds exactly for the same metadata, and a refusal changes nothing |
| `CheckpointRetention.SecondCommitIff` | src/ray/klein/state/file_system_checkpoint_store.py:64-85 | after a commit, a manifest with the same id is accepted exactly when it would be stored as the same one |
| `CheckpointRetention.CommitResumes` | src/ray/klein/state/file_system_checkpoint_store.py:64-85 | after a crash anywhere in a commit, committing again leads to the files of an uninterrupted one |
| `CheckpointRetention.CompletedIff` | src/ray/klein/state/file_system_checkpoint_store.py:126-136 | the scan finds exactly the ids whose metadata exists |
| `CheckpointRetention.NewestReadableIs` | src/ray/klein/state/file_system_checkpoint_store.py:103-111 | recovery skips unreadable metadata and stops at the largest readable id |
| `CheckpointRetention.LatestFailsIff` | src/ray/klein/state/file_system_checkpoint_store.py:87-111 | recovery raises exactly without a job id, or when the pointer is JSON but not an object, or an object of this format with an infinite id |
| `CheckpointRetention.NumberPointerFails` | src/ray/klein/state/file_system_checkpoint_store.py:90-99 | whatever is committed, a pointer that holds the number 5 makes recovery raise |
| `CheckpointRetention.LatestIsHighestCommitted` | src/ray/klein/state/file_system_checkpoint_store.py:87-111 | otherwise `latest` is the highest committed checkpoint, whatever the pointer holds |
| `CheckpointRecovery.FirstCommitIff` | src/ray/klein/state/file_system_checkpoint_store.py:64-80 | the first commit of an id succeeds exactly when every object it lists is there |
| `CheckpointRecovery.CommitRefusal` | src/ray/klein/state/file_system_checkpoint_store.py:64-76 | a refused commit writes nothing and names the first entry whose object is missing; with all objects there only different metadata is refused |
| `CheckpointRecovery.CommitOrder` | src/ray/klein/state/file_system_checkpoint_store.py:70-85 | after any of its writes a commit has changed no file but the metadata and the pointer, and the pointer only once the metadata is there |
| `CheckpointRecovery.PointerAfterCommit` | src/ray/klein/state/file_system_checkpoint_store.py:81-85 | after a commit the pointer decodes to the object with the format version and the id, and recovery reads the committed id from it |
| `CheckpointRecovery.PointerReads` | src/ray/klein/state/file_system_checkpoint_store.py:90-99 | what the reader makes of each kind of id in a pointer object, and that any other object is passed over |
| `CheckpointRecovery.TruncatesTowardsZero` | src/ray/klein/state/file_system_checkpoint_store.py:95 | a float id loses its fraction towards zero |
| `CheckpointRecovery.CommitCompletes` | src/ray/klein/state/file_system_checkpoint_store.py:77-85 | from the first write on, the completed ids are those of before and the committed one |
| `CheckpointRecovery.LatestAfterCrash` | src/ray/klein/state/file_system_checkpoint_store.py:64-111 | wherever a crash stops a commit, recovery finds what it found before, or, once the metadata is written, the manifest of the highest completed id, which is the stored one for the committed id |
| `CheckpointRecovery.LatestAfterCommit` | src/ray/klein/state/file_system_checkpoint_store.py:64-111 | after a successful commit `latest` is the manifest of the highest id among the committed ones and this one, whatever the pointer held before |
| `CheckpointRecovery.OtherJobsUnaffected` | src/ray/klein/state/file_system_checkpoint_store.py:64-111 | a commit changes nothing of what recovery and the listing find for other jobs |
| `CheckpointRetention.CleanupKeepsNewestIff` | src/ray/klein/state/file_system_checkpoint_store.py:144-151 | exactly the r newest checkpoints remain if and only if they fill no more than r entries of the listing |
| `CheckpointRetention.NewestSurvivesIff` | src/ray/klein/state/file_system_checkpoint_store.py:144-151 | the newest checkpoint survives exactly when at most r directories denote it |
| `CheckpointRetention.StrayDirectoryLosesCheckpoint` | src/ray/klein/state/file_system_checkpoint_store.py:126-151 | with a stray `chk-007`, keeping one checkpoint deletes the only one |
| `CheckpointRetention.CleanupKeepsNewest` | src/ray/klein/state/file_system_checkpoint_store.py:144-151 | without stray directories exactly the r newest remain and recovery finds the same manifest |
| `StateObjects.CleanupRefusedIff` | src/ray/klein/state/file_system_checkpoint_store.py:144-151 | a cleanup is refused exactly without a job id or a positive number to retain, and then deletes nothing |
| `ObjectStoreRegistry.ObjectStoreStateBackend.Commit` | src/ray/klein/state/object_store_state_backend.py:33-61 | puts the value only when a version is created; replays and conflicts change nothing |
| `ObjectStoreRegistry.ObjectStoreStateBackend.CommitRef` | src/ray/klein/state/object_store_state_backend.py:63-85 | as commit, for a value that is already stored |
| `ObjectStoreRegistry.ObjectStoreStateBackend.BeginSnapshot` | src/ray/klein/state/object_store_state_backend.py:87-103 | pins the current handles in partition order, or returns the snapshot of the same epoch |
| `ObjectStoreRegistry.ObjectStoreStateBackend.ReleaseSnapshot` | src/ray/klein/state/object_store_state_backend.py:105-108 | drops exactly that snapshot |
| `ObjectStoreRegistry.ObjectStoreStateBackend.RestoreHot` | src/ray/klein/state/object_store_state_backend.py:110-114 | the last handle of each partition becomes current and the snapshot is retained |
| `ObjectStoreRegistry.VersionsAdvance` | src/ray/klein/state/object_store_state_backend.py:124-167 | between hot restores, over all interleavings, a partition's versions grow by exactly one and its input sequences strictly increase |
| `ObjectStoreRegistry.ReplayIff` | src/ray/klein/state/object_store_state_backend.py:135-138 | a call replays exactly when its version and sequence are the current handle's, whatever value it carries |
| `CommitLaws.CommitAnswers` | src/ray/klein/state/object_store_state_backend.py:33-167 | the exact condition, in version and sequence alone, of each answer to a commit: a new version with its own reference and size, a replay, and each of the three errors |
| `CommitLaws.VersionAndSequence` | src/ray/klein/state/object_store_state_backend.py:135-167 | a partition begins at version 0; a commit moves version and sequence to what it asked for |
| `CommitLaws.SuccessiveRequestsCreate` | src/ray/klein/state/object_store_state_backend.py:33-167 | from any well-formed registry, with any other calls in between, n successive requests for one partition create n versions, each with its own reference |
| `CommitLaws.PerformCall` | src/ray/klein/state/object_store_state_backend.py:33-114 | each step of a run is a call on the backend |
| `ObjectStoreRegistry.OtherValueDropped` | src/ray/klein/state/object_store_state_backend.py:33-61 | a second client's other value under the same version and sequence is answered with the first handle |
| `ObjectStoreRegistry.AnsweredOnce` | src/ray/klein/state/object_store_state_backend.py:33-61 | a retry is answered by the committed handle or by a conflict, never by a new version; at once when nothing was committed since |
| `ObjectStoreRegistry.ExactlyOnce` | src/ray/klein/state/object_store_state_backend.py:33-167 | all successful answers to one request are one handle, and only one call created it |
| `ObjectStoreRegistry.SnapshotPinned` | src/ray/klein/state/object_store_state_backend.py:87-108 | a begun snapshot keeps its handles until released or replaced |
| `ObjectStoreRegistry.BeginAgain` | src/ray/klein/state/object_store_state_backend.py:90-96 | beginning again returns the same snapshot, and another epoch is refused |
| `CommitLaws.BeginAnswers` | src/ray/klein/state/object_store_state_backend.py:87-103 | a snapshot begun for the first time lists each current handle once in partition order; a known id with another epoch, and a negative id or epoch, are refused |
| `CommitLaws.ReleaseForgets` | src/ray/klein/state/object_store_state_backend.py:105-108 | a released snapshot is gone, and only that one; its id can be begun again with any epoch |
| `CommitLaws.RestoreAnswers` | src/ray/klein/state/object_store_state_backend.py:110-114 | a hot restore makes the last handle of each partition current, and no others, and retains the snapshot |
| `ObjectStoreRegistry.RestoreUndoesCommits` | src/ray/klein/state/object_store_state_backend.py:87-114 | a hot restore brings back exactly the handles current when the snapshot was begun |
| `Submission.KleinContext.Begin` | src/ray/klein/api/klein_context.py:709-714 | the first locked section selects and marks sinks, or refuses without a change |
| `Submission.KleinContext.Finish` | src/ray/klein/api/klein_context.py:724-726 | success removes the submitted sinks from the pending and in-flight ones |
| `Submission.KleinContext.Abandon` | src/ray/klein/api/klein_context.py:720-723 | failure frees the sinks and leaves them pending |
| `Submission.KleinContext.Execute` | src/ray/klein/api/klein_context.py:690-727 | undisturbed, a submission removes exactly the selected sinks on success and nothing otherwise |
| `Submission.KleinContext.AddSink` | src/ray/klein/api/klein_context.py:775-777 | adds a pending sink |
| `Submission.KleinContext.DiscardSink` | src/ray/klein/api/klein_context.py:779-783 | removes exactly that sink from the pending ones |
| `Submission.SelectedPending` | src/ray/klein/api/klein_context.py:755-773 | a selection holds pending sinks, each once, and a collecting terminal only by itself |
| `SelectionLaws.DefaultBeginIff` | src/ray/klein/api/klein_context.py:709-773 | without a selection everything pending is submitted, exactly when all of it is this pipeline's terminals, none is in flight and a collecting one is alone |
| `SelectionLaws.ExplicitBeginIff` | src/ray/klein/api/klein_context.py:709-773 | a selection is submitted as it is, exactly when it also names pending sinks only, each once |
| `SelectionLaws.BeginErrors` | src/ray/klein/api/klein_context.py:709-773 | the first requirement that a selection misses decides the error |
| `SelectionLaws.DefaultExecutionEmpties` | src/ray/klein/api/klein_context.py:709-727 | in every reachable state without a pending collecting terminal and with nothing in flight, default execution submits all that is pending, and a failure leaves everything as before |
| `SelectionLaws.PerformStep` | src/ray/klein/api/klein_context.py:709-783 | each step of the interleavings is a call or one locked section of a call on the context |
| `SelectionLaws.ExecuteEverything` | src/ray/klein/api/klein_context.py:690-727 | a context of side-effect sinks submits them all by default and is left with none, or with all of them after a failure |
| `SelectionLaws.RemovalIsFiltering` | src/ray/klein/api/klein_context.py:724-726 | removing sinks keeps the order and the multiplicity of the others |
| `Submission.SubmissionSafety` | src/ray/klein/api/klein_context.py:690-783 | over every interleaving flights are disjoint and make up the in-flight set, each sink is submitted at most once and is not pending afterwards, and none is lost |
| `Submission.FailedIsSelectableIff` | src/ray/klein/api/klein_context.py:720-723 | a failed submission can be submitted again at once exactly when none of its sinks was discarded |
| `Submission.DiscardedInFlight` | src/ray/klein/api/klein_context.py:709-783 | a run in which a sink is discarded in flight and selecting it after the failure is refused |
| `Submission.FlightStaysPending` | src/ray/klein/api/klein_context.py:709-726 | while a submission is in flight, other callers cannot remove its sinks from the pending ones except by discarding them |
| `Statements.Pipeline.Execute` | src/ray/klein/api/pipeline.py:92-106 | plain execution refuses owned sinks and otherwise submits the selection |
| `SelectionLaws.PlainDefaultIff` | src/ray/klein/api/pipeline.py:92-106 | plain execution of everything pending succeeds exactly when no set owns a pending sink, the sinks are submittable and the client accepts; and the condition of each failure |
| `SelectionLaws.PlainExplicitIff` | src/ray/klein/api/pipeline.py:92-106 | the same for an explicit selection |
| `SelectionLaws.ExecutePipeline` | src/ray/klein/api/pipeline.py:92-106 | a pipeline of unowned side-effect sinks submits them all by default and is left with none |
| `Statements.StatementSet.Register` | src/ray/klein/api/statement_set.py:163-177 | registers a pending, unowned side-effect sink, or reports the first rule it breaks |
| `SelectionLaws.RegistersIff` | src/ray/klein/api/statement_set.py:163-177 | a sink is registered exactly when it is a pending, unowned side effect of this pipeline that is not listed; and the condition of each error |
| `Statements.StatementSet.Rollback` | src/ray/klein/api/statement_set.py:179-184 | takes what was added since a start out of the list, the owners and the pending sinks |
| `Statements.StatementSet.BuildTerminal` | src/ray/klein/api/pipeline.py:76-87 | a terminal built while the set is active is registered or discarded |
| `Statements.StatementSet.Add` | src/ray/klein/api/statement_set.py:61-88 | builds under capture and rolls back on a failure or any number of sinks but one |
| `Statements.StatementSet.Enter` | src/ray/klein/api/statement_set.py:134-144 | enters unless this or another set is active |
| `Statements.StatementSet.Exit` | src/ray/klein/api/statement_set.py:146-161 | rolls back to the size on entry after a failure, and always leaves the capture |
| `Statements.StatementSet.Execute` | src/ray/klein/api/statement_set.py:103-119 | submits the whole list and clears it, or changes nothing |
| `StatementLaws.SetExecutesIff` | src/ray/klein/api/statement_set.py:103-119 | a set is executed exactly when its scope is left, it is not empty, owns what it lists, its list is submittable and the client accepts; and the condition of each failure |
| `StatementLaws.SetExecutionLeaves` | src/ray/klein/api/statement_set.py:103-119 | an executed set is empty and its sinks neither pending nor owned; after any failure all is as before |
| `StatementLaws.RollbackLeaves` | src/ray/klein/api/statement_set.py:179-184 | a rollback takes exactly what was added since the start out of the list, the pending sinks and the owners |
| `StatementRuns.AddSucceedsIff` | src/ray/klein/api/statement_set.py:61-88 | `add` succeeds exactly for a builder that makes one side-effect sink and does not raise |
| `StatementLaws.AddFails` | src/ray/klein/api/statement_set.py:77-88 | `add` raises what the builder raised or a refused terminal, and else reports the number of sinks built when it is not one |
| `StatementRuns.FailedAddRestores` | src/ray/klein/api/statement_set.py:77-88 | a failing `add` leaves the set, the pending sinks and all owners as they were |
| `StatementRuns.FailedScopeRestores` | src/ray/klein/api/statement_set.py:134-161 | a failing scope restores the list it was entered with and leaves nothing captured in it pending or owned |
| `StatementRuns.PlainSparesOwned` | src/ray/klein/api/pipeline.py:92-106 | undisturbed, plain execution submits no owned sink |
| `StatementRuns.OwnershipOverRuns` | src/ray/klein/api/statement_set.py:61-184 | in every run of one thread tokens and lists agree for all sets, so sets are disjoint, and sets hold only pending sinks |
| `StatementRuns.ExecuteSucceedsIff` | src/ray/klein/api/statement_set.py:103-119 | an undisturbed set is submitted exactly when it is left, non-empty and accepted, and its sinks are then neither pending nor owned |
| `StatementThreads.BaseOverRuns` | src/ray/klein/api/klein_context.py:709-727 | over every interleaving of all threads' steps flights are disjoint and marked in flight, and what a set has submitted is neither pending nor in flight again |
| `StatementThreads.StepAgreesIff` | src/ray/klein/api/statement_set.py:103-184 | a step keeps tokens equal to list membership, lists pending and snapshots apart exactly when it does not submit or discard an owned sink, clear an unsubmitted one or write a registration whose checks are stale |
| `StatementThreads.AgreesOverRunsIff` | src/ray/klein/api/statement_set.py:103-184 | in every run of all threads tokens and lists agree at each moment exactly when no step interferes |
| `StatementSteps.RegisterSteps` | src/ray/klein/api/statement_set.py:163-177 | left alone, the check and the write of a registration are `_register` |
| `StatementSteps.BuildSteps` | src/ray/klein/api/pipeline.py:76-87 | left alone, building, capturing and registering or discarding a new terminal are `_finalize_sink` |
| `StatementSteps.PlainSteps` | src/ray/klein/api/pipeline.py:92-106 | left alone, the owner check, the two locked sections and the outcome are plain `execute` |
| `StatementSteps.SetSteps` | src/ray/klein/api/statement_set.py:103-119 | left alone, the check, the two locked sections, the outcome and the clearing are the set's `execute` |
| `StatementRaces.PlainSubmitsOwnedIff` | src/ray/klein/api/pipeline.py:104-106 | whatever happens after the owner check, for every selection and the default one, an owned sink is in flight exactly when one of the selected was registered since and not taken back |
| `StatementRaces.ClearingOrphansIff` | src/ray/klein/api/statement_set.py:110-119 | clearing orphans a sink exactly when one outside the snapshot was registered with the set since and not taken back |
| `StatementRaces.CaptureDiscardsOwnedIff` | src/ray/klein/api/pipeline.py:76-87 | a refused new terminal is discarded although pending and owned exactly when another thread registered it since it was created and neither took it back nor submitted it |
| `StatementRaces.StaleRegistrationIff` | src/ray/klein/api/statement_set.py:163-177 | from the moment its checks pass, a registration's writes break the agreement exactly when another thread registered the sink since, or submitted or discarded it |
| `StatementRaces.OwnedSinkSubmitted` | src/ray/klein/api/pipeline.py:104-106 | a run from nothing in which default execution submits a sink that a set owns, and the set is then refused |
| `StatementRaces.OwnedSinkDiscarded` | src/ray/klein/api/pipeline.py:76-87 | a run from nothing in which a scope discards a sink that a set lists, and the set is then refused |
| `StatementRaces.SinkInTwoSets` | src/ray/klein/api/statement_set.py:163-177 | a run from nothing in which two threads add one sink to two sets, and one of the sets can no longer be executed |
| `StatementRaces.OrphanArises` | src/ray/klein/api/statement_set.py:110-119 | a run from nothing that ends in an orphan, which stays one in every continuation |
| `StatementRaces.OrphanForever` | src/ray/klein/api/pipeline.py:142-155 | whatever all threads do, an orphan stays pending, owned and unlisted, cannot be registered or selected, and blocks default execution |
| `SqlMeaning.QualifiedColumn` | src/ray/klein/_internal/sql/expression.py:57-68 | a qualified column that is a key of the row has the value of that key, whatever other columns there are |
| `SqlMeaning.PlainColumn` | src/ray/klein/_internal/sql/expression.py:62-70 | otherwise, or without a qualifier, the key with the plain name decides |
| `SqlMeaning.SuffixColumn` | src/ray/klein/_internal/sql/expression.py:69-74 | with neither key, the one key that qualifies the name decides; with none or several the column is an error |
| `SqlMeaning.NotTable` | src/ray/klein/_internal/sql/expression.py:119-126 | exactly when a negation fails, is NULL, true or false |
| `SqlMeaning.AndTable` | src/ray/klein/_internal/sql/expression.py:193-205 | exactly when a conjunction fails, is NULL, true or false: false wins over NULL but not over an error |
| `SqlMeaning.OrTable` | src/ray/klein/_internal/sql/expression.py:208-220 | the same for a disjunction, where true wins over NULL |
| `SqlMeaning.KleeneLogic` | src/ray/klein/_internal/sql/expression.py:119-220 | on booleans and NULL the three operators are least, greatest and mirror on false < unknown < true |
| `SqlMeaning.DeMorgan` | src/ray/klein/_internal/sql/expression.py:119-220 | De Morgan's laws and double negation hold, also with NULLs |
| `SqlMeaning.IsNullTable` | src/ray/klein/_internal/sql/expression.py:223-233 | `IS NULL` is true exactly for NULL and never NULL itself |
| `SqlMeaning.InTable` | src/ray/klein/_internal/sql/expression.py:250-265 | `IN` is NULL for a NULL needle, else fails with a failing choice, is true for an equal one, NULL when only NULL speaks against false, and false otherwise |
| `SqlMeaning.CoalesceTable` | src/ray/klein/_internal/sql/expression.py:285-296 | the answer of the first candidate that is not NULL, be it an error; NULL when all are |
| `SqlMeaning.CaseTable` | src/ray/klein/_internal/sql/expression.py:402-416 | the outcome of the first branch taken, an error when a condition before it fails, and the default or NULL when none is taken |
| `SqlMeaning.StrictTable` | src/ray/klein/_internal/sql/expression.py:137-189 | a NULL-strict operator fails with any failing operand, is NULL with any NULL one, and otherwise applies to the values |
| `SqlMeaning.ScalarTable` | src/ray/klein/_internal/sql/expression.py:418-435 | a user function is called on its arguments' values, NULLs included, whenever all of them answer |
| `SqlMeaning.AtomTable` | src/ray/klein/_internal/sql/expression.py:34-107 | constants and parentheses answer what they hold; a star or an AI call has no value in a row |
| `SqlMeaning.NamesIff` | src/ray/klein/_internal/sql/expression.py:34-448 | an expression names exactly the columns that stand anywhere in it |
| `SqlExpressions.ColumnUnaffected` | src/ray/klein/_internal/sql/expression.py:57-74 | a column lookup, qualified or by suffix, does not see an undotted column of another name |
| `SqlExpressions.Unaffected` | src/ray/klein/_internal/sql/expression.py:34-448 | an expression evaluates alike before and after a column it does not name is added or replaced |
| `AiProjections.AiProjectionPlan` | src/ray/klein/_internal/sql/ai_function_execution.py:181-210 | the loop yields the recursive plan, with the same errors |
| `ProjectionLaws.PlanSucceedsIff` | src/ray/klein/_internal/sql/ai_function_execution.py:181-210 | a list can be planned exactly when every AI call in it is registered and has no argument that only Ray Data can evaluate |
| `ProjectionLaws.PlanErrorIs` | src/ray/klein/_internal/sql/ai_function_execution.py:191-206 | the first call that cannot be planned decides the error, native arguments before a missing registration |
| `ProjectionLaws.ComputedOnce` | src/ray/klein/_internal/sql/ai_function_execution.py:194-207 | no call is computed twice, however often the list has it |
| `ProjectionLaws.OutputNameTable` | src/ray/klein/_internal/sql/ai_function_execution.py:208 | an output is named by its alias, else by its expression's own name, else by its text, and never by nothing |
| `AiProjections.ResultSequence` | src/ray/klein/_internal/sql/ai_function_execution.py:213-219 | accepts exactly a sequence with one result for each call |
| `AiProjections.Prepare` | src/ray/klein/_internal/sql/ai_function_execution.py:56-72 | collects the arguments of exactly the rows without a NULL argument, in row order |
| `AiProjections.Scatter` | src/ray/klein/_internal/sql/ai_function_execution.py:74-85 | puts each answer at its row and NULL elsewhere |
| `AiProjections.ApplyBatch` | src/ray/klein/_internal/sql/ai_function_execution.py:88-102 | the prepared calls, the backend and the scattered answers fail exactly when the call fails on some row, and otherwise add the NULL-strict value of every row |
| `AiProjections.BatchIsRowwise` | src/ray/klein/_internal/sql/ai_function_execution.py:56-102 | read row by row, a processed batch is the single-row step |
| `ProjectionLaws.AiValueTable` | src/ray/klein/_internal/sql/ai_function_execution.py:63-67 | an AI call on a row fails with a failing argument, is NULL with a NULL one, and else the backend's answer |
| `ProjectionLaws.EmptyBatch` | src/ray/klein/_internal/sql/ai_function_execution.py:58-61 | a batch without columns has no rows |
| `ProjectionLaws.ProjectIff` | src/ray/klein/_internal/sql/execution.py:66-91 | without stars a row is projected exactly when output names differ and all values can be computed, and then has each value under its name in order |
| `ProjectionLaws.PlainEntry` | src/ray/klein/_internal/sql/execution.py:93-107 | a star copies an undotted entry, and a qualified star does not |
| `ProjectionLaws.QualifiedEntry` | src/ray/klein/_internal/sql/execution.py:93-107 | a joined table's entry loses its qualifier unless the short name is taken; `*` omits it when the row has the short name, and `t.*` when it is another table's |
| `ProjectionLaws.ReservedEntry` | src/ray/klein/_internal/sql/execution.py:95-97 | no star shows a reserved column |
| `ProjectionLaws.SelectStar` | src/ray/klein/_internal/sql/execution.py:76-107 | `SELECT *` from a single table is the row |
| `AiRewrite.PlanIsMeaningful` | src/ray/klein/_internal/sql/ai_function_execution.py:181-210 | every computation is a call of the query, and every rewritten projection reads the column of its own call |
| `AiRewrite.RunFills` | src/ray/klein/_internal/sql/ai_function_execution.py:118-146 | running the computations in order succeeds exactly when every call does on the original row, and fills every column with its value |
| `AiRewrite.RunKeepsStars` | src/ray/klein/_internal/sql/execution.py:93-107 | star projections expand alike on the extended row |
| `AiRewrite.RewritePreservesRow` | src/ray/klein/_internal/sql/ai_function_execution.py:118-210 | planned execution fails on a row exactly when direct evaluation does, and otherwise yields the same output row |
| `AiBatches.StagesAreRowwise` | src/ray/klein/_internal/sql/ai_function_execution.py:126-146 | computing stage by stage over all rows is computing row by row |
| `AiBatches.BatchesAreRowwise` | src/ray/klein/_internal/sql/ai_function_execution.py:88-102 | however rows are split, running the batch function on each batch and joining the rows is the single-row step on every row |
| `AiBatches.BatchingIrrelevant` | src/ray/klein/_internal/sql/ai_function_execution.py:126-146 | whichever way each stage splits the rows into batches, the batched run is the run row by row |
| `AiBatches.BySizeSplits` | src/ray/klein/_internal/sql/ai_function_execution.py:141-142 | splitting by a batch size is one of those ways |
| `AiBatches.RewritePreservesQuery` | src/ray/klein/_internal/sql/ai_function_execution.py:118-210 | the rewrite, run in batches, preserves the result of a query on every table |
| `JsonPaths.JsonPath` | src/ray/klein/_internal/sql/builtin_expression.py:384-422 | the parsing loop yields the recursive reading of the path |
| `JsonPaths.PathRoundTrip` | src/ray/klein/_internal/sql/builtin_expression.py:384-422 | printing keys, subscripts and wildcards and parsing the text returns the same parts |
| `JsonPaths.DottedKeyIff` | src/ray/klein/_internal/sql/builtin_expression.py:406-416 | a key after a dot is read as itself exactly when it is non-empty, has no delimiter and is not the wildcard |
| `JsonMeaning.InvalidAt` | src/ray/klein/_internal/sql/builtin_expression.py:384-422 | a character that begins no part, a dot without a key, a bracket without its end or around an unreadable text make a path invalid |
| `JsonMeaning.BracketedKey` | src/ray/klein/_internal/sql/builtin_expression.py:384-397 | in brackets and quotes any key without a quote, backslash, line end or closing bracket is read as itself |
| `JsonMeaning.Stripped` | src/ray/klein/_internal/sql/builtin_expression.py:384-397 | white space around the text in brackets does not matter |
| `JsonPaths.ExtractJson` | src/ray/klein/_internal/sql/builtin_expression.py:454-474 | the frontier loop yields what the recursive meaning of the path selects |
| `JsonMeaning.KeySelects` | src/ray/klein/_internal/sql/builtin_expression.py:446-451 | a key selects the value of the field with that key, and nothing from anything but an object that has it |
| `JsonMeaning.SubscriptSelects` | src/ray/klein/_internal/sql/builtin_expression.py:446-451 | a subscript selects the element at its position, counted from the end when negative, and only from lists that have it |
| `JsonMeaning.WildcardSelects` | src/ray/klein/_internal/sql/builtin_expression.py:454-469 | a wildcard selects the elements of a list or the values of an object in order, and nothing from other values |
| `JsonMeaning.PathSelects` | src/ray/klein/_internal/sql/builtin_expression.py:454-474 | a path selects what its rest selects from each value of its first part |
| `JsonMeaning.ExtractedIs` | src/ray/klein/_internal/sql/builtin_expression.py:454-474 | extraction is missing exactly when nothing is selected, with a wildcard the list of all that is selected, and otherwise the one value |
| `JsonPaths.AtMostOne` | src/ray/klein/_internal/sql/builtin_expression.py:454-474 | without a wildcard at most one value is selected |
| `JsonPaths.PathsCompose` | src/ray/klein/_internal/sql/builtin_expression.py:454-474 | following one path after another is following their concatenation |
| `JsonPaths.NegativeSubscript` | src/ray/klein/_internal/sql/builtin_expression.py:446-451 | a negative subscript counts from the end, down to the first element |
| `SlidingWindows.NewSliding` | src/ray/klein/api/sliding_window.py:10-18 | accepts exactly positive sizes and slides and normalises the offset |
| `SlidingWindows.AssignWindows` | src/ray/klein/api/sliding_window.py:20-27 | the loop yields the windows from the last start downwards |
| `SlidingWindows.WindowsExact` | src/ray/klein/api/sliding_window.py:20-27 | the windows are exactly those aligned with the offset that contain the timestamp, negative timestamps and gaps included |
| `SlidingWindows.AssignedWindows` | src/ray/klein/api/sliding_window.py:10-27 | in the constructor's arguments: exactly the windows of the size that contain the timestamp and start a whole number of slides from the offset |
| `SlidingWindows.WindowsDescend` | src/ray/klein/api/sliding_window.py:20-27 | they come latest first and without repetition |
| `SlidingWindows.WindowCount` | src/ray/klein/api/sliding_window.py:20-27 | their exact number, which is size divided by slide when that is whole |
| `SlidingWindows.TumblingIsSliding` | src/ray/klein/api/tumbling_window.py:13-15 | with size equal to slide the one window is the tumbling window |
| `SlidingWindows.AssignedWindow` | src/ray/klein/api/tumbling_window.py:13-15 | the tumbling window has the given size and alignment and contains the timestamp |
| `OperatorTree.RootsAre` | src/ray/klein/observability/progress_view.py:329-335 | the roots are exactly the operators that nobody targets, each once |
| `TreePrefixes.RootIff` | src/ray/klein/observability/progress_view.py:329-335 | an operator is a root exactly when its id is nobody's target |
| `OperatorTree.RootsAscend` | src/ray/klein/observability/progress_view.py:329-335 | the roots come in the order of their ids |
| `TreePrefixes.LastOfId` | src/ray/klein/observability/progress_view.py:320 | an id stands for the last operator that has it |
| `TreePrefixes.KnownInOrder` | src/ray/klein/observability/progress_view.py:362 | children are the known targets in the order of the targets |
| `TreePrefixes.PrefixesShowDescents` | src/ray/klein/observability/progress_view.py:307-372 | every row is the end of a descent from a root, and its prefix has a blank or a line for each step but the last, by whether a last child was taken, and the branch of the last |
| `TreePrefixes.UnreachedPlain` | src/ray/klein/observability/progress_view.py:337-344 | operators without a row in the tree follow without a prefix |
| `OperatorTree.AppendTreeRows` | src/ray/klein/observability/progress_view.py:346-372 | the recursion ends on every graph and does what a preorder work list does, prefixes included |
| `OperatorTree.TreeOrder` | src/ray/klein/observability/progress_view.py:307-328 | the depth-first rows followed by the operators without a row |
| `OperatorTree.WalkCloses` | src/ray/klein/observability/progress_view.py:346-372 | everything to visit is entered and what is entered is closed under known targets |
| `OperatorTree.RowsAreReachable` | src/ray/klein/observability/progress_view.py:307-372 | with distinct ids the depth-first rows are exactly the operators reachable from the roots |
| `OperatorTree.ResultIsPermutation` | src/ray/klein/observability/progress_view.py:307-344 | on every graph, cyclic or malformed, every operator is listed exactly once |

## Left out

- KeyedHistory.RunsAreHistory: cleanups in the runs are unlimited; a limited one depends on the other values too and is the subject of CleanupTakesEarliest and LimitedCleanupAgreesIff.
- MemoryBackend.MemoryStateBackend.Get: clock readings and TTLs are parameters below 2^62 milliseconds, so that the additions cannot leave 64 bits.
- RescaleProcedure.RescaleBackends: the watermark of the shares goes to the timer services, which are not part of this method.
- RocksDbBackend.RocksDbStateBackend.RestoreKeyGroups: building the new database beside the old one and swapping the directories is one step that does not fail; the metadata family, empty in snapshots, is absent.
- Timers.RegisteringTwice: speaks of which timers are pending; a second registration with an equal but different key object replaces the stored object.
- CheckpointLaws.CrashSafety: an object write and a directory delete are each atomic; a torn local write of a state object (it is not written through a temporary file) appears only through WriteThenRead, and a directory delete that stops halfway is not modelled. Calls of several processes do not interleave inside one commit, whose checks and write are separate steps in the source.
- CheckpointProtocol.ScanCounts: directory names are read as ASCII digits; the source's pattern also accepts other Unicode digits, and very long numerals make Python's `int` raise.
- Manifests.ManifestRoundTrip: ill-typed manifest fields that Python would accept (a float version, say) are rejected, and the text form of URIs, path normalisation and the job ids "." and ".." are left to the environment.
- A directory standing at a metadata path, which would make reading raise.
- Submission.SubmissionSafety: copying the configuration and constructing the client between the two locked sections are taken not to fail; a failure there would leave the sinks in flight.
- Statements.StatementSet.Add: a builder is a list of terminals built in order and a final outcome; builders that execute or leave the set themselves are not modelled.
- StatementRuns.OwnershipOverRuns: one thread and one execution context, with builders and nested scopes; runs of several threads are the subject of StatementThreads and StatementRaces.
- StatementThreads.AgreesOverRunsIff: an owner check, a rollback, a clearing, and the checks and the writes of a registration are one step each, although each is a few attribute reads or writes in the source.
- SqlExpressions.Unaffected: arithmetic, comparison, LIKE, casts and user functions are uninterpreted operators on evaluated operands; only their dependence on NULL, order and errors is modelled, and all errors are one.
- AiBatches.RewritePreservesQuery: queries that name a reserved result column are outside the theorem, since rewriting gives those names a meaning; conversion of values to and from columns is the identity, async backends answer as sync ones, and batches come back in order. A batch without columns does not know its number of rows, so tables without columns are outside.
- JsonPaths.ExtractJson: `None` stands both for a missing value and for a selected null; paths parsed by sqlglot enter as their parts.
- SlidingWindows.NewSliding: durations are given in whole milliseconds; their conversion from `timedelta` through floats is not modelled.
- OperatorTree.RowsAreReachable: with repeated ids only the permutation is stated; which of the namesakes has a row in the tree depends on list order.
- KeyEquality.CanonicalDecidesEquality: complex numbers, memoryviews, NaN, cyclic keys and other classes, which the code rejects or leaves to pickle, are not keys here; the cycle set of the canonicaliser is therefore absent.
- Whole-backend snapshots, tar archives and directory swaps.
- Envelope encoding by pickle and the restricted unpickler; payload fields enter decoded.
- Ray actors and datasets, job compilation, HTTP serving, the frontend and the command line.
- Configuration, option tables and dataclass validators beyond those the modelled operations depend on.
