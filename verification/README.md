# ZonKey verification model

ZonKey is a Telex input engine with a fail-closed edit protocol. This project
models three parts of it in Dafny and proves their safety properties.

**Durable recovery and at-most-once requests.** A bounded binary state file
with its own CRC-32 and SHA-256 (`Bytes`, `Crc32`, `Sha256`, `RecoveryCodec`;
`RecoveryLayout` gives its offsets, codes and errors, `Sha256Check` a published
digest), the registry of blocked targets and the write-through store over it
(`RecoveryRegistry`, `RecoveryStore`), and what every run of operations,
crashes, failed writes and restarts keeps (`StoreInvariant`, `StoreRuns`,
`StoreVerdicts`, `StoreLimits`). `StoreHolders` is the account of which targets
memory and file hold after every operation, for all names; `StoreEpochs` follows
the document epoch of a target through operations and restarts, and
`StoreErrors` says why an operation is refused, and `StoreOrder` what the order
of the records decides. The request ledger
is `RequestLedger`, and `LedgerSessions` says exactly what it remembers; the
crash-safe order of persist, execute, deliver and resolve is the state machine
in `Preflight`, and `PipeService` proves that the sequential server code is a
run of it. `ServedOutcomes` says which answers clear an intent and which
promote it. `Frames` is the framing layer on both ends.

**Compare and replace.** UTF-16 cutting and splicing (`Utf16`, `Boundary`),
the controlled-mutation harness with races and lost outcomes
(`MutationHarness`), and the editor host adapter with its canonical request
texts (`CanonicalJson`, `JsonTexts`, `HostRequests`, `HostAdapter`).

**Telex and decisions.** Composition as a rewriting fold (`Telex`), edit plans
(`TokenEdits`), the engine (`TelexEngine`), the decision processor with its
plan generations and handoffs (`Decisions`), what a run of observed keys amounts
to (`KeyRuns`), and the observe queue and service (`ObserveQueue`).

Each part follows the form of the code. Objects that update their fields are
classes whose methods are proved against a function on values, and the
theorems are about those functions and about every run of them. The state file
is a byte sequence; a durable write replaces it or leaves it, a crash may come
between any two steps, and delivery may fail.

What the proofs showed about the code:

- The decoder accepts records with a reversed range that the encoder refuses
  (`RecoveryCodec.ReEncodeIff`).
- The final size check of the encoder can never be the reason for a failure
  (`RecoveryCodec.EncodeSucceedsIff`).
- A written block outlives the restart whatever its URI and token
  (`StoreHolders.BlockSurvivesRestart`), and over every run it stays until an
  acknowledgement resolves to its entry, or a block or promotion of another
  target does (`StoreHolders.BlockedUntilOverwritten`). The second happens only
  between URIs with NUL or tokens that spell a stored hash
  (`StoreHolders.NamedEntriesAreAcknowledged`); exactly what is blocked after
  the next restart is `StoreHolders.BlockedAfterRestartIff`, and
  `StoreLimits.NulUriLosesBlock` and `StoreLimits.HashTokenReplacesBlock` are
  inputs that lose a block.
- A promotion can drop its intent when the capacity is below the record limit
  (`StoreLimits.SmallCapacityLosesIntent`); exactly when is
  `StoreLimits.PromoteOutcome`.
- A preflight under an id that is already pending succeeds without writing the
  new intent, so the handler runs without one unless the target was on record
  (`Preflight.OwnIntentIff`).
- The rejection of a request clears whatever intent is pending under its id.
  An executed request whose promotion was not written loses its intent that
  way once the ledger has forgotten its id: the target is free after the next
  restart (`Preflight.RejectionErasesExecutedIntent`, reached from a fresh
  server in `Preflight.ErasedWithinOneListener`). `Preflight.DischargeCauses`
  lists everything that can drop a target.
- A promotion whose write fails leaves its target unblocked in the running
  process and blocked on the next open
  (`Preflight.BlockedInProcessIffWritten`).
- The verdict rule is proved for targets whose salted hash no other token of
  the document shares (`StoreVerdicts.AcknowledgeFollowsVerdict`); with a
  second such token a readback of that one releases the target after a restart
  (`StoreVerdicts.CollidingVerdictReleases`).
- An id that left the ledger runs again: the ledger remembers the first pinned
  requests and, in the places they leave, the last evictable ones, and nothing
  else (`LedgerSessions.LedgerHolds`, `LedgerSessions.EvictedIdRunsAgain`).
- The harness joins request fields with U+0001 without escaping it. Exactly the
  requests without it in a text field are told apart from all others
  (`MutationHarness.CanonicalNamesRequestIff`).
- In the harness a commit that a race disturbed is answered ambiguous, except at
  the last version, where the counter stops and a race that leaves the text alone
  goes unnoticed (`MutationHarness.DisturbedCommit`,
  `MutationHarness.SaturatedRaceIsApplied`). Text and version at the end do not
  tell an applied request either: a race that makes the very edit leaves the
  same host and is answered ambiguous (`MutationHarness.EditByRaceIsAmbiguous`).
- A target that was blocked by an operator, or whose intent carried epoch zero,
  is bound to no document epoch after a restart (`StoreEpochs.BlockedEntry`,
  `StoreEpochs.ReopenedIsGated`).
- A target with an entry and a pending intent reloads as the intent: a verdict
  recorded for the entry is forgotten (`StoreOrder.IntentOutranksEntry`).
- The host request builder never answers that a handoff is stale: one of an
  older plan is a generation mismatch (`KeyRuns.RequestErrorIsFirstFailure`).
- A restore candidate that finds no generation left is not counted as a
  completed token (`Decisions.DiagnosticDecisionProcessor.Settle`).

Verify the whole project with `dafny verify dfyconfig.toml` (Dafny 4.11).

## Model

| member | source | states |
|---|---|---|
| `Crc32.ComputeChecksum` | crates/zonkey-service/src/recovery_codec.rs:252-262 | the masked byte and bit loops compute the reflected CRC-32 defined by recursion over the bytes |
| `Crc32.BitStepInjective` | crates/zonkey-service/src/recovery_codec.rs:256-259 | one bit step loses nothing: two registers that step to the same value were equal |
| `Crc32.BitStepsLinear` | crates/zonkey-service/src/recovery_codec.rs:254-260 | any number of bit steps commutes with exclusive or |
| `Crc32.FeedInjective` | crates/zonkey-service/src/recovery_codec.rs:252-262 | feeding the same bytes from different registers ends in different registers |
| `Crc32.FeedWord` | crates/zonkey-service/src/recovery_codec.rs:252-262 | feeding four bytes is mixing them in as one little-endian word and stepping 32 bits |
| `Crc32.FeedBurst` | crates/zonkey-service/src/recovery_codec.rs:252-262 | from any register, texts that differ only in a window of at most four bytes end in different registers |
| `Crc32.BurstDetected` | crates/zonkey-service/src/recovery_codec.rs:252-262 | two texts of equal length that differ only within four consecutive bytes have different checksums (section 8 of RFC 1952) |
| `Crc32.TrailerCheckIsResidue` | crates/zonkey-service/src/recovery_codec.rs:431-434 | a stored little-endian trailer matches the checksum exactly when the register over body and trailer is the fixed residue |
| `Crc32.CheckValue` | crates/zonkey-service/src/recovery_codec.rs:250-262 | the checksum of the digits "123456789" is the published check value CBF43926, and the trailer holds it lowest byte first |
| `Sha256.PadZeros` | crates/zonkey-service/src/recovery_codec.rs:184-187 | the number of zero bytes is the least one that brings the length to 56 modulo 64 (section 5.1.1 of FIPS 180-4) |
| `Sha256.PaddedIsWholeBlocks` | crates/zonkey-service/src/recovery_codec.rs:182-189 | the padded message is a whole number of 64-byte blocks |
| `Sha256.PaddingInjective` | crates/zonkey-service/src/recovery_codec.rs:182-188 | two messages below 2^61 bytes with the same padding are the same message |
| `Sha256.PadMessage` | crates/zonkey-service/src/recovery_codec.rs:182-188 | the padding loop terminates and produces exactly the padded message |
| `Sha256.FillSchedule` | crates/zonkey-service/src/recovery_codec.rs:190-205 | the in-place schedule holds the recursive message schedule of section 6.2.2 of FIPS 180-4 at every index |
| `Sha256.CompressBlock` | crates/zonkey-service/src/recovery_codec.rs:206-242 | the eight-variable loop computes the recursive compression of one block |
| `Sha256.ComputeDigest` | crates/zonkey-service/src/recovery_codec.rs:105-248 | padding, schedule and compression together compute the recursive SHA-256 digest |
| `Sha256Check.CubeRoots0` | crates/zonkey-service/src/recovery_codec.rs:106-171 | the first eight round constants are the first 32 fractional bits of the cube roots of the first eight primes; seven more lemmas say so of the other 56 (section 4.2.2 of FIPS 180-4) |
| `Sha256Check.SquareRoots` | crates/zonkey-service/src/recovery_codec.rs:172-181 | the initial hash value is the first 32 fractional bits of the square roots of the first eight primes (section 5.3.3 of FIPS 180-4) |
| `Sha256Check.DigestOfAbc` | crates/zonkey-service/src/recovery_codec.rs:105-248 | the digest of "abc", round by round, is the published one |
| `Sha256Check.BlocksChain` | crates/zonkey-service/src/recovery_codec.rs:189-242 | each block is compressed into the hash value of all blocks before it, whatever follows |
| `Sha256Check.SaltComesFirst` | crates/zonkey-service/src/recovery_codec.rs:92-99 | a salted hash is the digest of the salt followed by the text |
| `Bytes.LeBytesOfValue` | crates/zonkey-service/src/recovery_codec.rs:264-303 | reading a little-endian field and writing its value back gives the same bytes |
| `Bytes.LeValueOfBytes` | crates/zonkey-service/src/recovery_codec.rs:264-303 | writing a value that fits and reading it back gives the same value |
| `Bytes.HexInjective` | crates/zonkey-service/src/transport.rs:954-961 | the hexadecimal text of bytes determines them |
| `RecoveryLayout.HexText` | crates/zonkey-service/src/transport.rs:954-961 | byte i is the two lowercase digits at 2i and 2i+1, the high one first |
| `RecoveryLayout.LittleEndian` | crates/zonkey-service/src/recovery_codec.rs:264-303 | two, four and eight byte fields have their lowest byte first |
| `RecoveryCodec.DecodeRecordIff` | crates/zonkey-service/src/recovery_codec.rs:449-521 | a record is read at an offset exactly when it is within its bounds and its layout bytes stand there, and the cursor moves by their length |
| `RecoveryCodec.EncodeSucceedsIff` | crates/zonkey-service/src/recovery_codec.rs:323-389 | encoding fails exactly on a record cap, so the final total-size check is never the reason |
| `RecoveryCodec.DecodeSound` | crates/zonkey-service/src/recovery_codec.rs:400-447 | whatever is accepted is, byte for byte, the layout of the returned salt and records, which are within bounds |
| `RecoveryCodec.DecodeComplete` | crates/zonkey-service/src/recovery_codec.rs:400-447 | the layout of any bounded salt and records is accepted and gives them back |
| `RecoveryCodec.DecodeIff` | crates/zonkey-service/src/recovery_codec.rs:400-447 | both directions at once: decoding returns a file exactly for its layout bytes |
| `RecoveryCodec.RoundTrip` | crates/zonkey-service/src/recovery_codec.rs:323-447 | decoding an encoded file returns exactly its salt and records |
| `RecoveryCodec.ReEncodeIff` | crates/zonkey-service/src/recovery_codec.rs:323-521 | an accepted file re-encodes to the same bytes exactly when no record has a reversed range |
| `RecoveryCodec.ReversedRangeIsAcceptedButNotEncodable` | crates/zonkey-service/src/recovery_codec.rs:340-342 | there is an accepted file that the encoder refuses, because only the encoder checks the range order |
| `RecoveryCodec.DamagedFileRejected` | crates/zonkey-service/src/recovery_codec.rs:431-434 | an accepted file changed anywhere within four consecutive bytes, header and trailer included, is rejected |
| `RecoveryCodec.AcceptedFilesArePrefixFree` | crates/zonkey-service/src/recovery_codec.rs:419-430 | no accepted file is a strict prefix of another, so truncations and extensions are rejected |
| `RecoveryCodec.AppendRecord` | crates/zonkey-service/src/recovery_codec.rs:332-372 | the push sequence appends exactly the layout of one record |
| `RecoveryCodec.EncodeFile` | crates/zonkey-service/src/recovery_codec.rs:323-391 | the encoding loop with its checks computes the encoding, with the same failures |
| `RecoveryCodec.DecodeAllRecords` | crates/zonkey-service/src/recovery_codec.rs:438-442 | the record loop with its moving cursor computes the recursive reading of all records |
| `RecoveryCodec.DecodeFile` | crates/zonkey-service/src/recovery_codec.rs:400-447 | the statement sequence computes the decoding, with the same failures in the same order |
| `RecoveryLayout.RecordLayout` | crates/zonkey-service/src/recovery_codec.rs:332-372 | every field of a written record stands at its offset: lengths, range, hashes, state and verdict codes, generation, epoch and request id |
| `RecoveryLayout.FileLayout` | crates/zonkey-service/src/recovery_codec.rs:373-391 | a written file is the magic "ZNKYREC1", version 2, salt, record count, payload length, payload and checksum at their offsets |
| `RecoveryLayout.FileErrorIsFirstFailure` | crates/zonkey-service/src/recovery_codec.rs:400-447 | every file is refused with the error of its first failing check, in the order size, magic, version, count, length, checksum; past them the payload decides |
| `RecoveryLayout.RecordErrorIsFirstFailure` | crates/zonkey-service/src/recovery_codec.rs:449-521 | a record is refused with the error of its first failing check, and read if all pass |
| `RecoveryLayout.RecordsErrorIff` | crates/zonkey-service/src/recovery_codec.rs:438-442 | the payload is refused with an error exactly when its first unreadable record has it |
| `RecoveryLayout.PayloadErrorIff` | crates/zonkey-service/src/recovery_codec.rs:436-446 | and otherwise as malformed exactly when bytes follow the last record |
| `RecoveryRegistry.RegistryObject.FromRecords` | crates/zonkey-service/src/transport.rs:728-763 | restoring pushes every record, repeated keys included, and yields the registry of the records in order |
| `RecoveryRegistry.RegistryObject.Resolve` | crates/zonkey-service/src/transport.rs:793-801 | a live pair resolves to its plain key or, if only the hash key is stored, to that |
| `RecoveryRegistry.RegistryObject.BlockTarget` | crates/zonkey-service/src/transport.rs:814-844 | blocking overwrites a stored target or adds one unless the registry is full, and a refusal changes nothing |
| `RecoveryRegistry.RegistryObject.ReconcileTarget` | crates/zonkey-service/src/transport.rs:879-916 | reconciling binds the session, records the verdict and returns it, or refuses with the matching error |
| `RecoveryRegistry.RegistryObject.AcknowledgeTarget` | crates/zonkey-service/src/transport.rs:924-951 | acknowledging removes a reconciled target from map and queue, or refuses with the matching error |
| `RecoveryStore.StateDisk.DurableWrite` | crates/zonkey-win/src/recovery_store.rs:119-155 | a durable write replaces the whole file or leaves the old bytes |
| `RecoveryStore.DurableRecoveryStore.OpenIn` | crates/zonkey-win/src/recovery_store.rs:169-233 | opening creates an absent file, restores a readable one, and poisons the store for every other outcome |
| `RecoveryStore.DurableRecoveryStore.PoisonedStore` | crates/zonkey-win/src/recovery_store.rs:209-233 | a poisoned store is empty and carries its reason |
| `RecoveryStore.DurableRecoveryStore.IsTargetBlocked` | crates/zonkey-win/src/recovery_store.rs:345-355 | a poisoned store answers blocked for every target, any other asks its registry |
| `RecoveryStore.DurableRecoveryStore.PerformOn` | crates/zonkey-win/src/recovery_store.rs:364-491 | each operation on the cloned registry and pending list has exactly the specified effect or failure |
| `RecoveryStore.DurableRecoveryStore.MutateState` | crates/zonkey-win/src/recovery_store.rs:295-324 | clone, mutate, encode, write, commit: memory, file and answer are those of the specified mutation for every operation and write outcome |
| `StoreErrors.OperationErrorIsFirstFailure` | crates/zonkey-win/src/recovery_store.rs:295-491 | for all names, every operation is refused with the reason of its first failing check, and past them cannot be written exactly if what it adds does not fit the caps |
| `StoreErrors.PoisonIsFirstFailure` | crates/zonkey-win/src/recovery_store.rs:169-233 | a store is poisoned with the reason of the first thing opening misses, is then empty, and a file is created only where there was none |
| `ServedOutcomes.OperatorSpelled` | crates/zonkey-win/src/recovery_store.rs:269-289 | blocked targets are written under the request id "operator" |
| `StoreInvariant.KeysDetermineNames` | crates/zonkey-service/src/transport.rs:786-788 | for URIs without NUL the joined key determines URI and token |
| `StoreInvariant.HashedKeysDetermineNames` | crates/zonkey-service/src/transport.rs:782-788 | a key ending in the hexadecimal text of a hash determines URI and hash, for every URI |
| `StoreInvariant.ResolveIsCanonical` | crates/zonkey-service/src/transport.rs:793-801 | in every invariant registry a live pair resolves to its canonical key, the hash key after a restart and the plain key before |
| `StoreInvariant.ResolvedEntryId` | crates/zonkey-service/src/transport.rs:793-801 | the entry a blocked pair resolves to names the same URI and salted token hash |
| `StoreInvariant.HashedIdIsBlocked` | crates/zonkey-service/src/transport.rs:782-801 | after a restart a pair is blocked exactly when some entry carries its URI and salted hash |
| `StoreInvariant.SnapshotIds` | crates/zonkey-win/src/recovery_store.rs:269-289 | for all names, a snapshot records a logical target exactly when an entry or a pending intent holds it |
| `StoreInvariant.RestoredInv` | crates/zonkey-service/src/transport.rs:728-763 | restoring records with NUL-free URIs gives an invariant registry of the given capacity, one queue slot per record |
| `StoreInvariant.RestoredIds` | crates/zonkey-service/src/transport.rs:728-763 | for all names, a restored registry holds exactly the recorded logical targets |
| `StoreInvariant.BlockKeeps` | crates/zonkey-service/src/transport.rs:814-844 | a successful block keeps the registry invariant, sets one fresh target under the resolved key and changes no other |
| `StoreInvariant.BlockIds` | crates/zonkey-service/src/transport.rs:814-844 | a successful block adds exactly its own logical target to those held |
| `StoreInvariant.ReconcileKeeps` | crates/zonkey-service/src/transport.rs:879-916 | reconciling keeps the invariant, every key, name and range, and touches only the resolved entry |
| `StoreInvariant.AcknowledgeKeeps` | crates/zonkey-service/src/transport.rs:924-951 | a successful acknowledgement keeps the invariant, had a recorded verdict, and removes exactly the resolved key |
| `StoreInvariant.PerformKeeps` | crates/zonkey-win/src/recovery_store.rs:364-491 | every successful operation keeps the registry and pending invariants |
| `StoreInvariant.PrepareKeepsSound` | crates/zonkey-win/src/recovery_store.rs:295-324 | for all names, every prepared mutation leaves store and new file in the store invariant, the file holding exactly the snapshot |
| `StoreInvariant.PrepareKeepsGood` | crates/zonkey-win/src/recovery_store.rs:295-324 | every prepared well-named mutation keeps moreover the naming invariants of entries, intents and file |
| `StoreInvariant.DiskIds` | crates/zonkey-win/src/recovery_store.rs:269-324 | in every sound state, for all names, the file records a logical target exactly when memory holds it |
| `StoreRuns.ReopenIsSound` | crates/zonkey-win/src/recovery_store.rs:169-207 | for all names, reopening a file that fits gives a store in the invariant, restored from exactly its records |
| `StoreRuns.ReopenIsGood` | crates/zonkey-win/src/recovery_store.rs:169-207 | the same with the naming invariants, when the URIs on file are free of NUL |
| `StoreRuns.ReopenIsOverfull` | crates/zonkey-win/src/recovery_store.rs:192-207 | a file with more records than the capacity poisons the reopened store |
| `StoreRuns.ReopenBlocksIff` | crates/zonkey-win/src/recovery_store.rs:169-207 | for all names, after reopening a target is blocked exactly when the file does not fit, records its logical target, or has a record whose key its URI and token spell |
| `StoreRuns.ReopenBlocksRecorded` | crates/zonkey-win/src/recovery_store.rs:169-207 | for a well-named target that is: the file records it or does not fit |
| `StoreRuns.RunKeepsSound` | crates/zonkey-win/src/recovery_store.rs:157-491 | for all names, every run of operations with failing or crashing writes and restarts keeps the store invariant |
| `StoreRuns.RunKeepsInv` | crates/zonkey-win/src/recovery_store.rs:157-491 | runs of well-named operations keep moreover the naming invariants |
| `StoreRuns.FreshStoreIsInv` | crates/zonkey-win/src/recovery_store.rs:186-191 | a store opened on an absent file satisfies the invariant and is empty |
| `StoreRuns.StepKeepsBlocked` | crates/zonkey-win/src/recovery_store.rs:345-491 | in runs of well-named operations, one step keeps a blocked well-named target blocked unless it is a successful acknowledgement resolving to the same key |
| `StoreRuns.BlockedUntilAcknowledged` | crates/zonkey-win/src/recovery_store.rs:345-491 | where no names can be confused, only a successful acknowledgement resolving to its key ends a block, over every run of operations and restarts |
| `StoreHolders.HoldersAfter` | crates/zonkey-win/src/recovery_store.rs:364-491 | for all names, the exact account of every operation: afterwards a logical target is held exactly when the operation adds it or leaves an entry or intent of it alone |
| `StoreHolders.BlockedAfterRestartIff` | crates/zonkey-win/src/recovery_store.rs:169-324 | for all names, once an operation is written and the store reopened a target is blocked exactly when the file does not fit, the operation adds it, a holder of it remains, or its URI and token spell a recorded key |
| `StoreHolders.BlockSurvivesRestart` | crates/zonkey-win/src/recovery_store.rs:438-449 | a written block is blocked in the process and after reopening, whatever its URI and token |
| `StoreHolders.RecordedUntilDropped` | crates/zonkey-win/src/recovery_store.rs:157-491 | for all names and over every run, a recorded target stays recorded, and every reopening blocks it, until an operation takes a holder from it and gives it none back |
| `StoreHolders.BlockedUntilOverwritten` | crates/zonkey-win/src/recovery_store.rs:345-491 | for all names, in the process and across restarts, a target whose own entry is stored stays blocked until an acknowledgement, or a block or promotion of another target, resolves to the key of that entry |
| `StoreHolders.BlockedHasOwnEntry` | crates/zonkey-win/src/recovery_store.rs:438-449 | a written block stores the own entry of its target, whatever its URI and token |
| `StoreHolders.NamedEntriesAreAcknowledged` | crates/zonkey-service/src/transport.rs:793-844 | where no names can be confused, only an acknowledgement of the same logical target takes an entry away |
| `StoreVerdicts.RunVerdicts` | crates/zonkey-win/src/recovery_store.rs:438-491 | over every run, a stored verdict of a target implies a verdict recorded after the last block of its key |
| `StoreVerdicts.AcknowledgeFollowsVerdict` | crates/zonkey-win/src/recovery_store.rs:478-491 | from a fresh store, after any run of well-named operations in which no other token of the document shares its salted hash, a target can be acknowledged only if a verdict was recorded after the last block of its key |
| `StoreVerdicts.CollidingVerdictReleases` | crates/zonkey-service/src/transport.rs:793-951 | if a second token of the document has the salted hash of the target, blocking both, reading back the second and restarting lets the target be acknowledged though it was never read back |
| `StoreVerdicts.VerdictMeans` | crates/zonkey-service/src/transport.rs:904-910 | reconciling a freshly blocked target tells replacement, expected text and anything else apart, in that order |
| `StoreVerdicts.FirstVerdictStands` | crates/zonkey-service/src/transport.rs:901-912 | the first verdict stands: reconciling again returns it whatever the live text is by then, and changes nothing |
| `StoreVerdicts.RestartKeepsVerdict` | crates/zonkey-service/src/transport.rs:618-632 | persisting and restoring a target keeps its recorded verdict and its name, and every verdict unless hashes collide |
| `StoreEpochs.RestartKeepsTarget` | crates/zonkey-win/src/recovery_store.rs:502-533 | persisting and reloading a blocked target unbinds its session, hashes its tokens and keeps range, verdict, generation and document epoch |
| `StoreEpochs.RestartBlocksIntent` | crates/zonkey-win/src/recovery_store.rs:269-289 | a pending intent reloads as a block without verdict, with its own names, range, generation and document epoch |
| `StoreEpochs.BlockedEntry` | crates/zonkey-win/src/recovery_store.rs:438-449 | an operator block stores an unverified entry of generation zero, bound to no epoch |
| `StoreEpochs.PromotedEntry` | crates/zonkey-win/src/recovery_store.rs:404-432 | a promotion stores the intent with its names, range and epoch, unverified and of generation zero |
| `StoreEpochs.PreparedKeepsEpoch` | crates/zonkey-win/src/recovery_store.rs:364-491 | an operation that adds no holder of another epoch leaves all holders of a logical target at its epoch |
| `StoreEpochs.RunKeepsEpoch` | crates/zonkey-win/src/recovery_store.rs:157-491 | the same over every run with crashes and restarts |
| `StoreEpochs.ReopenedIsGated` | crates/zonkey-service/src/transport.rs:860-951 | a recorded target whose holders carry an epoch refuses, after reopening, to be reconciled or acknowledged for its epoch under exactly the other epochs |
| `StoreEpochs.EpochBindsOverRun` | crates/zonkey-service/src/transport.rs:860-951 | the same after every run that takes no holder from it and adds none of another epoch |
| `StoreEpochs.PromotionBindsEpoch` | crates/zonkey-win/src/recovery_store.rs:404-491 | end to end: a written promotion binds its target to the epoch of its intent over such runs and the next restart |
| `StoreOrder.RestoredFromLast` | crates/zonkey-service/src/transport.rs:728-763 | restoring queues every record in order and stores under each key its last record |
| `StoreOrder.RestartKeepsOrder` | crates/zonkey-win/src/recovery_store.rs:269-289 | the queue of a reopened store is the entries in the order of the old queue, then the intents in theirs |
| `StoreOrder.IntentOutranksEntry` | crates/zonkey-win/src/recovery_store.rs:269-289 | a target with both an entry and an intent reloads as its last intent, without the verdict the entry had |
| `StoreLimits.SnapshotEncodableIff` | crates/zonkey-win/src/recovery_store.rs:269-324 | a snapshot encodes exactly when entries and intents share the record limit and each fits its caps |
| `StoreLimits.SharedBound` | crates/zonkey-win/src/recovery_store.rs:269-324 | in every sound state, for all names, entries and pending intents together are at most 128 and each fits its caps |
| `StoreLimits.BeginSucceedsIff` | crates/zonkey-win/src/recovery_store.rs:364-383 | an intent can be recorded exactly when its id is already pending or there is room below both limits and it fits its caps |
| `StoreLimits.PromoteOutcome` | crates/zonkey-win/src/recovery_store.rs:404-430 | promotion removes the intent always, and blocks its target exactly when it was blocked already or the registry queue is not at capacity |
| `StoreLimits.IntentIsNeverLost` | crates/zonkey-win/src/recovery_store.rs:404-430 | for all names, with capacity at least 128 promotion blocks the target whenever its write succeeds, and a failed write changes nothing |
| `StoreLimits.SmallCapacityLosesIntent` | crates/zonkey-win/src/recovery_store.rs:416-427 | with capacity 1 an operator block after an intent makes the promotion drop it, in memory and on disk |
| `StoreLimits.MutationIsAtomic` | crates/zonkey-win/src/recovery_store.rs:295-324 | for all names, a failed operation changes neither memory nor file; a successful one is written and the file holds exactly the new snapshot |
| `StoreLimits.ReachableStatesFit` | crates/zonkey-win/src/recovery_store.rs:238-324 | with capacity at least 128 every state that operations with any names, crashes and restarts reach is unpoisoned, within the shared bound, encodable, and reopens unpoisoned |
| `StoreLimits.BlockSucceedsIff` | crates/zonkey-win/src/recovery_store.rs:438-449 | an operator block can be made durable exactly when the request fits its caps and the target is blocked already or there is room below both limits; it leaves the intents alone |
| `StoreLimits.NulUriLosesBlock` | crates/zonkey-service/src/transport.rs:786-801 | an input that loses a block: with NUL in a URI two pairs share a key, and blocking the second loses the first across a restart |
| `StoreLimits.HashTokenReplacesBlock` | crates/zonkey-service/src/transport.rs:793-844 | blocking a token that spells a stored hash replaces that entry: the first token stays blocked after the next restart only if hashes collide |
| `StoreLimits.EpochBindsAfterRestart` | crates/zonkey-service/src/transport.rs:860-951 | after a restart a target bound to an epoch refuses to reconcile or acknowledge under any other epoch and stays blocked |
| `RequestLedger.BoundedRequestLedger.RecordInner` | crates/zonkey-service/src/transport.rs:249-287 | recording ignores known ids, evicts the oldest evictable entry when full, and refuses when all are pinned |
| `RequestLedger.BoundedRequestLedger.InvalidateAll` | crates/zonkey-service/src/transport.rs:291-295 | invalidation empties queue and map |
| `RequestLedger.OldestEvictableSpec` | crates/zonkey-service/src/transport.rs:259-273 | the chosen victim is evictable and every older entry is pinned; none is chosen only if all are pinned |
| `RequestLedger.RecordSpec` | crates/zonkey-service/src/transport.rs:249-287 | an exact account of all four answers, including that the refusal happens exactly when full and all pinned |
| `RequestLedger.RunKeepsLedgerInv` | crates/zonkey-service/src/transport.rs:212-295 | over every run queue and map hold the same ids without repeats, within capacity |
| `RequestLedger.PinnedStays` | crates/zonkey-service/src/transport.rs:249-287 | over every run without invalidation an unbacked ambiguous entry stays, unchanged |
| `RequestLedger.SessionRemembers` | crates/zonkey-service/src/transport.rs:212-287 | with at most capacity distinct ids in such a session the ledger is the first use of every id |
| `RequestLedger.HandlerRunsOncePerId` | crates/zonkey-win/src/pipe_transport.rs:532-542 | with at most capacity distinct ids and no request turned away, backed or not, the handler runs once per id, identical retries get the first reply and others the reuse answer |
| `LedgerSessions.LedgerHolds` | crates/zonkey-service/src/transport.rs:249-287 | over every session of plain, backed and turned-away requests with any answers, the ledger is exactly the first pinned executed requests and, in the places they leave, the last evictable ones, each kind in order |
| `LedgerSessions.HandlerRunsIffForgotten` | crates/zonkey-win/src/pipe_transport.rs:532-542 | for every request of every session: the handler runs exactly when it is not turned away and none of the remembered requests carries its id; identical retries get the remembered reply, others the reuse answer |
| `LedgerSessions.RemembersLatest` | crates/zonkey-service/src/transport.rs:249-287 | without pinned answers the remembered requests are exactly the last capacity executed ones |
| `LedgerSessions.EvictedIdRunsAgain` | crates/zonkey-service/src/transport.rs:249-287 | at every capacity there is a session whose first request, repeated after capacity others, runs its handler again |
| `Preflight.StepKeepsServer` | crates/zonkey-win/src/pipe_transport.rs:764-884 | for all names and ids, every event keeps the server invariant: store and file are sound, from the preflight to the resolution an intent is pending under the id of the request, and every owed target is held |
| `Preflight.RunKeepsServer` | crates/zonkey-win/src/pipe_transport.rs:764-884 | over every run with crashes, failed writes, failed deliveries, plain requests and new listeners the server invariant holds |
| `Preflight.IntentIsDurableBeforeHandler` | crates/zonkey-win/src/pipe_transport.rs:838-848 | whenever the handler is about to run, the record of an intent under its request id is on disk |
| `Preflight.OwnIntentIff` | crates/zonkey-win/src/pipe_transport.rs:838-848 | after any run, a request about to run has its own record on disk if its id was not pending when received; otherwise nothing was written, and its target is on record and blocked on reopening exactly if it was before |
| `Preflight.OwedStaysBlocked` | crates/zonkey-win/src/pipe_transport.rs:764-884 | a reopen at any moment is unpoisoned and reports every owed target blocked |
| `Preflight.ExecutedIsBlockedEverAfter` | crates/zonkey-win/src/pipe_transport.rs:764-884 | once a handler has run for a request received under an id that was not pending (or whose target was on record), every later reopen blocks its target until a durable operation drops it, whatever ids and names later requests use |
| `Preflight.DischargeCauses` | crates/zonkey-win/src/pipe_transport.rs:852-884 | an operation drops a target exactly if it clears an intent of it, acknowledges an entry of it, or blocks or promotes another target under the key of such an entry |
| `Preflight.RejectionErasesExecutedIntent` | crates/zonkey-win/src/pipe_transport.rs:802-872 | from a fresh server: an executed request whose promotion failed is blocked on reopening; once the ledger does not know its id, any request under that id whose preflight fails has its rejection cleared, and then reopening does not block the executed target |
| `Preflight.ErasedWithinOneListener` | crates/zonkey-win/src/pipe_transport.rs:764-872 | such a run exists within one listener at every ledger capacity, with plain requests evicting the entry |
| `Preflight.FreshServerIsInv` | crates/zonkey-win/src/pipe_transport.rs:764-848 | a server on a fresh store of the default capacity satisfies the invariant |
| `Preflight.IntentWrittenIff` | crates/zonkey-win/src/recovery_store.rs:364-383 | a successful preflight puts its target on record, and makes it blocked on reopening, exactly when its id was not already pending or it was so before |
| `Preflight.BlockedInProcessIffWritten` | crates/zonkey-win/src/pipe_transport.rs:852-872 | after a promotion the target is blocked in the running process exactly when the write succeeded, and on reopen in either case |
| `PipeService.HostTransportEndpoint.AcceptHello` | crates/zonkey-service/src/transport.rs:347-368 | a hello is accepted exactly for the right protocol and non-empty names; a new session empties the ledger, every refusal changes nothing |
| `PipeService.HostTransportEndpoint.CheckSession` | crates/zonkey-service/src/transport.rs:381-387 | only the established session passes |
| `PipeService.PipeServer.ServeDescriptorRequest` | crates/zonkey-win/src/pipe_transport.rs:764-884 | serving one descriptor request is receive, run, deliver and resolve of the protocol, for every handler answer, write and delivery outcome, with the reply by disposition; a wrong session changes nothing |
| `PipeService.AnswerIsProtocols` | crates/zonkey-win/src/pipe_transport.rs:820-848 | the reply to a fresh request is the outcome the protocol holds, the handler has run exactly when the target was free and its intent was written, and the request is owed if its target is then on record |
| `ServedOutcomes.RejectionIffRejected` | crates/zonkey-win/src/pipe_transport.rs:858-869 | an outcome of the harness, as it is sent, reads as a rejection exactly when it is one, and as ambiguous exactly when it is indeterminate |
| `ServedOutcomes.AnswerResolves` | crates/zonkey-win/src/pipe_transport.rs:802-872 | a delivered rejection of the harness clears the intent; any other outcome, and every undelivered one, promotes it |
| `ServedOutcomes.FixedAnswers` | crates/zonkey-win/src/pipe_transport.rs:836-845 | the two fixed answers are spelled as in the code, read as rejections, and the reuse answer does not |
| `ServedOutcomes.TurnedAwayResolves` | crates/zonkey-win/src/pipe_transport.rs:802-872 | a delivered fixed answer clears, an undelivered one promotes |
| `PipeService.DescriptorIsLedgerStep` | crates/zonkey-win/src/pipe_transport.rs:764-848 | for the ledger one descriptor request is one step of a session, backed when its handler runs and turned away otherwise |
| `PipeService.PipeServer.ServePlainRequest` | crates/zonkey-win/src/pipe_transport.rs:520-547 | serving one plain request is the ledger step: recorded reply, reuse answer, or the recorded answer of the handler; a wrong session changes nothing |
| `PipeService.ServedIsRun` | crates/zonkey-win/src/pipe_transport.rs:764-884 | the sequential account of one request and the run of its four protocol events end in the same process and file |
| `Frames.DecodeFrameIff` | crates/zonkey-service/src/transport.rs:61-104 | a frame and remainder are read exactly when the payload can be framed and the buffer is its frame followed by the remainder |
| `Frames.DecodeFrameExtends` | crates/zonkey-service/src/transport.rs:84-104 | more bytes never change a frame already complete nor a header already refused |
| `Frames.DecodeInTwo` | crates/zonkey-service/src/transport.rs:84-104 | decoding a stream in two parts, carrying the remainder over, is decoding it at once |
| `Frames.EncodeIffDecodes` | crates/zonkey-service/src/transport.rs:61-104 | the encoder succeeds exactly on payloads within bounds, and with exactly the bytes that decode to the payload in front of any remainder |
| `Frames.FrameErrorIsFirstFailure` | crates/zonkey-service/src/transport.rs:84-106 | a frame is dropped with its first failing check, length zero, over 65536 bytes or not UTF-8, and else awaited until all its bytes are in |
| `Frames.StreamRoundTrip` | crates/zonkey-service/src/transport.rs:61-104 | a stream decodes to payloads with nothing left exactly when it is the concatenation of their frames |
| `Frames.Connection.ReadFrame` | crates/zonkey-win/src/pipe_transport.rs:231-265 | the buffering loop returns the first frame of buffered and undelivered bytes together, whatever the chunks, and closes only where decoding has none |
| `Frames.Connection.ReadAll` | crates/zonkey-win/src/pipe_transport.rs:472-480 | the connection loop delivers the frames of the whole byte stream, the same for every chunking, and stops at the same remainder |
| `Frames.DecodeFrames` | hosts/vscode-spike/src/pipe-client.ts:37-52 | the offset loop computes the client decoding, failing on the same headers |
| `Frames.ClientAgrees` | hosts/vscode-spike/src/pipe-client.ts:37-52 | client and server agree on frames and remainder wherever the server waits, and on out-of-bounds headers; a server drop for invalid UTF-8 is outside |
| `Utf16.WellFormedIffPaired` | crates/zonkey-service/src/lib.rs:335-344 | decoding from the front succeeds exactly when every surrogate has its other half next to it |
| `Utf16.CutIff` | crates/zonkey-service/src/lib.rs:339-344 | cutting well-formed text leaves well-formed parts exactly at indices that do not split a surrogate pair |
| `Utf16.SpliceWellFormed` | crates/zonkey-service/src/mutation_harness.rs:130-146 | splicing well-formed text at non-splitting ends gives well-formed text |
| `Utf16.LossyIsExactIff` | crates/zonkey-service/src/mutation_harness.rs:119-128 | lossy decoding returns the text itself exactly when it is well-formed |
| `Boundary.ValidatedIff` | crates/zonkey-service/src/lib.rs:280-333 | two samples validate exactly when they are equal, available, supported, not secure, well-formed, with a collapsed caret after the expected text |
| `Boundary.RejectionIsFirstFailure` | crates/zonkey-service/src/lib.rs:280-333 | a rejection names the first failing condition |
| `Boundary.ValidatedCandidateIsReplaceable` | crates/zonkey-service/src/lib.rs:280-344 | a validated candidate never splits a pair at its unchecked left end, and any well-formed replacement keeps the text well-formed |
| `MutationHarness.HarnessHost.ReplaceUtf16` | crates/zonkey-service/src/mutation_harness.rs:130-146 | replacement happens exactly when the ends are in order and the result is well-formed, and else changes nothing |
| `MutationHarness.HarnessHost.InjectChange` | crates/zonkey-service/src/mutation_harness.rs:148-155 | an injected race replaces and bumps the version, or does nothing |
| `MutationHarness.MutationHarness.Transact` | crates/zonkey-service/src/mutation_harness.rs:504-576 | the transaction with its re-read, modes, races and verification computes the specified host and outcome |
| `MutationHarness.MutationHarness.SubmitRequest` | crates/zonkey-service/src/mutation_harness.rs:380-418 | submit computes the specified host, ledger, targets and outcome |
| `MutationHarness.MutationHarness.Reconcile` | crates/zonkey-service/src/mutation_harness.rs:582-608 | reconciling gives the verdict of the live range once and leaves the target blocked |
| `MutationHarness.VerdictOfLiveRange` | crates/zonkey-service/src/mutation_harness.rs:582-608 | the verdict by the text of the live range: replacement, then expected text, then a conflict |
| `MutationHarness.SliceClamps` | crates/zonkey-service/src/mutation_harness.rs:119-128 | reading a range clamps its ends to the text and shows a cut pair as U+FFFD |
| `MutationHarness.LostOutcomeIsReconciled` | crates/zonkey-service/src/mutation_harness.rs:504-608 | a lost outcome is told apart: not applied before the commit, acknowledged after it |
| `MutationHarness.MutationHarness.Acknowledge` | crates/zonkey-service/src/mutation_harness.rs:612-620 | acknowledging succeeds only after reconciliation |
| `MutationHarness.OutcomeRoundTrip` | crates/zonkey-service/src/mutation_harness.rs:293-351 | the outcome replayed from the ledger is the one recorded, for every outcome |
| `MutationHarness.CanonicalTellsApart` | crates/zonkey-service/src/mutation_harness.rs:272-291 | the canonical form of a request whose texts do not contain U+0001 is that of no other request, whatever the other contains |
| `MutationHarness.SeparatorConfusesFields` | crates/zonkey-service/src/mutation_harness.rs:272-291 | for every request with U+0001 in a text field there is a different one with the same canonical form, under the same request id unless only the id or the URI contains it |
| `MutationHarness.CanonicalNamesRequestIff` | crates/zonkey-service/src/mutation_harness.rs:272-291 | both directions: the canonical form determines the request exactly when no text field contains U+0001 |
| `MutationHarness.EligibleIffNoRefusal` | crates/zonkey-service/src/mutation_harness.rs:422-500 | the fixed-order checks pass exactly when the request describes the host as it is and every safety condition holds |
| `MutationHarness.RefusalIsFirstFailure` | crates/zonkey-service/src/mutation_harness.rs:422-500 | a rejection names the first of the eighteen conditions that fails |
| `MutationHarness.InjectIff` | crates/zonkey-service/src/mutation_harness.rs:130-155 | a race takes effect exactly when its range is ordered and within the text and the result is well-formed, and then raises the version |
| `MutationHarness.TransactionUnderRaces` | crates/zonkey-service/src/mutation_harness.rs:504-576 | the outcome and the host for an eligible request under every pre-transaction and post-commit race: applied exactly in normal mode when the host ends as a commit of the request alone leaves it, ambiguous for every other end, and for expected text a race took away |
| `MutationHarness.DisturbedCommit` | crates/zonkey-service/src/mutation_harness.rs:552-575 | a commit that any race disturbed is ambiguous exactly when a later version was left to count it or the text differs |
| `MutationHarness.SaturatedRaceIsApplied` | crates/zonkey-service/src/mutation_harness.rs:130-155 | the exception: at the last version an empty race is not counted and the commit is answered applied |
| `MutationHarness.EditByRaceIsAmbiguous` | crates/zonkey-service/src/mutation_harness.rs:504-530 | the end of the run alone does not tell applied: a race that makes the very edit is answered ambiguous |
| `MutationHarness.IndeterminateBlocks` | crates/zonkey-service/src/mutation_harness.rs:380-420 | a submit that gets through leaves its target blocked exactly when its outcome is indeterminate, and the outcome of an eligible one is that of the transaction |
| `MutationHarness.TransactionWithoutRaces` | crates/zonkey-service/src/mutation_harness.rs:504-576 | without races an eligible request is committed exactly as prefix, replacement, suffix, or refused or lost untouched, by mode |
| `MutationHarness.AppliedIffEligible` | crates/zonkey-service/src/mutation_harness.rs:380-576 | without races and in normal mode a submit is applied exactly when it is new, unblocked and eligible; otherwise text and version are unchanged |
| `MutationHarness.UnreachedChangesNothing` | crates/zonkey-service/src/mutation_harness.rs:380-410 | a malformed, duplicate, conflicting or blocked submit changes nothing at all, races or not |
| `MutationHarness.RetryIsReplayed` | crates/zonkey-service/src/mutation_harness.rs:380-418 | an exact retry gets the same outcome and changes nothing, unless the ledger is full of pinned entries |
| `MutationHarness.RetryIsRememberedIff` | crates/zonkey-service/src/mutation_harness.rs:380-418 | the request is recorded exactly unless the ledger is full of pinned entries; then an exact retry is blocked after an indeterminate outcome and otherwise processed afresh on the host as it is |
| `MutationHarness.ReuseIsAnswered` | crates/zonkey-service/src/mutation_harness.rs:380-394 | a recorded id with any other request is answered as a reuse, an empty id as invalid, and both change nothing |
| `MutationHarness.BlockedIsAnswered` | crates/zonkey-service/src/mutation_harness.rs:395-408 | after an indeterminate outcome a new request for the same pair is answered as blocked and changes nothing |
| `MutationHarness.TargetStages` | crates/zonkey-service/src/mutation_harness.rs:399-418 | one step takes a blocked target at most one stage: only its reconciliation, then only its acknowledgement |
| `MutationHarness.IndeterminateBlocksUntilBoth` | crates/zonkey-service/src/mutation_harness.rs:380-621 | over every run, a submit that changes the host for a target left indeterminate was preceded by a reconciliation and a later acknowledgement of it |
| `MutationHarness.TargetNamesPair` | crates/zonkey-service/src/mutation_harness.rs:268-270 | for URIs without NUL a logical target is one pair of URI and expected text |
| `MutationHarness.NulConfusesTargets` | crates/zonkey-service/src/mutation_harness.rs:268-270 | with NUL in a URI two pairs share one target |
| `MutationHarness.OtherTargetsStayOpen` | crates/zonkey-service/src/mutation_harness.rs:380-420 | after an indeterminate outcome exactly the requests for the same pair stop reaching the host |
| `MutationHarness.NeverCommittedTwice` | crates/zonkey-service/src/mutation_harness.rs:380-576 | over every run in which the environment never lowers the version, two committing submits have strictly increasing revisions, whatever the ledger remembers |
| `CanonicalJson.QuoteDelimited` | hosts/vscode-spike/src/contract.ts:157-159 | a quoted string, with its escapes and lone-surrogate escapes, determines its content and its own end |
| `CanonicalJson.SortedSorts` | hosts/vscode-spike/src/contract.ts:163-165 | sorting distinct keys gives a strictly increasing list in code-unit order |
| `CanonicalJson.DenoteNormal` | hosts/vscode-spike/src/contract.ts:163-165 | sorting keys and dropping undefined fields keeps the value |
| `CanonicalJson.NormalUnique` | hosts/vscode-spike/src/contract.ts:156-169 | a sorted value without undefined fields is determined by what it means |
| `CanonicalJson.CanonicalIffSameValue` | hosts/vscode-spike/src/contract.ts:156-169 | two JSON values have the same canonical text exactly when they are the same value, objects being maps without their undefined fields |
| `CanonicalJson.CanonicalIsDelimited` | hosts/vscode-spike/src/contract.ts:156-169 | canonical texts followed by a comma, a closer or nothing determine value and remainder |
| `JsonTexts.LiteralTexts` | hosts/vscode-spike/src/contract.ts:157-159 | null, true and false are spelled so |
| `JsonTexts.ArrayText` | hosts/vscode-spike/src/contract.ts:160-162 | an array is its items in order between brackets, with commas |
| `JsonTexts.ObjectText` | hosts/vscode-spike/src/contract.ts:163-168 | an object is its defined fields in key order between braces, with commas, each key quoted before a colon and its value |
| `JsonTexts.LessIffPrecedes` | hosts/vscode-spike/src/contract.ts:165 | key order is that of the first differing code unit, a prefix coming first |
| `JsonTexts.QuotedText` | hosts/vscode-spike/src/contract.ts:157-159 | a string is its units as written, between quotation marks |
| `JsonTexts.UnitText` | hosts/vscode-spike/src/contract.ts:158 | every single unit of a string as it is written: the seven short escapes, four lowercase digits for other controls and lone surrogates, itself otherwise |
| `JsonTexts.BodyConcat` | hosts/vscode-spike/src/contract.ts:158 | strings are written unit by unit, unless a surrogate pair straddles the cut |
| `JsonTexts.PairText` | hosts/vscode-spike/src/contract.ts:158 | a surrogate pair is written as it is |
| `CanonicalJson.UndefinedItemCollides` | hosts/vscode-spike/src/contract.ts:160-162 | outside JSON values it is not injective: of all arrays with undefined items, exactly the array of one undefined prints as the empty array |
| `HostRequests.SameTextIffSameRequest` | hosts/vscode-spike/src/contract.ts:69-86 | canonical texts of requests agree exactly when the requests are equal, so duplicate against conflict is request equality |
| `HostRequests.SameTextIffSameIdentity` | hosts/vscode-spike/src/adapter.ts:220-222 | the identity comparison by text is equality |
| `HostRequests.SameTextIffSameCapabilities` | hosts/vscode-spike/src/adapter.ts:223-228 | the capability comparison by text is equality |
| `HostAdapter.VsCodeHostAdapter.Record` | hosts/vscode-spike/src/adapter.ts:164-180 | the eviction loop drops the oldest ids until one fits and appends the new one, keeping the map in order and within capacity |
| `HostAdapter.VsCodeHostAdapter.ApplyRequest` | hosts/vscode-spike/src/adapter.ts:138-157 | apply answers from the ledger or runs and records one validated transaction |
| `HostAdapter.VsCodeHostAdapter.InvalidateSession` | hosts/vscode-spike/src/adapter.ts:187-189 | invalidation empties the ledger |
| `HostAdapter.AdmissibleIffNoRefusal` | hosts/vscode-spike/src/adapter.ts:191-296 | the fixed-order checks pass exactly when the request equals the live evidence and every state is safe |
| `HostAdapter.RefusalIsFirstFailure` | hosts/vscode-spike/src/adapter.ts:191-296 | a rejection names the first of the twenty-one conditions that fails |
| `HostAdapter.CaptureIsFirstFailure` | hosts/vscode-spike/src/adapter.ts:66-130 | a refused snapshot names the first condition of capturing that fails |
| `HostAdapter.OutcomeOfEdit` | hosts/vscode-spike/src/adapter.ts:298-339 | for every admissible request and every edit, each outcome and each reason as an if and only if of what the host did |
| `HostAdapter.MovedIsNotRejected` | hosts/vscode-spike/src/adapter.ts:298-339 | unless the host itself refused, an edit that found its text or moved the document is never answered with a rejection |
| `HostAdapter.OutcomeIsRecorded` | hosts/vscode-spike/src/adapter.ts:138-180 | the outcome of a new call is recorded and replayed, whatever the host is by then |
| `HostAdapter.MalformedIffNoId` | hosts/vscode-spike/src/adapter.ts:138-146 | a new call is malformed exactly for an empty request id, and is then not recorded |
| `HostAdapter.AppliedIsExactSplice` | hosts/vscode-spike/src/adapter.ts:298-339 | applied means the expected text was found and replaced exactly, one version later, and well-formed text stays well-formed |
| `HostAdapter.SnapshotRequestCompletes` | hosts/vscode-spike/src/adapter.ts:66-130 | a request built from a snapshot of an unchanged host is admitted exactly when the recorded evidence is safe, and then applies if undisturbed |
| `HostAdapter.AppliedByOneTransaction` | hosts/vscode-spike/src/adapter.ts:138-339 | over every run, for every capacity and across invalidations, after the transaction that applied a request none runs for it again, if document versions never go back |
| `HostAdapter.LedgerIsRecent` | hosts/vscode-spike/src/adapter.ts:138-189 | over every run the ledger is exactly the last capacity recorded calls, oldest first |
| `HostAdapter.RecentIsReplayed` | hosts/vscode-spike/src/adapter.ts:138-157 | a call with the id of one of the last capacity recorded calls runs no transaction: the same request gets its result, any other a reuse rejection |
| `Telex.Output.TryShapeTransform` | crates/zonkey-telex/src/lib.rs:104-150 | rewriting the end of the output in place is the specified shape step |
| `Telex.Output.TryTone` | crates/zonkey-telex/src/lib.rs:152-174 | rewriting the last vowel in place is the specified tone step, also when it answers no |
| `Telex.ComposeKeys` | crates/zonkey-telex/src/lib.rs:90-102 | the composing loop computes the fold of the key steps, or the first character that is not ASCII |
| `Telex.VowelRoundTrip` | crates/zonkey-telex/src/lib.rs:251-275 | every entry of the vowel table is found where it stands |
| `Telex.VowelTableIsExact` | crates/zonkey-telex/src/lib.rs:251-275 | only table entries decode, and to their own place |
| `Telex.ToneTyped` | crates/zonkey-telex/src/lib.rs:152-174 | in characters: with the twelve rows spelled out, the i-th of the keys f, s, r, x, j turns any entry of another tone into the i-th marked letter of its row, behind any tail without vowels, and pressed again gives the plain letter and the key |
| `Telex.MarkTyped` | crates/zonkey-telex/src/lib.rs:104-150 | in characters: a, e, o and w turn a to â, e to ê, o to ô, a to ă, o to ơ and u to ư under every tone, and back with a trailing key |
| `Telex.KeyIsPlainIff` | crates/zonkey-telex/src/lib.rs:90-174 | a key is appended exactly when it finds nothing to act on |
| `Telex.ComposeFailsIff` | crates/zonkey-telex/src/lib.rs:90-102 | composing fails exactly on a character beyond ASCII, and names the first |
| `Telex.ComposeLength` | crates/zonkey-telex/src/lib.rs:90-102 | another key never shortens the rendered text, which is never longer than the keys and never empty for a non-empty token |
| `Telex.UnchangedIffInert` | crates/zonkey-telex/src/lib.rs:90-174 | raw keys render as themselves exactly when no key finds anything to act on in the keys before it |
| `Telex.TonePresses` | crates/zonkey-telex/src/lib.rs:152-174 | n presses of one tone key on a last vowel of another tone: the tone and (n-1)/2 trailing keys for odd n, no tone and n/2 for even n |
| `Telex.ShapeAndToneCommuteIff` | crates/zonkey-telex/src/lib.rs:104-174 | on a final vowel a shape key and a tone key commute exactly when the tone changes and the shape key replaces, or undoes by w |
| `Telex.DoubledPresses` | crates/zonkey-telex/src/lib.rs:104-150 | n presses of a doubling letter alternate between plain letters and the marked letter, in closed form, after any output where the first press is plain |
| `Telex.RepeatedLetter` | crates/zonkey-telex/src/lib.rs:90-150 | composing n times a, e, o or d gives the alternating closed form |
| `TokenEdits.PlanReplays` | crates/zonkey-token/src/lib.rs:80-99 | replaying an edit plan on the text it was made for gives the other text, for every segmentation whose graphemes concatenate to the text |
| `TokenEdits.PlanKeepsCommonPrefix` | crates/zonkey-token/src/lib.rs:80-93 | a plan keeps the longest common grapheme prefix |
| `TokenEdits.VisibleText.DeleteLastGraphemes` | crates/zonkey-token/src/lib.rs:70-76 | the rebuilding loop removes that many graphemes from the end, or all |
| `TokenEdits.VisibleText.ApplyEditPlan` | crates/zonkey-token/src/lib.rs:96-99 | applying a plan in place is deletion followed by insertion |
| `TokenEdits.TokenState.ReplaceRendered` | crates/zonkey-token/src/lib.rs:47-51 | replacing the rendered text returns the plan from the old to the new one |
| `TokenEdits.TokenState.PushRaw` | crates/zonkey-token/src/lib.rs:33-39 | only ASCII characters are pushed |
| `TokenEdits.TokenState.PopRaw` | crates/zonkey-token/src/lib.rs:42-44 | popping removes the last raw character if there is one |
| `TelexEngine.Engine.ProcessEvent` | crates/zonkey-telex/src/lib.rs:36-57 | processing an event computes the specified token and action and keeps the token invariant |
| `TelexEngine.Engine.ProcessBackspace` | crates/zonkey-telex/src/lib.rs:59-66 | recomposing after a backspace cannot fail, and gives the specified token and action |
| `TelexEngine.Engine.ProcessBoundary` | crates/zonkey-telex/src/lib.rs:68-82 | a boundary clears the token and commits or resets |
| `TelexEngine.OutcomeOfEvent` | crates/zonkey-telex/src/lib.rs:36-82 | in characters: white space and printable ASCII but letters and digits commit the token, moves and focus loss drop it, other ASCII is appended, anything else is refused and changes nothing |
| `TelexEngine.EngineRun` | crates/zonkey-telex/src/lib.rs:36-102 | after every run of events the raw keys are ASCII, the rendered text is their composition, and the replayed plans show exactly it |
| `TelexEngine.RestoreGivesRaw` | crates/zonkey-token/src/lib.rs:80-99 | after every run the plan from rendered to raw turns what is shown into exactly the raw keys |
| `TelexEngine.BackspaceUndoesKey` | crates/zonkey-telex/src/lib.rs:44-66 | typing a key and erasing it brings back the token, whatever the key did to it |
| `Decisions.DiagnosticDecisionProcessor.ProcessEvent` | crates/zonkey-service/src/lib.rs:1116-1190 | processing one observed key computes the specified processor state and classification |
| `Decisions.DiagnosticDecisionProcessor.Evaluate` | crates/zonkey-service/src/lib.rs:1016-1096 | evaluating a boundary computes the specified plan, counters and decision and clears the token |
| `Decisions.DiagnosticDecisionProcessor.Settle` | crates/zonkey-service/src/lib.rs:1033-1061 | settling a decision allocates a generation only for a restore, and counts a token unless no generation is left |
| `Decisions.DiagnosticDecisionProcessor.AllocatePlanGeneration` | crates/zonkey-service/src/lib.rs:977-981 | a generation is handed out once and the counter stops after the largest |
| `Decisions.DiagnosticDecisionProcessor.DiscontinuityReset` | crates/zonkey-service/src/lib.rs:1106-1114 | a discontinuity drops token, plan and modifier state |
| `Decisions.StepKeeps` | crates/zonkey-service/src/lib.rs:1016-1190 | every step keeps the token and plan invariants and changes the plan only by keeping, dropping or issuing the next generation |
| `Decisions.GenerationsIncrease` | crates/zonkey-service/src/lib.rs:977-1096 | over every run the plan of a later moment has a larger generation unless it is the same plan |
| `Decisions.GenerationNamesPlan` | crates/zonkey-service/src/lib.rs:977-1096 | over every run two moments with plans of one generation have the same plan, current at every moment between |
| `Decisions.RevalidatesIff` | crates/zonkey-service/src/lib.rs:902-930 | a handoff revalidates exactly when it is, field by field, the one of the current plan |
| `Decisions.BuildsRequestIff` | crates/zonkey-service/src/transport.rs:520-557 | any submitted handoff passes gate and request building exactly when it is the one a capture of the current state gives |
| `Decisions.HandoffFreshness` | crates/zonkey-service/src/lib.rs:881-930 | over every run a captured handoff revalidates later exactly when its plan has been current all the time; once stale it stays stale |
| `Decisions.RequestIdNamesRequest` | crates/zonkey-service/src/transport.rs:520-557 | over every run one request id never names two different host requests |
| `Decisions.PlanFate` | crates/zonkey-service/src/lib.rs:1116-1190 | injected input, modifier keys, releases and shortcuts leave token and plan alone, and every other key but a boundary drops the plan |
| `Decisions.PlanIssuedIff` | crates/zonkey-service/src/lib.rs:1016-1061 | a boundary issues a plan exactly for a token that composition changed, a dictionary knows and no pattern protects, while generations last, with the next generation |
| `Decisions.TypedWordRequests` | crates/zonkey-service/src/transport.rs:567-594 | end to end: typing a word and a space makes a host request available exactly for such a word, carrying composed text, word and the id of the next generation |
| `Decisions.PlanRestoresRaw` | crates/zonkey-service/src/lib.rs:1016-1061 | over every run a current plan replaces a non-empty rendered text by the different raw keys it was composed from, and its edit plan replays to them |
| `KeyRuns.ModifiersAreHeld` | crates/zonkey-service/src/lib.rs:987-999 | over every run control, alt and meta count as down exactly while held: pressed by the user, and since then neither moved nor continuity lost |
| `KeyRuns.ReleasedIsNotHeld` | crates/zonkey-service/src/lib.rs:987-999 | a modifier last moved by a release is not held, whatever was pressed before, so later keys are observed |
| `KeyRuns.ReportOfRun` | crates/zonkey-service/src/lib.rs:1116-1190 | over every run what is reported for an event follows from the events: a key that reaches the token by its kind, anything else as ignored |
| `KeyRuns.CharactersTyped` | crates/zonkey-service/src/lib.rs:1158-1175 | in characters: letters are typed small unless the event says shift, digit n is the n-th digit, no other key types |
| `KeyRuns.RawOfRun` | crates/zonkey-service/src/lib.rs:1116-1190 | over every run the raw token is a function of the events alone, and what is shown is its composition |
| `KeyRuns.GenerationsOfRun` | crates/zonkey-service/src/lib.rs:977-981 | over every run the next generation counts the restorable words completed so far, until it stops after the largest |
| `KeyRuns.PlanOfRun` | crates/zonkey-service/src/lib.rs:1016-1190 | over every run a plan is current exactly when some step ended a restorable word while a generation was left and nothing has reached the token since, and is the restore of that word |
| `KeyRuns.DecisionOfBoundary` | crates/zonkey-service/src/lib.rs:1016-1061 | what a boundary records: lengths, decision and completed count, each by its exact condition |
| `KeyRuns.CountersOfRun` | crates/zonkey-service/src/lib.rs:1016-1190 | over every run the saturating counters are the numbers of injected events, of losses of continuity, and of tokens judged at a boundary, less restores without a generation |
| `KeyRuns.ByteLengthSnoc` | crates/zonkey-service/src/lib.rs:1024 | lengths are those of UTF-8, character by character |
| `KeyRuns.RequestIdText` | crates/zonkey-service/src/transport.rs:550 | a request id is "handoff-" followed by the decimal generation |
| `KeyRuns.RequestErrorIsFirstFailure` | crates/zonkey-service/src/transport.rs:520-557 | a submitted handoff is refused with the first failing check, never as stale, and else becomes the request of the current plan |
| `ObserveQueue.BoundedQueue.TryEnqueue` | crates/zonkey-service/src/lib.rs:418-427 | an event is accepted at the tail unless the queue is full, and a drop is counted and marks a discontinuity |
| `ObserveQueue.BoundedQueue.TryDequeue` | crates/zonkey-service/src/lib.rs:430-440 | the oldest event is removed and carries the pending discontinuity once |
| `ObserveQueue.ObserveService.RequestStop` | crates/zonkey-service/src/lib.rs:542-549 | a stop request is remembered unless the service has already ended |
| `ObserveQueue.ObserveService.ProcessOne` | crates/zonkey-service/src/lib.rs:612-629 | one queued event is processed, with a reset first if continuity was lost; answer counters follow the answers given |
| `ObserveQueue.ObserveService.FinishGracefully` | crates/zonkey-service/src/lib.rs:606-610 | draining processes every queued event in order and ends stopped |
| `ObserveQueue.ObserveService.Run` | crates/zonkey-service/src/lib.rs:557-593 | a run on a finite source computes the specified queue, calls and counters for exhaustion, source error, earlier stop and finished service |
| `ObserveQueue.ReceiveStep` | crates/zonkey-service/src/lib.rs:570-577 | receiving one more event and processing the oldest extends the closed form of the run, in which only the first event can be dropped |
| `ObserveQueue.ExhaustedRun` | crates/zonkey-service/src/lib.rs:557-610 | an exhausted run has processed initial and accepted events in order with at most one reset in front; at most one event was dropped, only if the queue began full |
| `ObserveQueue.CallsOfRun` | crates/zonkey-service/src/lib.rs:557-629 | the calls of an exhausted run one by one: a reset first if continuity was lost, then queued and source events in order, without the first source event if the queue began full |
| `ObserveQueue.FailedRun` | crates/zonkey-service/src/lib.rs:585-589 | a run ended by a source error leaves as many events as were queued before, less one for a lost event |

## Left out

- Win32 handles, security descriptors, pipe creation, hooks and editor API calls are foreign code; a write, a delivery and an edit transaction are parameters that succeed or fail.
- Threads, locks, timeouts and overlapping requests: one request at a time, as the single-client server serves them; overlapping `apply` calls of the adapter are not modelled.
- The parsing and printing of the pipe commands (`parse_request`, `parse_descriptor_request`, `parse_reconcile`, `outcome_payload`) and the text answers of operator commands.
- Requests served without a recovery store, whose answer is a fixed rejection.
- The reply waiters of the named pipe client, where a late reply can reach a later waiter.
- Reading an existing state file is taken to succeed, and reopening to find its directory; the code treats every read error as a missing file.
- Random salts, nonces and session ids are parameters, and the salted hash is a fixed function in the protocol proofs.
- Machine-sized lengths are unbounded naturals; text lengths stay below 2^61 bytes where SHA-256 needs it, and event counters other than the saturating ones are unbounded.
- RecoveryStore.DurableRecoveryStore.OpenIn: creating a new file with capacity zero is excluded, because the code panics there.
- StoreRuns.BlockedUntilAcknowledged: stated for URIs without NUL and tokens that do not look like a stored hash, where only an acknowledgement ends a block; for all names the exact statement is `StoreHolders.BlockedUntilOverwritten`.
- StoreVerdicts.AcknowledgeFollowsVerdict: assumes such names and that no other token used with the same URI has the salted hash of the target; `StoreVerdicts.CollidingVerdictReleases` shows what happens otherwise.
- Preflight.ExecutedIsBlockedEverAfter: assumes the default capacity, and that the id of the request itself was not pending when it was received or its target was on record, because the code writes no new intent otherwise.
- RequestLedger.HandlerRunsOncePerId: assumes at most capacity distinct ids and no request turned away before its handler, because evicted ids run again; `LedgerSessions.HandlerRunsIffForgotten` has no such assumption.
- Frames.ClientAgrees: says nothing about payloads that are not valid UTF-8, which the client replaces and the server drops.
- HostAdapter.AppliedByOneTransaction: assumes the host never lowers the version of one document instance, which is a promise of the editor.
- CanonicalJson.CanonicalIffSameValue: numbers are taken by the text they print as, so negative zero and values that print as null are the values they print as.
- HostRequests.SameTextIffSameRequest: numeric fields are integers; a request with a fractional number is not modelled.
- MutationHarness.NeverCommittedTwice: assumes that nothing outside the harness lowers the host version.
- Decisions: the never-transform patterns, the dictionaries and the Vietnamese test are arbitrary functions, the confidences are hundredths, and only the writing context the processor uses is modelled; printed diagnostics are omitted.
- TokenEdits: Unicode segmentation is an arbitrary function whose graphemes concatenate to the text.
- ObserveQueue: where in the event stream a discontinuity happened is not claimed, because the mark goes to the oldest queued event.
- The scalar-unit duplicates of the host contract (`dummy_host`, `controlled_surface`), context labels, command-line parsing and configuration only add easy members.
