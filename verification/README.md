# Protocols of the launch platform, modelled and proved

The repository is a web platform whose parts share one database. This project models the protocols whose guarantees only
show over whole runs, and proves them for every input, every run and every interleaving the locks allow.

| part | files | what it is |
|---|---|---|
| transactional outbox | `OutboxStore`, `OutboxRelay`, `OutboxProtocol`, `OutboxTheorems`, `OutboxDraining`, `OutboxLaws` | rows claimed under leases, published, then delivered, retried or failed by workers that may crash |
| allowlists | `LittleEndian`, `AllowlistLeaf`, `TypeScriptCodec`, `RustCodec`, `AllowlistMerkle`, `AllowlistLaws` | the leaf codec in its two implementations, and sorted-pair Merkle proofs |
| creator admission | `CreatorAdmission`, `AdmissionHistory`, `AdmissionStore`, `AdmissionInterleaving`, `AdmissionIdempotency`, `AdmissionAnswers`, `AdmissionProgress`, `AdmissionScenes`, `AdmissionCollision`, `AdmissionLaws` | a reviewed state machine with a log, snapshots and doubly checked idempotency keys |
| plugins | `DependencyGraph`, `PagePaths`, `PageResolution`, `PageDrift`, `PageLaws` | the depth-first dependency check, path matching, and which page answers a path |
| uploads | `UploadIntents`, `UploadProtocol`, `UploadStore`, `UploadLaws` | intents reserved, failed, revived and completed once |
| wallets | `WalletQualification`, `WalletEvaluator`, `WalletReportOrder`, `WalletLaws` | which wallet providers the recorded evidence enables |
| authentication | `AuthCeremonies`, `AuthProtocol`, `AuthStore`, `AuthLaws` | wallet and passkey ceremonies and the sessions they share |
| organizations | `OrganizationOwnership`, `OwnershipInterleaving`, `OwnershipLaws` | memberships, the last owner, and the audit |

`Common` holds what they share. Database tables are maps and sequences held by a class, whose methods follow the
statements of the source, keep the invariant of the tables and are proved equal to a function from tables to tables; the
theorems are about that function and about all runs of it. A run is any list of steps, where a step that is impossible
changes nothing. Histories and ledgers in the run models are read by nothing but the theorems. Clocks are arbitrary readings
unless a statement says otherwise. The modules named `...Laws` state, without the functions that the transactions are proved
equal to, when each answer is given and what each column then holds.

Where the code does less than one would expect, the code is kept and the exact bound is proved:

* `attempts <= maxAttempts` is false for the outbox, because an expired lease is reclaimed without asking the policy. It
  fails exactly at such a reclaim, and the excess is bounded by their number (`ClaimOverrunsIff`, `RunSafety`).
* A settlement does not ask whether its lease has expired, only whether it still holds the row
  (`SettlementTakesEffectIffHeld`).
* Requests that share an idempotency key can reach the unique index over keys: the second replay check of a draft save
  comes before its row lock, and requests about two applicants share no lock. At most one of them takes effect in any case
  (`AppliesAtMostOnce`). `SharingIsSafeIff` says exactly which kinds of request may share keys.
* Not every request that loses to another with its key is answered replayed, conflict or not-found: one that ends before the
  winner's commit answers for itself, even forbidden (`EarlyLosersAnswerForThemselves`), and a draft save past its second
  check can end at the index. `AnswersAsPromisedIff` is the exact condition, `LosersAnswer` the exact answers after the
  winner's commit, `FirstComersAnswerForThemselves` those before it.
* A revived upload intent is not counted against the quota (`RevivalPassesLimitIff`, `PlainQuotaFails`,
  `QuotaOfEveryRun`).
* The two decoders accept the same bytes but report different errors in one case (`ErrorsAgreeExactly`).
* Honest Merkle proofs of a one-leaf tree are refused, since a proof must have a sibling (`HonestProofAcceptedIff`).
* The failures of a wallet qualification can depend on the order of the evidence (`ReportCanDependOnOrder`). They do not
  exactly if items with one key are judged alike (`ReportIgnoresOrderIff`); which wallets are enabled never depends on it
  (`PermutedEvidenceEnablesTheSame`).
* The drift check on pages compares joined lines, so a loaded path with a line break can pass for other pages
  (`LineBreakDeceives`). What passes is honest exactly if it has none (`PassingIsHonestIff`, `DriftCheckIff`).
* The refusal to unlink a final sign-in method cannot arise, since users only come with a wallet
  (`UnlinkingIsNeverFinal`).

`dafny verify dfyconfig.toml` checks the whole project.

## Model

| member | source | states |
|---|---|---|
| `OutboxTheorems.RunSafety` | packages/database/src/outbox/repository.ts:52-109 | In every run, with any number of workers, crashes and lost leases: an event is published at most once per attempt, a delivered row was accepted by the publisher under the very lease that settled it, a pending row has attempts left, and attempts exceed the maximum by at most the reclaims of expired leases |
| `OutboxTheorems.HeldClaimsAreCurrent` | packages/jobs/src/outbox-relay.ts:105-137 | While a worker holds an event it made the latest claim of it, and the attempts it works with are those of the row |
| `OutboxTheorems.FencedForever` | packages/database/src/outbox/repository.ts:91-109 | A lease that was used and does not hold an event never holds it again |
| `OutboxTheorems.SettlementTakesEffectIffHeld` | packages/database/src/outbox/repository.ts:91-109 | A settlement changes the table if and only if its lease still holds the event, expired or not; otherwise table and histories stay and the worker stops |
| `OutboxTheorems.EventsEndure` | packages/database/src/outbox/repository.ts:20-109 | Delivered and failed rows never change again; no row loses its event, its envelope or its attempts |
| `OutboxTheorems.PublicationsAreBounded` | packages/jobs/src/outbox-relay.ts:91-150 | Over any run, all publish calls together are at most events * maxAttempts plus the number of reclaims |
| `OutboxTheorems.ClaimOverrunsIff` | packages/database/src/outbox/repository.ts:52-88 | In a reachable state a claim takes a row past maxAttempts if and only if it reclaims an expired lease of a row already at the maximum |
| `OutboxTheorems.AttemptsCanPassTheMaximum` | packages/database/src/outbox/repository.ts:56-88 | A run in which attempts pass the maximum: claim, crash, reclaim |
| `OutboxTheorems.BatchIsARun` | packages/jobs/src/outbox-relay.ts:91-150 | Whatever rows are picked, the batch is the protocol run that claims them and then publishes and settles each undisturbed |
| `OutboxTheorems.BatchChoiceCanBeClaimed` | packages/database/src/outbox/repository.ts:52-88 | The relay's own choice of rows can be claimed in the protocol under a fresh lease |
| `OutboxTheorems.RelayBatchIsARun` | packages/jobs/src/outbox-relay.ts:91-150 | A whole undisturbed batch of the relay, with the rows it chooses, is a protocol run without a crash under its one lease |
| `OutboxDraining.BatchesAreARun` | packages/jobs/src/outbox-relay.ts:91-150 | Any list of batches under leases of their own is a protocol run without a crash, so the draining results are about runs of the protocol |
| `OutboxProtocol.RunKeepsInv` | packages/jobs/src/outbox-relay.ts:91-150 | The inductive invariant of rows, histories and worker queues holds along every run from any state that has it |
| `OutboxDraining.BatchProgress` | packages/jobs/src/outbox-relay.ts:91-150 | In crash-free operation the attempts left over all pending rows fall by at least the number of rows a batch claims |
| `OutboxDraining.CallsUseUpWork` | packages/jobs/src/outbox-relay.ts:91-150 | Publish calls of a list of batches plus the attempts left afterwards are at most the attempts left before |
| `OutboxDraining.CallsAreBounded` | packages/jobs/src/outbox-relay.ts:91-150 | N rows need at most N * maxAttempts publish calls, whatever the publisher answers |
| `OutboxDraining.DueRowsFinish` | packages/jobs/src/outbox-relay.ts:91-150 | If every batch starts at least retryMaxMs after the last settlement, N * maxAttempts batches leave every row that was due at the start delivered or failed, however small the batches |
| `OutboxRelay.RetryDelayBounds` | packages/jobs/src/outbox-relay.ts:76-89 | For every finite jitter the rounded delay lies in 1..retryMaxMs, is at least half the capped exponential and never more than it |
| `OutboxRelay.RetryDelayMonotone` | packages/jobs/src/outbox-relay.ts:76-89 | For fixed jitter more attempts never shorten the delay, and it is constant once the cap is reached |
| `OutboxRelay.RetriedRowWaits` | packages/jobs/src/outbox-relay.ts:123-137 | A retried row is claimable exactly from its delay on, so never at or before its failure, and always retryMaxMs after it |
| `OutboxRelay.CappedBackoff` | packages/jobs/src/outbox-relay.ts:85-87 | The capped exponential lies in 1..retryMaxMs for every number of attempts |
| `OutboxRelay.SettleClaimed` | packages/jobs/src/outbox-relay.ts:105-147 | One turn of the relay loop: the row ends as `SettledAs` says column by column, so that a terminal failure is final at any attempt; which counter it adds to; and the conflict when the lease is gone |
| `OutboxRelay.RelayOutboxBatch` | packages/jobs/src/outbox-relay.ts:91-150 | The batch among other workers who change the table between its turns: it claims its choice, goes through it turn by turn, ends at the first lost lease with the rest unsettled, and otherwise counts every row once in counters that add up; left alone it settles exactly what it claimed, and delivered, retried and failed are the numbers of chosen rows that are then delivered, pending and failed |
| `OutboxRelay.UndisturbedTurns` | packages/jobs/src/outbox-relay.ts:105-147 | Left alone, a worker finds no lease lost and turns the claimed rows into their settled form |
| `OutboxStore.OutboxTable.Enqueue` | packages/database/src/outbox/repository.ts:20-34 | Adds a pending row with no attempts, or refuses an event id that is there and changes nothing |
| `OutboxStore.OutboxTable.Claim` | packages/database/src/outbox/repository.ts:36-89 | Validates batch size and lease expiry, then leases exactly the oldest unlocked claimable rows until the instant asked for, each with one attempt more, and returns them; all other rows stay |
| `OutboxStore.SelectOldest` | packages/database/src/outbox/repository.ts:52-70 | The selection has no duplicates, respects the limit, and leaves out no candidate that precedes a selected one in (availableAt, eventId) order |
| `OutboxStore.OldestIsUnique` | packages/database/src/outbox/repository.ts:52-70 | Ordering and limit determine the set of rows a claim takes |
| `OutboxStore.Oldest` | packages/database/src/outbox/repository.ts:52-70 | Such a set exists for every pool and limit |
| `OutboxStore.OutboxTable.UpdateLeasedEvent` | packages/database/src/outbox/repository.ts:91-109 | The conditional update writes one row if the lease holds it and otherwise reports a state conflict and writes nothing |
| `OutboxStore.OutboxTable.MarkDelivered` | packages/database/src/outbox/repository.ts:111-126 | Delivery of a held row, conflict otherwise |
| `OutboxStore.OutboxTable.Retry` | packages/database/src/outbox/repository.ts:128-145 | Release of a held row to a later time; a blank reason or a lost lease changes nothing |
| `OutboxStore.OutboxTable.Fail` | packages/database/src/outbox/repository.ts:147-162 | Failure of a held row; a blank reason or a lost lease changes nothing |
| `OutboxStore.OperationsKeepConstraints` | packages/database/src/schema/outbox.ts:51-71 | Every write keeps the check constraints of the table |
| `OutboxLaws.ClaimedColumns` | packages/database/src/outbox/repository.ts:72-88 | Every column a claim writes: delivering, the lease, the very expiry asked for, one attempt more; the envelope, the due time and all other rows stay |
| `OutboxLaws.ClaimedRowIsLeased` | packages/database/src/outbox/repository.ts:56-70 | After a claim until an instant, its rows are candidates for another claim exactly from that instant on |
| `OutboxLaws.ClaimTakesTheEarliest` | packages/database/src/outbox/repository.ts:52-70 | What a claim takes is due, unlocked, and pending or with its lease run out; a due pending row is left only if the limit is used up by rows before it |
| `OutboxLaws.ReclaimsWaitForTheLease` | packages/database/src/outbox/repository.ts:56-88 | Over every run, a claim that takes an unsettled event from another worker reads a clock at or after what that worker's own claim asked for |
| `OutboxLaws.ClaimsAskForTheDuration` | packages/jobs/src/outbox-relay.ts:91-104 | What a claim asks for, and the row then holds, is its own clock reading plus the policy's lease duration |
| `OutboxLaws.ValidPolicyIff` | packages/jobs/src/outbox-relay.ts:7-18 | A policy is accepted if and only if each number lies between 1 and 2^53 - 1 and the retry base is within its maximum |
| `OutboxLaws.ClaimIsRecorded` | packages/jobs/src/outbox-relay.ts:91-104 | The histories the theorems speak of: a claim is noted for exactly its events, as a reclaim exactly if the event was being delivered |
| `OutboxLaws.PublicationIsRecorded` | packages/jobs/src/outbox-relay.ts:105-112 | Each publish call is noted for its event, with its lease and the answer, and for no other |
| `OutboxLaws.EnqueuedRowIsDue` | packages/database/src/outbox/repository.ts:20-34 | A new row was never tried and is a candidate exactly from its time on |
| `OutboxRelay.SettledColumns` | packages/jobs/src/outbox-relay.ts:105-137 | Column by column: accepted ends delivered; a terminal failure ends failed with its reason at whatever attempt; unavailable ends pending at the clock plus the delay while attempts are left and failed when not; a lease is held no longer |
| `OutboxLaws.SettlementFollowsTheAnswer` | packages/jobs/src/outbox-relay.ts:105-137 | In the protocol, a settlement under a held lease leaves its row in exactly that way and every other row alone |
| `OutboxRelay.BatchStates` | packages/jobs/src/outbox-relay.ts:91-150 | After a batch left alone, a chosen row is delivered if and only if its publication was accepted, pending if and only if it was unavailable with attempts left, and failed otherwise |
| `OutboxRelay.CountersAreStates` | packages/jobs/src/outbox-relay.ts:138-150 | The counters delivered, retried and failed are the numbers of chosen rows in those states of the resulting table |
| `OutboxLaws.BackoffDoubles` | packages/jobs/src/outbox-relay.ts:85-87 | The capped back-off starts at retryBaseMs and is doubled by each further attempt up to retryMaxMs |
| `OutboxLaws.JitterLengthensTheDelay` | packages/jobs/src/outbox-relay.ts:76-89 | Without jitter the delay is half the capped back-off, rounded; with full jitter all of it; and more jitter never shortens it |
| `TypeScriptCodec.DecodeIffEncoding` | packages/shared/src/allowlists/codec.ts:109-171 | Canonical both ways: decode(b) is leaf if and only if encode(leaf) is b |
| `TypeScriptCodec.AcceptedStringsArePrefixFree` | packages/shared/src/allowlists/codec.ts:127-171 | No accepted byte string is a proper prefix of another |
| `TypeScriptCodec.EncodingIsInjective` | packages/shared/src/allowlists/codec.ts:109-125 | Different valid leaves have different encodings |
| `RustCodec.DecodersAgree` | contracts/spikes/allowlist-proof-v1/src/lib.rs:83-143 | The Rust and the TypeScript decoder accept the same byte strings and read the same leaf from each |
| `RustCodec.ErrorsAgreeExactly` | contracts/spikes/allowlist-proof-v1/src/lib.rs:83-143 | On refused byte strings both report the same kind of error, except exactly when the fields are readable, make an invalid leaf and bytes are left over |
| `RustCodec.Encode` | contracts/spikes/allowlist-proof-v1/src/lib.rs:58-81 | The Rust encoder refuses and writes exactly what the TypeScript encoder does |
| `RustCodec.EncodeOptional` | contracts/spikes/allowlist-proof-v1/src/lib.rs:219-229 | Widening an optional value to 128 bits and truncating it writes its own little-endian bytes after a tag |
| `RustCodec.TypedAndValidatedIsValid` | contracts/spikes/allowlist-proof-v1/src/lib.rs:128-143 | Rust's types and its validation together accept exactly the valid leaves of the schema |
| `RustCodec.Decode` | contracts/spikes/allowlist-proof-v1/src/lib.rs:83-126 | The reader-driven decoder computes the specification, trailing bytes before validation |
| `RustCodec.Reader.Read` | contracts/spikes/allowlist-proof-v1/src/lib.rs:160-187 | A read takes exactly the next bytes or fails without moving |
| `RustCodec.Reader.ReadOptionalU64` | contracts/spikes/allowlist-proof-v1/src/lib.rs:201-207 | An optional 64-bit field: its tag, then its bytes |
| `TypeScriptCodec.EncodeAllowlistLeafV1` | packages/shared/src/allowlists/codec.ts:109-125 | The encoder writes the fields of a valid leaf in order and refuses every other leaf |
| `TypeScriptCodec.DecodeAllowlistLeafV1` | packages/shared/src/allowlists/codec.ts:127-171 | The reader-driven decoder computes the specification, validation before trailing bytes |
| `TypeScriptCodec.EncodeUnsigned` | packages/shared/src/allowlists/codec.ts:66-74 | The loop writes the little-endian base-256 digits of the value |
| `TypeScriptCodec.Concatenate` | packages/shared/src/allowlists/codec.ts:85-95 | The buffer filled in a loop is the parts in order |
| `TypeScriptCodec.ByteReader.Read` | packages/shared/src/allowlists/codec.ts:25-37 | A read takes exactly the next bytes or fails without moving |
| `TypeScriptCodec.ByteReader.ReadUnsigned` | packages/shared/src/allowlists/codec.ts:48-56 | The accumulating loop yields the little-endian value of the next bytes |
| `TypeScriptCodec.ByteReader.ReadOptionalUnsigned` | packages/shared/src/allowlists/codec.ts:58-63 | Only the tags 0 and 1 are accepted |
| `LittleEndian.FromToBytes` | packages/shared/src/allowlists/codec.ts:48-74 | Reading what was written gives the value back, for every width |
| `LittleEndian.ToFromBytes` | packages/shared/src/allowlists/codec.ts:48-74 | Writing what was read gives the bytes back, for every width |
| `LittleEndian.TruncatedWide` | contracts/spikes/allowlist-proof-v1/src/lib.rs:219-229 | Writing wider and keeping the low bytes is writing narrow |
| `LittleEndian.Widths` | packages/shared/src/allowlists/schema.ts:3-5 | The powers of 256 for the field widths 2, 4, 8 and 16; the integer limits of the schema are one less than the last three |
| `AllowlistLeaf.TakeFieldsOfWire` | packages/shared/src/allowlists/codec.ts:127-171 | Reading an encoding gives the leaf, whatever follows it |
| `AllowlistLeaf.WireOfTakeFields` | packages/shared/src/allowlists/codec.ts:127-171 | Whatever is read as a leaf is the encoding of that leaf and the bytes left over |
| `AllowlistLeaf.MinimumEncodingLength` | packages/shared/src/allowlists/codec.ts:109-125 | No valid leaf is encoded in fewer than 98 bytes |
| `AllowlistLeaf.ValidLeavesFit` | packages/shared/src/allowlists/schema.ts:50-87 | Every valid leaf fits the widths it is written with |
| `AllowlistLaws.EncodingIsLaidOut` | packages/shared/src/allowlists/codec.ts:109-125 | Where every field stands: the 22 characters ADOR_ALLOWLIST_LEAF_V1, the network tag (bitcoin 0, testnet 1, signet 2, regtest 3) at 22, the commitment at 23, the phase at 55, the version at 71, the script length at 75, the script at 77, then allocation, asset, price and bounds, and nothing after them |
| `AllowlistLaws.DigitAt` | packages/shared/src/allowlists/codec.ts:66-74 | Byte k of an encoded number is its digit of 256 to the power of k |
| `AllowlistLaws.EncodesIff` | packages/shared/src/allowlists/schema.ts:50-87 | A leaf has an encoding if and only if every field lies in its bounds, given in figures |
| `AllowlistLaws.DecoderFindsTheFirstFault` | packages/shared/src/allowlists/codec.ts:127-171 | For every byte string and every error, when the TypeScript decoder answers it: by the bytes at their offsets for unreadable fields, then by the leaf, then by what follows it |
| `AllowlistLaws.RustDecoderChecksTheEndFirst` | contracts/spikes/allowlist-proof-v1/src/lib.rs:83-143 | When the Rust decoder answers which error on readable fields: trailing bytes, then version, script length, allocation and bounds in that order |
| `AllowlistMerkle.AcceptedProofIsHonestOrCollides` | packages/shared/src/allowlists/merkle.ts:31-58 | For any hash to 32 bytes and any tree of encoded leaves: if a leaf's encoding with a sibling list folds to the tree's root, an explicit extractor finds that encoding in the tree with that very proof, or two different byte strings with one hash |
| `AllowlistMerkle.FoldedProofIsHonestOrCollides` | packages/shared/src/allowlists/merkle.ts:46-58 | The same for any contents longer than a node preimage |
| `AllowlistMerkle.HonestProofAcceptedIff` | packages/shared/src/allowlists/merkle.ts:46-58 | A leaf's own proof gives the root if and only if its depth is between 1 and maximumDepth |
| `AllowlistMerkle.NodeBytesWouldBeAccepted` | packages/shared/src/allowlists/merkle.ts:31-58 | Without the length floor soundness fails: the 64 bytes of an inner node are accepted as content |
| `AllowlistMerkle.NodePreimageIsUnorderedPair` | packages/shared/src/allowlists/merkle.ts:31-44 | A node's preimage depends on and determines its two hashes as an unordered pair |
| `AllowlistMerkle.NodePreimagesAgree` | contracts/spikes/allowlist-proof-v1/src/lib.rs:235-248 | Both implementations hash the same node bytes |
| `AllowlistMerkle.OrdersAgree` | contracts/spikes/allowlist-proof-v1/src/lib.rs:235-248 | Rust's array order and the TypeScript byte comparison agree |
| `AllowlistMerkle.FoldOkIff` | packages/shared/src/allowlists/merkle.ts:46-58 | Folding succeeds if and only if every sibling is 32 bytes |
| `AllowlistMerkle.CompareBytes` | packages/shared/src/allowlists/merkle.ts:5-18 | The comparison loop computes the sign-carrying lexicographic difference |
| `AllowlistMerkle.Join` | packages/shared/src/allowlists/merkle.ts:20-25 | The filled buffer is the concatenation |
| `AllowlistMerkle.HashAllowlistNode` | packages/shared/src/allowlists/merkle.ts:31-44 | Refuses operands that are not 32 bytes and otherwise hashes the sorted pair |
| `AllowlistLaws.ProofIsRefusedIff` | packages/shared/src/allowlists/merkle.ts:46-58 | For every proof and every error: first the bound itself, then the number of siblings, then a sibling that is not 32 bytes |
| `AllowlistLaws.CompareIsLexicographic` | packages/shared/src/allowlists/merkle.ts:5-18 | A comparison is negative if and only if at the first byte that differs the left one is smaller |
| `AllowlistLaws.NodeBeginsWithTheSmaller` | packages/shared/src/allowlists/merkle.ts:31-44 | A node hashes the lexicographically smaller of its two hashes followed by the other |
| `AdmissionHistory.HistoryOfEveryRun` | packages/creator-admission/src/adapters/drizzle-repository.ts:53-165 | In every reachable state and for every application: the log leads from draft to the state by the transition table, the revision counts saved drafts, snapshots are numbered 1..n for n submissions, a draft that cannot be edited is the latest snapshot's payload, and no key is logged twice |
| `AdmissionHistory.TraceIsChain` | packages/shared/src/creator-admission/state-machine.ts:6-34 | A log that traces starts at draft, obeys the table at every event, and each event starts where the one before ended |
| `AdmissionHistory.LogsOnlyGrow` | packages/creator-admission/src/adapters/drizzle-helpers.ts:86-118 | Events and snapshots are never changed or removed |
| `AdmissionHistory.RepeatedRequest` | packages/creator-admission/src/adapters/drizzle-helpers.ts:58-84 | Once a request has been applied, a request with its key changes nothing, however much happened in between, and is answered replayed or conflict exactly by actor, fingerprint and application |
| `AdmissionHistory.AppliedIsLogged` | packages/creator-admission/src/adapters/drizzle-helpers.ts:86-118 | An applied request adds exactly one event, with its actor, key and fingerprint, and its key was unused |
| `AdmissionInterleaving.EveryScheduleIsSerial` | packages/creator-admission/src/adapters/drizzle-repository.ts:40-241 | Every interleaving of statements under the advisory and row locks ends in the tables its committed requests give one after another in commit order |
| `AdmissionInterleaving.CommitIsApply` | packages/creator-admission/src/adapters/drizzle-repository.ts:40-241 | A transaction that commits did what the whole request would do at the moment of the commit |
| `AdmissionIdempotency.AppliesAtMostOnce` | packages/creator-admission/src/adapters/drizzle-helpers.ts:58-84 | Under every interleaving at most one of the transactions that carry one key takes effect |
| `AdmissionIdempotency.OnlyChangedTouchesTables` | packages/creator-admission/src/adapters/drizzle-repository.ts:40-241 | A statement changes the tables only as the commit that ends its transaction as changed |
| `AdmissionIdempotency.CheckAnswersRepeats` | packages/creator-admission/src/adapters/drizzle-helpers.ts:58-84 | What a replay check does in every case: continue, answer with the application, wait for its row, or conflict |
| `AdmissionIdempotency.DisciplinedKeysNeverCollide` | packages/creator-admission/src/adapters/drizzle-repository.ts:40-112 | If requests share a key only as `MayShare` allows, no schedule reaches the unique-index violation |
| `AdmissionIdempotency.ClosedIsFinal` | packages/shared/src/creator-admission/state-machine.ts:6-34 | Approved, rejected, suspended and revoked applications never become editable again |
| `AdmissionAnswers.LosersAnswer` | packages/creator-admission/src/adapters/drizzle-repository.ts:40-241 | Over every schedule: of requests about one application that share a key, one that finishes after another took effect changes nothing, and answers replayed, with the application as it stands, exactly if actor, key and fingerprint agree, and conflict otherwise; only a draft save already past its second check when the winner took effect answers otherwise, with the unique-index violation exactly if the application is editable at its commit and a conflict if not |
| `AdmissionAnswers.LosersAreTurnedAway` | packages/creator-admission/src/adapters/drizzle-repository.ts:40-241 | The same read off a finished schedule: conflict, replayed, the violation or a lost connection, and when each |
| `AdmissionAnswers.FirstComersAnswerForThemselves` | packages/creator-admission/src/adapters/drizzle-repository.ts:40-241 | A transaction that finishes while its key is unused does and answers what the whole request would there |
| `AdmissionAnswers.AnswersAsPromisedIff` | packages/creator-admission/src/adapters/drizzle-helpers.ts:58-84 | Exactly when a request answers changed, replayed, conflict or not-found: with its key logged for its application, unless it is a draft save past its second check on an editable application; with its key unused, if the whole request by itself answers so |
| `AdmissionAnswers.PastCheckSince` | packages/creator-admission/src/adapters/drizzle-repository.ts:41-60 | Once a key is taken, which transactions are past their second check no longer changes |
| `AdmissionCollision.EarlyLosersAnswerForThemselves` | packages/creator-admission/src/adapters/drizzle-repository.ts:188-205 | A schedule in which a review by somebody without the role is answered forbidden, and a good review of the same application with the same key then takes effect |
| `AdmissionProgress.SomeTransactionMoves` | packages/creator-admission/src/adapters/drizzle-repository.ts:40-241 | The advisory and row locks cannot deadlock: while a transaction is unfinished, some transaction can run its next statement |
| `AdmissionProgress.MovingOnLowersRank` | packages/creator-admission/src/adapters/drizzle-repository.ts:40-241 | A statement that does not wait brings its transaction nearer to its end, and touches no other |
| `AdmissionProgress.EveryScheduleHasHolders` | packages/creator-admission/src/adapters/drizzle-helpers.ts:36-56 | A row lock is held by a transaction at work on that row, an applicant lock by a draft save of that applicant |
| `AdmissionIdempotency.LeadsToClosedIff` | packages/shared/src/creator-admission/state-machine.ts:6-34 | The decisions that close an application are approve, reject, suspend, reinstate and revoke |
| `AdmissionCollision.SharingIsSafeIff` | packages/creator-admission/src/adapters/drizzle-repository.ts:40-187 | For any relation saying which kinds of request may share a key, about one applicant or two: no schedule reaches the unique-index violation if and only if only requests about one applicant share keys and no draft save shares one with a submission, a start of a review or a request for changes |
| `AdmissionCollision.ReopeningCollides` | packages/creator-admission/src/adapters/drizzle-repository.ts:41-60 | For each of these three kinds a schedule in which a draft save and such a request with its key reach the violation: the second check of the draft save comes before its row lock |
| `AdmissionCollision.StrangersCollide` | packages/creator-admission/src/adapters/drizzle-helpers.ts:49-84 | For any two kinds of request a schedule in which requests of these kinds about two applicants reach the violation |
| `AdmissionStore.Repository.SaveDraft` | packages/creator-admission/src/adapters/drizzle-repository.ts:40-94 | The transaction on the tables computes the atomic request |
| `AdmissionStore.Repository.Submit` | packages/creator-admission/src/adapters/drizzle-repository.ts:96-167 | The transaction on the tables computes the atomic request |
| `AdmissionStore.Repository.Review` | packages/creator-admission/src/adapters/drizzle-repository.ts:169-241 | The transaction on the tables computes the atomic request, whose conditions and effect are `ReviewAppliesIff` and `ReviewEffect` |
| `AdmissionStore.Repository.ReplayMutation` | packages/creator-admission/src/adapters/drizzle-helpers.ts:58-84 | The check answers exactly for keys in the log |
| `AdmissionStore.Repository.InsertAdmissionEvent` | packages/database/src/schema/creator-admission.ts:133 | The insert appends if and only if the key is not in the log |
| `AdmissionLaws.LogTellsTheState` | packages/shared/src/creator-admission/state-machine.ts:6-34 | Over every run: the state of every application is the one its last decision names (approve or reinstate approved, reject rejected, and so on; a draft save changes nothing), and every decision followed on a state it may follow |
| `AdmissionLaws.ResolvesIff` | packages/shared/src/creator-admission/state-machine.ts:6-34 | The transition table, both ways: which action may follow on which state, and the state it leads to |
| `AdmissionLaws.TraceAllows` | packages/shared/src/creator-admission/state-machine.ts:6-34 | In a log that traces, every event is one that may follow on what was decided before it |
| `AdmissionLaws.ReviewAppliesIff` | packages/creator-admission/src/adapters/drizzle-repository.ts:169-241 | A review takes effect if and only if its key is unused, its reviewer holds the role and is not the applicant, the action may follow on the last decision, and an approval has a verified contact |
| `AdmissionLaws.ReviewAnswers` | packages/creator-admission/src/adapters/drizzle-repository.ts:169-205 | Every refusal of a review with a new key, both ways and in order: invalid action, not found, forbidden, conflict, contact unverified |
| `AdmissionLaws.SubmissionAnswers` | packages/creator-admission/src/adapters/drizzle-repository.ts:96-140 | Every refusal of a submission with a new key, both ways and in order: not found, not declared in full, conflict, contact unverified |
| `AdmissionLaws.SaveAnswers` | packages/creator-admission/src/adapters/drizzle-repository.ts:53-80 | A draft save with a new key is refused as a conflict if and only if the application is not editable, and by its id if and only if a new one would take an id in use |
| `AdmissionLaws.ReviewEffect` | packages/creator-admission/src/adapters/drizzle-repository.ts:206-241 | What a review changes: the state, to the one its action names, and the log, by its one event; nothing else |
| `AdmissionLaws.SubmissionAppliesIff` | packages/creator-admission/src/adapters/drizzle-repository.ts:96-167 | A submission takes effect if and only if its key is unused, all four declarations are given, the state allows it and the contact is verified |
| `AdmissionLaws.SaveAppliesIff` | packages/creator-admission/src/adapters/drizzle-repository.ts:40-94 | A draft save takes effect if and only if its key is unused and the applicant has no application or an editable one; the draft is then the one sent |
| `AdmissionLaws.EventNamesItsSnapshot` | packages/creator-admission/src/adapters/drizzle-helpers.ts:86-118 | An event of a draft save names no snapshot, that of a submission the one it makes, that of a decision the latest one |
| `AdmissionLaws.EveryEventIsWarranted` | packages/creator-admission/src/adapters/drizzle-repository.ts:169-205 | Over every run: each logged event came from a request with its actor, key and fingerprint that was entitled to it; no review is by its own applicant and each is by a holder of its role, and approvals and submissions had a verified contact |
| `AdmissionLaws.SnapshotsAreDeclared` | packages/creator-admission/src/adapters/drizzle-repository.ts:113-140 | Over every run: every snapshot has all four declarations |
| `DependencyGraph.AssertDependencyGraph` | packages/plugin-kit/src/registry.ts:148-169 | Accepts if and only if every dependency is registered and the graph has no cycle; then the completion order is a dependency order of all features; a reported cycle is one and a reported missing feature is an unregistered dependency |
| `DependencyGraph.DependencyCheck.Visit` | packages/plugin-kit/src/registry.ts:151-164 | The recursive visit ends, keeps the stack a path and the complete set in dependency order, and reports only real cycles and real gaps |
| `DependencyGraph.OrderedGraphIsSound` | packages/plugin-kit/src/registry.ts:148-169 | A dependency order of all features exists only without cycles and gaps |
| `DependencyGraph.OrderFallsAlongPath` | packages/plugin-kit/src/registry.ts:148-169 | Along a dependency path positions in the order fall by at least its length |
| `DependencyGraph.CreateFeatureRegistry` | packages/plugin-kit/src/registry.ts:199-215 | Registration refuses exactly duplicate ids and otherwise checks the graph of all definitions |
| `PageResolution.RegistrationOrderDoesNotMatter` | packages/plugin-kit/src/registry.ts:255-268 | After the boot check and drift-free loading, features in any order resolve every path to the same page, the one best match, or to none exactly if none matches |
| `PageResolution.ConflictFreeIsUnambiguous` | packages/plugin-kit/src/boot.ts:83-122 | Pages free of conflicts are unambiguous: no path matches two static or two dynamic ones |
| `PageResolution.AtMostOneOfEach` | packages/plugin-kit/src/registry.ts:60-84 | Among unambiguous pages a path matches at most one static and one dynamic page |
| `PageResolution.ResolvedIsBest` | packages/plugin-kit/src/registry.ts:255-268 | Sorting by dynamic segments and taking the first match gives a static match if there is one, else a dynamic one, else nothing |
| `PageResolution.BestIsUnique` | packages/plugin-kit/src/registry.ts:255-268 | There is at most one best page |
| `PageResolution.ResolutionIgnoresOrder` | packages/plugin-kit/src/registry.ts:255-268 | The same unambiguous pages in another order resolve every path alike |
| `PageResolution.LoadedAreManifest` | packages/plugin-kit/src/registry.ts:121-146 | Without drift the loaded pages are exactly the pages of the manifests |
| `PageResolution.AssertUniquePages` | packages/plugin-kit/src/boot.ts:83-122 | The loop passes if and only if every page capability is declared and no two pages conflict; the feature or the two pages it names are at fault |
| `PageResolution.FindConflict` | packages/plugin-kit/src/boot.ts:83-122 | The search finds an owned page exactly if one conflicts |
| `PageResolution.ResolvePage` | packages/plugin-kit/src/registry.ts:255-268 | The loop returns the resolved page and the parameters its template binds |
| `PagePaths.MatchPage` | packages/plugin-kit/src/registry.ts:60-80 | The matching loop succeeds exactly if the segments match and binds the parameters |
| `PagePaths.ParametersBind` | packages/plugin-kit/src/registry.ts:60-80 | Each parameter is bound to the segment in its place, unless that segment spells the template segment itself |
| `PagePaths.CommonMatchOverlaps` | packages/plugin-kit/src/boot.ts:85-97 | Two templates that match one path overlap |
| `PagePaths.ConflictHasCommonMatch` | packages/plugin-kit/src/boot.ts:85-122 | Two valid templates with parameters that conflict both match a concrete path, without parameters of its own, that the proof constructs |
| `PagePaths.SplitOfJoin` | packages/plugin-kit/src/registry.ts:60-66 | Splitting joined segments gives the segments |
| `PageDrift.DriftCheckIff` | packages/plugin-kit/src/registry.ts:130-145 | While no loaded path has a line break the comparison of sorted, joined lines passes exactly if the loaded pages are the manifest pages, in any order |
| `PageDrift.PassingIsHonestIff` | packages/plugin-kit/src/registry.ts:130-145 | For a one-line manifest, pages that pass the comparison are the manifest pages if and only if none of their paths has a line break |
| `PageDrift.PassingIsWithoutDrift` | packages/plugin-kit/src/registry.ts:121-146 | For a valid manifest the check is the condition under which resolution does not depend on order |
| `PageDrift.LineBreakDeceives` | packages/plugin-kit/src/registry.ts:130-145 | With a line break in its path one loaded page passes for two of the manifest |
| `PagePaths.StaticMatchesItself` | packages/plugin-kit/src/registry.ts:60-84 | A template without parameters matches exactly itself |
| `PagePaths.BracketIffDynamic` | packages/plugin-kit/src/registry.ts:82-84 | The boot check's test for a bracket agrees with the registry's count of dynamic segments on valid paths |
| `PagePaths.JoinOfSplit` | packages/plugin-kit/src/registry.ts:60-66 | Joining the segments of a path gives the path |
| `PageLaws.ValidPagePathIff` | packages/shared/src/features/manifest.ts:52-56 | A path is valid if and only if it is a lone slash, or segments each after a slash, where a segment is words with single dashes between them or a name in brackets |
| `PageLaws.ValidTemplateMatchesIff` | packages/plugin-kit/src/registry.ts:60-80 | A path matches a valid template if and only if they have as many segments and each segment is the template segment, or any text but none where a parameter stands |
| `PageLaws.BoundNames` | packages/plugin-kit/src/registry.ts:60-80 | Nothing is bound but a parameter of the template, to the segment in its place |
| `PageLaws.ConflictsIff` | packages/plugin-kit/src/boot.ts:85-97 | Two valid templates conflict if and only if they are equal, or both have parameters, equally many segments, and agree wherever neither has one |
| `PageLaws.CapabilitiesDeclaredIff` | packages/plugin-kit/src/boot.ts:99-110 | The check asks for the public-page capability if a page is public and for the authenticated-page capability if one is not |
| `UploadProtocol.CompletionIsExactlyOnce` | packages/uploads/src/adapters/drizzle-repository.ts:48-116 | Under any interleaving of reservations, failed signings, revivals and two-phase completions: an intent is completed iff it has an asset iff exactly one outbox event names it, never two, and the asset has the intent's object, user, provider and length |
| `UploadProtocol.SuccessfulCallsAgree` | packages/uploads/src/application/service.ts:59-115 | All successful completion calls of one intent return the same asset |
| `UploadProtocol.RepeatedReservation` | packages/uploads/src/adapters/drizzle-repository.ts:163-197 | Repeating a reservation while its intent is open changes nothing and answers with that intent if the fingerprint is the same, with a conflict otherwise |
| `UploadProtocol.CompletesIffOpen` | packages/uploads/src/adapters/drizzle-repository.ts:48-116 | A completion takes effect if and only if its event matches, its ids are fresh and its intent is open, of its user and provider |
| `UploadProtocol.TablesOnlyExtend` | packages/uploads/src/adapters/drizzle-repository.ts:48-218 | Assets never change, and intents change only their state and expiry |
| `UploadProtocol.QuotaOfEveryRun` | packages/uploads/src/adapters/drizzle-repository.ts:156-218 | At any time not before the latest reservation a user's unexpired reserved intents number at most the limit plus those that were revived; without revivals at most the limit |
| `UploadProtocol.RevivalPassesLimitIff` | packages/uploads/src/adapters/drizzle-repository.ts:171-190 | A revival passes the limit if and only if the limit was reached without it |
| `UploadProtocol.PlainQuotaFails` | packages/uploads/src/adapters/drizzle-repository.ts:156-218 | A run that ends above the limit by a revival |
| `UploadStore.UploadRepository.ReserveIntent` | packages/uploads/src/adapters/drizzle-repository.ts:156-218 | The transaction computes the reservation: repeat, conflict, revival, quota, insert; it keeps the invariant of the tables |
| `UploadStore.UploadRepository.CompleteIntent` | packages/uploads/src/adapters/drizzle-repository.ts:48-116 | The transaction computes the completion: mismatched event, unavailable, completed before, or asset, state and event together; it keeps the invariant of the tables if the object has the length of the intent |
| `UploadStore.UploadRepository.MarkFailed` | packages/uploads/src/adapters/drizzle-repository.ts:144-155 | Only the user's own reserved intent is marked failed |
| `UploadLaws.ReserveWithKey` | packages/uploads/src/adapters/drizzle-repository.ts:163-197 | Every answer to a reservation whose key is known, both ways: conflict, the open intent itself, or a failed intent revived with a new expiry; only that changes anything |
| `UploadLaws.ReserveWithoutKey` | packages/uploads/src/adapters/drizzle-repository.ts:198-218 | Every answer to a reservation with a new key, both ways: over the limit, a unique index, or the intent inserted as reserved |
| `UploadLaws.QuotaExceededIff` | packages/uploads/src/adapters/drizzle-repository.ts:198-211 | Exactly when the quota refuses: the user has no intent of this key and at least as many reserved, unexpired intents as the limit |
| `UploadLaws.SigningFailure` | packages/uploads/src/adapters/drizzle-repository.ts:144-155 | Exactly the user's own reserved intent is failed, and nothing else changes |
| `UploadLaws.CompleteAnswers` | packages/uploads/src/adapters/drizzle-repository.ts:48-116 | Every answer to a completion, both ways, by the tables alone |
| `UploadLaws.MismatchedEventFails` | packages/uploads/src/adapters/drizzle-repository.ts:27-41 | An event that names another asset or intent is refused before anything is read |
| `UploadLaws.CompleteEffect` | packages/uploads/src/adapters/drizzle-repository.ts:78-112 | What a completion leaves: the intent completed, the asset with the key and owner of the intent and the observed length and provider, and one event with its three ids |
| `UploadLaws.StartAnswers` | packages/uploads/src/adapters/drizzle-repository.ts:117-127 | A call reads the intent if it is its user's and ends as unavailable otherwise |
| `UploadLaws.ReadAnswers` | packages/uploads/src/adapters/drizzle-repository.ts:128-143 | What the second read leads to: the asset, unavailable, or the object being asked for |
| `UploadLaws.FinishAnswers` | packages/uploads/src/application/service.ts:80-115 | How a call ends: missing object, invalid object exactly if length, size or a text is wrong, or the transaction with what it read |
| `WalletEvaluator.EvaluateWalletQualifications` | packages/wallet/src/conformance/evaluate.ts:125-207 | The evaluator returns, in order, exactly the candidates that are `Enabled` by the declarative meaning, and the full report of failures |
| `WalletEvaluator.ReadEvidence` | packages/wallet/src/conformance/evaluate.ts:139-152 | After the loop `accepted` is exactly the keys with one item of evidence, that one passing, and `invalidProviders` exactly the providers with failing or duplicated evidence |
| `WalletEvaluator.EnabledAmongIff` | packages/wallet/src/conformance/evaluate.ts:163-204 | A candidate is enabled if and only if it is configured and meets the declarative conditions |
| `WalletEvaluator.PermutedEvidenceEnablesTheSame` | packages/wallet/src/conformance/evaluate.ts:125-207 | Any permutation of the evidence enables the same candidates |
| `WalletEvaluator.OthersEvidenceIsIrrelevant` | packages/wallet/src/conformance/evaluate.ts:125-207 | Evidence about another provider decides nothing about a candidate |
| `WalletEvaluator.FurtherEvidenceKeepsEnabledIff` | packages/wallet/src/conformance/evaluate.ts:139-204 | An enabled candidate survives another item about its provider if and only if that item passes and is the first for its key |
| `WalletEvaluator.SilentIffAllEnabled` | packages/wallet/src/conformance/evaluate.ts:125-207 | No failure is reported if and only if policy and clock are valid, all evidence is clean and every candidate is enabled |
| `WalletReportOrder.ReportIgnoresOrderIff` | packages/wallet/src/conformance/evaluate.ts:125-207 | Every permutation of the evidence reports the same failures equally often if and only if items that share a key are judged alike |
| `WalletReportOrder.ReportCounts` | packages/wallet/src/conformance/evaluate.ts:139-152 | How often each failure is reported: duplicates one less than the items with the key, a verdict once if the first item with the key draws it |
| `WalletReportOrder.ReportCanDependOnOrder` | packages/wallet/src/conformance/evaluate.ts:139-152 | A valid policy and two items with one key whose two orders are reported differently |
| `WalletEvaluator.ReportDependsOnOrder` | packages/wallet/src/conformance/evaluate.ts:139-152 | What is reported for a passing and a failing item with one key, in either order |
| `WalletEvaluator.NoEvidenceFailureIff` | packages/wallet/src/conformance/evaluate.ts:139-152 | The evidence loop reports nothing exactly on clean evidence |
| `WalletEvaluator.NothingReportedIff` | packages/wallet/src/conformance/evaluate.ts:163-204 | A candidate draws no failure of its own exactly if it is well formed, unique and covers the whole matrix |
| `WalletEvaluator.RequiredKeysIff` | packages/wallet/src/conformance/evaluate.ts:61-95 | The nested mapping lists exactly the demanded matrix: every check of every capability in every environment, network, address type and scheme |
| `WalletEvaluator.FailureOf` | packages/wallet/src/conformance/evaluate.ts:97-123 | Evidence passes exactly if it passed, is neither future nor stale, and fits version, fixture and signing scheme |
| `WalletEvaluator.CandidateFailures` | packages/wallet/src/conformance/evaluate.ts:163-198 | The checks of one candidate in order |
| `WalletEvaluator.DuplicateProviders` | packages/wallet/src/conformance/evaluate.ts:154-161 | The loop collects exactly the providers configured more than once |
| `WalletEvaluator.SoleInBag` | packages/wallet/src/conformance/evaluate.ts:139-152 | Standing alone for a key is a property of the evidence as a bag |
| `WalletQualification.UncontestedIffValid` | packages/wallet/src/conformance/validate-policy.ts:4-49 | A policy draws no failure exactly if it asks for something in every part, has a positive finite lifetime, no duplicates and no blank names |
| `WalletQualification.PolicyFailures` | packages/wallet/src/conformance/validate-policy.ts:4-49 | The pushes yield exactly the applicable failures, in order |
| `WalletLaws.ReasonIff` | packages/wallet/src/conformance/evaluate.ts:97-123 | For every item of evidence and every reason, when it is the one given: the first that applies, for finite and non-finite clocks and lifetimes |
| `WalletLaws.EvidenceReportIff` | packages/wallet/src/conformance/evaluate.ts:139-152 | A failure is reported for the evidence if and only if some item is a repetition of a key, or draws that reason as the first of its key |
| `WalletLaws.DemandsIff` | packages/wallet/src/conformance/evaluate.ts:61-95 | The matrix written out: the four, three and four checks of the capabilities, message checks with a scheme of the policy and the others without |
| `WalletLaws.FlatMapInOrder` | packages/wallet/src/conformance/evaluate.ts:61-95 | The nested mapping goes through its lists in order |
| `WalletLaws.CandidateComplaintIff` | packages/wallet/src/conformance/evaluate.ts:163-198 | For every complaint about a candidate, exactly when it is made |
| `WalletLaws.PolicyComplaintIff` | packages/wallet/src/conformance/validate-policy.ts:4-49 | For every complaint about a policy, exactly when it is made |
| `WalletLaws.EnabledIff` | packages/wallet/src/conformance/evaluate.ts:125-207 | Enabling written out: no complaint about the policy, a finite clock, a complete configuration that is the only one of its provider, no bad evidence about the provider, and sole passing evidence for every key of the matrix |
| `AuthProtocol.ChallengesAreSingleUse` | packages/auth/src/adapters/drizzle-wallet-auth-repository.ts:200-248 | In every run a wallet challenge makes one session if it is consumed and none otherwise; a passkey challenge makes at most one credential and is consumed exactly when it made one or met a credential already there |
| `AuthProtocol.SessionsBelongToTheWalletsUser` | packages/auth/src/adapters/drizzle-wallet-auth-repository.ts:96-151 | The session a wallet challenge made belongs to the one user its (network, script) is bound to |
| `AuthProtocol.RunsOnlyExtend` | packages/auth/src/adapters/drizzle-wallet-auth-repository.ts:96-248 | A (network, script) binding never changes user; revoked sessions and consumed or exhausted challenges never change; sessions keep owner, token and absolute expiry; events only accumulate |
| `AuthProtocol.AttemptsStayWithin` | packages/auth/src/adapters/drizzle-wallet-auth-repository.ts:165-223 | Stored attempts never exceed the maximum, and every consumed challenge, wallet or passkey, was consumed before it expired; a wallet challenge also with attempts to spare |
| `AuthProtocol.FoundIffLive` | packages/auth/src/adapters/drizzle-session-repository.ts:12-37 | In every run a token finds exactly the unrevoked, unexpired session it belongs to, and a renewal never passes the absolute expiry |
| `AuthProtocol.ExhaustedChallengesAreDead` | packages/auth/src/adapters/drizzle-wallet-auth-repository.ts:200-223 | A challenge out of attempts never makes a session |
| `AuthProtocol.SessionsEndInOneEvent` | packages/auth/src/passkeys/drizzle-repository.ts:88-237 | Each session is the subject of at most one security event, and is revoked and of that user |
| `AuthProtocol.RevokedSessionsAreNeverFound` | packages/auth/src/adapters/drizzle-session-repository.ts:12-51 | Once revoked, a session is never found, renewed or revoked again, at whatever time |
| `AuthProtocol.OnlyTheReplacementLives` | packages/auth/src/passkeys/drizzle-repository.ts:145-160 | As one transaction, linking, unlinking and every consumption but a sign-in leave the new session as the user's only unrevoked one |
| `AuthProtocol.UnlinkingIsNeverFinal` | packages/auth/src/passkeys/drizzle-repository.ts:172-212 | Every reachable user has a wallet, so the final-method answer is never given |
| `AuthProtocol.UnlinkingUndoesLinking` | packages/auth/src/passkeys/drizzle-repository.ts:88-237 | Unlinking the credential just linked restores the credentials, and is done by the same user from another session |
| `AuthProtocol.RunKeepsInvariants` | packages/auth/src/adapters/drizzle-wallet-auth-repository.ts:153-250 | Tables and ledger keep their invariant in every run |
| `AuthProtocol.ResolutionKeepsUsers` | packages/auth/src/adapters/drizzle-wallet-auth-repository.ts:96-151 | Resolving a user keeps all bindings, binds the wallet to the user returned, and leaves every user with a wallet |
| `AuthStore.AuthRepository.ConsumeChallenge` | packages/auth/src/adapters/drizzle-wallet-auth-repository.ts:200-248 | The transaction in every branch, with the answers of `ConsumeAnswers` and the effect of `ConsumeEffect`; it keeps the invariant of the tables |
| `AuthStore.AuthRepository.FailAttempt` | packages/auth/src/adapters/drizzle-wallet-auth-repository.ts:165-176 | Counts only unconsumed challenges below the maximum |
| `AuthStore.AuthRepository.IssueWalletChallenge` | packages/auth/src/adapters/drizzle-wallet-auth-repository.ts:177-199 | Adds a fresh challenge, or nothing if a constraint fails |
| `AuthStore.AuthRepository.IssuePasskeyChallenge` | packages/auth/src/passkeys/drizzle-repository.ts:48-60 | Adds a fresh challenge, or nothing if a constraint fails |
| `AuthStore.AuthRepository.LinkPasskey` | packages/auth/src/passkeys/drizzle-repository.ts:88-171 | The transaction in every branch; a conflict commits the consumption alone; it keeps the invariant of the tables |
| `AuthStore.AuthRepository.UnlinkPasskey` | packages/auth/src/passkeys/drizzle-repository.ts:172-237 | The transaction in every branch: missing, final method, rolled back, unlinked; it keeps the invariant of the tables |
| `AuthStore.AuthRepository.RenewSession` | packages/auth/src/adapters/drizzle-session-repository.ts:12-37 | Renews exactly the live session of the token, never past its absolute expiry |
| `AuthStore.AuthRepository.RevokeSession` | packages/auth/src/adapters/drizzle-session-repository.ts:38-50 | Revokes exactly the unrevoked session of the token |
| `AuthLaws.ConsumeAnswers` | packages/auth/src/adapters/drizzle-wallet-auth-repository.ts:200-248 | Every answer to a consumption, both ways, by the tables: conflict if and only if the open challenge is for a wallet of somebody other than expected, or an unbound wallet in a step-up, or an unbound wallet whose expected user is missing or required |
| `AuthLaws.ConsumeEffect` | packages/auth/src/adapters/drizzle-wallet-auth-repository.ts:96-151 | What a consumption leaves in every table: the user signed in, the binding, the spent challenge, all other sessions of the user ended unless it is a sign-in, and the one session begun with its times |
| `AuthLaws.SessionsAreTheExpectedUsers` | packages/auth/src/adapters/drizzle-wallet-auth-repository.ts:113-121 | Over every run: a session made by a challenge that expects a user belongs to that user |
| `AuthLaws.EveryBindingHasItsCeremony` | packages/auth/src/adapters/drizzle-wallet-auth-repository.ts:123-151 | Over every run: each binding of a wallet was made by a sign-in or a link, for the user it expected or one it made; never by a step-up |
| `AuthLaws.StepUpBindsNothing` | packages/auth/src/adapters/drizzle-wallet-auth-repository.ts:122-125 | A step-up neither binds a wallet nor makes a user |
| `AuthLaws.ActiveIffInForce` | packages/auth/src/passkeys/drizzle-repository.ts:16-42 | The session that linking and unlinking lock: of the user, unrevoked, in time on both counts, authenticated between the minimum and now |
| `AuthLaws.LinkAnswers` | packages/auth/src/passkeys/drizzle-repository.ts:88-171 | Every answer to a link, both ways, with the conditions on challenge and session written out |
| `AuthLaws.LinkEffect` | packages/auth/src/passkeys/drizzle-repository.ts:88-171 | What a link leaves: the credential of the user, the sessions ended and begun, the event; and what a conflict leaves: the spent challenge alone |
| `AuthLaws.UnlinkAnswers` | packages/auth/src/passkeys/drizzle-repository.ts:172-237 | Every answer to an unlink in reachable tables, both ways |
| `AuthLaws.UnlinkEffect` | packages/auth/src/passkeys/drizzle-repository.ts:190-237 | What an unlink leaves: the credential gone, the sessions ended and begun, the event |
| `AuthLaws.RenewalMovesIdleExpiry` | packages/auth/src/adapters/drizzle-session-repository.ts:12-37 | A presented token moves the idle expiry of its session by the lifetime but not past the absolute expiry, and nothing else |
| `AuthLaws.TokenFindsIff` | packages/auth/src/adapters/drizzle-session-repository.ts:12-37 | A token finds a session if and only if one with it is unrevoked and in time on both counts |
| `AuthLaws.IdleSessionsLapse` | packages/auth/src/adapters/drizzle-session-repository.ts:12-37 | Over every run: a session whose token is not presented again is found by nobody once its idle expiry has come |
| `AuthLaws.UnpresentedSessionsLapse` | packages/auth/src/adapters/drizzle-session-repository.ts:12-37 | In particular it lapses within the idle lifetime of the last presentation |
| `AuthLaws.RevocationIsDated` | packages/auth/src/adapters/drizzle-session-repository.ts:38-50 | Revocation dates exactly the unrevoked session of the token |
| `AuthLaws.IssuedWalletChallenge` | packages/auth/src/adapters/drizzle-wallet-auth-repository.ts:177-199 | A challenge is stored, unconsumed and with no attempts, if and only if its id and nonce are new, its times in order and its expected user known |
| `AuthLaws.IssuedPasskeyChallenge` | packages/auth/src/passkeys/drizzle-repository.ts:48-60 | A passkey challenge is stored if and only if its id is new, its times are in order and its user and session known |
| `AuthLaws.FailedAttemptCounts` | packages/auth/src/adapters/drizzle-wallet-auth-repository.ts:165-176 | A failed attempt adds one to exactly the unconsumed challenge below the maximum |
| `OwnershipInterleaving.OwnershipIsNeverLost` | packages/authorization/src/adapters/drizzle-account-repository.ts:48-155 | However membership changes overlap statement by statement, with suspensions and dropped calls, every organization has an active owner at every point |
| `OwnershipInterleaving.AuditReproducesMembers` | packages/authorization/src/adapters/drizzle-account-repository.ts:113-151 | The audit alone reproduces the membership table; each event tells truly what it replaced, and was made by a then active member or by the creator |
| `OwnershipInterleaving.CallsAreSerial` | packages/authorization/src/adapters/drizzle-account-repository.ts:48-155 | Each call that ends answers and changes the tables as the whole change would at that moment |
| `OwnershipInterleaving.StepKeepsInv` | packages/authorization/src/adapters/drizzle-account-repository.ts:48-155 | The row lock keeps what a call has read true until it ends |
| `OwnershipInterleaving.EndingIsAtomic` | packages/authorization/src/adapters/drizzle-account-repository.ts:48-155 | The last statement of a call has the effect and the answer of the whole change |
| `OrganizationOwnership.RefusedForLastOwnerIff` | packages/authorization/src/adapters/drizzle-account-repository.ts:85-113 | A change is refused for the last owner if and only if the organization is active, the actor an active member in a role it allows, it is stepped up, and its target is the only active owner and would stop being one |
| `OrganizationOwnership.ChangedIff` | packages/authorization/src/adapters/drizzle-account-repository.ts:48-113 | A change goes through if and only if the organization is active, the actor is an active member in a role the change allows, a previous or next owner is backed by a step-up, and an active owner is left after it |
| `OrganizationOwnership.ChangeKeepsTables` | packages/authorization/src/adapters/drizzle-account-repository.ts:48-155 | A change keeps an owner everywhere, the audit truthful and its replay equal to the table |
| `OrganizationOwnership.CreationKeepsTables` | packages/authorization/src/adapters/drizzle-account-repository.ts:19-46 | So does the creation of an organization |
| `OrganizationOwnership.ChangeLeavesAnOwner` | packages/authorization/src/adapters/drizzle-account-repository.ts:85-128 | A change that goes through leaves an active owner |
| `OrganizationOwnership.AccountRepository.ChangeMember` | packages/authorization/src/adapters/drizzle-account-repository.ts:48-155 | The transaction in every branch, with the conditions of `ChangedIff` and the effect of `ChangeEffect`; it keeps an active owner everywhere and the audit true |
| `OrganizationOwnership.AccountRepository.Create` | packages/authorization/src/adapters/drizzle-account-repository.ts:19-46 | Adds the organization, its owner and the audit event, or nothing |
| `OwnershipLaws.EveryAuditedChangeWasEntitled` | packages/authorization/src/adapters/drizzle-account-repository.ts:48-155 | However changes overlap: every audited change came from a call begun with it, when its actor was an active member in a role that this change allowed, the organization active, and ownership changes stepped up |
| `OwnershipLaws.ChangeEffect` | packages/authorization/src/adapters/drizzle-account-repository.ts:113-151 | What a change leaves: the target in the new place, everybody else where they were, and one event with actor, seat, what it replaced and what it put |
| `OwnershipLaws.CreationEffect` | packages/authorization/src/adapters/drizzle-account-repository.ts:19-46 | What a creation leaves: its creator as an active owner and the event, or nothing |
| `OwnershipLaws.NotFoundIff` | packages/authorization/src/adapters/drizzle-account-repository.ts:49-57 | A change is answered not-found if and only if the organization is missing, and only a change that goes through changes anything |

## Left out

- `domainEventEnvelopeSchema` and the payload registry: an envelope is a type, a version and an uninterpreted payload; an envelope the relay cannot parse is not part of this model.
- `OutboxRelay.RetryDelayBounds`: the jitter is any real number; a non-finite jitter, on which `retryDelay` throws, and the rounding of doubles beyond 2^53 are not modelled.
- `OutboxRelay.RelayOutboxBatch`: what other workers do between turns is any function of the table; a publisher that never answers is a crash of the protocol.
- Outbox retention, indexes, correlation ids and the worker process around the relay: they do not affect which row is settled how.
- `AdmissionIdempotency.DisciplinedKeysNeverCollide`: sufficient for all schedules; that the discipline is needed is proved by kinds of request (`SharingIsSafeIff`), not for each single pair of requests.
- `AdmissionIdempotency.AppliesAtMostOnce`: advisory locks are taken on the applicant itself; two applicants whose 64-bit lock hashes coincide would only wait longer.
- Admission drafts are one text with the four declarations; the other fields of the draft schema, the snapshot hash, policy versions, timestamps and the email check constraints of the table are not modelled.
- `PageResolution.LoadedAreManifest`: drift is compared as bags of pages; that the source's comparison of joined lines is this, but for line breaks in paths, is `PageDrift.DriftCheckIff`.
- `PageDrift.DriftCheckIff`: the JSON text of an access requirement has its fields in one order; a loaded requirement with another order would be refused. The same comparison of routes and capabilities is left out.
- Decision gates, provider capabilities, route uniqueness, navigation uniqueness and the loading promises of the registry: single-branch checks.
- `DependencyGraph.CreateFeatureRegistry`: freezing of manifests and lazy loading are not modelled.
- `UploadProtocol.CompletionIsExactlyOnce`: the storage is any answer to the head request; presigning is only its failure, and that `create` succeeds is not claimed, since it throws when the storage's expiry is later than the stored one (packages/uploads/src/application/service.ts:170-177).
- `UploadProtocol.QuotaOfEveryRun`: each reservation is one step, as the row lock on its user makes it for that user; the limit is the same for all. Sizes, content types and retention columns carry no constraint here.
- `AllowlistMerkle.AcceptedProofIsHonestOrCollides`: SHA-256 is any function to 32 bytes and is never assumed injective; that collisions are hard to find is not a statement of this model.
- `WalletEvaluator.EvaluateWalletQualifications`: failures are values instead of sentences, a matrix key is the tuple whose JSON text the source uses, numbers are reals or non-finite, and a timestamp is the instant it parses to.
- `AuthProtocol.ChallengesAreSingleUse`: each transaction is one step, as the row lock on its challenge makes it for that challenge; transactions of one user on different challenges may overlap in the database.
- `AuthProtocol.OnlyTheReplacementLives`: holds for one transaction by itself; consuming a challenge takes no lock per user, so two at once may leave two sessions.
- BIP-322 and WebAuthn verification, address validation, message texts, token generation and the HTTP layer of the ceremonies: the transactions are entered with whatever passed them. Network and format checks of columns are not modelled.
- `contracts/spikes/allowlist-proof-v1/src/authorization.rs`, the object storage client, UI, OpenAPI, decision catalogue and repository tooling: not part of this model.
- `OrganizationOwnership.AccountRepository.ChangeMember`: users, reason codes and policy versions are not modelled, and the roles that may act are a parameter; a missing user would roll the transaction back like any failed insert.
- Statement-level interleaving is modelled for admission, for completion calls of uploads and for membership changes; elsewhere a transaction is one step.
- `AdmissionProgress.SomeTransactionMoves`: no fairness among waiting transactions is modelled.
- Generated ids are parameters; an id that is already taken makes the insert fail, so no freshness is assumed, except that a lease id is used for one claim only.
