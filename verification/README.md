# A verified model of the vault's ledgers and protocols

The vault is a threshold-custody node. Its nodes hold shares of a signing key and agree, without a leader, on
what has been used up: signing sessions, spending intents, nonces, days and governance epochs. This project
models that logic in Dafny and proves what it keeps over whole runs. `dafny verify dfyconfig.toml` checks it all.

How the parts fit together:

* **Specification functions and classes.** Each stateful component has its operations as functions on a value
  (`BurnId`, `Reserve`, `Ingest1`, `SignShare`, `Admit`, `Advance`, `Append`, ...). A class with the component's
  fields performs the same operations step by step, and each method's contract equates its result and new state
  with the function. Theorems are proved about the functions; for each operation one of them says, in terms of its
  inputs and the old state alone, exactly when it answers Ok, with which error otherwise, and what it leaves.
* **State machines.** A run is a list of events, and an event that is not possible leaves the state alone. A theorem
  over all event lists is therefore a theorem over all interleavings, lost messages, retries and crashes.
* **Outside world.** Clocks, random draws, disk outcomes, peer answers and FROST are parameters of the operations.

| file | what it models |
|---|---|
| `Quorum.dfy`, `Sets.dfy`, `Text.dfy`, `Wrappers.dfy` | quorum arithmetic, finite sets, string order and printing, errors |
| `LineLog.dfy` | the append-only id log both burn ledgers read back at boot |
| `AntiNonce.dfy`, `ClaimMesh.dfy`, `ClaimCalls.dfy`, `ClaimBudget.dfy` | the session burn store, its fan-out loop, the mesh-wide claim, calls as mesh runs, and the exact fault tolerance |
| `BucketLedger.dfy`, `BucketAccounting.dfy`, `IntentGate.dfy` | one node's spend ledger, the accounting over its runs, and what the intent gate lets through |
| `LedgerOutcomes.dfy` | what every ledger operation answers and leaves, read off the ledger as it was |
| `QuorumBucket.dfy`, `IntentDurability.dfy`, `IntentMesh.dfy`, `IntentCalls.dfy`, `IntentFlows.dfy`, `IntentGaps.dfy` | the durable ledger, the quorum ledger, the intent mesh, calls as mesh runs, reserve-then-commit flows, and where their guarantees end |
| `Roster.dfy`, `DkgHub.dfy`, `DkgOutcomes.dfy`, `DkgNetwork.dfy`, `DkgProgress.dfy`, `DkgGaps.dfy` | canonical rosters and transcripts, the wire DKG session machine (plain and Taproot), what it answers and what a finished key is made of, hubs over a network, when they get through |
| `CosignPeer.dfy`, `CosignCoordinator.dfy` | FROST co-signing: nonce single use, signer selection and attribution |
| `CivilDate.dfy`, `DayRotation.dfy` | day arithmetic against the calendar, quorum-gated day rotation |
| `RateLimit.dfy`, `KeyBlob.dfy` | the sliding window, the key blob |
| `GovLedger.dfy`, `GovRaces.dfy` | the governance ledger, and votes whose halves interleave |

## What the code does not promise

Where the code is looser than its comments or than one would expect, the model keeps the code and states the exact
boundary.

* Burning is only durable for ids the log can carry: no newline, no surrounding white space, and for intents no
  leading `#`. Any other id can be claimed again after a reboot (`ReclaimableIffUnfit`, `ReburnIffUnfit`).
* The single claim tolerates exactly fewer than `2t - n` nodes losing their log (`ToleranceExact`).
* A reservation lives in memory, so a reboot frees it like a TTL expiry or an explicit release does. The reserve
  exclusion holds exactly while fewer than `2t - n` nodes have lost a reservation of the id in one of these ways;
  reboots alone are enough to end it at that number (`SingleReserve`, `ReserveToleranceExact`).
* `commit_consume` answers Ok for an id that is already consumed locally, whoever consumed it. So a commit that burned
  locally and then failed its quorum is answered Ok when it is repeated (`CommitAfterFailure`, `CommitExact`,
  `OkCommitUnbacked`). What keeps two reserve-then-commit flows of an id apart is the reserve exclusion, and it
  reaches exactly as far (`SingleFlow`, `FlowToleranceExact`); at most once by itself belongs to `claim_consume`.
* `release_reservation` without a live reservation still subtracts the caller's amount (`ReleaseExact`).
* A daily cap of 2^64 - 1 lets a saturated total through (`CapTooLarge`, `HoldExact`).
* The durable `authorize_spend_and_consume` does not look at reservations, the in-memory one does
  (`PersistAuthorizeExact`).
* Two DKG hubs past Round1 of one session id agree exactly when their rosters share a member; disjoint rosters may
  run the same session id side by side (`Agreement`, `DisjointRostersDisagree`).
* A comma in a node id lets two rosters share a transcript, and a bar lets two sessions with different rosters share one
  (`CommaCollides`, `BarCollides`).
* Day texts sort as days, and can be read back from the day file, until 9999-12-31 (`DayEpochOrderEnds`,
  `ClockDayParses`).
* If the day files cannot be written after the ledger day moved in memory, the reshare hook of that day is never
  called in that process, although a repeated `advance` answers Ok (`HookMissedForGood`).
* Two governance votes read before either is written announce the same epoch twice (`RacingVotesAnnounceTwice`); the
  announced epochs stay different exactly when every closing vote finds the number it had read (`AnnouncedOnceIff`).
* The constant in the test at `crates/vault-core/src/application/admin.rs:260` is not the day of its date; 2026-07-30
  is day 20664 (`KnownDays`).

## Model

| member | source | states |
|---|---|---|
| `Quorum.TwoThirds` | crates/vault-core/src/domain/constitution.rs:321-323 | The least `t` with `3t >= 2n`. |
| `Quorum.ClaimQuorum` | crates/vault-core/src/adapters/session_persist.rs:278-286 | A node with p peers needs between 1 and p + 1 answers, always a strict majority of the mesh. |
| `Quorum.QuorumOverlap` | crates/vault-core/src/domain/constitution.rs:321-323 | Two quorums of t among n nodes share at least `2t - n` nodes. |
| `Quorum.ReliableWitness` | crates/vault-core/src/domain/constitution.rs:321-323 | With fewer than `2t - n` unreliable nodes, two quorums share a reliable one. |
| `LineLog.LoadIds` | crates/vault-core/src/adapters/session_persist.rs:355-366 | The boot loop reads exactly the set the log defines, skipping blank lines (and comments in the intent log). |
| `LineLog.LoadedFits` | crates/vault-core/src/adapters/session_persist.rs:355-366 | Whatever the file holds, only ids in the line format are ever read back. |
| `LineLog.LoadApp` | crates/vault-core/src/adapters/session_persist.rs:355-366 | Reading a log of whole lines and what was appended to it is reading both. |
| `LineLog.AppendKeeps` | crates/vault-core/src/adapters/session_persist.rs:46-55 | Appending any text keeps every id that was readable before. |
| `LineLog.AppendFits` | crates/vault-core/src/adapters/bucket_memory.rs:235-244 | Appending an id in the format adds exactly that id to what a boot reads. |
| `LineLog.SurvivesIffFits` | crates/vault-core/src/adapters/bucket_memory.rs:281-294 | An appended id is read back if and only if it fits the line format. |
| `LineLog.PrintLoad` | crates/vault-core/src/adapters/session_persist.rs:355-366 | Printing ids that fit and loading the log is the identity on sets. |
| `LineLog.LineReads` | crates/vault-core/src/adapters/session_persist.rs:355-366 | One more line, ended or cut off, is read as the fitting id it holds between white space, or as nothing when it holds none. |
| `AntiNonce.PersistedAntiNonce.constructor` | crates/vault-core/src/adapters/session_persist.rs:34-44 | A boot holds exactly what its log reads back, and no soft entry. |
| `AntiNonce.PersistedAntiNonce.Prepare` | crates/vault-core/src/adapters/session_persist.rs:63-73 | The durable check-and-insert is the per-node step of the mesh, for every disk outcome; the soft entry goes only on a fresh burn. |
| `AntiNonce.PersistedAntiNonce.PrepareSoft` | crates/vault-core/src/adapters/session_persist.rs:76-89 | Blocks exactly on a burn or a live soft entry, sweeps expired ones, never burns. |
| `AntiNonce.PrepareDurable` | crates/vault-core/src/adapters/session_persist.rs:46-73 | A burn attempt keeps memory within the disk and loses nothing on either. |
| `AntiNonce.AckedSurvives` | crates/vault-core/src/adapters/session_persist.rs:46-73 | Wherever a run of burns and crashes is cut, a reboot holds every acknowledged id that fits. |
| `AntiNonce.OnlyAttempted` | crates/vault-core/src/adapters/session_persist.rs:355-366 | When every attempted id fits the log, a reboot holds attempted ids only. |
| `AntiNonce.ReusableIffUnfit` | crates/vault-core/src/adapters/session_persist.rs:46-73 | A burned id is fresh again after a reboot if and only if it does not fit the log. |
| `AntiNonce.PrepareOnPeers` | crates/vault-core/src/adapters/session_persist.rs:179-224 | The peer and retry loops return the acks of exactly the peers with a deciding answer, or fail closed. |
| `AntiNonce.DecisiveExact` | crates/vault-core/src/adapters/session_persist.rs:193-222 | A peer's deciding answer is its first answer, reached through repeatable failures within the attempts. |
| `AntiNonce.FanoutCounts` | crates/vault-core/src/adapters/session_persist.rs:179-224 | Every collected ack stands for one distinct peer that answered within its attempts, none is counted twice. |
| `AntiNonce.FanoutAcks` | crates/vault-core/src/adapters/session_persist.rs:179-224 | Each answering peer's ack is in its place and says what that peer's deciding answer said. |
| `AntiNonce.FanoutFailsClosed` | crates/vault-core/src/adapters/session_persist.rs:179-237 | A fan-out errors only because some peer's deciding answer is unreadable. |
| `AntiNonce.FanoutVoid` | crates/vault-core/src/adapters/intent_consume.rs:83-123 | One unreadable deciding answer voids the whole fan-out. |
| `AntiNonce.QuorumAntiNonce.constructor` | crates/vault-core/src/adapters/session_persist.rs:278-286 | The quorum is fixed from the peer count. |
| `AntiNonce.QuorumAntiNonce.ClaimSession` | crates/vault-core/src/adapters/session_persist.rs:302-319 | Burns here first, for every disk outcome, then decides over whatever the transport brings, an error included. |
| `AntiNonce.ClaimExact` | crates/vault-core/src/adapters/session_persist.rs:302-319 | Ok if and only if the id was unseen here, the line synced, the acks arrived, none says "seen", and with this node they are two thirds of the mesh; the error of every other case; a synced fresh call leaves the id burned whatever it answers. |
| `ClaimCalls.CallIsRun` | crates/vault-core/src/adapters/session_persist.rs:302-319 | For every mesh and choice of answering peers, the mesh run Begin, Contacts, Skips, Finish ends with the verdict and the store of the call. |
| `ClaimCalls.RefusedCall` | crates/vault-core/src/adapters/session_persist.rs:304-306 | A claim the local store turns down is settled at once, in the mesh as in the call. |
| `ClaimCalls.FailedCall` | crates/vault-core/src/adapters/session_persist.rs:309 | A transport error fails a burned claim, in the mesh as in the call. |
| `AntiNonce.ClaimAmongPeers` | crates/vault-core/src/adapters/session_persist.rs:248-256 | Over live in-memory peers: Ok exactly when the id was new here and on every peer and the mesh meets the quorum; the id ends up burned wherever it was asked. |
| `ClaimMesh.StepInv` | crates/vault-core/src/adapters/session_persist.rs:302-319 | Every event keeps: who answered "fresh" refuses from then on, and two claims of an id share only forgetful nodes. |
| `ClaimMesh.SingleClaim` | crates/vault-core/src/adapters/session_persist.rs:302-319 | Over every interleaving, lost ack, retry, failed write and reboot, with at most `2t - n - 1` logs lost, at most one claim of an id succeeds on the whole mesh. |
| `ClaimMesh.ReclaimableIffUnfit` | crates/vault-core/src/adapters/session_persist.rs:46-73 | Some run without lost logs claims an id twice if and only if the id does not fit the log. |
| `ClaimBudget.ToleranceExact` | crates/vault-core/src/domain/constitution.rs:321-323 | For every mesh size and id that fits: some run claims it twice if and only if at least `2t - n` nodes may lose their log. |
| `ClaimBudget.ClaimTwice` | crates/vault-core/src/adapters/session_persist.rs:302-319 | The double-claim run, built for every mesh size. |
| `BucketLedger.HeldSplit` | crates/vault-core/src/adapters/bucket_memory.rs:52-63 | A sweep splits what reservations hold into what expires and what stays, for every bucket. |
| `BucketLedger.InMemoryBucketLedger.SweepExpired` | crates/vault-core/src/adapters/bucket_memory.rs:52-63 | Removing expired holds one by one, in any order, removes exactly them and gives back exactly their sum per bucket. |
| `BucketLedger.InMemoryBucketLedger.RecordSpend` | crates/vault-core/src/adapters/bucket_memory.rs:89-94 | Adds to one bucket, saturating at 2^64 - 1. |
| `BucketLedger.InMemoryBucketLedger.MarkConsumed` | crates/vault-core/src/adapters/bucket_memory.rs:101-105 | Consumes without looking at reservations. |
| `BucketLedger.InMemoryBucketLedger.HasReservation` | crates/vault-core/src/adapters/bucket_memory.rs:118-122 | True exactly for a hold that has not expired; sweeps on the way. |
| `BucketLedger.InMemoryBucketLedger.ReserveSpend` | crates/vault-core/src/adapters/bucket_memory.rs:124-150 | Refuses consumed ids, repeats an equal reserve, otherwise validates against today's total and holds the amount. |
| `BucketLedger.InMemoryBucketLedger.CommitConsume` | crates/vault-core/src/adapters/bucket_memory.rs:152-165 | Idempotent on consumed ids, needs a live reservation, keeps the spend. |
| `BucketLedger.InMemoryBucketLedger.TryConsume` | crates/vault-core/src/adapters/bucket_memory.rs:107-116 | Consumes a new id with or without reservation, refuses a consumed one. |
| `BucketLedger.InMemoryBucketLedger.ReleaseReservation` | crates/vault-core/src/adapters/bucket_memory.rs:167-180 | Gives back the hold, or without one the caller's amount. |
| `BucketLedger.InMemoryBucketLedger.AuthorizeSpendAndConsume` | crates/vault-core/src/adapters/bucket_memory.rs:182-201 | Refuses consumed and reserved ids, validates, spends and consumes at once. |
| `BucketAccounting.GateBound` | crates/vault-core/src/domain/bucket.rs:258-309 | Whatever the gate admits has a positive amount and keeps today's total within the daily cap (for all its rules see `IntentGate.GateExact`). |
| `BucketAccounting.StepInv` | crates/vault-core/src/adapters/bucket_memory.rs:124-201 | Every ledger operation keeps the books balanced and capped, and no u64 operation of it saturates. |
| `BucketAccounting.Conservation` | crates/vault-core/src/application/intent_ops.rs:39-77 | Over every run with the intent gate as validator: spent = committed + live holds in every bucket, commitments stay under the daily cap, nothing saturates, no id is both consumed and reserved. |
| `BucketAccounting.ReleaseExact` | crates/vault-core/src/adapters/bucket_memory.rs:167-180 | A release keeps the books balanced if and only if the reservation is live (or nothing is taken). |
| `BucketAccounting.HoldExact` | crates/vault-core/src/adapters/bucket_memory.rs:141-148 | A hold is booked in full if and only if today's total fits 64 bits. |
| `BucketAccounting.CapTooLarge` | crates/vault-core/src/domain/bucket.rs:285-292 | With a daily cap of 2^64 - 1 the gate admits a total the ledger cannot book. |
| `BucketAccounting.MarkConsumedExact` | crates/vault-core/src/adapters/bucket_memory.rs:101-105 | Marking consumed keeps consumed and reserved ids apart if and only if the id is not reserved. |
| `LedgerOutcomes.SweepAges` | crates/vault-core/src/adapters/bucket_memory.rs:52-63 | A sweep leaves exactly the unexpired holds, and totals less the expired amounts. |
| `LedgerOutcomes.ReserveOutcome` | crates/vault-core/src/adapters/bucket_memory.rs:124-150 | Exactly when a reserve is Ok, its errors, and that it books exactly that one hold. |
| `LedgerOutcomes.CommitOutcome` | crates/vault-core/src/adapters/bucket_memory.rs:152-165 | Ok if and only if the id is consumed or held and unexpired; moves it once and keeps the spend. |
| `LedgerOutcomes.ConsumeOutcome` | crates/vault-core/src/adapters/bucket_memory.rs:107-116 | Ok if and only if the id is not consumed; its hold goes, the spend stays. |
| `LedgerOutcomes.AuthorizeOutcome` | crates/vault-core/src/adapters/bucket_memory.rs:182-201 | Exactly when an authorize is Ok, its errors, and that it consumes the id and spends exactly the amount. |
| `LedgerOutcomes.ReleaseOutcome` | crates/vault-core/src/adapters/bucket_memory.rs:167-180 | One hold goes with its own amount, or without a hold the caller's amount; nothing else changes. |
| `IntentGate.GateExact` | crates/vault-core/src/domain/bucket.rs:258-309 | The gate is Ok if and only if bucket, policy hash, amount, per-tx cap, daily cap and destination all comply; otherwise it names the first rule that fails. |
| `IntentGate.AdmittedIffTaken` | crates/vault-core/src/application/intent_ops.rs:39-77 | A fresh intent is held by a reserve and consumed by an authorize if it meets every rule of its policy, and neither if not. |
| `IntentGate.OnlyAdmittedTaken` | crates/vault-core/src/application/intent_ops.rs:39-77 | Over every run: whatever is held was booked for an intent that met every rule at that moment, with that bucket and amount; whatever is consumed came from such an intent or from a plain consume. |
| `QuorumBucket.PersistedBucketLedger.constructor` | crates/vault-core/src/adapters/bucket_memory.rs:214-225 | A boot knows the caps and the logged intents, no spend and no reservation. |
| `QuorumBucket.PersistedBucketLedger.PrepareConsume` | crates/vault-core/src/adapters/bucket_memory.rs:247-261 | Durable check-and-insert for every disk outcome; the reservation goes with the burn. |
| `QuorumBucket.PersistedBucketLedger.TryConsume` | crates/vault-core/src/adapters/bucket_memory.rs:318-334 | Ok exactly for a fresh intent whose line was synced; same ledger as after a durable prepare. |
| `QuorumBucket.PersistedBucketLedger.PrepareSoft` | crates/vault-core/src/adapters/bucket_memory.rs:264-272 | Sweeps, refuses consumed and reserved ids, otherwise holds the id with amount 0. |
| `QuorumBucket.PersistedBucketLedger.CommitConsume` | crates/vault-core/src/adapters/bucket_memory.rs:346-359 | Idempotent on consumed ids, needs a live reservation, burns durably. |
| `QuorumBucket.PersistedBucketLedger.AuthorizeSpendAndConsume` | crates/vault-core/src/adapters/bucket_memory.rs:365-398 | Spends and consumes, and takes both back when the log cannot be synced; reservations are not consulted. |
| `QuorumBucket.PersistAuthorizeExact` | crates/vault-core/src/adapters/bucket_memory.rs:365-398 | A successful durable authorize keeps consumed and reserved ids apart if and only if the id was not reserved. |
| `LedgerOutcomes.BurnOutcome` | crates/vault-core/src/adapters/bucket_memory.rs:235-261 | Fresh exactly for a new id whose line synced; what is in memory and in the log in every case. |
| `LedgerOutcomes.SoftOutcome` | crates/vault-core/src/adapters/bucket_memory.rs:264-272 | Seen exactly for a consumed id or an unexpired hold; otherwise one hold of amount 0. |
| `LedgerOutcomes.PersistCommitOutcome` | crates/vault-core/src/adapters/bucket_memory.rs:346-359 | Ok if and only if the id is consumed, or held, unexpired and its line synced. |
| `LedgerOutcomes.PersistAuthorizeOutcome` | crates/vault-core/src/adapters/bucket_memory.rs:365-398 | Ok if and only if the id is not consumed, the validator passes and the line synced; every error leaves totals and consumed ids as they were. |
| `QuorumBucket.QuorumBucketLedger.constructor` | crates/vault-core/src/adapters/intent_consume.rs:176-184 | The quorum is fixed from the peer count. |
| `QuorumBucket.QuorumBucketLedger.ReserveSpend` | crates/vault-core/src/adapters/intent_consume.rs:281-316 | Local hold, then peers; a refusal or a short quorum releases that hold, a transport error keeps it. |
| `LedgerOutcomes.QuorumReserveOutcome` | crates/vault-core/src/adapters/intent_consume.rs:281-316 | Ok if and only if the id is neither consumed nor held, its bucket and validator pass on today's total, and unanimous acks make two thirds of the mesh; the error of every other case; Ok and a transport error leave exactly that hold, a refusal and a short quorum leave the swept ledger. |
| `IntentCalls.ReserveIsRun` | crates/vault-core/src/adapters/intent_consume.rs:281-316 | For every mesh and choice of answering peers, the mesh run OpenReserve, SoftAsks, Skips, Finish ends with the verdict and the ledger of the call. |
| `IntentCalls.RefusedReserve` | crates/vault-core/src/adapters/intent_consume.rs:288-294 | A reserve the local ledger turns down is refused at once, in the mesh as in the call. |
| `IntentCalls.FailedReserve` | crates/vault-core/src/adapters/intent_consume.rs:305 | A transport error keeps the hold, in the mesh as in the call. |
| `QuorumBucket.QuorumBucketLedger.ClaimConsume` | crates/vault-core/src/adapters/intent_consume.rs:236-249 | Burns locally first, then succeeds only with a quorum of fresh answers. |
| `LedgerOutcomes.QuorumConsumeOutcome` | crates/vault-core/src/adapters/intent_consume.rs:236-249 | Ok if and only if the id is new, its line synced and unanimous acks make two thirds of the mesh; a synced new id stays burned whatever the answer. |
| `QuorumBucket.QuorumBucketLedger.CommitConsume` | crates/vault-core/src/adapters/intent_consume.rs:318-325 | Ok at once for a locally consumed id, otherwise a full claim. |
| `QuorumBucket.QuorumBucketLedger.AuthorizeSpendAndConsume` | crates/vault-core/src/adapters/intent_consume.rs:331-344 | Reserve, commit, and on a failed commit release. |
| `QuorumBucket.AuthorizeAccounting` | crates/vault-core/src/adapters/intent_consume.rs:281-344 | Ok means consumed and spent by exactly the amount; every error restores the totals even if the id stays burned, except a transport error while reserving, which leaves exactly one hold of the amount. |
| `LedgerOutcomes.QuorumAuthorizeOutcome` | crates/vault-core/src/adapters/intent_consume.rs:331-344 | Exactly when an authorize is Ok, and which stage each error comes from. |
| `QuorumBucket.CommitAfterFailure` | crates/vault-core/src/application/intent_ops.rs:22-26 | A first commit fails and its repetition is Ok on the strength of its own local burn exactly when the line was synced and the transport failed or the quorum was not met; no peer is asked again. |
| `QuorumBucket.CommitExact` | crates/vault-core/src/adapters/intent_consume.rs:318-325 | An Ok commit implies that its own claim succeeded if and only if the id was not consumed locally before the call. |
| `QuorumBucket.CommitTwice` | crates/vault-core/src/adapters/intent_consume.rs:318-325 | A commit after a successful one changes nothing and answers Ok without any peer, while a claim of the same id is refused. |
| `IntentDurability.AckedIntentSurvives` | crates/vault-core/src/adapters/bucket_memory.rs:247-294 | Wherever a run of burns, commits, authorizes and crashes is cut, a boot reads back every acknowledged intent that fits. |
| `IntentDurability.OnlyAttemptedIntents` | crates/vault-core/src/adapters/bucket_memory.rs:281-294 | When every attempted id fits the log, memory and log hold attempted intents only. |
| `IntentDurability.ReburnIffUnfit` | crates/vault-core/src/adapters/bucket_memory.rs:281-294 | A burned intent is fresh again after a crash if and only if it does not fit the log. |
| `IntentMesh.StepInv` | crates/vault-core/src/adapters/intent_consume.rs:236-316 | Every event of the intent mesh, including the three separate steps of a durable prepare, keeps what every node has promised. |
| `IntentMesh.SingleConsume` | crates/vault-core/src/adapters/intent_consume.rs:236-249 | No double spend: at most one consume claim of an intent succeeds on the mesh although check, append and insert interleave, with at most `2t - n - 1` logs lost. |
| `IntentMesh.NothingAfterConsume` | crates/vault-core/src/adapters/intent_consume.rs:273-316 | After a successful consume no reserve and no consume opened later on any node succeeds, whatever expires, is released or reboots. |
| `IntentMesh.SingleReserve` | crates/vault-core/src/adapters/intent_consume.rs:281-316 | While fewer than `2t - n` nodes lost a reservation of the id (TTL, explicit release, reboot), at most one reserve of it succeeds, whatever other reserves failed and released. |
| `IntentFlows.SingleFlow` | crates/vault-core/src/application/intent_ops.rs:18-26 | Under the same condition at most one reserve-then-commit flow of the id completes, however its commit came by Ok and however many logs are lost. |
| `IntentFlows.CommitsStep` | crates/vault-core/src/adapters/intent_consume.rs:318-325 | Every event keeps each commit tied to its finished reserve and to its own consume claim, if it opened one. |
| `IntentGaps.ReserveToleranceExact` | crates/vault-core/src/adapters/bucket_memory.rs:214-225 | For every mesh size and id: some run lets two reserves succeed if and only if at least `2t - n` nodes lapse, and so does some run in which nothing but reboots can make a node lapse. |
| `IntentGaps.FlowToleranceExact` | crates/vault-core/src/application/intent_ops.rs:18-26 | For every mesh size and id: two flows of it can complete if and only if at least `2t - n` nodes may lapse. |
| `IntentGaps.OkCommitUnbacked` | crates/vault-core/src/adapters/intent_consume.rs:318-325 | On every mesh of two or more nodes, without any lapse, a commit can answer Ok although every consume claim of the id failed. |
| `Roster.BuildRoster` | crates/vault-core/src/adapters/dkg_wire.rs:190-203 | Sort, dedup and number in u16 arithmetic: the numbering of the canonical roster, refused below 2 and above 65535 names. |
| `Roster.CheckRosterExact` | crates/vault-core/src/adapters/dkg_wire.rs:190-203 | A roster is accepted if and only if it names between 2 and 65535 different nodes, and is then those names in order. |
| `Roster.RosterCanonical` | crates/vault-core/src/adapters/dkg_wire.rs:190-203 | Two name lists get the same roster if and only if they name the same trimmed set, in any order and multiplicity. |
| `Roster.NumberingPlaces` | crates/vault-core/src/adapters/dkg_wire.rs:190-203 | The i-th name has identifier i, and nothing else is numbered. |
| `Roster.IdentifierToU16` | crates/vault-core/src/adapters/dkg_wire.rs:181-188 | Inverts the numbering; 0 for an identifier outside it. |
| `Roster.PreimageInjective` | crates/vault-core/src/adapters/dkg_wire.rs:206-227 | One transcript preimage fixes session, thresholds and roster, for node ids without separators and any session id. |
| `Roster.DomainsApart` | crates/vault-core/src/adapters/dkg_tr_wire.rs:70-91 | A plain and a Taproot preimage are never equal. |
| `Roster.CommaCollides` | crates/vault-core/src/adapters/dkg_wire.rs:206-227 | With a comma in a node id two different rosters share a transcript. |
| `Roster.BarCollides` | crates/vault-core/src/adapters/dkg_wire.rs:206-227 | With a bar in a node id two sessions with different rosters share a transcript, for any session and terms. |
| `DkgHub.WireDkgHub.constructor` | crates/vault-core/src/adapters/dkg_wire.rs:303-320 | A new hub has no session and no finished key. |
| `DkgHub.WireDkgHub.StartSession` | crates/vault-core/src/adapters/dkg_wire.rs:352-451 | Opens a session for a valid constitution, answers again for the same one, rejects any drift. |
| `DkgOutcomes.StartExact` | crates/vault-core/src/adapters/dkg_wire.rs:352-451 | A session opens if and only if the request is sensible, names this node and part 1 ran; every field of the new session and of the answer. |
| `DkgOutcomes.RestartExact` | crates/vault-core/src/adapters/dkg_wire.rs:369-400 | An existing session is answered for again if and only if the request asks for the same constitution; nothing changes. |
| `DkgHub.WireDkgHub.IngestRound1` | crates/vault-core/src/adapters/dkg_wire.rs:454-514 | Checks in the source's order; only a matching message of a roster member changes the session. |
| `DkgHub.WireDkgHub.AcceptRound1` | crates/vault-core/src/adapters/dkg_wire.rs:466-514 | Thresholds, transcript and identity are checked before the package is stored; the last package starts part 2. |
| `DkgOutcomes.Ingest1Exact` | crates/vault-core/src/adapters/dkg_wire.rs:454-528 | In Round1 a message is stored exactly when terms, sender and package are right; the last one runs part 2 on what the others sent, and the session moves on exactly when that succeeds. |
| `DkgOutcomes.Ingest1Late` | crates/vault-core/src/adapters/dkg_wire.rs:454-514 | Past Round1 a round-1 message changes nothing, and which ones are acknowledged. |
| `DkgHub.WireDkgHub.AdvanceToRound2` | crates/vault-core/src/adapters/dkg_wire.rs:516-528 | Part 2 runs once: its secret is gone even when it fails. |
| `DkgHub.WireDkgHub.TakeRound2Outbound` | crates/vault-core/src/adapters/dkg_wire.rs:531-560 | Hands each outbound package over once, addressed to the roster name of its identifier. |
| `DkgOutcomes.TakeExact` | crates/vault-core/src/adapters/dkg_wire.rs:531-560 | One message for every outbound package, none other, and none remains; an unknown recipient loses them all. |
| `DkgHub.WireDkgHub.IngestRound2` | crates/vault-core/src/adapters/dkg_wire.rs:562-601 | Only a message for this hub from a roster member is stored. |
| `DkgHub.WireDkgHub.AcceptRound2` | crates/vault-core/src/adapters/dkg_tr_wire.rs:428-464 | The Taproot machine makes the same checks. |
| `DkgOutcomes.Ingest2Exact` | crates/vault-core/src/adapters/dkg_wire.rs:562-601 | A round-2 message is stored exactly when it is of this session, for this hub, from a roster member, and parses. |
| `DkgHub.WireDkgHub.FinalizeRound3` | crates/vault-core/src/adapters/dkg_wire.rs:604-647 | Completes only with a full inbox, a share of the frozen thresholds and a stored key; publishes that key. |
| `DkgHub.WireDkgHub.FinishSession` | crates/vault-core/src/adapters/dkg_wire.rs:229-250 | A share that misses the frozen thresholds never completes a session. |
| `DkgOutcomes.FinalizeExact` | crates/vault-core/src/adapters/dkg_wire.rs:604-647 | An unfinished session finishes if and only if its inbox is full, part 3 gives a share of the frozen thresholds and it is stored; every refusal leaves it as it was. |
| `DkgOutcomes.FinishedKey` | crates/vault-core/src/adapters/dkg_wire.rs:604-647 | Over every run: a finished session holds a share of exactly the frozen thresholds that part 3 gave on the other members' round-1 packages, the received round-2 packages and a secret part 2 gave on those round-1 packages; an unfinished one holds none. |
| `DkgHub.ApplyInv` | crates/vault-core/src/adapters/dkg_wire.rs:454-647 | Every hub operation on any input keeps every session sound and moves it only along allowed steps. |
| `DkgHub.SessionSafety` | crates/vault-core/src/adapters/dkg_wire.rs:454-647 | Under arbitrary messages: constitution frozen, phase forward only, package keys inside the roster, round-1 map full and immutable from Round2, Complete only from Round2, a failed part 2 never leaves Round1. |
| `DkgNetwork.StepInv` | crates/vault-core/src/adapters/dkg_wire.rs:352-647 | Every network event keeps: each stored package is its member's own, each message genuine, one package per route. |
| `DkgNetwork.MemberAgrees` | crates/vault-core/src/adapters/dkg_wire.rs:454-528 | Past Round1, every roster member runs that very session with the same terms, and its own package is the one held for it. |
| `DkgNetwork.TranscriptBinds` | crates/vault-core/src/adapters/dkg_wire.rs:206-227 | Equal transcripts of two hubs are equal constitutions. |
| `DkgNetwork.Agreement` | crates/vault-core/src/adapters/dkg_wire.rs:352-647 | Over dropped, duplicated and reordered messages, two hubs past Round1 of a session hold the same roster, thresholds and round-1 packages if and only if their rosters share a member. |
| `DkgNetwork.FullInbox` | crates/vault-core/src/adapters/dkg_wire.rs:562-601 | A full round-2 inbox holds exactly one package from every other member, the only one that member ever sent this hub in the session. |
| `DkgProgress.LeavesRound1` | crates/vault-core/src/adapters/dkg_wire.rs:454-528 | In any run, with any other events around, a session that was handed every other member's round-1 message is past Round1. |
| `DkgProgress.TakeSends` | crates/vault-core/src/adapters/dkg_wire.rs:531-560 | When a hub past Round1 hands its packages over, a round-2 message of its for every other member is on the network. |
| `DkgProgress.Finishes` | crates/vault-core/src/adapters/dkg_wire.rs:562-647 | A session that was handed both messages of every other member is completed by the next finalize if and only if part 3 gives a share of the frozen thresholds and it is stored (or it was complete). |
| `DkgGaps.DisjointRostersDisagree` | crates/vault-core/src/adapters/dkg_wire.rs:352-514 | A concrete run in which two hubs pass Round1 of one session id with different rosters. |
| `CosignPeer.TrCosignPeerState.constructor` | crates/vault-core/src/adapters/frost_wire_cosign.rs:91-93 | A new peer has no pending round. |
| `CosignPeer.TrCosignPeerState.HandleCommit` | crates/vault-core/src/adapters/frost_wire_cosign.rs:115-135 | Parks a fresh nonce with its message under the session, overwriting; errors park nothing. |
| `CosignPeer.CommitExact` | crates/vault-core/src/adapters/frost_wire_cosign.rs:115-135 | Ok if and only if the message decodes, one share is installed and the commitment serialises; then the fresh nonce replaces whatever was parked for the session, and an error leaves every parked round alone. |
| `CosignPeer.CommitThenSign` | crates/vault-core/src/adapters/frost_wire_cosign.rs:115-181 | After an accepted commit and any calls for other sessions, a matching sign-share answers with exactly that nonce, session and package. |
| `CosignPeer.TrCosignPeerState.HandleSignShare` | crates/vault-core/src/adapters/frost_wire_cosign.rs:137-181 | Takes the parked round out before every check; signs only a matching message. |
| `CosignPeer.NonceSingleUse` | crates/vault-core/src/adapters/frost_wire_cosign.rs:115-181 | Over every call sequence no two round-2 calls share a nonce, and each signs the message its nonce was committed to (RFC 9591, section 5.2). |
| `CosignPeer.OneAnswerPerCommit` | crates/vault-core/src/adapters/frost_wire_cosign.rs:137-155 | Whatever the answer, the round is over: a second request makes no round-2 call and is refused or ignored. |
| `CosignPeer.SharesIff` | crates/vault-core/src/adapters/frost_wire_cosign.rs:137-181 | A share leaves the peer exactly when it was asked, the parked round matches, the anti-nonce ledger allows it and its identifier is in the package. |
| `CosignPeer.SignShareExact` | crates/vault-core/src/adapters/frost_wire_cosign.rs:137-181 | When round 2 is called and on what, and exactly when a request is ignored or refused. |
| `CosignCoordinator.Collect` | crates/vault-core/src/adapters/frost_wire_cosign.rs:366-380 | The commitment loop: local first, later replies overwrite, the first unreadable reply is an error. |
| `CosignCoordinator.CommitmentKeys` | crates/vault-core/src/adapters/frost_wire_cosign.rs:366-380 | Exactly the local identifier and those that answered have a commitment. |
| `CosignCoordinator.OrderIrrelevant` | crates/vault-core/src/adapters/frost_wire_cosign.rs:366-380 | With distinct identifiers, commitments and node names do not depend on reply order. |
| `CosignCoordinator.Trim` | crates/vault-core/src/adapters/frost_wire_cosign.rs:387-404 | Keeps exactly max(1, min) signers: the local one and the smallest others, with their own commitments. |
| `CosignCoordinator.SelectSigners` | crates/vault-core/src/adapters/frost_wire_cosign.rs:382-404 | Fails stop exactly below the threshold, otherwise selects. |
| `CosignCoordinator.SelectionUnique` | crates/vault-core/src/adapters/frost_wire_cosign.rs:387-404 | There is one such signer set for given answers. |
| `CosignCoordinator.SignersIgnoreOrder` | crates/vault-core/src/adapters/frost_wire_cosign.rs:366-404 | Even with repeated identifiers the signer set depends only on who answered. |
| `CosignCoordinator.CollectShares` | crates/vault-core/src/adapters/frost_wire_cosign.rs:428-447 | The share loop: skips identifiers outside the package, credits the node behind each taken share. |
| `CosignCoordinator.ShareKeys` | crates/vault-core/src/adapters/frost_wire_cosign.rs:428-447 | Shares are held for exactly the local signer and the signers that answered. |
| `CosignCoordinator.ShareAt` | crates/vault-core/src/adapters/frost_wire_cosign.rs:428-447 | A signer's share is the one in its last reply; the local one stands when nobody answers for it. |
| `CosignCoordinator.CreditExact` | crates/vault-core/src/adapters/frost_wire_cosign.rs:444-463 | With a share from every signer, the credited names are exactly the signers' names. |
| `CosignCoordinator.NamesCount` | crates/vault-core/src/adapters/frost_wire_cosign.rs:461-463 | With distinct node names there are as many as signers. |
| `CosignCoordinator.SignRawWireAttributed` | crates/vault-core/src/adapters/frost_wire_cosign.rs:332-464 | On success the share keys equal the selected set, the shares are the ones collected, and the name list is sorted, duplicate free and exact; with all inputs in order it fails only below the threshold, on an unreadable share, or when some other signer did not answer. |
| `CivilDate.DateIsCount` | crates/vault-core/src/application/admin.rs:214-226 | The closed form equals the Gregorian calendar counted day by day from 1970-01-01, for every day count, and gives a valid date. |
| `CivilDate.DateStep` | crates/vault-core/src/application/admin.rs:214-226 | The next day count gives the calendar successor. |
| `CivilDate.FirstDay` | crates/vault-core/src/application/admin.rs:214-226 | Day 0 is 1970-01-01. |
| `CivilDate.DateOrder` | crates/vault-core/src/application/admin.rs:214-226 | Later days get later dates, so the conversion is injective. |
| `CivilDate.DateOnto` | crates/vault-core/src/application/admin.rs:214-226 | Every valid date from 1970 on is reached. |
| `CivilDate.KnownDays` | crates/vault-core/src/application/admin.rs:258-266 | 2026-07-30 is day 20664, and day 20669 is 2026-08-04. |
| `CivilDate.DayEpochOrder` | crates/vault-core/src/domain/day_epoch.rs:6-27 | Up to the year 9999 day texts compare as the days do. |
| `CivilDate.DayEpochOrderEnds` | crates/vault-core/src/domain/day_epoch.rs:22-27 | The text of 10000-01-01 sorts before that of the day before. |
| `CivilDate.DayEpochReads` | crates/vault-core/src/domain/day_epoch.rs:22-27 | A day text reads back as its year, month and day, at fixed places counted from the end. |
| `RateLimit.SlidingWindowLimiter.constructor` | crates/vault-core/src/adapters/rate_limit.rs:17-19 | The limit is at least 1. |
| `RateLimit.SlidingWindowLimiter.Check` | crates/vault-core/src/adapters/rate_limit.rs:31-44 | Prunes, then admits and records, or refuses. |
| `RateLimit.BookExact` | crates/vault-core/src/adapters/rate_limit.rs:31-44 | The stored list prunes, now or later, to what the full admitted history prunes to, and never exceeds the limit. |
| `RateLimit.RefusedIffFull` | crates/vault-core/src/adapters/rate_limit.rs:31-44 | A call is refused if and only if exactly `limit` admitted events of its principal lie less than a window ago. |
| `RateLimit.WindowNeverOverfull` | crates/vault-core/src/adapters/rate_limit.rs:31-44 | No interval of the window's length, wherever it starts, holds more than `limit` admitted events. |
| `KeyBlob.ReadBack` | crates/vault-identity-core/src/hybrid_identity.rs:81-84 | Little-endian bytes read back to the number they print, if it fits. |
| `KeyBlob.PrintBack` | crates/vault-identity-core/src/hybrid_identity.rs:100-121 | A read number prints to the bytes it was read from. |
| `KeyBlob.ToBytes` | crates/vault-identity-core/src/hybrid_identity.rs:72-86 | Appending part by part gives the blob layout. |
| `KeyBlob.BlobLayout` | crates/vault-identity-core/src/hybrid_identity.rs:72-86 | Where every key, the name, its length and both timestamps are in a blob, byte by byte. |
| `KeyBlob.KeysRoundTrip` | crates/vault-identity-core/src/ml_dsa_identity.rs:134-153 | The nested Ed25519 and ML-DSA layouts come back from the front of the blob. |
| `KeyBlob.RoundTrip` | crates/vault-identity-core/src/hybrid_identity.rs:72-124 | A valid key pair is read back from its own bytes, whatever follows, if and only if its name is shorter than 2^32 bytes. |
| `KeyBlob.AcceptedPrefix` | crates/vault-identity-core/src/hybrid_identity.rs:88-124 | An accepted blob holds a valid pair and starts with that pair's own bytes. |
| `KeyBlob.AcceptedIff` | crates/vault-identity-core/src/ed25519_identity.rs:91-109 | A blob is accepted if and only if it starts with the bytes of a valid, short-named pair with a matching Ed25519 key. |
| `DayRotation.QuorumDailyRotation.constructor` | crates/vault-core/src/adapters/daily_rotation.rs:261-288 | A boot resumes the readable day file, else the clock's day, and the readable votes. |
| `DayRotation.QuorumDailyRotation.PersistVotes` | crates/vault-core/src/adapters/daily_rotation.rs:312-318 | Writes the vote file when a path is configured. |
| `DayRotation.QuorumDailyRotation.WritePersist` | crates/vault-core/src/adapters/daily_rotation.rs:303-310 | Writes the day first and the votes only after it. |
| `DayRotation.QuorumDailyRotation.RecordVote` | crates/vault-core/src/adapters/daily_rotation.rs:365-372 | The last vote of a voter counts, in memory even when it cannot be saved. |
| `DayRotation.QuorumDailyRotation.RecordPeers` | crates/vault-core/src/adapters/daily_rotation.rs:380-382 | Peer votes are recorded in order up to the first that cannot be saved. |
| `DayRotation.QuorumDailyRotation.AdvanceDay` | crates/vault-core/src/adapters/daily_rotation.rs:374-419 | Moves memory, then files, then calls the hook, with the source's error order. |
| `DayRotation.GatherExact` | crates/vault-core/src/adapters/daily_rotation.rs:374-382 | All votes are in exactly when each could be saved and the peers were reached; each peer voter counts with its last vote, this node with the live day. |
| `DayRotation.DecideExact` | crates/vault-core/src/adapters/daily_rotation.rs:384-418 | Ok if and only if the live day has at least quorum_t voters, is not behind, both files are saved and the hook of a new day runs well; the day moves exactly when the quorum is there and the live day is later. |
| `DayRotation.VoteSurvives` | crates/vault-core/src/adapters/daily_rotation.rs:335-346 | Saved votes for readable days are the votes after a restart. |
| `DayRotation.QuorumDailyRotation.RequireEpoch` | crates/vault-core/src/adapters/daily_rotation.rs:421-438 | Passes exactly for the ledger day while the calendar has not moved past it. |
| `DayRotation.QuorumBehindEveryChange` | crates/vault-core/src/adapters/daily_rotation.rs:374-419 | Over any clock, votes, failed writes and restarts, every change of the ledger day is strictly forward and has at least quorum_t distinct voters that each cast a vote for that day. |
| `DayRotation.LedgerDayNeverDecreases` | crates/vault-core/src/adapters/daily_rotation.rs:374-419 | Within a process the ledger day never goes back, whatever the clock does. |
| `DayRotation.HooksIncrease` | crates/vault-core/src/adapters/daily_rotation.rs:405-418 | Hook calls form strictly increasing, non-overlapping day intervals: within a process for any clock, across restarts when the day is kept on disk and can be read back. |
| `DayRotation.AckedDayKept` | crates/vault-core/src/adapters/daily_rotation.rs:261-288 | A day answered with Ok is never left behind, not even by a restart. |
| `DayRotation.RebootResumesIff` | crates/vault-core/src/adapters/daily_rotation.rs:325-328 | After a successful advance a restart resumes that day if and only if its text can be read back (or the clock agrees). |
| `DayRotation.HookMissedForGood` | crates/vault-core/src/adapters/daily_rotation.rs:391-418 | The hook of a change runs exactly when both files were written; otherwise no call in the rest of the process runs it for that day. |
| `DayRotation.LaterHooks` | crates/vault-core/src/adapters/daily_rotation.rs:405-418 | Within a process every later hook call is for a day after the one the node is at. |
| `DayRotation.ClockDayParses` | crates/vault-core/src/domain/day_epoch.rs:10-27 | A clock day can be read back from a file if and only if it is before day 2932897 (10000-01-01). |
| `GovLedger.InMemoryLedger.constructor` | crates/vault-core/src/adapters/ledger_memory.rs:19-27 | Genesis is one sealed entry at index 0, epoch 0. |
| `GovLedger.InMemoryLedger.Head` | crates/vault-core/src/adapters/ledger_memory.rs:44-46 | The hash the next entry must name. |
| `GovLedger.InMemoryLedger.AppendEntry` | crates/vault-core/src/adapters/ledger_memory.rs:52-74 | Accepts exactly the next index with the head's hash from an active writer, and changes nothing else. |
| `GovLedger.InMemoryLedger.SetEpoch` | crates/vault-core/src/adapters/ledger_memory.rs:39-42 | Replaces the epoch only. |
| `GovLedger.InMemoryLedger.PutProposal` | crates/vault-core/src/adapters/ledger_memory.rs:76-83 | Never overwrites a proposal. |
| `GovLedger.InMemoryLedger.SaveProposal` | crates/vault-core/src/adapters/ledger_memory.rs:95-99 | Overwrites the proposal of that id only. |
| `GovLedger.InMemoryLedger.AppendFresh` | crates/vault-core/src/application/ledger_ops.rs:90-107 | Head, length and append in one go. |
| `GovLedger.ProposeEpochAdvance` | crates/vault-core/src/application/ledger_ops.rs:16-32 | Active members only; stores the proposal with its proposer's vote and records it. |
| `GovLedger.ProposeExact` | crates/vault-core/src/application/ledger_ops.rs:16-32 | Accepted if and only if the proposer is active and the id new; the stored proposal and its one VoteRecorded entry. |
| `GovLedger.VoteEpochAdvance` | crates/vault-core/src/application/ledger_ops.rs:44-69 | The source's checks in order, then vote, record, and with enough votes close and advance. |
| `GovLedger.AdvanceEpochNumber` | crates/vault-core/src/application/ledger_ops.rs:71-87 | Sets the number and announces it. |
| `GovLedger.ChainUnderRaces` | crates/vault-core/src/adapters/ledger_memory.rs:52-74 | Under every interleaving of head reads, length reads and appends the ledger only grows, stays gap-free, hash-linked and sealed, with active-set writers after genesis. |
| `GovLedger.StaleAppendRefused` | crates/vault-core/src/adapters/ledger_memory.rs:52-66 | Of two writers that read the same ledger at most one appends. |
| `GovLedger.AppendExact` | crates/vault-core/src/adapters/ledger_memory.rs:52-74 | On a sound ledger an entry is appended if and only if it carries the next index and the last hash and its writer is active, and which error it gets otherwise. |
| `GovLedger.OpenExact` | crates/vault-core/src/adapters/ledger_memory.rs:19-27 | A ledger opens if and only if the constitution is valid and the active set has its size; it holds one sealed genesis entry at epoch 0. |
| `GovLedger.HeadBindsHistory` | crates/vault-core/src/domain/ledger.rs:63-75 | With nothing assumed of the hash but bar-free output, two ledgers with equal heads are equal or yield two different entry texts with one hash. |
| `GovLedger.MaterialInjective` | crates/vault-core/src/domain/ledger.rs:71-73 | The bar-separated text that is hashed fixes every field of an entry, for any writer id. |
| `GovLedger.VoteEffect` | crates/vault-core/src/application/ledger_ops.rs:44-87 | A readable vote always succeeds; it advances the number by one exactly when it completes the threshold. |
| `GovLedger.VoteAccepted` | crates/vault-core/src/application/ledger_ops.rs:44-69 | Accepted if and only if the voter is active and the proposal is known and of the current epoch; the error of every other case. |
| `GovLedger.VoteEntries` | crates/vault-core/src/application/ledger_ops.rs:57-107 | The VoteRecorded entry of the voter, and the EpochAdvanced entry when the vote closes. |
| `GovLedger.VotesRecorded` | crates/vault-core/src/application/ledger_ops.rs:90-107 | In sequential runs there is one VoteRecorded entry for every accepted proposal and vote, and no other. |
| `GovLedger.EpochCountsAdvances` | crates/vault-core/src/application/ledger_ops.rs:44-87 | In sequential runs the EpochAdvanced entries announce 1, 2, 3, ... up to the epoch number. |
| `GovLedger.OneProposalPerAdvance` | crates/vault-core/src/application/ledger_ops.rs:44-87 | In sequential runs every past epoch was advanced by exactly one proposal, backed by at least governance_t distinct active members. |
| `GovLedger.ClosedIsMismatch` | crates/vault-core/src/domain/ledger.rs:127-135 | In sequential runs a vote for a closed proposal is an epoch mismatch; ProposalClosed is never answered. |
| `GovLedger.RacingVotesAnnounceTwice` | crates/vault-core/src/application/ledger_ops.rs:44-87 | Two closing votes read before either is written advance the number once and announce it twice. |
| `GovRaces.WriteInv` | crates/vault-core/src/application/ledger_ops.rs:59-69 | Writing a vote, however old its read, keeps the announcements counted or, once a closing write was stale, repeated. |
| `GovRaces.AnnouncedOnceIff` | crates/vault-core/src/application/ledger_ops.rs:44-87 | Over every interleaving of reading and writing halves, the announced epochs are all different if and only if every closing write found the number it had read; then they are 1, 2, 3, ... |

## Left out

- IntentMesh.SingleReserve: its condition also names reboots and counts nodes, because reservations are kept in memory only; `ReserveToleranceExact` shows the need.
- AntiNonce.ClaimAmongPeers: in-memory peers whose writes succeed; failed writes and lost peers are in `QuorumAntiNonce.ClaimSession` and in the mesh.
- QuorumBucket.AuthorizeAccounting: speaks of day totals that fit 64 bits; `HoldExact` is the boundary. Times are one clock reading per ledger call.
- Roster.PreimageInjective: SHA-256 is taken to be injective, so a transcript is its preimage; node ids must not contain `,` or `|`.
- DkgNetwork.Agreement: FROST part 2 is assumed to address exactly the identifiers it received from, and hubs do not restart.
- DkgProgress.LeavesRound1: FROST part 2 is assumed to succeed on what honest members send; a failure leaves the session in Round1 for good (`Ingest1Exact`, `SessionSafety`).
- CosignPeer.NonceSingleUse: the random generator is assumed never to draw the same nonce twice.
- CivilDate.DateIsCount: the narrowing of year, month and day to 32 bits is not modelled; the years it affects are beyond 2 billion.
- CivilDate.DayEpochOrder: the day text uses a signed copy of the same day arithmetic; day counts are never negative, so one model serves both.
- DayRotation.QuorumDailyRotation.AdvanceDay: voters are passed to the reshare hook without the node-id syntax filter.
- GovLedger.VoteEpochAdvance: the epoch number is unbounded instead of 64 bits wide.
- CosignCoordinator.Trim: identifiers are the numbers their fixed-width big-endian serialisation writes, so both orders agree.
- DkgHub.WireDkgHub.AcceptRound1: the sealed envelope of the plain machine is one good-or-bad flag; the Taproot machine ignores it, as its code does.
- Cryptography (FROST, Ed25519, ML-DSA, SHA-2, attestation): abstract functions or flags.
- HTTP, mTLS, sockets, CLI, metrics and health probing: only "a peer answered fresh, seen, unreadable or not at all" is kept.
- File system: an append or an atomic replacement is one step that may fail before or after taking effect; torn writes are out.
- Thread races inside single-node methods, except the durable intent prepare and the governance writers.
- `usize` overflow of `2n` in the quorum arithmetic: meshes are far smaller.
- `claim_reserve` of the quorum ledger: no caller.
- `UsersOmnibusProtected` in the intent gate: unreachable after the bucket check.
- The economy snapshot and the bank-issued miner payout check before the gate: only the eligible destinations are kept.
- `BucketPolicy` allowlist edits and profit splitting: easy members.
- `iso_timestamp` beyond the date, status views and outbound fan-out of the DKG hubs.
- `reshare_wire.rs`, PSBT building, Taproot tweaks, address parsing, channel injection and key lifecycle: not part of this model.
