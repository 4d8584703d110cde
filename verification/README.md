# AgentVault payment core: a verified model

AgentVault pays for agents. A payment intent is decided by policy, takes its
amount out of shared budgets, may need a second person's approval, is signed,
reported by the merchant, confirmed on chain and posted to a ledger. Many
workers drive this at once over one SQL store. This project models that core
in Dafny and proves what it promises over every run. It also models the two
caches behind one interface, the identity of x402 challenges, the generic
revisioned repository, wallet selection, ledger totals and the balance sweep.

`dafny verify dfyconfig.toml` checks the whole project.

## How the model is laid out

**Payments.** `Domain` has the records, `PaymentTables` the tables with their row
rules (compare-and-swap on `updated_at`, append-only events and ledger entries,
daily usages), `Transactions` one function per storage transaction, `Workers`
what each worker writes as a function of the rows it read. `Protocol` turns
these into a step system: a run is a list of table states and operations, and an
operation names the earlier moments at which it read, so every interleaving,
every stale read and every crash before a commit is a run. `Steps` and `Runs`
prove the invariant; `Conservation`, `PaymentSafety` and `Progress` hold the
theorems. `PaymentService` and `Reconciler` are the imperative side: services
and a reconciliation pass that change state in place. A service commits on rows
it read at earlier moments, with other calls in between; each commit is proved to
be the protocol's step, so the calls of a store form a run and every theorem about
runs holds of it. `PolicyEngine` and `WalletSelection` decide, `Sums` adds
over tables.

**Caches.** `ExpiringMap` is the shared contract: the lossless map of latest
writes. `MemoryCache` is the in-process cache (a class and its specification),
`MemoryHistory` and `MemoryRecency` its histories, `RedisCache` the scripts and
`RedisHistory` their histories.

**Identity.** `Json`, `JsonText`, `Framing` and `ChallengeIdentity`; digests are
treated as functions of their preimage, so the preimages are what is compared.

**The rest.** `EntityRegister`, `LedgerTotals`, `BalanceSweep`; `Lex`, `Decimal`
and `Options` are shared vocabulary.

## Modelling decisions

- Amounts are unsigned 128-bit with checked addition, timestamps signed 64-bit
  with the saturating additions written out, counters saturate where the code
  saturates. Byte strings are sequences of 0..255; Rust strings compare by bytes,
  which is code point order.
- Clocks, generated identifiers, provider and chain answers, merchant responses
  and the answers of budget reads in wallet selection are parameters.
- A digest is represented by what it is computed from; a sealed approval token by
  the claims it was sealed with.
- Catalog rows (policies, wallets) are fixed for a run. What a signing meets
  outside these tables is part of its request: whether balances, adapter and
  signer allowed it, and whether client, scenario, policy, wallet and active key
  were unchanged at the commit. Other checks that can only refuse (enabled flags
  of client and scenario elsewhere) are covered by the step that does nothing,
  which is always allowed.
- The inbound coordinator is an environment: it may write anything the store
  accepts about inbound intents, their own events and inbound entries.
- Commits do not clear the lease columns; only a release does. The model follows
  the code (`Reconciler.Moved`).
- The store itself refuses a version that is not greater than the expected one,
  so strict growth of `updated_at` needs no bound; `NextTimestampAdvances` says
  when the workers' stamp can no longer advance.
- Approvals of a pending request do not look at the intent's status; that a
  pending request always belongs to an intent that still waits for it is part of
  the invariant, not of the check.

## Results that correct an expectation

- Update and upsert agree on an existing row exactly when the revision is neither
  NULL nor decimal (`UpdateAgreesWithUpsert`). The decimal half is latent: every
  declared revision column is an integer. `DecimalRevision` shows it on a row that
  goes from revision 9 to 10: update refuses, PostgreSQL's upsert stores, and
  SQLite's does not, because it is handed decimals as text. `LastWriterWins` is
  about the order the dialect uses.
- Expiries at or above 10^14 milliseconds are rounded to fourteen significant
  digits by the scripts; `RoundedExactly` says which survive and
  `RoundedCanExtend` shows a field that outlives its expiry.
- A write to the shared cache can lose a live sibling. `StoreAgrees` gives the
  exact condition for one write, and `HistoryAgrees` for whole histories of a clock
  that never goes back: the default time-to-live is at least a millisecond and the
  expiries survive as text. For a clock that steps back, `WriteKeepsSibling` and
  `ClockStepKeepsField` say exactly which fields keep their life
  (`SubMillisecondDefaultLosesWrites` and `ClockMovingBackLosesLiveField` are
  failing inputs). A lost field is only ever a miss: `HistoryFaithful` and
  `HitIsLatestWrite` need no condition at all.
- After a release at now+d the next delay is at least min(2d, max) exactly when the
  row's version is not ahead of the worker's clock, or the initial and the maximum
  backoff are one, or what the version leaves of d is at least the initial backoff
  and at least half the maximum (`BackoffDoubles`). A version one millisecond ahead
  keeps a delay of 2 where doubling makes it 4 (`VersionAheadResetsBackoff`).

## Model

| member | source | states |
|---|---|---|
| `Conservation.ReservedIsConserved` | src/payment/reconciliation_posting.rs:47-94 | in every run, the amounts of all reservations ever granted sum to what is still reserved plus what is posted to the ledger for outbound payments |
| `Conservation.ConservationStep` | src/payment/authorization.rs:379-403 | one step changes reserved plus posted by exactly what it reserved: the full amount of the authorized or approved intent, or nothing |
| `Conservation.WalletCeiling` | src/storage/payment/budget.rs:66-80 | in every run, outstanding reservations plus flow confirmed since any day not before the last reserving one stay within the wallet's daily limit |
| `Conservation.ScenarioCeiling` | src/storage/payment/budget.rs:39-54 | the same for a scenario and unit, against the largest hard daily limit of its policies |
| `Conservation.UsageStep` | src/storage/payment/budget.rs:97-204 | only a guarded reservation in the same scope and unit raises a usage, by its amount; settlement can only lower it |
| `PolicyEngine.EvaluateAgreesWithGuard` | src/model/policy.rs:49-118 | the evaluator allows a payment exactly when the transaction's automatic guard would and no threshold is reached, sends it to approval exactly when only the approved guard would or the threshold is reached, and denies everything out of scope |
| `PaymentSafety.SettledHasOneEntry` | src/payment/reconciliation_posting.rs:47-94 | in every reachable state an outbound intent is settled exactly when it has a ledger entry, and then it has one: a payment of its exact amount, wallet, scenario and asset |
| `PaymentSafety.FinalIsForever` | src/storage/payment/mod.rs:435-485 | a settled, failed or expired outbound intent keeps every column for the rest of the run |
| `PaymentSafety.RecorderCannotReopen` | src/payment/evidence.rs:93-130 | the recorder builds a pending version of a settled intent, and at any later moment the store answers replay if the evidence is the recorded one and conflict otherwise, never a commit |
| `PaymentSafety.OneLocator` | src/payment/evidence.rs:445-454 | any two merchant locators ever recorded for an outbound intent are the same event |
| `PaymentSafety.SignedIsNeverReleased` | src/payment/reconciliation.rs:161-244 | once signed, an outbound intent is reserved at its full amount until it is settled and consumed, in every later state |
| `PaymentSafety.ReservationEndsByConfirmation` | src/payment/recovery.rs:113-154 | a step that ends an outbound reservation is a reconciliation that settles it, on a receipt confirmed by the operator's chain access through the recorded locator |
| `PaymentSafety.AuthorizedThroughGrant` | src/payment/approval.rs:246-330 | an intent leaves approval for authorization only by consuming an approved grant of another person, for its amount and request hash, before grant expiry <= request expiry <= challenge expiry |
| `PaymentSafety.AuthorizedOnce` | src/storage/approval/transactions.rs:280-335 | at most one step of a run authorizes an intent that waited for approval |
| `PaymentSafety.ApprovalWasRequested` | src/payment/authorization.rs:461-490 | every approval row of a run was a pending request at some earlier moment |
| `PaymentSafety.ApprovalMatchesAt` | src/storage/approval/transactions.rs:146-278 | in every reachable state an approval's status agrees with its intent's status, and an approved or consumed row carries the grant bound to it |
| `PaymentSafety.VersionsOnlyGrow` | src/storage/payment/mutations.rs:107-195 | versions of an intent never go back, and equal versions are equal rows up to the schedule |
| `PaymentSafety.CommitsStrictlyIncrease` | src/payment/reconciliation.rs:254-259 | two commits on one intent find and leave strictly increasing versions |
| `PaymentSafety.WriterSwaps` | src/payment/signing.rs:199-203 | a writer's commit replaces exactly the version it had read |
| `PaymentSafety.OneCommitPerVersion` | src/payment/approval.rs:282-286 | of all writers that read the same version of an intent, at most one commits |
| `PaymentSafety.SweepFindsNoReservation` | src/storage/approval/transactions.rs:378-382 | in reachable states the expiry sweep never meets an active approval whose intent owns a reservation |
| `PaymentSafety.SnapshotFindsLedger` | src/storage/payment/budget.rs:285-314 | in reachable states the budget snapshot never meets a consumed outbound reservation without its ledger fact |
| `Progress.NextTimestampAdvances` | src/payment/approval.rs:350-352 | the stamp is later than the previous version for every clock, exactly while the version is below the largest timestamp |
| `Progress.AllowedIsReserved` | src/storage/payment/transactions.rs:60-138 | a payment the evaluator allows on the current tables is inserted and reserved in full |
| `Progress.RequestedCanBeAuthorized` | src/payment/approval.rs:92-137 | from every reachable pending request, a second person's approval and its consumption lead to an authorized, reserved intent when scope and budget agree |
| `Progress.ApproveCommitsNow` | src/payment/approval_grant.rs:214-260 | an approval by another person in time commits, and the row takes the grant's expiry |
| `Progress.ConsumeCommitsNow` | src/storage/approval/transactions.rs:280-335 | a verified grant is consumed and its intent holds the full amount |
| `Progress.AuthorizedCanSettle` | src/payment/reconciliation.rs:304-323 | from every reachable authorized intent, signing, a merchant response and a confirmed receipt lead to settlement in three steps |
| `Progress.SignCommitsNow` | src/storage/signing/transactions.rs:57-128 | an unexpired authorized intent is signed, with its two events and nothing else, exactly when balances and signer allow it and the catalog rows it was based on still hold |
| `Progress.EvidenceCommitsNow` | src/payment/evidence.rs:72-140 | an accepted response to a signed intent is recorded and can be read back by the reconciler |
| `Progress.SettleCommitsNow` | src/storage/payment/transactions.rs:386-420 | valid confirmed evidence under a new posting key settles a pending intent |
| `Progress.LookupConfirms` | src/payment/recovery.rs:113-154 | a confirmed receipt for the recorded locator yields evidence that passes validation |
| `Runs.RunInv` | src/storage/payment/transactions.rs:60-420 | every state of every run satisfies the invariant: reservation, events, ledger entries and approvals of each outbound intent are those its status calls for |
| `Runs.RunEvolves` | src/storage/payment/mutations.rs:107-195 | every state of a run evolves into every later one: versions grow, final rows freeze, signed stays signed, events and entries are kept |
| `Runs.StepIsSound` | src/storage/payment/transactions.rs:280-420 | every committed operation, built from any stale read, keeps the invariant, moves rows only forward and has the money effect of its kind |
| `Runs.OutboundReconcileTx` | src/payment/reconciliation.rs:154-211 | whatever the evidence, reconciliation can only settle an outbound intent, posting its reservation |
| `Runs.InboundReconcileTx` | src/payment/reconciliation.rs:213-302 | reconciling an inbound intent changes no outbound reservation and no outbound entry |
| `Steps.InsertedKeeps` | src/payment/authorization.rs:336-490 | a committed authorization, of any decision, keeps the invariant |
| `Steps.ApproveKeeps` | src/payment/approval.rs:92-137 | approving after any stale read keeps the invariant |
| `Steps.RejectKeeps` | src/payment/approval.rs:110-118 | rejecting after any stale read fails the intent without touching a reservation |
| `Steps.ConsumeKeeps` | src/payment/approval.rs:246-330 | consuming after any stale read keeps the invariant |
| `Steps.ExpireDueKeeps` | src/storage/approval/transactions.rs:337-406 | a batch of expiries keeps the invariant and moves rows only forward |
| `Steps.ExpireDueNeutral` | src/storage/approval/transactions.rs:376-393 | a batch of expiries changes no outbound reservation and no entry |
| `Steps.SignKeeps` | src/payment/signing.rs:192-264 | signing after any stale read keeps the invariant |
| `Steps.EvidenceKeeps` | src/payment/evidence.rs:93-130 | recording after any stale read keeps the invariant |
| `Steps.PostsOnce` | src/storage/ledger/postgres.rs:128-175 | a posting for an intent without entries is inserted, never taken for a replay |
| `Steps.ConfirmedKeeps` | src/payment/reconciliation_posting.rs:18-94 | a committed settlement keeps the invariant and posts one entry of the reservation's amount |
| `Steps.ReleaseKeeps` | src/storage/payment/reconciliation.rs:108-164 | releasing a lease moves only the schedule |
| `Steps.ClaimChangesLeasesOnly` | src/storage/payment/reconciliation.rs:5-91 | claiming a batch changes nothing but leases and attempt counts |
| `PaymentTables.AppendEvents` | src/storage/event/postgres.rs:82-123 | a successful batch adds exactly its keys, keeps every stored event, and stores each given event |
| `PaymentTables.AppendLedger` | src/storage/ledger/postgres.rs:128-175 | a successful batch keeps every stored entry and adds only given ones |
| `PaymentService.SumIntents` | src/storage/payment/budget.rs:142-159 | the row by row sum is the reserved total of scope, direction and unit |
| `PaymentService.SumLedger` | src/storage/payment/budget.rs:160-181 | the row by row sum is the confirmed total since the day start |
| `PaymentService.AppendAll` | src/storage/payment/transactions.rs:494-506 | events are appended one by one, all or none |
| `PaymentService.PaymentStore.BudgetGuard` | src/storage/payment/budget.rs:6-82 | the guard computed from fresh sums is the guard of the transaction |
| `PaymentService.PaymentStore.Authorize` | src/payment/authorization.rs:70-149 | a call, whenever its decision was made, is the authorization step of the run so far and extends it by its commit |
| `PaymentService.PaymentStore.SubmitDecision` | src/payment/approval.rs:92-137 | a call on rows read at any earlier moments is the decision step of the run so far and extends it by its commit |
| `PaymentService.PaymentStore.ConsumeGrant` | src/payment/approval.rs:246-330 | a call on rows read at any earlier moments is the consumption step of the run so far and extends it by its commit |
| `PaymentService.PaymentStore.ExpireApprovals` | src/storage/approval/transactions.rs:337-406 | the loop over due rows is the expiry step: it commits all of them or leaves the tables and the run as they were |
| `PaymentService.PaymentStore.SignPayment` | src/payment/signing.rs:77-107 | a call on a row read at any earlier moment is the signing step of the run so far and extends it by its commit |
| `PaymentService.PaymentStore.RecordMerchantResponse` | src/payment/evidence.rs:72-140 | a call on a row read at any earlier moment is the evidence step of the run so far and extends it by its commit |
| `PaymentService.PaymentStore.ClaimReconciliation` | src/storage/payment/reconciliation.rs:5-91 | the loop over selected rows is the claiming step: it leases all of them or none |
| `PaymentService.StoreIsSafe` | src/storage/payment/transactions.rs:60-420 | whatever calls a store has seen, its tables satisfy the invariant and every earlier state evolves into them |
| `Reconciler.BackoffInRange` | src/payment/reconciliation.rs:378-389 | every delay lies between the initial and the maximum backoff |
| `Reconciler.BackoffDoubles` | src/payment/reconciliation.rs:378-389 | after a release at now+d, the next delay is at least min(2d, max) exactly when the version is not ahead of the clock, or initial and maximum backoff are one, or what the version leaves of d is at least the initial backoff and half the maximum |
| `Reconciler.VersionAheadResetsBackoff` | src/payment/reconciliation.rs:378-389 | with backoffs 2 and 100, a version one ahead of the clock keeps a delay of 2 at 2 |
| `Reconciler.TurnEnds` | src/payment/reconciliation.rs:154-211 | a finished turn either moved the intent by the protocol's commit or released it at now+d with d in range, and its outcome tells which |
| `Reconciler.ClaimEnds` | src/payment/reconciliation.rs:129-150 | the same for a claim of a pass, with lease renewal first and any tables met on the way |
| `Reconciler.NextTurnBacksOff` | src/payment/reconciliation.rs:367-389 | after a released turn with an unchanged version, the next delay is at least min(2d, max) |
| `Reconciler.EachTurnCountedOnce` | src/model/reconciliation.rs:121-131 | each finished turn is counted under its outcome only, and the counts add up |
| `Reconciler.PaymentReconciler.RunOnce` | src/payment/reconciliation.rs:112-152 | a pass takes the claims in order; it succeeds exactly when every turn finishes, and then counts every claim once |
| `WalletSelection.PolicyDecision` | src/payment/authorization.rs:167-266 | the nested loops with all early exits select what the specification selects |
| `WalletSelection.CollectPairs` | src/payment/authorization.rs:207-258 | the wallets of one policy are all evaluated, or the bound or a failure stops the selection |
| `WalletSelection.HeadIsLeast` | src/payment/authorization.rs:260-265 | sorting keeps the candidates and puts a least one first |
| `WalletSelection.KeyLessTotal` | src/payment/authorization.rs:290-316 | the comparison is total and asymmetric |
| `WalletSelection.LeastIsUnique` | src/payment/authorization.rs:290-316 | with one result per policy and wallet, two lists with the same candidates have the same least one |
| `WalletSelection.SelectionIgnoresListing` | src/payment/authorization.rs:191-265 | two listings of the same policies and wallets, in any order, both fail or select the same pair |
| `WalletSelection.SelectionIsBest` | src/payment/authorization.rs:290-324 | the selected pair is least, is denied only if all are, and under least-spent has spent least within its rank |
| `MemoryCache.FindLeast` | src/cache/memory.rs:94-110 | the scan finds the unique least recently used entry, ties by key |
| `MemoryCache.Memory.DropExpired` | src/cache/memory.rs:90-92 | exactly the expired entries are removed |
| `MemoryCache.Memory.EvictFor` | src/cache/memory.rs:94-110 | room is made only when the cache is full and the key is new, by removing the least entry |
| `MemoryCache.Memory.Store` | src/cache/memory.rs:112-124 | the entry is stored with the next access number |
| `MemoryCache.Memory.Initialize` | src/cache/memory.rs:133-139 | a closed cache cannot be initialized |
| `MemoryCache.Memory.Read` | src/cache/memory.rs:141-155 | a read drops expired entries, counts an access even on a miss, and refreshes a hit |
| `MemoryCache.Memory.Write` | src/cache/memory.rs:157-169 | validation, expiry, eviction and insertion in this order |
| `MemoryCache.Memory.WriteIfAbsent` | src/cache/memory.rs:171-186 | a live entry is left alone and the write refused |
| `MemoryCache.Memory.TakeOnce` | src/cache/memory.rs:188-199 | a live entry is returned and removed |
| `MemoryCache.Memory.Remove` | src/cache/memory.rs:201-211 | the entry is removed |
| `MemoryCache.Memory.ClearNamespace` | src/cache/memory.rs:218-227 | exactly the entries of the namespace are removed |
| `MemoryCache.Memory.Shutdown` | src/cache/memory.rs:229-236 | the first close empties the cache for good |
| `ExpiringMap.ReplayHoldsLatestWrites` | src/cache/cache.rs:25-60 | the contract map holds a cell exactly when some write of it is the latest and nothing ended it since |
| `MemoryHistory.StepRefines` | src/cache/memory.rs:141-236 | every operation, with any stale readiness answer, shows at most what the contract map holds |
| `MemoryHistory.HistoryRefines` | src/cache/memory.rs:141-236 | the same after every history |
| `MemoryHistory.HitIsLatestWrite` | src/cache/memory.rs:141-155 | a hit returns the value of the latest accepted write, unexpired at the read's time and not since taken, deleted, cleared or closed |
| `MemoryHistory.TakenOncePerWrite` | src/cache/memory.rs:188-199 | between two successful takes of a key there is an accepted write of it |
| `MemoryHistory.WrittenOnceTakenOnce` | src/payment/wallet_import.rs:80-150 | a session key that is written once is consumed at most once |
| `MemoryRecency.NeverExceedsBound` | src/cache/memory.rs:94-124 | in any history the cache never holds more than its bound |
| `MemoryRecency.HoldsMostRecentlyTouched` | src/cache/memory.rs:90-186 | without expiry or removals, and while the counter has room, the cache holds exactly the most recently touched keys, as many as fit |
| `MemoryRecency.AlwaysRanked` | src/cache/memory.rs:112-155 | in any history while the counter has room, access numbers order the entries as their last touches do |
| `MemoryRecency.MissingWasOutpaced` | src/cache/memory.rs:90-236 | in any history while the counter has room, a key that was written, not ended and not expired since is missing only if as many other keys as the cache holds were touched after its last touch |
| `RedisCache.DecodeEncode` | src/cache/redis.rs:40-71 | splitting at the first colon recovers every stored value, colons included, with the rounded expiry |
| `RedisCache.RoundedExactly` | src/cache/redis.rs:40-46 | an expiry survives the conversion to text exactly when it is a multiple of its last kept digit, in particular below 10^14 |
| `RedisCache.RoundedCanExtend` | src/cache/redis.rs:40-46 | a concrete expiry above 10^14 that is stored later than given |
| `RedisCache.FieldTtlFits` | src/cache/redis.rs:218-238 | with a default of at least a millisecond, a field's time-to-live is between 1 and that of its namespace |
| `RedisHistory.StepFaithful` | src/cache/redis.rs:23-71 | whatever the time, each script keeps every stored field equal to what the contract map holds for its key, expiry as rounded |
| `RedisHistory.HistoryFaithful` | src/cache/redis.rs:208-288 | the same after every history, with any clock, default and expiry |
| `RedisHistory.HitIsLatestWrite` | src/cache/redis.rs:208-270 | in every history a hit returns the value of the latest accepted write of its key, not since taken, deleted or cleared, before its stored expiry |
| `RedisHistory.TakenOncePerWrite` | src/cache/redis.rs:60-71 | in every history there is an accepted write between two successful takes of a key |
| `RedisHistory.WrittenOnceTakenOnce` | src/payment/wallet_import.rs:80-150 | in every history a session key that is written once is consumed at most once |
| `RedisHistory.WriteKeepsSibling` | src/cache/redis.rs:40-46 | a write keeps a live sibling at every later time exactly when the renewed hash ends it when the old one did; under a covering hash, exactly when its expiry is within the life of the renewed hash |
| `RedisHistory.StoreAgrees` | src/cache/redis.rs:40-59 | from agreement with the contract map, a write agrees at every later time exactly when the hash lives at all, the expiry survives as text and no live sibling expires after the renewed hash |
| `RedisHistory.StepAgrees` | src/cache/redis.rs:23-71 | every other script keeps the agreement, and a write keeps it exactly under that condition |
| `RedisHistory.HistoryAgrees` | src/cache/redis.rs:208-288 | under a clock that never goes back, live fields are exactly the live cells of the contract map after every call if and only if every accepted write had a default of a millisecond or more and an expiry that survives as text |
| `RedisHistory.HitIffLatestWrite` | src/cache/redis.rs:208-270 | in such histories a read or take hits exactly when the latest write of the key is live |
| `RedisHistory.ClockStepKeepsField` | src/cache/redis.rs:40-46 | a field written at w keeps its life under a sibling's write at an earlier or later time exactly when its expiry is within one hash life of that time |
| `RedisHistory.SubMillisecondDefaultLosesWrites` | src/cache/redis.rs:225-226 | with a default under a millisecond a write is lost at once |
| `RedisHistory.ClockMovingBackLosesLiveField` | src/cache/redis.rs:40-46 | an input of the other half of that condition: a clock fifty milliseconds back drops a live field |
| `RedisCache.Redis.ReadScript` | src/cache/redis.rs:23-39 | the read script returns a live value or removes a dead field |
| `RedisCache.Redis.SetScript` | src/cache/redis.rs:40-46 | the set script stores the field and renews the hash |
| `RedisCache.Redis.SetIfAbsentScript` | src/cache/redis.rs:47-59 | the script stores only when no live field is there |
| `RedisCache.Redis.TakeScript` | src/cache/redis.rs:60-71 | the take script always removes the field and returns it only if live |
| `Json.CanonicalDecidesEquivalence` | src/protocol/x402_wire.rs:449-467 | canonical forms are equal exactly when the trees differ only in member order, at any depth |
| `Json.CanonicalKeepsMeaning` | src/protocol/x402_wire.rs:449-467 | canonicalising keeps names distinct, is idempotent and changes only member order |
| `Json.CanonicalJson` | src/protocol/x402_wire.rs:453-467 | the recursive walk with its loops computes the canonical form |
| `JsonText.SerializeInjective` | src/protocol/x402_wire.rs:438-444 | two trees have the same bytes exactly when they are equal |
| `Framing.FrameInjective` | src/protocol/x402_wire.rs:575-582 | length framing is injective on lists of parts shorter than 2^64 bytes |
| `Framing.HashParts` | src/payment/evidence.rs:456-463 | feeding the hasher part by part yields the framed preimage |
| `ChallengeIdentity.ChallengePreimageDecides` | src/protocol/x402_wire.rs:430-447 | two challenges share a hash preimage exactly when the nonce is well formed and resource, expiry, nonce and the wire value up to member order agree |
| `ChallengeIdentity.NoncePreimageDecides` | src/protocol/x402_wire.rs:411-420 | two derived nonces share a preimage exactly when resource, expiry and wire value up to member order agree |
| `ChallengeIdentity.AdvertisedDecides` | src/protocol/x402_wire.rs:147-156 | the advertised check accepts exactly a requirement that is offered, in any member order |
| `ChallengeIdentity.EvidencePreimageDecides` | src/payment/evidence.rs:416-443 | evidence hashes share a preimage exactly when protocol and all parts agree, across both layouts |
| `ChallengeIdentity.EventIdPreimageDecides` | src/payment/evidence.rs:445-454 | merchant event identifiers share a preimage exactly when protocol and intent agree |
| `ChallengeIdentity.SelectionPreimageDecides` | src/payment/authorization.rs:326-334 | selection keys share a preimage exactly when request, policy and wallet agree |
| `EntityRegister.UpdateAgreesWithUpsert` | src/storage/query.rs:115-159 | on an existing row update and upsert agree, NULL immutable columns included, if and only if the revision is neither NULL nor decimal, or both refuse; otherwise update refuses |
| `EntityRegister.DecimalRevision` | src/storage/sqlite.rs:198-200 | revision 10 after a decimal 9: update refuses, PostgreSQL's upsert stores, SQLite's compares text and does not |
| `EntityRegister.GuardsAgree` | src/storage/query.rs:521-540 | the upsert guard and the update filter on immutable columns are true exactly when the columns are equal, NULL counted as equal to NULL |
| `EntityRegister.NullRevisionChangesNothing` | src/storage/query.rs:541-553 | a NULL revision changes nothing |
| `EntityRegister.AcceptedUpsertStoresEntity` | src/storage/query.rs:480-555 | an accepted upsert stores the entity itself, a refused one keeps the row, and no other row changes |
| `EntityRegister.LastWriterWins` | src/storage/query.rs:140-159 | any upserts of one key with equal immutable columns and distinct revisions end in the row whose revision is greatest in the dialect's order |
| `EntityRegister.OrderDoesNotMatter` | src/storage/query.rs:140-159 | two orders of the same upserts end in the same row, in either dialect |
| `EntityRegister.AppendOnlyRowsStay` | src/storage/query.rs:442-607 | no sequence of generic operations changes or removes a row of an append-only entity, or anything of a read-only one |
| `EntityRegister.Repository.EvaluateGuard` | src/storage/query.rs:518-553 | the guard built column by column is the guard of the statement |
| `EntityRegister.Repository.Put` | src/storage/query.rs:140-159 | one upsert on the table |
| `EntityRegister.Repository.Replace` | src/storage/query.rs:115-139 | one guarded update on the table |
| `EntityRegister.Repository.Add` | src/storage/query.rs:215-257 | registration inserts, replays an equal row and refuses a different one |
| `EntityRegister.Repository.Remove` | src/storage/query.rs:160-167 | deletion by complete key |
| `LedgerTotals.ConfirmedTotals` | src/payment/api.rs:678-717 | totals exist exactly when flows fit, every reversal is in scope and none exceeds its direction; they are flow minus reversals |
| `LedgerTotals.TotalsIgnoreOrder` | src/payment/api.rs:678-717 | with unique ids neither success nor totals depend on entry order |
| `LedgerTotals.LedgerEntries` | src/payment/api.rs:368-394 | paging over a fixed list terminates with the list filtered once |
| `LedgerTotals.ReservedOutbound` | src/payment/api.rs:396-425 | paging over a fixed list sums the reserved rows, failing exactly when the sum does not fit |
| `BalanceSweep.WalletBalanceSynchronizer.Sync` | src/payment/balance.rs:112-132 | one call scans one page, starting over past the end, and moves the offset |
| `BalanceSweep.FullSweep` | src/payment/balance.rs:112-132 | from the start, as many calls as pages scan every wallet exactly once, in order |
| `BalanceSweep.StaleSweep` | src/payment/balance.rs:112-132 | from any stale offset every wallet is scanned within twice as many calls |
| `BalanceSweep.CallsIsCeiling` | src/payment/balance.rs:86-93 | the number of calls is the ceiling of wallets by batch |
| `BalanceSweep.ParseSaturates` | src/payment/balance.rs:455-467 | an amount is parsed exactly for 0x and hexadecimal digits, as their value or the largest amount |

## Left out

- HTTP, gRPC, MQTT and console handlers, telemetry, metrics, configuration loading, migrations: no invariant of their own.
- Cryptography and chain libraries: digests are functions of their preimage, tokens open to the claims they were sealed with, receipts are parameters.
- The inbound settlement coordinator and its receipt sources: only what the store lets them write about inbound intents.
- The outbox: its rows are written in the same transactions and never read by the modelled code; a refusal by its unique key is one of the allowed failures.
- Changes to policies, wallets and keys during a run: the ceilings are against the catalog of the run.
- Ledger entries posted outside settlement (deposits, transfers, fees, reversals by operators): the run contains settlement postings and inbound entries only.
- What the signer checks inside its balance, key and credential tests: their two answers are inputs of a signing.
- Decimals that are not whole numbers: PostgreSQL holds 1.0 and 1.00 equal, SQLite's text does not.
- Text revisions under a PostgreSQL collation other than byte order.
- Canonical forms of addresses, recipients and transaction identifiers: inputs are already canonical, and whitespace trimming of references is not modelled.
- Colon-joined material of the reconciler's stable identifiers: represented by its components, so identifiers that contain colons are not told apart as the code would.
- `ApprovalWorkflow::replay_decision` and `PaymentApi::decide_approval`: the first only reads, the second is a decision step followed by a consumption step.
- The text form of script numbers at or above 10^14 is their value in plain digits, not the scientific notation the scripts print.
- Redis connection retries and cluster routing.
- Unique constraints of a generic entity other than its key.
- Wallet selection's network test of a wallet: part of the snapshot that is a parameter.
