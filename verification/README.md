# A verified model of the authentication-factor lifecycle

This project models how the identity service enrols, checks, migrates, resets and removes TOTP factors
and passkeys, and proves what holds of it over every run. Factor rows live in PostgreSQL, one-time
values and counters in Redis; a request takes many steps on both, and any number of other requests,
users and administrators act between any two of them.

**The shared state.** `OneTimeStore` has login tickets, session enrolments and discoverable
challenges; `ReplayClaims` the claimed TOTP time steps; `AttemptLimiter` failure counters and
reservations; `FactorDatabase` accounts, factor rows, passkey policy and issuer, one committed
transaction at a time (`Transactions` has the same transactions statement by statement). `World` puts
them together: an `Action` is one Redis command or script, or one transaction; `MayAct` is what a
request must be entitled to; `Run` executes any interleaving. `Inv` holds in every reachable state,
and `Runs` has the theorems about whole runs.

**The requests.** `AuthFactorService.Service` is the shared object. Each of its methods does one
atomic step and then lets the others run (`Yield`), by any sequence of steps that are not the caller's
own; storage operations may fail whenever the program can see them fail. The use cases are methods
over it: `LoginTickets`, `TotpEnrollment`, `TotpService`, `PasskeyService`, `DiscoverablePasskey`,
`SessionEnrolment`, `Recovery`, with `Persistence` and `PasskeyRepository` beneath them. `Stands(me,
w, st)` says where a request stands: what it has taken, which limiter places it may still own, and
does own before `until`, whether it reported a failure, and what it completed on. A use case that ends
at `IDLE` (with `charged` and `done` filled in) holds nothing and has no place pending.

**The run as it happened.** The service keeps the steps executed so far (`here`), and a `Moment` is a
prefix of them, so `Leads(a, b)` says that `b` is a later moment of the same run; every theorem of
`Runs` applies between the two. The ghost results `seen`, `read` and `at` are moments of the call.
`Sometime(a, b, fact)` says that a step was done or something was found at a moment between the two:
the ticket was stored under its key, the setup was gone, the failures were cleared. `Charges(a, b,
lease, limits, until)` says that a step between the two was this request's record of its attempt, and
changed no other counter; that at this step, unless `until` had passed, it still owned a place in
every dimension; and that each became a failure unless that counter's failures and places together
were over `limits` already. In the use cases `until` is a lease, 15 minutes, after the start of the call. With limits that are the same
everywhere the second condition falls away (`Moments.EveryCounterRises`).

**The other components.** `SecretEnvelope` is the encrypted seed with its key ring, `TotpCode` the
constant-time code check, `LeaseRecord` and `DirectoryLease` the directory lease on key storage,
`WorkerHealth` the readiness of the background workers, `Redaction` the redaction of audit metadata.

Fields called history in a comment (`minted`, `held`, `spent`, `completed`, `starts`, `charged`,
`log`, `published`, `stamp`, `seed`, `creator`, `author`, and the identity and `unbacked` of a
`Challenge`) exist in no store; they record what happened so that it can be talked about.
`Config.bootstrap` is the WebAuthn identity the processes are configured with while no issuer has been
persisted.

## Where the code does not meet its own description

Each of these is proved, with a concrete case or an exact condition.

- **Accepting a code of a factor that is gone.** `update_totp_factor_if_current` says that its
  remaining race only errs towards `Missing` (src/auth_factors/repository.rs:161-163). It does not: a
  reset followed by a new enrolment makes the swap miss while a row exists, so `verify_totp` answers
  `Accepted` for a seed that no factor has any more (`TotpService.SupersededMayHideReset`). Over every
  run, the row found later is the one that was read exactly when no enrolment of the user has
  committed in between, and it is there unchanged as long as reading the account's epoch again still
  gives the epoch at the first reading (`Runs.SameEnrolmentIffNoneCommitted`). `VerifyTotp` promises
  this, as `StillEnrolled`, of every `Accepted`. The ticket login does not have the gap, because the
  epoch lookup inside the take comes last (`VerifyTotpLogin`).
- **Values can outlive their expiry by a write delay.** Lifetimes are computed from one clock reading
  and written later. An issued value stays within its expiry exactly when there is no delay at all
  (`OneTimeStore.IssueStaysInLifetimeIff`), a restored one exactly when the delay is no longer than
  the fraction of a second that was rounded off (`RestoreStaysInLifetimeIff`, with a late write in
  `RestoreMayOutliveExpiry`); delays of repeated restores do not add up (`Runs.LifetimeIsBounded`).
- **One-time codes need claims within 30 s of the check.** A bound on the delay between check and
  claim excludes a second grant exactly when it is at most 30 s (`ReplayClaims.DelayBoundIff`, from
  `StepGrantedOnce` and `SafeDelayIsTight`). Nothing in the use cases enforces it, and the clock may
  run on between their check and their claim.
- **Issuer generation 1 is ambiguous.** "No issuer row" and "the first issuer row" both match
  generation 1, so a challenge made before the first write can be enrolled after it, under another
  identity (`FactorDatabase.FirstGenerationIsAmbiguous`). It takes a process that presents generation
  1 without a row, as `AppState::new` and `new_with_pool` set it up (src/state.rs:161-163, 236-252).
  `main` uses `new_with_persisted_issuer` (src/main.rs:130), where a missing snapshot gives generation
  0 (src/auth_factors/passkey.rs:36), and that never enrols (`NoSnapshotNeverEnrols`). Over every run,
  a passkey has the identity of the persisted issuer exactly when there was an issuer row at the
  capture of its challenge or the first row ever written has the identity of the challenge
  (`Runs.PasskeyBoundIff`; at the insert, `InsertBindsIdentityIff`). The first row may also be written
  from the command line or by the import at startup, neither of which looks at passkeys
  (src/settings/issuer.rs:125-165): those that are there stay bound exactly when it has the configured
  identity (`ConfiguringSparesPasskeysIff`; `ConfiguringUnbindsPasskeys` has another one).
- **Reclaiming a lease is not atomic.** The second observation and the removal are separate
  file-system calls; two reclaimers of one released lease can leave two live leases
  (`DirectoryLease.SeparateRemovalBreaksExclusion`). A separate removal is safe exactly when nobody is
  in possession at that moment (`SeparateRemovalIsSafeIff`).
- **A late step can hit the successor's lease.** A creator that stalls for a minute before it opens
  the owner file truncates its successor's (`DirectoryLease.StalledCreatorOverwrites`). If its write
  fails instead, however late, it unlinks its successor's owner file, whose heartbeat then stops, and
  removes its successor's directory: two live leases (`FailedCreatorEvictsSuccessor`). A step of a
  lease that has lost the directory spares the directory, the owner file, the record and the heartbeat
  of the lease that has it exactly when it is not one of these three steps by path that finds
  something to act on (`LateStepSparesIff`, over runs `LateLeaseSparesSuccessorIff`); heartbeats and
  releases always spare them. Opening the file keeps every file with its author exactly when the
  directory is gone or still the creator's own (`OpenKeepsHandlesIff`).
- **Legacy ciphertexts.** A legacy ciphertext is readable exactly when its random nonce does not start
  with the two magic bytes (`SecretEnvelope.LegacyReadableUnlessNonceSpellsMagic`).
- **Recovery with several passkeys.** An account that only has passkeys may enrol TOTP while passkeys
  are switched off, and the recovery insert accepts every such account. The check in front of it
  counts one list entry per passkey, so while passkeys are switched off it lets through exactly the
  accounts with a single one (`TotpEnrollment.RecoveryIsOfferedIff`); one with two is left with
  nothing (`TwoPasskeysAreNotOfferedRecovery`).
- **A start in the middle of a shutdown.** A worker that is started between the shutdown's load and
  its store keeps running exactly when it had failed or stopped by the load
  (`WorkerHealth.StartDuringWalk`, with a run in `StartOutlivesShutdown`).

## Model

| member | source | states |
|---|---|---|
| OneTimeStore.Issue | src/auth_factors/store.rs:337-378 | A freshly minted value is stored for five minutes unless its key is occupied, and then the stored value is left alone |
| OneTimeStore.IssueConserves | src/auth_factors/store.rs:359-378 | Issuing keeps every id in at most one place |
| OneTimeStore.Take | src/auth_factors/store.rs:17-36 | Compare and delete in one step: the caller holds the value exactly when it was stored and is the caller's; otherwise nothing changes; ids stay in at most one place |
| OneTimeStore.Restore | src/auth_factors/store.rs:198-213 | With a whole second left, and for a session enrolment or challenge a free key, the value is stored again for the whole seconds left, a ticket over whatever is there; otherwise it is spent. In either case the caller no longer holds it and no id is in two places |
| OneTimeStore.Complete | src/auth_factors/persistence.rs:34-38 | A completion spends the id for good and is attributed to the holder, never to anybody else afterwards |
| OneTimeStore.Forget | src/auth_factors/store.rs:239-251 | A consumed value that is not restored can never come back |
| OneTimeStore.Discard | src/auth_factors/store.rs:380-384 | Deleting a key spends whatever was under it and nothing else |
| OneTimeStore.Expire | src/auth_factors/store.rs:150-165 | A key stays, with its value and deadline, if and only if its deadline is still to come; what goes is spent for good |
| OneTimeStore.IssueStaysInLifetimeIff | src/auth_factors/store.rs:337-378 | An issued value stays within its expiry if and only if it is written at the instant of the clock reading |
| OneTimeStore.RestoreStaysInLifetimeIff | src/auth_factors/store.rs:198-213 | A restored value stays within its original lifetime if and only if the write follows the clock reading by no more than the rounded-off fraction of a second |
| OneTimeStore.RestoreMayOutliveExpiry | src/auth_factors/store.rs:198-213 | A restore written a second after its clock reading is stored beyond the expiry |
| OneTimeStore.RestoreStaysBounded | src/auth_factors/authenticated_enrollment.rs:436-449 | A restore under a bounded write delay keeps every deadline within that one delay of the original expiry, however often the value was restored before |
| ReplayClaims.ClaimKeepsValid | src/auth_factors/store.rs:386-398 | Set-if-absent with a two-minute expiry keeps any two grants of one (user, step) a full claim lifetime apart, unless a clear lies between |
| ReplayClaims.ClearKeepsValid | src/auth_factors/store.rs:408-434 | The scan-and-delete of a reset keeps that spacing for everybody else |
| ReplayClaims.StepGrantedOnce | src/auth_factors/totp_service.rs:239-262 | Two grants of one step without a clear between them imply that the second claim came more than 30 s after its verification (section 5.2 of RFC 6238) |
| ReplayClaims.SafeDelayIsTight | src/auth_factors/store.rs:14-16 | At 30 s and one millisecond the same code is granted twice |
| ReplayClaims.DelayBoundIff | src/auth_factors/store.rs:14-16 | A delay bound between check and claim rules out a second grant of a step, over every history of claims, if and only if it is at most 30 s |
| TotpCode.Accepted | src/auth_factors/totp.rs:89-127 | The least step within one of the current one whose code was presented, if the code is well formed and there is one |
| TotpCode.VerifyAtTimestep | src/auth_factors/totp.rs:89-127 | The masked loop without early exit returns exactly that step, and never leaves u64 or i64 |
| TotpCode.VerifyNow | src/auth_factors/totp.rs:133-140 | The same for every instant of an i64 clock; instants before the epoch are refused |
| SecretEnvelope.DecryptWithRing | src/auth_factors/crypto.rs:165-206 | The candidate loop opens what the header names, or tries every key for a legacy ciphertext, with every error case of the specification |
| SecretEnvelope.ClassifierAgrees | src/auth_factors/crypto.rs:64-83 | On every byte string and ring: unavailable if and only if decryption stops at malformed or unknown key; current, rotatable and legacy predict the re-encryption flag |
| SecretEnvelope.Metadata | src/auth_factors/crypto.rs:236-255 | The header parser only returns offsets that leave room for nonce and tag |
| SecretEnvelope.SealedHeader | src/auth_factors/crypto.rs:117-150 | What the printer builds, the parser reads back: key id, nonce position and sealed body |
| SecretEnvelope.RotationPreservesSecret | src/auth_factors/crypto.rs:117-206 | Sealing under one ring and opening under any ring that still maps that id to that key gives the same seed, to be re-encrypted exactly when the id is not active |
| SecretEnvelope.RetiredKeyIsNeverRetried | src/auth_factors/crypto.rs:165-186 | A key id that left the ring is reported as unknown whatever other keys there are |
| SecretEnvelope.LegacyReadableUnlessNonceSpellsMagic | src/auth_factors/crypto.rs:172-206 | A legacy ciphertext under a ring key is readable if and only if its nonce does not spell the magic bytes |
| AttemptLimiter.ReservePlaces | src/auth_limiter/redis_scripts.rs:95-120 | A granted reservation owns exactly one place in each of its dimensions, a denied one none, and other tokens gain nothing |
| AttemptLimiter.FailureDimensions | src/auth_factors/attempt_limiter.rs:27-56 | The account, the ticket and the address are counted, each once; refused exactly when the address is missing and the policy rejects that |
| AttemptLimiter.ReserveKeepsCapacity | src/auth_limiter/redis_scripts.rs:104-119 | However many requests reserve at once, failures and pending places of a dimension never exceed its limit |
| AttemptLimiter.CommitSettlesEveryLease | src/auth_limiter/redis.rs:283-320 | Committing a reservation of any number of leases leaves none of its tokens pending and adds nothing to any other token |
| AttemptLimiter.ReleaseSettlesEveryLease | src/auth_limiter/redis.rs:322-337 | Releasing does the same and leaves every failure counter as it was |
| AttemptLimiter.MergedCommitsInTurn | src/auth_limiter/domain.rs:183-226 | Committing a merged reservation is committing its parts in turn, each token against its own dimensions |
| AttemptLimiter.FailuresRiseExactly | src/auth_limiter/redis_scripts.rs:126-152 | Under any limits, also ones lowered since the reservation: committing turns each place the token still owns into one failure of that dimension, unless the limit is already used up, and changes no other dimension |
| AttemptLimiter.OwnedPlaceIsCounted | src/auth_limiter/redis_scripts.rs:126-152 | Within the capacity of the limits in force, the failure of an owned place is never swallowed |
| AttemptLimiter.ReserveHoldsPlaces | src/auth_limiter/redis_scripts.rs:95-120 | A granted reservation has its place in every dimension until a lease, 15 minutes, from then on |
| AttemptLimiter.HeldPlacesAreRecorded | src/auth_limiter/redis_scripts.rs:126-152 | While the lease lasts, recording finds every place, and each becomes a failure unless the counter is over the limit in force |
| AttemptLimiter.LimiterStore.RecordLeases | src/auth_limiter/redis.rs:283-320 | One script per lease in order; when the storage gives out, exactly the leases before that are recorded |
| AttemptLimiter.LimiterStore.Release | src/auth_limiter/redis.rs:322-337 | One script per lease in order; when the storage gives out, exactly the leases before that are released |
| AttemptLimiter.LimiterStore.CommitReservedFailure | src/auth_limiter/domain.rs:261-296 | Recorded, broken off or answered with "not recorded", and the release broken off as well: no token of the reservation stays pending if either was completed, nobody else is touched, no load rises, and what is left pending stays with the reservation's own leases |
| FactorDatabase.ApplyKeepsValid | src/auth_factors/repository.rs:354-369 | Every transaction keeps rows on existing users, stamped no later than their epoch, with unique credentials and fresh row ids |
| FactorDatabase.RowsNeedCurrentStamp | src/auth_factors/repository_passkey.rs:161-226 | A row comes into being only for an active account at the stamped epoch, and a passkey only under an enabled policy and the captured issuer generation |
| FactorDatabase.RemovalIsAtomic | src/auth_factors/recovery.rs:144-190 | A reset or self-removal advances the epoch and deletes exactly that account's rows of that factor, or changes nothing |
| FactorDatabase.ApplyKeepsFence | src/auth_factors/repository.rs:58-122 | No transaction brings back a row stamped before the fence |
| FactorDatabase.SwapIsAtomicMerge | src/auth_factors/repository_passkey.rs:233-268 | A swap that hits writes the merge of the current credential: version plus one, counter never smaller, no other row (section 6.1.1 of WebAuthn Level 2) |
| FactorDatabase.ApplyAdvances | src/auth_factors/repository.rs:139-172 | Every transaction moves epochs, TOTP enrolments, passkey rows and issuer history forward only |
| FactorDatabase.ApplyKeepsIdentityTraced | src/admin/issuer_passkey_compat.rs:16-64 | Every passkey's identity stays traceable to an issuer row or to the configured identity, whenever its challenge was captured |
| FactorDatabase.IssuerWriteSparesPasskeys | src/admin/issuer_settings_handlers.rs:146-196 | While a passkey exists, an issuer write that commits keeps the deployment's identity, persisted or configured, and outdates every challenge made under the replaced row |
| FactorDatabase.InsertBindsIdentityIff | src/auth_factors/repository.rs:6-10 | An insert that passes every check has the deployment's identity if and only if there is no issuer row, its challenge was made under one, or the first row written has the identity of the challenge |
| FactorDatabase.FirstGenerationIsAmbiguous | src/auth_factors/repository.rs:6-10 | A challenge of a process configured with one identity is enrolled after a first issuer row with another one |
| FactorDatabase.ConfiguringSparesPasskeysIff | src/settings/issuer.rs:125-165 | The first issuer row, written without a look at passkeys, leaves those that are there bound if and only if it has the configured identity |
| FactorDatabase.ConfiguringUnbindsPasskeys | src/settings/issuer.rs:125-165 | Such a row with another identity, while a passkey of the configured one is there |
| FactorDatabase.PasskeyBoundIff | src/auth_factors/repository.rs:6-10 | In a traced database, a passkey has the identity of the issuer row exactly when its challenge was made under a row or the first row has its identity |
| FactorDatabase.NoSnapshotNeverEnrols | src/auth_factors/passkey.rs:31-39 | Generation 0, which a process without an issuer snapshot presents, never enrols a passkey |
| FactorDatabase.PasskeyOnlyIff | src/auth_factors/service.rs:291-298 | The account scan finds one if and only if an active account relies on its passkeys, having no secret the process's ring decrypts |
| Transactions.Transaction.RemoveOwnFactor | src/auth_factors/recovery.rs:144-178 | Epoch first, rows second, rollback when there was no row: the committed state is that of the atomic removal |
| Transactions.Transaction.ResetFactor | src/auth_factors/recovery.rs:232-349 | The same for the administrator's reset, unknown accounts included |
| Transactions.Transaction.InsertTotp | src/auth_factors/repository.rs:58-122 | The statements of the three TOTP inserts amount to the atomic insert |
| Transactions.Transaction.InsertPasskey | src/auth_factors/repository_authenticated.rs:91-152 | Generation, policy, epoch, emptiness and credential are checked in this order and amount to the atomic insert |
| Transactions.Transaction.SetPasskeyPolicy | src/auth_factors/service.rs:272-305 | Disabling is refused if and only if some active account has a passkey and no TOTP secret that the process's ring decrypts; once disabled, every active account with a passkey has a secret classified as available |
| Transactions.Transaction.UpdateIssuer | src/admin/issuer_settings_handlers.rs:158-196 | Guard, then generation compare-and-swap, amount to the atomic issuer write |
| World.ReservePending | src/auth_factors/store.rs:342-378 | A pending setup or challenge that is present is never overwritten; a new one is recorded with its winner |
| World.FreshIsSound | src/auth_factors/store.rs:359-378 | The invariant holds before anything was issued or enrolled |
| World.WriteKeepsInv | src/auth_factors/totp_service.rs:275-298 | A factor write by a request entitled to it keeps every invariant: rows still open to their seeds, captured row ids still mean the same row |
| World.RunKeepsInv | src/auth_factors/persistence.rs:16-40 | Every run of any requests in any order keeps the whole invariant: conservation, sound pending values, spaced claims, capacity, failures only of requests that reported one, traceable identities, faithful secrets |
| World.LimiterStepKeepsCharged | src/auth_factors/attempt_limiter.rs:68-98 | A failure on record is always one of a request that reported a failed attempt |
| World.DisablingLeavesNobodyLockedOut | src/auth_factors/service.rs:291-304 | After passkeys are switched off, every active account with a passkey has a TOTP secret that the process opens to the seed it was enrolled with |
| Runs.RunIsRely | src/auth_factors/persistence.rs:7-15 | However others interleave, what a request holds and has done stays its own, its places stay until their lease ends, and the database only moves forward |
| Runs.UnsettledPlacesLapse | src/auth_limiter/redis_scripts.rs:95-120 | Over every run: a reservation that is never settled stops counting in any dimension once its 15 minutes are over |
| Moments.EveryCounterRises | src/auth_factors/attempt_limiter.rs:68-75 | With the limits every process uses, an attempt recorded before its lease ends is a failure in every one of its dimensions |
| Runs.CompletionIsFinal | src/auth_factors/persistence.rs:16-40 | After a completion the id never is in Redis or in anybody's hands again, and stays with the request that completed |
| Runs.PasskeyNeverGoesBack | src/auth_factors/repository_passkey.rs:270-313 | Over every run a surviving row's counter and version never decrease, an unchanged version means an unwritten row, and row ids are not reused |
| Runs.StaleForever | src/auth_factors/store.rs:224-257 | Once the epoch has passed a stamp, no later find or take returns such a ticket, restored or not, and no enrolment with that stamp commits |
| Runs.ResetFencesForEver | src/auth_factors/recovery.rs:211-288 | After a committed reset every row of the factor, in every later state, was enrolled under the advanced epoch, and there is none until such an enrolment commits |
| Runs.LifetimeIsBounded | src/auth_factors/passkey_discoverable.rs:258-270 | No number of restores keeps a ticket, enrolment or challenge beyond its expiry and one write delay |
| Runs.CodesAreAcceptedOnce | src/auth_factors/totp_service.rs:239-262 | In every run with prompt claims, two grants of one (user, step) have a replay clear between them |
| Runs.PendingIsNeverOverwritten | src/auth_factors/totp_enrollment.rs:61-82 | No step changes a pending value or its deadline while it is present, or who won it |
| Runs.PasskeyAppearsGuarded | src/auth_factors/repository_passkey.rs:161-226 | A passkey row appears only by the request holding the ticket or enrolment, under an enabled policy, a matching generation and the stamped epoch; it has the deployment's identity exactly when there is no issuer row, its challenge was made under one, or the first row has the challenge's identity |
| Runs.PasskeyBoundIff | src/auth_factors/repository.rs:6-10 | In every run: a passkey there under an issuer row has its identity if and only if the challenge was captured under a row or the first row ever written has the identity of the challenge |
| Runs.SameEnrolmentIffNoneCommitted | src/auth_factors/repository.rs:139-172 | In every run: a TOTP row found later is the one that was read if and only if no enrolment of the user committed in between; while the epoch reads the same, it is there and is that one |
| AuthFactorService.OneCompletionPerId | src/auth_factors/persistence.rs:16-40 | At most one request ever reports success on a ticket, challenge or enrolment |
| AuthFactorService.OneRequestPerStep | src/auth_factors/totp_service.rs:239-262 | A (user, step) pair serves one request, across inline login, ticket login, enrolment and session enrolment |
| AuthFactorService.RelyKeepsStanding | src/auth_factors/attempt_limiter.rs:57-80 | Nothing the others do moves a request from where it stands |
| AuthFactorService.SealedReads | src/auth_factors/crypto.rs:117-206 | What one process seals, every process with a consistent ring reads back or cannot read at all |
| AuthFactorService.Service.FindForHolder | src/auth_factors/store.rs:167-182 | A returned ticket was stored under that id when the request looked, was the holder's, and its epoch was current at the later lookup |
| AuthFactorService.Service.TakeForHolder | src/auth_factors/store.rs:184-257 | Some: the caller holds the ticket and its epoch was current after it left Redis; none: the ticket is not there to take any more; a failed lookup: the ticket was put back |
| AuthFactorService.Service.Restore | src/auth_factors/store.rs:198-213 | Ok: the value is under its key again, unless less than a second of its lifetime was left or the key has been reserved anew |
| AuthFactorService.Service.InvalidateTicket | src/auth_factors/totp_service.rs:264-272 | Ok: at a moment of the call the ticket was gone for its holder, and at a moment the pending setup was |
| AuthFactorService.Service.EnsureDimensionsAllowed | src/auth_factors/attempt_limiter.rs:57-66 | A reservation confines the request's places to its own leases and holds all of them for 15 minutes; a denial leaves none |
| AuthFactorService.Service.RecordFailure | src/auth_factors/attempt_limiter.rs:68-75 | The attempt is recorded by a step of this request: while the lease lasts it still owned a place in every dimension, each becomes a failure of that dimension unless its counter is over the limit, and no other counter changes |
| AuthFactorService.Service.ClaimTotpTimestep | src/auth_factors/totp_service.rs:239-262 | The step is granted or was claimed already, and the reservation is given back on every path |
| PasskeyRepository.UpdatePasskey | src/auth_factors/repository_passkey.rs:233-268 | Updated is the atomic write; conflict means the row is there but the swap missed; missing means the row is gone |
| PasskeyRepository.PersistPasskeyAuthentication | src/auth_factors/repository_passkey.rs:270-313 | Applied: one atomic merge with counter at least the result's; already current: nothing to write; missing: the row is gone or not that credential's; exhausted: others advanced the version by at least eight since the first read |
| Persistence.Persist | src/auth_factors/totp_enrollment.rs:222-246 | The durable write commits exactly what the job says at the ticket's epoch, or says why not |
| Persistence.ConsumeThenPersist | src/auth_factors/persistence.rs:16-40 | True: taken, written while held, completed by this request; false: there was nothing to take; any error of the write or of the epoch lookup: the ticket was put back for a retry, and the reason is real |
| TotpService.ReencryptTotpSecretIfNeeded | src/auth_factors/totp_service.rs:274-298 | After a hit the stored secret is under the active key and opens to the same seed; a miss means the read ciphertext was replaced, missing only when the row was gone |
| TotpService.SupersededIsSameEnrolmentIff | src/auth_factors/repository.rs:139-172 | A surviving row is the verified enrolment if and only if no later epoch has enrolled since the read |
| TotpService.SupersededMayHideReset | src/auth_factors/repository.rs:160-172 | Reset and re-enrolment between read and swap leave a row with another seed, and the swap reports it as superseded |
| TotpService.EnrolmentRemains | src/auth_factors/repository.rs:139-172 | What was read stays what is enrolled, on whatever run leads on from there, as far as the epoch or the enrolments in between tell |
| TotpService.CheckStoredFactor | src/auth_factors/totp_service.rs:56-94 | The code is judged against the seed the factor was enrolled with, and the step claimed at a later moment; a retired key or a missing factor is reported as such and gives the reservation back |
| TotpService.RejectCode | src/auth_factors/totp_service.rs:159-168 | A wrong code records the attempt, in all of its dimensions while the lease lasts; at the ticket's own limit both the ticket and its pending setup are gone |
| TotpService.VerifyTotp | src/auth_factors/totp_service.rs:39-115 | Accepted: right for the stored seed, claimed by this request; while the epoch reads the same, the factor is there as verified, and a later row is that factor exactly when no enrolment committed in between; the attempt is recorded, in all its dimensions while its lease lasts, exactly for a wrong code; a right code is rejected only for a lost claim or a missing row; no place stays pending |
| TotpService.VerifyTotpLogin | src/auth_factors/totp_service.rs:117-214 | Completed: the answer is user and epoch of the holder's ticket as found in the store, claimed and taken by this request, and at the take the account still had that epoch and the very seed that was checked; the attempt is recorded, in all its dimensions while its lease lasts, exactly for a wrong code |
| TotpEnrollment.StartTotpEnrollment | src/auth_factors/totp_enrollment.rs:44-83 | A returned seed belongs to the single winning start on the holder's ticket, found in the store, and its ciphertext is recorded under this request and the ticket's user |
| TotpEnrollment.RecoveryIsOfferedIff | src/auth_factors/service.rs:407-416 | A passkey-only account, which the recovery insert would accept, is offered recovery if and only if passkeys are switched off and it has exactly one |
| TotpEnrollment.TwoPasskeysAreNotOfferedRecovery | src/auth_factors/service.rs:407-416 | An account with two passkeys while they are switched off is accepted by the insert and not offered recovery |
| TotpEnrollment.StoreEnrollment | src/auth_factors/totp_enrollment.rs:215-266 | Completed exactly when the row was committed, with the ticket's failures and the setup cleared; a conflict that cannot go away ends ticket and setup; a database error leaves the ticket stored |
| TotpEnrollment.ConfirmTotpEnrollment | src/auth_factors/totp_enrollment.rs:117-267 | Completed at most once per ticket: the holder's ticket and the pending setup were found in the stores, the code spent by this request before the insert, the account active at the ticket's epoch, and the stored secret is the one a winning start on this ticket and user returned and the code was checked against; the attempt is recorded, in all its dimensions while its lease lasts, exactly for a wrong code |
| TotpEnrollment.OpenSetup | src/auth_factors/totp_enrollment.rs:117-158 | The holder's ticket and the setup stored for it belong to one user, and its ciphertext to a winning start; a setup of another user ends the ticket |
| TotpEnrollment.ConfirmReserved | src/auth_factors/totp_enrollment.rs:158-267 | The same from the reservation on, for the ticket and ciphertext that were found |
| PasskeyService.RowIdFor | src/auth_factors/passkey_core.rs:64-72 | The first row captured for that credential, or none if the challenge did not name it |
| PasskeyService.RecordPasskeyFailure | src/auth_factors/passkey.rs:428-448 | A refused credential records the attempt, in all of its dimensions while the lease lasts, and ends ticket and challenge at the ticket's limit |
| PasskeyService.FindCeremony | src/auth_factors/passkey.rs:119-142 | A ceremony that goes on has the holder's ticket and the challenge that was stored under the slot, of one user and of the current issuer generation |
| PasskeyService.OpenCeremony | src/auth_factors/passkey.rs:117-147 | Ready: ticket and challenge found, the generation current, one place reserved in each of the dimensions of the attempt |
| PasskeyService.StoreRegistration | src/auth_factors/passkey.rs:176-229 | The failures of the ticket are cleared, then the ticket is taken and the row inserted; a conflict ends ticket and challenge, a database error puts the ticket back |
| PasskeyService.StoreAssertion | src/auth_factors/passkey.rs:362-410 | The same for an assertion that is written back |
| PasskeyService.FinishPasskeyRegistration | src/auth_factors/passkey.rs:110-230 | Completed: the attestation verified against the challenge stored for the holder's ticket, the ticket was taken by this request, and the credential was stored as the account's only factor at the ticket's epoch and the challenge's generation; the attempt is recorded, in all its dimensions while its lease lasts, exactly for a refused attestation |
| PasskeyService.FinishPasskeyAuthentication | src/auth_factors/passkey.rs:301-410 | Completed: the assertion verified against the challenge stored for the holder's ticket, the ticket was taken by this request at its epoch, and only the row captured with the challenge was merged; the attempt is recorded, in all its dimensions while its lease lasts, exactly for a refused assertion or an unnamed credential |
| DiscoverablePasskey.UnidentifiedFailure | src/auth_factors/passkey_discoverable.rs:234-256 | With nobody named the failure is recorded on the source address alone; without one the policy decides |
| DiscoverablePasskey.WriteBack | src/auth_factors/passkey_discoverable.rs:178-220 | The challenge is completed, spent or put back as the persist outcome demands, and the reservation is given back on every path |
| DiscoverablePasskey.FindCredential | src/auth_factors/passkey_discoverable.rs:125-137 | The account's own row with the credential of the response, or the certainty that it has none |
| DiscoverablePasskey.TakeAndWriteBack | src/auth_factors/passkey_discoverable.rs:158-220 | Completed exactly when the challenge was taken by this request and completed; then the account was active at the returned epoch, its failures were cleared and the row shows the result |
| DiscoverablePasskey.FinishIdentified | src/auth_factors/passkey_discoverable.rs:125-221 | The account's own row decides: no such credential or a refused assertion is charged on the attempt's counters, anything else is not |
| DiscoverablePasskey.FinishDiscoverable | src/auth_factors/passkey_discoverable.rs:83-221 | Completed at most once per challenge: the assertion verified against the stored challenge and the named account's own row as it was during the call, the account was active at the returned epoch, its failures were cleared, and the row shows the assertion; a failed attempt is charged only when the response names nobody, no credential of the account, or does not verify, always in the last two cases, and only on its own counters |
| SessionEnrolment.FindEnrolment | src/auth_factors/session_enrollment_types.rs:50-64 | A found enrolment was stored, belongs to that user, session, epoch and method, and has not expired |
| SessionEnrolment.TakeAndStore | src/auth_factors/authenticated_enrollment.rs:213-247 | Completed exactly when the row was committed from the enrolment this request held at that moment; only a storage error puts the enrolment back |
| SessionEnrolment.ConfirmSessionTotp | src/auth_factors/authenticated_enrollment.rs:152-248 | Completed: the enrolment found in the store is the one the session names, at an epoch the account had; the code was right for its seed, spent by this request before the take, and the row was stored from that enrolment |
| SessionEnrolment.FinishSessionPasskey | src/auth_factors/authenticated_enrollment.rs:304-391 | Completed: the enrolment found in the store is the one the session names; the credential attested against it was stored under the policy and generation of its challenge, at the session's epoch |
| LoginTickets.CreateLoginTicket | src/auth_factors/service.rs:337-365 | The ticket carries the epoch of the password check, which was current when it was issued |
| LoginTickets.CancelSessionEnrolment | src/auth_factors/authenticated_enrollment.rs:89-110 | A cancelled enrolment is spent |
| Recovery.ResetFactorOf | src/auth_factors/recovery.rs:232-288 | Removed: at the commit the factor is gone and fenced behind the next epoch, other accounts and factors are as they were; the account's failures are cleared afterwards unless that clean-up fails, which does not change the answer; otherwise nothing has changed |
| Recovery.ClearAccountFailures | src/auth_factors/service.rs:367-376 | Ok: the failures of the account's address were cleared; an unknown user: the account was gone |
| Recovery.CommitReset | src/auth_factors/recovery.rs:232-269 | The transaction as one step among others: gone and fenced, with everybody else untouched, or nothing changed |
| Recovery.ClearReplayClaims | src/auth_factors/store.rs:408-434 | Ok: whatever the user had claimed before the call is gone after it; the deletion spares the claims of everybody else; a failure has deleted nothing |
| Recovery.FromStates | src/auth_factors/recovery.rs:72-91 | Every state is counted once, the counts add up, and truncation is reported |
| LeaseRecord.ParsesValue | src/key_lock_directory.rs:168-169 | The digit loop computes the value of the string and fails exactly on a non-digit or overflow |
| LeaseRecord.PrintParse | src/key_lock_directory.rs:146-159 | Printing and parsing a number that fits gives it back |
| LeaseRecord.SplitJoin | src/key_lock_directory.rs:161-162 | Splitting joined fields without separators gives them back |
| LeaseRecord.DecodedIsEncodable | src/key_lock_directory.rs:161-184 | Whatever decodes, even from non-canonical text, can be written and read again |
| LeaseRecord.RoundTripIff | src/key_lock_directory.rs:128-184 | A record survives encoding and decoding if and only if host and nonce have no separator and the nonce is non-empty and does not end in a line end |
| DirectoryLease.AtMostOneLease | src/key_lock_directory.rs:75-116 | With the second look and the removal in one step and timely heartbeats, no run has two leases between `create_dir` and release marker |
| DirectoryLease.StepKeepsExclusive | src/key_lock_directory.rs:217-255 | Every single file-system call keeps the lease in possession and its owner file in step |
| DirectoryLease.OwnLeaseSurvivesRun | src/key_lock_directory.rs:344-398 | A recorded, unreleased lease keeps the directory and its record through every run in which only its own process reclaims, whatever the others do and however long its heartbeats stay away |
| DirectoryLease.OpenKeepsHandlesIff | src/key_lock_directory.rs:80-88 | A creator that opens the owner file by path keeps every file with its author if and only if the directory is gone or its own |
| DirectoryLease.LateStepSparesIff | src/key_lock_directory.rs:80-91 | A step of a lease that has lost the directory spares directory, owner file, record and heartbeat of the lease that has it if and only if it is not a creator opening the owner file, unlinking it, or removing the empty directory |
| DirectoryLease.LateLeaseSparesSuccessorIff | src/key_lock_directory.rs:217-255 | The same after any interleaving in which no creator opened another's owner file; heartbeats and releases always spare the successor |
| DirectoryLease.SeparateRemovalIsSafeIff | src/key_lock_directory.rs:349-356 | Removal by path as a step of its own keeps exclusion if and only if nobody is in possession at that moment |
| DirectoryLease.SeparateRemovalBreaksExclusion | src/key_lock_directory.rs:344-357 | Two reclaimers of one released lease can leave two live leases |
| DirectoryLease.StalledCreatorOverwrites | src/key_lock_directory.rs:80-88 | A creator stalled for a minute truncates its successor's owner file |
| DirectoryLease.FailedCreatorEvictsSuccessor | src/key_lock_directory.rs:82-91 | A creator stalled for a minute whose write then fails stops its successor's heartbeat and removes its directory, and two leases are live |
| WorkerHealth.Last | src/workers.rs:324-344 | The last report of a kind for a worker, or none |
| WorkerHealth.Timestamp | src/workers.rs:350-356 | A time stamp is never the sentinel for "never" |
| WorkerHealth.PhaseReflects | src/workers.rs:231-292 | The phase field says running if and only if the last start was not followed by a finish or a shutdown |
| WorkerHealth.FailuresReflect | src/workers.rs:301-322 | The saturating counter is the number of failures since the last start or success |
| WorkerHealth.ReadyReflectsHistory | src/workers.rs:324-344 | Ready if and only if the run is on, the last heartbeat and the last success since the start are within policy, fewer than three failures followed, and none was immediate |
| WorkerHealth.ShutdownIsFinal | src/workers.rs:246-256 | After a shutdown without a later start no worker is ready at any time |
| WorkerHealth.NeverRunningAfterShutdown | src/workers.rs:246-292 | The same with every load and store of shutdown and finish, flag and phase apart, interleaved one by one |
| WorkerHealth.StartDuringWalk | src/workers.rs:246-256 | Whatever else is loaded and stored around the shutdown's load and store of a worker, short of a finish: it runs on if and only if it had failed or stopped by the load and was started before the store |
| WorkerHealth.StartOutlivesShutdown | src/workers.rs:231-256 | A failed worker started during the walk is running when the walk is over |
| WorkerHealth.WorkerHealth.StartWorker | src/workers.rs:231-244 | The fields remain the fold of the history with the start appended |
| WorkerHealth.WorkerHealth.BeginShuttingDown | src/workers.rs:246-256 | The loop over all workers amounts to one shutdown event for each |
| WorkerHealth.WorkerHealth.FinishWorker | src/workers.rs:279-292 | Failed stays failed; otherwise stopped only in an orderly shutdown |
| WorkerHealth.WorkerHealth.RecordHeartbeat | src/workers.rs:294-299 | The fields remain the fold of the history with the heartbeat appended |
| WorkerHealth.WorkerHealth.RecordSuccess | src/workers.rs:301-309 | The fields remain the fold of the history with the success appended |
| WorkerHealth.WorkerHealth.RecordFailure | src/workers.rs:311-322 | The fields remain the fold of the history with the failure appended |
| WorkerHealth.WorkerHealth.StatusAt | src/workers.rs:324-344 | Ready exactly when the history says so |
| WorkerHealth.WorkerHealth.IsReady | src/workers.rs:195-207 | The service is ready exactly when the supervisor has not failed and the history says so of every worker |
| Redaction.ContainsSensitiveAssignment | src/audit/redaction.rs:136-177 | The index loops find an assignment if and only if some key stretch spells a sensitive word with only white space before an equals sign |
| Redaction.TextIsSensitive | src/audit/redaction.rs:46-49 | A text is redacted if and only if one of the sensitive words is assigned in it |
| Redaction.RedactIsClean | src/audit/redaction.rs:31-52 | No sensitive key and no sensitive assignment is left at any depth |
| Redaction.RedactKeepsIff | src/audit/redaction.rs:31-52 | Redaction changes nothing if and only if the value was clean |
| Redaction.RedactingAgainChangesNothing | src/audit/redaction.rs:21-29 | Redacting at construction, record, insert and read equals redacting once |
| Redaction.RedactCommutesWithPaths | src/audit/redaction.rs:31-52 | Whatever is not under a sensitive key is found in its place, redacted; nothing is found under one and nothing new anywhere; array lengths are kept |
| Redaction.AllowListedValuesAreKept | src/audit/redaction.rs:54-65 | A value under allow-listed keys is never removed |

## Left out

- Liveness: the contracts say what each answer means, not that a request succeeds; every storage operation may fail.
- HTTP handlers, routing, sessions after a completed login, settings responses and audit queries: plumbing around the modelled use cases.
- AES-GCM, HMAC and TOTP generation, UTF-8 validation and WebAuthn verification: parameters, used through stated laws only (`SecretEnvelope.Lawful`, `TotpCode.Generator`, `PasskeyService.Attested`, `PasskeyService.Asserted`).
- Ambiguous commits and Redis data loss: an operation that fails has had no effect.
- Limiter outages inside the use cases: there the limiter works; `AttemptLimiter.LimiterStore` treats a storage that breaks off half way, in the record and in the release after it, on its own, and the clean-up after a reset may fail.
- Configured issuers that differ between processes: all processes share one configured identity while there is no issuer row.
- An issuer row whose value does not parse: no identity is known for it, so it occurs only as the starting row of `FactorDatabase.Baseline`, not in the runs of `World`, which begin without a row.
- Collisions of random values: a start whose ciphertext, or an issue whose id, has been seen before fails as a storage error.
- Creation of accounts: users exist from the start of a run and may be deleted, which takes their rows along.
- The start of passkey ceremonies and session enrolments as methods of their own: they occur in runs as `Reserve` and `Issue` steps with the guards their writers have.
- Rate checks on challenge endpoints (`any_limited`): they read and change nothing.
- The unreserved `record_failures` and the ungated `insert_totp_factor` and `delete_totp_factor`: no modelled use case calls them.
- Tokens of the limiter are named after requests, since every use case reserves at most once; password login with two merged leases is covered in `AttemptLimiter` only.
- Restore: that the written deadline is within the original expiry holds only under the condition of `RestoreStaysInLifetimeIff`, so `OneTimeStore.Restore` does not state it.
- TakeForHolder: when the epoch lookup fails and Redis then refuses the restore as well, the ticket is lost; the contract promises a stored ticket only when the reported error is the lookup's.
- WriteBack: a refused restore is only logged there, so its contract does not say that an error leaves the challenge stored.
- ConfirmTotpEnrollment: an error after the row was committed (removing the setup failed) is reported through `done`, not through the result.
- AtMostOneLease: takes the reclaimer's second observation and its removal as one step and heartbeats as timely; without the first it is false.
- LateLeaseSparesSuccessorIff: of the interleaving before the late step it takes that no creator opened another's owner file, which `OpenKeepsHandlesIff` shows to be exactly what keeps files with their authors; unlinks and removals by path are among the steps of that interleaving.
- The loops of `acquire` and `heartbeat_loop`, their timeouts and thread handling: their file-system calls are the steps of `DirectoryLease`, in every order those loops allow and more.
- Encoding of the owner file as UTF-8, and observations torn between the metadata and the content of the owner file, on the reclaimer's first look: any first look is allowed, the second is one step.
- The test hook `assume_ready_for_test`, supervisor tasks and worker names for display.
- Kernel locks in src/key_lock.rs, logging, metrics, zeroising and constant-time timing.
