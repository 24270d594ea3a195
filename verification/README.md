# Vaultly: models and proofs

Vaultly stores secrets as versioned, envelope-encrypted rows. This project models the parts of it whose
correctness depends on several pieces agreeing, and proves what they promise.

- **The secret store.** Three tables (`Schema`) and the transactions that write them (`Transactions`). `VaultStore` is
  the imperative form: a class whose fields are the tables, SQL statements as methods, transactions that run statement
  by statement and restore the tables on an error. `Requests` is the concurrent form: every read a request makes before
  its transaction is a step of its own, so any other request may commit in between. Both are related to what users
  believe is stored, a `History`: for each secret an append-only list of plaintexts. `Guarantees` and `Direction` state
  what follows over whole runs.
- **Whole requests.** `WholeRequests` says what each request does from its first step to its last when nothing commits
  in between, and exactly when it is refused; `FreshKeys` that random material is used for one value only.
- **Promotion.** `PromotionPlan` is the comparison of two environments, `PromotionEffect` what applying it does to the
  values, `PromotionVersions` which versions it adds.
- **Bulk reads.** `ParallelResolve` is the bounded pool of workers, proved to return the one list that `Listing`
  describes, for every schedule.
- **Key rotation.** `Rotation` is the command's loop with a stop possible at every point, `RotationResume` why it can be
  run again and why readers do not notice.
- **The line diff** (`LineDiff`), **the audit recorder** (`AuditQueue`), **the audit feed** (`AuditFeed`), **dotenv
  output** (`Dotenv`, and `CiPull` for the way from the store to the file) and **slugs** (`Slug`).
- **The rate limiter.** `TokenBucket`, `Admission` and the class in `Limiter` answer a request at one instant.
  `LimiterRaces`, `LimiterStrays` and `LimiterThreshold` let the janitor and other requests in between a request's
  clock reading, its lookup and its draw, and prove exactly when the rate bound holds. `Reservations` and `Overlap` take
  the draw apart into Reserve, Delay and Cancel, each with its own clock reading, and `Renewals` adds the janitor to
  that. `Shortfall` says by how much a rounded delay lets a bucket be overdrawn.

AES-256-GCM is a free term (`Envelope`): a box opens only with the key, nonce and associated data it was made with.
Random draws, identifiers the database draws, the clock and how the database answers are parameters.

Where the code and its comments or error texts differ, the model follows the code:

- `Update` with a positive expected version on a secret that has been deleted in the meantime reports a version
  mismatch, not a missing secret (`backend/internal/service/secret.go:279-288`).
- The rate limiter's delay is a whole number of nanoseconds, rounded down, so a request can be admitted while its bucket
  is short of a token by less than one nanosecond's refill. For requests answered at one instant,
  `Admission.ExactBoundExactlyWhen` says for which settings the plain bound burst + rpm * T holds anyway.
- `Delay` reads the clock again, so a request held between `Reserve` and `Delay` is admitted late. Any such time breaks
  the plain bound, at every setting (`Renewals.ExactBoundExactlyWhen`); what holds is the bound with what refills in
  that time (`Overlap.OverlapBound`, `Renewals.BoundExactlyWhenRefills`).
- `Cancel` gives the token back only if no later reservation is due, so of overlapping denials only the latest is free,
  and a caller that stays away for its Retry-After can be denied again (`Overlap.DenialIsFreeExactlyWhen`,
  `Overlap.OverlappingDenialsCost`).
- The janitor can delete a bucket between a request's lookup and its draw, so more than the burst can be admitted at one
  instant (`LimiterStrays.OneStrayExceeds`). Requests that are slow to draw also leave old stamps, so that a bucket can
  be deleted before it is full. `LimiterThreshold.BoundExactlyWhen` says that these two are what breaks the bound.
- The values of a `.env` file are read back if and only if they contain no NUL, which no shell variable can hold and
  which value validation lets through (`Dotenv.RoundTrip`, `backend/internal/service/helpers.go:127-131`).
- `SecretAAD` is unambiguous because identifiers contain no NUL; `Envelope.NulBreaksTheBinding` shows that the separator
  alone would not do.
- Rotation starts its cursor at the nil id and asks for greater ids, so a row stored under the nil id would never be
  visited (`Rotation.SecretVersions.Run`, `RotationResume.AllOnNextUnlessNil`).
- The command refuses equal *encoded* keys, which still allows two encodings of one key, so no proof here needs the two
  master keys to differ (`backend/cmd/rotate-key/main.go:70-83`).
- `Record` after `Close` panics, because it sends on a closed channel (`AuditQueue.AuditRecorder.Record`).

## Model

| member | source | states |
|---|---|---|
| Envelope.DecryptInvertsEncrypt | backend/internal/crypto/envelope.go:88-140 | A sealed value opens exactly under the master key and associated data it was sealed with, whatever was drawn; otherwise decryption fails |
| Envelope.EachDrawIsItsOwn | backend/internal/crypto/envelope.go:88-112 | A value does not open with the wrapped key, the nonce or the wrapping nonce of a value sealed with another draw |
| Envelope.RewrapPreservesMeaning | backend/internal/crypto/envelope.go:148-169 | Rewrap succeeds exactly when the data key unwraps; nonce and ciphertext are kept, and under the next key every associated data gives what it gave under the current one |
| Envelope.RewrapIsUnderTheNextKey | backend/internal/crypto/envelope.go:148-169 | What Rewrap returns unwraps under the next key and no other, and only with the nonce drawn for it |
| Envelope.SecretAADInjective | backend/internal/crypto/envelope.go:199-214 | With NUL-free identifiers, associated data are equal exactly when project, environment and key are |
| Envelope.NulBreaksTheBinding | backend/internal/crypto/envelope.go:204-214 | Without that restriction two different identities share associated data |
| Schema.AppendIsSound | backend/internal/service/secret.go:275-314 | Bump and insert: the (secret_id, version) unique constraint cannot fire, versions stay 1..current without a gap, live keys stay unique, and committed rows are not changed |
| Schema.AddSecretIsSound | backend/internal/service/secret.go:165-208 | The same for a new secret whose key is free among live secrets |
| Schema.KeysAreBuilt | backend/internal/service/helpers.go:34-37 | A key begins with a capital letter and goes on with up to 127 capitals, digits and underscores, and nothing else is one |
| Schema.AppendRefines | backend/internal/service/secret.go:302-312 | The new row appends its plaintext to its own secret's list and leaves every other list as it was |
| Schema.AddSecretRefines | backend/internal/service/secret.go:189-199 | A new secret starts a list of one value |
| Schema.HistoryIsDetermined | backend/internal/db/queries/secrets.sql:68-86 | The tables refine only one history |
| Schema.BoundToItsIdentity | backend/internal/service/secret.go:627-641 | Each stored version opens under its own secret's project, environment and key, to its entry of the list, and fails under any other identity |
| Transactions.CreateTxRefines | backend/internal/service/secret.go:165-208 | A committed Create keeps the invariants, starts a list under a fresh id and changes nothing else |
| Transactions.WriteTxRefines | backend/internal/service/secret.go:274-314 | A committed Update or Rollback keeps the invariants and appends exactly one value |
| Transactions.DeleteTxIsSound | backend/internal/service/secret.go:350-368 | Delete keeps versions, ownership and key uniqueness; no row goes away |
| Transactions.DeleteTxRefines | backend/internal/service/secret.go:350-368 | Delete leaves every list intact |
| Transactions.DeleteTxDeletes | backend/internal/db/queries/secrets.sql:59-62 | Delete makes exactly a live secret not live and its key free; every other row and every version stays |
| Transactions.DeletedKeyCanBeCreated | backend/internal/service/secret.go:165-208 | After a delete the same key can be created again |
| Transactions.PromoteTxRefines | backend/internal/service/promotion.go:179-219 | A committed promotion keeps the invariants and pushes its entries onto their lists, in order |
| Transactions.PromotePrefixFails | backend/internal/service/promotion.go:179-222 | Once an entry has failed the transaction fails with that entry's error |
| VaultStore.Store.CreateSecret | backend/internal/db/queries/secrets.sql:1-5 | The insert succeeds exactly when id and live key are free and the environment exists; it adds version 0 of exactly that row, and otherwise changes nothing |
| VaultStore.Store.BumpSecretVersion | backend/internal/db/queries/secrets.sql:34-43 | Bumps by one exactly when the secret is live and still at the expected version |
| VaultStore.Store.BumpSecretVersionUnchecked | backend/internal/db/queries/secrets.sql:45-52 | Bumps by one exactly when the secret is live |
| VaultStore.Store.CreateSecretVersion | backend/internal/db/queries/secrets.sql:68-71 | Inserts exactly when (secret_id, version) is free and the secret exists |
| VaultStore.Store.AddVersion | backend/internal/service/promotion.go:198-216 | Bump then insert is one append; the insert cannot fail after the bump has succeeded |
| VaultStore.Store.Restore | backend/internal/service/service.go:49-67 | Rolling back restores all tables |
| VaultStore.Store.GetCurrentSecretVersion | backend/internal/db/queries/secrets.sql:78-86 | Returns the greatest version number stored for the secret, or nothing if there is none |
| VaultStore.Store.ListCurrentSecretValues | backend/internal/db/queries/secrets.sql:98-108 | Each live secret of the environment once, in id order, with its newest version |
| VaultStore.Store.Reveal | backend/internal/service/secret.go:73-108 | For a live secret the last value of its list, and no decryption failure; otherwise not found |
| VaultStore.Store.Create | backend/internal/service/secret.go:165-208 | The statements of Create commit exactly when id, live key and environment allow it, with a live secret whose list is the sealed value; otherwise they report which and leave the tables alone |
| VaultStore.Store.Write | backend/internal/service/secret.go:274-317 | Checked or unchecked bump and insert commit what WriteTx says; a positive expected version must be current |
| VaultStore.Store.SoftDelete | backend/internal/service/secret.go:350-368 | The secret is no longer live and its key is free; only its own row changes, and nothing does if it was not live |
| VaultStore.Store.Update | backend/internal/service/secret.go:241-330 | Not found, version mismatch or one value appended; every error leaves the tables alone |
| VaultStore.Store.Rollback | backend/internal/service/secret.go:461-534 | Refuses the current version and versions outside 1..current; otherwise the stored row is copied verbatim and entry k of the list becomes its last too |
| VaultStore.Store.PromoteEntry | backend/internal/service/promotion.go:180-217 | One entry: insert if the key is new, bump, insert a version; fails exactly when PromoteOne does, with its error |
| VaultStore.Store.Promote | backend/internal/service/promotion.go:179-224 | All entries are written or the tables are as before; the count returned is the number of entries |
| Requests.ConsistencyIsStable | backend/internal/service/service.go:45-67 | Nothing another request commits can spoil what a waiting request has read |
| Requests.RollbackCopiesTheEntry | backend/internal/service/secret.go:475-512 | The row Rollback reads is sealed under the secret's own identity and holds entry k |
| Requests.CommitRefines | backend/internal/service/secret.go:129-534 | Every commit keeps the table invariants, only grows the tables, and changes the lists as Create, Update, Rollback, Delete and Promote say |
| Requests.StepRefines | backend/internal/service/promotion.go:55-243 | Every step of any request, reads included, keeps the invariants and what each waiting request relies on |
| Requests.RunRefines | backend/internal/service/secret.go:129-534 | Any interleaving of any requests refines the append-only lists |
| WholeRequests.OthersWait | backend/internal/service/service.go:49-67 | A step moves its own request only; every other one keeps what it has read |
| WholeRequests.EnvironmentIsAdded | backend/internal/service/project.go:284-316 | A new environment gets its project and rank, one that exists stays, and nothing else changes |
| WholeRequests.CreateRun | backend/internal/service/secret.go:129-208 | A create that nothing interrupts starts a list of one value under a live key exactly when environment, key, length and id allow it, and otherwise changes nothing |
| WholeRequests.UpdateRun | backend/internal/service/secret.go:241-314 | An update appends its value exactly when the secret is live, the value fits and the expected version, if any, is current, and otherwise changes nothing |
| WholeRequests.RollbackRun | backend/internal/service/secret.go:461-533 | A rollback of a live secret to an earlier version appends a copy of that entry, and any other changes nothing |
| WholeRequests.DeleteCommits | backend/internal/service/secret.go:350-368 | Whatever commits between a delete's read and its transaction: afterwards the secret is not live and its key is free, and no list and no other row has changed |
| WholeRequests.DeleteRun | backend/internal/service/secret.go:350-368 | The same from the first step to the last; a delete of a secret that is not live is never begun |
| WholeRequests.DeletedForGood | backend/internal/db/queries/secrets.sql:19-23 | Whatever any requests do, a deleted secret never comes back |
| WholeRequests.PromotionRun | backend/internal/service/promotion.go:55-219 | A promotion to any higher environment of the project gives each wanted key the source's value and leaves every other key of every environment alone; any other changes nothing |
| FreshKeys.NothingIsDrawnForTwo | backend/internal/crypto/envelope.go:88-112 | In every reachable state, if no two draws agree in data key, nonce or wrapping nonce, no two secrets share one, and two versions of a secret do only if they are the same stored value |
| Guarantees.EveryVersionOpensOnlyAsItself | backend/internal/service/secret.go:154-159 | From empty tables, after any interleaving: versions are exactly 1..current, and each opens under its own identity to its own entry and under no other, copied and re-sealed ones included |
| Guarantees.OneLiveSecretPerKey | backend/internal/db/migrations/000001_init.up.sql:117-121 | In every reachable state a key names at most one live secret of an environment, and a secret's project is its environment's |
| Guarantees.StillOfTheProject | backend/internal/service/token.go:61-66 | An environment checked to be of a project at any earlier point still is |
| Guarantees.BulkReadsNeverFail | backend/internal/service/secret.go:550-603 | In every reachable state, with the environment checked against the project at any earlier point, every schedule of a bulk read opens every row; only a caller that gives up gets an error |
| Guarantees.RollbackAppendsACopy | backend/internal/service/secret.go:486-513 | A rollback to k that commits appends entry k of the list as it is by then, and the inserted row is the old row |
| Guarantees.UpdateLandsAfterExpected | backend/internal/service/secret.go:279-312 | An Update that expected v and commits becomes version v + 1, directly after v |
| Guarantees.LosingUpdateChangesNothing | backend/internal/service/secret.go:285-317 | An Update that does not commit leaves both tables unchanged |
| Guarantees.AtMostOneUpdateCommits | backend/internal/db/queries/secrets.sql:34-43 | Over any interleaving at most one Update that expected version v of a secret commits |
| Guarantees.StatesGrow | backend/internal/service/secret.go:237-240 | Later tables contain every earlier row unchanged, up to risen counters and delete marks |
| Guarantees.PromotionIsAllOrNothing | backend/internal/service/promotion.go:84-222 | Whatever committed between reads and transaction: if each target is live and each new key free, every entry extends its own secret's list by exactly its value (a created secret has only that one), which is then current, no other list changes, and the table gains one row per entry; otherwise no row changes |
| Direction.PromotionsOnlyMoveUpwards | backend/internal/service/promotion.go:76-82 | In any interleaving of promotions a lowest-ranked environment never changes, and every value anywhere was there at the start or, under the same key, in a strictly lower environment of the project |
| PromotionVersions.PromoteWritesItsEnvironment | backend/internal/service/promotion.go:179-217 | A promotion writes only secrets of its target environment, under its entries' keys |
| Listing.ResolvedIsLast | backend/internal/db/queries/secrets.sql:98-108 | A resolved row carries the current version number and the last value of its list |
| Listing.ListAgreesWithHistory | backend/internal/service/promotion.go:93-96 | Looking a key up in the resolved list and in the histories gives the same answer |
| Listing.ListIsDetermined | backend/internal/service/secret.go:601-602 | An environment has only one list in key order |
| Listing.RevealYieldsTheLastValue | backend/internal/service/secret.go:79-95 | With other commits between its two reads, Reveal decrypts successfully and yields the last value as of the second |
| Listing.RevealVersionYieldsThatValue | backend/internal/service/secret.go:415-434 | RevealVersion finds a row exactly for 1..current, and it opens to that entry |
| PromotionPlan.KeySet | backend/internal/service/promotion.go:245-256 | No filter selects every key, a filter exactly its keys, and the two are told apart |
| PromotionPlan.BuildPlan | backend/internal/service/promotion.go:91-155 | The loops compute one change for each wanted source row, in order, which names its key, says added, changed or unchanged as the target has it, and shows both values exactly when asked to; and the entries to apply |
| PromotionPlan.PlanDescribesTheRows | backend/internal/service/promotion.go:124-143 | Each change says added exactly when the target lacks the key, unchanged exactly when it holds the same value, and otherwise changed |
| PromotionPlan.WantedRowsAre | backend/internal/service/promotion.go:118-121 | The rows of a plan are those whose key the filter names, or all without a filter |
| PromotionPlan.WantedRowsAscend | backend/internal/service/promotion.go:118-121 | They are in the order of the source |
| PromotionPlan.SealEntries | backend/internal/service/promotion.go:165-175 | Each entry is sealed for the target environment and its own key |
| PromotionPlan.ListChangedKeys | backend/internal/service/promotion.go:258-267 | Lists the keys of the changes that write |
| PromotionPlan.DryRunShowsTheWrites | backend/internal/service/promotion.go:51-54 | The keys a dry run shows as added or changed are the keys that applying writes, in order, so Applied is their number |
| PromotionPlan.MaskedPlanHidesValues | backend/internal/service/promotion.go:122-141 | A plan without values carries none |
| PromotionPlan.AppliedExactly | backend/internal/service/promotion.go:117-152 | Applied are exactly the wanted source values that the target lacks or holds differently, each with the target secret of its key |
| PromotionPlan.AppliedInKeyOrder | backend/internal/service/promotion.go:109-152 | Entries are in strict key order, so no key is written twice |
| PromotionEffect.CommitsExactlyWhenReady | backend/internal/service/promotion.go:179-222 | The transaction commits if and only if every target is still live, every new key still free and the drawn ids fresh |
| PromotionEffect.PlanIsAddressed | backend/internal/service/promotion.go:158-175 | What is sealed from a plan opens in the target environment under its key, and its targets are that environment's secrets |
| PromotionEffect.PlanWrites | backend/internal/service/promotion.go:117-152 | What the entries write under a key is the source's value, when it is wanted, present and different, and nothing otherwise |
| PromotionEffect.PromoteSetsExactlyItsKeys | backend/internal/service/promotion.go:179-219 | Afterwards written keys of the target hold the written values and every other key of every environment what it held |
| PromotionEffect.GainsAtMostOneVersion | backend/internal/service/promotion.go:179-219 | A secret there before gains the value written under its key as one version, or nothing |
| PromotionEffect.PromotionTakesEffect | backend/internal/service/promotion.go:49-54 | With no writer in between the promotion commits, every wanted source key has the source value in the target, and all other target keys and all other environments are unchanged |
| PromotionVersions.EntriesGoApart | backend/internal/service/promotion.go:180-196 | No two entries of a promotion that commits go to the same secret, and exactly those without a target create one |
| PromotionVersions.CommitAddsOneVersionEach | backend/internal/service/promotion.go:198-216 | Each entry extends its own secret's list by its value once, from the empty list where it creates the secret, and no other list changes |
| PromotionVersions.AddsARowPerEntry | backend/internal/service/promotion.go:206-224 | The versions table gains exactly as many rows as there are entries, the number reported as Applied |
| PromotionVersions.PromotionAddsOneVersionPerDifference | backend/internal/service/promotion.go:109-115 | Added and changed keys gain exactly one version and unchanged keys none: an old secret gains the source's value if its wanted key differs and nothing otherwise, and a new one is the target's for a wanted key the target lacked and holds exactly the source's value |
| PromotionVersions.AddedKeyGetsASecret | backend/internal/service/promotion.go:125-127 | Every wanted key that the source has and the target lacks gets a new live secret with the source's value as its one version |
| PromotionEffect.PromotingAgainAppliesNothing | backend/internal/service/promotion.go:145-151 | Promoting again with the same keys applies nothing |
| ParallelResolve.NeverMoreThanTheLimit | backend/internal/service/secret.go:561-562 | At no point of any schedule are more tasks at work than the limit |
| ParallelResolve.ScheduleDoesNotMatter | backend/internal/service/secret.go:564-599 | Every finished schedule without an error has opened every row, slot i holding row i's value; an error is that of some row, or the cancellation of a caller that gave up |
| ParallelResolve.GivesUp | backend/internal/service/secret.go:566-570 | After the first error, or once the caller has given up, no task that has not been let through decrypts any more, and the first error stays |
| ParallelResolve.GivingUpIsAnError | backend/internal/service/secret.go:566-570 | A caller that gives up before some task has been let through gets an error |
| ParallelResolve.LimitIsUsed | backend/internal/service/secret.go:561-562 | As many tasks as the limit allows can be at work side by side |
| ParallelResolve.NeverStalls | backend/internal/service/secret.go:561-597 | Until the pool is done some step is possible, and every step leaves less to do |
| ParallelResolve.ResolveInOrder | backend/internal/service/secret.go:550-603 | The sequential form: a list exactly when all rows open, namely their values rearranged in key order, and otherwise the error of the first row that does not |
| ParallelResolve.EveryRowOpens | backend/internal/service/secret.go:572-578 | With the environment's own project, every selected row opens to the newest version's value |
| ParallelResolve.PoolReturnsTheList | backend/internal/service/secret.go:597-602 | Whatever the schedule and however the sort breaks ties, the pool returns the one list of the environment in key order; only a caller that gives up gets an error |
| ParallelResolve.PoolHasAnAnswer | backend/internal/service/secret.go:597-602 | Every finished schedule without an error leaves a slice that can be sorted into an answer |
| Rotation.PageIsAPage | backend/internal/db/queries/secrets.sql:117-128 | A page is ascending, and leaves behind only greater ids and only when it is full |
| Rotation.ExamineExactly | backend/cmd/rotate-key/main.go:150-164 | A row is rewrapped with the nonce drawn for it exactly when the current key opens its data key, skipped exactly when only the next key does, and corrupt otherwise |
| Rotation.SecretVersions.UpdateWrapped | backend/internal/db/queries/secrets.sql:130-133 | Changes only the wrapped key of that row |
| Rotation.SecretVersions.List | backend/internal/db/queries/secrets.sql:123-128 | Returns the page above the cursor |
| Rotation.SecretVersions.RewrapPage | backend/cmd/rotate-key/main.go:137-167 | Queues one update for every row of the page that is not already on the next key and counts the others, or stops at a row that neither key unwraps |
| Rotation.SecretVersions.CommitBatch | backend/cmd/rotate-key/main.go:171-196 | All updates of a batch are made, or none is, exactly when an update or the commit fails |
| Rotation.SecretVersions.Run | backend/cmd/rotate-key/main.go:113-221 | Terminates; stopped anywhere it has rotated exactly the rows up to some id; completed it has visited every non-nil row once, changed only wrapped keys, and committed processed - skipped updates, as many as rows rewrapped; a dry run changes nothing |
| RotationResume.EveryRunIsOneMore | backend/cmd/rotate-key/main.go:117-200 | However a run ends, the table is as after one more stopped run |
| RotationResume.RunsKeepDataKeys | backend/cmd/rotate-key/main.go:150-160 | After any number of stopped runs a row has its original data key under one master key or the other, and every other column as it was |
| RotationResume.ReadableRowsStayReadable | backend/cmd/rotate-key/main.go:152-164 | A resumed run finds a row unreadable exactly when it was unreadable under both keys at the start |
| RotationResume.ResumedRunCompletes | backend/cmd/rotate-key/main.go:117-200 | After any stopped runs, a completed run leaves every non-nil row on the next key, decrypting to what it decrypted to at the start |
| RotationResume.AllOnNextUnlessNil | backend/cmd/rotate-key/main.go:115-135 | All rows are on the next key afterwards if and only if no row under the nil id was off it |
| RotationResume.RotationKeepsHistories | backend/internal/crypto/envelope.go:142-147 | The tables refine the same histories under the next master key |
| RotationResume.RotatedTablesExist | backend/cmd/rotate-key/main.go:117-200 | A completed run leaves a versions table with the same versions |
| LineDiff.FillTable | frontend/src/components/VersionDiff.tsx:31-42 | The entry at (i, j) is the LCS recurrence's value for the two rests |
| LineDiff.DiffLines | frontend/src/components/VersionDiff.tsx:27-64 | Table and walk produce the script that keeps equal lines and otherwise follows the larger entry, removals first |
| LineDiff.LcsIsAnUpperBound | frontend/src/components/VersionDiff.tsx:31-42 | No common subsequence of the two rests is longer than the table entry |
| LineDiff.ScriptEdits | frontend/src/components/VersionDiff.tsx:44-63 | The walk turns the one rest into the other and keeps as many lines as the table entry says |
| LineDiff.KeptIsCommon | frontend/src/components/VersionDiff.tsx:14-17 | What any script keeps is a common subsequence, and its length is what the script saves |
| LineDiff.DiffIsOptimal | frontend/src/components/VersionDiff.tsx:19-64 | The diff edits the one text into the other, keeps at least as much as any common subsequence, and no script that does the same is shorter |
| LineDiff.DiffIsDetermined | frontend/src/components/VersionDiff.tsx:44-63 | The diff is the one script that edits the one text's lines into the other's, is as short as any, and of those as short comes first: where they differ it keeps a line, or removes one before adding one |
| LineDiff.JoinInvertsSplit | frontend/src/components/VersionDiff.tsx:28-29 | Splitting into lines loses nothing |
| LineDiff.LinesHaveNoNewline | frontend/src/components/VersionDiff.tsx:28-29 | No line holds a newline |
| LineDiff.SplitInvertsJoin | frontend/src/components/VersionDiff.tsx:28-29 | Lines without newlines are the lines of the text they join to |
| LineDiff.IdenticalExactlyWhenEqual | frontend/src/components/VersionDiff.tsx:200-202 | The page says identical exactly when the two texts are equal |
| AuditQueue.RunConserves | backend/internal/service/audit.go:122-204 | At every point accepted = handed to a flush ++ batch ++ queue in order, records = accepted + dropped, and queue and batch are within bounds |
| AuditQueue.DropsOnlyWhenFull | backend/internal/service/audit.go:119-135 | An event is dropped exactly when the recorder is open and the queue is full |
| AuditQueue.OutcomeExactly | backend/internal/service/audit.go:119-135 | A Record panics exactly after the close, is dropped exactly when the queue is full, and otherwise queues its event |
| AuditQueue.ActionsAreCounted | backend/internal/service/audit.go:119-135 | The accepted events are exactly those of the calls that answered queued, in order; the dropped count is the number of the others before the close |
| AuditQueue.ReceiveTakesTheOldest | backend/internal/service/audit.go:149-161 | A receive takes the oldest event off the queue, hands over exactly a full batch, or after the close what is left and stops |
| AuditQueue.TickHandsOver | backend/internal/service/audit.go:163-168 | A tick hands over all that has been gathered |
| AuditQueue.EncodedSkipsOnlyThose | backend/internal/service/audit.go:183-192 | A batch loses the events that cannot be encoded and no others |
| AuditQueue.StoppedMeansDrained | backend/internal/service/audit.go:140-169 | Once the worker has stopped every accepted event has been handed to exactly one flush, in order |
| AuditQueue.NothingLostExactlyWhen | backend/internal/service/audit.go:172-204 | The log is the accepted sequence if and only if every flush committed and every event could be encoded |
| AuditQueue.CloseTerminates | backend/internal/service/audit.go:233-241 | After closing, no step adds work and each receive does some |
| AuditQueue.AuditRecorder.Record | backend/internal/service/audit.go:119-135 | Puts the event on the queue and answers queued, or drops and counts it when the queue is full, or panics after Close; never waits |
| AuditQueue.AuditRecorder.FlushBatch | backend/internal/service/audit.go:172-204 | Writes the encodable events of the batch in order, or none of them if the transaction fails |
| AuditQueue.AuditRecorder.Receive | backend/internal/service/audit.go:149-161 | Gathers the oldest event, flushes a full batch, and after Close flushes the rest and stops |
| AuditQueue.AuditRecorder.Tick | backend/internal/service/audit.go:163-168 | Flushes what has been gathered |
| AuditQueue.AuditRecorder.Close | backend/internal/service/audit.go:233-241 | Returns with every accepted event handed to a flush and nothing dropped; may be called twice |
| AuditFeed.AuditLog.Insert | backend/internal/db/queries/audit.sql:1-15 | Adds one row and keeps ids unique |
| AuditFeed.FiltersNarrow | backend/internal/db/queries/audit.sql:32-36 | An empty filter selects the workspace's rows, and each field filled in leaves those with its value |
| AuditFeed.AuditLog.Query | backend/internal/db/queries/audit.sql:23-42 | The newest n matching rows below the cursor, newest first |
| AuditFeed.AuditLog.List | backend/internal/service/audit.go:284-358 | The page, of at most the limit, 50 by default and 200 at most, each row newer than the next, with a cursor at its last row exactly when matching rows are left below it |
| AuditFeed.WalkIsExactSoFar | backend/internal/service/audit.go:352-357 | At every page so far: shown rows are strictly decreasing, and every matching row of the start is shown or still below the cursor |
| AuditFeed.PagingIsExact | backend/internal/db/queries/audit.sql:17-20 | Following the cursors to the end shows only matching rows, and every matching row of the start, exactly once, by falling time and id throughout, whatever arrives on the way |
| AuditFeed.WalkShrinks | backend/internal/db/queries/audit.sql:37-42 | When new rows sort above the cursor each page leaves strictly fewer rows below it |
| AuditFeed.QuietWalkEnds | backend/internal/db/queries/audit.sql:37-42 | Such a walk has at most one page more than there were matching rows at the start |
| Dotenv.SortStrings | backend/internal/http/token_handler.go:152-153 | The same keys in ascending order |
| Ordering.LessExactly | backend/internal/http/token_handler.go:152-153 | One key sorts before another exactly when, after what they have in common, it ends or has the smaller character |
| Dotenv.Print | backend/internal/http/token_handler.go:147-161 | The text lists the map's keys in ascending order, and for valid keys reads back as exactly the map if no value has a NUL, and not at all otherwise |
| Dotenv.OneTextPerMap | backend/internal/http/token_handler.go:148-153 | The text is the same for every order in which the map is iterated |
| Dotenv.ReadEscaped | backend/internal/http/token_handler.go:157-158 | Between its quotes an escaped value is read back if and only if it has no NUL; quotes, newlines, dollar signs, hashes and backslashes are safe |
| Dotenv.ReadLine | backend/internal/http/token_handler.go:158 | A printed line is read as its key and value, and reading goes on after it, exactly when the value has no NUL and the rest can be read |
| Dotenv.RoundTrip | backend/internal/http/token_handler.go:142-161 | Reading the output under POSIX quoting gives back the map, for every map with keys of the pattern and NUL-free values, and fails if a value has a NUL |
| CiPull.CollectValues | backend/internal/service/token.go:294-299 | The loop computes the map and the keys of the resolved list |
| CiPull.PulledFileIsTheEnvironment | backend/internal/service/token.go:280-311 | In every reachable state, with a token minted at any earlier point and any schedule, a pull that is answered is a file that can be read back if and only if no current value has a NUL, and then as the current value of exactly the keys the environment has |
| TokenBucket.AdmitsExactly | backend/internal/ratelimit/limiter.go:101-114 | A request answered at one instant is admitted exactly when its bucket is short of a token by less than a nanosecond's refill |
| TokenBucket.AvailableGrows | backend/internal/ratelimit/limiter.go:149-153 | A key's level grows at its rate up to the burst |
| TokenBucket.EventTakes | backend/internal/ratelimit/limiter.go:101-190 | Only an admitted request for the key takes a token; denials and other keys are free, and the janitor can only raise the level |
| TokenBucket.Budget | backend/internal/ratelimit/limiter.go:101-190 | Over a window, what is admitted and what is left never exceed the burst and the refill |
| TokenBucket.RefillIsHarmless | backend/internal/ratelimit/limiter.go:179-190 | When an idle bucket refills before it may be deleted, the janitor only deletes full buckets |
| TokenBucket.DefaultsRefill | backend/internal/ratelimit/limiter.go:57-68 | The defaults meet that condition at every rate |
| TokenBucket.RateBound | backend/internal/ratelimit/limiter.go:101-190 | In any window T after any history, the requests admitted at an unchanged rate, each at one instant, are fewer than burst + rpm * T + one nanosecond's refill |
| Admission.ExactBoundExactlyWhen | backend/internal/ratelimit/limiter.go:101-190 | With every request at one instant, the bound burst + rpm * T holds of every run if and only if the rate divides the nanoseconds of a minute and an empty bucket is full when it may first be deleted |
| Admission.SixtyIsExactAndSevenIsNot | backend/internal/ratelimit/limiter.go:57-68 | With the defaults, and every request at one instant, it holds at the default rate of 60 and fails at 7 |
| Admission.RoundingAdmitsOneMore | backend/internal/ratelimit/limiter.go:111-114 | At every rate that does not divide a token, a run that admits one request too many |
| Admission.SweepAdmitsTwoBursts | backend/internal/ratelimit/limiter.go:179-190 | Wherever buckets are deleted before they are full, a run that admits two bursts too close together |
| Admission.BurstIsAdmitted | backend/internal/ratelimit/limiter.go:22-24 | As many requests at one instant as the level has tokens are all admitted |
| Admission.DenialsAreFree | backend/internal/ratelimit/limiter.go:116-119 | While nothing is admitted the level at any later time is what it would have been with no request, if each request is answered at one instant |
| Admission.DelayIsExact | backend/internal/ratelimit/limiter.go:111-119 | With every request at one instant, a denied one is admitted once its delay has passed, and not before when the janitor only deletes full buckets |
| Admission.RetryAfterIsSound | backend/internal/http/middleware.go:229-239 | A caller that stays away for the advertised seconds is admitted, whatever requests for other keys and the janitor do, at any settings, if its denial did not overlap another |
| Admission.RetryAfterIsLeast | backend/internal/http/middleware.go:229-239 | The header is the least whole number of seconds that is longer than the delay |
| Admission.NewRateStartsFull | backend/internal/ratelimit/limiter.go:144-158 | A key that is new or asks for another rate is admitted exactly the burst at one instant |
| Limiter.Limiter.BucketAt | backend/internal/ratelimit/limiter.go:122-160 | Keeps a bucket at an unchanged rate, stamps it, and otherwise replaces it by a full one; other keys are untouched |
| Limiter.Limiter.Reserve | backend/internal/ratelimit/limiter.go:98-120 | Run at one instant, answers and updates as one event of the model; a denial carries a positive delay |
| Limiter.Limiter.Reclaim | backend/internal/ratelimit/limiter.go:179-190 | Deletes exactly the buckets not used since the cutoff, in whatever order they are visited |
| LimiterRaces.StepBalance | backend/internal/ratelimit/limiter.go:101-190 | With lookup, lock and draw as separate steps, and a draw at one instant, a step takes a token from the key's level exactly when it admits from the key's own bucket |
| LimiterRaces.RacyBudget | backend/internal/ratelimit/limiter.go:101-190 | Over a window, what is admitted from the key's own buckets and what is left never exceed the burst and the refill |
| LimiterRaces.PromptRunIsHarmless | backend/internal/ratelimit/limiter.go:129-158 | If requests draw within g of reading the clock, the janitor deletes only full buckets when a bucket refills, from the emptiest it can be, in idleTTL - 2g |
| LimiterRaces.OnlyIdleIsDeleted | backend/internal/ratelimit/limiter.go:129-190 | What the janitor deletes then has not been drawn from for more than idleTTL - 2g |
| LimiterRaces.RateBoundWithStrays | backend/internal/ratelimit/limiter.go:98-190 | In any window after any history the admitted requests exceed burst, refill and rounding by no more than the strays, those that drew from a bucket deleted under them, when buckets refill in idleTTL - 2g |
| LimiterStrays.UninterruptedIsOneEvent | backend/internal/ratelimit/limiter.go:101-160 | A request that nothing interrupts is the one event of the atomic model: same buckets, same answer, no stray |
| LimiterStrays.OneStrayExceeds | backend/internal/ratelimit/limiter.go:132-139 | A run in which the janitor deletes a bucket between lookup and lock, and burst + 1 requests are admitted at one instant |
| LimiterThreshold.EarlyDeletionExceeds | backend/internal/ratelimit/limiter.go:129-190 | Wherever a bucket at its emptiest does not refill in idleTTL + 1ns - 2g, a run without a stray that exceeds the bound: late draws and one late stamp empty bucket after bucket before it is deleted |
| LimiterThreshold.BoundExactlyWhen | backend/internal/ratelimit/limiter.go:98-190 | Over all runs in which requests draw within g and at most n admitted ones are strays, the rate bound holds if and only if n is zero and a bucket at its emptiest refills in idleTTL + 1ns - 2g |
| LimiterThreshold.OneSecondIsTooLong | backend/internal/ratelimit/limiter.go:129-190 | With one request a minute and an idle time of a minute the bound holds of requests that draw at once and fails of some that draw within a second, without a stray |
| LimiterThreshold.DefaultsKeepBoundWhen | backend/internal/ratelimit/limiter.go:57-68 | With the defaults and no stray the bound holds of requests that draw within two and a half minutes at every rate above one a minute; at one a minute if and only if they draw at once |
| Shortfall.ZeroExactlyWhenDividing | backend/internal/ratelimit/limiter.go:111-114 | A bucket at its emptiest is overdrawn by nothing if and only if the rate divides a token |
| Shortfall.ShortByAtMost | backend/internal/ratelimit/limiter.go:111-114 | The tokens a bucket can have, when short by less than a nanosecond's refill, are short by at most the largest residue |
| Reservations.RoomForAll | backend/internal/ratelimit/limiter.go:104-118 | Everything that open reservations can still give back fits into the bucket |
| Reservations.PlayKeepsOk | backend/internal/ratelimit/limiter.go:104-118 | However Reserve, Delay and Cancel of any number of requests overlap, due times stay a token apart, open reservations stay owed, and what was reserved and kept comes out of burst and refill |
| Overlap.OverlapBound | backend/internal/ratelimit/limiter.go:104-118 | In any window T at most burst, refill in T plus the longest time from a Reserve to its Delay, and rounding are admitted |
| Overlap.BoundExactlyWhenAtOnce | backend/internal/ratelimit/limiter.go:104-118 | Over all runs whose admitted requests take at most g from Reserve to Delay, burst + refill in T with rounding holds if and only if g is zero, and without rounding if and only if besides the rate divides a token |
| Overlap.DenialIsFreeExactlyWhen | backend/internal/ratelimit/limiter.go:116-119 | Cancel gives the whole token back if and only if the denial is not yet due and nothing is due later |
| Overlap.LatestDenialIsFree | backend/internal/ratelimit/limiter.go:116-119 | Cancel gives back the whole token of the latest reservation if it is cancelled in time |
| Overlap.AtOneInstant | backend/internal/ratelimit/limiter.go:101-120 | The three calls of one request at one instant are the one event of the atomic model: same answer, same bucket |
| Overlap.OverlappingDenialsCost | backend/internal/ratelimit/limiter.go:116-119 | Three overlapping denials of which two lose their tokens, and a Retry-After that is denied again |
| Renewals.RenewalBound | backend/internal/ratelimit/limiter.go:98-190 | When a bucket at its emptiest refills in the idle time less the longest time from a Reserve to its Delay, all the buckets a key has one after the other admit in any window at most burst, refill in T plus that time, and rounding |
| Renewals.EarlyRenewalExceeds | backend/internal/ratelimit/limiter.go:98-190 | Wherever it does not refill in that time, a run of such buckets that exceeds that bound |
| Renewals.BoundExactlyWhenRefills | backend/internal/ratelimit/limiter.go:98-190 | With overlapping calls and a janitor that deletes what has been idle, the bound burst + refill in T plus the longest time from a Reserve to its Delay, rounded, holds if and only if a bucket at its emptiest refills in the idle time less that longest time |
| Renewals.ExactBoundExactlyWhen | backend/internal/ratelimit/limiter.go:98-190 | The bound burst + rpm * T holds of all runs of overlapping calls if and only if no time passes between a Reserve and its Delay, the rate divides the nanoseconds of a minute, and an empty bucket is full when it may first be deleted |
| Renewals.DefaultsKeepBoundWhen | backend/internal/ratelimit/limiter.go:57-68 | With the defaults five minutes are safe, twice the time to draw and the time to Delay, at every rate above one a minute; at one a minute at most a nanosecond |
| Slug.PatternExactly | backend/internal/service/helpers.go:18-19 | The pattern accepts exactly the non-empty runs of slug characters joined by single hyphens |
| Slug.OneCharacterSlugs | backend/internal/service/helpers.go:18-19 | Slug characters are the small letters and the digits |
| Slug.SlugifyMatches | backend/internal/service/helpers.go:24-32 | At most 60 characters; empty exactly when the name has no usable character, and otherwise matching the pattern |
| Slug.SlugJoinsTheWords | backend/internal/service/helpers.go:24-32 | A slug is the words of the trimmed, lower-cased name joined by hyphens, cut after 60 characters or before a hyphen in that place |
| Slug.RunIsOneWord | backend/internal/service/helpers.go:21-22 | A run of slug characters is one word |
| Slug.WordsAreSeparated | backend/internal/service/helpers.go:21-22 | Any other character separates words |
| Slug.SpelledSlug | backend/internal/service/helpers.go:24-32 | A name that spells a slug, in letters of any case and with any other character for each hyphen, gives that slug |
| Slug.SlugsAreTheFixedPoints | backend/internal/service/helpers.go:24-32 | Slugify leaves a text alone exactly when it is empty or matches the pattern within 60 characters |
| Slug.SlugifyIsIdempotent | backend/internal/service/helpers.go:24-32 | Slugify of a slug is that slug, also where the cut falls at a hyphen |
| Slug.PatternCheckNeverFails | backend/internal/service/project.go:99-109 | In project creation the pattern check after Slugify cannot fail, and creation is refused exactly when no slug can be derived |

## Left out

- Cryptography: AES-GCM, key derivation and randomness are idealised; a wrong-length nonce or data key is any box that does not open, and zeroing memory (`Zero`) is not modelled.
- PostgreSQL: a statement is a function on maps and a transaction is one atomic step; timeouts, ambiguous commits and connection failures are not modelled, except that a request may be abandoned at any point and a rotation may fail at any update or commit.
- Roles: authorisation only stops requests, so an unauthorised request is one that never begins.
- Descriptions, comments, authors and timestamps of secrets, and `UpdateDescription`: they do not touch values or versions.
- Deleting projects or environments, and cascading deletes: environments never go away in the model, and the code never updates their project or rank.
- Key validation starts from the trimmed key; `strings.TrimSpace` itself appears only in `Slug`, through the characters it may remove.
- 32-bit overflow of version numbers and limits.
- Rotation beside a writer: Rollback may copy an old wrapped key and an insert may land behind the cursor, so the rotation results are about a table that only the rotation writes.
- ParallelResolve.ResolveInOrder: is the sequential form; the workers' shared slice is modelled as steps on values, and `sort.Slice` as any rearrangement in key order.
- Dotenv.SortStrings: returns a new sequence; sorting in place is not captured.
- AuditQueue.AuditRecorder.Record: the log lines about dropped events are left out.
- AuditFeed.AuditLog.List: cursors are the pair they encode (base64 and JSON are idealised), the joined e-mail and token name columns are left out, and so is a request that passes a time without an id.
- TokenBucket.RateBound: counts exactly in integers, where the limiter library golang.org/x/time/rate, which is not part of this repository, uses floating point; the extra term is the rounding of delays to nanoseconds, which the code does have.
- Limiter.Limiter.Reserve: is one event, which is what a request that nothing interrupts amounts to; `LimiterRaces` takes it apart up to the draw, and `Reservations` the draw. A burst of at least one means that a reservation is never refused outright.
- Renewals.BoundExactlyWhenRefills: strays, which hold a bucket deleted before they reserve, are in `LimiterRaces` only, where a draw is one instant; that the janitor deletes only what has been idle for idleTTL - 2g is `LimiterRaces.OnlyIdleIsDeleted`.
- Reservations.PlayKeepsOk: clocks are read in the order of the calls on a bucket; the library keeps its own lock but reads the clock before taking it.
- `Allow`, which answers without a delay: request handling uses `Reserve`.
- Slug.SlugifyMatches: Unicode lower-casing and white space are parameters that leave slug characters alone.
- The other services (workspaces, members, tokens, sessions, IP allowlists), HTTP routing, configuration, and the rest of the front end.
