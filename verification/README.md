# Service-account plugin: verification

A Dafny model of the service-account PostgreSQL plugin, and proofs about it.

The plugin keeps accounts, credentials, commands (idempotency receipts) and rate
limits in four tables. Requests are served by workers that claim a command row,
act on the tables and on services outside (an identity directory, a credential
issuer), complete the row, and answer. Workers run concurrently and may stop
between any two steps.

## How the model is built

* `Tables`, `Transactions` – rows, CHECK constraints and unique keys, and each
  multi-statement transaction as the list of its SQL statements. A statement sees
  the committed tables overlaid with its transaction's own writes (READ COMMITTED).
* `Atomic` – what each transaction does run alone, in closed form, and the proof
  that its statements compose to that.
* `Interleaving` – transactions statement by statement under advisory, row and key
  locks held to commit, beside the single-statement writes. Serializability and
  deadlock freedom.
* `Guarantees`, `Histories` – the invariant of the tables and what any history of
  actions leaves true of them.
* `Effects` – what each committed change leaves in the tables, field by field, and
  the accounts told from the entries of a history alone.
* `RateLimiter` – the fixed window with lockout: when a call is admitted, told from
  the earlier calls, and the exact bounds.
* `Protocol`, `Workers` – the workers as a state machine over the tables with a
  ghost history of actions, rate slots, issuer calls, sessions and answers, and the
  invariant of every reachable state.
* `Issuance`, `Receipts` – at-most-once issuance, session lifetimes, replays,
  receipts and secrets, over all runs.
* `Decisions`, `Answers` – what every step decides, told from the request, the tables
  and the earlier entries, and over all runs: every error was due, every session was
  earned with a stored secret and says what the issuer said.
* `Refinement` – workers whose transactions interleave statement by statement reach
  only states of the protocol, so the results over protocol runs hold there too.
* `Stores`, `Services` – the store and the requests in the imperative form of the
  source: tables as mutable fields, transactions as objects that buffer writes,
  requests as sequences of store calls. The store's methods are proved equal to the
  transactions above; each request's steps are proved to be protocol steps.
* `Pagination`, `Secrets`, `Tokens` – keyset listing, the secret grammar over
  base64url, canonical decimals, validators and the receipt's associated data.
* `JsonSchema` – the build scripts' schema rewrite and its meaning. Both contract
  crates carry the same function; it is modelled once.

Every clock reading is an arbitrary integer chosen by the environment. A result
that needs readings to be ordered says so in its own contract
(`RateLimiter.AtMostTwoWindowsMeet`, `RateLimiter.MaxBoundsWindowIff`,
`Issuance.CallsPerWindow`); no other does.

## What the proofs turned up

* `normalize_schema` does not preserve meaning on every schema (`EnumChanges`,
  `ConstChanges`, `PropertyChanges` and `DefinitionChanges` give one of each kind). It rewrites literals and
  name maps as if they were schemas. An object literal under `enum` or `const` that
  happens to look like an open, empty object schema is changed. A property *named*
  `properties`, beside one named `additionalProperties`, is dropped, and its members
  become additional properties. A definition so named is dropped from `$defs`, and
  references to it go from accepting everything to accepting nothing. `Normalised`
  says exactly what any schema object accepts afterwards. The exact conditions for
  keeping the meaning are: for literals, that each is settled or excluded by the rest
  of its schema (`EnumStaysIffExcluded`, `ConstStaysIffExcluded`); for property
  names, that none is lost, or else that additional properties are unrestricted
  (`RewrittenNamesStayIffUnrestricted`); for a reference, that its definition is not
  lost (`ReferenceStaysIffNotLost`).
  `DocumentMeaningStays` covers every document whose literals are settled, that
  loses no property name to restricted additional properties, and that refers to no
  lost definition.
* The fixed window admits up to `2*max-1` exchanges within one window length, and
  `BoundIsReached` shows readings that do; `MaxBoundsWindowIff` says that `max`
  itself is a bound only for a limit of one or a window of one clock tick. A tick is
  the clock's resolution, so a window of one second is many.
* A command left open by a worker that stopped, whether `reserved` or `issuing` and
  from whatever stage, is never completed by anyone (`OrphansStay`).
* A rotation whose clock reading lies far enough behind another's cuts a credential
  below its start; the CHECK then aborts it. That no validity ever
  ends before it starts is the CHECK's doing, not the UPDATE's
  (`RotationBehindAborts`).
* `revoke_account` has no revoked outcome, so the worker's branch for it is dead.

## Model

| member | source | states |
|---|---|---|
| `Stores.Store.CreateAccount` | crates/lenso-service-account-postgres-plugin/src/storage.rs:272-357 | Statement by statement (count, insert account, insert credential, reread, complete the receipt, commit), the new tables and the outcome are those of the closed form `Atomic.Alone`; every early return leaves the tables alone, in the order the guards and constraints decide |
| `Stores.Store.RotateAccount` | crates/lenso-service-account-postgres-plugin/src/storage.rs:360-454 | Statement by statement equal to the closed form `Atomic.Alone` for a rotation: not found, revoked, revision conflict, a CHECK failure on a cut credential, a taken key, BIGINT overflow, or the whole change with its receipt; what the change is in numbers, `Effects.RotationIs` says |
| `Stores.Store.RevokeAccount` | crates/lenso-service-account-postgres-plugin/src/storage.rs:456-529 | Statement by statement equal to the closed form `Atomic.Alone` for a revocation, with the unchanged answer for an account that is already revoked |
| `Stores.Store.MarkExchangeIssuing` | crates/lenso-service-account-postgres-plugin/src/storage.rs:546-619 | Statement by statement equal to the closed form `Atomic.Alone` for an exchange admission: account active, credential live at the given reading, command `reserved`, or nothing changes |
| `Stores.Store.ReserveRateSlot` | crates/lenso-service-account-postgres-plugin/src/storage.rs:621-699 | Inside a lockout nothing changes; a used-up window locks the caller until reading + lockout; otherwise the call is admitted and counted, in a window that starts anew once it is over; other callers are untouched |
| `Stores.Store.ClaimCommand` | crates/lenso-service-account-postgres-plugin/src/storage.rs:97-152 | Exactly one caller inserts the row; everyone else is told precisely what the row holds (conflict, receipt, error code, in progress) and changes nothing |
| `Stores.Store.CompleteError` | crates/lenso-service-account-postgres-plugin/src/storage.rs:182-206 | An open row, and no other, is completed with the error; otherwise nothing changes and the call fails |
| `Stores.Store.CompleteSuccess` | crates/lenso-service-account-postgres-plugin/src/storage.rs:208-235 | An open row, and no other, is completed with the receipt in a transaction of its own |
| `Stores.Store.Prune` | crates/lenso-service-account-postgres-plugin/src/storage.rs:83-95 | Removes exactly the rows completed before the cutoff and leaves the rest as they are |
| `Stores.Store.LoadCredential` | crates/lenso-service-account-postgres-plugin/src/storage.rs:532-544 | A credential joined with its account, or nothing when either is missing |
| `Stores.Store.ListAccounts` | crates/lenso-service-account-postgres-plugin/src/storage.rs:253-270 | The first rows of the organization after the cursor, in id order, each showing every field of its account and the expiry of the credential created last |
| `Stores.Store.List` | crates/lenso-service-account-postgres-plugin/src/management.rs:314-335 | One row more than asked for decides whether there is a next cursor: it is the last id of the page exactly when rows remain after it |
| `Services.Service.List` | crates/lenso-service-account-postgres-plugin/src/management.rs:275-337 | Invalid exactly for a limit that is not canonical or not within the page size or for malformed ids; a page's rows are their accounts as the committed changes tell them |
| `Stores.Transaction.InsertAccount` | crates/lenso-service-account-postgres-plugin/migrations/001_create_service_account_state.sql:1-25 | CHECKs first, then the primary key, the subject and the organization-name uniqueness, in that order; the row goes in exactly when none fails |
| `Stores.Transaction.BoundCredentials` | crates/lenso-service-account-postgres-plugin/src/storage.rs:407-417 | Each live credential of the account ends at the earlier of its old end and the overlap's, superseded at the reading unless it was before; the others stay; or a CHECK failure when a cut would end before it starts |
| `Stores.Transaction.WithdrawCredentials` | crates/lenso-service-account-postgres-plugin/src/storage.rs:496-507 | Every credential of the account is revoked at the reading unless it was before, and ends there unless it ended before or had not begun; the others stay |
| `Stores.Transaction.Conclude` | crates/lenso-service-account-postgres-plugin/src/storage.rs:335-356 | Reread, seal, complete and commit together: the receipt is stored exactly when the change is |
| `Atomic.StatementsCompose` | crates/lenso-service-account-postgres-plugin/src/storage.rs:272-619 | For all tables and arguments, the statement list of each transaction run without interference equals its closed form |
| `Tables.NewestExpiry` | crates/lenso-service-account-postgres-plugin/src/storage.rs:237-251 | The expiry of the one credential that is latest by creation time, then by id; absent exactly when there is none |
| `Interleaving.Serializable` | crates/lenso-service-account-postgres-plugin/src/storage.rs:272-619 | Every interleaving of statements with locks held to commit, abandoned transactions and single-statement writes leaves the tables, and returned the answers, of running the finished actions one at a time in history order |
| `Interleaving.WritesAreDisjoint` | crates/lenso-service-account-postgres-plugin/src/storage.rs:297-350 | No row is ever written by two transactions in flight |
| `Interleaving.WaiterIsBehind` | crates/lenso-service-account-postgres-plugin/src/storage.rs:297-606 | A transaction that waits is strictly earlier in the lock order than the one it waits for |
| `Interleaving.NoWaitCycle` | crates/lenso-service-account-postgres-plugin/src/storage.rs:297-606 | No chain of waits closes, of any length, in any state |
| `Interleaving.AlwaysProgress` | crates/lenso-service-account-postgres-plugin/src/storage.rs:297-606 | While transactions are in flight, one of them can run its next statement or commit |
| `Interleaving.CommitAgrees` | crates/lenso-service-account-postgres-plugin/src/storage.rs:297-606 | A commit changes nothing that a lock outside the transaction protects |
| `Refinement.InterleavedRunsAreProtocolRuns` | crates/lenso-service-account-postgres-plugin/src/management.rs:31-606 | Workers over transactions that interleave statement by statement, including workers that die or answer a failure while their transaction may still commit, only reach states the protocol reaches with whole transactions; an answer given so early is a runtime failure |
| `Refinement.MoveIsSteps` | crates/lenso-service-account-postgres-plugin/src/authentication.rs:25-281 | Each interleaved move amounts to zero, one or two protocol steps, with the same resulting state |
| `Guarantees.ActionKeeps` | crates/lenso-service-account-postgres-plugin/migrations/001_create_service_account_state.sql:1-79 | Every action keeps the table invariant: constraints, unique keys, the account cap, revision = credentials + (1 if revoked), revoked exactly when all its credentials are, validity bounds, and after a rotation only the credential that started with it and was not superseded since may outlive the overlap |
| `Guarantees.RotateAccountInv` | crates/lenso-service-account-postgres-plugin/src/storage.rs:398-432 | A rotation with any clock reading leaves every older credential revoked or ending within the overlap, and adds one to both counts |
| `Guarantees.RevokeAccountInv` | crates/lenso-service-account-postgres-plugin/src/storage.rs:482-508 | A revocation withdraws every credential and keeps the counts |
| `Guarantees.CreateKeepsCapacity` | crates/lenso-service-account-postgres-plugin/src/storage.rs:302-317 | Concurrently created accounts never exceed the cap of any organization, revoked ones included |
| `Histories.EveryRunKeepsTables` | crates/lenso-service-account-postgres-plugin/migrations/001_create_service_account_state.sql:1-79 | The invariant holds of the committed tables of every interleaved run |
| `Histories.HistoryMovesForward` | crates/lenso-service-account-postgres-plugin/src/storage.rs:398-508 | Along every history no row disappears, revisions never fall, a revoked account never changes again, validity never grows, and superseded and revoked times stick |
| `Histories.OneChangePerRevision` | crates/lenso-service-account-postgres-plugin/src/storage.rs:398-508 | Effective rotations and revocations of an account expect strictly increasing revisions, so a repeated request never takes effect twice, pruned receipt or not |
| `Histories.OneAccountPerName` | crates/lenso-service-account-postgres-plugin/migrations/001_create_service_account_state.sql:13-14 | Two effective creations differ in account, subject, and lower-cased name within the organization |
| `Histories.RevisionCountsChanges` | crates/lenso-service-account-postgres-plugin/src/storage.rs:424-432 | An account's revision is the number of effective changes including its creation |
| `Histories.RevokeNeverReportsRevoked` | crates/lenso-service-account-postgres-plugin/src/management.rs:595-599 | `revoke_account` never yields the revoked outcome; on a revoked account it answers unchanged or conflicts, by the revision alone |
| `Histories.RotationOutlasts` | crates/lenso-service-account-postgres-plugin/src/storage.rs:398-432 | Every credential an account had when a rotation took effect is, in every later state, revoked or out of use once the overlap has passed: only that rotation's credential or a later one's can outlive it |
| `Histories.RotationBehindAborts` | crates/lenso-service-account-postgres-plugin/src/storage.rs:407-417 | A rotation whose reading lies so far behind that a live credential starts after its overlap is aborted by the CHECK and changes nothing; otherwise that CHECK never aborts it |
| `Histories.NoAdmissionAfterRevocation` | crates/lenso-service-account-postgres-plugin/src/storage.rs:559-575 | After a revocation has committed, no exchange is admitted for that account |
| `Histories.AdmissionWithinValidity` | crates/lenso-service-account-postgres-plugin/src/storage.rs:576-589 | An admitted credential is live at the reading, lives no longer than its configured lifetime, and no longer than the overlap after it was superseded |
| `Histories.AdmissionWithinOverlap` | crates/lenso-service-account-postgres-plugin/src/storage.rs:405-417 | A rotation that committed earlier bounds every older credential admitted later by its overlap |
| `Effects.CreationIs` | crates/lenso-service-account-postgres-plugin/src/storage.rs:319-334 | A creation adds one active account of revision 1 and one credential valid from its reading for the configured lifetime, and changes nothing else |
| `Effects.RotationIs` | crates/lenso-service-account-postgres-plugin/src/storage.rs:398-432 | A rotation leaves each live credential ending at the earlier of its old end and reading + overlap, superseded at the reading unless it was before, the others as they were; adds one credential and one revision; and changes nothing else |
| `Effects.RevocationIs` | crates/lenso-service-account-postgres-plugin/src/storage.rs:482-508 | A revocation revokes every credential of the account at its reading, ends it there unless it ended before or had not begun, counts one revision, and changes nothing else |
| `Effects.OtherwiseUnchanged` | crates/lenso-service-account-postgres-plugin/src/storage.rs:589-596 | An admission notes its reading as the last use; every other entry leaves accounts and credentials alone |
| `Effects.CredentialOrigin` | crates/lenso-service-account-postgres-plugin/src/storage.rs:326-334 | Every credential was stored by an effective creation or rotation, with that change's account, verifier and reading |
| `Effects.AccountsAreTold` | crates/lenso-service-account-postgres-plugin/src/storage.rs:315-508 | At every point of a history the accounts are those its effective entries tell, field by field |
| `Effects.RowsAreTold` | crates/lenso-service-account-postgres-plugin/src/storage.rs:237-270 | Every row the queries load is its account as the entries tell it, with the expiry of the credential created last |
| `Effects.ReturnedRowIsTold` | crates/lenso-service-account-postgres-plugin/src/storage.rs:335-343 | The row a committed create, rotate or revoke answers with is its account as the entries tell it, this one included |
| `Effects.ReturnedFields` | crates/lenso-service-account-postgres-plugin/src/management.rs:608-629 | A creation answers both times absent and revision 1, a rotation its reading and the next revision, a revocation its reading, the next revision and the last rotation's reading |
| `Effects.ReturnedExpiry` | crates/lenso-service-account-postgres-plugin/src/storage.rs:237-251 | The answered expiry is the new credential's, if it was created last |
| `RateLimiter.EveryRowIsBounded` | crates/lenso-service-account-postgres-plugin/src/storage.rs:649-698 | Attempts stay within the limit and a lockout ends before window start + window + lockout, for readings in any order |
| `RateLimiter.RejectionsNeverPostpone` | crates/lenso-service-account-postgres-plugin/src/storage.rs:656-680 | No number of rejected calls moves the window, adds an attempt, or delays the next admission past window start + window + lockout |
| `RateLimiter.LockoutChangesNothing` | crates/lenso-service-account-postgres-plugin/src/storage.rs:656-662 | A call inside a lockout writes nothing |
| `RateLimiter.AdmittedIff` | crates/lenso-service-account-postgres-plugin/src/storage.rs:649-698 | Exactly when a call is admitted, told from the earlier calls: no lockout of an earlier rejection is running, and the window is over or has admitted fewer calls than the limit |
| `RateLimiter.LockoutHolds` | crates/lenso-service-account-postgres-plugin/src/storage.rs:656-682 | A caller rejected at t outside any lockout is rejected by every following call, until one reads t + lockout or later |
| `RateLimiter.FirstCallsAreAdmitted` | crates/lenso-service-account-postgres-plugin/src/storage.rs:634-698 | The first calls of a caller, as many as the limit, are all admitted |
| `RateLimiter.AtMostTwoWindowsMeet` | crates/lenso-service-account-postgres-plugin/src/storage.rs:663-698 | With readings that never go back, any interval as long as the window holds at most 2*max-1 admissions |
| `RateLimiter.BoundIsReached` | crates/lenso-service-account-postgres-plugin/src/storage.rs:663-698 | That bound is reached: for every limit and every window of at least two clock ticks there are readings with exactly 2*max-1 admissions in one window length |
| `RateLimiter.MaxBoundsWindowIff` | crates/lenso-service-account-postgres-plugin/src/storage.rs:663-698 | `max` bounds every interval as long as the window, for all readings that never go back, if and only if the limit is one or the window a single tick |
| `RateLimiter.AdmissionsOverSpan` | crates/lenso-service-account-postgres-plugin/src/storage.rs:634-698 | With readings in any order within a span D, at most max*(1+floor(D/window)) admissions |
| `Workers.EveryRun` | crates/lenso-service-account-postgres-plugin/src/authentication.rs:62-281 | The invariant of workers, command rows, rate slots, calls and receipts holds in every reachable state, with crashes between any two steps and prunes at any time |
| `Workers.StepKeeps` | crates/lenso-service-account-postgres-plugin/src/authentication.rs:62-281 | Every protocol step keeps that invariant |
| `Decisions.ErrorIffDue` | crates/lenso-service-account-postgres-plugin/src/authentication.rs:85-241 | A worker goes on to record an error exactly when its step makes it due: every error of create, rotate, revoke and exchange as a condition on the request, the tables and the earlier calls |
| `Decisions.CreateDecides` | crates/lenso-service-account-postgres-plugin/src/management.rs:145-223 | Full organization, taken subject, taken name ignoring case, or the new account with its secret, in that order |
| `Decisions.RotateDecides` | crates/lenso-service-account-postgres-plugin/src/management.rs:410-482 | Not found, revoked, revision conflict, a failure of the CHECK or of a key, or the rotated account with its secret, in that order |
| `Decisions.RevokeDecides` | crates/lenso-service-account-postgres-plugin/src/management.rs:548-605 | Not found, revision conflict, or the account, marked revoked exactly if it was active, never with a secret |
| `Decisions.SlotDecides` | crates/lenso-service-account-postgres-plugin/src/authentication.rs:85-101 | Rate limited exactly when, by the caller's earlier calls, a lockout is running or the window is used up |
| `Decisions.VerifyDecides` | crates/lenso-service-account-postgres-plugin/src/authentication.rs:103-133 | The secret passes exactly when the credential it names is stored with its verifier, in force, and of an active account |
| `Decisions.AskDecides` | crates/lenso-service-account-postgres-plugin/src/authentication.rs:135-165 | Only a directory that says active lets the exchange go on |
| `Decisions.MarkDecides` | crates/lenso-service-account-postgres-plugin/src/storage.rs:559-606 | The exchange is admitted exactly when the account is active and the credential still in force at the second reading |
| `Decisions.CallDecides` | crates/lenso-service-account-postgres-plugin/src/authentication.rs:186-201 | The call asks for the token lifetime cut at the credential's end, and is not made once that has passed |
| `Decisions.HearDecides` | crates/lenso-service-account-postgres-plugin/src/authentication.rs:224-263 | A session is accepted exactly within its bounds, and carries the issuer's id, token and expiry and the admitted account, organization and subject |
| `Decisions.RecordIs` | crates/lenso-service-account-postgres-plugin/src/storage.rs:182-206 | A recorded error is stored with its code and time, and answered |
| `Decisions.SessionIs` | crates/lenso-service-account-postgres-plugin/src/storage.rs:208-235 | An accepted session is stored as its receipt with its time, and answered |
| `Decisions.ChangeCompletes` | crates/lenso-service-account-postgres-plugin/src/storage.rs:335-356 | A committed change stores a receipt of the very row and flag answered, without the secret, at the transaction's time |
| `Decisions.PruneRemoves` | crates/lenso-service-account-postgres-plugin/src/storage.rs:83-95 | A prune removes exactly the commands completed before its cutoff, with success or with an error |
| `Answers.EveryErrorWasDue` | crates/lenso-service-account-postgres-plugin/src/authentication.rs:316-325 | Every domain error ever answered was due in an earlier step for the very same request, its own or the one it replays |
| `Answers.EveryCallIsAuthentic` | crates/lenso-service-account-postgres-plugin/src/authentication.rs:103-201 | Every issuer call was made for a request whose secret an effective creation or rotation of the admitted account had stored before |
| `Answers.UnknownSecretsReachNobody` | crates/lenso-service-account-postgres-plugin/src/authentication.rs:103-133 | A secret that no commit of the run stored never reaches the issuer |
| `Answers.EveryCallWasActive` | crates/lenso-service-account-postgres-plugin/src/authentication.rs:135-165 | The issuer is only called for a request whose subject the directory has called active |
| `Answers.EverySessionWasSaid` | crates/lenso-service-account-postgres-plugin/src/authentication.rs:246-263 | Every accepted session is word for word an answer the issuer gave to its call |
| `Answers.EverySessionIsAuthentic` | crates/lenso-service-account-postgres-plugin/src/authentication.rs:283-297 | An accepted session was earned with a stored secret and names its active account, with the organization and subject of its creation |
| `Issuance.EveryCallIsPaidFor` | crates/lenso-service-account-postgres-plugin/src/authentication.rs:85-220 | Each issuer call has one claim, then one rate slot of the same caller, then one admission under the same key, in that order |
| `Issuance.AtMostOnceIssuance` | crates/lenso-service-account-postgres-plugin/src/authentication.rs:168-232 | Two issuer calls never share a claim or a rate slot; two calls for one key are separated by a prune of its completed row |
| `Issuance.ReclaimedOnlyAfterPrune` | crates/lenso-service-account-postgres-plugin/src/storage.rs:83-132 | A key is claimed again only after a prune has removed its completed row |
| `Issuance.OrphansStay` | crates/lenso-service-account-postgres-plugin/src/authentication.rs:224-245 | In every reachable state an open row that no worker is busy with stays as it is in every continuation, no call is ever made for its key, and requests under it are told in progress or conflict |
| `Issuance.NeverIssuedAgain` | crates/lenso-service-account-postgres-plugin/src/authentication.rs:168-279 | That is what follows whenever a step ends a worker's part with its command still open, from any stage, a worker about to record a refusal included |
| `Issuance.StoppingLoses` | crates/lenso-service-account-postgres-plugin/src/authentication.rs:85-279 | A crash or a failed call of a busy worker is always such a step |
| `Issuance.UnclearAnswersLose` | crates/lenso-service-account-postgres-plugin/src/authentication.rs:224-257 | So is an issuer answer that is neither a refusal nor an acceptable session |
| `Issuance.SessionLifetime` | crates/lenso-service-account-postgres-plugin/src/authentication.rs:186-257 | An accepted session expires within the token lifetime of the reading before the call, its credential's validity and lifetime, and the overlap after its credential was superseded |
| `Issuance.SessionAfterChange` | crates/lenso-service-account-postgres-plugin/src/storage.rs:398-508 | A rotation or revocation that committed before the admission bounds or forbids the session |
| `Issuance.GrantsAreAdmissions` | crates/lenso-service-account-postgres-plugin/src/storage.rs:621-699 | Slots granted along any history are exactly the admissions of the limiter on that caller's readings |
| `Issuance.CallsPerWindow` | crates/lenso-service-account-postgres-plugin/src/lib.rs:161-163 | With readings that never go back, the issuer is called for a caller at most 2*max-1 times per window length |
| `Issuance.CallsPerSpan` | crates/lenso-service-account-postgres-plugin/src/lib.rs:161-163 | With readings in any order within a span D, at most max*(1+floor(D/window)) calls |
| `Receipts.OwnersComplete` | crates/lenso-service-account-postgres-plugin/src/storage.rs:154-206 | A busy worker's completion, of any kind, never finds its row missing or closed |
| `Receipts.ReplayAgrees` | crates/lenso-service-account-postgres-plugin/src/management.rs:78-104 | A stored receipt always opens, a stored code always decodes; a replay returns the row committed after this claim, flag false, no secret; another intent conflicts |
| `Receipts.AnswersStay` | crates/lenso-service-account-postgres-plugin/src/storage.rs:134-152 | Until its receipt is pruned, every replay of a completed command is answered the same |
| `Receipts.ReceiptIffCommit` | crates/lenso-service-account-postgres-plugin/src/storage.rs:335-356 | A create, rotate or revoke command becomes completed with success in exactly the step that commits its change |
| `Receipts.OneCommitPerRow` | crates/lenso-service-account-postgres-plugin/src/storage.rs:154-180 | A second commit under a key comes only after a prune of the first receipt |
| `Receipts.EveryReplyIsBacked` | crates/lenso-service-account-postgres-plugin/src/management.rs:164-222 | Every answer sent is backed by a commit for its key, by an accepted call for its key, or by an error code the operation declares |
| `Receipts.SecretsAppearOnce` | crates/lenso-service-account-postgres-plugin/src/management.rs:144-222 | A generated secret is in at most one answer of the whole run and in no receipt |
| `Receipts.DisclosedSecretAuthenticates` | crates/lenso-service-account-postgres-plugin/src/authentication.rs:103-133 | A disclosed secret authenticates, at any later point, exactly while its account is active and its credential is live; that no other secret does, `Decisions.VerifyDecides` says |
| `Workers.CodesDecode` | crates/lenso-service-account-postgres-plugin/src/management.rs:836-866 | Every error code a mutation records is accepted by that operation's decoder |
| `Services.Service.ExchangeSecret` | crates/lenso-service-account-postgres-plugin/src/authentication.rs:25-281 | Guards in order; then prune, claim, and only the worker's own protocol steps on the given clock readings and answers, to the end, with one answer sent; every state on the way is one the protocol reaches |
| `Services.Service.Receive` | crates/lenso-service-account-postgres-plugin/src/authentication.rs:207-279 | An issuer answer is accepted exactly within its bounds; refusal is recorded, anything unclear leaves the row `issuing` |
| `Services.Service.Create` | crates/lenso-service-account-postgres-plugin/src/management.rs:31-224 | Validation, then the authorization decision with each of its refusals told apart, then prune, claim, directory, transaction and receipt as the worker's own protocol steps to the end, with one answer sent; a new account is answered as requested and generated, field by field, with the generated secret |
| `Services.Service.Rotate` | crates/lenso-service-account-postgres-plugin/src/management.rs:340-483 | Validation and authorization in order, each refusal told apart, then the rotate request served by its own protocol steps to the end, with one answer sent; a rotated account is answered with its reading, the next revision and the generated secret |
| `Services.Service.Revoke` | crates/lenso-service-account-postgres-plugin/src/management.rs:486-606 | Validation and authorization in order, each refusal told apart, then the revoke request served by its own protocol steps to the end, with one answer sent; a revoked account is answered with its reading and the next revision, without a secret |
| `Services.Service.AnswerOutcome` | crates/lenso-service-account-postgres-plugin/src/management.rs:184-217 | From each operation's transaction outcome to the error it records and answers or the account it answers, the secret only on a committed create or rotate; which tables lead where, `Decisions` says |
| `Services.ServingIsDetermined` | crates/lenso-service-account-postgres-plugin/src/authentication.rs:25-281 | Two ways of serving a request from one state on the same readings and answers are the same step by step, so its answer is determined by the protocol |
| `Services.DecodesAsAnswered` | crates/lenso-service-account-postgres-plugin/src/management.rs:87-104 | What a request reads off a claimed key is what the protocol answers |
| `Pagination.KeysetTraversal` | crates/lenso-service-account-postgres-plugin/src/management.rs:314-335 | Following cursors while accounts are created: ids strictly increase, every account present at the start appears, and at most ceil(max accounts / limit) pages |
| `Pagination.TraversalIsComplete` | crates/lenso-service-account-postgres-plugin/src/storage.rs:253-270 | For any growing sequence of id sets, a complete traversal is increasing, without duplicates, and contains every id present at the start |
| `Pagination.TraversalIsShort` | crates/lenso-service-account-postgres-plugin/src/storage.rs:253-270 | All pages but the last are full, so the pages before the last hold fewer ids than the cap allows |
| `Secrets.SecretRoundTrip` | crates/lenso-service-account-postgres-plugin/src/crypto.rs:83-97 | The parser returns exactly the generated credential id for all 18-byte ids and 32-byte materials |
| `Secrets.EncodedReadsBack` | crates/lenso-service-account-postgres-plugin/src/crypto.rs:88-92 | Unpadded base64url (section 5 of RFC 4648) decodes to the encoded bytes, with its exact length and alphabet |
| `Secrets.KnownEncodings` | crates/lenso-service-account-postgres-plugin/src/crypto.rs:88-92 | The test vectors of section 10 of RFC 4648, unpadded |
| `Secrets.AcceptedSecrets` | crates/lenso-service-account-postgres-plugin/src/crypto.rs:118-131 | Accepted strings are exactly prefix, id, dot, material within alphabet and length, with that id, and at most 266 characters |
| `Secrets.SecretsSplitUniquely` | crates/lenso-service-account-postgres-plugin/src/crypto.rs:118-131 | An accepted string is cut in one way only |
| `Secrets.WireIsInjective` | crates/lenso-service-account-postgres-plugin/src/crypto.rs:83-97 | Different random bytes print different secrets |
| `Tokens.RevisionTokens` | crates/lenso-service-account-postgres-plugin/src/management.rs:719-724 | The accepted revision tokens are exactly the printed positive i64 values, each read back as itself |
| `Tokens.PageLimitTokens` | crates/lenso-service-account-postgres-plugin/src/management.rs:726-731 | The accepted page limits are exactly the printed numbers in 1..max, over u32, each read back as itself |
| `Tokens.ReceiptAadIsInjective` | crates/lenso-service-account-postgres-plugin/src/management.rs:756-758 | Equal associated data of valid callers means equal caller, operation and key |
| `Tokens.ReceiptOpensOnlyForItsCommand` | crates/lenso-service-account-postgres-plugin/src/management.rs:756-758 | Under an ideal AEAD a receipt opens for its own command and no other |
| `Tokens.CallersAreNulFree` | crates/lenso-service-account-postgres-plugin/src/lib.rs:436-449 | No valid caller contains the separator of the associated data |
| `Tokens.CallersAreTokens` | crates/lenso-service-account-postgres-plugin/src/lib.rs:444-449 | A valid caller is one token, or two joined by a slash, of 128 characters in all |
| `Tokens.NamesArePrintable` | crates/lenso-service-account-postgres-plugin/src/management.rs:710-717 | A valid name is, once trimmed, one to 128 printable ASCII characters |
| `Text.LowerIgnoresCase` | crates/lenso-service-account-postgres-plugin/src/management.rs:146 | Names have the same key exactly when they differ in ASCII case only |
| `Text.TrimSplits` | crates/lenso-service-account-postgres-plugin/src/management.rs:145 | Trimming takes whitespace off both ends, all of it, and nothing else |
| `Text.LessIsFirstDifference` | crates/lenso-service-account-postgres-plugin/src/storage.rs:258 | The order of ids is that of the first character in which they differ |
| `Tokens.LimitsCountBytes` | crates/lenso-service-account-postgres-plugin/src/management.rs:702-717 | The validators' limits count UTF-8 bytes, and on the text they accept that is characters |
| `Tokens.ValidRequestsMeetTheChecks` | crates/lenso-service-account-postgres-plugin/src/management.rs:702-717 | A creation that passed the validators meets every CHECK of its account row |
| `JsonSchema.NormalizeSchema` | crates/lenso-capability-service-account/build.rs:48-80 | The recursion over objects and arrays, with its loops and removals, computes the normal form |
| `JsonSchema.NormalizeMembers` | crates/lenso-capability-service-account/build.rs:51-53 | The loop over an object's members normalises each of them |
| `JsonSchema.NormalizeItems` | crates/lenso-capability-service-account/build.rs:73-77 | The loop over an array normalises each item in place |
| `JsonSchema.NormalizeIsIdempotent` | crates/lenso-capability-service-account/build.rs:48-80 | Normalising twice is normalising once on every JSON value, and a value is left alone exactly when no rewrite applies anywhere in it |
| `JsonSchema.Normalised` | crates/lenso-capability-service-account/build.rs:48-80 | Exactly what a normalised schema object accepts, whatever its own literals and names: the same rest, the normalised literals, and members under lost names must also pass as additional properties |
| `JsonSchema.DocumentMeaningStays` | crates/lenso-capability-service-account/build.rs:48-80 | A document with settled literals, no property name lost to restricted additional properties and no reference to a lost definition accepts exactly the same instances after normalising, `$ref`, `oneOf` and nested schemas included |
| `JsonSchema.OrdinaryDocumentsKeepMeaning` | crates/lenso-capability-service-account/build.rs:48-80 | In particular every document whose literals are scalars and whose name maps declare nothing called `properties` |
| `JsonSchema.EnumStaysIffExcluded` | crates/lenso-capability-service-account/build.rs:50-72 | An `enum` schema, whatever else it asks, means the same after normalising if and only if its rest rejects every unsettled literal and what that becomes |
| `JsonSchema.EnumerationStaysIffSettled` | crates/lenso-capability-service-account/build.rs:50-72 | A bare `enum` schema means the same after normalising if and only if each literal was settled |
| `JsonSchema.ConstStaysIffExcluded` | crates/lenso-capability-service-account/build.rs:50-72 | A `const` schema, whatever else it asks, means the same after normalising if and only if its value is settled or its rest rejects the value and what it becomes |
| `JsonSchema.ConstantStaysIffSettled` | crates/lenso-capability-service-account/build.rs:50-72 | A bare `const` schema means the same after normalising if and only if its value was settled |
| `JsonSchema.PropertiesStayIffLostAllowed` | crates/lenso-capability-service-account/build.rs:54-71 | For any schema object with settled literals, whatever else it asks: what decides is whether the objects it accepts pass with the members under lost names as additional properties |
| `JsonSchema.RewrittenNamesStayIffUnrestricted` | crates/lenso-capability-service-account/build.rs:54-71 | For `properties` and `additionalProperties` alone, with a map of names the rewrite applies to: if and only if additional properties are unrestricted |
| `JsonSchema.ReferenceStaysIffNotLost` | crates/lenso-capability-service-account/build.rs:54-71 | A document that is a reference into its definitions, none of which refers to a lost one, means the same after normalising if and only if the definition it names is not lost |
| `JsonSchema.LostReferenceFails` | crates/lenso-capability-service-account/build.rs:54-71 | A reference to a lost definition accepts everything before normalising and nothing after |
| `JsonSchema.EnumChanges` | crates/lenso-capability-service-account/build.rs:50-72 | A concrete `enum` schema that accepts other instances after normalising |
| `JsonSchema.ConstChanges` | crates/lenso-capability-service-account/build.rs:50-72 | A concrete `const` schema that accepts other instances after normalising |
| `JsonSchema.PropertyChanges` | crates/lenso-capability-service-account/build.rs:54-62 | A concrete closed object with a property named `properties` that accepts other instances after normalising |
| `JsonSchema.DefinitionChanges` | crates/lenso-capability-service-account/build.rs:54-62 | A concrete document with a definition named `properties` whose reference accepts everything before normalising and nothing after |

## Left out

- `updated_at` columns: never read by the code that is modelled.
- Hashing, encryption and randomness: an ideal AEAD bound to its associated data, a collision-free intent hash (the intent itself is stored), a verifier that matches its own secret only, and secrets that are generated once; nonces, ciphertext bytes and the pepper do not appear.
- Services.Service.Create: the authorization decision is an input; fresh identifiers and secrets are inputs, and freshness of a secret is a precondition standing for randomness; the same for Services.Service.Rotate.
- The size CHECK on a stored ciphertext (262144 bytes): an issuer token made of characters that JSON escapes could exceed it, and completion would then fail with the row left `issuing`. The protocol covers that as a worker giving up (`GiveUp`), but the size itself is not computed.
- Receipts.OwnersComplete: speaks of the row's status and ownership; the size CHECK and database failures are outside it.
- Stores.Store.CreateAccount: sees no other transaction between its statements; interference is the subject of Interleaving.Serializable and Refinement.InterleavedRunsAreProtocolRuns. The same holds of the other methods of Stores.Store.
- Services.Service.ExchangeSecret: runs a request to its end without other requests in between and without database failures; crashes, failures and interleaving are steps of the protocol. The issuer's `claims` map and actor fields are not modelled. Services.Service.List and the store's reads see one snapshot. The same holds of Services.Service.Create, Services.Service.Rotate and Services.Service.Revoke.
- Interleaving.NoWaitCycle: the many-row delete of `prune` takes its row locks in no stated order and is a single action here; so is the limiter's transaction, which locks one row and nothing else. Collisions of the advisory lock's hash are not modelled: two organizations never share a lock.
- Tables.NewestExpiry: creation times are transaction start times, which can differ from commit order; the row is newest as the query orders rows, no more is claimed.
- Authorization, the identity directory and the credential issuer: arbitrary answers.
- Calendar overflow, RFC 3339 text and truncation of timestamps below a clock tick: times are integer ticks, `Limits.ticksPerSecond` of them to the second.
- Text comparison: ids are ordered by character code and `lower` is ASCII lowercasing, which is exact for the validated alphabets.
- Text.LowerIgnoresCase: about `to_ascii_lowercase` and PostgreSQL's `lower` on ASCII text, the only text the validators let into a name.
- Tokens.ValidRequestsMeetTheChecks: about the accounts table; the other tables' length CHECKs are either part of `CredentialCheck` or follow from the validators.
- JsonSchema.NormalizeSchema: returns the rewritten value instead of writing through a mutable reference, and objects have no member order.
- JsonSchema.DocumentMeaningStays: one direction for whole documents, where a rewritten literal or name may sit in a place that decides nothing (an unreachable definition, a branch that never accepts). For a single schema object the condition is exact, by JsonSchema.Normalised and the four if-and-only-if lemmas. Vocabulary beyond the keywords listed at `Accepts` is an annotation, and references are followed up to an arbitrary number of hops.
- `get`, configuration checks other than the numeric limits, activation, the operator commands and generated code: one-branch facts or plumbing.
