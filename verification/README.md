# SuperWallet: a verified model

A Dafny model of the parts of the wallet backend where mistakes cost money, mail
or sessions, with proofs of what every run of them keeps.

| files | what they model |
|---|---|
| `Wrappers`, `Totals`, `Ledger`, `LedgerMeaning`, `LedgerInvariants` | the fiat ledger as one atomic machine (`Serve`), what each request does written out on the rows, and what every serial run keeps (`Valid`, `Extends`) |
| `FiatService` | the wallet, deposit, withdrawal and transfer services, statement by statement on mutable tables, with BEGIN and ROLLBACK, each proved equal to `Serve` |
| `Concurrent`, `ConcurrentInvariant`, `ConcurrentSteps`, `ConcurrentTheorems`, `ConcurrentRace` | any number of those requests interleaved step by step over shared tables, with row locks, in-flight keys, private write sets, commits and aborts anywhere |
| `Outbox`, `OutboxMeaning`, `OutboxWorkers`, `OutboxLoneWorker` | the transactional outbox: the worker's loop on a mutable table, runs of one worker, any number of workers with SKIP LOCKED and rollbacks, and the link between the two |
| `Auth`, `AuthMeaning`, `AuthService`, `AuthRuns`, `AuthRoundTrips` | login, refresh, logout, revocation, password reset and deactivation: the use cases statement by statement, the atomic specification (`Perform`), what every serial run keeps, and what one use case makes of another's token or password |
| `Base64Url`, `Tokens` | unpadded base64url (section 5 of RFC 4648, padding per section 3.2) with the library's lenient decoder, and the signed tokens built on it |

Each stateful part has two forms: a class whose methods update the tables the
way the code does, and a function that says what the whole operation does. The
methods are proved equal to the function; the invariants, safety and liveness
results are proved about the function and about runs of it. The `*Meaning`
modules say what the function itself has to be, in the literal names and numbers
of the code: when each operation succeeds, which error it gives otherwise, and
every row it changes.

## How the database is modelled

PostgreSQL at READ COMMITTED, one connection per request:

- `SELECT .. FOR UPDATE` takes its rows one at a time in ascending id, waits
  while another transaction holds the row, and then reads the newest committed
  version. Which rows it looks for is fixed when the statement is issued.
- An INSERT of an idempotency key waits while another transaction holds an
  uncommitted row with that key; it returns no row if that transaction commits
  and proceeds if it rolls back.
- `FOR UPDATE SKIP LOCKED` takes its rows one after another while other workers
  lock and release. A claim may therefore end with any pending rows that nobody
  else holds; with no other worker it is exactly the oldest ones.
- Writes are private until COMMIT publishes them all at once and releases every
  lock. A transaction may abort at any point before that.
- A value that does not fit its BIGINT column, a duplicate primary key and a
  duplicate UNIQUE value are errors that leave the block.
- An exception that leaves a transaction block undoes every write of the block,
  including writes made just before a `raise`.

Random values are inputs: a request is named by the UUID its INSERT would draw,
and a new refresh or reset token is represented by the digest the tables store.
A clock reading is an input too (one per use case). Argon2 is an ideal hash, a
TOTP code comes with its verdict, and the token hash, JSON text and UUID text
are functions; where a result needs it, reading back the one body or id in
question is asked of them, and nothing else.
Requests carry a positive amount, as the request schemas demand.

## Where the code and its documentation disagree

The model follows the code.

- Idempotent retries. A retry that races with the original can be refused:
  the funds and ownership checks come before the key insert
  (`app/fiat/service.py:225`, `app/fiat/service.py:313`). `ConcurrentRace.ARaceExists` derives
  such a race step by step. `ConcurrentTheorems.RetryRefusedIff` says exactly when it
  happens, and `ConcurrentTheorems.RacingCopyRefusedIff` that for a copy of a committed request it
  happens only when the payer can no longer fund it, so never to a deposit. A
  retry that starts after the commit always gets the record
  (`ConcurrentTheorems.LateRetryGetsTheRecord`).
- Reuse detection. `README.md:123` of the repository says that a rotated refresh token
  presented again revokes every session of its user. The revocation is written
  (`AuthService.Connection.HandlePossibleReuse`) and then rolled back by the
  raise at `app/users/services/auth.py:252`: `AuthRuns.ReuseRevokesIff` says when the
  documented effect holds, `AuthRuns.ReuseLeavesSessionLive` is a run in which it does not.
- Account lockout. `README.md:120` of the repository promises lockout after repeated failures. The
  counter written at `app/users/services/auth.py:153` is rolled back by the
  raise on the next line: `AuthRuns.NobodyIsEverLocked` shows that it stays 0 in every run.
- `verify_token` documents that it never raises. Its signature is decoded
  outside the `try` (`app/core/security.py:64`): `Tokens.RaisesExactlyWhen` gives the exact
  condition and `Tokens.CutSignatureRaises` a family of tokens on which it raises
  whatever the key.
- The user SELECTs (`app/users/repository.py:68`) do not return `is_active`,
  which the record requires. The model takes it from the WHERE clause: true.

## Model

| member | source | states |
|---|---|---|
| ConcurrentTheorems.Serializable | app/fiat/service.py:144-369 | in every reachable state of every interleaving, with aborts anywhere, the n-th committed state is the first n committed requests run alone in commit order; it is a valid ledger and later states only extend it |
| ConcurrentTheorems.LedgerExplainsEverything | app/fiat/repository.py:246-252 | in every committed state of every interleaving each balance is the sum of its entries and fits its column, money per currency is deposits less withdrawals, each transaction has exactly its entries |
| ConcurrentTheorems.OnlyTheOwnerLoses | app/fiat/service.py:222-223 | between consecutive committed states of any interleaving a balance falls only by a withdrawal or transfer of the wallet's own owner, and by exactly its amount |
| ConcurrentTheorems.LockedRowsAreCommitted | app/fiat/repository.py:106-123 | no lost update: a row read under lock is the newest committed row, and nobody else's, until the reader's transaction ends |
| ConcurrentTheorems.AnswerIsReply | app/fiat/service.py:152-172 | every answer is a function of the state its unlocked check read and the state it is dated to, both within the request's lifetime; if the atomic ledger would act on it there, that is where it committed; the fallback never returns None |
| ConcurrentTheorems.AnswersAreAtomic | app/fiat/service.py:216-240 | the answer is the atomic ledger's, on the state it is dated to, except exactly when a rival with the key (or the same user and currency) committed after the unlocked check and the request's own checks fail on what it left |
| ConcurrentTheorems.RetryRefusedIff | app/fiat/service.py:216-240 | with its key committed by then, a movement is refused if and only if its unlocked check missed the key and its checks fail on the rows of that state (or its amount is out of range); otherwise it gets the record |
| ConcurrentTheorems.RacingCopyRefusedIff | app/fiat/service.py:288-333 | a copy of a committed request, answered when its key is known, is refused if and only if its unlocked check missed the key and its payer's balance is too small, and then for insufficient funds; a copy of a deposit always gets the record |
| ConcurrentTheorems.OneCommitPerKey | app/fiat/repository.py:155-173 | over every interleaving at most one commit carries an idempotency key |
| ConcurrentTheorems.SameKeySameRecord | app/fiat/service.py:216-240 | all requests with one key that get a record get the same record |
| ConcurrentTheorems.LateRetryGetsTheRecord | app/fiat/service.py:152-154 | a request that starts after its key was committed, if it finishes, is answered with that record whatever its parameters |
| ConcurrentTheorems.FailureLeavesNoTrace | app/fiat/service.py:292-369 | a refused, aborted or unfinished request has committed nothing and inserted no row |
| ConcurrentTheorems.NoDeadlock | app/fiat/repository.py:113-123 | the waits-for graph over rows and in-flight keys has no cycle in any reachable state |
| ConcurrentTheorems.SomeoneCanAdvance | app/fiat/service.py:293-333 | while any request is unfinished some request can take its next step |
| ConcurrentTheorems.EveryRunFinishes | app/fiat/service.py:144-369 | without new arrivals a run has at most a fixed number of steps, and one that cannot continue has finished every request |
| ConcurrentTheorems.RunsAreShort | app/fiat/service.py:144-369 | each step uses up at least one unit of the remaining work, whatever the schedule |
| ConcurrentSteps.ReachableInv | app/fiat/service.py:144-369 | the inductive invariant: history replays the commits, every answer is justified, locked reads are fresh, locks are disjoint, every id belongs to its inserter |
| ConcurrentSteps.OverwriteRecords | app/fiat/service.py:174-194 | the private write set that COMMIT publishes, made from absolute balances computed under lock, is what the atomic ledger records on the newest state |
| ConcurrentTheorems.RefetchFindsTheRow | app/fiat/service.py:170-172 | in every reachable state, the lookup after an insert that returned no row finds a committed row with the key, and the request answers with it |
| ConcurrentRace.RacingRetryIsRefused | app/fiat/service.py:216-240 | from any reachable quiet state, a wallet that covers a withdrawal once but not twice lets a racing retry be refused after its twin committed |
| ConcurrentRace.ARaceExists | app/fiat/service.py:225-228 | a concrete such race from empty tables |
| ConcurrentRace.Commits | app/fiat/service.py:156-196 | a deposit or withdrawal past its unlocked check, left alone, commits exactly its row, entry, balance and audit row |
| LedgerMeaning.WalletOpensIff | app/fiat/service.py:102-122 | a wallet is opened exactly when the user has none in that currency and the id is unused; it starts at 0 with one audit row; otherwise nothing changes |
| LedgerMeaning.DepositRecordedIff | app/fiat/service.py:156-172 | under a new key a deposit is recorded exactly when its user holds the wallet and the amount and new balance fit a BIGINT, and is "not found" exactly when the user does not hold it |
| LedgerMeaning.DepositRecords | app/fiat/service.py:174-196 | every row a recorded deposit leaves, and that no other row changes |
| LedgerMeaning.WithdrawalRecordedIff | app/fiat/service.py:220-240 | under a new key a withdrawal is recorded exactly when its user holds the wallet and the balance covers it; each refusal has its one reason and the wallet's figures |
| LedgerMeaning.WithdrawalRecords | app/fiat/service.py:242-264 | every row a recorded withdrawal leaves, and that no other row changes |
| LedgerMeaning.TransferRecordedIff | app/fiat/service.py:285-333 | under a new key a transfer is recorded exactly when its user holds the sender, the receiver is another open wallet of the same currency, the sender covers it and the receiver fits; each refusal has its one reason |
| LedgerMeaning.TransferRefusalTells | app/fiat/service.py:310-316 | a refused transfer reports the sender's balance, or both currencies in order |
| LedgerMeaning.TransferRecords | app/fiat/service.py:318-369 | every row a recorded transfer leaves, and that no other row changes |
| LedgerMeaning.KnownKeyReplays | app/fiat/service.py:288-290 | a known key gives the stored row back, whatever the parameters, and changes nothing |
| LedgerMeaning.OnlyTheOwnerMoves | app/fiat/service.py:306-308 | a movement with an effect names a wallet its user holds: the one paid into, drawn from or sent from |
| LedgerMeaning.OnlyTheOwnerPays | app/fiat/service.py:306-316 | a balance falls only by its owner's withdrawal or transfer from it, by exactly the amount |
| LedgerInvariants.ServeKeepsValid | app/fiat/service.py:102-369 | every request keeps the ledger valid and append-only |
| LedgerInvariants.RunKeepsValid | app/fiat/service.py:102-369 | the same over every serial run |
| LedgerInvariants.AllOrNothing | app/fiat/service.py:156-196 | a refusal leaves all tables unchanged; a record is either the old row with no effect or one new row with the request's key |
| LedgerInvariants.RecordMovesExactly | app/fiat/service.py:318-352 | a new record changes the touched wallets by exactly the requested amounts and no other wallet |
| LedgerInvariants.RecordConserved | app/fiat/service.py:335-352 | a new record keeps total balance per currency equal to deposits less withdrawals |
| LedgerInvariants.RecordAudited | app/core/audit.py:17-27 | movement audit rows keep matching transactions one to one, in order, with amount, currency and key |
| LedgerInvariants.RecordDomestic | app/fiat/service.py:310-311 | every transfer stays between two wallets of the transaction's currency |
| LedgerInvariants.LastEntryIsBalance | app/fiat/service.py:174-181 | the balance_after of a wallet's last entry is its balance |
| LedgerInvariants.BalancesChain | app/fiat/service.py:242-249 | consecutive entries of a wallet chain: balance_after is the previous one plus the amount |
| LedgerInvariants.TransactionHasItsEntries | app/fiat/service.py:336-352 | a deposit has one credit, a withdrawal one debit, a transfer one debit and one credit of equal size, and the direction matches the sign |
| LedgerInvariants.NoStrayEntries | app/fiat/repository.py:221-244 | no entry belongs to a transaction that does not exist |
| LedgerInvariants.RetryIsInvisible | app/fiat/service.py:216-218 | a repeat of a recorded request inserted anywhere later in a serial run returns the original record and changes neither the tables nor anything after it |
| LedgerInvariants.LookupStableOverRun | app/fiat/repository.py:175-181 | the record of a key never changes over any run |
| Ledger.Lookup | app/fiat/repository.py:175-181 | finds a row with the key exactly when there is one |
| FiatService.Connection.CreateWallet | app/fiat/service.py:102-122 | the statements, with their rollbacks, have exactly the atomic effect and answer |
| FiatService.Connection.Deposit | app/fiat/service.py:144-196 | same, for all inputs and every exit point |
| FiatService.Connection.Withdraw | app/fiat/service.py:209-264 | same |
| FiatService.Connection.Transfer | app/fiat/service.py:277-369 | same, including the overflow of the receiver after the sender was debited |
| FiatService.Connection.CreateTransaction | app/fiat/repository.py:147-173 | inserts the row, or returns None on a known key, or raises |
| FiatService.Connection.UpdateBalance | app/fiat/repository.py:125-137 | overwrites one balance, or raises when it does not fit |
| FiatService.Connection.GetAndLockMultiple | app/fiat/repository.py:113-123 | returns exactly the existing rows among those asked for |
| FiatService.Connection.LogAuditEvent | app/core/audit.py:17-27 | appends one audit row |
| FiatService.Connection.CreateEntry | app/fiat/repository.py:221-244 | appends one entry |
| Outbox.Repository.PollOnce | app/notifications/worker.py:45-50 | the batch loop changes exactly the 50 oldest pending rows, each by one pass, and calls the handler once for each of them that has one, oldest first |
| Outbox.Repository.ProcessOne | app/notifications/worker.py:20-36 | one pass over one row: done, failed, or pending with one more attempt, and at most one handler call |
| Outbox.Repository.Enqueue | app/core/outbox.py:27-44 | appends a pending row with no attempts |
| Outbox.Repository.FetchPending | app/core/outbox.py:46-73 | the returned records tell of pending rows, oldest first, at most the limit, and a pending row is left out only when the limit is filled by older ones |
| Outbox.Repository.MarkDone | app/core/outbox.py:75-79 | changes the status of one row |
| Outbox.Repository.MarkFailed | app/core/outbox.py:81-91 | changes status, error and attempts of one row |
| Outbox.Repository.ResetToPending | app/core/outbox.py:93-103 | changes status and attempts of one row |
| OutboxMeaning.PollMeans | app/notifications/worker.py:12-36 | a poll calls the handler for exactly the emails among the 50 oldest pending rows, each once, oldest first; a sent one is done, a raising one is retried until its fifth attempt fails, any other kind fails at once with "no_handler"; every other row is unchanged |
| OutboxMeaning.OnlyMailIsSent | app/notifications/worker.py:12-25 | whatever the workers do, every logged handler call is for a row of kind "email" |
| OutboxMeaning.RowTellsItsHistory | app/notifications/worker.py:20-36 | a committed done row is an email that was sent after at most 4 attempts; a failed email has 5 attempts and at least 5 calls that raised; any other failed row has 1 attempt and no call |
| Outbox.FetchedIds | app/core/outbox.py:46-63 | the query returns exactly the oldest pending rows up to the limit, in order |
| Outbox.ProcessedLegal | app/notifications/worker.py:20-36 | a pass keeps the retry limits (pending and done at most 4 attempts, failed exactly 5 with a handler and 1 without) and brings the row strictly nearer its end |
| Outbox.Absorbing | app/core/outbox.py:75-91 | over any run done and failed rows never change and every row obeys the retry limits |
| Outbox.PollDrains | app/notifications/worker.py:44-50 | a poll lowers the sum of remaining attempts, over any prefix of the table, by at least the rows it fetches there |
| Outbox.FirstFetch | app/core/outbox.py:53-63 | with k older pending rows an event is first fetched by poll k/10 + 1, whatever arrives later |
| Outbox.KeepsBeingFetched | app/notifications/worker.py:31-36 | once fetched, an event is fetched in every poll until it is done or failed |
| Outbox.NoStarvation | app/notifications/worker.py:44-50 | with k older pending rows an event is done or failed by poll k/10 + 5, whatever the handler does |
| Outbox.BacklogEmpties | app/notifications/worker.py:44-50 | without arrivals nothing is pending after as many polls as the remaining attempts |
| OutboxWorkers.WorkersNeverShare | app/core/outbox.py:46-63 | with any number of workers and any interleaving, no event is in two open transactions |
| OutboxWorkers.DoneWasSent | app/notifications/worker.py:27-36 | a committed done row was sent; attempts never exceed the handler calls that raised; every row obeys the retry limits |
| OutboxWorkers.FinishedIsForever | app/core/outbox.py:75-91 | no worker ever changes a done or failed row |
| OutboxWorkers.RollbackForgetsRowsOnly | app/notifications/worker.py:45-50 | from claim to crash the claimed rows keep their status and attempts, whatever others do, while the calls made stay made |
| OutboxWorkers.CommitDrains | app/notifications/worker.py:45-50 | every committed batch lowers the sum of remaining attempts by at least one per event in it |
| OutboxLoneWorker.LoneClaim | app/core/outbox.py:53-63 | with no other transaction and no ties the SKIP LOCKED query has one answer, the oldest pending rows |
| OutboxLoneWorker.LoneTurnIsPoll | app/notifications/worker.py:44-50 | a lone worker's claim, handler steps and commit together are exactly one poll, with the same handler calls |
| AuthService.Connection.Register | app/users/services/auth.py:35-112 | the statements, with their rollbacks, have exactly the effect and result of `Perform` |
| AuthService.Connection.Login | app/users/services/auth.py:128-213 | same; a failed login leaves no counter behind |
| AuthService.Connection.Refresh | app/users/services/auth.py:239-296 | same; a refused refresh leaves no revocation behind |
| AuthService.Connection.HandlePossibleReuse | app/users/services/auth.py:298-313 | inside the block, reuse of a rotated token revokes every live session of its user |
| AuthService.Connection.Logout | app/users/services/auth.py:334-357 | same as `Perform` |
| AuthService.Connection.RevokeSession | app/users/services/session_auth.py:195-217 | same as `Perform` |
| AuthService.Connection.ForgotPassword | app/users/services/session_auth.py:98-133 | same as `Perform` |
| AuthService.Connection.ResetPassword | app/users/services/session_auth.py:135-166 | same as `Perform` |
| AuthService.Connection.Deactivate | app/users/services/profile.py:154-173 | same as `Perform` |
| AuthService.Connection.Rotate | app/users/repository.py:270-316 | inserts the successor and links the old session to it, or raises and changes nothing |
| AuthMeaning.RegisterIff | app/users/services/auth.py:44-112 | registration succeeds exactly when no account, active or not, has the name or email; each error has its one reason; it adds one row |
| AuthMeaning.LoginIff | app/users/services/auth.py:137-170 | a login succeeds exactly with the account's password, its second factor, no lock and a new digest; each error has its one reason |
| AuthMeaning.LoginChanges | app/users/services/auth.py:156-213 | a login keeps the password, renews an outdated hash, clears the counter and adds one session of 2592000 seconds; nothing else changes |
| AuthMeaning.StrangerCannotLogIn | app/users/services/auth.py:138-148 | without an active account with that email a login fails and changes nothing |
| AuthMeaning.LoginTwiceIff | app/users/services/auth.py:150-170 | after a login the same password, and no other, logs in again |
| AuthMeaning.RefreshIff | app/users/services/auth.py:244-281 | a refresh succeeds exactly with the token of an unrevoked, unexpired session of an active, unlocked user; each error has its one reason; every row it changes |
| AuthMeaning.LogoutIff | app/users/services/auth.py:344-349 | a logout succeeds exactly for the owner of an unrevoked session, and revokes that session only |
| AuthMeaning.UnknownTokenIsRefused | app/users/services/auth.py:245-252 | a digest no session has is refused by refresh and logout |
| AuthMeaning.RevokeSessionIff | app/users/services/session_auth.py:203-209 | a session is revoked exactly by its owner, and its token is refused from then on over any run |
| AuthMeaning.ForgotPasswordMeans | app/users/services/session_auth.py:101-121 | a reset request spends the account's earlier links and adds one that expires after 1800 seconds; nothing else changes |
| AuthMeaning.ForgotPasswordTellsNothing | app/users/services/session_auth.py:103-107 | for an email nobody has, it completes and changes nothing |
| AuthMeaning.ResetIff | app/users/services/session_auth.py:145-150 | a reset succeeds exactly with an unused, unexpired link of the right purpose |
| AuthMeaning.ResetChanges | app/users/services/session_auth.py:152-158 | a reset replaces its user's password, revokes that user's sessions and spends the link; nothing else changes |
| AuthMeaning.NewLinkWorksIff | app/users/security.py:81-85 | the new link works exactly until 1800 seconds after the request, unless spent in between over any run |
| AuthMeaning.DeactivateIff | app/users/services/profile.py:154-162 | deactivation succeeds exactly for an active user, and makes that user, and no other, inactive |
| AuthMeaning.DeactivationEndsAccess | app/users/repository.py:59-74 | from deactivation on, over any run, the user gains no session and no login or refresh is issued for them |
| AuthMeaning.PerformKeepsAccounts | app/users/repository.py:98-108 | no use case changes a name, email or second factor; only a reset for that user changes the password, and only to the one asked for; only deactivation closes an account |
| AuthMeaning.RunKeepsAccounts | app/users/repository.py:98-108 | the same over any run: the password stays while nobody resets it |
| AuthRuns.LineageIsForest | app/users/repository.py:270-316 | over every serial run rotation never loops, stays with one user, leaves only the end of a chain live and never joins two chains |
| AuthRuns.LiveAtMostLogins | app/users/services/auth.py:200-213 | a user's live sessions never outnumber that user's successful logins |
| AuthRuns.RevocationIsPermanent | app/users/repository.py:249-268 | a revoked session never becomes live again |
| AuthRuns.RefreshTokenIsSingleUse | app/users/services/auth.py:244-281 | after one successful refresh no later refresh with that token succeeds, whatever happens in between |
| AuthRuns.DeactivationIsFinal | app/users/repository.py:59-74 | after deactivation no use case adds a session for that user |
| AuthRuns.OneUsableResetToken | app/users/repository.py:409-424 | a user has at most one unused reset token in any run |
| AuthRuns.ResetTokenIsSingleUse | app/users/services/session_auth.py:145-158 | a reset token works at most once, sets the password asked for, and leaves its user with no live session |
| AuthRuns.NewLinkKillsOldLinks | app/users/services/session_auth.py:109-121 | after a new reset request no earlier link ever works again |
| AuthRuns.RaisesChangeNothing | app/users/services/auth.py:137-281 | a use case that raises changes no table; sessions are added by successful logins and refreshes only |
| AuthRuns.RunKeepsInv | app/users/repository.py:195-316 | the invariant behind these, over every serial run, and what no use case ever undoes |
| AuthRuns.ReuseRevokesIff | app/users/services/auth.py:247-252 | presenting a rotated token leaves its user without live sessions if and only if there were none before |
| AuthRuns.ReuseLeavesSessionLive | app/users/services/auth.py:247-252 | a run in which the documented revocation does not survive |
| AuthRuns.NobodyIsEverLocked | app/users/services/auth.py:152-154 | in every run the failure counter stays 0 and nobody is refused for a lockout |
| AuthRoundTrips.IssuedTo | app/users/services/auth.py:137-213 | a session is issued only to the user of the email with the right password, or of an unexpired live session with the token; that user is active and the session lasts 30 days |
| AuthRoundTrips.IssuedTokenRefreshesIff | app/users/services/auth.py:244-281 | the refresh token a login or refresh hands out refreshes exactly for its lifetime, unless the account is locked or the next digest is taken |
| AuthRoundTrips.RevokedTokenIsDead | app/users/repository.py:220-230 | the token of a revoked session is refused by every later refresh and logout, whatever happens in between |
| AuthRoundTrips.LogoutIsFinal | app/users/services/auth.py:344-349 | after a logout no refresh with that token ever succeeds |
| AuthRoundTrips.ResetDecidesLogin | app/users/services/session_auth.py:145-158 | after a reset a login succeeds with exactly the new password (and the second factor, and no lock) |
| AuthRoundTrips.NamesAreUnique | app/users/services/auth.py:81-112 | over any run usernames and emails stay unique, deactivated users included |
| AuthRoundTrips.RegistrationDecidesLogin | app/users/services/auth.py:44-79 | right after registration a login succeeds with exactly the password given |
| Auth.ByEmail | app/users/repository.py:76-85 | finds an active user with the email exactly when there is one |
| Auth.ByToken | app/users/repository.py:220-230 | finds an unrevoked session with the digest exactly when there is one |
| Auth.ByUsedToken | app/users/repository.py:232-247 | finds a session with the digest revoked by rotation exactly when there is one |
| Auth.ByUsername | app/users/repository.py:87-96 | finds an active user with the name exactly when there is one |
| Auth.ValidByHash | app/users/repository.py:382-401 | finds an unused, unexpired token of the purpose exactly when there is one |
| AuthService.Connection.CreateSession | app/users/repository.py:195-218 | appends a session, or raises on a digest already stored |
| AuthService.Connection.Revoke | app/users/repository.py:249-254 | marks one session, overwriting an earlier reason |
| AuthService.Connection.RevokeAllForUser | app/users/repository.py:256-268 | the user has no unrevoked session left; rows that were already revoked or belong to others are unchanged |
| AuthService.Connection.CreateToken | app/users/repository.py:356-380 | appends a token, or raises on a digest already stored |
| AuthService.Connection.MarkUsed | app/users/repository.py:403-407 | marks one token |
| AuthService.Connection.InvalidateAllForUser | app/users/repository.py:409-424 | a token is used afterwards exactly when it was before or is the user's of that purpose; nothing else of any row changes |
| AuthService.Connection.UpdatePasswordHash | app/users/repository.py:98-108 | replaces one hash, or touches no row |
| AuthService.Connection.IncrementFailedLogin | app/users/repository.py:110-118 | overwrites counter and lock of one user |
| Base64Url.SymbolTable | app/core/security.py:29-30 | the symbols are those of table 2 of RFC 4648, run by run |
| Base64Url.GroupsAreSixBits | app/core/security.py:29-30 | three bytes become four symbols that spell the same 24 bits, most significant first |
| Base64Url.RoundTrip | app/core/security.py:29-35 | decoding undoes encoding for every byte string |
| Base64Url.EncodeShape | app/core/security.py:29-30 | the text is in the alphabet, ceil(4n/3) long, and the decoder's padding rule restores exactly what was stripped |
| Base64Url.EncodeInjective | app/core/security.py:29-30 | different byte strings have different texts |
| Base64Url.DecodesIff | app/core/security.py:33-35 | a text decodes if and only if it is ASCII and, padded by the rule, has whole groups or padding that completes its last group |
| Base64Url.AlphabetDecodesIff | app/core/security.py:33-35 | over the alphabet, exactly the lengths 1 modulo 4 fail |
| Tokens.SignedTokenRoundTrips | app/core/security.py:38-85 | with a JSON library that reads this one body back, a token gives back its payload with exp overwritten exactly while now <= floor(issued) + ttl, and nothing afterwards |
| Tokens.SignedHasTwoParts | app/core/security.py:43-64 | a signed token splits into exactly its body and its signature, which decode to what was signed |
| Tokens.SplitJoined | app/core/security.py:61-64 | splitting gives dotless parts that join to the text |
| Tokens.JoinedSplit | app/core/security.py:61-64 | joining dotless parts and splitting gives them back |
| Tokens.TokensCarry | app/users/security.py:56-85 | the claims each kind of token carries and its lifetime: 900, 86400 or 1800 seconds |
| Tokens.KindsAreSeparate | app/users/security.py:56-113 | each decoder recovers the user from its own kind of token for exactly its lifetime, and None from the other kinds, whatever purpose is asked for |
| Tokens.RaisesExactlyWhen | app/core/security.py:55-85 | for every two-part token, verification raises if and only if the signature part cannot be decoded or an authentic body is not an object with a numeric expiry |
| Tokens.CutSignatureRaises | app/core/security.py:64-64 | a signature part one character over whole groups makes verification raise whatever the key |
| Tokens.OnlyTwoPartsAreRead | app/core/security.py:61-64 | a text without exactly one dot is rejected without an exception |
| Tokens.AcceptedIsAuthentic | app/core/security.py:66-85 | an accepted token carries the hash of exactly its body part and is not expired |

## Left out

- FiatService.Connection.CreateWallet: in the concurrent machine the currency is already upper-cased, and its INSERT and COMMIT are one step, so the wait of a second INSERT for the same user and currency is not modelled, only its outcome.
- AuthRuns.RefreshTokenIsSingleUse: serial runs only, because the session lookup takes no lock and two concurrent refreshes with one token can both succeed.
- AuthRuns.ResetTokenIsSingleUse: serial runs only, for the same reason.
- AuthService.Connection.Login: the lockout times (`app/users/security.py:192-204`) are computed and rolled back, so no result depends on them.
- AuthRuns.NobodyIsEverLocked: over runs of the use cases modelled here; the later email, profile and 2FA use cases do not write the counter.
- Outbox.NoStarvation: one worker whose transactions commit and rows with distinct created_at, because skipped or rolled-back batches can delay an event without bound.
- Tokens.SignedTokenRoundTrips: clock readings are reals, and doubles are finite; the NaN and infinity literals Python's JSON reader accepts are not modelled.
- Tokens.RaisesExactlyWhen: texts with lone surrogates, on which encoding the body part raises, are not strings of the model; JSON booleans count as the numbers 0 and 1, as in Python.
- Outbox.Repository.MarkDone: the processed_at timestamp, which nothing reads.
- AuthService.Connection.Register: the verification token and the outbox row it is mailed in.
- UUIDs of ledger entries and audit rows, created_at of ledger rows (entries are in commit order), wallet status, and the metadata column of transfers (the two wallets are part of the transaction's kind).
- Length limits of text columns, foreign keys (no operation can violate them), and connection errors other than as aborts.
- Email verification, change of password, profile edits, 2FA enrolment and backup codes: they add fields but no new protocol.
- The audit and outbox rows of the authentication use cases; the ledger's audit rows are modelled.
- Payload contents of outbox events and the email handler itself: a handler call returns or raises.
- Listing and pagination: created_at ties leave their order undecided.
- HTTP routers, schemas, cookies, connection pool, settings, SMTP, Fernet, Argon2, SHA-256, HMAC, TOTP and random generation internals.
- Reconciliation, cards and crypto: planned in the repository, no code.
