# simplebank in Dafny

A model of simplebank, a small banking back end written in Go. It covers:

- the SQL store and its unit-of-work wrapper `ExecTx`;
- the two transactions built on `ExecTx`: `CreateUserTx` (insert a user, then run an `AfterCreate` hook in the same transaction) and `VerifyUserEmailTx` (consume a verify-email row, then mark its user verified);
- the users and accounts statements;
- the input validators and the violation lists the HTTP handlers build from them;
- the guard chains of the handlers: bearer-header authentication, refresh-token renewal, transfer preconditions, account ownership and paging, the health check, and the gRPC `CreateUser` error mapping;
- the send-verify-email task: the distributor and the processor's outcome classification;
- the random test-data helpers and the account store scenarios of the Go test suite.

Modelling choices:

- **Store object.** The database is a `Schema.Db` value of three maps plus the account id sequence. `Store.SQLStore` holds those maps as fields.
- **Statements and transactions.** Each statement is a pure function from the database before to the database after and Go's `(row, error)` pair. `ExecTx` snapshots the fields, applies the work and restores the snapshot when the work or the commit fails.
- **Driver failures.** Begin, rollback, commit and every statement's driver failure are inputs, so every interleaving of failures is covered.
- **Go errors.** Modelled by `DbErrors.Error`:
  - `%w` wrapping, which `errors.Is`/`errors.As` see through;
  - the `%v`-combined rollback error, which they do not;
  - Postgres errors, `ErrNoRows` and asynq's `SkipRetry`.
- **Foreign code as parameters.** Everything outside the repository's own logic is passed in as a function value: JWT verification and creation, password hashing, UUID parsing, `mail.ParseAddress`, JSON encoding, the task queue client and the transfer engine.
- **Clock and dependency pings.** The clock is a `now` parameter. Health-check pings arrive as optional error texts.
- **Integers and strings.** Go's `len` on strings counts UTF-8 bytes, modelled by `Validator.Utf8Len`. The int32 paging arithmetic is modelled with explicit wrap-around.

Where the code disagrees with its own messages or with other files of the source, the model follows the code that runs:

- **Validator maximums.** `ValidateString` never compares against `maxLength`, so no validator enforces the upper length its message names.
- **Token expiry.** Expiry in `renewAccessToken` is checked against the refresh token's own `ExpiresAt`, not the session row's.
- **Mixed revisions.**
  - The files disagree on the error types: `ErrorDescription` uses pgx errors, and some handlers use pq errors or `sql.ErrNoRows`. These are modelled as one Postgres error with a code and a constraint name, and one not-found sentinel.
  - `api/token.go` calls `CreateToken` with three results, but `token/maker.go` declares two. The model follows `api/token.go`: the token and its claims, or an error.

## Model

| member | source | states |
|---|---|---|
| DbErrors.ErrorDescription | db/sqlc/errors.go:22-29 | an error whose `%w` chain ends in a Postgres error yields that error's code and constraint name; any other error yields two empty strings |
| DbErrors.Root | db/sqlc/errors.go:24 | the end of the unwrap chain is never itself a wrapper |
| DbErrors.ViolationClassesDistinct | db/sqlc/errors.go:10-18 | an error is never both a unique and a foreign-key violation; the username and email constraints are different names |
| DbErrors.DescriptionThroughWrapping | db/sqlc/errors.go:22-27 | any number of `%w` wrappings leaves the code and constraint name `ErrorDescription` reports unchanged |
| DbErrors.TxFailedHidesCauses | db/sqlc/exec_tx.go:19-22 | the combined rollback error is formatted with `%v`, so `errors.Is` finds neither the work error nor the rollback error through it |
| UsersQueries.CreateUser | db/sqlc/users.sql.go:14-45 | the insert succeeds iff the username and the email are free; the row holds exactly the four arguments and the column defaults; a clash is a 23505 error on `users_pkey` or `users_email_key` and writes nothing |
| UsersQueries.GetUser | db/sqlc/users.sql.go:47-67 | returns the row stored under the username, or the zero user with `ErrNoRows` |
| UsersQueries.Merge | db/sqlc/users.sql.go:71-76 | each of the five columns takes its parameter only when that parameter is valid; username, role and created_at are never written |
| UsersQueries.MergeAllNull | db/sqlc/users.sql.go:71-75 | an update with every optional parameter null returns the row unchanged |
| UsersQueries.MergeIdempotent | db/sqlc/users.sql.go:71-75 | repeating an update changes nothing more |
| UsersQueries.UpdateUser | db/sqlc/users.sql.go:69-109 | only the named row changes, to the merge; a missing username is `ErrNoRows` and writes nothing; an email another user holds is a `users_email_key` violation |
| AccountsQueries.CreateAccount | db/sqlc/accounts_test.go:37-58 | the new account carries the given owner, balance and currency and a fresh positive id, with the creation time; nothing else changes |
| AccountsQueries.GetAccount | db/sqlc/accounts_test.go:64-74 | returns the stored account under that id, or the empty account with `ErrNoRows` |
| AccountsQueries.UpdateAccount | db/sqlc/accounts_test.go:76-93 | sets the balance and keeps id, owner, currency and created_at; a missing id is `ErrNoRows` |
| AccountsQueries.DeleteAccount | db/sqlc/accounts_test.go:95-105 | the row is gone afterwards and no other row changes |
| AccountsQueries.OwnedBelowSpec | db/sqlc/accounts_test.go:107-126 | the owner's accounts, in strictly increasing id order, are exactly the stored accounts of that owner |
| AccountsQueries.Page | db/sqlc/accounts_test.go:113-117 | LIMIT/OFFSET: at most `limit` rows, starting at `offset`, empty past the end |
| AccountsQueries.ListAccountsByOwner | db/sqlc/accounts_test.go:107-126 | without error the page holds at most `limit` stored accounts of the owner in id order; a negative limit or offset is a Postgres error |
| AccountsQueries.PageOfOwned | db/sqlc/accounts_test.go:119-125 | every row of a page belongs to the owner and is the stored row, in increasing id order |
| AccountsQueries.ListFirstPageNonEmpty | db/sqlc/accounts_test.go:113-125 | for an owner holding an account, the first page of five is non-empty and holds no empty account |
| VerifyEmailQueries.UpdateVerifyEmail | db/sqlc/tx_verify_user_email.go:24-30 | updates exactly the matching row by id (matching on id and secret code) to its new value, or fails with `ErrNoRows` and writes nothing |
| Store.TxError | db/sqlc/exec_tx.go:18-24 | the work's error alone when the rollback succeeds; both the work error and the rollback error when it fails, so the work error is never dropped |
| Store.VerifiedFlagParams | db/sqlc/tx_verify_user_email.go:32-38 | the user update sets only `is_email_verified` to true, for the given username; every other parameter is null |
| Store.VerifiedFlagMerge | db/sqlc/tx_verify_user_email.go:32-38 | merging those parameters into a row changes the verified flag alone |
| Store.SQLStore.constructor | db/sqlc/store.go:18-29 | a new store holds the empty database and an empty transaction log |
| Store.SQLStore.ExecTx | db/sqlc/exec_tx.go:9-28 | a failed begin returns its error, runs no work and changes nothing; otherwise the work runs once on the snapshot; failed work is rolled back, returns `TxError` and leaves the tables as before; on success only a commit is attempted, the commit's error is the result, and the work's writes stay exactly when the commit succeeds; the log records this order |
| Store.SQLStore.CreateUserTx | db/sqlc/tx_create_user.go:16-31 | the insert runs before the hook; the hook receives exactly the inserted row; an insert error skips the hook and is returned; a hook or commit error leaves no user with that username; success adds exactly the returned row; the result is returned even alongside an error |
| Store.SQLStore.VerifyUserEmailTx | db/sqlc/tx_verify_user_email.go:18-47 | the verify-email row is updated first, and its failure leaves the users untouched; the user updated is the one the row names; that user's verified flag becomes true and every other field is kept; both writes commit together or neither is visible; the result holds both updated rows |
| Store.SQLStore.CreateUser | db/sqlc/users.sql.go:26-45 | runs `UsersQueries.CreateUser` on the tables and commits its effect |
| Store.SQLStore.GetUser | db/sqlc/users.sql.go:53-67 | answers `UsersQueries.GetUser` on the current tables |
| Store.SQLStore.UpdateUser | db/sqlc/users.sql.go:88-109 | runs `UsersQueries.UpdateUser` on the tables and commits its effect |
| Store.SQLStore.CreateAccount | db/sqlc/accounts_test.go:46 | runs `AccountsQueries.CreateAccount` on the tables |
| Store.SQLStore.GetAccount | db/sqlc/accounts_test.go:66 | answers `AccountsQueries.GetAccount` on the current tables |
| Store.SQLStore.UpdateAccount | db/sqlc/accounts_test.go:84 | runs `AccountsQueries.UpdateAccount` on the tables |
| Store.SQLStore.DeleteAccount | db/sqlc/accounts_test.go:98 | runs `AccountsQueries.DeleteAccount` on the tables |
| Store.SQLStore.ListAccountsByOwner | db/sqlc/accounts_test.go:119 | answers `AccountsQueries.ListAccountsByOwner` on the current tables |
| AccountsScenarios.CreateRandomUser | db/sqlc/accounts_test.go:11-35 | the created user has a six-letter username that is also its full name, the given hash and a gmail address, and is the only row added; a failure is a unique violation and writes nothing |
| AccountsScenarios.CreateRandomAccount | db/sqlc/accounts_test.go:37-58 | the account is stored under a positive id, belongs to a stored user, has a balance in [0, 1000] and a currency among USD, EUR and CAD |
| AccountsScenarios.GetAccountScenario | db/sqlc/accounts_test.go:64-74 | reading a created account back yields the same account |
| AccountsScenarios.UpdateAccountScenario | db/sqlc/accounts_test.go:76-93 | after the update the account differs from the created one in its balance alone |
| AccountsScenarios.DeleteAccountScenario | db/sqlc/accounts_test.go:95-105 | after deleting a created account, reading it fails with `ErrRecordNotFound` and returns the empty account |
| AccountsScenarios.ListAccountsScenario | db/sqlc/accounts_test.go:107-126 | after ten creations the last owner's first page of five is non-empty and holds only stored, non-empty accounts |
| Validator.Utf8Len | validator/validator.go:16 | Go's byte length: between one and four bytes per character, and exactly one for ASCII |
| Validator.IsUsernameChar | validator/validator.go:11 | the class `[a-zA-Z0-9_]` |
| Validator.IsFullNameChar | validator/validator.go:12 | the class `[a-zA-Z\s]`, with RE2's `\s` (tab, newline, form feed, carriage return, space) |
| Validator.IsDigit | validator/validator.go:46 | the class `[0-9]` |
| Validator.IsLower | validator/validator.go:51 | the class `[a-z]` |
| Validator.IsUpper | validator/validator.go:56 | the class `[A-Z]` |
| Validator.IsSpecial | validator/validator.go:61 | the class `[\W_]`: every character that is not an ASCII letter or digit |
| Validator.ClassesAgainstWord | validator/validator.go:11-61 | the username class is RE2's `\w`; `[\W_]` is the complement of `\w` plus the underscore; lowercase or uppercase is exactly an ASCII letter |
| Validator.FullMatch | validator/validator.go:11-12 | `MatchString` of an anchored `^[…]+$`: non-empty and every character in the class |
| Validator.Message | validator/validator.go:18-95 | the error texts: the length message names both bounds, and each other rule has its own fixed text |
| Validator.AllIn | validator/validator.go:11-12 | true iff every character belongs to the class (the `+`-anchored regexes) |
| Validator.SomeIn | validator/validator.go:46-63 | true iff some character belongs to the class (the unanchored regexes) |
| Validator.ValidateString | validator/validator.go:15-22 | fails iff the byte length is below `minLength`; the error names both bounds |
| Validator.ValidateUsername | validator/validator.go:11-34 | accepts iff at least 3 bytes long and made only of ASCII letters, digits and `_`; the length error takes precedence |
| Validator.ValidatePassword | validator/validator.go:36-67 | accepts iff 8 to 30 bytes long with a digit, a lowercase letter, an uppercase letter and a character that is not an ASCII letter or digit; every failure is the same single error |
| Validator.ValidateEmail | validator/validator.go:69-79 | fails on fewer than 6 bytes; otherwise accepts iff the address parses |
| Validator.ValidateFullName | validator/validator.go:81-91 | accepts iff at least 3 bytes long and made only of ASCII letters and RE2 whitespace |
| Validator.ValidateEmailID | validator/validator.go:93-99 | accepts iff the value is positive |
| Validator.ValidateSecretCode | validator/validator.go:101-103 | accepts iff at least 32 bytes long |
| Validator.MaxLengthIgnored | validator/validator.go:15-22 | the maximum passed to `ValidateString` never changes its verdict |
| Validator.LongValuesAccepted | validator/validator.go:24-103 | a username, full name or secret code of any length at or above its minimum (n copies of 'a') is accepted; an email of any such length is accepted exactly when the address parser accepts it, for every parser |
| Validator.ValidateStringIntended | validator/validator.go:15-22 | the check the message describes: accepts iff the byte length lies between `minLength` and `maxLength` inclusive |
| Validator.UsernameAboveMaximumAccepted | validator/validator.go:15-27 | a 26-letter username passes the check as written although its message names 25 as the most; the intended check refuses it |
| Validator.UsernameLengthFirst | validator/validator.go:25-31 | a too-short username is reported as too short even when its characters are also wrong |
| UserApi.Reports | api/user.go:29-47 | a check contributes one violation, carrying its field and error, exactly when it fails |
| UserApi.FieldViolation.Description | api/error.go:17-22 | a violation's description is its error's text |
| UserApi.ReportedEmpty | api/user.go:57-61 | a check list yields no violations iff every check passes |
| UserApi.ReportedAppend | api/user.go:29-47 | the violations of consecutive check lists are the concatenation of their violations |
| UserApi.ReportedSingle | api/user.go:29-47 | a single check reports its own failure, or nothing |
| UserApi.ReportedMembership | api/user.go:29-47 | a violation is reported iff some failing check has its field and error |
| UserApi.ReportedOncePerField | api/user.go:29-47 | checks on distinct fields yield at most one violation per field |
| UserApi.ReportedSnoc | api/user.go:31-45 | appending the next failing check's violation extends the reference list by one check |
| UserApi.FieldNamesDistinct | api/user.go:31-45 | the four field names are pairwise different |
| UserApi.ValidateCreateUserRequest | api/user.go:29-47 | collects one violation per failing validator, in the order username, password, full_name, email |
| UserApi.ValidateLoginUserRequest | api/user.go:128-138 | collects one violation per failing validator of username and password |
| UserApi.ValidateUpdateUserRequest | api/user.go:253-279 | checks the username always, and password, full_name and email only when present, in that order |
| UserApi.AppendViolation | api/user.go:261-276 | appends a failing check's violation and nothing for a passing one |
| UserApi.CreateUserViolations | api/user.go:29-47 | no violations iff all four validators accept, and at most one violation per field |
| UserApi.LoginUserViolations | api/user.go:128-138 | no violations iff both validators accept; only username and password are ever reported |
| UserApi.UpdateUserReported | api/user.go:253-279 | the update's violations split into the username part and the three optional parts |
| UserApi.UpdateUserViolations | api/user.go:253-279 | no violations iff the username and every present field validate |
| UserApi.UpdateUserAbsentNotReported | api/user.go:261-276 | an absent password, full name or email is never reported |
| UserApi.BuildUpdateUserParams | api/user.go:295-323 | full_name and email are valid exactly when provided; hashed_password and password_changed_at are set, to the hash and `now`, exactly when a password is provided; the verified flag is null; a failed hash is returned as the error |
| UserApi.AfterCreateEnqueues | api/user.go:76-93 | the hook enqueues an `email:verify` task with MaxRetry 10, a 10-second delay and the critical queue; it fails exactly when the distribution fails, and that failure is not a unique violation |
| UserApi.AfterCreate | api/user.go:76-93 | the hook distributes a verify-email task for the new user and turns a failed distribution into the "failed to send verify email" error; its behaviour is stated by `AfterCreateEnqueues` |
| UserApi.CreateUserInStore | api/user.go:69-111 | runs `CreateUserTx` with the hook: success answers 200 with the stored row; a unique violation on insert answers 422 when the rollback succeeds (a failed rollback's combined error hides the Postgres error); a failed enqueue answers 500 and leaves no user |
| UserApi.CreateUserHandler | api/user.go:49-112 | violations answer 400 and a failed hash 500, both without touching the store; 200 means the user is stored with the request's fields and the hash, and its verify-email task was enqueued |
| UserApi.UpdateUserHandler | api/user.go:281-339 | violations answer 400 and a failed hash 500; a missing user answers 404; on 200 the stored user is merged field by field from what the request provided; any other outcome changes nothing |
| TransferApi.ValidAccount | api/transfer.go:62-78 | valid iff the account exists and has the requested currency; a missing account is 404, another lookup error 500, a currency mismatch 400 |
| TransferApi.CreateTransfer | api/transfer.go:22-58 | looks up the to-account only after the from-account is valid and owned by the caller; a foreign from-account answers 403; the engine is called only after every check, with exactly the request's from, to and amount; its failure answers 500 and its success 200 with its result |
| TransferApi.ToAccountOwnerIgnored | api/transfer.go:36-44 | changing the to-account's owner never changes the outcome |
| TransferApi.ForeignFromAccountRefused | api/transfer.go:31-39 | a caller not owning a valid from-account gets 403, with one lookup and no engine call |
| AccountApi.CreateAccountHandler | api/account.go:19-54 | opens a zero-balance account owned by the subject; a unique or foreign-key violation answers 422 and any other error 500, with nothing written |
| AccountApi.GetAccountHandler | api/account.go:56-89 | a zero id answers 400, a missing account 404, another error 500, another owner's account 403; otherwise 200 with the stored account |
| AccountApi.WrapInt32 | api/account.go:110 | int32 wrap-around: congruent modulo 2^32 and the identity inside the range |
| AccountApi.ListOffsetOverflows | api/account.go:110 | with page_size 10, page_id 214748366 gives the negative offset -2147483646, which the query rejects, and page_id 429496731 wraps round to offset 4 instead of 4294967300 |
| AccountApi.ListOffset | api/account.go:110 | the exact offset is non-negative for page_id ≥ 1, is a multiple of page_size, and counts the rows on the earlier pages |
| AccountApi.MultipleOf | api/account.go:110 | a product is divisible by its positive factor, with that quotient |
| AccountApi.ListOffsetAgreesWithoutOverflow | api/account.go:91-110 | when the product fits int32, the written and the exact offsets agree |
| AccountApi.ListPage | api/account.go:113-120 | 500 when the list query fails, otherwise 200 with its rows: at most page_size, all the subject's; it fails without a fault only for a negative limit or offset |
| AccountApi.ListAccountsHandler | api/account.go:96-121 | a request that fails binding answers 400; otherwise the query runs at the int32-wrapped offset; when (page_id−1)×page_size fits int32 it answers 200 exactly when the store does not fail, with the page after the earlier pages; any page holds at most page_size of the subject's accounts |
| AccountApi.ListAccountsHandlerCorrected | api/account.go:96-121 | with the exact offset, every request that binds answers 200 unless the store fails, with the page after the earlier pages |
| TokenApi.RenewAccessToken | api/token.go:23-79 | checks in order: the token verifies (401), the session id parses (500), the session exists (404, other errors 500), then not blocked, username equals subject, stored token equals presented, and not expired (401 each); only then is a token created, for the session's username, giving 200 or 500 |
| TokenApi.IssuedOnlyAfterAllChecks | api/token.go:30-69 | a token is requested iff every check passes, and only for the verified subject |
| TokenApi.ExpiryIsStrict | api/token.go:64 | a token is still accepted at the instant it expires and refused one nanosecond after |
| TokenApi.Expired | api/token.go:64 | `time.Now().After(expiresAt)`: strictly later than the expiry |
| TokenApi.SessionAccepted | api/token.go:49-67 | the session is not blocked, belongs to the token's subject, stores the presented token, and the token has not expired |
| Middleware.Occurrences | api/middlewares.go:27 | counts the separators; zero iff there is none |
| Middleware.Split | api/middlewares.go:27 | one more field than there are separators, no field contains one, and joining the fields gives the header back |
| Middleware.OccurrencesAppend | api/middlewares.go:27 | separator counts add up over concatenation |
| Middleware.SplitWithoutSeparator | api/middlewares.go:27 | a header without a space splits into itself alone |
| Middleware.SplitAtSeparator | api/middlewares.go:27-31 | two space-free parts around one space split back into exactly those parts |
| Middleware.ToLowerAscii | api/middlewares.go:33 | lowercases the ASCII capitals and keeps every other character, position by position |
| Middleware.AuthOutcome.Reason | api/middlewares.go:21-42 | a failed verification reports the verifier's own error |
| Middleware.AuthOutcome.Status | api/middlewares.go:21-42 | every rejection answers 401 |
| Middleware.AuthMiddleware | api/middlewares.go:19-49 | an empty header is "not provided"; anything but exactly one space is a bad format; a first field that is not "bearer" in any case is unsupported; otherwise exactly the second field is verified, and the payload is stored only when it verifies |
| Middleware.BearerAnyCase | api/middlewares.go:33-39 | every casing of "bearer" followed by one space and a token is decided by verifying exactly that token |
| Middleware.AuthorizedOnlyWhenVerified | api/middlewares.go:39-47 | the next handler runs iff there is exactly one space, the type is bearer and the second field verifies |
| Health.RecordFailure | api/health.go:20-35 | adds the key with the error text exactly when the ping failed, and keeps the other entries |
| Health.OverallStatus | api/health.go:37-42 | "OK" iff all three pings succeed; "Unavailable" iff the database fails; "Partially Available" iff only Redis or SMTP fails |
| Health.HealthCheck | api/health.go:16-50 | always 200; the map holds postgres, redis and gmail-smtp exactly for the failing dependencies with their error texts; the status is `OverallStatus` |
| Health.NoFailuresIffOk | api/health.go:17-42 | the failures map is empty iff the status is OK |
| GapiCreateUser.StoreErrorStatus | gapi/rpc_create_user.go:28-35 | AlreadyExists, naming the email, iff the error is a unique violation on `users_email_key`; every other error is Unimplemented |
| GapiCreateUser.CreateUser | gapi/rpc_create_user.go:14-41 | a hash failure is Internal and the store is never called; the store gets the request's username, full name and email with the hash; success wraps the row stored under that username |
| GapiCreateUser.TakenUsernameIsUnimplemented | gapi/rpc_create_user.go:29-35 | a `users_pkey` clash is reported as Unimplemented and writes nothing |
| GapiCreateUser.TakenEmailAlreadyExists | gapi/rpc_create_user.go:29-32 | an email held by another user is AlreadyExists, naming it |
| VerifyEmailTask.DistributeTaskSendVerifyEmail | worker/task_send_verify_email.go:22-41 | a marshalling failure is returned wrapped and nothing is enqueued; otherwise the task has type `email:verify`, the marshalled payload and the options, and an enqueue failure is returned wrapped |
| VerifyEmailTask.ProcessTaskSendVerifyEmail | worker/task_send_verify_email.go:43-64 | an undecodable payload and an unknown user wrap `SkipRetry`; another lookup error is wrapped as is; a known user succeeds |
| VerifyEmailTask.Classify | worker/task_send_verify_email.go:49-58 | a nil error completes the task, an error wrapping `SkipRetry` archives it, anything else is retried |
| VerifyEmailTask.ProcessOutcome | worker/task_send_verify_email.go:43-64 | a bad payload or unknown user is permanent, other lookup errors are retried, and a known user completes |
| VerifyEmailTask.DistributeThenProcess | worker/task_send_verify_email.go:22-64 | a task enqueued for an existing user is completed, provided decoding inverts encoding |
| Random.AlphabetIsLowercase | util/random.go:9 | the alphabet has 26 characters, all a–z |
| Random.RandomInt64 | util/random.go:13-15 | a value in [min, max] |
| Random.RandomString | util/random.go:18-28 | exactly n characters (none for n ≤ 0), each a–z |
| Random.RandomOwner | util/random.go:31-33 | six lowercase letters |
| Random.RandomMoney | util/random.go:36-38 | a value in [0, 1000] |
| Random.RandomCurrency | util/random.go:41-45 | one of USD, EUR, CAD |

## Left out

- TransferTx, the transfer engine, is a function parameter: its SQL and implementation are not part of this model. No balance, entry or lock-order rule is claimed.
- The SQL of the accounts and verify-email statements is not part of this model. Accounts follow what the Go tests assert. The `UpdateVerifyEmail` row condition and SET list are parameters, so no used-flag or expiry guard, and no at-most-once verification, is claimed.
- Unique and foreign-key constraints on accounts are not part of this model: `AccountsQueries.CreateAccount` fails only through its driver-fault input, and an account's owner need not be a stored user, so `Schema.Valid` does not relate owners to users.
- JWT signing and verification, password hashing, UUID parsing and generation, `mail.ParseAddress` and JSON encoding are foreign code, passed in as function values.
- The task broker's retry, backoff, dead-lettering and queue weighting belong to the asynq library; only the handler's classification is modelled. No email is sent.
- Concurrency is left out: the processor goroutine, and Postgres row locking and isolation.
- `time.Now()` is an explicit `now` parameter. The health-check pings are their results.
- Framework binding, JSON responses and routing are left out, except for a handler's validation verdict and its status code, and `convertUser` (the response is the stored row).
- The login flows (`loginUser`, gRPC `LoginUser`) are left out: they are token and password plumbing around `GetUser`.
- Go strings are sequences of Unicode characters here, so a string holding invalid UTF-8 is not representable.
- Middleware.ToLowerAscii: lowercases ASCII only. Unicode lowercasing sends no other character to a letter of "bearer", so the comparison is unaffected.
- Random.RandomInt64: requires the range width `max - min + 1` to be a positive int64, as `rand.Int63n` panics otherwise. The draw itself is an arbitrary choice, so no distribution is modelled.
- Store.SQLStore.ExecTx: the work sees the snapshot, not a transaction-scoped connection, so no other session's writes interleave.
- Validation messages: a field violation keeps the validator's error value; its text is `Validator.Message`, applied by `FieldViolation.Description`.

## Findings

| source | as written | input that shows it | evidently intended | confidence | as-written member | corrected member |
|---|---|---|---|---|---|---|
| api/account.go:110 | `(PageID - 1) * PageSize` is computed in int32 and wraps round, and binding puts no upper bound on page_id | page_id 214748366, page_size 10 gives offset -2147483646, so the query fails and the handler answers 500; page_id 429496731, page_size 10 gives offset 4, so the handler silently returns rows 5 to 14 of the owner's accounts instead of an empty page | the offset of the page, (page_id − 1) × page_size, non-negative and a multiple of page_size, so every bound request gets its page | not executed | AccountApi.ListOffsetOverflows | AccountApi.ListAccountsHandlerCorrected |
| validator/validator.go:15-22 | `ValidateString` only compares `len(value)` with `minLength`; `maxLength` appears only in the message "must contain from %d to %d characters" | a 26-letter username passes `ValidateUsername`, whose message says 3 to 25 | the byte length lies between the two bounds inclusive | not executed | Validator.UsernameAboveMaximumAccepted | Validator.ValidateStringIntended |
