# Mock-Trader-API core, modelled in Dafny

This project models the logic of the Mock-Trader-API backend and proves properties of it.

- **The Stock_Universe sync job** (`sync_stock_universe`). It fetches a symbol snapshot for the configured exchange and reads the stored rows of its tickers in batches of 100. It classifies every fetched symbol as insert, update or skip, by comparing four columns. It then upserts the updates and inserts the new rows, again in batches of 100. Any failure is caught and logged.
- **The authentication service.** Registration checks that the email and the username are unique. Login deactivates every session of the user, keeping the rows, and adds one fresh active session. Logout deactivates all of the user's sessions.
- **The JWT gate.** It decides between 401, 500 and pass-through for a protected route.
- **The startup checks.** These are the environment and configuration validators, the guards of the market-data probe and the database probe. They run in a fixed order with a fail-fast exit, and the scheduler start is attempted only afterwards.

The modules are:
- `StockUniverse` (`stock_universe.dfy`): the table, the candidate records and the `Store` class. The class keeps the rows, the log of every call made, and the log positions at which a call fails.
- `Batching` (`batching.dfy`): the job's slicing into batches of 100.
- `StockSync` (`stock_sync.dfy`): the reference definition of a run (`SyncSpec`, `SyncFeed`, `Replay`) and the job's loops as methods proved against it.
- `StockSyncProps` (`stock_sync_props.dfy`): the job's properties, stated about the reference definition.
- `AuthService` (`auth_service.dfy`): the Users and Sessions tables as sequences in a class, with the three operations as methods.
- `JwtAuth` (`jwt_auth.dfy`): the two dependencies as functions over a decoded payload and the Sessions table.
- `Startup` (`startup.dfy`): the validators as functions, the startup sequence as methods.
- `Wrappers` (`wrappers.dfy`): `Option` and `Result`.

Inputs and parameters:
- **Inputs.** The outcome of the market-data fetch, of the startup HTTP probe, of the database probe and of token decoding are inputs.
- **Parameters.** The exchange code, the run timestamp, password hashing and verification, and token creation are parameters.
- **Store failures.** Which store calls fail (network or API errors) is the `faults` set of the store.

Observations on the code, which the model follows:
- **Handler order at startup.** `EnvironmentError` is `OSError`, and the builtin `ConnectionError` is a subclass of it. So every connection failure (a timeout, a refused connection, an unreachable database) is caught by the first handler (`app/core/startup.py:118`). The connection handler (`app/core/startup.py:121-123`) is never reached (`Startup.ConnectionHandlerUnreachable`).
- **Non-200 probe answer.** A non-200 answer of the probe raises the builtin `ConnectionError` inside the `try`. That is not a `requests` exception, so it is re-raised by the catch-all as a plain `Exception` carrying "Unexpected error: ...". It then reaches the generic startup handler.
- **Missing `EXCHANGE`.** The shipped configuration (`app/core/config.py`) has no `EXCHANGE` key, so every run of the job fails with a `KeyError` before fetching. In the model this is an `exchange` that is `None`.
- **Missing `TIMEZONE`.** The configuration also has no `TIMEZONE` key, so `config["TIMEZONE"]` raises while the sync job is being added (`app/jobs/scheduler.py:15`), before `scheduler.start()`, and that failure is only logged (`Startup.ShippedConfigFacts`). No startup check looks for `EXCHANGE` or `TIMEZONE`: the sync job is never scheduled, and run on its own it fails with KeyError 'EXCHANGE'.
- **Duplicate symbols.** A feed that carries the same symbol twice queues it twice. `SyncIdempotent` therefore assumes a feed whose records for one symbol agree (`ConsistentFeed`).

## Model

| member | source | states |
|---|---|---|
| StockUniverse.Merge | app/jobs/tasks.py:83-94 | the row left by writing a record matches it on the four compared columns, carries its updated_at, and keeps the old created_at unless the record brings one |
| StockUniverse.RestrictAppend | app/jobs/tasks.py:32-43 | the rows selected for two ticker lists together are the rows selected for their concatenation |
| StockUniverse.WriteAllAppend | app/jobs/tasks.py:81-85 | writing one batch and then the next is writing their concatenation |
| StockUniverse.WriteAllUntouched | app/jobs/tasks.py:79-95 | a key that no written record carries keeps its row or stays absent |
| StockUniverse.WriteAllKeys | app/jobs/tasks.py:79-95 | writes never delete: the keys afterwards are the old keys plus the written tickers |
| StockUniverse.WriteAllAgrees | app/jobs/tasks.py:79-95 | a written ticker's row agrees with the records carrying it when these agree among themselves |
| StockUniverse.WriteAllGrows | app/jobs/tasks.py:89-94 | inserting records with new, distinct tickers adds exactly one row each |
| StockUniverse.Store.Select | app/jobs/tasks.py:34-39 | the select returns the stored rows of the batch's tickers, or fails exactly when its log position is a fault; the table is unchanged and the call is logged |
| StockUniverse.Store.Upsert | app/jobs/tasks.py:83-85 | the upsert succeeds when not a fault and the batch has no repeated ticker; on success every record is written, on failure the table is unchanged; the call is logged |
| StockUniverse.Store.Insert | app/jobs/tasks.py:92-94 | the insert succeeds when not a fault and every ticker is new and distinct; on success every record is written, on failure the table is unchanged; the call is logged |
| Batching.BatchesFromFacts | app/jobs/tasks.py:32-33 | the batches from index i flatten back to the suffix from i; there are ceil((n - i) / 100) of them, each of 1 to 100 elements |
| Batching.BatchesPartition | app/jobs/tasks.py:32-33 | the batches cover the list in order without overlap; there are ceil(n / 100) of them, each of 1 to 100 elements |
| StockSync.Replay | app/jobs/tasks.py:79-100 | issuing calls stops at the first failure: at most all calls are issued, all of them when every one succeeds, and at least one when one fails |
| StockSync.ReplayAppend | app/jobs/tasks.py:79-95 | issuing a + b is issuing a, then b only if every call of a succeeded |
| StockSync.ReadsReplay | app/jobs/tasks.py:32-39 | selects never change the table and are never rejected; the reads stop exactly at the first faulty position |
| StockSync.ClassifyLocal | app/jobs/tasks.py:64-65 | classification depends only on the stored rows of the feed's tickers |
| StockSync.ClassifyRestrict | app/jobs/tasks.py:32-43 | classifying against the rows read in batches is classifying against the whole table |
| StockSync.IssuedAppend | app/jobs/tasks.py:79-95 | the store state after the update loop and then, if it succeeded, the insert loop is the state after issuing all update batches then all insert batches |
| StockSync.SyncFeedIssued | app/jobs/tasks.py:26-97 | a run leaves the store as issuing its plan does, and reports the queue sizes exactly when every call went through |
| StockSync.ReadExisting | app/jobs/tasks.py:32-43 | the read loop issues the planned selects until one fails, never changes the table, and returns exactly the stored rows of all tickers when every select succeeds |
| StockSync.ClassifyFeed | app/jobs/tasks.py:45-77 | the comparison loop's queues equal the reference classification of the feed |
| StockSync.UpsertInBatches | app/jobs/tasks.py:80-86 | the update loop issues the update batches in order, stopping at the first failure, and leaves the replayed table |
| StockSync.InsertInBatches | app/jobs/tasks.py:89-95 | the insert loop issues the insert batches in order, stopping at the first failure, and leaves the replayed table |
| StockSync.WriteQueues | app/jobs/tasks.py:79-95 | all update batches and then, only if they all succeeded, all insert batches |
| StockSync.SyncFetched | app/jobs/tasks.py:26-97 | after a non-empty fetch, table, call log and outcome are exactly those of the reference run |
| StockSync.SyncStockUniverse | app/jobs/tasks.py:11-100 | the whole job leaves table, call log and outcome exactly as the reference run describes |
| StockSync.Tickers | app/jobs/tasks.py:26 | the ticker list; its contents are stated by StockSyncProps.TickersFacts |
| StockSync.Classify | app/jobs/tasks.py:45-77 | the reference classification; StockSyncProps.ClassifySound, ClassifyComplete and ClassifyExact state its meaning |
| StockSync.SyncSpec | app/jobs/tasks.py:11-100 | the reference run; the StockSyncProps lemmas on Sync state its properties |
| StockSyncProps.TickersFacts | app/jobs/tasks.py:26 | the ticker list holds exactly the symbols of the records that carry one |
| StockSyncProps.ClassifySound | app/jobs/tasks.py:50-77 | updates are stored tickers whose row differs, without created_at; inserts are unknown tickers with created_at; both carry the exchange, is_active, the run timestamp and a fetched record's fields |
| StockSyncProps.ClassifyComplete | app/jobs/tasks.py:50-77 | every symbol-bearing record is queued for update when stored and changed, for insert when not stored |
| StockSyncProps.ClassifyExact | app/jobs/tasks.py:64-74 | a record is queued for update iff its ticker is stored and a compared column differs, and for insert iff its ticker is not stored |
| StockSyncProps.QueuesDisjoint | app/jobs/tasks.py:64-77 | no ticker is queued both for update and for insert |
| StockSyncProps.ReplayReads | app/jobs/tasks.py:34-39 | the selects never change the table |
| StockSyncProps.ReplayUpserts | app/jobs/tasks.py:81-85 | when every update batch succeeds, the table is the old one with all updates written |
| StockSyncProps.ReplayInserts | app/jobs/tasks.py:90-94 | when every insert batch succeeds, all inserts are written and the table grows by their number |
| StockSyncProps.ReplayKeepsKeys | app/jobs/tasks.py:79-95 | no call deletes a row |
| StockSyncProps.ReplayFrame | app/jobs/tasks.py:79-95 | a key that no call writes keeps its row or stays absent |
| StockSyncProps.ReplayFailedPrefix | app/jobs/tasks.py:79-100 | when a call fails, every earlier call succeeded and stays applied, and the failed call is the last one issued |
| StockSyncProps.ReadPlan | app/jobs/tasks.py:26-39 | ceil(N / 100) selects for N tickers, each of 1 to 100 tickers, together the ticker list in order |
| StockSyncProps.WritePlan | app/jobs/tasks.py:79-95 | ceil(U / 100) update batches then ceil(I / 100) insert batches, each of 1 to 100 records, each queue in order |
| StockSyncProps.WriteOpsQueued | app/jobs/tasks.py:79-95 | every record the update and insert batches carry is a queued record |
| StockSyncProps.PlanWritesQueued | app/jobs/tasks.py:79-95 | every record a run writes is a queued record |
| StockSyncProps.SyncNoDeletion | app/jobs/tasks.py:79-95 | a run never deletes a row, and a ticker absent from the feed keeps its stored row |
| StockUniverse.WriteAllKeepsActive | app/jobs/tasks.py:79-95 | writing only active records leaves every active row stored and active |
| StockSyncProps.ReplayKeepsActive | app/jobs/tasks.py:79-100 | calls that write only active records never deactivate a row, whichever calls fail |
| StockSyncProps.SyncNeverDeactivates | app/jobs/tasks.py:55-100 | on every run, completed or failed, a row that was active is still stored and still active |
| StockSyncProps.SyncStoreFailure | app/jobs/tasks.py:79-100 | a run ending in a store error issued at least one call; the earlier calls stay applied, the last one failed, nothing after it was issued |
| StockSyncProps.SyncEarlyExit | app/jobs/tasks.py:21-24 | a missing exchange, a failed fetch or an empty feed makes no store call and leaves the table unchanged |
| StockSyncProps.SyncFeedPhases | app/jobs/tasks.py:26-95 | a run is the read phase and then, if every read succeeded, the write phase |
| StockSyncProps.ReplayPhases | app/jobs/tasks.py:26-95 | issuing a + b leaves the table of a, then of b only if a went through; the calls issued are a's prefix, or all of a and b's prefix; it succeeds iff both phases do |
| StockSyncProps.WritePhaseOk | app/jobs/tasks.py:79-95 | when every update names a stored ticker (as every run's queues do), a fully successful write phase holds every update and every insert and grows the table by the inserts |
| StockSyncProps.PlanOk | app/jobs/tasks.py:26-95 | a fully successful plan leaves the old table with the updates then the inserts written, grown by the inserts |
| StockSyncProps.SyncFeedSuccess | app/jobs/tasks.py:26-97 | a completed run after a fetch issued the whole plan and reports the queue sizes |
| StockSyncProps.SyncSuccess | app/jobs/tasks.py:11-100 | a completed run issued the whole plan, wrote every update then every insert, and grew the table by exactly the inserts |
| StockSyncProps.QueuedAgree | app/jobs/tasks.py:55-62 | in a consistent feed every queued record for a ticker agrees with each record carrying it |
| StockSyncProps.WrittenRowMatches | app/jobs/tasks.py:64-95 | after a completed run of a consistent feed (records for one symbol agree), every fetched ticker is stored with a row matching its record on the compared columns |
| StockSyncProps.ClassifyNothing | app/jobs/tasks.py:64-74 | when every record is stored and matches its row, nothing is queued |
| StockSyncProps.SyncIdempotent | app/jobs/tasks.py:64-74 | rerunning the same consistent feed after a completed run queues nothing, leaves the table unchanged and reports no write |
| AuthService.AuthStore.RegisterUser | app/services/auth_service.py:10-54 | a taken email gives the email error first, else a taken username gives the username error, both inserting nothing; otherwise exactly one active row with the hashed password is appended and returned; success iff both are free |
| AuthService.AuthStore.LoginUser | app/services/auth_service.py:56-105 | with no user found, no password or a failed check: no token, sessions unchanged; otherwise every session of the user is deactivated, one active session with the new token and IP is appended, and the token is returned |
| AuthService.AuthStore.LogoutUser | app/services/auth_service.py:107-114 | every session of the user is deactivated; nothing else changes |
| AuthService.MatchingMembers | app/services/auth_service.py:19-20 | the email or username select returns exactly the rows with that value in that column |
| AuthService.MatchingFirst | app/services/auth_service.py:65-76 | the first row of a select is the first table row with that value in that column |
| AuthService.LoginTarget | app/services/auth_service.py:64-76 | the row login settles on; its choice is stated by AuthService.LoginTargetChoice |
| AuthService.Deactivate | app/services/auth_service.py:84 | the sessions update of login and logout; its effect is stated by AuthService.DeactivateEffect |
| AuthService.LoginTargetChoice | app/services/auth_service.py:64-76 | login takes the first email match; only without one, the first username match; with neither there is no target |
| AuthService.DeactivateEffect | app/services/auth_service.py:84 | deactivating keeps every row, leaves the user without an active session, and leaves other users' active sessions unchanged |
| AuthService.DeactivateIdempotent | app/services/auth_service.py:107-112 | logging out twice is logging out once |
| AuthService.LoginSessions | app/services/auth_service.py:83-101 | after a login the user has exactly one active session, the new one; other users' active sessions are unchanged |
| AuthService.ActiveSessionsMembers | app/middlewares/jwt_auth.py:39-46 | the active-session select returns exactly the user's rows with is_active set |
| JwtAuth.RequireJwt | app/middlewares/jwt_auth.py:12-24 | any decoding failure is the one 401 "Invalid or expired token"; a decoded payload is returned unchanged |
| JwtAuth.RequireActiveSession | app/middlewares/jwt_auth.py:26-61 | the session gate; its cases are stated by JwtAuth.RequireActiveSessionCases |
| JwtAuth.RequireActiveSessionCases | app/middlewares/jwt_auth.py:26-61 | the gate passes iff the user_id is truthy, the select succeeds and the user has an active session, returning the payload; otherwise the 401 for a bad payload, the 500, or the 401 for no session, in that order |
| JwtAuth.FalsyNeedsNoQuery | app/middlewares/jwt_auth.py:31-36 | a missing or zero user_id is refused whatever the table or the store does |
| JwtAuth.ProtectCases | app/middlewares/jwt_auth.py:12-61 | a protected route sees the decoded payload itself, or a 401 or 500 |
| JwtAuth.GateAfterLogin | app/middlewares/jwt_auth.py:39-61 | after a login every token with that user_id passes, including ones from earlier logins |
| JwtAuth.GateAfterLogout | app/middlewares/jwt_auth.py:39-52 | after a logout every token with that user_id gets the no-session 401 |
| JwtAuth.GateOtherUsers | app/middlewares/jwt_auth.py:39-46 | a logout of one user changes nothing for another user's tokens |
| Startup.ValidateEnv | app/core/startup.py:10-26 | the environment check; its cases are stated by Startup.ValidateEnvCases |
| Startup.ValidateConfiguration | app/core/startup.py:31-48 | the configuration check; its cases are stated by Startup.ValidateConfigurationCases |
| Startup.CheckThirdPartyServices | app/core/startup.py:52-86 | the API check; Startup.GuardsBeforeProbe and Startup.ProbeOutcomes state its cases |
| Startup.ValidateDbConnection | app/core/startup.py:92-100 | the database check; its cases are stated by Startup.DbCheckCases |
| Startup.StartScheduler | app/jobs/scheduler.py:10-17 | the scheduler start; Startup.ShippedConfigFacts states its outcome with the shipped configuration |
| Startup.Report | app/core/startup.py:118-126 | the line the first matching handler prints; Startup.ConnectionHandlerUnreachable states which handlers can match |
| Startup.MissingFromFacts | app/core/startup.py:23 | the missing list holds exactly the required names that are unset or empty, in list order |
| Startup.JoinContains | app/core/startup.py:26 | every name of a joined list occurs in the joined text |
| Startup.ValidateEnvCases | app/core/startup.py:10-26 | the environment check raises iff a required variable is unset or empty, raising an EnvironmentError whose message names every such variable |
| Startup.ValidateConfigurationCases | app/core/startup.py:31-46 | the configuration check raises iff a required key is absent or empty, raising an EnvironmentError whose message names every such key |
| Startup.GuardsBeforeProbe | app/core/startup.py:56-62 | a missing API key or base URL raises a ValueError whatever the network would answer |
| Startup.ProbeOutcomes | app/core/startup.py:64-86 | with both guards passing, the check passes iff the answer is a 200; a timeout or refused connection is a ConnectionError reported under the environment label; a non-200 answer or other failure is a plain Exception reported under the generic label |
| Startup.DbCheckCases | app/core/startup.py:92-100 | the database check raises iff there is no connection, with a ConnectionError reported under the environment label |
| Startup.ConnectionHandlerUnreachable | app/core/startup.py:118-126 | whatever a check raises, the printed line never carries the connection handler's label |
| Startup.ShippedConfigFacts | app/core/config.py:8-11 | with the shipped configuration the configuration check passes and the scheduler start fails with KeyError 'TIMEZONE' |
| Startup.RunChecks | app/core/startup.py:112-117 | the checks run in the order env, config, services, db; each check that ran before the last passed; the result is the last check's outcome, and all four ran when it passed |
| Startup.StartupEvents | app/core/startup.py:109-132 | the first failing check's exception is caught, to be printed as `Report` of it, and the process exits with status 1 without starting the scheduler; when all pass, the scheduler is attempted and its failure is only recorded |

## Left out

- The market-data HTTP client (`app/utils/finnhub.py`) and the startup probe's request (`app/core/startup.py:64-86`): network I/O. Their outcomes are inputs (`FetchResult`, `Probe`). Whether the probe's response JSON parses is not modelled, because its decode error is caught (`app/core/startup.py:72-73`) and does not change the outcome. A decode error of the fetch (`app/utils/finnhub.py:27`) is not caught and ends the run: it is folded into `FetchFailed`.
- The Supabase client and `check_connection` (`app/models/database.py`): an external library. The tables live in the model, and `check_connection`'s answer is an input. Which batches the store rejects is an assumption: an insert of a ticker already stored or repeated in the batch, and an upsert that repeats a ticker.
- JWT encoding and decoding (`app/utils/token.py`) and password hashing and verification: foreign cryptographic calls. They are function parameters, or their outcome is an input.
- APScheduler (`app/jobs/scheduler.py`): threads and timers. Only the `config["TIMEZONE"]` lookup of line 15 and an abstract failure are modelled.
- `another_task` (`app/jobs/tasks.py:8-9`): it only prints.
- `print`, `datetime.utcnow()`, `asyncio.run` and `os._exit`: the timestamp is a parameter, and the exit is the `exitCode` of the run.
- FastAPI routing and app assembly (`app/routes/*`, `app/main.py`, `app/core/exceptions.py`) and `app/services/user_service.py` are not part of this model.
- AuthService.AuthStore.RegisterUser: an insert that returns no data (the `None` result of line 39) and store API errors are not modelled; the insert always returns the new row.
- AuthService.AuthStore.RegisterUser: the two ValueErrors are named by their cause (`EmailTaken`, `UsernameTaken`); their message text is not modelled.
- AuthService.AuthStore.LoginUser: a row whose password is NULL passes the column test of line 77 and reaches `verify_password` with `None`; the model treats it like a row without the column, a failed check.
- AuthService.AuthStore.LoginUser: store API errors, which the source re-raises unchanged, are not modelled. A login that deactivates the old sessions and then fails on the insert is therefore not covered.
- AuthService.AuthStore.LogoutUser: store API errors are not modelled.
- Startup.StartScheduler: creating the scheduler and adding the interval job (`app/jobs/scheduler.py:11`, `14`) are taken not to fail; `fault` is a failure of `scheduler.start()` (line 17), so a missing `TIMEZONE` always decides the outcome first.
- AuthService.AuthStore: the database-assigned user ids come from a counter (`nextId`).
- JwtAuth.ProtectCases: the model starts from a presented token. `HTTPBearer()` (`app/middlewares/jwt_auth.py:10`, `12`) refuses a request without a Bearer header before `require_jwt` runs; that refusal is not modelled.
- JwtAuth.RequireActiveSession: the user_id claim is modelled as an integer or absent. Other claim types (strings, booleans) and their truthiness are not modelled.
- StockSyncProps.WrittenRowMatches: holds only for a feed whose records for one symbol agree (`ConsistentFeed`). With one symbol stored and fetched twice with different fields, only the records that differ from the stored snapshot are queued, and the row may then not match the other record.
- StockSyncProps.SyncIdempotent: holds only for a feed whose records for one symbol agree (`ConsistentFeed`). A feed carrying one symbol twice with different fields queues both records, and a rerun may then write again.
- StockSync.ReadExisting, StockSync.UpsertInBatches, StockSync.InsertInBatches: the loops iterate over the batch list `Batches(xs)` rather than over the index `i` of `range(0, len(xs), 100)`. `Batching.BatchesPartition` states that this list is exactly the slices `xs[i:i + 100]`.
