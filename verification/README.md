# Wallet ledger, outbox and flags: a verified model

This project models the money and event pipeline of the fraud transaction
service: wallets, transfers, the transactional outbox and its worker, manual
fraud flags, and the admin list. It proves what a run of the service guarantees
when any number of requests are in progress at once.

## How it is organised

| file | what it holds |
|---|---|
| `Numeric.dfy` | NUMERIC(18,2): exact amounts of any scale, rounding on assignment, overflow |
| `Ledger.dfy` | the three tables, every SQL statement, every committed operation, sequential runs |
| `MapSum.dfy` | sums over the rows of a table |
| `LedgerLaws.dfy` | what every sequential run guarantees: drift, ledger equation, money supply, ranges, freezing, row/event pairing, flag history |
| `Machine.dfy` | the running service as a state machine: one SQL statement or one Kafka write per step |
| `Serializability.dfy` | every interleaved execution is a sequential run of its commits in commit order |
| `Completeness.dfy` | and every sequential run of requests is such an execution |
| `MachineLaws.dfy` | the laws as they hold in every reachable state, and what callers are told under interference |
| `Rings.dfy`, `Deadlock.dfy` | when creations get stuck on each other's rows: every deadlock is a ring of transfers, and one is reachable if and only if the transfers in flight cannot be ranked |
| `Scenarios.dfy` | short executions: funding two wallets, and an answer that was never true |
| `Outbox.dfy`, `Relay.dfy`, `Drain.dfy`, `WorkerTicks.dfy` | the outbox query, the worker's tick as a loop, order, the drain bound, and tick and order with everyone else running |
| `Delivery.dfy`, `EndToEnd.dfy` | delivery counts, and the topic against the ledger |
| `Alerts.dfy`, `Announcements.dfy` | fraud alerts against committed flag transitions, when a flag can be repeated, and what the last message about a transaction says |
| `Repository.dfy`, `Service.dfy` | the repositories and services as classes that update rows in place, with rollback, proved against `Ledger.dfy` |
| `Like.dfy`, `Filter.dfy`, `Paging.dfy`, `WalletStatus.dfy` | ILIKE, the WHERE-clause builder and its meaning, pagination, the bulk wallet status |
| `Listing.dfy` | what the list's filters show of the ledger |

An execution is a list of labelled steps, so "every execution" quantifies over
every interleaving, every failure and every rollback. `Machine.Exec` gives the
state after a list of steps; `Serializability.Serializable` turns it into
`Ledger.Run`, and the laws of `LedgerLaws` then hold of it.

## What is assumed about the outside

- PostgreSQL at READ COMMITTED: an UPDATE locks the row it writes until commit
  or rollback; its WHERE clause is decided on the row as it is once the lock is
  free; an UPDATE whose WHERE clause matches nothing waits for nobody; a commit
  is atomic; a transaction can be rolled back at any time. A deadlock that the
  database detects shows up as such a rollback.
- Assigning to NUMERIC(18,2) rounds ties away from zero and fails from 10^16 on.
- Ids drawn by the service and by the database are not in use. `created_at` is
  an arbitrary number fixed when the transaction starts; nothing relates it to
  commit order.
- `pkg/kafka/producer.go` leaves the writer's retries on: one Publish call may
  leave any number of unconfirmed copies in the topic, and adds one acknowledged
  copy if it succeeds. A failed mark, and a COMMIT whose answer is lost, may or
  may not have taken effect. Alerts are counted per Publish call.
- A Kafka partition is a function of the key.
- One worker runs at a time.
- `strconv.ParseFloat` is a flag handed to the service; if it is set the amount
  is positive.

## Where the code and its documentation differ

- The repository calls a transfer atomic and race-free, which it is; but money is
  conserved only for amounts that do not end in half a cent. `HalfCentMintsACent`
  is a concrete case, `TransferDrift` the exact condition.
- `internal/service/transaction_service.go:209-212` says that an admin whose
  flag failed to publish can retry. In every continuation the retry is refused
  unless the transitions committed since end with an unflag, and the given-up
  alert is missing for good (`FailedAlertCannotBeRetried`).
- `internal/repository/transaction_repository.go:43-44` says that the search box
  matches ids that contain its text. Over ids that holds if and only if the text
  is free of `%`, `_` and backslash, or cannot match any id at all
  (`IdSearchIsContainsIff`).
- The final "not found" answers of `Credit` and `classifyMissingOrDisabled` are
  unreachable in a quiet database (`ExplanationIsExact`) and wrong in a busy one
  (`CreditFallbackCanBeWrong`, `FallbackCanBeWrong`).
- `internal/dto/wallet_dto.go:46-47` says that an id without a row is reported as
  missing. So is an existing wallet whose id was requested in another spelling
  than the database prints (`BulkAgreesWithSingle`).
- The list is documented as paginated newest first. Its pages are sure to cover
  every row once if and only if no two rows with the same time lie on two pages
  (`PagesCoverOnceIff`).

## Model

| member | source | states |
|---|---|---|
| Numeric.RoundIsNearest | migrations/000002_create_wallets.up.sql:3 | Assignment to the column stores the nearest cent, ties away from zero, and no other value is nearest |
| Numeric.CoversIsAtMost | internal/repository/wallet_repository.go:199 | The balance guard holds if and only if the exact, unrounded amount is at most the balance |
| Numeric.MinusExact | internal/repository/wallet_repository.go:197-199 | A debit let through by `balance >= $1` removes the amount rounded to the cent, ties down; it neither crosses zero nor overflows, for amounts of any scale |
| Numeric.PlusExact | internal/repository/wallet_repository.go:230 | A credit adds the amount rounded to the cent, ties up, and fails exactly on overflow |
| Numeric.StoredExact | migrations/000001_create_transactions_and_outbox.up.sql:5 | The transaction row records exactly the cents the credit adds |
| Numeric.ColumnBound | migrations/000002_create_wallets.up.sql:3 | The column takes exactly the values of two decimals strictly between -10^16 and 10^16, the largest being 9999999999999999.99 |
| Numeric.DebitCreditGap | internal/repository/wallet_repository.go:197-230 | Credit and debit of one amount differ by one cent exactly when the amount ends in half a cent, and agree with the amount itself when it is whole cents |
| Numeric.TwoDigitsAreTwoDecimal | internal/dto/transaction_dto.go:18 | Any literal with at most two digits after the point is whole cents |
| Numeric.TrailingZero | internal/service/transaction_service.go:121 | Trailing zeros of the amount string change no guard, debit, credit or row |
| LedgerLaws.DebitEffect | internal/repository/wallet_repository.go:196-227 | A debit succeeds exactly when its WHERE clause matches, and changes only the sender's balance |
| LedgerLaws.CreditEffect | internal/repository/wallet_repository.go:229-255 | A credit succeeds exactly when the wallet is enabled and the balance does not overflow |
| LedgerLaws.MoveMoneyEffect | internal/repository/transaction_repository.go:107-114 | Debit then credit, sender and receiver possibly the same wallet: each balance moves by exactly its share, nothing else changes, and the total grows by the half-cent drift |
| LedgerLaws.TransferDrift | internal/repository/transaction_repository.go:91-153 | A committed transfer leaves the sum of balances unchanged if and only if the amount does not end in half a cent; otherwise it adds one cent |
| LedgerLaws.HalfCentMintsACent | internal/repository/wallet_repository.go:197-230 | Sending 0.005 to oneself commits and creates one cent |
| LedgerLaws.BalancesStayInRange | migrations/000002_create_wallets.up.sql:3 | No sequential run takes a balance below zero or past its column, whatever the scale of the amounts |
| LedgerLaws.LedgerEquation | internal/repository/transaction_repository.go:107-131 | Every balance is its top-ups plus received rows minus sent rows plus one cent per half-cent amount sent |
| LedgerLaws.MoneySupply | internal/repository/wallet_repository.go:131-149 | The sum of all balances is all top-ups plus one cent per committed half-cent amount |
| LedgerLaws.BooksBalance | internal/repository/transaction_repository.go:107-131 | With whole-cent amounts balances equal top-ups plus received minus sent, and the total equals the top-ups |
| LedgerLaws.FrozenWalletsKeepTheirBalance | internal/repository/wallet_repository.go:153-171 | No operation changes the balance of a disabled wallet, and a transfer needs both wallets enabled |
| LedgerLaws.DisableTakesEffect | internal/repository/wallet_repository.go:153-171 | Toggling changes only that wallet's switch; a disabled wallet refuses every top-up and every transfer from or to it |
| LedgerLaws.FrozenUntilEnabled | internal/repository/wallet_repository.go:153-171 | From a point of a run at which a wallet is disabled until it is enabled again, it neither changes nor takes part in any operation that moves money |
| LedgerLaws.NewWalletTakesTopUps | internal/repository/wallet_repository.go:86-101 | A new wallet is empty and accepts a top-up at once |
| LedgerLaws.CreateWalletVerdict | internal/repository/wallet_repository.go:86-101 | A wallet is created if and only if it is not there; otherwise it is reported as existing |
| LedgerLaws.SetEnabledVerdict | internal/repository/wallet_repository.go:153-171 | A wallet is switched if and only if it is there, and then only its switch changes; otherwise it is reported as missing |
| LedgerLaws.TopUpVerdict | internal/repository/wallet_repository.go:131-149 | Missing, then disabled, then overflow at 10^16; otherwise exactly that balance grows by the rounded amount |
| LedgerLaws.FlagVerdict | internal/repository/transaction_repository.go:252-282 | Flagging needs a completed row, unflagging a flagged one; a missing row is reported as missing, any other as not flaggable or not flagged |
| LedgerLaws.WalletsAreCreated | internal/repository/wallet_repository.go:86-101 | In every run the wallets are exactly the created ones, each created once; no other operation, a toggle included, brings one about |
| LedgerLaws.SwitchIsLastToggle | internal/repository/wallet_repository.go:153-171 | In every run a wallet is enabled exactly if its last toggle enabled it or it was never toggled |
| LedgerLaws.ApplyGrows | internal/repository/transaction_repository.go:120-144 | No row is ever deleted; only creating a wallet adds one, and only that one; a transaction changes only its status, an event is only marked published |
| LedgerLaws.TransferRows | internal/repository/transaction_repository.go:120-144 | A committed transfer inserts one row and one event under new ids, the row with the amount the credit adds |
| LedgerLaws.RowsAndEventsPair | internal/service/transaction_service.go:115-145 | Rows and events correspond one to one by aggregate id, with equal parties, currency and time, and a payload amount that rounds to the row's |
| LedgerLaws.FlagHistory | internal/repository/transaction_repository.go:241-282 | Committed flags and unflags of a transaction alternate, a flag first, and determine its status; pending and failed never occur |
| LedgerLaws.FlagCounts | internal/repository/transaction_repository.go:241-247 | Flags exceed unflags by one exactly while the status is flagged |
| Serializability.CommitIsTransfer | internal/repository/transaction_repository.go:146-149 | Publishing the rows a creation holds locked equals running the whole transfer at the moment of commit |
| Serializability.RollbackLeavesNoTrace | internal/repository/transaction_repository.go:99 | A creation that ends by error, by lookup or by lost connection leaves the tables as they were, its ids unused and its locks gone |
| Serializability.StepSimulates | internal/repository/transaction_repository.go:91-153 | Every step of every participant commits at most one operation, and that operation succeeds sequentially on the committed tables |
| Serializability.Serializable | internal/repository/transaction_repository.go:91-153 | Every execution's committed tables are the sequential replay of its commits in commit order |
| Completeness.SequentialRunHappens | internal/repository/transaction_repository.go:91-153 | Every sequential run of requests is an execution of the interleaved service |
| Completeness.ReachableIffSequential | internal/repository/transaction_repository.go:91-153 | As long as the worker has marked nothing, tables are reachable by interleaving if and only if they are reachable one operation at a time |
| MachineLaws.BalanceBound | internal/repository/wallet_repository.go:197-199 | In every reachable state every balance, committed or uncommitted, is non-negative and fits its column |
| MachineLaws.ConcurrentBooks | internal/repository/wallet_repository.go:131-255 | Ledger equation and money supply in every reachable state, exact to the cent for whole-cent amounts |
| MachineLaws.FreezeSafety | internal/repository/wallet_repository.go:153-171 | While a wallet is committed as disabled no step changes its balance, and both wallets are enabled when a transfer commits |
| MachineLaws.HeldRowsAreStable | internal/repository/transaction_repository.go:107-146 | Between debit and commit nobody else changes the rows a creation wrote, a disable request included |
| MachineLaws.FrozenThroughout | internal/repository/wallet_repository.go:153-171 | Over any continuation of any execution a disabled wallet stays exactly as it is until a step enables it, whatever was in flight |
| MachineLaws.WalletsAndSwitches | internal/repository/wallet_repository.go:86-171 | In every execution the wallets are exactly those whose creation it committed, each once, enabled as their last committed toggle says |
| MachineLaws.RowsEventsFlags | internal/repository/transaction_repository.go:120-149 | Row/event pairing and flag history in every reachable state |
| MachineLaws.NotFoundIsTrueOf | internal/repository/wallet_repository.go:209-226 | Under interference a not-found from Debit or flagging is true of the update it explains; one from Credit or AddBalance is true or is the fallback for a wallet that is present and enabled |
| MachineLaws.ExplanationIsExact | internal/repository/wallet_repository.go:178-255 | Without interference the lookups answer exactly missing, then disabled, then insufficient, and never the fallback |
| MachineLaws.FallbackCanBeWrong | internal/repository/wallet_repository.go:178-191 | An execution in which a top-up reports not found for a wallet that exists throughout |
| Scenarios.CreditFallbackCanBeWrong | internal/repository/wallet_repository.go:229-255 | An execution in which a transfer is told that its receiver was not found, although that wallet exists throughout and is enabled when the answer is given |
| Deadlock.OnlyLocksBlock | internal/repository/transaction_repository.go:107-146 | A creation can go on by itself if and only if it is not waiting for a row another creation holds |
| Deadlock.FollowWaits | internal/repository/transaction_repository.go:107-114 | With ranked transfers, following who waits for whom ends at a creation that is not blocked |
| Deadlock.AcyclicTransfersNeverDeadlock | internal/repository/transaction_repository.go:107-114 | If sender-to-receiver edges go up in some rank, one creation in flight can always go on without being rolled back from outside |
| Deadlock.RingStaysStuckForGood | internal/repository/transaction_repository.go:107-114 | Over any continuation of any execution, a ring of any number of transfers that have debited, each paying the sender of the next, stays stuck until a member is rolled back from outside |
| Deadlock.DeadlockIffRing | internal/repository/transaction_repository.go:107-146 | A set of creations each waiting for a row that another of them holds exists if and only if such a ring does |
| Deadlock.NobodyMovesIsDeadlock | internal/repository/transaction_repository.go:107-146 | If creations are in flight and none can go on by itself, all of them are deadlocked and such a ring exists |
| Deadlock.DeadlockReachableIffUnranked | internal/repository/transaction_repository.go:107-114 | From transfers that are about to debit, whose debits match, a deadlock among them is reachable if and only if no rank of the wallets goes up with every transfer |
| Deadlock.OppositeTransfersDeadlock | internal/repository/transaction_repository.go:107-114 | An execution from empty tables in which two transfers of one unit each way form such a ring |
| Relay.OutboxWorker.GetUnpublished | internal/repository/outbox_repository.go:33-52 | Returns the oldest unpublished events, at most limit of them, each once, in order |
| Relay.OutboxWorker.MarkPublished | internal/repository/outbox_repository.go:54-68 | Sets published_at of that event only |
| Relay.OutboxWorker.PublishPending | internal/worker/outbox_worker.go:57-95 | One tick: the batch is a proper fetch, and outbox and topic end up as the tick function says for whatever fails |
| Relay.OutboxWorker.Run | internal/worker/outbox_worker.go:40-55 | Every tick of the plan takes place on what the one before left: nothing if its query fails, otherwise a proper fetch handled as the tick function says; and each newly marked event was acknowledged since |
| Relay.TickProgresses | internal/worker/outbox_worker.go:64-94 | Within one tick an event is marked only after a copy of it was acknowledged |
| Relay.TickDelivers | internal/worker/outbox_worker.go:64-94 | Each partition receives, in batch order, exactly the acknowledged events of the batch |
| Relay.OvertakingOnlyByFailure | internal/worker/outbox_worker.go:71-81 | A later event of the same sender gets ahead of an earlier one in a tick only if the earlier one's decode or publish failed in that tick |
| Relay.SmoothTickKeepsOrder | internal/worker/outbox_worker.go:64-94 | When every event of a fetched batch is acknowledged, each partition of the topic grows by exactly its rows of the batch, in created_at order |
| Drain.TickMarks | internal/worker/outbox_worker.go:83-87 | A tick publishes exactly the events whose mark took effect |
| Drain.RoundProgress | internal/worker/outbox_worker.go:57-95 | A tick delivers at least limit minus the number of failing events, or all healthy ones left |
| Drain.BacklogDrains | internal/worker/outbox_worker.go:57-95 | With k always-failing events and batch size b above k, all h healthy events are published within ceil(h/(b-k)) ticks |
| Drain.SmoothRunDrains | internal/worker/outbox_worker.go:40-95 | When every tick fetches and delivers, ceil(h/10) ticks of the polling loop leave none of the h unpublished events, and each has a new acknowledged copy |
| Drain.CeilDivIsLeast | internal/worker/outbox_worker.go:57-95 | The number of ticks in these bounds is the least number of batches that hold the events |
| Drain.FetchTakesTen | internal/worker/outbox_worker.go:30-36 | A tick over at most ten unpublished events fetches them all, over more it fetches ten |
| Drain.CloggedQueueStarves | internal/repository/outbox_repository.go:35-39 | With b always-failing oldest events no other event is ever published |
| Drain.RoundExists | internal/repository/outbox_repository.go:33-52 | Whatever the outbox holds there is a next tick |
| WorkerTicks.UninterruptedWorkerTicks | internal/worker/outbox_worker.go:57-95 | The worker's steps in the running service, uninterrupted, have the effect of the tick function |
| WorkerTicks.TickHasBegun | internal/worker/outbox_worker.go:57-95 | In every execution a busy worker fetched its batch at some step and has not ended that tick, crashed or fetched since |
| WorkerTicks.WorkerIsAlwaysMidTick | internal/worker/outbox_worker.go:57-95 | Under any interleaving, what the worker has added to the topic and marked in the outbox since the step that fetched its batch is exactly what the tick function does, from the state at that fetch, for the outcomes read off the steps taken since |
| WorkerTicks.OvertakingOnlyByFailure | internal/worker/outbox_worker.go:57-95 | In every execution, before any acknowledged copy of an event lies a copy of each older event of that sender that was in the outbox when it was fetched, unless that one's own decode or publish failed in that very tick |
| WorkerTicks.BatchCanBeFinished | internal/worker/outbox_worker.go:64-94 | From every reachable busy state the worker can finish its batch, every event left in it published |
| WorkerTicks.NextTickComes | internal/worker/outbox_worker.go:46-54 | A worker that has handled its batch can end its tick and fetch again |
| WorkerTicks.CrashIsPossible | internal/worker/outbox_worker.go:57-95 | From every busy state a crash is possible; it forgets the batch and changes no table and no topic |
| Delivery.DeliveryCount | internal/worker/outbox_worker.go:64-87 | In every reachable state the acknowledged copies of an event are its failed marks plus crashes after acknowledgement plus its at most one successful mark plus the one in hand; a published event has a copy |
| EndToEnd.DedupHolds | internal/worker/outbox_worker.go:77 | Ignoring repeats keeps each transaction of the topic exactly once |
| EndToEnd.TopicMatchesTable | internal/repository/transaction_repository.go:133-149 | Only committed transactions are in the topic, with matching contents and keyed by their sender, and each one missing has an unpublished event |
| EndToEnd.BalanceFromPayloads | internal/service/transaction_service.go:126-133 | A balance is the top-ups plus the committed payloads replayed |
| EndToEnd.DrainedTopicIsTheLedger | internal/worker/outbox_worker.go:57-95 | Once the backlog is empty the deduplicated topic holds every transaction and, replayed over the top-ups, gives every balance |
| EndToEnd.WholeCentsReplayPlainly | internal/service/transaction_service.go:130 | For whole-cent amounts replaying is adding and subtracting the amount |
| Alerts.AlertsAccountForTransitions | internal/service/transaction_service.go:213-300 | In every execution the committed transitions of each kind are exactly the alerts of that kind published, still to publish and given up |
| Alerts.AlertsInjectIntoTransitions | internal/service/transaction_service.go:213-300 | Published alerts of each kind never outnumber the committed transitions of that kind |
| Alerts.FailedAlertCannotBeRetried | internal/service/transaction_service.go:205-243 | Once the alert of a committed flag was given up, in every continuation the flag can be repeated if and only if the transitions committed since end with an unflag, and some committed flag stays without an alert |
| Announcements.RequestIsMachineSteps | internal/service/transaction_service.go:213-300 | An accepted flag or unflag request is two steps of the machine, the status change and the announcement of its kind; a refused one is impossible there |
| Announcements.LastAlertAgreesIff | internal/service/transaction_service.go:213-300 | After any sequence of requests the last message about a transaction says cleared if and only if its row is completed, exactly when an even number of accepted requests about it went unannounced since; otherwise it says the opposite |
| Announcements.LastAlertAgrees | internal/service/transaction_service.go:213-300 | When every Publish succeeds the last message about a transaction always agrees with its row |
| Repository.WalletRepository.Create | internal/repository/wallet_repository.go:86-101 | Inserts an empty enabled wallet, or reports that it exists and changes nothing |
| Repository.WalletRepository.ClassifyMissingOrDisabled | internal/repository/wallet_repository.go:178-191 | After an update that matched no row the answer is the one error every top-up, credit and debit of that wallet meets, so the fallback is not reached unless the wallet is there and enabled |
| Repository.WalletRepository.AddBalance | internal/repository/wallet_repository.go:131-149 | The top-up operation with its new row, or the exact error and no change |
| Repository.WalletRepository.SetEnabled | internal/repository/wallet_repository.go:153-171 | The enable/disable operation with its new row, or not found |
| Repository.WalletRepository.Debit | internal/repository/wallet_repository.go:196-227 | The debit, or missing, disabled, insufficient in that order, and no change |
| Repository.WalletRepository.Credit | internal/repository/wallet_repository.go:229-255 | The credit, or missing, disabled in that order, never the fallback, and no change |
| Repository.TransactionRepository.Create | internal/repository/transaction_repository.go:91-153 | The whole transfer or tables exactly as before: the whole of it only without a fault or when the answer to a COMMIT that took effect is lost, and the caller sees an error in every faulty case |
| Repository.TransactionRepository.TransitionStatus | internal/repository/transaction_repository.go:252-282 | Moves the row from exactly one status, or says whether it is missing or ineligible |
| Repository.TransactionRepository.Flag | internal/repository/transaction_repository.go:241-243 | completed to flagged |
| Repository.TransactionRepository.Unflag | internal/repository/transaction_repository.go:245-247 | flagged to completed |
| Service.TransactionService.Create | internal/service/transaction_service.go:81-158 | Checks in order, nothing written when one fails; on success the new row, the new event and every balance are given in the caller's own parties, amount and currency, INR only if none was given; an error means nothing was written unless the answer to the COMMIT was lost |
| Service.TransactionService.Flag | internal/service/transaction_service.go:213-251 | Status first, then one message field by field against the committed row, score 100, not cleared, with the given reason or the default; a failed alert is reported but undoes nothing |
| Service.TransactionService.Unflag | internal/service/transaction_service.go:263-300 | The same the other way, with a message of score 0 that says cleared |
| Service.WalletService.TopUp | internal/service/wallet_service.go:70-86 | Invalid amounts are refused; otherwise the top-up operation |
| LedgerLaws.TransferVerdict | internal/repository/transaction_repository.go:107-144 | The error a transfer reports, sender before receiver, missing before disabled before insufficient, and a database error for whatever cannot be stored: overflow, an amount that rounds to nothing, a long currency, a taken id |
| LedgerLaws.TransferSucceedsIff | internal/repository/transaction_repository.go:91-153 | A transfer commits if and only if both wallets are enabled, the sender covers the unrounded amount, and every row can be stored |
| LedgerLaws.FlagAgainIff | internal/repository/transaction_repository.go:241-282 | In every sequential run, after a flag and anything else, the transaction can be flagged if and only if its moves since end with an unflag; otherwise it is not flaggable |
| LedgerLaws.UnflagUndoesFlag | internal/repository/transaction_repository.go:241-247 | An unflag right after a flag restores the tables |
| Like.PlainIsContains | internal/repository/transaction_repository.go:224-227 | For text without special characters the pattern is a substring test |
| Like.CaseDoesNotMatter | internal/repository/transaction_repository.go:224-226 | Swapping the case of any letters in pattern or text changes no result |
| Like.OnlyCaseIsIgnored | internal/repository/transaction_repository.go:224-226 | A pattern without special characters and wildcards matches exactly the texts with the same letters, so distinct letters never match |
| Like.SearchIsContainsIff | internal/repository/transaction_repository.go:224-227 | Over arbitrary text the pattern means "contains, in whatever case", said letter by letter without folding, if and only if the searched text has no special character |
| Like.IdSearchIsContainsIff | internal/repository/transaction_repository.go:224-227 | Over ids the search box means "contains, in whatever case" if and only if its text has no special character or fails a check of its literal characters and length against the shape of an id |
| Like.SpecialSearches | internal/repository/transaction_repository.go:224-227 | Both kinds of special text occur: one for which the box finds too much, one for which it finds nothing, as "contains" would |
| Filter.BuildTransactionFilter | internal/repository/transaction_repository.go:210-239 | Builds clause and arguments by appending, equal to the case-by-case clause and argument list |
| Filter.ClauseMeansFilter | internal/repository/transaction_repository.go:210-239 | Read with SQL precedence and its numbered arguments, limit and offset appended, the clause selects exactly status AND (id match OR party in list) |
| Filter.PlaceholdersMatchArguments | internal/repository/transaction_repository.go:210-239 | The placeholders of the clause are exactly $1 to $k for its k arguments |
| Paging.ListPlaceholders | internal/repository/transaction_repository.go:189-193 | The list query uses exactly $1 to $(k+2); the clause uses only the first k, and the last two are bound to limit and offset |
| Paging.List | internal/repository/transaction_repository.go:169-203 | Builds the clause, counts with its arguments, then fetches with limit and offset appended: the rows are the page, after defaults, of the wanted rows newest first, and the total counts all of them |
| Paging.OrderIsUniqueIff | internal/repository/transaction_repository.go:189-193 | Requests are sure to agree on the order if and only if no two selected rows share created_at |
| Paging.PagesCoverOnceIff | internal/repository/transaction_repository.go:169-203 | Over an unchanged table, and whatever order of ties each request sees, the pages at offsets 0, k, 2k, ... hold each selected row exactly once, newest first, if and only if no two rows with equal created_at lie on two pages |
| Paging.PagesCoverOnce | internal/repository/transaction_repository.go:169-203 | In particular they do when the times are distinct, and are as many as the total says |
| Listing.StatusLists | internal/repository/transaction_repository.go:214-217 | In every execution "flagged" lists exactly the transactions whose last committed move is a flag, "completed" exactly the others, and any other status text none |
| Listing.PlainSearchLists | internal/repository/transaction_repository.go:222-227 | A search for text without special characters lists exactly the rows whose id contains it, in any case |
| Listing.PartiesList | internal/repository/transaction_repository.go:228-231 | A list of user ids lists exactly the transactions one of them sent or received |
| Listing.FiltersCombine | internal/repository/transaction_repository.go:219-239 | Status narrows the search box, and the two halves of the box add up |
| WalletStatus.NewWalletStatusList | internal/dto/wallet_dto.go:48-64 | Entry i answers requested id i, compared as text, from the last found row with that text |
| WalletStatus.BulkAgreesWithSingle | internal/dto/wallet_dto.go:48-64 | Over the rows the bulk query returns, in any order, an answer equals the single lookup if and only if the id was written as the database prints it or has no wallet; otherwise it says missing, and a missing wallet is never taken for a disabled one |

## Left out

- HTTP handlers, routing, tokens, configuration, logging and start-up wiring: plumbing with no invariant of its own.
- The auth client: its answer is a parameter of `TransactionService.Create`, consulted before any table is touched.
- JSON: a payload is a record; a decode failure is one of the outcomes a tick may meet, chosen from outside, so it may strike any event.
- Clock values: `updated_at`, `detected_at`, durations and the polling interval; a tick is just a step, and the endless loop of `Run` is `OutboxWorker.Run` over a finite list of ticks, and in the machine the freedom to take further steps.
- `aggregate_type` and `event_type`: constants in every event.
- Single statements that take effect are steps of the machine, whatever their caller is told about them; single statements that fail are not, since they change nothing.
- `WalletRepository.GetByUserID`: reads one row; it is modelled but states nothing beyond its body.
- Case folding is ASCII only, and the filter's user ids are well-formed. Outside `WalletStatus.dfy` an id is a number: the spelling a caller chose is not kept.
- An unconfirmed Kafka copy that arrives only after later writes: the copies of one Publish call are put in the topic when the call ends.
- Relay.SmoothTickKeepsOrder: orders one batch; across ticks a failed publish lets later events overtake, and `WorkerTicks.OvertakingOnlyByFailure` says when.
- Completeness.ReachableIffSequential: leaves marks out, because the worker marks only what it fetched and published, while a sequential run may mark any event.
