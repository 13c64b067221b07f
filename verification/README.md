# Crypto Ledger Sandbox: a verified model of orders, ledger and outbox

The repository keeps one financial state in several redundant forms: wallet buckets and ledger entries, locked
balances and open orders, order status and outbox events, idempotency keys and effects, outbox flags and the
broker's log. Three kinds of database transaction (fund, create, cancel) and a relay process change that state.
This project models them and proves that the forms agree on every run, for every interleaving and every failure
of the relay.

The model has three layers, their composition, and the services as they are written.

* **Serial.** A database state is a value with five tables (`Rows`). `Services.Fund`, `Create` and `Cancel` say
  what a call does when it runs alone: the new state and the answer, error branches included. `Run` is a run of
  calls. `Invariants.Inv` is what every reachable state satisfies. Amounts are integers in units of 10^-18; the
  product of a price and a quantity is exact in units of 10^-36 and is rounded half away from zero when a
  NUMERIC(38,18) column stores it (`Decimals`), so the rounding of every stored value is part of every theorem.
* **Concurrent.** `Transactions` cuts each call at its unlocked lookups, `FOR UPDATE` reads and unique-index
  inserts. Any number of transactions step in any order, wait for rows and index entries held by others, commit
  or abort, under PostgreSQL's default READ COMMITTED.
* **Relay.** `Relay` runs any number of workers (`FOR UPDATE SKIP LOCKED`) beside the calls. The publisher may
  deliver, raise, or deliver and then raise; a worker may crash before its commit. `Drain` looks at one worker.
* **Composition.** One machine with interleaved transactions and relay workers together; each of its runs is a run
  of the relay machine with the calls in commit order, so the results of both layers hold at once.
* **Engine.** The class `Engine.Database` holds the tables as fields, and its methods follow the service
  functions statement by statement, rolling back where a flush violates a constraint. Each method is proved equal
  to the serial function above, so everything proved about runs holds of the methods.

Randomness (UUIDs), the transaction's start time and the publisher's behaviour are parameters (`Draw`, `Turn`,
`Delivery`) about which nothing is assumed: a drawn identifier may collide. The digest that makes ledger keys is an
arbitrary function. The opening balances are arbitrary as long as nothing is locked.

## Two things the code does not do exactly

* **Half units.** `available -= reserved_amount` is rounded after the subtraction and `reserved_amount` itself is
  rounded on its own, so a BUY whose product lies exactly on half a unit of 10^-18 makes the wallet's available
  balance one unit larger than its ledger. `Witnesses.UnitFromNothing` is such a run: a wallet with one unit holds
  two after an order of half a unit was created and canceled. `Effects.ReservationAmounts` says when it happens;
  `Runs.BalancesAreLedger`, `Runs.AssetConserved`, `Effects.TotalIsFunding` and `Erasure.ErasureExact` carry the
  exact correction.
* **Delivery order.** The relay orders events by `created_at`, which is the start of the transaction
  (`app/db/base.py:29-34`). A cancellation whose transaction started before that of the creation is announced
  first: `Witnesses.CanceledAnnouncedFirst` is such a run, and `Drain.InOrderIffStamped` gives the exact condition.
  An HTTP client cannot cause it by itself. It learns the order's identifier only after the creation has committed,
  and its cancellation runs in a session of its own that begins after that (`app/db/session.py:23-25`). It takes a
  caller of the service function whose session is already in a transaction, or a server clock that steps back.

## Model

| member | source | states |
|---|---|---|
| Refinement.ConcurrentIsSerial | app/services/orders.py:133-293 | After any schedule of any number of concurrent transactions the committed database is the one that the committed calls leave when run one at a time in commit order, and each of them succeeds in that run |
| Refinement.OnlyCommitsChange | app/services/orders.py:284 | No step but a commit changes committed state (aborts and waits leave no trace), and a commit changes state and answers exactly as its call does alone |
| Composition.RunsAreRelayRuns | app/services/outbox.py:34-63 | Any interleaving of transactions and workers is, for database, broker and claims, a run of the relay machine with the same workers' steps and the committed calls in commit order, each successful where it stands |
| Composition.ConcurrentIsSerialWithWorkers | app/services/outbox.py:52-62 | Apart from the delivery columns of the outbox, the database after any interleaving with workers is that of the committed calls run one at a time |
| Composition.RunsAreTransactionRuns | app/services/outbox.py:44-63 | Forgetting the workers, any run of the whole is a run of the transactions alone, with the same transaction states, commit order and, apart from the delivery columns, database |
| Concurrency.CommitIsSerial | app/services/orders.py:175-284 | Writes computed from rows read under lock are, at the commit, the writes of the whole call run alone on the state of that moment |
| Alone.Undisturbed | app/services/orders.py:315-426 | From every reachable state without active transactions, a transaction that runs undisturbed leaves the database and gets the answer of the serial call, whatever the call and the answer |
| Alone.ReplyOfTheMoment | app/services/orders.py:175-206 | In any schedule an answer without a commit is the one the call would get alone at that moment; only if another transaction has committed its key since its lookup can it be an error of the later steps |
| Alone.AbortedForGood | app/services/orders.py:284 | An abort releases everything at once, changes no committed row, and the transaction does nothing more |
| Progress.WaitsForLater | app/services/ledger.py:119-162 | A transaction only ever waits for one that is active and strictly further along the common lock order |
| Progress.NoWaitCycle | app/services/orders.py:175-221 | The wait-for graph has no cycle in any reachable state |
| Progress.AllCanFinish | app/services/orders.py:321-360 | From every reachable state all transactions in flight can be driven to their end by steps of active transactions none of which has to wait |
| Composition.NoDeadlockWithWorkers | app/services/outbox.py:44-48 | With workers beside the transactions there is still no wait cycle, and while a transaction is active one can step without waiting |
| Progress.WalletInsertSucceeds | app/services/ledger.py:119-152 | A funding that found no user wallet inserts one without waiting and without violating the unique constraint on (user, asset) |
| Answers.EveryAnswerJustified | app/services/orders.py:332-364 | In any schedule every success names a committed row with the request's data, and no cancellation is refused because the locked balance does not cover it or because of its status |
| Answers.CommittedAtMostOnce | app/services/ledger.py:57-86 | In any schedule each funding key, each (user, key) of an order and each cancellation of an order commits at most once |
| Answers.OneOrderPerSubmission | app/services/orders.py:113-130 | Any two successful submissions of a (user, key), in any schedule, name the same order and asked for the same order |
| Answers.EventInsertSucceeds | app/services/outbox.py:22-31 | The insert of an outbox row never waits for and never violates the unique `event_key` |
| Serial.ServeKeeps | app/services/orders.py:133-426 | Every call keeps the whole invariant: locked balances, ledger agreement, double entry, keys, releases and events |
| Serial.FundDone | app/services/ledger.py:97-132 | A funding moves money exactly when treasury, amount, key and identifier allow it |
| Serial.CreateDone | app/services/orders.py:144-236 | A creation reserves exactly when assets, balance, key and identifiers allow it |
| Serial.CancelDone | app/services/orders.py:321-364 | A cancellation releases exactly when the caller's order is OPEN and the drawn identifiers are new |
| Replies.FundAnswer | app/services/ledger.py:97-132 | Every answer of a funding in a reachable state, by the capitals of the asset code, the key, the treasury and the drawn identifier |
| Replies.CreateAnswer | app/services/orders.py:144-236 | Every answer of a creation in a reachable state, by the capitals of both codes, the amounts, the (user, key), the wallet, the digest of user and key, and the drawn identifiers |
| Replies.CreateGranted | app/services/orders.py:64-66 | With a digest without collisions, no order of one key is refused because of another: a creation is granted exactly when assets, amounts, balance, its own key and the identifiers allow it |
| Replies.CancelAnswerAnywhere | app/services/orders.py:321-364 | Every answer of a cancellation on any database, also for a FILLED order, a missing asset and an uncovered reservation |
| Replies.FundReplayAnywhere | app/services/ledger.py:57-86 | On any database only a POSTED FUNDING transaction with the key and the user's credit of the amount is replayed; any other transaction with the key is a conflict |
| Replies.FundIgnoresCase | app/services/ledger.py:100-105 | Asset codes that differ only in the case of letters give the same funding |
| Replies.CreateIgnoresCase | app/services/orders.py:69-78 | Asset codes that differ only in the case of letters give the same creation |
| Rows.ActiveAssetIs | app/services/orders.py:69-78 | The lookup finds an asset exactly when the table holds it, active, under the code with every small letter made a capital |
| Runs.LockedIsOpenOrders | app/services/orders.py:223-239 | In every reachable state a wallet's locked balance is the sum of the amounts reserved by its OPEN orders |
| Runs.CancelAnswer | app/services/orders.py:332-379 | The complete answer of a cancellation in a reachable state: the reservation-state errors and the not-cancelable error do not occur |
| Runs.OrderLifecycle | app/services/orders.py:265-284 | An order is OPEN or CANCELED, has exactly one reservation and exactly one `order.created`, and exactly one `order.canceled` and one release transaction if and only if it is CANCELED; every reservation is for exactly one order, and no event has the key of an order that does not exist |
| Runs.BalancesAreLedger | app/services/ledger.py:154-190 | Each bucket is its opening value plus credits minus debits; available is ahead by exactly the number of orders of that wallet on a half unit, which is at most the number of its BUY orders, and nothing if and only if there is none |
| Runs.DoubleEntry | app/services/orders.py:241-262 | Every transaction has exactly one debit and one credit of the same amount in one asset, between the buckets its type calls for, and keys are not shared |
| Runs.AssetConserved | app/services/orders.py:377-402 | Available plus locked over all wallets of an asset, treasury included, changes only by half-unit reservations |
| Idempotency.RunGrows | app/services/orders.py:321-379 | Rows are never removed, ledger and outbox rows never change, an order only goes from OPEN to CANCELED |
| Idempotency.OrderKeyAnswers | app/services/orders.py:81-130 | A committed (user, key) answers every later valid request: a replay exactly when the data are the same, a conflict otherwise, nothing changes |
| Idempotency.RetryReplays | app/services/orders.py:156-206 | After a creation, whatever ran since, the same request is a replay of that order |
| Idempotency.FundingReplayExact | app/services/ledger.py:57-86 | After a funding, whatever ran since, a request with its key replays exactly when user, asset and amount are the original ones and conflicts otherwise |
| Effects.ReservationAmounts | app/services/orders.py:234-257 | A BUY reserves price times quantity of the quote asset, a SELL the quantity of the base asset, and no other wallet moves; locked increment, order and both entries carry the stored amount; the available decrement is one unit smaller exactly on a half unit, which only a BUY can reach |
| Effects.OthersUntouched | app/services/orders.py:175-183 | A call changes no wallet of another user, and only a funding changes the treasury |
| Effects.DoneAtMostOnce | app/services/orders.py:156-236 | In a run no funding key moves money twice, no (user, key) makes two orders, no order is released twice |
| Effects.TotalIsFunding | app/api/routes/balances.py:34-42 | The listed total of a user and asset is the opening total plus the sum over the FUNDING transactions for it, no two of which share a key, plus one unit per half-unit reservation; that sum is what the successful fundings of the run moved |
| Erasure.ErasedOrder | app/services/orders.py:238-239 | In any run, without a half unit, a creation and all calls about its order can be taken out: every other call that succeeded still succeeds with the same answer, and the final states differ by that order's rows and by what it still locks |
| Erasure.ErasureExact | app/services/orders.py:377-379 | In any run, for an order created and canceled: the other successful calls' answers and all final balances are unchanged by its erasure if and only if its amount does not lie on a half unit |
| Witnesses.UnitFromNothing | app/services/orders.py:238-239 | A run in which creating and canceling a BUY of half a unit turns one unit into two, and which cannot be erased without a difference |
| Erasure.EffectiveRun | app/services/orders.py:184-187 | Refused calls can be left out of any run without changing its final state |
| Decimals.StoreIsNearest | app/models/wallet.py:62-73 | A NUMERIC(38,18) column stores the nearest value, the larger on a tie, and only that one |
| Decimals.StoreSubtracts | app/services/orders.py:238 | Subtracting before rounding instead of after leaves one unit more exactly on a tie |
| Rows.EventKeyInjective | app/services/outbox.py:22-28 | `type:uuid` tells apart any two transitions |
| Rows.LedgerTextInjective | app/services/orders.py:64-66 | The text that a ledger key digests tells apart any two pairs of user and key |
| Rows.UuidTextDenotes | app/services/outbox.py:24 | The text of an identifier is a hexadecimal numeral that denotes it |
| Relay.NoLossNoPhantom | app/services/outbox.py:44-63 | For any workers, crashes and publisher failures: a published event is in the broker's log, and every message is a committed event about a transition its order has made |
| Composition.NothingLostNothingInvented | app/services/outbox.py:44-63 | The same under interleaved transactions, with claims exclusive and on unpublished events only |
| Relay.PublishedForEver | app/services/outbox.py:40-62 | A marked event is never unmarked or changed again, and no worker ever holds it again |
| Relay.SameKeySameEvent | app/services/outbox.py:22-28 | Two messages have the same `event_key` exactly when they are copies of one event |
| Relay.ConsumedOnce | README.md:41 | A consumer that deduplicates by `event_key` sees every transition in the log exactly once |
| Relay.ClaimsExclude | app/services/outbox.py:44-48 | No event is held by two workers, and a held event is unpublished |
| Relay.ClaimTakesNext | app/services/outbox.py:44-48 | An idle worker gets an event exactly when some unpublished one is not held, whatever else is held, and then the first such event |
| Relay.CrashLosesTheClaim | app/services/outbox.py:53-62 | A crash before the commit loses the claim and nothing else, so the event can be claimed again |
| Relay.RowsTellAttempts | app/services/outbox.py:52-62 | Attempts, error and publication mark of an outbox row agree in every run, and an error has at most 2000 characters |
| Attempts.AttemptsCounted | app/services/outbox.py:52-62 | In every run, an event's attempts are exactly those that reached their commit, failures included; all but the last failed; `published_at` is the clock of the last if it succeeded, `last_error` the first 2000 characters of its error if not |
| Attempts.AttemptsCountedAmongTransactions | app/services/outbox.py:52-62 | The same under interleaved transactions |
| Attempts.LoopRecordsTurns | app/workers/outbox_relay.py:24-31 | The loop records every turn of the publisher on the event it was spent on |
| Attempts.RoundEffect | app/services/outbox.py:40-63 | The complete effect of one undisturbed round, for the whole outbox or for one event: one attempt on the first candidate, no other row, no other message |
| Attempts.RoundForOne | app/services/outbox.py:41-42 | A round for one event touches no other and answers True exactly if that event was unpublished and its publisher returned |
| DeliveryOrder.ExactlyOnce | app/services/outbox.py:40-63 | If no worker crashes and no publisher raises, a published event is in the log exactly once after exactly one attempt |
| Composition.ExactlyOnceAmongTransactions | app/services/outbox.py:40-63 | The same under interleaved transactions |
| DeliveryOrder.CreatedFirst | app/workers/outbox_relay.py:24-31 | With one live worker, any failures and retries and cancellations stamped after their creations, no copy of `order.canceled` precedes every copy of the order's `order.created` |
| Composition.CreatedFirstAmongTransactions | app/workers/outbox_relay.py:24-31 | The same under interleaved transactions |
| Drain.LoopIsQueue | app/workers/outbox_relay.py:24-31 | Whatever the publisher does, the loop is a first-in first-out queue of the unpublished events in (created_at, id) order whose head is retried until it is delivered |
| Drain.DrainIsSort | app/services/outbox.py:44-63 | With a publisher that always succeeds, the loop answers True exactly as often as there are unpublished events and delivers exactly those, sorted |
| Drain.SortedLists | app/services/outbox.py:44-48 | Picking the first event again and again lists each event once, in (created_at, id) order |
| Drain.SortedUnique | app/services/outbox.py:44-48 | No other list of the same events is in that order |
| Drain.LoopIsRelay | app/workers/outbox_relay.py:24-31 | The loop is the run of the many-worker machine in which one worker acts alone |
| Drain.InOrderIffStamped | app/services/outbox.py:40-58 | Whatever the publisher does, once the loop has emptied the outbox of any run of calls, its log announces every order's creation before its cancellation if and only if every successful cancellation has a later time stamp than the creation |
| Witnesses.CanceledAnnouncedFirst | app/services/outbox.py:44-48 | A run whose cancellation succeeds with an earlier time stamp and is announced before the creation, without any failure |
| Drain.StampedByCalls | app/services/outbox.py:22-31 | Every event is that of exactly one successful call of the run, with its transition and time stamp, and every successful creation and cancellation has one |
| Engine.Database.PostSandboxFunding | app/services/ledger.py:89-193 | The method writes what the serial funding leaves, gives its answer, rolls back on a constraint violation and keeps the invariant |
| Engine.Database.FindFundingReplay | app/services/ledger.py:49-86 | The lookup finds the one transaction with the key and compares it with the request |
| Engine.Database.CreateOrderReservation | app/services/orders.py:133-293 | The method writes what the serial creation leaves, gives its answer and keeps the invariant |
| Engine.Database.WriteReservation | app/services/orders.py:208-284 | The rows of a reservation, or none of them if a flush violates a constraint |
| Engine.Database.ExistingOrderReplay | app/services/orders.py:102-130 | The lookup finds the one order with the (user, key) and compares it with the request |
| Engine.Database.CancelOrderReservation | app/services/orders.py:315-426 | The method writes what the serial cancellation leaves, gives its answer and keeps the invariant |
| Engine.Database.EnqueueOutboxEvent | app/services/outbox.py:14-31 | The event row is added unless its id or `event_key` is taken |
| Engine.Database.PublishNextOutboxEvent | app/services/outbox.py:34-63 | One undisturbed claim, publication and record, for the whole outbox or for one event, keeps the invariant |
| Engine.Database.RunOutboxRelay | app/workers/outbox_relay.py:16-31 | Any finite number of rounds of the loop serves the outbox as the queue of `Drain.LoopIsQueue`, with one sleep for each round that answered False, that is, for each round that left as many events unpublished as before |

## Left out

- Engine.Database.RunOutboxRelay: the source loop never ends; the method runs any finite number of rounds, counts the sleeps instead of waiting, and no calls arrive in between (in Composition they do).
- Engine.Database.CreateOrderReservation: runs alone, so its second replay lookup finds what the first found; the lookup under the lock matters in the concurrent layer.
- Answers.OneOrderPerSubmission: a duplicate that runs concurrently with the first submission may be refused (balance or unique key) instead of replayed, as in the source; Alone.ReplyOfTheMoment says when.
- DeliveryOrder.CreatedFirst: needs the time stamps in order, as the source does not; the condition is exact when the outbox is drained after the calls (Drain.InOrderIffStamped).
- A claim is one step: PostgreSQL's re-check of a row after skipping locked ones is taken as part of it.
- A publisher that never returns and an exception outside `Exception` (an asyncio cancellation) count as a crash of the worker.
- Sessions are fresh per request, so locked rows are read as committed; rows cached by SQLAlchemy from an earlier read are not modelled.
- Foreign-key share locks and lock waits on rows that an insert references are not modelled.
- An insert that meets a committed duplicate fails at once in the model, even while another transaction claims the same entry.
- Python's 28-digit decimal context and the overflow of NUMERIC(38,18): arithmetic is exact and unbounded apart from storage rounding.
- `remaining_quantity`, `reference`, descriptions (except the order that a release names), payloads and `updated_at` carry no decisions; a collision of references is covered by a collision of the transaction's identifier.
- UUIDs are numbers and their text is hexadecimal without hyphens or leading zeros; only that the text is injective and has no colon is used.
- `str.upper` is modelled for the letters and digits that the request schema admits.
- FILLED orders, TRADE and REVERSED transactions, deactivation of assets and deletion of users: no code performs them; the branches that test for them are kept.
- HTTP routes, authentication, response building, migrations, the development seed, RabbitMQ and JSON encoding.
