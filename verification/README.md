# dledger: the ledger engine and its transaction protocol, verified

This project models the core of dledger, a double-entry ledger service, and proves what its design
promises. A *flow* posts balanced journals against accounts, at most once per tenant and idempotency key.
A *reservation* sets money aside through such a flow and is later committed, released or expired in parts.
On DynamoDB both run in a buffered transaction: items are read one at a time at different moments, writes
are collected in memory under conditions, and one request at the end checks all conditions and applies all
writes atomically.

How the modules build on each other:

| module | subject |
|---|---|
| `Ledger`, `Keys`, `Items`, `Ordering` | domain types, key strings, stored items, the write buffer, the fixed order of balances |
| `Handlers`, `Reads` | every handler as a step machine: which item it reads next, what it does with the answer, what it writes |
| `Dynamo` | class `Tx`: the buffered transaction in its own imperative form, over a table that changes between any two requests |
| `Service` | class `Server`: the handlers in their own imperative form, proved to do what the step machines say |
| `FlowFacts`, `Writes`, `Protocol`, `Serializability`, `Calls` | any number of handlers interleaved read by read; committed handlers are serializable in commit order; what `Server` does is what the protocol does |
| `Atomic`, `Journals`, `Effects`, `Acceptance`, `Completeness` | what a handler alone on a table does, key by key, and when; serial executions are runs |
| `Rows`, `Refusals`, `Funds` | the rows and the answer each handler leaves, field by field; which error it answers when; when funds suffice |
| `Sums`, `Books`, `Idempotency`, `Reachable`, `Replay` | the ledger invariants and idempotency over whole runs |
| `Holds`, `Tallies`, `Reserved`, `Backing`, `Stages`, `Scenario` | the life of a reservation, what has been committed and released, and the money behind it; concrete runs in which something goes wrong |
| `Rearrange`, `Limits`, `Conflicts`, `Retries` | order independence, item counts, commit errors |
| `AsOf`, `Recon`, `Index`, `Locks`, `Outbox` | past balances, reconciliation, secondary indexes, SQL row locks, event publishing |

Amounts are integers counting units of 10^-18, the scale of the DECIMAL(38, 18) columns; times are integers.
`NewID` is a function from call number to id (`Env.gen`). Serializability needs nothing of it; the theorems about
journals and books ask that one call never draws the same id twice (`DistinctIds`); collisions between calls are
caught by the not-exists conditions and need no hypothesis. The store is a map from structured keys to items;
`Keys` proves when the strings really used tell those keys apart. A store's tables may change arbitrarily between
two requests of one client (`Store.at`), and in `Protocol` they change by the commits of the other handlers. Commit,
release and expiry ask only that stored rows carry the identity their key names (`Writes.Sound`), which holds of every
reachable table.

Several statements one might expect are false of the code. For each there is the input and the exact condition.

- A reserved account does not always hold what its reservations have outstanding. Re-sending a commit or release
  with a used key books its amount again without moving money (`Scenario.ResendBreaksLaw`), and so does a commit into
  the reserved account itself (`Scenario.SelfCommitBreaksLaw`). `Reserved.MoneyFollowsIff` has the exact condition for
  one call, `Reserved.ReservedHolds` the law over whole runs.
- An in-bounds commit can fail for insufficient funds, when another call takes the money between its reads
  (`Scenario.StaleRowFails`). `Backing.InBoundsNeverShort`: in runs that keep the law above, only if its reservation
  row has been replaced meanwhile, or an account is credit-normal and may not go negative.
- A balance as of a past moment is not always the sum of the entries stamped up to it. A snapshot takes its stamp
  before it reads, so an entry posted in between counts twice (`AsOf.StampBeforeReadIsWrong`); entries get their stamp
  before they commit, so one that commits after the read is lost (`AsOf.LateCommitIsLost`). The exact condition is
  `AsOf.ExactIffOrderly` for whole runs and `AsOf.SnapshotExactIff` for one snapshot.
- Key strings are ambiguous: a key shares its row with another one exactly when it has several components and one of
  them contains `#` (`Keys.OwnRowIff`).
- An owner whose type or id contains a colon is filed under another owner (`Index.OwnerRoundTripIff`), and a
  reservation can be stored for a source account that does not exist, but only over an inner flow key already in use
  (`Index.CreatedSourcedIff`, `Index.OrphanBooked`); then index and join differ (`Index.OrphanDiffers`). The DynamoDB
  listing gives an owner's oldest open reservations, the SQL listing the newest ones, closed ones included
  (`Index.ListedIsJoin`, `Index.ClosedUnlisted`).
- The SQL backends can deadlock: balances are locked in a fixed order, but event ids are inserted in step order
  (`Locks.DeadlockIff`).

## Model

| member | source | states |
|---|---|---|
| Ledger.Validate | internal/ledger/journal.go:42-75 | a journal is accepted exactly when its event id is set, it has entries, each is well formed, and debits equal credits in every currency |
| Ledger.ValidJournalBalances | internal/ledger/journal.go:49-73 | an accepted journal nets to zero in every currency, listed or not |
| Ledger.JournalOkIff | internal/ledger/journal.go:42-75 | the rule by debits and credits: every entry complete and positive, and as much debited as credited in every currency there is |
| Keys.EncodeInjective | internal/repo/dynamo/keys.go:13-32 | distinct keys have distinct strings when all components but the last are free of # |
| Keys.CollidesWhenHashed | internal/repo/dynamo/keys.go:13-32 | conversely, a key with a # before its last component shares its string with another key of the same kind |
| Keys.OwnRowIff | internal/repo/dynamo/keys.go:13-32 | a key has its string to itself exactly when it has one component or none of them contains # |
| Keys.EncodeNotInjective | internal/repo/dynamo/keys.go:19-21 | an example: two balances of two tenants in one row |
| Keys.KindsNeverCollide | internal/repo/dynamo/keys.go:13-32 | the prefixes separate the ten kinds of items whatever the components hold |
| Keys.BalancePrefix | internal/repo/dynamo/tx.go:396-404 | the BAL# prefix test in Commit recognises exactly the balance rows |
| Keys.OwnerPartitionInjective | internal/repo/dynamo/keys.go:30-32 | owner partitions of different owners differ, for #-free tenants and owner types |
| Items.AddAllValid | internal/repo/dynamo/tx.go:144-157 | the order list holds the buffered keys exactly once each and only ever grows at the end |
| Items.Coalesced | internal/repo/dynamo/tx.go:141-157 | per key the buffer holds the first condition and the last item |
| Items.BufferRefinesInPlace | internal/repo/dynamo/tx.go:331-372 | a buffered commit succeeds exactly when the same writes applied one by one in place would, and leaves the same table |
| Items.WrittenLookup | internal/repo/dynamo/tx.go:349-374 | after a commit each row is the last item written to it, or unchanged |
| Ordering.RefsSorted | internal/service/execute_flow.go:81-98 | the processing order is strictly increasing and holds exactly the account and currency pairs of the flow's entries |
| Ordering.StrLessIff | internal/service/execute_flow.go:93-98 | strings are compared in byte order: a proper prefix first, else the first difference decides |
| Ordering.IncreasingUnique | internal/service/execute_flow.go:93-98 | the order depends only on the set of pairs |
| Ordering.CollectRefs | internal/service/execute_flow.go:81-98 | collecting first occurrences and sorting yields that order |
| Dynamo.Store.GetItem | internal/repo/dynamo/tx.go:182-183 | a strongly consistent read of the table the request finds |
| Dynamo.Store.TransactWriteItems | internal/repo/dynamo/tx.go:369-374 | all puts or none, with the failed conditions by position |
| Dynamo.PutAllIsWritten | internal/repo/dynamo/tx.go:349-371 | putting the items in insertion order writes the whole buffer, and the request's conditions are the buffer's |
| Dynamo.PutKeeps | internal/repo/dynamo/tx.go:87-117 | buffering a key with its overlay entry keeps every overlay equal to the decoded buffered item |
| Dynamo.LoadKeeps | internal/repo/dynamo/tx.go:163-201 | caching a row just read keeps overlays and buffer consistent |
| Dynamo.Tx.constructor | internal/repo/dynamo/tx.go:123-135 | a new transaction has read and buffered nothing |
| Dynamo.Tx.PutItem | internal/repo/dynamo/tx.go:144-157 | put: the buffer is the coalescing of all writes so far |
| Dynamo.Tx.LoadBalance | internal/repo/dynamo/tx.go:165-201 | the cached balance, else one read, and a second one to probe for existence when everything is zero |
| Dynamo.Tx.LockBalance | internal/repo/dynamo/tx.go:212-230 | the balance as first read in this transaction |
| Dynamo.Tx.UpdateBalance | internal/repo/dynamo/tx.go:238-266 | later reads see the new amounts; version and existence stay as first read, by this call if by no earlier one; the put is one version on, conditional on them |
| Dynamo.Tx.GetAccount | internal/repo/dynamo/tx.go:275-286 | a buffered account first, then the store |
| Dynamo.Tx.InsertAccount | internal/repo/dynamo/tx.go:294-307 | the account and its uniqueness marker, both as new items |
| Dynamo.Tx.InsertFlowRun | internal/repo/dynamo/tx.go:462-488 | the flow row and its idempotency marker, both as new items, and both readable back |
| Dynamo.Tx.InsertFlowStep | internal/repo/dynamo/tx.go:496-504 | the step is appended in order; fails without the flow run |
| Dynamo.Tx.CompleteFlowRun | internal/repo/dynamo/tx.go:512-522 | the row turns completed and keeps its steps |
| Dynamo.Tx.GetFlowByIdempotency | internal/repo/dynamo/tx.go:530-562 | a flow of this transaction first, else marker and row, read at two moments |
| Dynamo.Tx.GetFlowSteps | internal/repo/dynamo/tx.go:571-590 | the steps of the overlaid flow, else of the stored row |
| Dynamo.Tx.InsertJournal | internal/repo/dynamo/tx.go:601-624 | the journal without entries, and the marker of its event |
| Dynamo.Tx.InsertEntry | internal/repo/dynamo/tx.go:630-648 | the entry is appended to the overlaid journal, which is put again |
| Dynamo.Tx.InsertOutbox | internal/repo/dynamo/tx.go:654-657 | the event as a new item |
| Dynamo.Tx.InsertReservation | internal/repo/dynamo/tx.go:669-689 | the reservation at version 1 and its marker, both as new items |
| Dynamo.Tx.LockReservation | internal/repo/dynamo/tx.go:699-725 | the overlaid reservation, else the stored one with its version |
| Dynamo.Tx.GetReservationByIdempotency | internal/repo/dynamo/tx.go:737-770 | the reservation of this transaction with the key if there is one, else marker and row; a marker without a row is an error |
| Dynamo.Tx.UpdateReservationAmounts | internal/repo/dynamo/tx.go:776-800 | new amounts under the version read, or as part of the insert for a reservation new in this transaction |
| Dynamo.Tx.Commit | internal/repo/dynamo/tx.go:331-423 | at most one write request; effect, failure and error code are those of the buffer on the table it finds; more than 100 items never reach the store; which code a failure gets is `Retries.CommitErrorIff` |
| Dynamo.Tx.Rollback | internal/repo/dynamo/tx.go:431-441 | everything is discarded without contacting the store |
| Handlers.DriveLift | internal/service/execute_flow.go:47-203 | a handler inside its flow runs it to the end and then continues with its result |
| Service.Server.StepsFromProto | internal/service/execute_flow.go:229-249 | fails exactly when some amount is not positive, else every direction but CREDIT is a debit |
| Service.Server.LoadAll | internal/service/execute_flow.go:107-125 | the load phase reads, fails and accumulates as the step machine says |
| Service.Server.ApplySteps | internal/service/execute_flow.go:128-179 | fails exactly when some journal is invalid, else buffers all steps in order and accumulates every entry |
| Service.Server.PersistBalances | internal/service/execute_flow.go:181-194 | fails exactly when a final balance is overdrawn, else buffers every balance |
| Service.Server.ExecuteFlowInTx | internal/service/execute_flow.go:47-203 | same reads, same result, same writes and same ids drawn as the flow machine |
| Service.Server.ExecuteFlow | internal/service/execute_flow.go:20-42 | answer and written table of the whole handler, whatever the store does between its requests |
| Service.Server.CreateReservation | internal/service/create_reservation.go:16-115 | the same for creating a reservation, with replay by key |
| Service.Server.CommitReservation | internal/service/commit_reservation.go:15-111 | the same for a commit |
| Service.Server.ReleaseReservation | internal/service/release_reservation.go:15-102 | the same for a release |
| Service.Server.ExpireReservation | internal/service/expire_reservation.go:15-99 | the same for an expiry, with its two early commits |
| Service.Server.CreateAccount | internal/service/create_account.go:16-40 | the same for an account |
| FlowFacts.FlowWritesBalance | internal/repo/dynamo/tx.go:238-266 | a flow writes back every balance it loaded under the condition of its load |
| FlowFacts.FlowWritesMarker | internal/repo/dynamo/tx.go:462-488 | a flow writes its idempotency marker as a new item |
| FlowFacts.FlowLeavesAlone | internal/service/execute_flow.go:69-198 | a flow writes no accounts and no reservations |
| Writes.FlowWritesGood | internal/service/execute_flow.go:69-198 | every item fits its key, and its version is one more than its condition asks for |
| Writes.AfterGood | internal/repo/dynamo/tx.go:669-800 | the same for every handler that reaches its commit |
| Protocol.LoggedRunIsDrive | internal/repo/dynamo/tx.go:84-117 | a finished handler is the run of its step machine on the tables its reads found, whichever they were |
| Protocol.AgreeingRunIsAtomic | internal/repo/dynamo/tx.go:84-117 | reads that all agree with one table make the run the one of a handler alone on it |
| Protocol.FlowBackStep | internal/service/execute_flow.go:53-125 | every read of a flow that ends with writes is immutable or guarded by a condition of those writes |
| Protocol.BackStep | internal/service/commit_reservation.go:33-88 | the same for every handler |
| Serializability.CommitEvolves | internal/repo/dynamo/tx.go:244-265 | a commit raises the version of every row it replaces by exactly one, creates rows at version one, and changes nothing unversioned |
| Serializability.ZeroVersionNeverHolds | internal/repo/dynamo/tx.go:171-200 | a balance row created between first read and probe makes the version = 0 condition fail instead of being overwritten |
| Serializability.CommitAgrees | internal/repo/dynamo/tx.go:331-374 | when a commit's conditions hold, everything the handler ever read is what the table holds at that moment |
| Serializability.CommitIsAtomic | internal/repo/dynamo/tx.go:331-374 | a successful commit gives the answer and the table of the handler run alone at that moment |
| Serializability.Serializable | internal/repo/dynamo/tx.go:84-423 | for every interleaving the table is the one obtained by running the committed handlers alone, one after the other, in commit order, with the same answers |
| Calls.LiveIsCall | internal/repo/dynamo/tx.go:84-423 | a finished transaction of any run is the complete call of its handler on tables the run went through, the last being the one it commits on |
| Calls.ServerIsProtocol | internal/service/execute_flow.go:20-42 | so the answers and tables that the contracts of `Service.Server` allow there are exactly those of the protocol |
| Completeness.AloneIsRun | internal/repo/dynamo/tx.go:84-423 | from any state a handler can run undisturbed, does to the table and the history what it does alone, and leaves all other transactions as they are |
| Completeness.SerialIsRun | internal/repo/dynamo/tx.go:84-423 | conversely, every serial execution is a run of the interleaved protocol |
| Atomic.FlowAlone | internal/service/execute_flow.go:47-203 | the reads of a flow on a fixed table amount to: replay, first account problem, or post on the loaded balances |
| Atomic.AloneIs | internal/service/execute_flow.go:20-42 | a handler alone on a table, from begin to commit, in closed form |
| Acceptance.PostedIffAcceptable | internal/service/execute_flow.go:20-203 | a flow submission is posted if and only if its amounts and journals are valid, its key unknown, its accounts usable, no final balance overdrawn, its items at most 100, and none of its new rows there already |
| Acceptance.CommitsIff | internal/repo/dynamo/tx.go:331-420 | any handler that reaches its commit with a flow commits if and only if its items are at most 100 and none of its new rows is there already |
| Effects.StepBalance | internal/service/execute_flow.go:151-194 | a committed handler changes exactly the balances of its flow, by exactly what the entries add, one version on |
| Effects.StepMarker | internal/repo/dynamo/tx.go:462-488 | it adds exactly the marker of its flow, which was not there |
| Effects.StepAccount | internal/repo/dynamo/tx.go:294-307 | accounts never change once they exist |
| Effects.StepJournal | internal/repo/dynamo/tx.go:601-648 | it adds exactly one full journal per step under a new key; journals never change |
| Effects.StepFlowRow | internal/repo/dynamo/tx.go:450-524 | it adds its own row, completed, with all steps in order; flow rows never change |
| Effects.StepEvent | internal/repo/dynamo/tx.go:614-624 | it marks exactly the events of its steps, none of which was marked |
| Effects.PostedOk | internal/service/execute_flow.go:107-194 | what posts has valid journals, usable accounts of the right currency, and overdraws nothing |
| Funds.FundsDecide | internal/service/execute_flow.go:181-194 | a valid flow under a new key between usable accounts is posted if each of them may stand, by debits and credits on its normal side, at what the flow leaves, and refused with INSUFFICIENT_FUNDS otherwise |
| Funds.TransferVerdict | internal/ledger/account.go:52-59 | a strict credit-normal account can be debited by at most its credits less its debits, a strict debit-normal one credited by at most its debits less its credits; nothing else limits a transfer |
| Rows.AccountStored | internal/service/create_account.go:16-40 | the stored and answered account has the fields of the request, the formatted id and status ACTIVE; its marker names it |
| Rows.PostedStored | internal/service/execute_flow.go:69-198 | a posting handler stores its flow completely: marker, completed row, and for each submitted step in order its row, the journal that row names, with the step's event and entries, and its event |
| Rows.MarkersStored | internal/repo/dynamo/tx.go:614-624 | with distinct event ids each event's marker names the journal of its step |
| Rows.SubmissionStored | internal/service/execute_flow.go:205-216 | the client is told the stored flow's id, that it is completed, and per submitted step, in order, the step id and the id of its journal |
| Rows.ReplayTold | internal/service/execute_flow.go:53-67 | a submission under a stored flow's key writes nothing and is told the same of that flow |
| Rows.InnerFlowIs | internal/service/release_reservation.go:45-61 | key, event, step, amount and the two accounts of the flow inside each reservation handler, and which of them is debited |
| Rows.CreationStored | internal/service/create_reservation.go:65-115 | the new row has the terms of the request with its expiry, everything outstanding, the clock, and the flow its inner key leads to; it is the answer |
| Rows.CommitStored | internal/service/commit_reservation.go:75-111 | outstanding falls and committed rises by the amount, nothing else changes, status COMMITTED exactly when nothing is left, else PARTIAL; the stored row is the answer |
| Rows.ReleaseStored | internal/service/release_reservation.go:66-102 | the same with released and RELEASED |
| Rows.ExpiryStored | internal/service/expire_reservation.go:69-99 | all that was outstanding becomes released, status EXPIRED |
| Rows.CreationReplayed | internal/service/create_reservation.go:34-45 | a repeated creation answers the stored reservation and writes nothing |
| Refusals.AmountRefused | internal/service/execute_flow.go:229-249 | an amount that is not positive is UNBALANCED_JOURNAL before anything is read |
| Refusals.AccountRefused | internal/service/execute_flow.go:107-119 | the first account in order that is missing, inactive or of another currency decides between its three errors |
| Refusals.JournalRefused | internal/service/execute_flow.go:129-131 | with usable accounts an invalid journal is UNBALANCED_JOURNAL |
| Refusals.FundsRefused | internal/service/execute_flow.go:181-189 | with usable accounts and valid journals an account that may not stand at what the flow leaves is INSUFFICIENT_FUNDS |
| Refusals.UpdateRefused | internal/service/commit_reservation.go:15-52 | the errors of a commit or release before its flow, in their order |
| Refusals.ExpiryRefused | internal/service/expire_reservation.go:15-46 | a missing reservation is an error, a closed one is answered without writing |
| Refusals.CreationRefused | internal/service/create_reservation.go:16-45 | a creation of no positive amount, or whose marker leads nowhere |
| Refusals.InnerRefused | internal/service/commit_reservation.go:71-73 | an inner flow's error is the handler's, and nothing is written |
| Refusals.AccountTaken | internal/repo/dynamo/tx.go:294-307 | an account whose id or whose owner, type and currency are in use is FLOW_CONFLICT |
| Books.StepPosts | internal/service/execute_flow.go:128-159 | a committed handler raises the sum over all journals, per balance and side, by exactly what its flow posts |
| Books.StepAddsUp | internal/service/execute_flow.go:128-194 | every balance stays the sum of the posted entries |
| Books.StepBooks | internal/ledger/journal.go:42-75 | the net of a tenant's books in a currency never changes |
| Books.StepSolvent | internal/service/execute_flow.go:181-194 | no balance becomes overdrawn |
| Idempotency.StepTidy | internal/repo/dynamo/tx.go:462-624 | flows are completed and match their markers and journals one to one; journals of one event belong to one flow |
| Reachable.LedgerHolds | internal/service/execute_flow.go:47-203 | all ledger invariants hold in every state of every run, however handlers interleave |
| Reachable.BalanceIsSumOfEntries | internal/service/execute_flow.go:128-194 | in every reachable table each balance equals the sum of its posted debits and of its posted credits |
| Reachable.DebitsEqualCredits | internal/ledger/journal.go:42-75 | in every reachable table a tenant's debits equal its credits in every currency |
| Reachable.NeverOverdrawn | internal/ledger/account.go:52-59 | in every reachable table an account that disallows negatives has debits >= credits if it is debit-normal, credits >= debits if it is credit-normal |
| Replay.NeverIncomplete | internal/service/execute_flow.go:58-61 | the branch "flow not completed" is never taken |
| Replay.OneAnswer | internal/service/execute_flow.go:53-67 | under any interleaving all successful answers for one tenant and key are the same flow id with the same steps in the same order |
| Replay.PostsOnce | internal/service/execute_flow.go:53-79 | a tenant's key posts entries at most once, directly or inside a reservation handler |
| Holds.StepReservation | internal/repo/dynamo/tx.go:669-800 | a creation adds one reservation, the other three replace the one they name, nothing else touches reservations |
| Holds.HoldsConserved | internal/ledger/reservation.go:22-59 | in every reachable table outstanding + committed + released = original with no negative part, HELD means nothing moved, PARTIAL means strictly between, terminal means nothing outstanding |
| Holds.HoldsAdvance | internal/service/commit_reservation.go:74-83 | along every run committed and released never fall, the terms never change, terminal reservations never change, nothing returns to HELD |
| Tallies.TalliesHold | internal/service/commit_reservation.go:75-88 | in every run from a table without reservations, committed is the sum of the successful commits on the reservation, and released the sum of the successful releases and of what an expiry found left; it is EXPIRED exactly if one of them expired it |
| Holds.ExpiryIdleIffClosed | internal/service/expire_reservation.go:31-46 | expiry has nothing to do exactly when the reservation is closed; the open-with-nothing-outstanding branch is unreachable |
| Reserved.MoneyFollowsIff | internal/service/commit_reservation.go:45-88 | the reserved account's money changes with the outstanding amounts exactly when the inner flow key was new and the other account is another one |
| Reserved.RepeatBooksAgain | internal/service/release_reservation.go:45-79 | a call whose inner key is known succeeds, books its amount again and moves no money |
| Scenario.ResendBreaksLaw | internal/service/commit_reservation.go:54-88 | a run from an empty table: 4 of 10 committed, the same call sent again, 4 more booked, no money moved, every other invariant intact |
| Scenario.SelfCommitBreaksLaw | internal/service/commit_reservation.go:45-73 | a run from an empty table: 4 committed into the reserved account itself, booked and not moved |
| Reserved.ReservedHolds | internal/service/create_reservation.go:48-81 | if every successful commit of a run respects the account (no client flow touches it, it is only the reserved side, new inner keys), it holds exactly the sum of what its reservations have outstanding |
| Reserved.InBoundsPosts | internal/service/commit_reservation.go:36-73 | alone on one table an in-bounds commit, release or expiry between active debit-normal accounts, under a new inner key, goes through |
| Backing.InBoundsNeverShort | internal/service/commit_reservation.go:33-73 | in every run that respects the account, whatever else is in flight, a commit, release or expiry whose reservation row is still the one it read has not failed for insufficient funds, unless an account is credit-normal and may not go negative |
| Scenario.StaleRowFails | internal/service/execute_flow.go:107-194 | a run from an empty table in which an in-bounds commit, its row replaced after it read it, fails for insufficient funds |
| Rearrange.FlowAlike | internal/service/execute_flow.go:81-194 | permuting steps, or entries within steps, never changes the verdict before the commit |
| Rearrange.TakesAlike | internal/service/execute_flow.go:20-203 | nor, for a call drawing fresh ids, whether the flow is posted |
| Rearrange.BalancesAlike | internal/service/execute_flow.go:151-194 | if one order is posted, every other order is, and leaves the same balances |
| Rearrange.JournalRearranged | internal/ledger/journal.go:49-73 | validation does not depend on the order of entries |
| Limits.ItemCount | internal/repo/dynamo/tx.go:337-347 | a posting handler buffers 2 + 2S + K items plus one per distinct event id, 3 more for a creation, 2 more for a commit, release or expiry |
| Limits.FlowItemsDistinct | internal/repo/dynamo/tx.go:462-689 | with distinct event ids that is 2 + 3S + K |
| Limits.TooLargeIff | internal/repo/dynamo/tx.go:20-22 | FLOW_TOO_LARGE is answered exactly when the total exceeds 100 |
| Conflicts.HeadConflicts | internal/repo/dynamo/tx.go:376-420 | a commit that collides with a row of the flow's own is answered FLOW_CONFLICT, whatever balances moved |
| Conflicts.RetryMeansUnused | internal/repo/dynamo/tx.go:376-404 | a retryable error means none of those rows existed |
| Conflicts.LoserConflicts | internal/repo/dynamo/tx.go:313-420 | in every run, whichever handlers they belong to, the loser of two flows with one key or one event id gets FLOW_CONFLICT (or FLOW_TOO_LARGE), never a retry |
| Conflicts.SubmissionOpens | internal/repo/dynamo/tx.go:462-488 | a flow submission that is about to write anything is such a flow: its transaction holds its marker |
| Conflicts.RetryIsSafe | internal/repo/dynamo/tx.go:313-420 | in every run, whatever the handler, a retryable error implies that the flow's key and event ids were unused at commit |
| Retries.CommitErrorIff | internal/repo/dynamo/tx.go:376-420 | a commit of at most 100 items is told to retry exactly if a write to a row that moved on, or to a missing balance that now exists, comes before any write that would create another existing row; told FLOW_CONFLICT exactly the other way round; and succeeds exactly if there is neither |
| Retries.LiveErrorIff | internal/repo/dynamo/tx.go:331-420 | the same for every handler about to commit in any run |
| Retries.RetryIffMoved | internal/repo/dynamo/tx.go:313-330 | in every run, if no row a posting handler would create exists, its commit is told to retry if anything it read has changed since, and succeeds if nothing has |
| AsOf.LatestIs | gen/crdb/snapshots.sql.go:15-20 | the snapshot used is of the balance, at or before the moment, with the latest stamp and among those the greatest id; none only if there is none |
| AsOf.ReconstructionExactIff | internal/service/get_balance.go:31-50 | snapshot plus delta is as right as the snapshot it starts from |
| AsOf.ExactIffOrderly | internal/service/take_snapshot.go:20-57 | along a run every stored snapshot is exact at every moment if and only if no snapshot reads a balance to which an entry stamped after the snapshot's own stamp was posted, and no entry is posted with a stamp at or before a stored snapshot of its balance |
| AsOf.SnapshotExactIff | internal/service/take_snapshot.go:20-57 | a snapshot is exact from its read on if and only if nothing with a later stamp was posted to its balance between stamp and read, and nothing with an earlier one after the read |
| AsOf.StampBeforeReadIsWrong | internal/service/take_snapshot.go:20-33 | a run in which an entry posted between stamp and read counts twice |
| AsOf.LateCommitIsLost | internal/sdk/migrations/crdb/0001_init.sql:28-37 | a run in which an entry stamped before a snapshot and committed after it is lost from later answers |
| AsOf.AsOfIsPlainSum | internal/service/get_balance.go:31-50 | in every orderly run of postings, stamps, reads, prunes and clock steps the balance as of any moment is the sum of all entries stamped up to it |
| AsOf.PruneChangesNoAnswer | gen/crdb/snapshots.sql.go:157-171 | in orderly runs no prune, whatever it chooses, changes any such answer |
| AsOf.NewestStays | gen/crdb/snapshots.sql.go:157-171 | no prune removes a newest snapshot of a balance |
| AsOf.PruneExact | gen/crdb/snapshots.sql.go:157-184 | no prune deletes a snapshot at or after the cutoff, or one without a newer one that stays; when the limit does not cut it only those remain |
| AsOf.TakenAre | internal/service/take_snapshot.go:41-57 | each snapshot has its row's sums and version, a new id and the stamp |
| AsOf.Reports.GetSnapshotBefore | gen/crdb/snapshots.sql.go:15-49 | the query by a scan |
| AsOf.Reports.SumEntriesBetween | gen/crdb/snapshots.sql.go:186-218 | debits and credits stamped after one moment and up to another |
| AsOf.Reports.GetBalance | internal/service/get_balance.go:17-67 | errors for unknown accounts and wrong currencies, else the current or reconstructed amounts, their normalized balance, and the row's or the snapshot's version |
| AsOf.Reports.TakeBalanceSnapshot | internal/service/take_snapshot.go:13-58 | one snapshot of the named balance, or one of every balance row of the tenant, stamped with the clock at the start and filled from the rows found by the later read |
| AsOf.Reports.Prune | gen/crdb/snapshots.sql.go:157-184 | deletes only prunable rows, as many as the limit allows |
| Recon.Matcher.Run | internal/recon/matcher.go:32-106 | counts, discrepancies and claims of the destructive loop are those of the declarative verdicts |
| Recon.EveryRecordCounted | internal/recon/matcher.go:55-96 | ingested = matched + mismatched + missing in ledger, one discrepancy per non-match |
| Recon.UnclaimedEvents | internal/recon/matcher.go:98-106 | missing in external = distinct event ids less matched less mismatched |
| Recon.ClaimedOnce | internal/recon/matcher.go:86-95 | no journal is claimed twice |
| Recon.RecordOrderIrrelevant | internal/recon/matcher.go:57-96 | with distinct references rearranging the records changes neither a record's verdict nor any count |
| Recon.JournalOrderIrrelevant | internal/recon/matcher.go:49-53 | with distinct event ids it does not depend on the order of the journals |
| Recon.LastListed | internal/recon/matcher.go:49-53 | of several journals with one event id the last listed one counts |
| Recon.ReferenceAlone | internal/recon/matcher.go:69-95 | a record without an account is matched by its reference alone |
| Recon.EntryShiftsMatch | internal/recon/matcher.go:70-85 | the one amount that matches a journal: zero without entries, raised by each debit of the record's account and currency, lowered by each credit, untouched by other entries |
| Recon.TransferMatches | internal/recon/matcher.go:70-95 | a record of the account a transfer debits matches exactly with the amount moved, one of the account it credits with its negative |
| Recon.ReportedIff | internal/recon/matcher.go:55-96 | which discrepancies are reported for records: missing in the ledger, or an amount mismatch with its journal, and no others |
| Recon.ClaimsAre | internal/recon/matcher.go:75-95 | a record with a verdict carries status and journal afterwards, no other record changes |
| Index.OwnerRoundTripIff | internal/repo/dynamo/items.go:427-433 | owner parsing undoes account id formatting exactly when neither owner part has a colon |
| Index.OwnerIndexIsJoin | gen/crdb/reservations.sql.go:162-171 | where the source account exists, the owner's partition holds exactly the open reservations the SQL join returns |
| Index.ExpiryIndexIs | internal/repo/dynamo/items.go:460-464 | the expiry index holds exactly the open reservations with an expiry |
| Index.CreatedSourcedIff | internal/service/create_reservation.go:48-81 | a creation stores a reservation whose source account exists exactly when its inner flow key was new or the account existed anyway |
| Index.OrphanBooked | internal/service/create_reservation.go:65-81 | a creation over a used inner key stores a reservation for an account that was never created |
| Index.OrphanDiffers | internal/repo/dynamo/items.go:465-472 | such a reservation is in the index of the owner its source id spells and in nobody's join |
| Index.IndexesHold | internal/repo/dynamo/items.go:435-473 | both indexes are exact in every table reached by creations that find their sources |
| Index.ListReservations | internal/repo/dynamo/reads_reservations.go:97-143 | the fetched page filtered by status and cut at the limit; nothing without an owner |
| Index.ListedIsJoin | internal/repo/dynamo/reads_reservations.go:97-143 | of an owner's partition it lists, oldest first, only reservations of the join with the wanted status, and leaves one out only when the page is full of earlier ones or three pages of earlier ones precede it |
| Index.ClosedUnlisted | internal/repo/dynamo/reads_reservations.go:112-141 | asking for a closed status lists nothing |
| Index.ListedCompletely | internal/repo/dynamo/reads_reservations.go:97-143 | a partition within the limit is listed completely |
| Locks.PlanAscendsIff | internal/service/execute_flow.go:69-150 | a handler takes its locks (reservation row, flow key, balances in order, event ids in step order, reservation key) in the global order exactly when its event ids ascend |
| Locks.NeverDeadlocked | gen/crdb/balances.sql.go:39-43 | in no run of flows with ascending event ids do transactions wait for each other in a circle; flows of one step, so all reservation handlers, are such flows |
| Locks.SwappedEventsDeadlock | internal/sdk/migrations/crdb/0001_init.sql:20 | two event ids in descending order deadlock with a flow that has them in ascending order |
| Locks.DeadlockIff | internal/service/execute_flow.go:128-145 | a flow with distinct event ids can be caught in a circle with ascending flows exactly when its own do not ascend |
| Locks.Progress | internal/service/commit_reservation.go:33-71 | while transactions are open, one has all its locks or can take its next |
| Outbox.Dispatcher.PendingOutbox | internal/outbox/dispatcher.go:50-54 | the first unmarked rows, up to the limit |
| Outbox.FirstPendingIs | internal/outbox/dispatcher.go:50-54 | they are unmarked, each once, and all of them unless the limit cuts the batch |
| Outbox.Dispatcher.Tick | internal/outbox/dispatcher.go:50-66 | a failed fetch changes nothing; else each event of the batch is published and then marked, and a failure affects only its event |
| Outbox.DeliveredIs | internal/outbox/dispatcher.go:56-65 | after a tick the sink has grown by exactly the published events in batch order, an event is marked exactly if it was before or its publish and mark both succeeded, and attempts rise by one exactly for a recorded failed publish |
| Outbox.BatchIsFirst | internal/outbox/dispatcher.go:50-54 | the batch is the first rows not marked, in row order |
| Outbox.SmoothTicksDrain | internal/outbox/dispatcher.go:36-66 | ticks that all succeed drain the pending rows: after enough of them all are marked, and the sink has each exactly once, in row order |
| Outbox.TickIsMove | internal/outbox/dispatcher.go:50-66 | what a tick fetches from the table and delivers is a step of the runs below |
| Outbox.OutboxSafe | internal/outbox/dispatcher.go:50-66 | over every run of handlers, ticks and failures the sink only sees committed events, and an event leaves PENDING only after it was published |
| Outbox.NeverLost | internal/outbox/dispatcher.go:50-66 | a committed event is at every later point pending or already in the sink |
| Outbox.DeliveredOnce | internal/outbox/dispatcher.go:56-65 | over every run an event whose publish and mark once succeeded is never delivered again |
| Outbox.CommitLeavesEvents | internal/service/execute_flow.go:169-178 | a committed handler of any kind leaves the event of each step it posts and the reservation's own |
| Outbox.EveryEventKept | internal/service/execute_flow.go:169-178 | over every run each of these events is at every later point pending or in the sink |

## Left out

- Index.ListReservations: the index query itself is a parameter; `ListedIsJoin` says what it yields when it returns the partition in index order.
- Index.OwnerIndexIsJoin: asks for #-free tenants and colon- and #-free owners; for others the strings are ambiguous, as `Keys.OwnRowIff` and `Index.OwnerRoundTripIff` say.
- Locks: reads that take no lock, locks on rows a transaction has just created, and locks the database takes for foreign keys.
- AsOf: a snapshot call that reads all balances of a tenant reads and inserts them in one step of the run; its stamp is a step of its own.
- Recon.JournalOrderIrrelevant: re-running reconciliation on a window is not modelled; matched records are filtered out while their journals are not, so a second run differs.
- ListExpiredReservations: the DynamoDB query compares text and lists only expiries strictly before now; the SQL query includes now. Only the content of the index is modelled.
- The SQL join of ListReservations matches accounts by id alone; the model joins within the tenant, which is the same when ids of different tenants differ.
- Timestamps, metadata, source service and actor of stored rows, and the texts of JSON payloads.
- TransactWriteItems errors other than failed conditions (throttling, transaction conflicts), context cancellation, and WithRetry around handlers.
- Parsing of decimal strings: an amount that does not parse counts as not positive.
- ExecuteExchange, FX rates, frozen accounts' administration, and the conversion of rows and requests, which would only add easy members.
- The outbox status column lives beside the table in `Outbox`, since no handler reads it; the order in which pending events are listed is arbitrary.
- Recon batches and the persistence of discrepancies; SQLite's floating-point sums.
