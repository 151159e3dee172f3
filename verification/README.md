# EscrowHub in Dafny

A model of EscrowHub's custody core and proofs about every run of it: the append-only ledger and the
services that book on it (deposits, escrows, withdrawals), the signer and the manual withdrawal provider
that talk over an unreliable network, the block watchers, and the small index and codec kernels they use.

How the project is laid out:

- `Tables.dfy` holds the rows of the SQLite tables and the connection object (class `Database`) every service
  updates in place. `Rounding.dfy`, `Fees.dfy`, `Ledger.dfy`, `Deposits.dfy`, `Escrows.dfy`, `Withdrawals.dfy`,
  `Signer.dfy` follow the service files. Each service method is an imperative Dafny method whose contract equates
  the new tables with a specification function (`After...`) of the old ones, or says that an error leaves the
  tables untouched (`EscrowLocks.Atomic`).
- `Custody.dfy` puts all these operations into one run: `Op`, `Step`, `Run`, and the invariant `Inv` that links
  entries, locks, disputes and statuses. `CustodySteps.dfy` and `WithdrawalSteps.dfy` show that each operation
  keeps it, `CustodyRuns.dfy` concludes for all runs. `CustodyEquation.dfy`, `Lifecycles.dfy`, `Overdrafts.dfy`,
  `TotalBalances.dfy`, `DepositRuns.dfy`, `MutualConsent.dfy` and `DailyCap.dfy` are the theorems about runs;
  `EscrowTable.dfy`, `Requests.dfy` and `AnswerMoney.dfy` say who may do what and what each account gets, without the
  specification functions; `Witnesses.dfy` holds runs under the default settings that end other than one would wish.
- `Provider.dfy`, `SignerCycle.dfy`, `CycleSteps.dfy`, `Protocol.dfy`, `ProtocolRuns.dfy`, `Answers.dfy` and
  `ReleasedRows.dfy` are the two-party protocol: lost requests, lost replies, rolled-back cycles, admin requeues and
  operators, in any interleaving. `StaleReads.dfy` adds admins that act between a signer's read and its first write.
- `Watchers.dfy`, `WatcherRuns.dfy`, `DepositKeys.dfy`, `ChainScans.dfy` and `ChainWorth.dfy` are the deposit scanners,
  from raw blocks to the ledger.
- `Routes.dfy`, `RateLimiter.dfy`, `Base58.dfy`, `Bech32.dfy`, `Bech32Code.dfy`, `Text.dfy` are the kernels.

Amounts and prices are exact reals. Ids are positions in the tables, because rows are only appended. Hashes,
address validation and the encryption of fields are parameters; nothing is assumed about them beyond hexadecimal
digests where the protocol needs texts without white space. The clock, the price of an asset, the answers of block
nodes and the fate of each network message are parameters too. So are the settings, which a process reads when it
starts: a run carries the settings in force at each of its operations (`Plan`), and they may change in between.

Where the code does not do what one would hope, the model follows the code, the exact condition is proved, and a run
or an input that gets there is given:

- Escrow payouts are rounded to 0.01 whatever the asset, so an escrow leaves its rounding difference in the ledger;
  it leaves nothing exactly when the paid amount has whole cents (`EscrowConserves`; a run in `EscrowDrift`).
- A confirmed withdrawal costs exactly its amount when, and only when, the amount is on the asset grid
  (`WithdrawalConserves`; a run in `OffGridCost`).
- A withdrawal that an admin fails after an on-chain booking is released in full and keeps the booked fees
  (`FailedKeepsFees`; a run in `FeesOfFailedRow`).
- An actual network fee above the estimate is charged without looking at the balance: an answer overdraws exactly
  when the overage exceeds the balance, and almost every unsettled row can get one that does (`AnswerOverdraws`,
  `AnyRowOverdraws`; a run in `NegativeBalance`). A split above 100 percent would do the same
  (`SplitIsUnchecked`), but the only caller, bot.py:3602, passes no percentage and so splits in halves.
- A credited deposit sighted again with another amount has its row rewritten but not its ledger entries
  (`ResightingRewritesRowOnly`).
- A credit call that raises is swallowed by the watcher, and the cursor still moves past its block. The deposit is
  lost exactly when every call ever made for its key raised (`RaisedIsLost`; a run in `LostOnce`).
- The watched addresses are loaded before every cycle: a transfer to an address that is not watched yet when the
  cursor passes its block is missed (`CursorCovers` says what is covered; a run in `UnwatchedIsMissed`).
- A withdrawal can be released by an admin and still be confirmed on its own record at the provider: a row in flight
  exactly when the provider would accept its request, a failed row exactly when its record exists (`BothWaysIff`).
- A signer marks a row without looking at its status again. Finished rows stay as they are, and the custody invariant
  holds, exactly when no admin fails a row between a signer's read and its mark; otherwise a released row can become
  confirmed (`FinalIffNotOvertaken`, `InvIffNotOvertaken`, `ReleasedThenConfirmed`).
- The sliding-window limiter keeps its promise exactly for windows of up to an hour (`WindowHolds`,
  `LongWindowBreaks`).
- A pending row that is executed drops out of the user's total balance, whatever the answer, unless it fails
  (`LeavingPending`).
- The wallet knows no txid format for SOL and rejects every one, so no SOL row is ever broadcasted or confirmed,
  although the provider accepts SOL signatures (`OnChainAgrees`).

## Model

| member | source | states |
|---|---|---|
| Rounding.HalfUpIff | wallet_service.py:82-83 | a non-negative amount rounds half-up to r iff r is the multiple of the quantum with r - q/2 <= x < r + q/2 |
| Rounding.RoundWithin | wallet_service.py:82-83 | rounding lands on the grid, moves by at most half a quantum and never changes the sign |
| Rounding.RoundShift | fee_service.py:45-46 | taking whole quanta off commutes with rounding as long as nothing goes negative |
| Rounding.RoundShiftIff | fee_service.py:45-46 | for every real amount, taking whole quanta off commutes with rounding iff the amount is no tie or its sign stays the same |
| FeeService.FeesConserve | fee_service.py:24-47 | fees exist iff the bot percentage is in [0,3]; then, for every amount and platform percentage, the three shares add up to the amount rounded to cents iff the amount is not a half cent that the fees carry across zero, and the payout is negative iff the fees exceed the amount by half a cent or more; up to 50 percent no share is negative and the sum always holds |
| WalletFees.DepositSplit | wallet_service.py:109-126 | fee and net credit of a deposit add up to the quantized gross for any configured percentage, and neither is negative for a non-negative gross |
| WalletFees.TotalDebitWithin | wallet_service.py:128-152 | the reserve is amount + fees within half a quantum, and exactly that iff the amount is on the asset grid |
| LedgerService.AddEntry | ledger_service.py:10-15 | appends exactly one entry and changes no other table |
| LedgerService.AvailableBalance | ledger_service.py:17-25 | the loop returns the sum of the user's ledger entries in the asset |
| LedgerService.LockedBalance | ledger_service.py:27-41 | the loops return open locks plus the reserves of rows still pending |
| LedgerService.TotalBalance | ledger_service.py:47-49 | available plus locked |
| TotalBalances.CreateKeepsTotals | escrow_service.py:61-70 | locking money for an escrow changes nobody's total and takes the amount from the buyer's available balance, which stays non-negative |
| TotalBalances.CancelKeepsTotals | escrow_service.py:174-191 | cancelling gives the lock back and changes nobody's total |
| TotalBalances.CreateThenCancel | escrow_service.py:39-202 | creating and then cancelling an escrow restores every balance and total of every user |
| TotalBalances.RequestKeepsTotal | wallet_service.py:888-906 | requesting a withdrawal keeps the total iff the amount is on the asset grid, and within half a quantum otherwise |
| TotalBalances.RetryDropsTotal | wallet_service.py:1086-1093 | signer_retry takes the reserve out of the displayed total, because only pending rows count as locked |
| TotalBalances.OperationMovesTotal | ledger_service.py:27-49 | every operation on a withdrawal, whatever the answer, moves a total by the change of the balance and of what the row holds while it is pending |
| TotalBalances.LeavingPending | ledger_service.py:34-41 | executing a pending row drops the total by its whole reserve when it ends submitted or in signer_retry, and by nothing when it fails |
| TotalBalances.AdminRestoresTotal | bot.py:2625-2631 | requeueing and failing a row in signer_retry both bring the reserve back into the total |
| Deposits.CreditDepositIfConfirmed | wallet_service.py:572-653 | inserts or updates the row of the unique key, credits it iff this is its first finalized sighting, and reports that |
| DepositRuns.CreditedIffFinalized | wallet_service.py:587-636 | over every run, a key is credited iff the run holds a finalized sighting of it |
| DepositRuns.DepositsExactlyOnce | wallet_service.py:572-653 | over every run, the deposit entries of an account, and of all accounts together, add up to what the distinct finalized keys are worth to it, each counted once, under the settings at its first finalized sighting |
| DepositRuns.DueSplit | wallet_service.py:576-602 | what a deposit gives its user and the platform is all that it gives anyone, its positive gross |
| DepositRuns.ResightingRewritesRowOnly | wallet_service.py:611-621 | re-sighting a credited key with another amount changes the row but not the ledger; they agree iff the quantized amounts are equal |
| EscrowLocks.LockForEscrow | wallet_service.py:667-672 | debits and locks iff the balance covers the amount and no lock exists; otherwise nothing changes |
| EscrowLocks.ReleaseEscrow | wallet_service.py:674-681 | a locked row becomes released with the three payout entries, who gets what being EscrowTable.EscrowFollowsTable; otherwise nothing changes |
| EscrowLocks.CancelEscrowLock | wallet_service.py:683-688 | a locked row becomes released and its own user gets its own amount back; otherwise nothing changes |
| EscrowService.CreateEscrow | escrow_service.py:39-82 | all checks in order, then row and lock together or, on any error, neither |
| EscrowService.AcceptEscrow | escrow_service.py:84-113 | only the seller moves a pending escrow to active; the fees shown are computed after the commit, so an error there leaves the escrow active |
| EscrowService.Release | escrow_service.py:115-145 | only the buyer completes an active escrow, with the fee split booked; errors change nothing |
| EscrowService.Dispute | escrow_service.py:147-172 | a participant of a pending or active escrow opens one dispute |
| EscrowService.CancelEscrow | escrow_service.py:174-202 | a participant cancels a pending escrow only; errors change nothing |
| EscrowService.CancelEscrowMutual | escrow_service.py:204-244 | cancels an active escrow iff the open request matches two different participants |
| EscrowService.RequestCancel | bot.py:3192-3229 | a participant of an active escrow replaces the stored request by an open one addressed to the other |
| EscrowService.RespondCancel | bot.py:3271-3325 | only the addressed participant accepts or declines an open request |
| EscrowService.ResolveDispute | escrow_service.py:246-300 | a moderator closes a disputed escrow by payout, refund or split; errors change nothing |
| EscrowTable.EscrowFollowsTable | escrow_service.py:84-300 | in every reachable state, each operation on an escrow takes exactly the step that a table of status, operation and actor allows, and for every account: on a release the seller gets the rounding of amount minus fees, the platform and the tenant's owner their own percentage to cents; on a split the buyer gets the rest of the lock; on a cancellation or refund the buyer gets the amount back; every other account is unchanged |
| EscrowTable.EscrowRecords | bot.py:3192-3325 | the requests and disputes after each of these operations, and that no other table changes |
| EscrowTable.CreateIff | escrow_service.py:39-82 | an escrow is created iff its tenant exists, two different users deal, the deal is worth 40 USD and described, and the buyer holds the amount; then the amount leaves the buyer and no other account moves |
| EscrowTable.TenantsAre | tenant_service.py:31-50 | after every run the tenant of a bot is the last one set with a fee of 0 to 3 percent |
| MutualConsent.CancelledByBoth | escrow_service.py:213-232 | over every run, the next operation turns an active escrow into a cancelled one iff it is the acceptance of the latest unanswered request by the participant who did not make it |
| MutualConsent.StoredIsStanding | bot.py:3216-3228 | the stored open request is the latest valid request of the run that nobody has answered |
| MutualConsent.CounterRequest | bot.py:3216-3228 | a counter-request by the other participant stands and voids the earlier one |
| Withdrawals.KeyNamesRow | wallet_service.py:830-833 | equal idempotency keys belong to the same row, with no assumption on the hash |
| Withdrawals.RequestWithdrawal | wallet_service.py:849-918 | the checks in order, then row, row-specific key and reserve entry together, or nothing; which requests pass is Requests.RequestIff |
| Withdrawals.WithdrawnUsdLast24h | wallet_service.py:814-827 | the loop returns the USD value of the user's in-flight rows created since the cutoff |
| Requests.RequestIff | wallet_service.py:849-918 | after any run, a request is granted iff withdrawals are enabled, the amount positive, the address accepted, the user not frozen by the last admin word, the latest own withdrawal old enough, the value at least the minimum, the day's limit kept and the reserve held; then the row repeats the request with its fees and only the user's balance moves, by the reserve; otherwise nothing changes |
| Requests.RowsGranted | wallet_service.py:888-906 | over every run, the withdrawal rows are the granted requests, in order |
| Requests.NoneWhileFrozen | wallet_service.py:399-402 | over every run, no row of a user is added between freezing and unfreezing that user |
| Requests.IntervalKept | wallet_service.py:867-878 | over every run with a fixed minimum interval, two consecutive rows of one user are at least that far apart |
| Withdrawals.BookWithdrawalPlatformFeeIfNeeded | wallet_service.py:154-173 | books the stored fee unless it is zero or already booked |
| Withdrawals.SettleWithdrawalNetworkFeeIfNeeded | wallet_service.py:194-224 | books the actual fee and the difference to the estimate once |
| Withdrawals.MarkSubmitted | wallet_service.py:1069-1073 | sets the status and keeps a provider_ref already stored |
| Withdrawals.MarkBroadcasted | wallet_service.py:1059-1067 | books the fee, sets status and txid, settles if an actual fee is known |
| Withdrawals.MarkConfirmed | wallet_service.py:1075-1081 | books the fee, sets status and txid, always settles |
| Withdrawals.MarkSignerRetry | wallet_service.py:1086-1093 | clears the txid and books nothing |
| Withdrawals.MarkFailed | wallet_service.py:1095-1104 | releases amount and both fees, with no status guard of its own |
| Withdrawals.SignerRetryAction | bot.py:2624-2631 | requeues or fails a row in signer_retry only |
| Withdrawals.RecordProviderResult | wallet_service.py:1116-1165 | stores reference and actual fee, or refuses on any mismatch of key, reference, asset, fee or txid and changes nothing |
| WithdrawalSteps.NetworkSum | wallet_service.py:203-220 | whatever the actual fee, the settlement entries of a row add up to the reserved estimate |
| AnswerMoney.AnswerPays | wallet_service.py:154-224 | in every reachable state, whatever is answered to execute or reconcile: the platform gets its fee once and the actual network fee, the user the rest of the estimate, or all of it back on a failure, and no other account moves |
| AnswerMoney.AdminTable | bot.py:2624-2631 | an admin action changes exactly rows in signer_retry: back to pending, or failed with amount and fees given back |
| WithdrawalSteps.BookFeeKeeps | wallet_service.py:161-173 | booking the fee keeps the invariant, and afterwards it is booked unless it is zero |
| WithdrawalSteps.SettleKeeps | wallet_service.py:194-224 | settling, forced or not and however often repeated, keeps the invariant |
| WithdrawalSteps.ConfirmedKeeps | wallet_service.py:1075-1081 | confirming an in-flight row keeps the invariant |
| WithdrawalSteps.FailedKeeps | wallet_service.py:1095-1104 | failing an in-flight row keeps the invariant, in particular one release per row |
| WithdrawalSteps.ExecuteKeeps | signer/signer_service.py:119-154 | executing a pending row keeps the invariant for every answer or none |
| WithdrawalSteps.ReconcileKeeps | signer/signer_service.py:156-184 | reconciling any row that is still open keeps the invariant for every answer or none |
| CustodySteps.CreditKeeps | wallet_service.py:572-653 | a sighting that agrees with the chain keeps the invariant |
| CustodySteps.CreateKeeps | escrow_service.py:39-82 | creating an escrow keeps the invariant |
| CustodySteps.ReleaseKeeps | escrow_service.py:115-145 | releasing an escrow keeps the invariant |
| CustodySteps.ResolveKeeps | escrow_service.py:246-300 | every resolution with a split in [0,100] keeps the invariant |
| CustodySteps.SplitSum | escrow_service.py:266-279 | for every percentage: the four entries add up to the lock amount plus the rounding of the seller's part iff that part is no half cent that the fees carry across zero, and they debit a user iff the percentage is above 100 or the fees exceed the part by half a cent or more |
| CustodyRuns.StepKeeps | wallet_service.py:572-1165 | every operation, under any settings, keeps the custody invariant |
| CustodyRuns.RunInv | wallet_service.py:572-1165 | the custody invariant holds in every state any run reaches, with settings that may change between any two operations |
| CustodyEquation.CustodyHolds | wallet_service.py:598-906 | per asset and in every reachable state, the whole ledger is credited deposits minus open locks plus withdrawal footprints, off by at most 0.005 per escrow that was paid out |
| CustodyEquation.EscrowConserves | escrow_service.py:128-279 | an escrow's entries sum to minus its amount while open, 0 when cancelled or refunded, and the rounding difference when released or split, which is 0 iff the paid amount has whole cents |
| CustodyEquation.WithdrawalConserves | wallet_service.py:1059-1104 | whatever settings a row was requested under, a confirmed one costs its amount, a failed one only what was booked on chain, an open one amount and fees less what is booked; exact iff the amount is on the asset grid, else within half a quantum |
| Lifecycles.LedgerAppendOnly | ledger_service.py:10-15 | over every run, no entry is ever removed or changed |
| Lifecycles.FinalForever | escrow_service.py:123-257 | a completed or cancelled escrow and a confirmed or failed withdrawal keep their row forever, and nothing is booked for them again |
| Lifecycles.LockFollowsStatus | escrow_service.py:62-287 | in every reachable state an escrow is pending, active or disputed iff its lock is locked, lock and escrow amounts agree, and it has exactly one open dispute iff it is disputed, else none |
| Lifecycles.FeesAlwaysShown | escrow_service.py:109-112 | over every run, each escrow has a stored tenant with a valid percentage, so the fees shown after accepting can always be computed |
| Lifecycles.ReleasedAtMostOnce | wallet_service.py:1095-1104 | in every reachable state a withdrawal has one release iff it failed, else none, and at most one fee entry |
| Lifecycles.ReconcileNeverReleases | signer/signer_service.py:156-184 | whatever the provider answers, reconciling books only fees of that row, fails nothing and touches no other row |
| Overdrafts.BoundedOverdraft | wallet_service.py:219-220 | in every reachable state a balance is at least the sum of the user's network-fee adjustments, the only unchecked debits |
| Overdrafts.NoOverdraft | wallet_service.py:219-220 | in runs where no reported fee exceeds its estimate no balance is ever negative |
| Overdrafts.SettlingIsUnchecked | wallet_service.py:194-224 | settling moves the balance by estimate minus actual fee; it ends negative iff the overage exceeds the balance |
| Overdrafts.ConfirmingIsUnchecked | wallet_service.py:1075-1081 | confirming an unsettled row moves the balance by estimate minus recorded fee |
| Overdrafts.AnswerOverdraws | signer/signer_service.py:119-184 | in every reachable state, executing or reconciling a row with an acceptable confirmed answer moves the balance by estimate minus reported fee and ends below zero iff the overage exceeds the balance |
| Overdrafts.AnyRowOverdraws | signer/signer_service.py:119-184 | in every reachable state, each unsettled row without a reference, SOL apart, can get an answer that leaves its user with a negative balance |
| Overdrafts.SplitIsUnchecked | escrow_service.py:266-279 | for every percentage, a split moves the buyer's balance by what the seller's part leaves of the lock; it ends negative iff more than the balance is taken, which needs more than 100 percent |
| Witnesses.EscrowDrift | escrow_service.py:128-131 | under the default settings, creating, accepting and releasing an escrow of 0.12345678 ETH leaves -0.00345678 ETH in its entries |
| Witnesses.OffGridCost | wallet_service.py:128-152 | under the default settings, a run confirms a withdrawal whose entries do not add up to its amount |
| Witnesses.NegativeBalance | wallet_service.py:219-220 | under the default settings, a run of one deposit, one request and one answer ends with a negative balance |
| Witnesses.FailedKeepsFees | wallet_service.py:1059-1104 | in every reachable state, broadcasting a pending row with a reported fee, sending it to signer_retry and failing it releases everything while both fees stay booked |
| Witnesses.FeesOfFailedRow | bot.py:2625-2631 | under the default settings, such a run ends with 0.0015 ETH booked for a failed withdrawal |
| DailyCap.InFlightCapped | wallet_service.py:814-886 | with a clock that does not run backwards and fixed limit and prices, every user's in-flight rows of the trailing 24 hours never exceed the daily limit in any reachable state |
| DailyCap.ConfirmingMakesRoom | wallet_service.py:814-827 | confirming a row frees its value for the same day |
| ProviderService.ProviderStore.CreateSubmitted | withdrawal_provider_service/app.py:111-163 | adds one submitted record and its audit entry, or refuses a key or reference already present |
| ProviderService.ProviderStore.HandleExecute | withdrawal_provider_service/app.py:300-325 | rejects without a record, answers from the existing record, or creates one |
| ProviderService.ProviderStore.HandleReconcile | withdrawal_provider_service/app.py:327-347 | looks up by reference, then by key, and changes nothing |
| ProviderService.ProviderStore.UpdateStatus | withdrawal_provider_service/app.py:165-236 | sets a known status on an existing record with a well-formed txid and logs it, or changes nothing |
| ProviderService.ExecuteKeepsStore | withdrawal_provider_service/app.py:300-325 | keys and references stay unique, identities and the audit log survive |
| ProviderService.UpdateKeepsStore | withdrawal_provider_service/app.py:165-236 | the same for operator updates; an on-chain status is always logged with its txid |
| ProviderService.ExecuteIdempotent | withdrawal_provider_service/app.py:300-325 | for every store and request, repeating the request gives the same answer and changes nothing |
| ProviderService.ReconcileOwnKey | withdrawal_provider_service/app.py:327-347 | an answer that is not ambiguous or unknown is the state of the record with the asked key |
| SignerCycle.ExecuteSingle | signer/signer_service.py:119-154 | one exchange with the provider and what it does to the row, also when the request or the reply is lost; the row after each kind of answer is Answers.ExecuteTable |
| Answers.ExecuteTable | signer/signer_service.py:71-154 | every answer to a pending row, kind by kind, with a good or missing txid, another asset or reference and a bad fee: the resulting status, txid, reference and actual fee |
| Answers.ReconcileTable | signer/signer_service.py:156-184 | the same for every answer to a reconcile request, where a rejection only leads to signer_retry |
| Answers.FailsIff | signer/signer_service.py:119-154 | in every reachable protocol state, executing a pending row ends failed, with one entry giving amount and both fees back, iff the exchange is delivered and the provider turns the request down or has the row's own record as rejected or permanently failed |
| Answers.RejectedIff | withdrawal_provider_service/app.py:300-325 | the provider answers a row's request with a rejection iff it turns it down or its own record was rejected |
| Answers.RequestAnswered | withdrawal_provider_service/app.py:300-325 | a request that is not turned down is answered from the row's one record; a row without a record gets a new one, in status submitted |
| Answers.ReconcileAnswered | withdrawal_provider_service/app.py:327-347 | a reconcile request is answered from the row's record iff there is one, and as unknown iff there is none |
| Answers.TxidFormats | wallet_service.py:836-847 | a txid is well-formed iff it is 64 hexadecimal digits, on Ethereum behind 0x; never for SOL |
| SignerCycle.ReconcileSingle | signer/signer_service.py:156-184 | one reconcile exchange and what it does to the row |
| SignerCycle.ProcessWithdrawals | signer/signer_service.py:85-96 | the two loops: all pending rows in id order, then all due unresolved rows |
| CycleSteps.CycleIsEvents | signer/signer_service.py:85-96 | a whole cycle is a sequence of protocol events: each row is still pending, or unresolved, when its turn comes |
| CycleSteps.CycleEmptiesQueue | signer/signer_service.py:85-96 | a cycle leaves no row pending, whatever is delivered or lost |
| Protocol.AskedOwn | withdrawal_provider_service/app.py:309-325 | a request for a row is answered from the row's own record or rejected, never as a mismatch |
| Protocol.ReconciledOwn | withdrawal_provider_service/app.py:327-347 | a reconcile request for a row is answered from the row's own record or as unknown |
| Protocol.AnswerFits | signer/signer_service.py:130-141 | accepting an answer leaves reference, status and txid of the row backed by its own record |
| ProtocolRuns.AlwaysSound | signer/signer_service.py:85-184 | wallet, saved tables and provider store stay linked under every interleaving of lost messages, rollbacks, admins and operators |
| ProtocolRuns.AlwaysInv | run_signer.py:38-53 | the custody invariant holds in the middle of every cycle and after every rollback |
| ProtocolRuns.OneRecordPerWithdrawal | withdrawal_provider_service/app.py:300-325 | at most one provider record per withdrawal, under every interleaving |
| ProtocolRuns.ResendMatches | withdrawal_provider_service/app.py:309-347 | in every reachable state, execute and reconcile answers are about the row's own record |
| ProtocolRuns.OnChainAgrees | wallet_service.py:1149-1151 | a broadcasted or confirmed row has a sane txid that an operator set, with that status, on the record under the row's key with the same asset and amount; never for SOL |
| ProtocolRuns.RefNeverChanges | infra/db/database.py:98-103 | a committed provider_ref is never changed or cleared by any later event |
| ProtocolRuns.ReleasedOnlyIfRejected | signer/signer_service.py:150-151 | executing releases funds only if the request was rejected or the row's own record was marked rejected or permanently failed |
| ReleasedRows.BothWaysIff | bot.py:2625-2631 | between cycles, a row can still end up released and reported as confirmed for its own record iff it is in flight and the provider would accept its request, or it failed and its record exists |
| ReleasedRows.PendingThenBoth | signer/signer_service.py:145-149 | the history: the request arrives, its answer is lost, an admin fails the row, an operator confirms the record |
| StaleReads.MarkRevives | signer/signer_service.py:156-184 | a marked row is not failed afterwards, whatever the answer and also when it was failed before |
| StaleReads.FailedSinceRead | wallet_service.py:953-978 | over every run, a row that is read and not yet marked has failed iff an admin failed it since it was read |
| StaleReads.FinalIffNotOvertaken | signer/signer_service.py:93-95 | over every run, finished rows and closed escrows stay untouched at every event other than a rollback iff no signer marks a row that an admin failed after it was read |
| StaleReads.InvIffNotOvertaken | signer/signer_service.py:93-95 | over every run, rollbacks included, the custody invariant holds after every event iff no signer marks a row that an admin failed after it was read |
| StaleReads.StaleCustody | run_signer.py:38-53 | until then the custody equation holds and a withdrawal has one release iff it failed |
| StaleReads.ReleasedThenConfirmed | wallet_service.py:1075-1081 | in every reachable state, an answer that could confirm a row in signer_retry leaves it confirmed and released when an admin fails it in between |
| WatcherStatus.StatusTable.UpsertWatcherStatus | watcher_status_service.py:98-131 | health bookkeeping stores a known label, an unknown one as transient_failure, and never touches any cursor |
| WatcherStatus.StatusTable.WriteWatcherCursor | watcher_status_service.py:161-170 | sets this watcher's cursor and no other |
| Watchers.FetchDeposits | infra/chain_adapters/eth_rpc.py:90-127 | returns everything found after the cursor, up to the batch end, and the cursor to store |
| Watchers.RunOnce | watchers/eth_watcher.py:14-72 | credits first, cursor last, for a crash at any point and any set of raising credit calls |
| WatcherRuns.CreditedIffSucceeded | watchers/eth_watcher.py:47-66 | over every run, a key is credited iff some credit call for it did not raise, or somebody else credited it |
| WatcherRuns.CursorCovers | infra/chain_adapters/eth_rpc.py:50-127 | for any heads, backwards ones included, any crashes, any raising calls and any changes of the watched addresses: every block above the floor and up to the cursor was passed by a completed cycle; each such cycle handed over the block's transfers to the addresses it watched, so a transfer whose address was watched in time is handed over, and it is credited unless every call for its key raised |
| WatcherRuns.LedgerIsBlocks | watchers/eth_watcher.py:23-66 | next to watchers of other assets, the deposit entries are what the transfers of the scanned blocks with a call that did not raise are worth, each once; so all of them if each had such a call, in particular if their addresses were watched in time and no call raised |
| WatcherRuns.ReachesHead | infra/chain_adapters/sol_rpc.py:146-185 | with a constant head H the cursor is min(H, cursor + n*max) after n cycles and reaches H iff n >= ceil((H - cursor)/max) |
| WatcherRuns.CycleMoves | infra/chain_adapters/eth_rpc.py:90-97 | one cycle moves the position by a batch towards the head; a head that went backwards takes the cursor along, down to the floor |
| WatcherRuns.RaisedIsLost | watchers/eth_watcher.py:60-64 | a deposit in a block the cursor has passed is not credited iff every credit call ever made for its key raised |
| WatcherRuns.LostOnce | watchers/eth_watcher.py:60-64 | one cycle in which every call raises leaves the cursor past the block and the deposit uncredited |
| WatcherRuns.UnwatchedIsMissed | run_eth_watcher.py:56-68 | one cycle without raising calls leaves the cursor past the block and uncredited a deposit to an address it does not watch yet |
| WatcherRuns.RunContinues | watchers/sol_watcher.py:23-66 | crediting the deposits of a cycle on the tables of a run continues that run |
| DepositKeys.EthKeyNames | infra/chain_adapters/eth_rpc.py:110-126 | on one network an ETH or USDT key names transaction, asset, log index and address |
| DepositKeys.SolKeyNames | infra/chain_adapters/sol_rpc.py:105-112 | on one network a SOL key names transaction, instruction slot and address |
| DepositKeys.IterTransferInstructions | infra/chain_adapters/sol_rpc.py:68-80 | the nested loops list outer and inner instructions with their slots |
| DepositKeys.SlotsDistinctIff | infra/chain_adapters/sol_rpc.py:68-80 | the slots of a transaction are distinct iff no two non-empty inner groups share an outer index |
| ChainScans.EthKeysDistinct | infra/chain_adapters/eth_rpc.py:99-126 | over any block range, transfers with distinct hashes and logs with distinct positions never share a key |
| ChainScans.EthLedgerIsBlocks | infra/chain_adapters/eth_rpc.py:90-127 | with unique transaction hashes and log positions alone, the ledger holds what the scanned ETH and USDT transfers are worth, each once; how much that is is ChainWorth.EthShared |
| ChainScans.EthFiltered | infra/chain_adapters/eth_rpc.py:90-127 | scanning with a loaded part of the address map finds exactly the transfers of the full scan to the loaded addresses, in the same order |
| ChainScans.SolKeysDistinct | infra/chain_adapters/sol_rpc.py:154-183 | over any slot range, with unique signatures and untangled inner groups no two transfers share a key |
| ChainScans.SolLedgerIsBlocks | infra/chain_adapters/sol_rpc.py:146-185 | with unique signatures and untangled inner groups alone, the ledger holds what the scanned SOL transfers are worth, each once |
| ChainScans.SolFiltered | infra/chain_adapters/sol_rpc.py:146-185 | the same on Solana |
| ChainWorth.EthShared | infra/chain_adapters/eth_rpc.py:59-126 | from raw blocks to the ledger, for every run and payee: the deposit entries are the shares of exactly the logs (units / 10^6 USDT) and transactions (wei / 10^18 ETH, to eight decimals) of the scanned blocks with a call that did not raise; the owner in the address map gets the amount less the fee, the platform the percentage rounded half up |
| ChainWorth.EthTotals | infra/chain_adapters/eth_rpc.py:59-126 | if no payment was lost, all deposit entries together are the paid units / 10^6 exactly, and the paid wei / 10^18 within half a quantum for each transaction |
| ChainWorth.SolShared | infra/chain_adapters/sol_rpc.py:84-185 | the same for the system transfers among the outer and inner instructions of transactions that did not fail and are signed |
| ChainWorth.SolTotals | infra/chain_adapters/sol_rpc.py:56-59 | if no payment was lost, all deposit entries together are the paid lamports / 10^9 exactly |
| Routes.RouteTable.EnsureWalletRouteIntegrity | wallet_service.py:352-397 | the single pass with last-row memory accepts iff every row parses and every pair of rows is conflict-free; then it fills in missing fingerprints, else it changes nothing |
| Routes.BackfillKeepsSound | wallet_service.py:361-397 | filling in fingerprints is idempotent and keeps the table acceptable |
| Routes.RouteTable.MonitoredDepositAddressMap | wallet_service.py:329-350 | the loop raises iff a row does not parse or a route of one family has two users; else it returns the last-wins map |
| Routes.MonitoredMapIsFaithful | wallet_service.py:329-350 | on an accepted table and one chain family the map never raises, sends each address to its owner and does not depend on row order |
| Routes.MapFaithfulIff | wallet_service.py:349-350 | the map gives every watched row its own user iff no address text belongs to two users |
| RateLimiter.Limiter.IsRateLimited | bot.py:117-153 | prunes, counts and inserts as one step |
| RateLimiter.WindowHolds | bot.py:117-153 | over any run with a non-decreasing clock and a window of at most an hour, every closed interval of window length holds at most limit accepted events |
| RateLimiter.LongWindowBreaks | bot.py:119-129 | for every longer window and positive limit there is a run that exceeds the limit |
| RateLimiter.TableCountsHistory | bot.py:129-133 | within the retention the pruned table counts like the full history |
| RateLimiter.LimitedIff | bot.py:129-153 | with a window of at most an hour, a call is limited iff the full history holds limit events of its window |
| Base58.DecodeRawText | withdrawal_provider_service/app.py:430-439 | the loop computes the decoding, or fails on a character outside the alphabet |
| Base58.DecodeInjective | wallet_service.py:692-702 | two different texts that both decode give different byte strings |
| Base58.BytesReadBack | wallet_service.py:700-702 | the padded big-endian bytes read back as the decoded number |
| Base58.CheckedDecodeInjective | withdrawal_provider_service/app.py:442-449 | a payload has only one accepted text, for any checksum function |
| Base58.DigitIsValue | wallet_service.py:692-699 | the digits are 1 to 9, A to Z without I and O, a to z without l, valued 0 to 57 in this order |
| Base58.EncodeDecodes | wallet_service.py:692-702 | every byte string has a text that decodes to it, leading zero bytes as leading ones and the rest in base 58 |
| Bech32.PolymodOf | wallet_service.py:712-721 | the nested loops compute the checksum state; which code that is is Bech32Code.PolymodIsRemainder |
| Bech32.StepBijective | wallet_service.py:716-720 | for a fixed symbol a step is a bijection on 30-bit states, with an explicit inverse |
| Bech32.PolymodSmall | wallet_service.py:712-721 | the state stays below 2^30 for texts of any length |
| Bech32.PolymodAffine | withdrawal_provider_service/app.py:452-461 | the XOR of two checksums depends only on the XOR of the texts |
| Bech32.OneSubstitution | withdrawal_provider_service/app.py:452-461 | substituting exactly one symbol always changes the result, at any length |
| Bech32.AcceptedNeverOneApart | wallet_service.py:728-730 | two accepted texts one data symbol apart never verify against the same constant |
| Bech32Code.SelectedPacks | wallet_service.py:713-720 | the constants that a top symbol selects pack its six products, in GF(32) modulo x^5 + x^3 + 1, with the coefficients 29, 22, 20, 21, 29, 18 of BIP 173's generator |
| Bech32Code.NoZeroDivisors | wallet_service.py:713-713 | that multiplication stays below 32, has the unit 1 and no zero divisors |
| Bech32Code.StepIsTimesX | wallet_service.py:716-720 | a step is multiplication by x modulo the generator polynomial, plus the symbol |
| Bech32Code.PolymodIsRemainder | wallet_service.py:712-721 | the checksum of any text is the remainder of the text, with a leading 1, modulo the generator polynomial |
| Bech32Code.RemainderUnique | wallet_service.py:712-721 | there is only one such remainder, whatever the quotient |
| Bech32Code.AcceptedIff | wallet_service.py:724-730 | a text is accepted iff it leaves the remainder 1 or BIP 350's constant |
| Bech32Code.Bech32Text | wallet_service.py:728-730 | BIP 173's valid text A12UEL5L leaves 1 |
| Bech32Code.Bech32mText | wallet_service.py:728-730 | BIP 350's valid text A1LQFN3A leaves the second constant |
| Text.NatTextReadsBack | wallet_service.py:830-833 | the text of a row id is its decimal digits |
| Text.StripParts | wallet_service.py:779-782 | stripping takes white space off both ends and leaves none there |

## Left out

- Decimal arithmetic with 28 significant digits: amounts are exact reals.
- Resolving Telegram ids to users, user rows and asset symbols as free text: ids and assets are already typed.
- Columns that nothing in the model reads: labels, messages, external_status, metadata other than the network fee, deposit txid, failure reasons, time stamps other than created_at; audit events and admin_actions rows.
- CustodySteps.ResolveKeeps: stated for split percentages in [0,100], because beyond them the invariant is false: SplitSum and SplitIsUnchecked say for every percentage what the entries do.
- CustodyRuns.RunInv: assumes a platform percentage in [0,50] (the default is 3; FeesConserve says what happens beyond), split percentages in [0,100], positive prices and that every sighting of a key agrees with the chain, as the deposit property needs.
- DailyCap.InFlightCapped: the prices and the daily limit are fixed for the run, the other settings may change; the price cache and its fallback are not modelled beyond that.
- WatcherRuns.LedgerIsBlocks: the deposit fee setting is fixed for the run, as it is for the theorems of ChainWorth; DepositsExactlyOnce lets it change.
- Requests.IntervalKept: the interval is fixed for the run, since it is read from the settings at each request.
- RateLimiter.WindowHolds: each (user, action) uses one limit and window throughout the run, as its call sites do.
- Provider origin: there is one external provider, so its name is not stored; the vault and disabled providers are not modelled.
- Two signers at once: cycles do not overlap each other, nor an admin's targeted reconcile. Admin actions between a signer's read and its first write are in StaleReads; everywhere else wallet operations happen outside cycles.
- The reconcile intervals and their time stamps, and the limit of 100 rows: which rows are due is a parameter. The backoff that the repository's own README describes is not stated, because marking a row submitted or broadcasted resets its reconcile time.
- Unicode white space: stripping covers ASCII white space only, and texts are compared as they are.
- HTTP, authentication, JSON decoding of requests with missing or mistyped fields, and timeouts: a message is not sent, answered without the answer arriving, or answered.
- The Bech32 text layer (case, separator, character set) and the address version checks: small look-ups around the proved checksum and Base58 kernels.
- AES-GCM, PBKDF2, SHA-256, eth_utils and bip_utils: parameters.
- Telegram handlers, menus, notifications, price fetching, readiness and preflight checks, schema migration, HD wallet indexes, pagination and reputation: none of them books on the ledger or decides what a booking is.
