# Verified model of the marketplace's protocols

Dafny 4.11 models of the parts of this system where concurrency, money or time make mistakes easy, with
proofs of what they promise. `dafny verify dfyconfig.toml` checks everything.

Each protocol has the same two layers. One is a specification: a step function over explicit state (one
atomic action per event, events of all participants interleaving freely) or one function per entry point,
with invariants and theorems over every run. The other is the code in its own shape: classes whose methods
update fields and loop as the repository's do, proved to do exactly what the specification says.

- **Saga coordinator** (`Saga*.dfy`). Any number of runners share one durable record and write it by
  compare-and-swap on its version. A runner reads, checks a lease, claims a step, awaits the action or
  compensation, and commits. It may crash between any two of these. `SagaMachine` has the steps,
  `SagaInvariant` shows that every interleaving leaves one legal sequential history of saves, `SagaTheorems`
  reads lease exclusion, log shape, termination and recovery off it, and `SagaCoordinator` has store and
  coordinator as classes. There, a runner is interrupted between its actions by arbitrary steps of the
  others, and each action of its own is booked as one step of the machine, so the theorems hold of it. The
  object also keeps, over its whole history, that each result it stored came from the right handler.
- **Escrow contract** (`Soroban`, `TokenLedger`, `Escrow*.dfy`). Entry points as functions on contract
  storage; an invocation that returns an error or traps changes nothing. `EscrowInvariant` and
  `EscrowTheorems` cover custody, exactly-once payout, fees, quorum and the two eligibility views over
  every history, `EscrowAuthority` who can change what and for how long, `EscrowHistory` exactly which calls
  succeed and what storage says of the calls before, and `EscrowExamples` has the histories on which a natural
  expectation fails. `EscrowContract` is the contract as a class.
- **Permissions contract** (`Permissions*.dfy`). `PermissionsTheorems` has allowance accounting and the
  time-locked decrement, `PermissionsHistory` exactly which calls succeed and whose terms a record carries.
- **Spend limits and transaction queue** (`Calendar`, `WeekKeys`, `RedisCounters`, `Attempts`, `Spend*.dfy`,
  `SequenceAllocator`, `TxQueue`). UTC-day, ISO-week and lifetime counters with times to live. A check chooses
  its keys and reads the counters some time later; a success that was seen is recorded some time after its
  keys were chosen; in between attempts are made and retried. An attempt is what the network does with the
  transaction (how far sending gets, what becomes of it on the ledger, what each poll answers) next to what
  the worker makes of that. `SpendTheorems` has counters and overshoot, `SpendRequests` what one request lands
  and what is recorded of it, `SpendExamples` the runs that reach bounds or fail expectations, and
  `SequenceAllocator` the sequence-number cache of the single worker. `TxQueue` has counters and queue as
  classes; each action is a step of the spend machine, of the sequence machine, or of both. `Calendar` has
  the week date of section 4.1.4 of ISO 8601:2004, and `WeekKeys` the one the code computes.
- **Refresh tokens** (`RefreshTokens`, `AuthService`). Rotation with reuse detection, as in section 4.14.2
  of RFC 9700, under interleaved logins, refreshes, logouts and crashes.
- **Rate limiter** (`RateLimiter`). Fixed windows over an expiring counter. Requests overlap, and each may be
  held up between choosing its key, counting itself and setting the expiry.
- **Stroop conversion** (`Decimal`, `Currency`). The printer and the two parsers.

## Findings

Places where the code does less than its names or comments suggest. Each has a proof that says exactly when.

- A transaction that lands on the ledger is recorded as spent unless sending threw, all twelve polls went
  by unanswered, or the first answer was an exception, and then never
  (`apps/backend/wallet/src/queue/txQueue.ts:252-325`). The counters show all that landed if and only if
  there was no such attempt: `Attempts.RecordedExactlyWhen`, `SpendRequests.RecordedIsLandedExactlyWhen`.
  A success can go unrecorded (`SpendExamples.SuccessWithoutRecord`), and since a timeout is retried one
  request can pay twice and be recorded once (`SpendExamples.OneRequestPaysTwice`), or five times and be
  reported as failed (`SpendExamples.OneRequestPaysFiveTimes`), but no more (`SpendRequests.RecordedAtMostOnce`).
- A transaction that the ledger took in and reverted is reported as a success if and only if no poll was answered
  and the lookup after them finds it, since the lookup asks only whether the ledger knows the hash
  (`apps/backend/wallet/src/queue/txQueue.ts:315-318`): `Attempts.RevertedReportedExactlyWhen`,
  `Attempts.RevertedIsReported`.
- `Date.UTC` reads the years 0 to 99 as 1900 to 1999, so `getWeeklyKey` names the ISO week if and only if
  neither the date's year nor that of its Thursday is one of those: `WeekKeys.WeekIsIsoExactlyWhen`. Days of
  those years share their key with days 1900 years later (`SpendSpec.WeeklyKeysCollide`), a week of theirs can
  have two keys (`SpendSpec.WeeklyKeySplits`), and just after them the number leaves the range
  (`WeekKeys.WeekNumberLeavesRange`). No clock gives such dates, but the function takes any.
- A rate-limit counter picked before its window ends and incremented after its key has expired starts anew:
  a window admits exactly its maximum unless that happens with more requests than fit
  (`RateLimiter.WindowAdmitsExactlyWhen`, `RateLimiter.LateRequestIsAdmitted`). Without requests in flight
  across a window's end any stretch of one window's length admits at most twice the maximum, and that much
  is reached (`RateLimiter.AtMostTwiceTheMaximum`, `RateLimiter.TwiceIsReached`); with k of them it admits at
  most k more, and for every k that is reached too (`RateLimiter.BoundIsMet`).
- Removing a co-admin is final if and only if it is not the pending admin; otherwise it can make itself the
  primary admin: `EscrowAuthority.RemovalIsFinalExactlyWhen`, `EscrowExamples.RemovedNomineeTakesOver`.
- Revoking a token family is final if and only if no refresh of that family is between revoking its token
  and creating the successor: `RefreshTokens.RevocationIsFinalExactlyWhenQuiet`,
  `RefreshTokens.LogoutMissesRefresh`.
- `can_spend` sets no lower bound on the amount: a successful spend leaves at most the old allowance if and
  only if its amount is not negative (`PermissionsTheorems.SpendTakesItsAmount`); after a grant of 10, a
  spend of -7 leaves 17 (`PermissionsTheorems.NegativeSpendRaisesAllowance`).
- A decrement may be negative too: without a grant a limit rises exactly when such a one is executed
  (`PermissionsTheorems.LimitMovesOnlyAfterTimeLock`, `PermissionsTheorems.NegativeDecrementRaisesLimit`).
- `resume` brings back a revoked permission as it does a paused one, with what was spent still counted
  (`PermissionsTheorems.RevokedSpendsAgain`). A stopped permission stays stopped, and nothing is spent under
  it, exactly until a resume or a grant succeeds: `PermissionsTheorems.StoppedExactlyUntilRevived`.
- `get_release_eligibility` reports a timeout that `release` does not check:
  `EscrowTheorems.ReleaseViewIsStricter`, `EscrowExamples.ReleaseAfterTimeout`.
- The largest deposit at the highest rate would overflow `amount * fee_bps`; the split formula gives the
  exact fee: `EscrowExamples.DirectProductWouldOverflow`, `EscrowTheorems.ReachableFeeIsSafe`.

## Model

| member | source | states |
|---|---|---|
| SagaInvariant.NextStepIs | apps/backend/orchestrator/src/saga/coordinator.ts:140-188 | the step a reader picks is the first unrecorded one when running and the last recorded one when compensating |
| SagaInvariant.SettledSteps | apps/backend/orchestrator/src/saga/coordinator.ts:162-226 | a result adds one step at the end, takes one off the end, or, if it threw, leaves the recorded steps alone |
| SagaInvariant.LegalSaveKeepsWellFormed | apps/backend/orchestrator/src/saga/coordinator.ts:134-264 | a legal save keeps recorded steps a prefix of the step order and any lease on the step a reader would pick next |
| SagaInvariant.CasKeepsInv | apps/backend/orchestrator/src/saga/memory-store.ts:31-39 | a compare-and-swap, won or lost, keeps every runner's copy behind or equal to the store and the history legal |
| SagaInvariant.StepKeepsInv | apps/backend/orchestrator/src/saga/coordinator.ts:51-264 | every atomic action of every runner, crash and clock tick keeps the invariant |
| SagaInvariant.ReplayKeepsInv | apps/backend/orchestrator/src/saga/coordinator.ts:51-264 | so does every interleaving |
| SagaTheorems.NextSaveRespectsLease | apps/backend/orchestrator/src/saga/coordinator.ts:239-264 | the save after a claim is the holder's or comes no earlier than the lease's end |
| SagaTheorems.LeaseExclusion | apps/backend/orchestrator/src/saga/coordinator.ts:239-264 | no other runner's save lands before a claim expires unless the holder has saved in between |
| SagaTheorems.ResultFollowsOwnClaim | apps/backend/orchestrator/src/saga/coordinator.ts:148-226 | every stored result directly follows its own runner's claim of that step |
| SagaTheorems.LostLeaseNeverStores | apps/backend/orchestrator/src/saga/coordinator.ts:174-226 | a runner whose claim was overtaken never stores its result, whatever happens before it tries |
| SagaTheorems.VersionsGrow | apps/backend/orchestrator/src/saga/memory-store.ts:31-39 | versions never go down, and the record never disappears |
| SagaTheorems.LogShapeHolds | apps/backend/orchestrator/src/saga/coordinator.ts:139-229 | stored results are actions 0..k-1 then compensations k-1 down to j, completedSteps is the first j steps, and the context is that log folded over the initial one |
| SagaTheorems.FailedSagaRestoresContext | apps/backend/orchestrator/src/saga/coordinator.ts:186-229 | if compensations undo their actions, a failed saga ends with its initial context |
| SagaTheorems.ProgressDecreasesMeasure | apps/backend/orchestrator/src/saga/coordinator.ts:134-230 | every save other than a claim or lease release lowers the distance to a terminal record; those two keep it |
| SagaTheorems.AtMostTwiceTheSteps | apps/backend/orchestrator/src/saga/coordinator.ts:134-230 | a saga of n steps makes at most 2n such saves, however runners interleave, crash and retry |
| SagaTheorems.OutcomeOfTerminal | apps/backend/orchestrator/src/saga/coordinator.ts:183-229 | completed means every step recorded, failed means none, and neither holds a lease or names a step |
| SagaTheorems.TerminalIsForever | apps/backend/orchestrator/src/saga/coordinator.ts:66-96 | a terminal record never changes again |
| SagaTheorems.RunStartsOrJoins | apps/backend/orchestrator/src/saga/coordinator.ts:51-72 | running a saga that is not there creates it on the caller's terms with nothing done; running one that is there takes it as it is |
| SagaTheorems.ErrorIsWhatThrew | apps/backend/orchestrator/src/saga/coordinator.ts:152-169 | in every reachable state a saga compensates or has failed exactly when an action threw, its error is that action's message, and order and saga id are the first ones |
| SagaTheorems.LeasedExactlyWhileClaimed | apps/backend/orchestrator/src/saga/coordinator.ts:155-263 | in every reachable state the record carries a lease exactly while the last save is a claim, and then on the claimed step |
| SagaTheorems.AlwaysRecoverable | apps/backend/orchestrator/src/saga/coordinator.ts:74-132 | from every reachable state some run within one lease ends the saga |
| SagaCoordinator.InMemorySagaStore.CreateIfNotExists | apps/backend/orchestrator/src/saga/memory-store.ts:18-24 | returns the record already stored, or stores the offered one at version 0 |
| SagaCoordinator.InMemorySagaStore.Get | apps/backend/orchestrator/src/saga/memory-store.ts:26-29 | the stored record or none |
| SagaCoordinator.InMemorySagaStore.Save | apps/backend/orchestrator/src/saga/memory-store.ts:31-39 | stores the next version if the version matches, otherwise conflicts and changes nothing |
| SagaCoordinator.InMemorySagaStore.ListIncomplete | apps/backend/orchestrator/src/saga/memory-store.ts:41-45 | exactly the records still running or compensating |
| SagaCoordinator.SagaCoordinator.Run | apps/backend/orchestrator/src/saga/coordinator.ts:51-72 | all its actions are machine steps; a terminal record it returns is the stored one, and it never reports a missing saga; with nobody else about and no lease live it ends with a terminal record or a compensation that threw |
| SagaCoordinator.SagaCoordinator.Resume | apps/backend/orchestrator/src/saga/coordinator.ts:75-84 | all its actions are machine steps; a terminal record it returns is the stored one, and an existing saga is found; it ends like run when alone and unhindered |
| SagaCoordinator.SagaCoordinator.Advance | apps/backend/orchestrator/src/saga/coordinator.ts:134-184 | the precomputed list of remaining steps stays right while others interfere; alone and unhindered it goes through to the end |
| SagaCoordinator.SagaCoordinator.Compensate | apps/backend/orchestrator/src/saga/coordinator.ts:186-230 | the reversed list of steps to undo stays right while others interfere; compensations are told the recorded error; alone and unhindered it goes through to the end |
| SagaCoordinator.SagaCoordinator.DoStep | apps/backend/orchestrator/src/saga/coordinator.ts:148-180 | one step more is recorded and the loop goes on, or the call is over; alone and unhindered the call is over only at the saga's end or when a compensation threw |
| SagaCoordinator.SagaCoordinator.UndoStep | apps/backend/orchestrator/src/saga/coordinator.ts:199-226 | one step fewer is recorded and the loop goes on, or the call is over; alone and unhindered only because the compensation threw |
| SagaCoordinator.SagaCoordinator.StartCompensating | apps/backend/orchestrator/src/saga/coordinator.ts:155-169 | after an action throws, records why and hands over to compensation |
| SagaCoordinator.SagaCoordinator.ReleaseLease | apps/backend/orchestrator/src/saga/coordinator.ts:207-217 | after a compensation throws, gives back the lease and rethrows, unless the save conflicts |
| SagaCoordinator.SagaCoordinator.ClaimStep | apps/backend/orchestrator/src/saga/coordinator.ts:239-264 | a claim changes only current step, lease and version, is in the history, and is leased for the lease's length from some moment of the call; otherwise the runner is out |
| SagaCoordinator.SagaCoordinator.LeaseIsLive | apps/backend/orchestrator/src/saga/coordinator.ts:240-246 | backs off exactly for an unexpired lease on the very step wanted |
| SagaCoordinator.SagaCoordinator.SaveClaimed | apps/backend/orchestrator/src/saga/coordinator.ts:247-263 | a claim that lands is leased from the moment it was stamped; one that conflicts ends the call |
| SagaCoordinator.SagaCoordinator.Await | apps/backend/orchestrator/src/saga/coordinator.ts:152-206 | the outcome is what the action, or when compensating the compensation with the recorded error, gives for the context as claimed, at a time during the call; others act meanwhile |
| SagaCoordinator.SagaCoordinator.OwnResultsAreHandled | apps/backend/orchestrator/src/saga/coordinator.ts:152-226 | over a runner's whole history, kept through run and resume, each result it stored is what the step's action, or when compensating its compensation with the recorded error, gave for the context as claimed, between claim and save |
| SagaCoordinator.SagaCoordinator.SaveResult | apps/backend/orchestrator/src/saga/coordinator.ts:162-226 | the result is stored at the next version or the call ends with a conflict |
| SagaCoordinator.SagaCoordinator.SaveDone | apps/backend/orchestrator/src/saga/coordinator.ts:174-180 | a stored success has the action's context and one more completed step |
| SagaCoordinator.SagaCoordinator.SaveUndone | apps/backend/orchestrator/src/saga/coordinator.ts:220-226 | a stored compensation has its context and lacks exactly that step |
| SagaCoordinator.SagaCoordinator.SaveFinal | apps/backend/orchestrator/src/saga/coordinator.ts:183-229 | a terminal record that is returned is the one stored |
| EscrowInvariant.FeeIsExact | contracts/escrow/src/lib.rs:743-747 | the split formula is the exact floor of amount times rate over 10000 |
| EscrowInvariant.FeeBounds | contracts/escrow/src/lib.rs:743-747 | the fee lies between 0 and a tenth, with every intermediate inside i128 |
| EscrowExamples.DirectProductWouldOverflow | contracts/escrow/src/lib.rs:728-773 | a reachable escrow whose direct product leaves i128, released with the exact fee |
| EscrowTheorems.ReachableFeeIsSafe | contracts/escrow/src/lib.rs:293-557 | for every rate initialize and update_fee can leave in storage the fee is exact, at most a tenth, and overflow-free |
| TokenLedger.TransferConserves | contracts/escrow/src/lib.rs:681-682 | a transfer moves exactly its amount and conserves every token's supply |
| TokenLedger.CoveredTransferSucceeds | contracts/escrow/src/lib.rs:749-757 | a covered transfer of a token whose supply fits i128 cannot fail |
| EscrowInvariant.PayLegsMoves | contracts/escrow/src/lib.rs:503-528 | a row of payouts the contract can cover goes through and changes each balance by exactly its legs |
| EscrowTheorems.SettleMoves | contracts/escrow/src/lib.rs:503-528 | paying out an open escrow always succeeds and moves deposit, fee and remainder exactly |
| EscrowTheorems.InvokeKeepsInv | contracts/escrow/src/lib.rs:282-1165 | every successful entry point keeps lists, book, votes, custody and payouts sound |
| EscrowTheorems.CustodyHolds | contracts/escrow/src/lib.rs:641-922 | of every token the contract holds at least the sum of its Funded and Disputed escrows |
| EscrowTheorems.CustodyIsExact | contracts/escrow/src/lib.rs:641-922 | exactly that sum, while no party or treasury is the contract and nobody sends it tokens directly |
| EscrowTheorems.CustodyIsExactFromDeployment | contracts/escrow/src/lib.rs:641-922 | the same over any history of a contract deployed without tokens |
| EscrowTheorems.SupplyIsConserved | contracts/escrow/src/lib.rs:641-922 | no history creates or destroys tokens |
| EscrowTheorems.ClosesExactlyWhen | contracts/escrow/src/lib.rs:728-922 | release, refund and admin resolution succeed exactly for the entitled caller in the right status, and never trap |
| EscrowTheorems.DepositExactlyWhen | contracts/escrow/src/lib.rs:641-725 | exactly when a deposit is taken, and that it opens the next escrow on the given terms, moves the amount and nothing else |
| EscrowTheorems.DisputeExactlyWhen | contracts/escrow/src/lib.rs:830-859 | dispute succeeds exactly for a Funded escrow's buyer or seller, and changes nothing but that status |
| EscrowTheorems.VoteExactlyWhen | contracts/escrow/src/lib.rs:396-440 | a vote is taken exactly from a current arbiter without one on an escrow in dispute, and is added to that escrow's votes and nothing else |
| EscrowTheorems.PayoutMoves | contracts/escrow/src/lib.rs:743-922 | a payout takes the deposit from the contract, gives treasury and payee their shares, and touches no other balance |
| EscrowTheorems.PaidExactlyOnce | contracts/escrow/src/lib.rs:503-922 | a closed escrow was paid out exactly once, an open one never, and each payout totals the deposit |
| EscrowTheorems.EscrowsOnlyAdvance | contracts/escrow/src/lib.rs:728-922 | over any history only the status of an escrow changes, and Released and Refunded are final |
| EscrowTheorems.CountIsVoters | contracts/escrow/src/lib.rs:481-488 | the count is the number of distinct current arbiters on that side |
| EscrowTheorems.QuorumDecides | contracts/escrow/src/lib.rs:452-540 | to the seller exactly when enough distinct current arbiters say so and too few say otherwise; likewise to the buyer, for a conflict and for no quorum |
| EscrowTheorems.MajorityNeverConflicts | contracts/escrow/src/lib.rs:490-500 | with a threshold above half, a conflict is unreachable even if the arbiters changed in between |
| EscrowExamples.MinorityMayConflict | contracts/escrow/src/lib.rs:396-500 | with a threshold of at most half, every unvoted dispute has a history of votes after which resolving is a conflict |
| EscrowExamples.DisputeToConflict | contracts/escrow/src/lib.rs:356-385 | such a dispute is reachable |
| EscrowTheorems.VotesBelongToDisputes | contracts/escrow/src/lib.rs:396-440 | votes are of different arbiters, exist only after a dispute, and change only by one vote of a current arbiter |
| EscrowTheorems.ListsAreKept | contracts/escrow/src/lib.rs:565-622 | co-admins and whitelist hold no duplicates, the primary is no co-admin, and the whitelist is exactly the enabled tokens |
| EscrowInvariant.RemoveFirstRemoves | contracts/escrow/src/lib.rs:1108-1136 | removing the first occurrence from a list without duplicates removes the address for good |
| EscrowInvariant.NoRepeatsIsDistinct | contracts/escrow/src/lib.rs:366-378 | the arbiter check accepts exactly lists without duplicates |
| EscrowAuthority.RemovalIsFinalExactlyWhen | contracts/escrow/src/lib.rs:1108-1136 | a removed co-admin stays without authority over every history that does not name it anew, exactly when it was not the pending admin |
| EscrowAuthority.HandoverIsFinalExactlyWhen | contracts/escrow/src/lib.rs:1021-1050 | a handover makes the nominee primary and ends the old primary's authority for good, exactly when the two differ |
| EscrowAuthority.OutsideForGood | contracts/escrow/src/lib.rs:993-1136 | an address without authority and without a nomination gets none unless it is added or proposed |
| EscrowHistory.SettingSucceedsExactlyWhen | contracts/escrow/src/lib.rs:282-1161 | each of the twelve calls on the settings succeeds exactly under its conditions on caller, arguments and storage, in no order |
| EscrowHistory.StorageIsAsLastSet | contracts/escrow/src/lib.rs:282-1161 | over every history rate, treasury, limits, quorum, pause, each token's acceptance, primary admin, nominee, each co-admin and each escrow's status are what the last successful call on them gave |
| EscrowHistory.DisputedByAParty | contracts/escrow/src/lib.rs:830-859 | an escrow in dispute was put there by a successful call of its buyer or its seller |
| EscrowHistory.AdministersExactlyWhen | contracts/escrow/src/lib.rs:1298-1313 | an address has authority exactly if it was made primary last, or was added as co-admin and neither removed nor made primary since |
| EscrowHistory.ErrorsAreSo | contracts/escrow/src/lib.rs:282-1161 | every error any call gives names something that is so of storage and call; who can sign meets a trap only on a deposit before limits are set, not covered, or out of ids or ledgers |
| EscrowExamples.RemovedNomineeTakesOver | contracts/escrow/src/lib.rs:1021-1136 | a reachable storage in which a removed co-admin makes itself primary and leaves the old one with nothing |
| EscrowTheorems.RefundViewIsExact | contracts/escrow/src/lib.rs:1198-1268 | the refund view says yes exactly when refund would succeed |
| EscrowTheorems.ReleaseViewIsStricter | contracts/escrow/src/lib.rs:933-956 | for an entitled caller release succeeds exactly when the view says yes or objects only to the timeout |
| EscrowExamples.ReleaseAfterTimeout | contracts/escrow/src/lib.rs:1271-1296 | a reachable escrow past its timeout that the view refuses and release pays out |
| EscrowContract.EscrowContract.Initialize | contracts/escrow/src/lib.rs:282-312 | new storage and result are exactly the specified ones |
| EscrowAuthority.NewEscrowsKeepLimits | contracts/escrow/src/lib.rs:324-345 | until the limits are set anew, every escrow that is opened is within the limits of now |
| EscrowContract.EscrowContract.SetQuorumConfig | contracts/escrow/src/lib.rs:356-385 | the loop for duplicates accepts what the specification accepts |
| EscrowContract.EscrowContract.UpdateFee | contracts/escrow/src/lib.rs:543-557 | new storage and result are exactly the specified ones |
| EscrowContract.EscrowContract.AddToken | contracts/escrow/src/lib.rs:565-593 | new storage and result are exactly the specified ones |
| EscrowContract.EscrowContract.RemoveToken | contracts/escrow/src/lib.rs:596-622 | index search and removal give the list the specification gives |
| EscrowAuthority.RemovedTokenTakesNothing | contracts/escrow/src/lib.rs:596-665 | a token taken off the list gets no new escrow over any history until it is added again |
| EscrowAuthority.PausedOpensNothing | contracts/escrow/src/lib.rs:1139-1161 | until creation is unpaused no escrow is opened, over any history |
| EscrowAuthority.ProposalStands | contracts/escrow/src/lib.rs:993-1050 | a proposal can be taken up at any time until it is replaced, cancelled or taken up |
| EscrowAuthority.OutsidersChangeNothing | contracts/escrow/src/lib.rs:282-625 | once initialized, no history of calls by others than administrators and nominee changes any setting |
| EscrowContract.EscrowContract.AcceptAdmin | contracts/escrow/src/lib.rs:1021-1050 | handover, including the new admin leaving the co-admin list, is the specified one |
| EscrowAuthority.CancelledStaysCancelled | contracts/escrow/src/lib.rs:1053-1072 | after a cancelled transfer, until somebody is proposed anew, the primary admin stays and nobody can accept, the old nominee included |
| EscrowContract.EscrowContract.AddCoAdmin | contracts/escrow/src/lib.rs:1075-1105 | new storage and result are exactly the specified ones |
| EscrowContract.EscrowContract.RemoveCoAdmin | contracts/escrow/src/lib.rs:1108-1136 | index search and removal give the list the specification gives |
| EscrowContract.EscrowContract.Deposit | contracts/escrow/src/lib.rs:641-725 | the buyer's amount moves in, the next id is used, and every error leaves storage alone |
| EscrowContract.EscrowContract.PaySeller | contracts/escrow/src/lib.rs:503-518 | fee and remainder are paid in order and the escrow closes, all or nothing |
| EscrowContract.EscrowContract.PayBuyer | contracts/escrow/src/lib.rs:519-526 | the whole deposit goes back and the escrow closes, all or nothing |
| EscrowContract.EscrowContract.Release | contracts/escrow/src/lib.rs:728-773 | checks in order, then exactly the specified payout |
| EscrowContract.EscrowContract.Refund | contracts/escrow/src/lib.rs:777-827 | checks in order, then exactly the specified payout |
| EscrowContract.EscrowContract.Dispute | contracts/escrow/src/lib.rs:830-859 | a party turns a Funded escrow into a Disputed one, or nothing changes |
| EscrowContract.EscrowContract.ResolveDispute | contracts/escrow/src/lib.rs:862-930 | an admin's decision pays out exactly as specified |
| EscrowContract.EscrowContract.VoteDispute | contracts/escrow/src/lib.rs:396-440 | the scan for an earlier vote refuses exactly second votes |
| EscrowContract.EscrowContract.ResolveDisputeQuorum | contracts/escrow/src/lib.rs:452-540 | the counted votes decide exactly as specified |
| EscrowContract.EscrowContract.CountSide | contracts/escrow/src/lib.rs:481-488 | the counting loop gives the specified count |
| PermissionsTheorems.AllowanceAccounting | contracts/permissions/src/lib.rs:240-585 | spent is the sum of successful spends since the last grant and never exceeds the limit, so the clamp is never taken |
| PermissionsTheorems.SpentIsWithinLimit | contracts/permissions/src/lib.rs:338-427 | without negative spends, spent lies between 0 and the limit |
| PermissionsTheorems.SpendTakesItsAmount | contracts/permissions/src/lib.rs:387-427 | a spend takes exactly its amount off the allowance, which therefore does not grow exactly when the amount is not negative |
| PermissionsTheorems.NegativeSpendRaisesAllowance | contracts/permissions/src/lib.rs:338-427 | a history on which a spend of minus seven leaves seventeen of ten |
| PermissionsTheorems.StoppedExactlyUntilRevived | contracts/permissions/src/lib.rs:312-642 | a paused or revoked permission stays stopped through any history exactly when no grant or resume of it succeeds there, and then nothing is spent |
| PermissionsTheorems.ResumeAcceptsRevoked | contracts/permissions/src/lib.rs:616-642 | resume revives exactly the existing permissions that are not active, revoked ones included, on their old terms |
| PermissionsTheorems.RevokedSpendsAgain | contracts/permissions/src/lib.rs:312-642 | a history on which a revoked permission is resumed and spent under |
| PermissionsTheorems.PendingWasQueued | contracts/permissions/src/lib.rs:530-550 | a waiting decrement was queued by a successful call one time lock before it is due |
| PermissionsTheorems.LimitMovesOnlyAfterTimeLock | contracts/permissions/src/lib.rs:530-585 | without a re-grant a limit changes only by a decrement successfully queued at least 86400 s earlier, by exactly its amount, and rises exactly when that is negative |
| PermissionsTheorems.LimitAccounting | contracts/permissions/src/lib.rs:240-585 | the limit is the last granted total less the decrements executed since |
| PermissionsTheorems.DecrementsAreConserved | contracts/permissions/src/lib.rs:312-585 | of each amount, as many decrements were queued as were applied, dropped by a revocation, or still wait |
| PermissionsTheorems.NegativeDecrementRaisesLimit | contracts/permissions/src/lib.rs:530-585 | a history on which a decrement of minus ninety raises a limit from ten to a hundred |
| PermissionsTheorems.PreviewIsExact | contracts/permissions/src/lib.rs:445-491 | the dry run says yes exactly when the spend goes through, up to an overflow of the total, and names what would remain, or what remains now if it says no |
| PermissionsHistory.SpendExactlyWhen | contracts/permissions/src/lib.rs:338-427 | after any history a spend goes through exactly if the record is active, unexpired and welcomes the merchant and the amount is within the per-transaction limit and the allowance; a negative amount must also keep the sums in i128 |
| PermissionsHistory.SucceedsExactlyWhen | contracts/permissions/src/lib.rs:240-758 | after any history every other call succeeds exactly under its conditions, in no order |
| PermissionsHistory.RecordIsAsLastSet | contracts/permissions/src/lib.rs:240-758 | after any history merchants, per-transaction limit and expiry are those of the last successful grant, the status is what the last grant, revocation, pause or resume made it, and administrator and switches are as last set |
| PermissionsHistory.OthersAreLeftAlone | contracts/permissions/src/lib.rs:240-758 | a call on one pair leaves all other pairs and the switches alone, and a call on the switches all pairs |
| PermissionsHistory.ErrorsAreSo | contracts/permissions/src/lib.rs:240-758 | after any history every error a call gives names something that is so of storage and call |
| PermissionsTheorems.InvokeOn | contracts/permissions/src/lib.rs:240-643 | what each call does to one pair's spent total, and that spent stays within the limit |
| PermissionsContract.PermissionsContract.Grant | contracts/permissions/src/lib.rs:240-310 | new storage and result are exactly the specified ones |
| PermissionsContract.PermissionsContract.Revoke | contracts/permissions/src/lib.rs:312-335 | the record is revoked and its waiting decrement dropped |
| PermissionsContract.PermissionsContract.CanSpend | contracts/permissions/src/lib.rs:338-385 | the merchant loop and the ordered checks refuse for the specified reason |
| PermissionsContract.PermissionsContract.ExecuteSpend | contracts/permissions/src/lib.rs:387-427 | spent grows by the amount or nothing changes |
| PermissionsContract.PermissionsContract.DecreaseAllowance | contracts/permissions/src/lib.rs:530-550 | queues one decrement per pair, due a day later |
| PermissionsContract.PermissionsContract.ExecuteDecreaseAllowance | contracts/permissions/src/lib.rs:553-585 | lowers the limit once due and never below what is spent |
| PermissionsContract.PermissionsContract.Pause | contracts/permissions/src/lib.rs:587-613 | only an active permission is paused |
| PermissionsContract.PermissionsContract.Resume | contracts/permissions/src/lib.rs:616-642 | any permission that is not active becomes active |
| PermissionsTheorems.AdminIsForever | contracts/permissions/src/lib.rs:652-658 | the first administrator is the administrator of every later history |
| PermissionsTheorems.PausedGrantsNothing | contracts/permissions/src/lib.rs:661-718 | between a pause and an unpause by the one administrator no grant succeeds, over any history |
| PermissionsTheorems.SelfDelegationNeedsAdmin | contracts/permissions/src/lib.rs:740-758 | nobody holds a permission from itself unless the administrator allowed that before |
| Calendar.CivilOf | apps/backend/wallet/src/spendLimits.ts:22-24 | a date there is, with that day's number |
| Calendar.DateIsOfOneDay | apps/backend/wallet/src/spendLimits.ts:22-24 | every date is the date of exactly one day |
| Calendar.WeekCountsThursdays | apps/backend/wallet/src/spendLimits.ts:28-36 | week dates of the standard: numbers run from 1 to 53 and count the year's Thursdays |
| Calendar.IsoWeekIdentifiesWeek | apps/backend/wallet/src/spendLimits.ts:28-36 | two days share a week date of the standard exactly when they share a Monday-to-Sunday week |
| WeekKeys.WeekIsIsoExactlyWhen | apps/backend/wallet/src/spendLimits.ts:28-36 | the code's week date is the standard's exactly when neither the date's year nor its Thursday's lies in 0 to 99 |
| WeekKeys.WeekNumberInRangeExactlyWhen | apps/backend/wallet/src/spendLimits.ts:32-34 | the code's number is in 1 to 53 exactly when the year under which the Thursday is counted is not shifted |
| WeekKeys.CenturiesCollide | apps/backend/wallet/src/spendLimits.ts:29 | every day of the years 0 to 99 shares its week date with a day of another week, 1900 years on |
| WeekKeys.OneWeekSplits | apps/backend/wallet/src/spendLimits.ts:29 | Monday 1 and Sunday 7 January of the year 24 get two week dates |
| WeekKeys.WeekNumberLeavesRange | apps/backend/wallet/src/spendLimits.ts:32-33 | 1 January of the year 100 gets a negative number |
| WeekKeys.WeekDateIdentifiesWeek | apps/backend/wallet/src/spendLimits.ts:28-36 | on days away from the years 0 to 99 the code's week dates identify Monday-to-Sunday weeks |
| WeekKeys.FourthOfJanuaryExactlyWhen | apps/backend/wallet/src/spendLimits.ts:28-36 | 4 January is in week 1 of its year exactly when that is not one of the years 0 to 99 |
| Calendar.SameMonday | apps/backend/wallet/src/spendLimits.ts:30-31 | days share a Monday exactly when both lie in its seven days |
| SpendSpec.DailyKeyIdentifiesDay | apps/backend/wallet/src/spendLimits.ts:21-26 | two days share a daily key exactly when they are the same day |
| SpendSpec.WeeklyKeyIdentifiesWeek | apps/backend/wallet/src/spendLimits.ts:28-36 | two days away from the years 0 to 99 share a weekly key exactly when they are in the same week |
| SpendSpec.WeeklyKeysCollide | apps/backend/wallet/src/spendLimits.ts:28-36 | every day of the years 0 to 99 shares its weekly key with a day of another week |
| SpendSpec.WeeklyKeySplits | apps/backend/wallet/src/spendLimits.ts:28-36 | and a week of those years has two keys |
| SpendSpec.KeysTellApart | apps/backend/wallet/src/spendLimits.ts:21-40 | the three kinds of key tell days, kinds and, from the year 101 on, weeks apart and nothing more |
| SpendTheorems.ScriptRaisesDaily | apps/backend/wallet/src/spendLimits.ts:171-182 | the script adds the amount to a daily counter that is alive to its period's end, and keeps it so |
| SpendTheorems.ScriptRaisesWeekly | apps/backend/wallet/src/spendLimits.ts:171-182 | the same for the weekly counter |
| SpendTheorems.ScriptElsewhere | apps/backend/wallet/src/spendLimits.ts:171-182 | the script leaves every other counter alone |
| SpendTheorems.RecordAgrees | apps/backend/wallet/src/spendLimits.ts:158-195 | recording keeps the current counters equal to the log, however long after its keys were chosen the script runs |
| SpendTheorems.CountersAgree | apps/backend/wallet/src/spendLimits.ts:94-103 | at any time the current keys read exactly what was recorded under the keys of this UTC day, this ISO week and all time |
| SpendTheorems.AllowedExactlyWhen | apps/backend/wallet/src/spendLimits.ts:46-152 | after any run an amount passes today's check exactly if it is within the per-transaction limit and fits under every other limit with what is recorded in that period; a refusal names the first limit it does not fit |
| SpendTheorems.JoinsExactlyWhen | apps/backend/wallet/src/queue/txQueue.ts:421-473 | a request whose check is read at once joins the queue for its first attempt exactly then, and otherwise changes nothing |
| SpendTheorems.OvershootIsBounded | apps/backend/wallet/src/spendLimits.ts:80-151 | recorded plus outstanding spend exceeds a limit by at most (m-1) times the cap, m being the most checks and requests ever under way at once, whatever is held up and across day and week turns; not at all for m = 1 |
| SpendExamples.OvershootIsReached | apps/backend/wallet/src/spendLimits.ts:80-151 | for every m and every cap up to the limit, a run on which that bound is met |
| Attempts.RecordedExactlyWhen | apps/backend/wallet/src/queue/txQueue.ts:252-325 | an attempt is recorded only if it lands, and one that lands is recorded exactly when sending returned and a poll within the twelve said so before an exception |
| Attempts.SuccessReportedExactlyWhen | apps/backend/wallet/src/queue/txQueue.ts:252-325 | an attempt is reported as a success exactly if it was sent and either its landing was seen or no poll was answered and the lookup found it |
| Attempts.RevertedReportedExactlyWhen | apps/backend/wallet/src/queue/txQueue.ts:315-319 | a reverted transaction is reported as a success exactly if it was sent, no poll was answered and the lookup found it |
| Attempts.RevertedIsReported | apps/backend/wallet/src/queue/txQueue.ts:315-319 | such an attempt exists |
| Attempts.ThrowsExactlyWhen | apps/backend/wallet/src/queue/txQueue.ts:252-325 | an attempt ends in an exception exactly when sending failed, the first answered poll reported a failure or threw, or nobody knew of the transaction, and carries that fault's flag |
| SpendRequests.AttemptDecides | apps/backend/wallet/src/queue/txQueue.ts:279-325 | after any run an attempt puts its request up again exactly if it failed for a reason worth another and was not the fifth, up to be recorded exactly if a landing was seen and there is an amount, and otherwise off the queue; other requests stay |
| SpendRequests.RecordedIsLandedExactlyWhen | apps/backend/wallet/src/queue/txQueue.ts:196-325 | over every run with retries, the lifetime counter, what is about to be written and what landed unseen are what landed; without the last exactly when no attempt landed unseen |
| SpendRequests.RecordedAtMostOnce | apps/backend/wallet/src/queue/txQueue.ts:279-325 | across all retries a request is tried and lands at most five times, is recorded at most once, and lands once more for each time it landed unseen |
| SpendExamples.OneRequestPaysTwice | apps/backend/wallet/src/queue/txQueue.ts:311-324 | a run on which one request lands twice and is recorded once |
| SpendExamples.OneRequestPaysFiveTimes | apps/backend/wallet/src/queue/txQueue.ts:311-324 | a run on which one request lands five times and is never recorded |
| SpendExamples.SuccessWithoutRecord | apps/backend/wallet/src/queue/txQueue.ts:315-319 | a run that reports success for a request that landed and is never recorded |
| TxQueue.SpendCounters.CheckSpendLimit | apps/backend/wallet/src/spendLimits.ts:46-152 | which limit refuses, from the counters of the chosen day as they are when read |
| TxQueue.SpendCounters.RecordSpend | apps/backend/wallet/src/spendLimits.ts:158-195 | the script's effect on the counters |
| TxQueue.TxQueue.GetNextSequenceNumber | apps/backend/wallet/src/queue/txQueue.ts:143-194 | one below the number to use, from the live cache or, on a retry, from the ledger alone; the cache then holds the number for 60 s |
| TxQueue.TxQueue.ExecuteTxJob | apps/backend/wallet/src/queue/txQueue.ts:196-325 | under any interference one transaction is built for the request's own attempt number, the attempt ends as the network's answers say, is recorded exactly when they say success in time, and leaves the queue unless it is to be retried; every action is a step of the machines |
| TxQueue.TxQueue.MakeAttempt | apps/backend/wallet/src/queue/txQueue.ts:196-325 | exactly one transaction is built, for the job's own attempt, and the attempt ends as the network's answers say |
| TxQueue.TxQueue.Send | apps/backend/wallet/src/queue/txQueue.ts:241-263 | any number but the ledger's next is refused and empties the cache |
| TxQueue.TxQueue.Poll | apps/backend/wallet/src/queue/txQueue.ts:265-320 | what was answered decides how the attempt ends; a lookup decides when nothing was; a failure over the sequence number empties the cache |
| TxQueue.TxQueue.WaitForAnswer | apps/backend/wallet/src/queue/txQueue.ts:269-313 | at most twelve polls, with others acting before each |
| TxQueue.TxQueue.Close | apps/backend/wallet/src/queue/txQueue.ts:279-324 | a seen success is put up to be recorded under the keys of that day; otherwise the request leaves the queue or gets its next attempt |
| TxQueue.TxQueue.Write | apps/backend/wallet/src/queue/txQueue.ts:281-286 | the script runs once, under the keys chosen before, and the request leaves the queue |
| TxQueue.TxQueue.AddTransactionToQueue | apps/backend/wallet/src/queue/txQueue.ts:421-473 | whatever happens between choosing keys and reading counters, the answer is that of the read, and exactly a request that passes joins |
| TxQueue.TxQueue.Reaches | apps/backend/wallet/src/queue/txQueue.ts:402-419 | whatever the worker does, its state is one that both machines reach |
| SequenceAllocator.StepKeepsInv | apps/backend/wallet/src/queue/txQueue.ts:143-194 | every step keeps cache, number in hand and ledger in order |
| SequenceAllocator.BuildsLieAboveLedger | apps/backend/wallet/src/queue/txQueue.ts:169-180 | every built number exceeds the ledger's, and is its next one exactly when no hole lies between |
| SequenceAllocator.NumbersIncreaseUnderLiveCache | apps/backend/wallet/src/queue/txQueue.ts:166-183 | under a live cache numbers strictly increase |
| SequenceAllocator.LiveCacheShowsLastNumber | apps/backend/wallet/src/queue/txQueue.ts:156-183 | a live cache shows the last number and lasts a minute |
| SequenceAllocator.AttemptGetsInExactlyWhen | apps/backend/wallet/src/queue/txQueue.ts:156-263 | at whatever pace, a second or later attempt gets in, and a first one exactly when no hole lies between ledger and cache |
| SequenceAllocator.TwoAttemptsSuffice | apps/backend/wallet/src/queue/txQueue.ts:156-263 | whatever hole earlier jobs left and however long attempts and backoff take, the first attempt or the next gets in |
| RefreshTokens.StepKeepsInv | apps/backend/gateway/src/auth/authService.ts:90-211 | every step of login, refresh, logout and crash keeps one holder per family and one successor per token |
| RefreshTokens.AtMostOneHolder | apps/backend/gateway/src/auth/authService.ts:195-211 | live tokens of a family and refreshes about to create one are at most one together |
| RefreshTokens.AtMostOneSuccessor | apps/backend/gateway/src/auth/authService.ts:195-211 | no token is replaced twice, and a replaced one is revoked |
| RefreshTokens.RevocationIsFinalExactlyWhenQuiet | apps/backend/gateway/src/auth/authService.ts:167-172 | a revoked family never has a live token again exactly when no refresh of it was in flight |
| RefreshTokens.ReuseKillsFamilyExactlyWhenQuiet | apps/backend/gateway/src/auth/authService.ts:177-207 | a row fetched as revoked and found unexpired leads to that revocation, at whatever later moment it runs |
| RefreshTokens.LogoutIsFinalExactlyWhenQuiet | apps/backend/gateway/src/auth/authService.ts:274-285 | the same for logout |
| RefreshTokens.LogoutMissesRefresh | apps/backend/gateway/src/auth/authService.ts:195-211 | a run on which a family has a live token after its logout |
| RefreshTokens.DeadForever | apps/backend/gateway/src/auth/authService.ts:167-211 | a family with nothing live and nothing in flight stays dead |
| RefreshTokens.LiveExactlyWhileSpared | apps/backend/gateway/src/auth/authService.ts:167-211 | over every run a live token stays live exactly as long as it is not used up by a refresh of its own and its own family is not revoked |
| AuthService.RefreshTokenTable.RevokeIfLive | apps/backend/gateway/src/auth/authService.ts:198-201 | revokes one live token and reports whether it did |
| AuthService.RefreshTokenTable.RevokeFamily | apps/backend/gateway/src/auth/authService.ts:168-171 | every row of the family is revoked and no other touched |
| AuthService.AuthService.GenerateRefreshToken | apps/backend/gateway/src/auth/authService.ts:90-114 | the new token is live, in the right family, expires seven days after some moment of the call and is its family's only live one |
| AuthService.AuthService.RevokeTokenFamily | apps/backend/gateway/src/auth/authService.ts:167-172 | afterwards no token of the family is live, for good if no refresh is in flight |
| AuthService.AuthService.RefreshAccessToken | apps/backend/gateway/src/auth/authService.ts:174-212 | under any interference a token comes out only against one this call revoked and is its family's only live one; undisturbed, each of the four answers comes exactly for an unknown, expired, revoked or live row |
| AuthService.AuthService.CompareSecret | apps/backend/gateway/src/auth/authService.ts:182-194 | after the wait for the secret the row as it was read is judged, by the clock of then |
| AuthService.AuthService.Rotate | apps/backend/gateway/src/auth/authService.ts:196-211 | the token is replaced, or somebody else revoked it and the family is revoked |
| AuthService.AuthService.RevokeUsed | apps/backend/gateway/src/auth/authService.ts:197-207 | the conditional update lets at most one refresh of a token go on |
| AuthService.AuthService.LogoutUser | apps/backend/gateway/src/auth/authService.ts:274-285 | without a valid token nothing; otherwise the family has no live token |
| RateLimiter.KeyIdentifiesWindow | apps/backend/gateway/src/rateLimit/rateLimiter.ts:5-12 | keys of different windows differ |
| RateLimiter.RateLimiter.CheckRateLimit | apps/backend/gateway/src/rateLimit/rateLimiter.ts:14-57 | under any interference the request lands once, for the window it started in, is answered by the count it got then, and sets the expiry if that was the first; the reset is the least whole seconds after which the current window is over |
| RateLimiter.RateLimiter.Increment | apps/backend/gateway/src/rateLimit/rateLimiter.ts:25-35 | the INCR lands some time after the key was chosen, and its count is the answer's |
| RateLimiter.RateLimiter.SetTimeToLive | apps/backend/gateway/src/rateLimit/rateLimiter.ts:37-41 | a counter that is still alive lives on for the window's length, rounded up to whole seconds, from then |
| RateLimiter.CountKeepsCounter | apps/backend/gateway/src/rateLimit/rateLimiter.ts:27-35 | a landing request keeps every window's counter, admissions and late arrivals in step |
| RateLimiter.StepKeepsCounters | apps/backend/gateway/src/rateLimit/rateLimiter.ts:5-41 | so does every step of every request, even if the expiry is never set |
| RateLimiter.NeverResetInsideWindow | apps/backend/gateway/src/rateLimit/rateLimiter.ts:37-41 | while a window lasts its counter reads all its requests that have landed |
| RateLimiter.WindowAdmitsExactlyWhen | apps/backend/gateway/src/rateLimit/rateLimiter.ts:23-44 | a window admits exactly its requests up to the maximum if and only if none landed after the key expired or all fit, and more than the maximum otherwise |
| RateLimiter.LateRequestIsAdmitted | apps/backend/gateway/src/rateLimit/rateLimiter.ts:23-44 | a run on which a window admits one more than its maximum |
| RateLimiter.AtMostTwiceTheMaximum | apps/backend/gateway/src/rateLimit/rateLimiter.ts:5-48 | any stretch of one window's length admits at most twice the maximum plus the requests that were in flight across their window's end |
| RateLimiter.BoundIsMet | apps/backend/gateway/src/rateLimit/rateLimiter.ts:5-48 | for every k, a run with k such requests that admits exactly twice the maximum plus k |
| RateLimiter.TwiceIsReached | apps/backend/gateway/src/rateLimit/rateLimiter.ts:5-48 | for every maximum, a run without such requests that admits exactly twice the maximum |
| Decimal.PrintParse | packages/utils/src/currency.ts:8-15 | parsing a printed natural gives it back |
| Decimal.ParsePrint | packages/utils/src/currency.ts:8-15 | a digit string without needless zeros is the print of its value |
| Currency.ParsersAgree | apps/backend/wallet/src/routes.ts:51-59 | on every amount xlmToStroops is the canonical decimal of displayToStroops |
| Currency.RoundTrip | packages/utils/src/currency.ts:5-16 | printing with d decimals and parsing rounds down to a multiple of 10^(7-d), exact from 7 on |
| Currency.Canonical | packages/utils/src/currency.ts:5-16 | parsing and printing gives the amount's canonical form with seven decimals |
| Currency.StripZerosIsPrint | apps/backend/wallet/src/routes.ts:57-58 | stripping leading zeros from digits gives the canonical decimal of their value |
| Currency.SplitAtDot | packages/utils/src/currency.ts:13 | splitting whole.fraction at the dot gives the two parts |

## Left out

- SagaTheorems.AlwaysRecoverable: says a run to the end exists and how long it must wait, not that a scheduler takes it; retry timers are not modelled.
- SagaCoordinator.SagaCoordinator.Run: one object is one runner's view of one saga id, so the id is fixed by the constructor; a crash of a runner is an event of the machine only.
- SpendTheorems.OvershootIsBounded: for one fixed configuration with a non-negative cap; changing limits between check and record is not modelled.
- SpendRequests.RecordedIsLandedExactlyWhen: a record that the store refuses, which the code logs and ignores, is not modelled.
- TxQueue.TxQueue.ExecuteTxJob: one account, user and wallet; faults before a number is taken (vault, ledger lookup) and a crash of the worker are not modelled. A transaction with a wrong number never lands.
- AuthService.AuthService.RefreshAccessToken: the presented secret and signature are taken as valid; ids are drawn when the row is created, so they are unused then.
- RateLimiter.RateLimiter.CheckRateLimit: the two last readings of the clock, with no wait between them, are one; Redis errors, which the code counts as a first request, are not modelled.
- Sagas: all runners share one step list, so the branches for an unknown step cannot be taken; creation and update stamps and logging are dropped. The Postgres store has the same compare-and-swap meaning as the memory store.
- Sagas: an action is a function of the context and the time; one that changes the context it was given in place and then throws, which would be saved with the error, is not modelled.
- Sagas: recoverAll is resuming each listed saga in turn; its loop and error log are not modelled.
- Escrow: signatures are modelled as "nobody authorises as the contract itself"; the token is a plain ledger without mint, clawback or call-back; events, receipts, version and plain getters are omitted.
- Permissions: owner and admin signatures are assumed; merchant metadata, pause metadata (which is never written), receipts and events are omitted.
- SpendTheorems.CountersAgree: for clocks from the year 101 on; earlier ones meet the shifted years of the weekly key.
- Spend limits: the order in which a configuration is looked up, the paths that let a request pass when a store fails, counters of other users, Lua's rounding above 2^53 and the 64-bit bound of INCRBY. The three keys of one check or record are taken from one reading of the clock.
- Transaction queue: building, simulating, signing and sending are parameters of one attempt, as is whether a fault is classified as worth a retry.
- Escrow and permissions setters without a row (set_limits, set_create_paused, propose_admin, cancel_admin_transfer, set_admin, pause_grants, unpause_grants, set_allow_self_delegation) are methods of the two contract classes; EscrowHistory and PermissionsHistory say exactly when they succeed and what they leave.
- Refresh tokens: JWT signing and checking, bcrypt, access tokens and user rows.
- Rate limiter: the configuration table and middleware.
- Stroops: BigInt on strings that are not digits, and negative stroop amounts.
- HTTP servers, SDK, user interface, reconciliation, purchase state tables, validation and audit stores: input and output or small fixed tables.
