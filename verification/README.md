# PigFi backend: protocols, ledgers and arithmetic

A verification model of the parts of the PigFi backend (NestJS, Prisma, Stellar) in which several
parties write the same rows, money moves, or a number must be exactly right. Each module follows one
component of the backend and proves what that component is relied upon for.

## How the model is built

**Shared rows.** The database is a set of maps. Every conditional `updateMany` is one atomic
compare-and-set and every `$transaction` is one atomic step. For each protocol a module lists its steps
as an `Event`, says when a step is possible (`Enabled`) and what it does (`Apply`), and proves by
induction over runs what holds in every state that any interleaving of any number of instances, jobs,
users and crashes can reach: `IncomingPayments`, `Gifts`, `PushOutbox`, `DeletionSaga`, `Deposits`,
`VaultPolicies`, and the worker pool of `VaultReads`.

**The code on top of them.** The services and jobs are classes whose methods follow the source call by
call: `IncomingPaymentsJob`, `GiftServices`, `PushDispatch`, `DeletionServices`, `DepositServices`,
`VaultEligibility`. They share a `Database` object. Each of their own writes is one step of the machine
(`Perform`), and before a call the method `Others` stands for any steps of everybody else. Its body does
nothing, but callers only know its contract: it keeps to the machine and takes none of the steps that are
the caller's own. A query whose answer a later write relies on is a step too, and what it saw is kept as
history. So a method's contract holds against every interleaving, and `Valid` says that the whole history,
recorded in `log`, is a run of the machine. External services and failing calls are nondeterministic; `failures`
counts the calls that failed, so that a contract can say "only if a call failed".

**Sequential and pure parts.** `WalletRotation` is the round-robin, `AccountClosure` the closing program
on a small Stellar ledger with `WalletEligibility` as its counterpart, `PushBooking` the answers of the
push service, `Versions` the version comparison, `ExperienceCurve`, `ExperienceLedger` and `Learning`
the XP side, `PayinQuote` and `Amounts` the arithmetic. Amounts are exact (scaled integers or
rationals). `Common` holds options, results, finite sums and a few facts about fractions.

## What the code does that its comments do not say

- A gift is recorded as REFUNDED, and logged as refunded to the sender, also when the recipient was paid
  and only the answer was lost (`Gifts.LostAnswerEndsInRefunded`); `Gifts.RefundIsTruthfulExactlyWhen` says
  when an expired gift is safe from that.
- If the write that gives a claim's lock back fails, the gift stays CLAIMING for good: no job looks at that
  status (`GiftServices.GiftsService.ClaimGift`, `Gifts.AbandonedLockStays`, `Gifts.LockCanBeLeft`).
- A wallet whose balances cannot be read is judged as empty (`WalletEligibility.NoBlockersIsReliableExactlyWhen`),
  and pool shares are reported as swept although no operation moves them (`WalletEligibility.ReportedTotal`).
- MAX_ATTEMPTS bounds the claims of a push row only with one dispatcher; with N it is MAX_ATTEMPTS + N - 1
  (`PushOutbox.ClaimsAreBounded`, `PushOutbox.BoundIsReached`).
- `isTerminalState` tells the client to stop asking, but a failed or expired deposit is final only if no submit
  of it is under way (`Deposits.TerminalIsFinalExactlyWhen`).
- COMPLETED is not final for a deletion request: a second confirm call of the same request can mark it scrubbed again
  (`DeletionSaga.SecondConfirmReopens`, `DeletionSaga.CompletedIsFinalExactlyWhen`).
- A deletion request opened between the clearing of the others and the final write keeps the provider id
  beside a completed request (`DeletionSaga.LateRequestKeepsTheProvider`, `DeletionSaga.CompletedMeansGone`).
- An onramp order in progress silences a stranger's payment whenever it was created after the 72 h mark, also when it
  was created after the payment: the query has no upper bound (`IncomingPayments.LaterOrderSilencesPayment`,
  `IncomingPayments.OrderInProgressSilencesExactlyWhen`).
- `compareVersions` is no order on versions with leading zeros, which `parseVersion` accepts
  (`Versions.LeadingZerosBreakTheOrder`, `Versions.SignChangesExactlyWhen`).
- Publishing a policy does not unlock a Lite user who has no XP account, even if the policy asks for
  nothing, although the evaluation finds that user eligible (`VaultPolicies.PublishUnlocksTheEligible`,
  `VaultPolicies.NoAccountIsPassedOver`).

## Model

| member | source | states |
|---|---|---|
| `WalletRotation.EveryBlockVisitsEachWalletOnce` | src/jobs/incoming-payments.job.ts:138-162 | With N fixed active wallets and pages of t >= 1, every block of N/t + 1 runs that begins at the start visits each wallet exactly once and ends at the start again, also when t divides N. |
| `WalletRotation.FullPages` | src/jobs/incoming-payments.job.ts:138-162 | As long as pages are full, the wallets visited so far are the smallest ids, in order and without repetition. |
| `IncomingPayments.StepKeepsInv` | src/jobs/incoming-payments.job.ts:164-251 | Every step of any instance, user, partner or deletion keeps the invariant: cursors cover what lies before them, keys are unique, a payment's row is for an account that received it, every dismissal has a reason that holds, and two wallets of one address follow one another. |
| `IncomingPayments.EveryRunKeepsInv` | src/jobs/incoming-payments.job.ts:164-251 | The invariant holds in every state of every interleaving of any number of instances and everybody else. |
| `IncomingPayments.RunsOnlyMoveForward` | src/jobs/incoming-payments.job.ts:206-214 | Over any run stored cursors never move back, dismissals are never taken away, and rows only with the account they belong to. |
| `IncomingPayments.NoLoss` | src/jobs/incoming-payments.job.ts:164-251 | For every account that is still there: each incoming USDC payment of at least 0.01 between a wallet's baseline and its cursor has its outbox row for the owner, or was ignored because its sender is one of the system's or another wallet of the owner, or because its sender was looked up as no active wallet and an onramp order of the owner, as it was, explained it (in progress and created at most 72 h before, or completed within 2 h on either side). |
| `IncomingPayments.UnexplainedIsTold` | src/jobs/incoming-payments.job.ts:221-251 | A dated payment of USDC of at least 0.01 from outside (no system sender, no wallet of the user) is notified to the owner once the cursor has passed it, if the user never had an order in progress created after the 72 h mark nor one completed within 2 h of it, in the partners' own statuses. |
| `IncomingPayments.OnrampSilencesExactlyWhen` | src/jobs/incoming-payments.job.ts:287-340 | Over any run and with any orders: a dated payment of a stranger can be dismissed as an onramp delivery, orders staying as they are, if and only if the user has an order in progress (the partners' statuses, named) created at most 259,200,000 ms before the payment or later, or one COMPLETED within 7,200,000 ms before or after it. |
| `IncomingPayments.OrderInProgressSilencesExactlyWhen` | src/jobs/incoming-payments.job.ts:287-340 | Over any run: if a user has only had onramps in progress (the seven BlindPay and Etherfuse statuses, named), a dated payment of a stranger can be dismissed as an onramp delivery, orders staying as they are, if and only if the user has an order created at most 72 h before the payment or at any time after it. |
| `IncomingPayments.CompletedOrderSilencesExactlyWhen` | src/jobs/incoming-payments.job.ts:287-340 | Over any run: if a user has no onramp in progress, a dated payment of a stranger can be dismissed as an onramp delivery, orders staying as they are, if and only if the user has a COMPLETED order (with Etherfuse an ONRAMP) whose completion lies within 7,200,000 ms of the payment, before or after. |
| `IncomingPayments.RowMeansPayment` | src/jobs/incoming-payments.job.ts:221-251 | Every row's key is that of a USDC payment of at least 0.01 to the account, and its title, amount and recipient are those of the payment. |
| `IncomingPayments.LaterOrderSilencesPayment` | src/jobs/incoming-payments.job.ts:287-340 | For any time of the payment and any later creation of an order: a run in which that order silences the payment and the cursor passes it without a row. |
| `IncomingPayments.RowIsForOwner` | src/notifications/notifications.service.ts:94-103 | A row that exists for a payment beyond an open wallet's baseline is addressed to its owner, also if the address was another account's before. |
| `IncomingPayments.OneRowPerPayment` | src/notifications/notifications.service.ts:60-111 | No key has two outbox rows, and a payment's row is for an account that received it. |
| `IncomingPaymentsJob.PageIsComplete` | src/jobs/incoming-payments.job.ts:181-186 | A page omits no record between the cursor and its last token; a short page omits none at all. |
| `IncomingPaymentsJob.PageCovers` | src/jobs/incoming-payments.job.ts:193-214 | Once the first k records of a page are settled, everything between the cursor and the k-th token is, also for records that arrived meanwhile. |
| `IncomingPaymentsJob.ShortPageCatchesUp` | src/jobs/incoming-payments.job.ts:181-217 | After a short page everything the account had received when the wallet's processing began is settled. |
| `IncomingPaymentsJob.NotificationsService.Notify` | src/notifications/notifications.service.ts:60-111 | Never throws; true only if the payment has its row, had it before, or the account is gone; false only if a call failed. A row it adds waits for push exactly if the user had not switched the category off when the preference was read. |
| `IncomingPaymentsJob.NotificationsService.Create` | src/notifications/notifications.service.ts:78-103 | The insert under the unique key: a new key adds exactly this row, a known one adds nothing and counts as resolved because the row is this recipient's; false only if the call failed, before or after it took effect. |
| `IncomingPaymentsJob.IncomingPaymentsJob.NextWallets` | src/jobs/incoming-payments.job.ts:138-162 | The page is the next one in the rotation over the active wallets of accounts that are not deleted, and the rotation moves on or returns to the start. |
| `IncomingPaymentsJob.IncomingPaymentsJob.Watch` | src/jobs/incoming-payments.job.ts:101-123 | A run under way is left alone; otherwise every wallet of the page that is due is processed whatever happens to the others, each with an outcome that is true of that wallet at the end of the run, and a wallet stops short only after a failed call. |
| `IncomingPaymentsJob.IncomingPaymentsJob.ResolveSenders` | src/jobs/incoming-payments.job.ts:253-277 | An address is mapped if and only if it is that of an active wallet and sent an incoming payment of the page, and it is mapped to the wallet's owner; every other sender is kept as a stranger. The query may fail. |
| `IncomingPaymentsJob.IncomingPaymentsJob.HandlePayment` | src/jobs/incoming-payments.job.ts:221-251 | A payment of a system sender or of the owner's own wallet adds no row; one of another user is resolved only with a row for the owner or without an owner left; one of a stranger is dismissed if an onramp explained it when the orders were read, and otherwise resolved only with such a row. Anything but resolved only after a failed call. |
| `IncomingPaymentsJob.IncomingPaymentsJob.HasOnrampNear` | src/jobs/incoming-payments.job.ts:287-340 | Without a failed call the answer is yes exactly if a BlindPay order explains the payment when the first query runs or an Etherfuse order when the second does, and then the dismissal rests on that order. |
| `IncomingPaymentsJob.IncomingPaymentsJob.TakeBaseline` | src/jobs/incoming-payments.job.ts:168-177 | A wallet seen for the first time gets the token of its newest record as cursor, unless another instance set one first or the write failed. |
| `IncomingPaymentsJob.IncomingPaymentsJob.ProcessPage` | src/jobs/incoming-payments.job.ts:193-204 | Stops at the first record it cannot settle, and all records before it are settled. |
| `IncomingPaymentsJob.IncomingPaymentsJob.MoveCursor` | src/jobs/incoming-payments.job.ts:206-214 | The compare-and-set: moved only from the value this instance read, otherwise nothing is written and another instance is already further. |
| `IncomingPaymentsJob.IncomingPaymentsJob.ProcessWallet` | src/jobs/incoming-payments.job.ts:164-219 | Without a failed call a wallet is baselined, caught up with its whole history, overtaken by another instance, or ends after three pages with its cursor moved. |
| `AccountClosure.BuildAccountClosure` | src/wallets/stellar.service.ts:576-700 | Refused exactly if a line has an open buying order, before any operation is emitted; otherwise the program is all sweeps, then all removals, then the merge. |
| `AccountClosure.RunPayments` | src/wallets/stellar.service.ts:662-671 | The sweeps succeed exactly if each can be sent and received, and move exactly the swept amounts. |
| `AccountClosure.RunRemovals` | src/wallets/stellar.service.ts:673-681 | The removals succeed exactly if every line is empty and free, and remove exactly those lines. |
| `AccountClosure.ClosureSucceedsExactlyWhenClosable` | src/wallets/stellar.service.ts:609-690 | On a ledger with payment, ChangeTrust(0) and AccountMerge the program succeeds if and only if the account is closable, for any number of trust lines, and then its exact result is known. |
| `AccountClosure.ClosureConserves` | src/wallets/stellar.service.ts:609-690 | The total of every asset over user and Treasury is conserved, the user is gone, and nobody else is touched. |
| `WalletEligibility.CheckWallet` | src/account-deletion/eligibility.service.ts:380-451 | The loop over the balances reports exactly the specified blockers, residuals and totals; the blockers are the entries other than XLM above dust, in order, each with its own amount, USDC under its own code and every other asset under the general one. |
| `WalletEligibility.ReportMatchesSweeps` | src/account-deletion/eligibility.service.ts:407-449 | On successfully read balances without pool shares there is no wallet blocker if and only if every sweep is within the dust threshold, and then the reported total, the USDC residual and the residual list are the sweeps themselves. |
| `WalletEligibility.ReportedTotal` | src/account-deletion/eligibility.service.ts:407-449 | Without blockers the reported swept total is the sum of all sweeps plus the pool shares, which no sweep moves. |
| `WalletEligibility.NoBlockersMeansOnlyDustMoves` | src/account-deletion/eligibility.service.ts:407-449 | If the check finds no wallet blocker and the closure succeeds, no asset of the Treasury grew by more than the dust threshold. |
| `WalletEligibility.BlockersMatchSweeps` | src/account-deletion/eligibility.service.ts:407-449 | On a successful read, of any listing with or without pool shares: no blocker if and only if every sweep and every pool share is dust. |
| `WalletEligibility.NoBlockersIsReliableExactlyWhen` | src/wallets/stellar.service.ts:902-934 | For every listing and every outcome of the read: no blocker implies that the closure moves only dust, if and only if the read succeeded or there was nothing but dust. |
| `WalletEligibility.FailedReadBlocksNothing` | src/wallets/stellar.service.ts:902-934 | The concrete failure: more USDC than dust blocks if it is read, and does not if the read fails. |
| `VaultReads.StepKeepsInv` | src/account-deletion/eligibility.service.ts:101-120 | Every step of the worker pool keeps that each index is taken by one worker and that results are what was read. |
| `VaultReads.PoolReadsEachVaultOnce` | src/account-deletion/eligibility.service.ts:101-120 | For every interleaving with limit >= 1: there are min(limit, n) workers, no index is requested twice, the pool is never stuck and ends within 2n + 3 min(limit, n) turns, and then every index has its own answer, whatever the order. |
| `VaultReads.ThrottledStartsNothing` | src/account-deletion/eligibility.service.ts:234-262 | After the first transient failure was seen no further balance read starts. |
| `VaultReads.ThrottledExactlyWhenTransient` | src/account-deletion/eligibility.service.ts:234-286 | A finished pool was throttled exactly if some vault answered with a transient failure. |
| `VaultReads.JudgeReadings` | src/account-deletion/eligibility.service.ts:264-325 | The answer is to try again exactly if a reading is transient, and otherwise exactly the specified blockers, residuals and lost sum. |
| `Gifts.StepKeepsInv` | src/gifts/gifts.service.ts:184-302 | Every step of claimants, jobs, senders and ledger keeps the money invariant. |
| `Gifts.EveryRunKeepsInv` | src/gifts/gifts.service.ts:184-302 | It holds in every state of every interleaving. |
| `Gifts.OneClaimAndAgentUnchanged` | src/gifts/gift-stellar.service.ts:144-166 | At most one claim of a gift is under way, and the agent's own USDC is the same after any run. |
| `Gifts.PaidOnce` | src/gifts/gift-stellar.service.ts:144-166 | A payout is of the whole gift from its own balance, the same gift is never paid twice, and its balance serves no other gift. |
| `Gifts.ClaimedMeansPaid` | src/gifts/gifts.service.ts:296-302 | A gift recorded as CLAIMED was paid in full to the recorded recipient's claim. |
| `Gifts.TerminalStatusesStay` | src/gifts/gifts.service.ts:184-302 | CLAIMED and REFUNDED are never left, EXPIRED only for REFUNDED, and nothing returns to CREATED. |
| `Gifts.RefundedMeansGone` | src/jobs/gift-reconciliation.job.ts:100-123 | REFUNDED means the balance is off the ledger: with its sender, or paid by a claim of this gift whose call had ended. |
| `Gifts.RefundIsTruthfulExactlyWhen` | src/jobs/gift-reconciliation.job.ts:100-123 | For an expired gift, in every continuation REFUNDED means that the sender took the money back, if and only if at that moment no claim of it was paid and none submitted is undecided while the balance is on the ledger. |
| `Gifts.RefusedClaimsMakeItTrue` | src/gifts/gifts.service.ts:251-279 | If every lock on a gift that was given back had its payment never sent or refused by the ledger, REFUNDED means that the sender took the money back. |
| `Gifts.UndecidedCanGoEitherWay` | src/gifts/gift-stellar.service.ts:144-203 | If a payment was given up while the ledger had not decided it, one continuation pays the recipient and one returns the money, and both end as REFUNDED. |
| `Gifts.AbandonedLockStays` | src/gifts/gifts.service.ts:251-279 | A lock whose call has ended or died without giving it back is there for good: no claimant, job or sender changes the gift's row in any continuation. |
| `Gifts.LockCanBeLeft` | src/gifts/gifts.service.ts:260-270 | A run in which a call ends with its lock in place, the sender takes the money back, and the gift is still CLAIMING. |
| `Gifts.LostAnswerEndsInRefunded` | src/jobs/gift-reconciliation.job.ts:100-123 | A run in which the recipient was paid and the gift still ends as REFUNDED. |
| `GiftServices.RunKeeps` | src/gifts/gifts.service.ts:184-302 | Whatever others do, a gift's facts and bound balance stay, and what a claim or scan remembers is only changed by itself, but for its payment. |
| `GiftServices.GiftsService.ClaimGift` | src/gifts/gifts.service.ts:184-294 | Claimed only if paid to the caller's wallet and recorded, not past its date and with an account newer than the gift; past its date a claim is answered Gone or broken and takes no lock; undisturbed and without a failed call the answer is decided by the rows and the arguments, each answer exactly on its own condition; refused only for a reason that holds at that moment; a returned call still holds its lock if and only if the write that gives it back failed or the answer to the one that took it was lost, and is then reported as broken. |
| `GiftServices.GiftsService.ExpireOne` | src/gifts/gifts.service.ts:188-200 | A claim past the date leaves the gift in no claimable status, unless the write failed. |
| `GiftServices.GiftsService.LockAndDeliver` | src/gifts/gifts.service.ts:240-283 | The lock is taken only on a funded gift; a lost race writes nothing; a lock left behind after an unanswered write has sent no payment. |
| `GiftServices.GiftsService.Deliver` | src/gifts/gifts.service.ts:251-283 | Under the lock: paid and recorded, or the lock is given back, or the write that gives it back failed and the lock stays. |
| `GiftServices.GiftsService.ClaimAndPay` | src/gifts/gift-stellar.service.ts:144-203 | A positive answer means the ledger applied the payment; without one it may still be applied later. |
| `GiftServices.GiftJobs.ExpireGifts` | src/jobs/gift-expiry.job.ts:31-46 | Exactly the unclaimed gifts past their date become EXPIRED. |
| `GiftServices.GiftJobs.FundPendingGifts` | src/jobs/gift-reconciliation.job.ts:35-98 | A pass reads at most 50 pending gifts and one page of at most 200 balances (all if there are fewer), binds matching balances only, and without a failed call leaves no gift it read waiting whose free balance was on the page. |
| `GiftServices.GiftJobs.ConsiderBalance` | src/jobs/gift-reconciliation.job.ts:62-96 | One listed balance: bound to the gift of its memo if the amount is right and the gift still waits. |
| `GiftServices.GiftJobs.DetectRefund` | src/jobs/gift-reconciliation.job.ts:100-123 | Recorded as refunded only if its balance is gone, and left EXPIRED without a failed call only if the balance is there or unknown. |
| `PushOutbox.StepKeepsInv` | src/jobs/push-dispatch.job.ts:94-146 | Every step of any dispatcher keeps that held rows are in flight or failed, by one holder, and ticketed rows are past waiting. |
| `PushOutbox.EveryRunKeepsInv` | src/jobs/push-dispatch.job.ts:94-146 | It holds in every state of every interleaving with crashes. |
| `PushOutbox.HeldByOneDispatcher` | src/jobs/push-dispatch.job.ts:131-146 | A waiting row is held by nobody and no row by two dispatchers. |
| `PushOutbox.TicketedIsNeverPending` | src/jobs/push-dispatch.job.ts:244-270 | A row that got an ok ticket never waits again at any later point. |
| `PushOutbox.AttemptsCountClaims` | src/jobs/push-dispatch.job.ts:131-142 | The attempts column is the number of claims of the row, in every run. |
| `PushOutbox.ClaimsAreBounded` | src/jobs/push-dispatch.job.ts:113-146 | Whatever N dispatchers do, crashes and restarts included, a row is claimed at most MAX_ATTEMPTS + N - 1 times. |
| `PushOutbox.OneDispatcherRetriesAreBounded` | src/jobs/push-dispatch.job.ts:259-267 | With one dispatcher a row is claimed at most MAX_ATTEMPTS times. |
| `PushOutbox.BoundIsReached` | src/jobs/push-dispatch.job.ts:113-146 | For every N >= 1 there is a run of N dispatchers that claims a row MAX_ATTEMPTS + N - 1 times. |
| `PushBooking.TicketsAreOwn` | src/jobs/push-dispatch.job.ts:216-224 | A row's tickets are exactly those its own messages got, each with its device. |
| `PushBooking.BookMessage` | src/jobs/push-dispatch.job.ts:216-232 | One answer is booked to its own row and device; no other outcome and no other device changes. |
| `PushBooking.ChunksAnswerInOrder` | src/jobs/push-dispatch.job.ts:191-224 | The i-th message of a chunk gets the chunk's i-th ticket, none beyond its tickets, and the chunk's error if it failed, whatever the other chunks did. |
| `PushBooking.BookSays` | src/jobs/push-dispatch.job.ts:191-232 | A row has a ticket exactly if one of its own messages was accepted, and may be tried again exactly if one was refused for its rate or its chunk failed with 429, 5xx or without a status. |
| `PushDispatch.FanOutReaches` | src/jobs/push-dispatch.job.ts:163-189 | Without the plan's own functions: who gets a message of a row, and who does not. |
| `PushDispatch.OneFinalWritePerClaim` | src/jobs/push-dispatch.job.ts:244-284 | While a dispatcher lives, its claims of a row equal its final writes plus what it holds. |
| `PushDispatch.PushDispatchJob.FailStaleSending` | src/jobs/push-dispatch.job.ts:94-111 | Exactly the rows in SENDING for longer than the limit become FAILED. |
| `PushDispatch.PushDispatchJob.ReadCandidates` | src/jobs/push-dispatch.job.ts:114-128 | Distinct waiting rows, oldest first, at most a batch, none left out that is older than one taken, and all of them if the batch is not full. |
| `PushDispatch.PushDispatchJob.ClaimOne` | src/jobs/push-dispatch.job.ts:131-144 | Claimed exactly if still waiting, with the copy of attempts plus one. |
| `PushDispatch.PushDispatchJob.ClaimBatch` | src/jobs/push-dispatch.job.ts:113-146 | The rows returned are exactly those claimed, each once, held with its own copy of attempts and not ticketed; undisturbed but for sweeps, the batch is full or every waiting row is in it. |
| `PushDispatch.PushDispatchJob.Plan` | src/jobs/push-dispatch.job.ts:149-189 | A message of a row to a device exists if and only if the device is of the row's user, on the platform asked for and below the version limit; with distinct devices it is one message each; a row without a device is written SKIPPED and every other one is still in hand. |
| `PushDispatch.PushDispatchJob.Exchange` | src/jobs/push-dispatch.job.ts:191-240 | For any order-preserving split with any chunks failing, every ticket, error and unregistered device is booked to the message it answers. |
| `PushDispatch.PushDispatchJob.FinishRows` | src/jobs/push-dispatch.job.ts:244-270 | Every row still held gets one final write: sent, waiting again, or failed. |
| `PushDispatch.PushDispatchJob.Dispatch` | src/jobs/push-dispatch.job.ts:77-92 | A completed round has claimed exactly the rows it returns, each once, sent each to exactly the devices of its own user that its target names, and written each exactly once: SKIPPED if there is no such device, SENT if one of its own messages got a ticket, PENDING if none did, one was limited or failed in a way that passes (429, 5xx, no status), and attempts are left, and FAILED otherwise. Undisturbed but for sweeps it claimed a full batch or all that waited; a broken round leaves nothing in hand. |
| `Versions.ParseIsTheInverse` | src/notifications/push-target.ts:29-40 | A text made of one to three numbers, pre-release parts and a build, with white space around, is read as just these numbers and parts: the second is the minor, the third the patch, missing ones are 0, and the build does not count. |
| `Versions.ParsesExactly` | src/notifications/push-target.ts:29-40 | A text is a version if and only if it is made in this way. |
| `Versions.VersionRoundTrip` | src/notifications/push-target.ts:29-40 | The text written from any version, with its pre-release parts and any build, is read back as that version. |
| `Versions.CompareVersions` | src/notifications/push-target.ts:47-79 | The index loops return exactly the specified comparison, none if either text is no version. |
| `Versions.CompareIsPrecedence` | src/notifications/push-target.ts:47-79 | On well-formed versions the sign is the precedence of item 11 of Semantic Versioning 2.0.0, and 0 exactly for equal core and pre-release. |
| `Versions.PrecedenceIsTransitive` | src/notifications/push-target.ts:47-79 | The comparison is transitive on well-formed versions. |
| `Versions.SignChangesExactlyWhen` | src/notifications/push-target.ts:47-79 | On all versions, swapping the arguments negates the sign if and only if no deciding pair of numbers is the same number written twice. |
| `Versions.LeadingZerosBreakTheOrder` | src/notifications/push-target.ts:33-79 | For any two ways to write one number, the texts 1.0.0- followed by each are both versions, and each is reported higher than the other. |
| `Versions.OneLeadingZero` | src/notifications/push-target.ts:33-79 | For instance 1.0.0-01 and 1.0.0-1. |
| `Versions.TargetingIsDownwardClosed` | src/notifications/push-target.ts:81-95 | Whoever runs an older version than a targeted device is targeted too. |
| `DeletionSaga.StepKeepsInv` | src/account-deletion/account-deletion.service.ts:63-322 | Every step of any confirm call or cleanup pass keeps the invariant of rows, calls and history. |
| `DeletionSaga.EveryRunKeepsInv` | src/account-deletion/account-deletion.service.ts:63-322 | It holds in every state of every interleaving, failure and crash. |
| `DeletionSaga.IdentityGoesLast` | src/account-deletion/account-deletion.service.ts:178-322 | Whenever an identity is deleted, an earlier step scrubbed that user, and by then the network had accepted the closure unless the request carried none. |
| `DeletionSaga.NamedExactlyWhenNotTaken` | src/account-deletion/account-deletion.service.ts:257-290 | Over any run a request names its provider if and only if no step of the run has cleared it for another request or completed it. |
| `DeletionSaga.CompletedMeansGone` | src/account-deletion/account-deletion.service.ts:257-290 | A completed request has a scrubbed user, both external deletions answered and no provider; another request of the user names the provider if and only if it was created after, or had failed at, every step that cleared the user's requests for another one, and was not completed itself. |
| `DeletionSaga.LateRequestKeepsTheProvider` | src/account-deletion/account-deletion.service.ts:257-290 | A run in which a request opened between the clearing and the end keeps the provider id beside a completed one. |
| `DeletionSaga.CompletedIsFinalExactlyWhen` | src/account-deletion/account-deletion.service.ts:178-322 | A completed request stays completed in every continuation if and only if no call that opened it is still to write its closure, no confirm call of it is before its scrub mark, and no cleanup pass has seen it unfinished at its last attempt or without a provider. |
| `DeletionSaga.SecondConfirmReopens` | src/account-deletion/account-deletion.service.ts:193-203 | A run of two confirm calls in which the second puts LOCAL_SCRUBBED over COMPLETED, with the provider id gone. |
| `DeletionServices.AccountDeletionService.ConfirmDeletion` | src/account-deletion/account-deletion.service.ts:150-217 | An account that is not eligible is refused, unless the request was already completed when read, and nothing of it is submitted, scrubbed or deleted; the network is only asked with a signed closure. Refused for a reason that holds or unavailable, the call touched nothing local; answered, the user is scrubbed, and if completed, gone at both providers; broken only after a failed call. Undisturbed and without a failed call the answer is the one the request and the arguments decide, COMPLETED if nothing is against it. |
| `DeletionServices.AccountDeletionService.CloseOnChain` | src/account-deletion/account-deletion.service.ts:293-322 | Closed only if accepted and recorded; anything else is marked failed if that can be written. |
| `DeletionServices.AccountDeletionService.ScrubAndMark` | src/account-deletion/account-deletion.service.ts:193-203 | The scrub and then its mark, each in its own call. |
| `DeletionServices.AccountDeletionService.CleanUpExternals` | src/account-deletion/account-deletion.service.ts:223-290 | A failing provider is passed over; undisturbed, only its own request is completed, exactly if both deletions were answered, and without a failure they are. |
| `DeletionServices.AccountDeletionService.AskProviders` | src/account-deletion/account-deletion.service.ts:228-255 | A provider whose deletion is not answered as done has cost exactly one failed call: it is asked, passed over, and not asked again. A user without a BlindPay customer counts as deleted there. |
| `DeletionServices.CloserLowers` | src/jobs/account-deletion-cleanup.job.ts:83-108 | A waiting request that ends or has one attempt more lowers the sum of what is left to try. |
| `DeletionServices.AccountDeletionCleanupJob.ProcessOne` | src/jobs/account-deletion-cleanup.job.ts:60-109 | Undisturbed and with the database working, a request ends or has exactly one attempt more and some left, one with a provider is given up only on its last attempt, and no other moves; without any failed call it ends COMPLETED, or FAILED if it has no provider. |
| `DeletionServices.AccountDeletionCleanupJob.TakeBatch` | src/jobs/account-deletion-cleanup.job.ts:43-56 | All waiting requests with attempts left, at most a batch of them. |
| `DeletionServices.AccountDeletionCleanupJob.RetryPendingCleanups` | src/jobs/account-deletion-cleanup.job.ts:42-109 | If nobody else acts and no database call fails, a pass takes a batch of the requests that wait (all if they fit) and lowers the sum of (max - attempts) over LOCAL_SCRUBBED rows by at least one each; without any failed call it completes every request of the batch that has a provider and fails the others. |
| `ExperienceCurve.XpRequired` | src/experience/experience-level.ts:24-32 | The threshold is the k with (2k-1)^5 <= 80^5 * n^9 < (2k+1)^5, which is 40 * n^1.8 rounded. |
| `ExperienceCurve.RoundingIsUnique` | src/experience/experience-level.ts:24-32 | There is only one such k. |
| `ExperienceCurve.ThresholdsIncrease` | src/experience/experience-level.ts:24-32 | Thresholds strictly increase, for all levels. |
| `ExperienceCurve.XpRequiredForLevel` | src/experience/experience-level.ts:24-32 | A range error exactly outside 1..50. |
| `ExperienceCurve.CalculateExperienceLevel` | src/experience/experience-level.ts:42-64 | For every total the search returns the largest level whose threshold is reached, the tier of that level (0, 1-10, 11-25, 26-40, 41-50), and points into the level and to the next that add up to the gap. |
| `ExperienceCurve.LevelOfIsTheLevel` | src/experience/experience-level.ts:42-49 | Exactly one level is the largest reached. |
| `ExperienceCurve.LevelIsMonotone` | src/experience/experience-level.ts:42-49 | More points never cost a level. |
| `ExperienceLedger.Ledger.Give` | src/experience/experience-ledger.service.ts:37-85 | A source pays once; afterwards the total is the ledger sum, the level that of the total, and unlocked are exactly the active rewards whose minimum level is reached. |
| `ExperienceLedger.Ledger.UnlockEarnedRewards` | src/experience/experience-ledger.service.ts:98-118 | From the rewards of any lower level to exactly those of the new level, keeping the old rows. |
| `ExperienceLedger.Ledger.ClaimDailyReward` | src/experience/experience.service.ts:66-104 | A date pays once; the second claim is a conflict. |
| `Learning.LearningXpIsEarned` | src/learning/learning.service.ts:404-457 | Learning XP is the sum of completionXp over the lessons all of whose required questions were once right, plus the introduction bonus exactly when all five are complete. |
| `Learning.LearningService.RecordAttempt` | src/learning/learning.service.ts:338-369 | The attempt is counted; only a first right answer adds to what is correct, and it stays. |
| `Learning.LearningService.CountRequired` | src/learning/learning.service.ts:371-390 | The comparison of the two counts holds exactly if every required question was once right. |
| `Learning.LearningService.RecordCompletion` | src/learning/learning.service.ts:392-412 | A lesson's completion date is set when it is complete and never changed. |
| `Learning.LearningService.PayOut` | src/learning/learning.service.ts:414-457 | Pays the lesson when it was completed now and the bonus when this answer completed the five, once. |
| `Learning.LearningService.SubmitAnswer` | src/learning/learning.service.ts:294-490 | For any sequence of answers and daily rewards: accepted only for an active question of a published module in its current version and with one of its options, and otherwise refused with the first reason that holds and without a change; an accepted answer leaves everything as the set of right answers demands. |
| `Deposits.ProjectionsAgreeExactly` | src/deposits/deposits.service.ts:205-260 | List and detail show the same at all times if and only if the record is not confirmed or the intent is not unsigned or failed. |
| `Deposits.StepKeepsInv` | src/defindex/defindex.orchestrator.ts:24-124 | Every step of creating, submitting, expiring, purging and reconciling keeps the invariant. |
| `Deposits.EveryRunKeepsInv` | src/defindex/defindex.orchestrator.ts:24-124 | In every reachable state a record implies a signed, submitted or confirmed intent, and a confirmed intent a confirmed record. |
| `Deposits.HistoryAndDetailAgree` | src/deposits/deposits.service.ts:205-260 | In every reachable state history and detail show the same state of every deposit. |
| `Deposits.SuccessStays` | src/defindex/transaction-state.ts:97-127 | Once shown as a success a deposit is shown as a success for good. |
| `Deposits.TerminalIsFinalExactlyWhen` | src/defindex/transaction-state.ts:97-132 | A deposit shown as expired, failed or rejected can still be shown as a success, and can leave these states at all, if and only if some submit of it has passed its checks and not signed yet. |
| `Deposits.SubmitRevives` | src/defindex/defindex.orchestrator.ts:67-124 | Such a submit signs the intent whatever became of it, and if the chain accepts it is confirmed. |
| `Deposits.ExpiredCanStillSucceed` | src/defindex/transaction-state.ts:129-132 | A concrete run: expired by the job, then confirmed. |
| `DepositServices.DepositsService.SubmitSignedXdr` | src/deposits/deposits.service.ts:163-195 | Refused for a reason that holds, having written nothing; accepted with its one record and both rows as told; broken only on a failed call, a competing record or a purged row. |
| `DepositServices.DepositsService.SubmitDeposit` | src/defindex/defindex.orchestrator.ts:67-124 | The status and the record are written together or not at all. |
| `DepositServices.DepositsService.ListDeposits` | src/deposits/deposits.service.ts:229-260 | Computed from a rewritten status, the state of every deposit is still that of the detail, and what the row calls for; the status is CONFIRMED once the record is. |
| `DepositServices.DepositsService.GetDeposit` | src/deposits/deposits.service.ts:205-227 | The stored status, and each of the six shown states exactly for the rows it is meant for: by status, date, failure code and record; a success exactly if the record is confirmed. |
| `DepositServices.ExpiredIntentsJob.ExpireIntents` | src/jobs/expired-intents.job.ts:27-41 | Exactly the unsigned intents past their date are failed. |
| `DepositServices.ExpiredIntentsJob.PurgeFailed` | src/jobs/expired-intents.job.ts:50-65 | Exactly the aged failed intents without a record are removed. |
| `DepositServices.ReconciliationJob.ReconcilePending` | src/jobs/reconciliation.job.ts:24-94 | The batch is at most 50 different intents whose records were pending when read, all of them if they fit; what it reports is confirmed in both rows; a failure concerns one record only, and without one exactly the deposits of the batch that landed are confirmed. |
| `VaultPolicies.StepKeepsInv` | src/vault-eligibility/vault-eligibility.service.ts:71-210 | Every admin and user step and every account deletion keeps: one active policy per vault, active implies published, and every unlock rests on a published policy its user met, and still meets unless deleted. |
| `VaultPolicies.EveryRunKeepsInv` | src/vault-eligibility/vault-eligibility.service.ts:71-210 | It holds in every reachable state. |
| `VaultPolicies.NothingIsTakenBack` | src/vault-eligibility/vault-eligibility.service.ts:80-108 | Over any run no unlock row is removed or rewritten but with its user's account, and published policies never change. |
| `VaultPolicies.OneActivePolicy` | src/vault-eligibility/vault-eligibility.service.ts:110-128 | At most one policy of a vault is active, and it is published. |
| `VaultPolicies.EligibleExactly` | src/vault-eligibility/vault-eligibility.service.ts:296-426 | In every reachable state a user is eligible if and only if not in Lite mode, or for a USDC vault, or holding the unlock, or meeting level and modules of the vault's active policy, where no account counts as level 0. |
| `VaultPolicies.GrantedStaysEligible` | src/vault-eligibility/vault-eligibility.service.ts:333-349 | A granted Lite user stays eligible whatever is published later, until the account is deleted. |
| `VaultPolicies.UpsertHasItsEffect` | src/vault-eligibility/vault-eligibility.service.ts:97-128 | What a policy write does to every row: its own as given, after a publication exactly this version is active in the vault, after a draft or a refused or repeated call no other policy changes. |
| `VaultPolicies.UpsertSparesOtherVaults` | src/vault-eligibility/vault-eligibility.service.ts:103-108 | For every other vault there is an active policy, and what it asks for, exactly as before. |
| `VaultPolicies.PublishUnlocksTheEligible` | src/vault-eligibility/vault-eligibility.service.ts:160-210 | After a publication a Lite user is unlocked exactly if the single evaluation finds the user eligible, but for users without an XP account; nobody of another vault, no PRO user and nobody who does not meet it is unlocked. |
| `VaultPolicies.NoAccountIsPassedOver` | src/vault-eligibility/vault-eligibility.service.ts:169-176 | The concrete failure: a policy that asks for nothing is published, and a Lite user without an XP account is eligible and not unlocked. |
| `VaultEligibility.VaultEligibilityService.MaterializePolicyUnlocks` | src/vault-eligibility/vault-eligibility.service.ts:160-210 | The filter over the candidates yields exactly the specified unlock rows. |
| `VaultEligibility.VaultEligibilityService.UpsertPolicy` | src/vault-eligibility/vault-eligibility.service.ts:55-158 | A published policy is answered on an identical retry and refused otherwise; errors write nothing and name exactly the missing modules. A write has its effect row by row: its own policy as given, after a publication all others of the vault inactive, and every other policy as it was. |
| `VaultEligibility.VaultEligibilityService.Evaluate` | src/vault-eligibility/vault-eligibility.service.ts:296-426 | Told eligible, the user meets a published policy of the vault (or needs none, or was deleted meanwhile) and a wanted unlock is there; told not, the user had no unlock when the call began (or was deleted) and nothing was written. If nobody else acts, the answer is the specified evaluation of the rows, and no row but this unlock changes. |
| `VaultEligibility.VaultEligibilityService.FirstOfEachVault` | src/vault-eligibility/vault-eligibility.service.ts:270-275 | One policy of each vault; on a list without duplicates it drops nothing. |
| `VaultEligibility.VaultEligibilityService.RefreshUnlocksForUser` | src/vault-eligibility/vault-eligibility.service.ts:249-281 | Every vault with an active policy gets an answer that holds of the rows at some moment between the first read and the end, and what is reported as newly unlocked is, as long as the account is there. If nobody else acts, each answer is the specified evaluation of the rows read first, and whoever is eligible for a vault by its policy holds its unlock afterwards. |
| `PayinQuote.QuotePayinForTarget` | src/ramp/ramp.service.ts:98-121 | Whatever the provider answers, at most four quotes are made, each correction asks for exactly what was missing, it never asks for less than the target, and it gives up short only after the fourth. |
| `PayinQuote.RequestsIncrease` | src/ramp/ramp.service.ts:108-119 | The requests strictly increase. |
| `PayinQuote.CorrectionsConverge` | src/ramp/ramp.service.ts:98-121 | With a fee that is not negative, never falls and grows by at most s/m + 1, the target is never passed and after k corrections at most s0/m^k + m/(m-1) is missing. |
| `Amounts.QuoteBest` | src/conversions/quote.service.ts:75-90 | The record taken is the first of those that pay most. |
| `Amounts.SlippageFloor` | src/conversions/quote.service.ts:92-98 | destMin <= dest * (1 - bps/10000) < destMin + 10^-7, for at most 10000 bps. |
| `Amounts.DepositIsWhatArrived` | src/deposits/deposits.service.ts:367-375 | The deposited units are the floor of what was received; refused only if that is nothing or above 2^53 - 1, never for precision. |
| `Amounts.UnitsAreRefusedExactly` | src/defindex/asset-amount.ts:6-62 | Each refusal on exactly its own amounts, in the order they are looked for: a negative number of places, nothing or less, no whole number of units, more than 2^53 - 1 of them; and a raw amount that is not whole. |
| `Amounts.UnitsRoundTrip` | src/defindex/asset-amount.ts:46-62 | The decimal string of any whole number of units, negative ones included, stands for exactly units / 10^d, and reads back as the same units exactly if they are positive and at most 2^53 - 1. |
| `Amounts.AmountRoundTrip` | src/defindex/asset-amount.ts:6-44 | An accepted amount is the value of the string of its units. |

## Left out

- Controllers, DTO validation, guards, module wiring, copy, seed data, configuration schemas and logging: routing and text without a deep property.
- HTTP clients, SDKs, XDR encoding, signatures and hashes: environment steps that may fail at any call.
- Lost answers of the database: a write that reports a failure is taken not to have happened, except for the inserts and updates whose lost answer the watcher and the gift claim depend on.
- Network limits on a closing transaction (operations per transaction, sequence numbers, time bounds) and which single asset `summariseSweep` records.
- Conflicting grants inside one transaction: grants to one user are serialised by the account row, so each is one step here.
- `createDeposit` and `createDepositFromConversion` as calls: their row writes are steps of `Deposits`; the idempotency lookup and the gates before them (registry, disclosure, education, wallet) are not modelled.
- `requestDeletion` as a call: opening or reusing a request and writing its closure are steps of `DeletionSaga`; the residuals it reports are not modelled.
- VaultEligibility.VaultEligibilityService.RefreshUnlocksForUser: evaluates the vaults one after another, where the source starts the evaluations together. Each evaluation's contract holds against any steps of others in between, but that a failing one leaves the others running is not modelled.
- What the scrub erases is modelled where a result depends on it: notifications and addresses in `IncomingPayments`, unlocks, XP and progress in `VaultPolicies`. In `DeletionSaga` it is one atomic step that either happened or did not.
- PushOutbox.TicketedIsNeverPending: for rows of accounts that are not deleted. The scrub also deletes waiting and held push rows and the devices, and a final write to a deleted row raises an error; the dispatcher is modelled without that step, as are `ExperienceLedger` and `Learning`.
- Gift creation checks, gift scrubbing, the expiry warnings, and the limit of 20 gifts in one refund scan.
- The pause after a rate limit (`pausedUntil`), message texts, token redaction and `readPushData`.
- Version numbers above 2^53.
- A catalogue or reward list that changes under a user's progress: both are fixed here.
- Floating point in `level ** 1.8`: the curve is the exact real value, rounded.
- The precision limit of Decimal.js and the eight decimal places of the amount column.
- `microUsdcToCents` and the mapping between BRL and USD requests around the correction loop.
- Withdrawals (they mirror deposits), conversions as a protocol, webhooks, portfolio, prices and vault sync: they would add only easier or undecided members.
- Amounts.SlippageFloor: not for a slippage above 10000 bps, where the price is negative and rounding towards zero goes up.
- IncomingPayments.NoLoss: says nothing about payments up to the baseline, which the watcher skips on purpose.
- VaultReads.JudgeReadings: the listing of vaults and positions before the reads is a parameter.
