# Points, claims and $TACHI: a verified model

This project models the money flow of `services/api`: T-points earned on channel ledgers, airdrops,
claims that turn points into minted $TACHI, redemptions that burn $TACHI for vouchers, external
T-point receipts, the wallet and one-time records a claim depends on, and the request rate limiter.

The source changes rows step by step, so the project has two layers that are proved to agree.

* **Code.** `Tables.Database` holds the tables and its methods are the bodies of the database
  transactions, statement by statement. `Backend.Service` runs `Claim` and `Redeem` on it, one
  transaction or chain call after the other, and lets other calls take any number of steps in between
  (`Others`). `AirdropService.ExecuteContext` is the airdrop retry loop, `AirdropInt64.DistributeAirdrop`
  the in-place split in int64 arithmetic, `RateLimit.RateLimiter` the limiter, `AccountService.Accounts`
  the wallet and token requests, with other requests between their statements.
* **Machine.** `Machine` is the whole system as a state machine: each transaction is one atomic step
  that commits, is rolled back, or commits while reporting an error; each running call has its own
  program counter; the chain settles transactions at any time. A run is any sequence of enabled
  steps, so calls interleave freely and every step may fail. `Invariant` and `Preserve` give the
  inductive invariant, and `Books`, `Asked`, `Solvency`, `Settlement`, `Recovery`, `Caps` and
  `Extension` the results over all runs. Every method of `Backend` is proved to be a run of the machine.
  `Wallet` is a second, smaller machine whose steps are single statements: a plain read sees committed
  rows, a deleted row is held until its transaction ends, and a unique index may refuse a write. Every
  method of `AccountService.Accounts` is proved to be a run of it (`WalletRuns`), and `Payout` runs both
  machines side by side.

Rows live in sequences and a row's id is its position; a deleted row leaves `None`. Users, addresses,
transaction hashes, nonces and tokens are numbers, of which only equality matters. `history` and the
per-call records `claims` and `spends` of `Machine.Sys` are not tables: they are what the tables are
compared with, and the program counters of the running calls.

## What the environment is assumed to do

* A broadcast or send error without a hash means that nothing reached the chain.
* A receipt report of success or of a failed status agrees with the chain; "unknown" is always possible.
* Row locks hold, and the transactions on points, claims and balances are serial on the rows they lock.
  The unique indexes of `services/api/cmd/loader/main.go:72-101` are enforced: the one on transaction ids
  and the two on wallets do refuse rows in the model (a duplicate receipt, a race of two links or
  logins); that the one on `claims.tx_hash` never has to is proved.
* A recovery job calls `finalizeClaim` and `markFinalizeFailedClaim` for any claim whose row is not
  `broadcast`, or whose call has returned and whose mint succeeded. The comment at
  `services/api/internal/services/claim_service.go:468-471` only speaks of `finalize_failed`. For a job that
  goes by a status it has read before, the exact condition for either call is that this status is neither
  `pending` nor `broadcast` (`Recovery.RecoveryCondition`): a job that finalizes or marks a broadcast claim
  while its call is about to record an unknown receipt makes later retries credit it twice, because that
  record is written without looking at the status; and a pending claim may be broadcast by then.
* Accumulated seconds are not negative, the viewers of a channel are distinct registered users, and in
  `AirdropService` the products of the split fit int64; `AirdropInt64.ExactCondition` says that the
  split is exact under no weaker condition, and `AirdropInt64.OverflowPanics` gives an overflow that panics.
* A canonical UUID string is fixed-width lower-case hexadecimal, so ordering the strings is ordering the
  numbers used for users. Ties in a ledger's creation time are broken by position.
* `sort.SliceStable` is modelled by an insertion sort; the sort key is total on distinct users, so the
  sorted slice is unique (`Airdrop.SortedUnique`).
* The rate limiter's clock is monotone; `generateNonce` never repeats a value.

## Worth knowing

* A redemption whose burn was mined but failed gets an error without a hash, so it is rolled back like
  one that was never sent (`services/api/internal/contract/tachi_token.go:255-265`); the comment in `Redeem`
  only speaks of the other case. The model follows the code.
* The fixed-window limiter never reaches twice its limit in one window length: the exact maximum is one
  less (`RateLimit.IntervalBound`, `RateLimit.BoundIsReached`).
* The even split of an airdrop among viewers without seconds depends on the order of the slice unless
  their number divides the amount (`Airdrop.EvenSplitOrder`). The session query has an order, which makes
  the whole airdrop a function of who is watching (`Airdrop.QueryDeterminesSplit`).
* The limiter's cleanup deletes by the window of the request that triggers it. That is invisible exactly
  as long as no key uses a shorter window than another (`RateLimit.CleanupCondition`), as is the case in
  `services/api/internal/router/router.go:86-93`, where all share one.
* Two links of one user, or two users at one address, that interleave can both pass the count; then an
  index refuses the later one (`Wallet.SecondLinkRefused`, `Wallet.SecondOwnerRefused`). A refusal happens
  in no other way: `WalletRuns.RefusalCondition` says exactly which commits in between cause it.

## Model

The main results come first; the rest of the table follows the program.

| member | source | states |
|---|---|---|
| Solvency.Solvent | services/api/internal/services/claim_service.go:140-237 | in every reachable state, minted minus burned on the chain equals, in raw units, all balances plus claims minted but not confirmed plus spends debited but not burned; so the balances never exceed the supply |
| Books.RunBalanced | services/api/internal/services/claim_service.go:278-466 | for any selection of ledgers and any interleaving: balances equal the surviving log rows, balances plus points held by claims equal credits minus deductions, cumulative totals equal credits |
| Books.LedgerAgreesWithLog | services/api/internal/services/points_service.go:114-152 | each ledger's balance is the sum of the deltas of its surviving rows and lies between zero and its cumulative total, although rollbacks delete rows while others write |
| Books.UserPointsConserved | services/api/internal/services/points_service.go:210-248 | a user's points plus the amounts of the user's existing, not failed claims equal the user's credits minus deductions |
| Asked.UserGetsWhatIsDue | services/api/internal/services/points_service.go:114-248 | a user's points plus the amounts of the existing, not failed claims are what the credits, deductions and airdrops of the run were due to give to and take from the user: the amounts callers asked for, unless rolled back or to be refused |
| Asked.MovementsAreDue | services/api/internal/services/points_service.go:114-248 | for any users and channels, the recorded movements of points over a run are exactly those amounts |
| Points.DeductExact | services/api/internal/services/points_service.go:114-152 | a deduction succeeds exactly when the amount is positive and the ledger of user and channel has it; then it takes exactly the amount from that ledger and logs exactly that; each refusal has its own error |
| Points.CreditExact | services/api/internal/services/points_service.go:173-248 | a credit goes through exactly when its fields are valid and its id is new; it adds exactly the amount to that ledger, or opens one dated now, and logs exactly that |
| Asked.LedgersDated | services/api/internal/services/points_service.go:212-224 | in every reachable state the creation time of a ledger is the time of its oldest row, the credit that opened it |
| Settlement.SettledExactlyOnce | services/api/internal/services/claim_service.go:472-596 | over any run with any number of retries, the balance is credited for a claim as often as it is confirmed (once or never), points are given back as often as it failed or was rolled back, and never both |
| Settlement.FinalizeAnswers | services/api/internal/services/claim_service.go:520-596 | in every reachable state finalizeClaim settles a broadcast or finalize_failed claim with exactly its amount, repeats the balance for a confirmed one, and otherwise says why not and changes nothing |
| Settlement.MarkAnswers | services/api/internal/services/claim_service.go:472-518 | the same for markFinalizeFailedClaim, which never touches a balance |
| Recovery.RecoveryCondition | services/api/internal/services/claim_service.go:411-596 | for each of finalizeClaim and markFinalizeFailedClaim: a job may call it for a claim it has read earlier, whatever runs before the read, between read and call, and afterwards, without the claim ever settling twice if and only if the status it read is neither pending nor broadcast |
| Settlement.RunLifecycle | services/api/internal/models/claim.go:14-20 | between any two states of a run a claim row only moves forward through its statuses; confirmed and failed rows and a set hash never change; only pending rows disappear |
| Settlement.SpendSafety | services/api/internal/services/spend_service.go:73-220 | no balance goes negative, a debit is returned only when nothing was burned, every redemption record is backed by a standing debit, and a successful return with a client means a redeemed record with that voucher |
| Spends.SpendRefused | services/api/internal/services/spend_service.go:169-204 | exactly when a redemption is refused and why; the whole balance may be spent; otherwise exactly the amount is taken from exactly this user |
| Claims.ReservationItems | services/api/internal/services/claim_service.go:278-371 | on success the items are positive, cover the claim amount exactly, follow the ledgers oldest first and empty each but the last; amount 0 takes all |
| Claims.ReservationLedgers | services/api/internal/services/claim_service.go:325-368 | what the ledgers hold afterwards: touched ones but the last are empty, later ones and other users' are unchanged, none is negative |
| Claims.ReservationRefused | services/api/internal/services/claim_service.go:293-307 | exactly when each error is returned, in terms of the user's whole balance |
| Claims.OldestFirst | services/api/internal/services/claim_service.go:279-281 | as long as a ledger of the user keeps points, no ledger of the user created later is touched |
| Claims.ReservationLogged | services/api/internal/services/claim_service.go:313-368 | a reservation adds one pending claim of the user and one debit row for each item, and nothing else beside the ledgers |
| Claims.RefundLogged | services/api/internal/services/claim_service.go:440-464 | a compensation adds one refund row for each item, the opposite of its debit |
| Airdrop.LargestRemainderIsOptimal | services/api/internal/services/airdrop_service.go:268-288 | no integer allocation of the same amount, even with negative shares, has a smaller total absolute deviation from the proportional quotas |
| Airdrop.Apportionment | services/api/internal/services/airdrop_service.go:244-289 | the shares add up to the amount, each is the floor or ceiling of its quota, no seconds means no points, viewers are only rearranged |
| Airdrop.Fairness | services/api/internal/services/airdrop_service.go:268-288 | more seconds never means fewer points, equal seconds differ by at most one |
| Airdrop.ExtraPointOrder | services/api/internal/services/airdrop_service.go:276-288 | of two users of whom only one gets more than the floor of the quota, that one has the larger remainder, or an equal one and more seconds, or both equal and the smaller id |
| Airdrop.OrderIndependence | services/api/internal/services/airdrop_service.go:268-288 | in the weighted case the result does not depend on the order in which the viewers were loaded |
| Airdrop.EvenSplitOrder | services/api/internal/services/airdrop_service.go:256-266 | among viewers without seconds every order of the slice gives the same shares if and only if their number divides the amount |
| Airdrop.QueryDeterminesSplit | services/api/internal/services/airdrop_service.go:218-227 | the order of the session query is unique, so the same viewers always get the same airdrop |
| AirdropInt64.ExactCondition | services/api/internal/services/airdrop_service.go:249-288 | when the total of the seconds fits int64, the result is the exact distribution if and only if every product fits, and then nothing panics |
| Caps.DailyCap | services/api/internal/services/airdrop_service.go:103-180 | over any run, the airdrop deltas of a channel on a UTC day never exceed its configured limit if that is positive, and 5000 otherwise |
| AirdropTx.AttemptRefused | services/api/internal/services/airdrop_service.go:111-146 | an airdrop is refused exactly when the amount is not positive, nobody watches, or the day's total plus the amount exceeds that number; the refusal carries the number, the total, the request and what remains, not below zero |
| Caps.ExternalCreditedOnce | services/api/cmd/loader/main.go:85-87 | over any retries an external transaction id is credited as often as it appears in the log, at most once |
| Extension.ReceiptsAddUp | services/api/internal/services/extension_service.go:215-237 | by how much receipts have raised the balances of any ledgers over a run is the sum of their log rows with a transaction id |
| Extension.ReceiptIdsDistinct | services/api/cmd/loader/main.go:85-87 | those rows carry distinct transaction ids |
| RateLimit.IntervalBound | services/api/internal/middleware/rate_limit.go:66-85 | fewer than twice the limit in any half-open interval of one window length, as long as no request uses a shorter window |
| RateLimit.CleanupCondition | services/api/internal/middleware/rate_limit.go:95-104 | deleting entries never changes an answer to a key if and only if no window in use is shorter than the key's own |
| RateLimit.RetryAfterIsExact | services/api/internal/middleware/rate_limit.go:78-80 | under the same condition, later requests of a denied key are denied before now + retryAfter, with what remains, and the first from then on is admitted |
| RateLimit.DeniedAtLimit | services/api/internal/middleware/rate_limit.go:66-85 | a key is denied only when a whole limit of its requests got in less than one window ago, and the wait ends when the oldest of them is one window old |
| Wallet.RunSound | services/api/cmd/loader/main.go:74-79 | however the statements of links, logins and unlinks interleave, a user has at most one active wallet and an active address belongs to one user |
| Wallet.UsedOnce | services/api/internal/services/auth_service.go:195-222 | over any interleaving a nonce or refresh token is used by at most one committed operation, and by none while still in circulation |
| WalletRuns.OnlyUse | services/api/internal/services/auth_service.go:195-222 | a request whose run uses a nonce or token uses it exactly once, and no step before, meanwhile or later uses it again |
| WalletRuns.RefusalCondition | services/api/internal/services/user_service.go:160-208 | a link that has counted no other owner is refused by an index if and only if another user has taken the address since the count or another row has become the user's wallet since the delete |
| Payout.MintsToWallet | services/api/internal/services/claim_service.go:304-317 | whatever links, unlinks and logins interleave with claims, every mint goes to an address that was, before the claim's reservation committed, its user's one wallet and nobody else's |
| Wallet.LinkedWalletIsUsed | services/api/internal/services/claim_service.go:624-639 | a link that is not refused makes the address the one resolved for the user's claims, leaves other users' wallets and uses up its nonce |
| Backend.Service.Claim | services/api/internal/services/claim_service.go:140-237 | with other calls in between, the call is a run of the machine; a refusal changed nothing and names the right reason; otherwise the answer is determined by how each transaction ended, whether the mint was sent and what the receipt said, in particular a sent and successful mint whose transactions commit is paid with exactly the claim amount; every answer tells the truth about its claim and its mint |
| Backend.Service.Redeem | services/api/internal/services/spend_service.go:73-153 | with other calls in between, the call is a run of the machine; the answer is determined by how each transaction ended, what the burn's receipt said and what Tachiya answered; with a client a success returns exactly Tachiya's voucher, stored in a redeemed record, and no voucher means a compensation-needed record without one; every error tells the truth about debit, burn and record |
| AirdropService.ExecuteContext | services/api/internal/services/airdrop_service.go:89-180 | at most five attempts, all but the last without trace; a success credited exactly the returned distribution, which adds up to the request, within the configured limit; a refusal is due and carries the right numbers |
| Solvency.RunBacked | services/api/internal/services/spend_service.go:73-220 | for any set of users, the $TACHI balances are the amounts of their confirmed claims minus their standing debits |
| Solvency.RunSupply | services/api/internal/contract/tachi_token.go:252-265 | minted minus burned on the chain is the sum of the claim amounts whose mint succeeded minus the spend amounts whose burn succeeded, scaled by 10^18 |
| Solvency.BackedIsSolvent | services/api/internal/services/token_units.go:7-9 | the database equation and the chain equation together give solvency |
| Settlement.OtherHashRejected | services/api/internal/services/claim_service.go:494-515 | a retry naming another hash than the stored one is rejected by both transactions, whatever the status |
| Settlement.HashesUnique | services/api/cmd/loader/main.go:88-90 | two claim rows never carry the same hash |
| Settlement.PaidClaimIsMinted | services/api/internal/services/claim_service.go:220-237 | a call that returned a balance has a confirmed claim and a successful mint of exactly its amount to its wallet |
| Settlement.FinalizeCounts | services/api/internal/services/claim_service.go:520-596 | a finalization writes the balance exactly when it newly confirms the claim, and then adds the claim amount to the user's balance and to nothing else |
| Settlement.RefundCounts | services/api/internal/services/claim_service.go:387-466 | points go back to the ledgers exactly when the claim newly becomes failed or deleted |
| Settlement.StepLifecycle | services/api/internal/services/claim_service.go:373-596 | every step moves every claim row along at most one edge of the status graph |
| Preserve.RunKeeps | services/api/internal/services/claim_service.go:140-596 | the invariant that ties every claim, redemption, chain transaction and table to each program point holds in every reachable state |
| Preserve.StepKeeps | services/api/internal/services/spend_service.go:73-220 | every step keeps that invariant |
| Claims.FetchedIsWholeBalance | services/api/internal/services/claim_service.go:279-291 | the rows of the locking SELECT add up to the user's whole balance |
| Claims.ReservedBalanced | services/api/internal/services/claim_service.go:278-371 | a reservation keeps the books |
| Claims.RollbackBalanced | services/api/internal/services/claim_service.go:387-409 | deleting the claim and its log rows and restoring the ledgers keeps the books |
| Claims.CompensateBalanced | services/api/internal/services/claim_service.go:422-466 | a compensation with refund rows keeps the books |
| Points.DeductBalanced | services/api/internal/services/points_service.go:114-152 | a deduction lowers balance, log and history alike and leaves the cumulative total |
| Points.AddRowBalanced | services/api/internal/services/points_service.go:210-248 | a credit raises balance, cumulative total, log and history alike |
| Points.FindLedger | services/api/internal/services/points_service.go:232-235 | the result is the first row of the user and channel, or the table's length if there is none |
| Caps.RowsAreDistribution | services/api/internal/services/airdrop_service.go:154-166 | the log rows an attempt appends credit exactly its distribution, in order, at the anchored time |
| Extension.CompleteTPoint | services/api/internal/services/extension_service.go:175-248 | the answer is determined by the receipt, the user, the log and how the transaction ended: a success credits exactly the receipt, whose id was new; a known id is a duplicate with every table unchanged; if the tokens cannot be issued the points stay and the id is known |
| Extension.RejectExact | services/api/internal/services/extension_service.go:192-209 | exactly which receipts are refused before any write, and with which error |
| AirdropTx.AttemptWithinLimit | services/api/internal/services/airdrop_service.go:115-168 | a successful attempt hands out exactly the amount in positive shares, raises only that channel's day total, by the amount, and stays within the configured limit |
| AirdropTx.GuardIsExact | services/api/internal/services/airdrop_service.go:135-146 | the overflow-free guard is the plain comparison of total plus amount with the limit |
| Airdrop.LeftoverBounds | services/api/internal/services/airdrop_service.go:268-288 | fewer points are left over than there are viewers with a remainder, so the last loop stays inside the slice |
| Airdrop.ExtraOnlyForRemainder | services/api/internal/services/airdrop_service.go:286-288 | an extra point only goes to a viewer with a remainder |
| Airdrop.SortedUnique | services/api/internal/services/airdrop_service.go:276-284 | with a total key there is only one sorted arrangement |
| Airdrop.SortCorrect | services/api/internal/services/airdrop_service.go:276-284 | the sort orders the slice and keeps its elements |
| Airdrop.EvenSplit | services/api/internal/services/airdrop_service.go:256-266 | without seconds the shares add up, differ by at most one, and the first viewers get the larger ones |
| AirdropInt64.DistributeAirdrop | services/api/internal/services/airdrop_service.go:244-289 | the method in place with wrap-around: when it panics, and the slice it leaves otherwise |
| AirdropInt64.SliceStable | services/api/internal/services/airdrop_service.go:276-284 | sorting in place gives the sorted sequence |
| AirdropInt64.FloorShares | services/api/internal/services/airdrop_service.go:268-274 | floor shares, remainders and what is left, wrapped |
| AirdropInt64.GiveLeftover | services/api/internal/services/airdrop_service.go:286-288 | one more point for each of the first viewers; a panic exactly when more is left than there are viewers |
| AirdropService.TodayTotal | services/api/internal/services/airdrop_service.go:193-213 | the joined sum over the half-open day interval is the day's airdrop total |
| AirdropService.TryAirdrop | services/api/internal/services/airdrop_service.go:115-168 | for any viewers the transaction body has exactly the effect and result specified, int64 arithmetic and panic included |
| AirdropService.CreditViewers | services/api/internal/services/airdrop_service.go:154-166 | the loop credits every positive share once and returns what it credited |
| AirdropService.OneTry | services/api/internal/services/airdrop_service.go:104-177 | one round is one step of the machine, and its result says whether and what it wrote |
| Tables.Database.AddPointsAt | services/api/internal/services/points_service.go:210-248 | the upsert and the log row, both undone when the transaction id is already used |
| Tables.Database.AddPointsWithMeta | services/api/internal/services/points_service.go:173-193 | the credit with its validation errors |
| Tables.Database.DeductPoints | services/api/internal/services/points_service.go:114-152 | the deduction with its errors; nothing changes on an error |
| Tables.SelectSpendable | services/api/internal/services/claim_service.go:279-286 | exactly the user's ledgers with points, oldest first |
| Tables.Database.ReserveClaim | services/api/internal/services/claim_service.go:278-371 | the reservation, with the result and tables of its specification; nothing changes on an error |
| Tables.Database.TakePoints | services/api/internal/services/claim_service.go:325-368 | the greedy loop takes the specified items, with ledger writes, log rows and claim items |
| Tables.Database.RollbackClaimReservation | services/api/internal/services/claim_service.go:387-409 | claim and log rows deleted, ledgers restored |
| Tables.Database.MarkClaimFailedAndCompensate | services/api/internal/services/claim_service.go:422-466 | failed status, ledgers restored, refund rows; undone when a ledger is missing |
| Tables.Database.MarkFinalizeFailedClaim | services/api/internal/services/claim_service.go:472-518 | the guarded write and the reason when it affects no row |
| Tables.Database.FinalizeClaim | services/api/internal/services/claim_service.go:520-596 | the guarded write, the balance upsert, and the answers for rows not affected |
| Tables.Database.ReserveBalance | services/api/internal/services/spend_service.go:169-204 | the debit with its errors, and the new balance |
| Backend.Service.SettleReservation | services/api/internal/services/claim_service.go:155-185 | broadcast, rollback without a hash, record of the hash |
| Backend.Service.SettleReceipt | services/api/internal/services/claim_service.go:187-218 | a successful receipt leads to the finalization, a failed one to a compensation that cannot be refused, an unknown one to its record |
| Backend.Service.SettleFinal | services/api/internal/services/claim_service.go:220-237 | a finalization that commits raises the balance by exactly the claim amount and returns it; any other is marked |
| Backend.Service.Broadcast | services/api/internal/services/claim_service.go:251-269 | a hash means sent with the claim amount in raw units, no hash means nothing sent |
| Backend.Service.Receipt | services/api/internal/contract/tachi_token.go:160-177 | a definite answer agrees with the chain |
| Backend.Service.BurnOnChain | services/api/internal/contract/tachi_token.go:252-265 | an error with a hash means unknown, without one that nothing was burned |
| Backend.Service.SettleBurn | services/api/internal/services/spend_service.go:87-115 | rollback without a hash, record of an unknown or successful burn |
| Backend.Service.SettleVoucher | services/api/internal/services/spend_service.go:117-152 | the answer and the record follow what Tachiya answered: voucher and redeemed, or compensation-needed; redeemed without a client |
| Runs.Interleaved | services/api/internal/services/claim_service.go:140-237 | while other calls take any steps the invariant holds and a call's own record stays as it is |
| RateLimit.RateLimiter.Allow | services/api/internal/middleware/rate_limit.go:66-85 | answer and table after one request |
| RateLimit.RateLimiter.CleanupLocked | services/api/internal/middleware/rate_limit.go:95-104 | below the threshold nothing, from it on exactly the entries whose window is over are deleted |
| RateLimit.WindowBound | services/api/internal/middleware/rate_limit.go:66-85 | the stored count is the number admitted in the open window and at most the limit, under the same condition |
| RateLimit.BoundIsReached | services/api/internal/middleware/rate_limit.go:66-85 | for every limit, one less than twice the limit does get in |
| RateLimit.SecondsCover | services/api/internal/middleware/rate_limit.go:87-93 | the header is the least whole number of seconds, at least one, that covers the wait |
| Wallet.RefusedIsViolation | services/api/cmd/loader/main.go:74-79 | the index refuses a written row exactly when the row would give a user two active wallets or an address two users |
| Wallet.SecondLinkRefused | services/api/internal/services/user_service.go:183-207 | of two racing links of one user to different addresses the second is refused by the index |
| Wallet.SecondOwnerRefused | services/api/internal/services/user_service.go:183-207 | of two racing links of two users to one address the second is refused by the index |
| Wallet.UndisturbedLinkSucceeds | services/api/internal/services/user_service.go:160-208 | without interference the count alone decides, and the index never refuses |
| Wallet.SecondRotationFails | services/api/internal/services/auth_service.go:210-217 | of two requests that read the same token the second finds no row to delete and issues nothing |
| Wallet.RotationKeepsSessions | services/api/internal/services/auth_service.go:195-222 | a rotation replaces one token by one of the same user and touches no other |
| Wallet.LoginToken | services/api/internal/services/auth_service.go:575-613 | the token is for the owner found, else for the one who took the address since, else for a new user; no other token changes |
| Wallet.NewOwnersWallet | services/api/internal/services/auth_service.go:645-663 | a login that found no owner ends with the address as the wallet of the token's user, also when the index refused its row |
| Wallet.LoginKeepsWallets | services/api/internal/services/auth_service.go:384-401 | a login leaves every existing user's wallet |
| Wallet.UnlinkRemoves | services/api/internal/services/auth_service.go:408-431 | after an unlink the user has no wallet and everybody else's stays |
| AccountService.Accounts.LinkWallet | services/api/internal/services/user_service.go:119-214 | the request is a run of the wallet machine whatever commits between its statements; a success makes the address the user's wallet and uses the nonce; an expired, foreign or unknown nonce and a bad signature are refused; any other failure had its cause at some moment of the request |
| AccountService.Accounts.CountLink | services/api/internal/services/user_service.go:151-169 | the nonce is deleted or the request ends, and another owner of the address ends it too |
| AccountService.Accounts.ClearLink | services/api/internal/services/user_service.go:171-176 | exactly the active rows of the user that are committed at this point are marked |
| AccountService.Accounts.WriteLink | services/api/internal/services/user_service.go:178-209 | the row is revived or created, or the index refuses it and everything is undone |
| AccountService.Accounts.Web3Verify | services/api/internal/services/auth_service.go:352-402 | the request is a run of the wallet machine; a success uses the nonce and issues a token for a user to whom the address is linked at some moment of the request; an expired, foreign or unknown nonce and a bad signature are refused; any other failure had its cause at some moment of the request |
| AccountService.Accounts.LookLogin | services/api/internal/services/auth_service.go:385-391 | the nonce is deleted or the request ends; the owner committed at this point is found |
| AccountService.Accounts.WriteLogin | services/api/internal/services/auth_service.go:560-613 | token and, if needed, user and row, or the owner whose row is in the way |
| AccountService.Accounts.Refresh | services/api/internal/services/auth_service.go:188-233 | the request is a run of the wallet machine; a success uses the presented live token and issues one for the same user, whatever runs between read and delete; an expired one is only deleted; a live one fails only if it was gone at the delete or its user is not registered |
| AccountService.Accounts.Rotate | services/api/internal/services/auth_service.go:210-221 | the affected rows of the delete decide whether a new token is issued |
| AccountService.Accounts.Web3Nonce | services/api/internal/services/auth_service.go:315-340 | the nonces of the address that the delete saw are gone and the new one is live |
| AccountService.Accounts.ResolveWalletAddress | services/api/internal/services/claim_service.go:624-639 | the oldest active row of the user, if there is one |

## Left out

- AirdropInt64.ExactCondition: says nothing when the total of the seconds itself does not fit int64, and compares whole rows; shares alone can come out right although a product wrapped when the total is close to 2^63.
- AirdropService.ActiveViewers: returns any viewers in the order of the query that meet the assumptions above; which sessions are fresh is not captured.
- Backend.Service.Others: stands for the concurrent calls by its contract alone (any run of their steps).
- AccountService.Accounts.Others: stands for the concurrent requests by its contract alone (any run of their steps).
- Payout.MintsToWallet: ties claims to the wallet rows in the machine; the methods of `Backend.Service` still take the resolved wallet as an argument. The wallet a burn is sent from is not modelled.
- Tables.Database.RollbackClaimReservation: the claim items are part of the claim row and vanish with it; foreign keys are not modelled.
- int64 arithmetic is modelled in the airdrop split and its guard; ledger sums, balances and claim amounts are unbounded integers.
- `BalanceAfter` of a log row: a rollback deletes rows without rewriting later ones, so it is not a running balance; the sum of deltas is proved instead.
- Notes, SKUs on rows, error messages, timestamps other than the time of a log row and a ledger's creation time.
- Ethereum RPC, ABI packing, gas, signing, signature and JWT verification: only what a returned hash and error mean is modelled.
- `ChannelConfig` updates: the limit of a channel is fixed over a run.
- Watch sessions, heartbeat rewards, raffles, refresh of watch statistics: heartbeat and click points are plain credits here.
- Email, Google and Twitch sign-in beyond "a user or a token is created"; logout and the removal of expired tokens or nonces are plain deletions; a wait for a held nonce that is cut short is an error like any other.
- "At least one login method after unlink": unlinking is only a step that removes rows.
- Handlers, routing, logging, mailers, configuration, address book, listings and the user interfaces: input, output or easy members.
