# Coins, keys, rooms and ranges: a verified model

A Dafny model of the parts of this API that hold protocol, state-machine or arithmetic logic, with
proofs of what they guarantee. `dafny verify dfyconfig.toml` checks everything.

## What is modelled

**Coins** (`src/coins`, `src/creator`, `src/admin`). The wallet, ledger, purchase and unlock tables are
one value, `CoinLedger.Db`. `applyDeltaTx` and the transactions built on it are functions on that
value that either return the new tables or the error that aborts the transaction; a transaction is one
atomic step, as the serializable transactions of the source are. `CoinSystem` puts them into a state
machine in which any number of unlock calls (a read, later a commit), store notifications, admin
adjustments and payout attempts (a read, another read, the debit, the transfer, the mark or the
compensation, each its own step) interleave and crash in any way. `CoinGuarantees`, `CoinPayout` and
`PayoutMoney` prove what holds of every run, `PayoutRecovery` and `PayoutConditions` what one
uninterrupted call achieves, `PayoutRace` what a lost request does to another call, and `PayoutRuns` holds
concrete runs. `CoinServices` has the class whose
methods update the tables in place, as the services do; each is proved against the functions above.
`IdempotencyKeys` justifies structured keys: no two operations share a key string. `CoinPricing` and
`MediaPricing` hold the price, share and cash arithmetic, up to the loop that aggregates a post's videos.

**Keys and messages** (`src/device`, `src/chat`). `DeviceKeys` is the pool of one-time and fallback keys
with each service call one step; `KeyHandout` takes the same operations apart (an upload reads, then
inserts; a claim lists devices, then takes a key) to find out when a key can be handed out twice;
`KeyHandoutRuns` holds concrete runs.
`ChatFanout` is the check that a message is addressed to exactly the right devices, with its mutable map
and set, and the acknowledgement of envelopes. `RateLimit` is the limiter of the socket gateway.

**Watch-together** (`src/watch-together`). `WatchTogether` holds the sessions, participants and messages
and the service as a class; `WatchGuarantees` proves what holds after every run of calls.

**Media access and feed** (`src/coins/stream-monetization.service.ts`, `src/file/range-bytes.ts`,
`src/post`). `StreamPaywall` compares the two directions of the question "is this media locked",
`RangeBytes` is the parser of byte ranges (section 2.1 of RFC 7233) with the printer of the range sent to
the object store, and `FeedRanking` is the ranked feed with its pages.

## What the proofs found

- **The rate limiter's sliding bound is 2L - 1, not 2L**, and 2L - 1 is reached for every limit and window
  except a window of one millisecond with a limit above one (`RateLimit.SlidingBound`,
  `RateLimit.BoundIsMetExactlyWhen`).
- **A one-time key is handed out once between two deletions of the device's keys, and a revocation is
  such a deletion.** Between two *registrations* alone this is false: an upload that looked up existing
  ids before a hand-out may insert after a revocation, and a claim that had listed the device takes the
  same key again (`KeyHandoutRuns.OvertakenUploadRepeats`). The guard is whether the device is revoked
  when the insert runs: without such an insert the claim holds (`KeyHandout.HandedOnceBetweenRegistrations`).
  `KeyHandout.RepeatExactlyWhenStale` says exactly which inserts make a repeat possible; they are among
  those (`KeyHandout.StaleOnlyAfterRevocation`), and since the rows that would tell them apart are gone, no
  test of the tables can be exact (`KeyHandoutRuns.TablesCannotTell`).
- **A payout is safe under three assumptions about its environment** (`PayoutMoney.PayoutSafety`): every
  failure that the code sees is a decline that Stripe recorded under the key, the metadata write does not
  raise into the `catch`, and the key of a recorded transfer is not used for another request, which Stripe
  answers with an error. What happens without them is exact in two situations. One uninterrupted call after
  a faithful run ends with both a transfer and a compensation exactly when it reaches Stripe, the transfer
  exists, and the reply is lost, the write raises or the requests differ
  (`PayoutConditions.TransferAndRollbackExactlyWhen`; the runs are `PayoutRuns.LostReplyPaysTwice` and
  `PayoutRuns.ChangedAmountPaysTwice`). And a request that is lost *without* being executed, so that there
  is no transfer when the call compensates, can still be followed by a transfer exactly when another call of
  the pair has passed its two reads (`PayoutRace.LostRequestExactlyWhen`, `PayoutRuns.LostRequestPaysTwice`):
  an unrecorded failure does not bind the other call.
- **Reusing a key with another number of coins decides the cash sent and the coins given back.** A retry
  finds the debit row, does not debit again, and asks Stripe for the cash value of its own coins. Coins and
  cash come out even in every faithful run in which a call asks Stripe only when the debit row took its
  number of coins (`PayoutMoney.PayoutNetEffect`, `PayoutMoney.CashIsWhatTheWalletLost`), which the code
  could test on the row it has read, and a single call leaves them even if and only if it is such a call
  (`PayoutConditions.SquaredExactlyWhen`, by branch `PayoutConditions.RestoredExactlyWhen` and
  `PayoutConditions.CashExactlyWhen`). In `PayoutRuns.ChangedAmountSendsOtherCash` 80 cents are sent for
  coins worth 50. An ok answer reports the cash that was sent, but the caller's own number of coins: they
  are what the wallet lost exactly when the debit row took that number
  (`PayoutMoney.AnswerTellsTheLossExactlyWhen`, `PayoutRuns.ChangedAmountIsReported`).
- **The two paywall answers differ for a signed-in viewer exactly on a locked file that is either the
  viewer's own or deleted, but not both, and for a visitor exactly on a playable file that a post for sale
  names** (`StreamPaywall.AgreeUnlessDisputed`).
- **The fan-out check compares joined strings**, so it is exact on every list for exactly the rooms whose
  joined destinations are pairwise distinct (`ChatFanout.ExactRooms`); ids without a colon, which UUIDs
  are, make such a room (`ChatFanout.FanoutIsExact`).
- **A reversed payout is final.** After a compensation every new call with the key is answered "reversed",
  in whatever interleaving (`PayoutMoney.ReversedAnswersForever`), and the branch that reports a key
  conflict is never taken (`PayoutMoney.NoKeyConflict`).

## Model

| member | source | states |
|---|---|---|
| IdempotencyKeys.RenderInjective | src/coins/coin-unlock.service.ts:75-84 | no two operations of unlocks, purchases, payouts, Stripe transfers and adjustments ever share an idempotency-key string, whatever the client keys and store references are |
| IdempotencyKeys.RenderMeans | src/creator/creator-payout.service.ts:129-131 | the nine key templates, in full |
| IdempotencyKeys.JoinCollides | src/creator/creator-payout.service.ts:129-130 | exactly when two different user ids that may hold colons allow client keys that collide |
| CoinLedger.ColumnFindsOperation | src/coins/coin-wallet.service.ts:29-34 | looking up the unique string column finds the operation itself |
| CoinLedger.ApplyDeltaKeepsLedger | src/coins/coin-wallet.service.ts:21-67 | a call keeps every wallet equal to the sum of its entries and non-negative, keys unique, running balances right, and moves the sum of all balances by its amount; a duplicate changes nothing |
| CoinLedger.ApplyDeltaSucceedsIff | src/coins/coin-wallet.service.ts:29-52 | it succeeds if and only if the key is known or the wallet's entries plus the amount stay at zero or above |
| CoinLedger.ReplayIsNoop | src/coins/coin-wallet.service.ts:29-34 | replaying a committed key on any later tables, with any user, amount and type, changes nothing and returns the original balance |
| CoinOperations.PurchaseTxOutcome | src/coins/coin-purchase.service.ts:226-258 | under the invariant a purchase transaction either finds the row and changes nothing, or adds exactly the row and the credit |
| CoinOperations.PurchasedIs | src/coins/coin-purchase.service.ts:239-257 | in full what a new notification writes: the completed row, the entry of its provider's kind, the wallet |
| CoinOperations.AdjustTxOutcome | src/admin/admin-coins.controller.ts:170-182 | a known key changes nothing; a new one fails exactly when it would overdraw, and else books its signed amount on this wallet only |
| CoinOperations.UnlockTxOutcome | src/coins/coin-unlock.service.ts:69-102 | under the invariant an unlock transaction commits charge, share and row together exactly when the viewer can pay and has no row |
| CoinOperations.UnlockedIs | src/coins/coin-unlock.service.ts:69-102 | in full what an unlock writes: the viewer's debit, the creator's 70% floor, the row with the platform's rest |
| CoinSystem.CallOpensExactlyWhen | src/coins/coin-unlock.service.ts:20-64 | a call reaches its transaction if and only if the post is published, monetized, somebody else's, has a positive price and is not unlocked, and it carries the price it read |
| CoinOperations.PayoutDebitTxOutcome | src/creator/creator-payout.service.ts:164-180 | the debit takes the coins once, as a PAYOUT entry, exactly when the wallet has them |
| CoinOperations.PayoutRollbackTxOutcome | src/creator/creator-payout.service.ts:219-231 | the compensation gives them back once, as an ADJUSTMENT entry, and never fails |
| CoinGuarantees.TablesAlways | src/coins/coin-wallet.service.ts:69-87 | every interleaving of transactions, from the empty tables, keeps the table invariant |
| CoinSystem.RunGrows | src/coins/coin-wallet.service.ts:54-66 | the ledger is append-only over every run |
| CoinGuarantees.CoinsAreConserved | src/coins/coin-unlock.service.ts:64-102 | in every reachable state balances plus platform fees equal purchases plus ADJUSTMENT plus PAYOUT entries |
| CoinGuarantees.LedgerAccountsForWallets | src/coins/coin-wallet.service.ts:21-67 | in every reachable state a balance is non-negative and the sum of its entries, and each entry's recorded balance is the prefix sum at its position |
| CoinGuarantees.CommittedOnce | src/coins/coin-wallet.service.ts:29-34 | an entry committed in some run is never repeated by a later call with its key, after any further steps |
| CoinGuarantees.OneChargePerViewerAndPost | src/coins/coin-unlock.service.ts:48-102 | at most one charge per viewer and post; unlock rows and charges pair off, with one creator share of the 70% floor each, never to the payer |
| CoinGuarantees.UnlockCommitsExactlyWhen | src/coins/coin-unlock.service.ts:48-102 | an open call commits if and only if the viewer can pay and nobody unlocked meanwhile, although that was checked before the transaction; a loser leaves no trace |
| CoinGuarantees.PlatformKeepsThirtyPercent | src/coins/coin-pricing.service.ts:112-118 | over every run 3 * paid <= 10 * kept, and < 3 * paid + 10 * n for n >= 1 unlocks |
| CoinGuarantees.OneCreditPerPurchase | src/coins/coin-purchase.service.ts:213-258 | purchase rows and purchase credits correspond one to one with equal amounts and wallets |
| CoinGuarantees.RedeliveryIsNoop | src/coins/coin-purchase.service.ts:213-224 | a notification for a known transaction changes nothing, whoever it names |
| CoinPayout.RunKeepsSaga | src/creator/creator-payout.service.ts:129-239 | per user and key: Stripe only after the debit, compensation only after a decline, the mark only with the recorded transfer, in every faithful run |
| PayoutMoney.PayoutSafety | src/creator/creator-payout.service.ts:129-239 | in every faithful run (a failure seen is a decline recorded by Stripe, the metadata write does not raise, the key of a transfer is not reused for another request), with any interleaving, retries and crashes: at most one debit and one compensation; a transfer implies a debit and excludes a compensation; an ok answer has its transfer |
| PayoutMoney.PayoutNetEffect | src/creator/creator-payout.service.ts:129-239 | in every faithful run in which a call asks Stripe only for the coins of the debit row: the net wallet effect is 0 or minus those coins, and minus the coins of the recorded request whenever there is a transfer |
| PayoutMoney.CashIsWhatTheWalletLost | src/creator/creator-payout.service.ts:52-72 | with one conversion rate the cash sent is then the conversion of what the wallet lost |
| PayoutMoney.AnswerTellsTheLossExactlyWhen | src/creator/creator-payout.service.ts:141-152 | in every faithful run an ok answer reports the cash that was sent, and the coins it reports are what the wallet lost if and only if the debit row took the caller's number |
| PayoutMoney.AgreedIsGuarded | src/creator/creator-payout.service.ts:164-194 | callers that never change the amount of a key keep every call within that guard |
| PayoutMoney.AgreedNetEffect | src/creator/creator-payout.service.ts:129-239 | in every faithful run of such callers the net wallet effect is 0 or minus the agreed coins, and minus the agreed coins whenever there is a transfer |
| PayoutMoney.NoKeyConflict | src/creator/creator-payout.service.ts:137-139 | the key-conflict branch is unreachable |
| PayoutMoney.ReversedForGood | src/creator/creator-payout.service.ts:150-158 | a compensated pair never reaches a transfer again, after any further steps |
| PayoutMoney.ReversedAnswersForever | src/creator/creator-payout.service.ts:155-162 | every call started after the compensation is answered reversed, has not got that far, or crashed, in any interleaving |
| PayoutRecovery.Recovery | src/creator/creator-payout.service.ts:133-239 | from every reachable state one uninterrupted call whose ledger writes commit, and that does not reuse the key of a transfer for another request, ends with the transfer marked, the balance restored, or no debit, and its answer says which |
| PayoutRecovery.RecoveryMoney | src/creator/creator-payout.service.ts:133-239 | after that call, made within the guard, the wallet is down by the coins if it answered ok and untouched otherwise, all earlier calls included |
| PayoutConditions.TransferAndRollbackExactlyWhen | src/creator/creator-payout.service.ts:182-238 | one uninterrupted call after a faithful run ends with both transfer and compensation if and only if it reaches Stripe, the transfer exists, and the reply is lost, the metadata write raises, or the transfer was recorded for another request |
| PayoutRace.LostRequestExactlyWhen | src/creator/creator-payout.service.ts:150-238 | after a faithful run a request is lost unexecuted and the call compensates: some faithful continuation also transfers if and only if another attempt of the pair is at its debit or its transfer |
| PayoutConditions.SquaredExactlyWhen | src/creator/creator-payout.service.ts:164-239 | after every faithful run, a call that reaches Stripe, whose writes commit and whose reply arrives, and whose key has no transfer for another request, leaves the coins lost and the coins requested even if and only if the debit row it meets, if any, took as many coins as it asks for |
| PayoutConditions.RestoredExactlyWhen | src/creator/creator-payout.service.ts:214-231 | a retry that is declined now, or whose decline was recorded earlier, gives back its own coins: the balance is restored if and only if that is what was debited |
| PayoutConditions.CashExactlyWhen | src/creator/creator-payout.service.ts:164-194 | an accepted retry sends its own cash value for the coins debited earlier: the cash fits if and only if both numbers convert to the same cash |
| PayoutConditions.ReversedAnswer | src/creator/creator-payout.service.ts:155-162 | a call after the compensation is answered reversed and changes nothing |
| PayoutConditions.DuplicateExactlyWhenMarked | src/creator/creator-payout.service.ts:141-153 | a call answers as a duplicate if and only if the debit row is marked; it then repeats transfer and cash of the mark and changes nothing |
| PayoutRuns.LostReplyPaysTwice | src/creator/creator-payout.service.ts:214-238 | concrete runs for a lost reply and for a raising metadata write |
| PayoutRuns.LostRequestPaysTwice | src/creator/creator-payout.service.ts:150-238 | a concrete run of two calls in which the first one's request is lost, it compensates, and Stripe then accepts the second one's |
| PayoutRuns.ChangedAmountPaysTwice | src/creator/creator-payout.service.ts:183-231 | a concrete run in which a changed amount under the key of an unmarked transfer gives the coins back as well |
| PayoutRuns.ChangedAmountSendsOtherCash | src/creator/creator-payout.service.ts:164-194 | a concrete run in which 80 cents are sent for coins worth 50 |
| PayoutRuns.ChangedAmountIsReported | src/creator/creator-payout.service.ts:141-152 | a concrete retry of a marked payout that answers 8000 coins for a debit of 5000 |
| PayoutRuns.ChangedAmountIsNotRestored | src/creator/creator-payout.service.ts:214-231 | a concrete run in which a declined retry with a changed amount leaves the wallet ahead |
| PayoutRecovery.RetryIsDrive | src/creator/creator-payout.service.ts:129-239 | a whole call as events of the state machine equals the call as one function |
| CoinServices.CoinApi.GetBalanceMinor | src/coins/coin-wallet.service.ts:9-14 | the balance read is the sum of the user's ledger entries |
| CoinServices.CoinApi.ApplyDeltaTx | src/coins/coin-wallet.service.ts:21-67 | the in-place version: new tables and answer are those of the specification, a failed call adds no entry |
| CoinServices.CoinApi.UnlockPost | src/coins/coin-unlock.service.ts:20-112 | exactly when each answer is given, in the order of the checks; only a charged call changes the tables, and then by exactly the viewer's debit, the creator's 70% floor and the unlock row |
| CoinServices.CoinApi.CreditPurchase | src/coins/coin-purchase.service.ts:226-258 | a known transaction changes nothing; a new one writes its completed row, one entry of its provider's kind and the wallet together, or nothing |
| CoinServices.CoinApi.AdjustBalance | src/admin/admin-coins.controller.ts:166-183 | a known key changes nothing; a new one is refused exactly when it would overdraw (or the database gives up), and else books its signed amount on this wallet only and reports the new balance |
| CoinServices.CoinApi.RequestPayout | src/creator/creator-payout.service.ts:74-241 | exactly when a request is let through and exactly when each refusal is given, in the order of the checks; a refusal changes nothing, any other request equals the steps of one attempt for the coins, their converted cash and the account |
| CoinServices.CoinApi.Saga | src/creator/creator-payout.service.ts:129-180 | the reads and the debit, in place |
| CoinServices.CoinApi.TransferOrCompensate | src/creator/creator-payout.service.ts:182-239 | transfer, mark and compensation, in place |
| CoinPricing.CostIsNearest | src/coins/coin-pricing.service.ts:11-110 | with the multipliers written out: a price exists exactly for a positive duration, a category and an exact cost of half a unit or more, and lies within half a unit of that cost; which refusal is given otherwise |
| CoinPricing.CostMonotone | src/coins/coin-pricing.service.ts:90-110 | a priced post stays priced and never gets cheaper when duration, quality or rate rise |
| CoinPricing.SharesAreSeventyThirty | src/coins/coin-pricing.service.ts:112-119 | the creator's part is 70% rounded down and both parts make up the whole |
| CoinPricing.CentsAreTheFloor | src/creator/creator-payout.service.ts:71-71 | the cash value is the exact conversion rounded down |
| CoinPricing.SplittingNeverGains | src/creator/creator-payout.service.ts:52-72 | paying out in parts never yields more cents, and loses less than one per part |
| MediaPricing.AggregateVideoMonetizationInputs | src/file/file.service.ts:475-569 | the loop computes the sum of durations and the best quality of the set of matched files, so URL order and repeats do not matter |
| MediaPricing.MatchingMeans | src/file/file.service.ts:482-517 | in full which undeleted video files the URLs match: by URL, by path, or by name among the author's own |
| MediaPricing.FileContributes | src/file/file.service.ts:536-559 | in full what a file contributes: stored or probed measures, positive durations, quality by the longer side |
| MediaPricing.AggregateUnique | src/file/file.service.ts:482-569 | the set of files decides the aggregate |
| MediaPricing.PostTable.SyncMonetizationPricing | src/post/post.service.ts:494-590 | in place: only this post's pricing columns change, to the price of the aggregate of its media files, or to nothing, or not at all when no price can be computed |
| MediaPricing.SyncPricingMeans | src/post/post.service.ts:509-589 | in full what the sync does to a row in each of its branches, the switched-off one included |
| MediaPricing.MoreVideosNeverCheaper | src/post/post.service.ts:553-589 | the stored price never falls when the set of matched files grows |
| MediaPricing.AddingMediaNeverCheaper | src/post/post.service.ts:553-589 | adding media URLs to a priced post leaves it priced, and no lower |
| MediaPricing.QuoteReproducesPrice | src/coins/coin-unlock.service.ts:126-176 | right after pricing the quote recomputes the stored price, and a price is stored exactly for a monetized, categorised post with measurable media |
| DeviceKeys.KeyServer.Register | src/device/device.service.ts:79-160 | register replaces all key rows or changes nothing, and keeps the pool invariant |
| DeviceKeys.RegisteredMeans | src/device/device.service.ts:79-160 | each refusal exactly, in order (signature, somebody else's identity key, repeated ids), and the keys left after a success |
| DeviceKeys.KeyServer.UploadOneTimeKeys | src/device/device.service.ts:207-304 | adds the unknown ids, swaps the fallback, reports both counts truthfully, keeps the pool invariant |
| DeviceKeys.UploadedMeans | src/device/device.service.ts:207-292 | each refusal exactly, in order, and after a success the old keys, then the sent ones with unknown ids, and the fallback rotated |
| DeviceKeys.UploadedViolates | src/device/device.service.ts:250-274 | after the checks an upload fails exactly for a new id sent twice or a known fallback id |
| DeviceKeys.KeyServer.RevokeDevice | src/device/device.service.ts:175-194 | revoking empties the pool, twice is once |
| DeviceKeys.KeyServer.ClaimKeys | src/device/device.service.ts:339-404 | exactly one bundle per active device of the user, with id and public key of its oldest unclaimed key, which alone is marked, or of its newest active fallback exactly when none is left; every other device untouched |
| DeviceKeys.ClaimedMeans | src/device/device.service.ts:373-431 | a claim hands out id and public key of the oldest unclaimed row and marks only that row, or of the newest fallback that is not retired and changes nothing |
| DeviceKeys.ClaimAlwaysServes | src/device/device.service.ts:373-401 | a claim on an active device always yields a key, uses up one key or falls back exactly when none is left |
| DeviceKeys.PoolsAlways | src/device/device.service.ts:105-156 | after any calls every active device has one active fallback key and at most 200 unclaimed keys with distinct ids |
| DeviceKeys.EveryClaimServes | src/device/device.service.ts:339-404 | hence after any calls every claim serves every active device |
| KeyHandout.HandedOnceBetweenDeletions | src/device/device.service.ts:410-431 | over every interleaving two hand-outs of a key have a registration or revocation between them |
| KeyHandout.ReadsMean | src/device/device.service.ts:211-262 | what an upload and a claim read: unknown ids, and active devices only |
| KeyHandout.HandedOnceBetweenRegistrations | src/device/device.service.ts:250-274 | as long as no upload inserts into a revoked device, they have a registration between them |
| KeyHandout.StaleOnlyAfterRevocation | src/device/device.service.ts:250-274 | an upload that brings back an id read before a revocation of the device and inserts after it, with no registration since the hand-out, and the device is revoked |
| KeyHandout.RepeatExactlyWhenStale | src/device/device.service.ts:263-274 | an upload makes a repeat possible if and only if it brings back such an id while a claim on that device is unfinished |
| KeyHandoutRuns.OvertakenUploadRepeats | src/device/device.service.ts:185-192 | a concrete run in which a key is handed out twice after one registration |
| KeyHandoutRuns.TablesCannotTell | src/device/device.service.ts:250-274 | two runs that end with the same tables, one before a repeat and one not, so no test of the tables is exact |
| ChatFanout.BuildExpected | src/chat/chat.service.ts:149-158 | the first loop builds the required set of destinations |
| ChatFanout.WalkEnvelopes | src/chat/chat.service.ts:162-197 | the deleting loop's answer is explained: exact acceptance, the first repeat or unexpected envelope, or precisely the missing destinations |
| ChatFanout.AssertFanoutMatchesRoom | src/chat/chat.service.ts:138-198 | accepts if and only if the keys are distinct and the destinations are all active devices of all participants minus the authoring one |
| ChatFanout.AcceptsMeans | src/chat/chat.service.ts:147-184 | acceptance in full: no two envelopes with the same joined destination, and envelopes for exactly the active devices of the participants but the authoring one |
| ChatFanout.ExactRooms | src/chat/chat.service.ts:162-170 | the check is exact on every list for exactly the rooms whose joined destinations are pairwise distinct |
| ChatFanout.FanoutIsExact | src/chat/chat.service.ts:162-170 | participants whose ids hold no colon make such a room, so acceptance means duplicate-free and equal as sets |
| ChatFanout.OrderDoesNotMatter | src/chat/chat.service.ts:138-198 | a permutation of a list is accepted if and only if the list is |
| ChatFanout.ColonsBreakTheCheck | src/chat/chat.service.ts:163-170 | a concrete complete list that is turned away when ids hold colons |
| ChatFanout.Mailbox.AckEnvelopes | src/chat/chat.service.ts:204-220 | an empty request is answered at once, a device that is not the caller's or not active is refused, else exactly the named undelivered envelopes of the device are marked and counted |
| ChatFanout.AckTwice | src/chat/chat.service.ts:204-220 | acknowledging again marks nothing |
| RateLimit.Limiter.ConsumeRateLimit | src/chat/chat.gateway.ts:60-77 | accepts exactly when there is no live bucket or it is not full; the bucket afterwards; all others untouched |
| RateLimit.SlidingBound | src/chat/chat.gateway.ts:60-77 | any calls with limits up to L and window W: at most 2L - 1 accepted in every interval of length W, also for handlers that share a bucket with different limits |
| RateLimit.BoundIsTight | src/chat/chat.gateway.ts:60-77 | for every limit and every window of at least two milliseconds this run reaches 2L - 1 |
| RateLimit.BoundIsMetExactlyWhen | src/chat/chat.gateway.ts:60-77 | some run reaches 2L - 1 if and only if the window has at least two milliseconds or the limit is one |
| RateLimit.UsersAreIndependent | src/chat/chat.gateway.ts:530-555 | in a shared store a user's bucket depends on that user's calls alone |
| WatchTogether.WatchService.CreateSession | src/watch-together/watch-together.service.ts:139-161 | in place: the host gets an approved row, or nothing changes |
| WatchTogether.CanWatchMeans | src/watch-together/watch-together.service.ts:115-137 | each refusal of access exactly, in order: no post, no video, monetized by somebody else and not unlocked |
| WatchTogether.LiveMeans | src/watch-together/watch-together.service.ts:163-185 | which sessions are live and who counts as a participant |
| WatchTogether.CreateMeans | src/watch-together/watch-together.service.ts:139-161 | in full: six hours to live, the host approved |
| WatchTogether.WatchService.RegisterParticipant | src/watch-together/watch-together.service.ts:190-243 | in place: the join rules and what is reported |
| WatchTogether.RegisterMeans | src/watch-together/watch-together.service.ts:190-243 | in full: what becomes of the row and what is reported in each case |
| WatchTogether.WatchService.GetSessionForUser | src/watch-together/watch-together.service.ts:281-316 | in place: the joining read and what a pending viewer may see |
| WatchTogether.GetSessionMeans | src/watch-together/watch-together.service.ts:281-316 | only a caller who is not the host and has no row is registered |
| WatchTogether.ShownMeans | src/watch-together/watch-together.service.ts:245-316 | in full what each kind of viewer is shown |
| WatchTogether.WatchService.DecideParticipant | src/watch-together/watch-together.service.ts:357-427 | succeeds if and only if the session's host decides on somebody else's pending row, which then is approved on acceptance and rejected on refusal, with the act recorded; nothing else changes, and each refusal exactly |
| WatchTogether.WatchService.AppendChatMessage | src/watch-together/watch-together.service.ts:429-451 | in place: a trimmed, non-empty body by an approved participant is appended |
| WatchTogether.AppendMeans | src/watch-together/watch-together.service.ts:429-451 | in full: an empty text is refused first, then a caller who is not in, else the text is appended |
| WatchTogether.BodyMeans | src/watch-together/watch-together.service.ts:434-437 | what is stored of a text: its first 2000 characters after trimming |
| Text.TrimMeans | src/watch-together/watch-together.service.ts:434-434 | trimming takes away white space at both ends, and all of it |
| WatchTogether.WatchService.ListChatHistory | src/watch-together/watch-together.service.ts:453-473 | exactly the last min(limit, count) messages, in order, the limit clamped to 1..200 |
| WatchTogether.WatchService.UpdatePlaybackState | src/watch-together/watch-together.service.ts:521-567 | in place: needs an approved row, even of the host |
| WatchTogether.PlaybackMeans | src/watch-together/watch-together.service.ts:521-567 | in full: who may, and that a negative or non-finite position counts as zero |
| WatchTogether.WatchService.LeaveSession | src/watch-together/watch-together.service.ts:504-519 | in place: a leaving host ends the session |
| WatchTogether.WatchService.EndSession | src/watch-together/watch-together.service.ts:620-642 | in place: ends once, later calls change nothing |
| WatchTogether.EndMeans | src/watch-together/watch-together.service.ts:504-642 | in full: ending and leaving, for the host and for others |
| WatchTogether.WatchService.CleanupExpiredSessions | src/watch-together/watch-together.service.ts:645-666 | ends exactly the active sessions past expiry, in some order, each once, and counts them |
| WatchTogether.StaleMeans | src/watch-together/watch-together.service.ts:646-652 | which sessions the clean-up looks for |
| WatchGuarantees.RunKeeps | src/watch-together/watch-together.service.ts:190-243 | the invariant behind the next rows, over every run |
| WatchGuarantees.ApprovedExactlyByHost | src/watch-together/watch-together.service.ts:357-427 | with approval required a viewer's row is approved if and only if the host approved the viewer and since then the viewer has not left, asked again or been rejected |
| WatchGuarantees.ActsAreApproved | src/watch-together/watch-together.service.ts:475-567 | every message and playback change came from the host or from a viewer who was in at that moment: approved by the host where approval is required, entered elsewhere, and not gone since |
| WatchGuarantees.ApprovalsAreByTheHost | src/watch-together/watch-together.service.ts:357-391 | every approval was made by the session's host, never of the host |
| WatchGuarantees.ChatIsWhatWasSaid | src/watch-together/watch-together.service.ts:429-473 | until a session ends its messages are everything said in it, in order |
| WatchGuarantees.OnlyInLiveSessions | src/watch-together/watch-together.service.ts:163-185 | joins, requests, messages and playback changes happen only in sessions that are neither ended nor expired, by the caller |
| WatchGuarantees.JoiningNeedsAccess | src/watch-together/watch-together.service.ts:190-243 | a user without a row, or a rejected one, gets a row only by registering in person in a live session with access to the post's video |
| WatchGuarantees.NobodyWaits | src/watch-together/watch-together.service.ts:208-231 | without the flag no row is ever pending or rejected |
| WatchGuarantees.ChecksAgree | src/watch-together/watch-together.service.ts:475-551 | the host's row is always there and approved, so the host shortcut and the row check agree |
| WatchGuarantees.EndedIsFinal | src/watch-together/watch-together.service.ts:620-642 | ended is absorbing and ended sessions hold no messages |
| WatchGuarantees.EndedIsAnnouncedOnce | src/watch-together/watch-together.service.ts:620-666 | a session has ended if and only if its end was announced, and it is announced once, by host or by expiry |
| WatchGuarantees.NothingAfterTheEnd | src/watch-together/watch-together.service.ts:475-567 | nobody speaks or plays after the end |
| WatchGuarantees.CleanupEndsExactly | src/watch-together/watch-together.service.ts:645-666 | the clean-up touches the listed sessions and no other, and announces each once |
| StreamPaywall.ShouldBlockStreamForFile | src/coins/stream-monetization.service.ts:99-167 | the loop answers whether some post for sale by someone else and not unlocked names the file, for a playable file that is not the viewer's |
| StreamPaywall.LockingPostsMeans | src/coins/stream-monetization.service.ts:117-167 | in full which posts name a file, are for sale, and lock it for a viewer |
| StreamPaywall.GetMonetizedVideoFileIdsForPost | src/coins/stream-monetization.service.ts:24-63 | exactly the playable, undeleted files that the post or one of its blocks names |
| StreamPaywall.GetLockedVideoFileIdsForPostView | src/coins/stream-monetization.service.ts:172-195 | those files if the post is for sale, by someone else and not unlocked, else none |
| StreamPaywall.LockedFilesMeans | src/coins/stream-monetization.service.ts:24-63 | in full which files a post locks for a viewer |
| StreamPaywall.GetUnlockMapForUser | src/coins/stream-monetization.service.ts:65-82 | one truthful answer per post |
| StreamPaywall.AgreeUnlessDisputed | src/coins/stream-monetization.service.ts:99-195 | for every viewer, signed in or not: the two directions differ exactly on a locked file that is own or deleted but not both, and for a visitor exactly on a playable file that a post for sale names |
| StreamPaywall.PaywallAgreement | src/coins/stream-monetization.service.ts:99-195 | for signed-in viewers they agree on files of others that are not deleted |
| StreamPaywall.DeletedFileDisagrees | src/coins/stream-monetization.service.ts:52-61 | a concrete deleted file on which they differ |
| StreamPaywall.VisitorDisagrees | src/coins/stream-monetization.service.ts:110-183 | a concrete file whose stream is blocked for a visitor although no feed entry marks it |
| StreamPaywall.UnlockRemovesOnePost | src/coins/stream-monetization.service.ts:118-134 | unlocking removes exactly that post from the viewer's blocking set and changes nothing for others |
| RangeBytes.ParsesWhatIsDenoted | src/file/range-bytes.ts:14-38 | for a byte-range-spec of section 2.1 the parser returns a range if and only if some byte is selected, and then exactly the selected bytes |
| RangeBytes.OnlySpecsParse | src/file/range-bytes.ts:14-18 | nothing else is accepted |
| RangeBytes.HeaderMeans | src/file/range-bytes.ts:9-12 | of a padded header the unit in any case and the first range up to a comma, trimmed, are what is parsed |
| RangeBytes.NoHeaderNoRange | src/file/range-bytes.ts:9-11 | without a header, bytes or the unit there is no range |
| RangeBytes.ResultInFile | src/file/range-bytes.ts:5-39 | every result has 0 <= start <= end < fileSize |
| RangeBytes.SuffixForm | src/file/range-bytes.ts:20-26 | the suffix form gives the last min(n, size) bytes |
| RangeBytes.PrintParse | src/file/r2-storage.service.ts:148-157 | printing and parsing gives the same range, an over-long end clamped |
| RangeBytes.Normalizes | src/file/r2-storage.service.ts:148-157 | whatever header was parsed, the printed one parses to the same range |
| FeedRanking.OrderIsStrictAndTotal | src/post/post.service.ts:1291-1316 | the three-part order is irreflexive, transitive and total on distinct ids |
| FeedRanking.RankingIsUnique | src/post/post.service.ts:1285-1320 | the ranking is the only sorted list of exactly the published, undeleted posts, however the table is stored |
| FeedRanking.FeedHolds | src/post/post.service.ts:1287-1307 | the ranking holds exactly the published, undeleted posts; which posts count as videos |
| FeedRanking.FeedReadsAsPromised | src/post/post.service.ts:1291-1316 | in the ranking videos come before everything else, then root posts and replies whose interactions reach the threshold, then other replies, newest first within each |
| FeedRanking.InteractionsNeverSink | src/post/feed-ranking.config.ts:45-59 | a post that gains likes, comments or bookmarks stays ahead of whatever it was ahead of |
| FeedRanking.PageMeans | src/post/post.service.ts:1317-1318 | a page is the posts at the positions from skip on, at most take of them |
| FeedRanking.PagesAreTheFeed | src/post/post.service.ts:1317-1318 | consecutive pages concatenate to the whole ranking |
| FeedRanking.PagesAreDisjoint | src/post/post.service.ts:1317-1318 | pages that do not overlap in position share no post |
| FeedRanking.GetFeedPosts | src/post/post.service.ts:1285-1336 | whatever the order of the second query's rows, the page comes back in ranked order |
| FeedRanking.OrderIsRestored | src/post/post.service.ts:1331-1336 | the re-ordering loop undoes any permutation of a page |
| FeedRanking.MissingRowsAreDropped | src/post/post.service.ts:1331-1336 | rows gone by the second query are skipped and the others keep their order |

## Left out

- Foreign calls (Stripe, Apple, Google, the object store, ffmpeg and ffprobe, Ed25519, JWT, bcrypt): their outcomes are inputs. `Env.reply` is Stripe's answer to a key it has not seen, `signatureOk` the verdict on a key, `probe` what ffprobe reports, `nameOf` the last path segment of a URL.
- CoinPayout.RunKeepsSaga: holds for faithful runs; what happens when a failure is not a recorded decline, the metadata write raises or a key is reused for another request is in `PayoutConditions` and `PayoutRace`.
- PayoutMoney.PayoutNetEffect: holds for runs within the guard on the debit row; the source does not make that test, and what happens without it is in `PayoutConditions`.
- PayoutRecovery.Recovery: the retry's own ledger writes commit and nothing steps in between; how the runner retries a busy transaction is not modelled, a transaction that gives up is an abort.
- KeyHandout.HandedOnceBetweenRegistrations: the guard is sufficient and not necessary run by run; no test of the tables is, as `KeyHandoutRuns.TablesCannotTell` shows.
- Stripe as an oracle keeps its records forever and compares the whole request (coins, cash, account); the real retention period of idempotency keys is not part of this model.
- Integer columns are unbounded integers; a value that overflows its column aborts the transaction, which the model covers by `dbCommits = false`. `Math.round` and `Math.floor` act on exact integers and rationals.
- Ids are UUIDs and thus free of colons (the `Uuid` type); fresh ids are never repeated.
- Purchases are keyed as the code keys them: for Stripe by the event id, so exactly-once per checkout session is not claimed. Package lookup, receipt parsing and the webhook dispatch come before the modelled half.
- KeyHandout.RepeatExactlyWhenStale: fallback keys, the 200-key limit and signatures are left to `DeviceKeys`, since they do not affect which one-time key is handed out.
- DeviceKeys.PoolsAlways: every service call is one step; under finer interleaving two uploads can both pass the pool check, as the code checks and writes in separate statements.
- WatchGuarantees.EndedIsAnnouncedOnce: every service call is one step; the code finds, updates and announces in separate statements, so a host ending a session during a clean-up is not covered.
- WatchTogether.WatchService.ListChatHistory: messages are kept in order of creation, with creation times distinct; no message is ever soft-deleted by this code.
- Watch-together string lengths count characters, where the source counts UTF-16 code units.
- RateLimit.SlidingBound: needs a clock that does not run backwards, and one window for all handlers that share a store, as all of them have.
- RangeBytes.SuffixForm: a suffix length that `parseInt` rounds to infinity is rejected, as in the code; file sizes are below 2^53.
- FeedRanking.PagesAreTheFeed: for one state of the table; posts created between two requests shift the pages. The feed without the ranking flag, the like and bookmark flags and the mapping of authors are not part of this model. Ids are numbered in the order in which the database compares them.
- Reading environment variables into the ranking weights is not part of this model; the weights are any non-negative whole numbers.
- The row of a chat message and its envelopes that `create` writes after the fan-out check, push notifications, presence and the socket rooms.
- User, room and post editing, likes, bookmarks, roles, feature flags, uploads and transcoding would add only easy members.
