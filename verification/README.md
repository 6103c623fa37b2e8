# A verified model of a tokenised-asset exchange

The system is a spot exchange for tokenised assets. This project models the parts of it that move money or
decide who may claim it, and proves what those parts promise over every input and every run.

| files | what they model |
|---|---|
| `Common.dfy`, `Sums.dfy` | results, options, finite sums over sequences and maps |
| `Balances.dfy` | the balance table with its available and locked pockets, and the guarded primitives that change it |
| `Allocation.dfy`, `OrderBook.dfy` | what the matching loop takes from a sorted opposing book, and why nothing else does better |
| `Exchange.dfy` | the exchange as a step system: place an order, run a queued matching job, cancel, run a settlement tick |
| `ExchangeSafety.dfy`, `ExchangeSteps.dfy`, `Settlement.dfy` | what each step keeps, and exactly when it goes through |
| `ExchangeRuns.dfy`, `BestExecution.dfy` | safety over whole runs; orders that rest; what the owner of a matched order gets |
| `TradingRules.dfy` | placing, cancelling, failed jobs and the life of a trade, told in the fields of the stored rows |
| `LiveBook.dfy` | exactly when matching leaves live orders that cross, with no job to come |
| `ExchangeExamples.dfy` | runs from an opening state in which the exchange does what one would not expect |
| `UncoveredSettlement.dfy` | settlement when the locked pockets do not cover the trades |
| `ExchangeService.dfy` | the services themselves, with their loops and their tables as fields, proved to be those steps |
| `Merkle.dfy`, `Distributor.dfy` | the Merkle tree of a dividend distribution, its proofs, and the contract that pays claims |
| `Candles.dfy`, `MarketData.dfy` | candlesticks in the cache, in the database and in the ticker, all as one fold over the trades |
| `Snapshots.dfy`, `Dividends.dfy`, `Dao.dfy` | cursor-paged snapshots, dividend claims, governance votes |
| `ClaimChannels.dfy` | one dividend claimed in cash from the service and in tokens from the contract |
| `Liquidation.dfy` | the resumable payout of a liquidated asset, and what it does to locked funds |
| `DerSignature.dfy` | reading DER signatures of the key management service, and the low-s rule |

How to read it:

- A pure function says what an operation does to the tables (`Exchange.MatchOrder`, `Dividends.ClaimTaken`). The class
  method of the same operation runs the source's loops and guards and is proved equal to that function, and the lemmas
  prove what the function is worth.
- Amounts are exact reals. A product of a quantity and a price is written `Pay(quantity, price)`.
- A transaction that throws leaves the tables as they were. A matching job, a request, a cancellation and a cron tick
  are each one step; between them any other step may happen, so an order is visible and open before its own job runs.
- `Exchange.State.released`, the order ids on a `Trade`, `Dividends.Books.created` and `Distributor.Vault.paid` are the
  model's own notes. No operation reads them; they only let the theorems speak of what happened.
- `PlacingRules`, `JobRules` and `TradeHistory` (`TradingRules.dfy`), `DaoRules` (`Dao.dfy`) and `DividendRules`
  (`Dividends.dfy`) say what the operations do in stored fields and numbers, not in the terms of their definitions.
- `SettlementSafety` is the module of `Settlement.dfy`; `BulkCancellation` is in `ExchangeSteps.dfy` and `RestingOrders`
  in `ExchangeRuns.dfy`; `LiquidationSafety`, `LiquidationCoverage` and `LiquidationJob` are in `Liquidation.dfy`; `Hex`,
  `SignatureEncoding` and `AwsKmsSigner` are in `DerSignature.dfy`.
- Hashes are parameters. Soundness is stated of any hash: whoever gets something accepted that is not listed exhibits a
  forgery among the pairs that the tree and the proof hash (`Merkle.AcceptedOrForged`, `Distributor.Forged`). For an
  ideal hash there are none (`Distributor.IdealIsNeverForged`).

Where the code falls short of what one would expect, the exact condition is proved, and an input shows it failing:

| what fails | exact condition | an input that shows it |
|---|---|---|
| Changing the price of an open order leaves the locked cash behind | `ExchangeSteps.RepricingCoveredIff`: covered exactly for sales and unchanged prices | `ExchangeExamples.RepricedBuyIsUncovered` |
| A queued market sale carries price zero; the ledger's positive-amount guard aborts a buy that meets it | `JobRules.JobFailsIff`: a job fails exactly for an open buy that may trade with a sale at price zero | `ExchangeExamples.MarketSaleAbortsBuy` |
| The matching query selects only OPEN orders, so live orders may be left crossed | `LiveBook.TakerLeftCrossedIff`: a job leaves its own order crossed exactly when the eligible book is shallower than the order and a partly filled order crosses it; `LiveBook.JobStrandsIff`: it leaves any crossing with no job to come exactly when it strands its own order or takes part of one that another live order, not waiting for its job, crosses | `ExchangeExamples.PartlyFilledOrderCrosses` for the order itself, `ExchangeExamples.PartlyTakenOrderCrosses` for a resting one |
| A liquidation empties locked pockets that live orders and unsettled trades still claim | `LiquidationCoverage.PayoutCoveredIff`: covered exactly when no paid holder has such a claim | `ExchangeExamples.LiquidatedSaleIsUncovered` |
| A settlement group that is not covered fails half way, keeps the unlocks it made and is tried again | `UncoveredSettlement.UnlocksRunToEndIff`, `UncoveredSettlement.GroupSettlesIff`: it goes through exactly when every locked pocket has what all its unlocks take together | `UncoveredSettlement.OneUnitIsUnlockedTwice` |
| The service and the contract do not ask each other about a dividend claim | `ClaimChannels.WhatAUserGets`: an entitlement is met once at most exactly when the claim is not taken or the wallet is not marked | `ClaimChannels.BothChannelsPay`, for every open claim the contract can pay |
| Claims and treasury need not make up a distribution | `Dividends.ClaimsAndTreasuryMakeTotal`: they do exactly when holdings are within the supply or the total is nothing | `Dividends.HoldingsBeyondSupply` |
| Nothing ties what is paid into the contract to the entries | `Distributor.EntryCanBeClaimed`, `Distributor.EntriesStayClaimable`: a claim goes through exactly when the contract holds enough, and does when every distribution was funded in full | `Distributor.UnfundedIsUnclaimable` |
| The signature parser accepts more than DER | `SignatureEncoding.ParsesExactlyLayouts`, `SignatureEncoding.AcceptedIsDer` | `SignatureEncoding.TrailingOctetsAreAccepted` |

## Model

| member | source | states |
|---|---|---|
| Balances.TransferEffect | src/modules/balances/services/balances.service.ts:148-192 | Moving between a user's own pockets succeeds exactly when the source pocket covers a positive amount; then both pockets move by it, no pocket goes negative, nobody else is touched and every total stays |
| Balances.LockedChangeEffect | src/modules/balances/services/balances.service.ts:42-105 | A credit or debit of the locked pocket alone: exactly when it is refused, and that it moves that pocket and that total by the amount and nothing else |
| Balances.AvailableCreditEffect | src/modules/balances/services/balances.service.ts:42-105 | A default credit needs only a positive amount, and moves one available pocket and one total |
| Balances.ChangeEffect | src/modules/balances/services/balances.service.ts:18-109 | Any credit or debit of either or both pockets: a debit needs a row and enough in each pocket it uses, a credit only a positive amount; exactly the pockets used move, of that row alone |
| Balances.ChangeRefused | src/modules/balances/services/balances.service.ts:42-105 | Which guard refuses a change, the first that fails |
| Balances.TransferRefused | src/modules/balances/services/balances.service.ts:148-192 | Which guard refuses a transfer, the first that fails |
| Balances.BalancesService.UpdateBalance | src/modules/balances/services/balances.service.ts:18-109 | The stored table ends as the specification says, or unchanged with the right error |
| Balances.BalancesService.Transfer | src/modules/balances/services/balances.service.ts:148-192 | The stored table ends as the specification says, or unchanged with the right error |
| Allocation.AllocateWithin | src/modules/orders/services/order-matching.service.ts:171-211 | The loop never takes more than a level holds, than is wanted, or than the budget pays for |
| Allocation.Waterfall | src/modules/orders/services/order-matching.service.ts:171-211 | Full levels up to one marginal level and nothing after it; it stops short only because the want is met or the budget is spent to the last unit |
| Allocation.EarlierIsFull | src/modules/orders/services/order-matching.service.ts:171-211 | Whatever is taken from a level, every level before it has been taken whole |
| Allocation.FillsAllItCan | src/modules/orders/services/order-matching.service.ts:171-211 | Without a budget the filled quantity is the smaller of the order and the book |
| Allocation.CheapestPurchase | src/modules/orders/services/order-matching.service.ts:154-211 | On an ascending book no allocation whatever of the same quantity costs less |
| Allocation.DearestSale | src/modules/orders/services/order-matching.service.ts:154-211 | On a descending book no allocation whatever of the same quantity earns more |
| Allocation.LargestPurchase | src/modules/orders/services/order-matching.service.ts:188-203 | With the budget cap and its last fractional fill, no allocation within quantity and budget buys more |
| OrderBook.BookIsPriceTimeOrder | src/modules/orders/services/order-matching.service.ts:139-166 | The book a job sees holds exactly the open orders of other users on the other side of its asset that its limit admits, a market order having none, each once: cheapest first for a buy, dearest first for a sale, oldest first at one price |
| ExchangeSafety.SettleMatchEffect | src/modules/orders/services/trading-ledger.service.ts:89-130 | With both sides covered, a match settles exactly when its price is positive, conserves every total and moves exactly four locked pockets |
| ExchangeSafety.FillLedgerEffect | src/modules/orders/services/order-matching.service.ts:239-256 | The same for a match with the price improvement of a limit buy handed back |
| ExchangeSafety.ApplyFillSound | src/modules/orders/services/order-matching.service.ts:205-256 | One planned match commits exactly when its price is positive, and keeps every table in order and every locked pocket covered but for the unspent part of a market budget |
| ExchangeSafety.ApplyFillsSound | src/modules/orders/services/order-matching.service.ts:185-318 | The same for all the matches of a job, whatever their number |
| ExchangeSafety.ApplyFillsProgress | src/modules/orders/services/order-matching.service.ts:205-236 | The taker advances by everything allocated, each resting order by its own share, nobody else moves |
| ExchangeSteps.CloseMarketSafe | src/modules/orders/services/order-matching.service.ts:274-312 | Closing a market order always goes through, hands back its whole residue and leaves every locked pocket exactly covered |
| ExchangeSteps.MatchOrderSafe | src/modules/orders/services/order-matching.service.ts:122-318 | A job goes through if and only if none of its matches is at price zero; then coverage, soundness and totals are kept |
| ExchangeSteps.PricedWhenHeadIsPriced | src/modules/orders/services/order-matching.service.ts:154-166 | Whether a match is at price zero can be told from the head of the book alone |
| JobRules.JobFailsIff | src/modules/orders/services/order-matching.service.ts:122-318 | A job fails if and only if its order is an open buy that may trade with a sale at price zero |
| JobRules.FailedJobsAreRetried | src/modules/orders/services/order-matching.service.ts:78-108 | A worker's step changes nothing if and only if there is no such job or the job fails with attempts left; otherwise exactly that job leaves the queue, and a failed one leaves nothing else behind |
| ExchangeSteps.CreateSafe | src/modules/orders/services/orders.service.ts:47-128 | An accepted request keeps every pocket covered and every total; it leaves the tables alone or enters an open, unfilled order of the request and queues it |
| PlacingRules.PlacedIff | src/modules/orders/services/orders.service.ts:47-108 | A request goes through if and only if its numbers have no sign and it either repeats a stored key, or asks for an active, open asset at a limit within the band around the reference price (the token price where there is none) or with a budget for a market buy, and its owner has the positive amount it sets aside |
| PlacingRules.RepeatedChangesNothing | src/modules/orders/services/orders.service.ts:50-57 | An accepted request leaves the tables as they are if and only if some stored order carries its key |
| PlacingRules.PlacedEffect | src/modules/orders/services/orders.service.ts:68-126 | The order entered carries the request's user, asset, side, kind, quantity and key; a limit order its price, a market sale none, and a market buy quantity times price is its maximum total cost; exactly that much, or the worth of a limit buy, or the quantity of a sale, moves from available to locked in the owner's account, the job is queued last, and nothing else changes |
| PlacingRules.RefusedBecause | src/modules/orders/services/orders.service.ts:59-108 | The error of a refused request names the first thing wrong with it |
| PlacingRules.CancelEffect | src/modules/orders/services/orders.service.ts:244-284 | Cancelling goes through exactly for the owner of an open or partly filled order; what is left of it, at its price for a buy, moves back to available, its status changes, and nothing else does |
| PlacingRules.CancelRefused | src/modules/orders/services/orders.service.ts:245-262 | In any state the error of a refused cancellation tells a missing order, somebody else's, or one that is not pending, open or partly filled |
| ExchangeSteps.CancelSafe | src/modules/orders/services/orders.service.ts:244-284 | Cancelling goes through exactly for the owner of a live order, otherwise with the error of the first failing guard; it gives back exactly the order's claim and moves nobody else's money |
| ExchangeSteps.CancelUndoesCreate | src/modules/orders/services/orders.service.ts:96-123 | Cancelling an unmatched order restores every balance to what it was before placing it |
| BulkCancellation.BulkCancelEffect | src/modules/orders/services/orders.service.ts:286-314 | From a safe state exactly the caller's own live orders of the list are cancelled, each once; available pockets grow by exactly their claims, nothing else changes, and each entry is answered as judged by the tables before the call |
| BulkCancellation.CountsSuccesses | src/modules/orders/services/orders.service.ts:286-314 | The success count reported is the number of orders cancelled without an error |
| ExchangeSteps.RepricingCoveredIff | src/modules/orders/services/orders.service.ts:228-235 | The price update leaves the locked pockets covered if and only if the order is a sale or the price stays |
| SettlementSafety.GroupingPartitions | src/modules/settlement/settlement.service.ts:96-102 | Grouping by asset loses no picked trade, repeats none and keeps their order |
| SettlementSafety.UnlockingSafe | src/modules/settlement/settlement.service.ts:145-165 | The unlock loop never hits a ledger guard, and unlocking then marking settled balance each other |
| SettlementSafety.SettleGroupSafe | src/modules/settlement/settlement.service.ts:105-187 | One asset's group, whatever its on-chain call does, keeps the exchange safe; its trades keep their status without a contract, are declined when no two parties have wallets, are all failed when the call fails, and are otherwise settled or declined as both parties have wallets or not |
| SettlementSafety.SettleTickSafe | src/modules/settlement/settlement.service.ts:74-187 | After a tick every picked trade has the status that its asset's contract, its asset's call and the wallets of its asset's picked trades call for; other trades are untouched, totals and coverage are kept |
| SettlementSafety.QueryPicks | src/modules/settlement/settlement.service.ts:74-90 | A tick takes at most a hundred different trades, each unsettled or failed, or processing and stale |
| SettlementSafety.TickKeepsTrade | src/modules/settlement/settlement.service.ts:74-187 | A tick changes nothing of a trade but its status, and nothing of a settled or declined one |
| SettlementSafety.TickIsBounded | src/modules/settlement/settlement.service.ts:74-90 | A tick changes at most a hundred trades |
| TradeHistory.TradesAreKept | src/modules/settlement/settlement.service.ts:74-187 | Over every run of the exchange a trade keeps its parties, price and quantity, and once settled or declined its status |
| UncoveredSettlement.UnlocksRunToEndIff | src/modules/settlement/settlement.service.ts:145-165 | Whatever else is covered, the unlock loop runs to its end if and only if every locked pocket has what all the unlocks take from it together |
| UncoveredSettlement.GroupSettlesIff | src/modules/settlement/settlement.service.ts:105-187 | After a returned call the eligible trades settle exactly when the pockets have that; otherwise every trade of the group is failed |
| UncoveredSettlement.UnlockedTwice | src/modules/settlement/settlement.service.ts:145-187 | When the second of two trades is short, two ticks unlock the first one twice and leave both failed |
| UncoveredSettlement.OneUnitIsUnlockedTwice | src/modules/settlement/settlement.service.ts:145-187 | Two ticks over such tables, with four releases for one trade |
| ExchangeRuns.LocksCoveredAndMoneyConserved | src/modules/orders/services/order-matching.service.ts:187-312 | In every reachable state each locked pocket equals the claims of live orders and unsettled trades on it, no pocket is negative, and every total is what it was at the start |
| ExchangeRuns.FillsAndSettlementsAddUp | src/modules/orders/services/order-matching.service.ts:205-222 | In every reachable state filled quantities are sums of trades, open means unfilled, filled means full, and a trade's two unlocks happened once if it is settled and never otherwise |
| ExchangeRuns.MatchOrderOrders | src/modules/orders/services/order-matching.service.ts:205-312 | Exactly how a job leaves the order table: the taker's filled quantity and status, each resting order's, and nothing else |
| ExchangeRuns.MatchOrderIdempotent | src/modules/orders/services/order-matching.service.ts:126-137 | Running a job a second time changes nothing |
| ExchangeRuns.LimitJobsCommit | src/modules/orders/services/order-matching.service.ts:213-256 | With limit orders only, no job is ever aborted |
| ExchangeRuns.LeftOpenHadNoMatch | src/modules/orders/services/order-matching.service.ts:132-169 | A limit order its job leaves open had an empty book |
| ExchangeRuns.LimitTradingUncrossed | src/modules/orders/services/order-matching.service.ts:71-166 | From an opening, in every limit-only reachable state two open orders that cross include one whose job is still queued; with an empty queue the book is uncrossed, and every job commits |
| RestingOrders.RestingOrdersRest | src/modules/orders/services/order-matching.service.ts:132-166 | Over every run an order that is partly filled is never matched again and can only be cancelled; filled and cancelled orders never change |
| RestingOrders.LiveCrossingIncludesPartial | src/modules/orders/services/order-matching.service.ts:147-166 | In every limit-only reachable state with an empty queue, whatever jobs have been run, two live orders of different owners cross only if one of them is partly filled; when they come to cross is JobStrandsIff's |
| LiveBook.TakerLeftCrossedIff | src/modules/orders/services/order-matching.service.ts:132-211 | After the job of an open limit order some live order would still trade with it if and only if the eligible depth was less than its quantity and a partly filled order crosses it |
| LiveBook.JobStrandsIff | src/modules/orders/services/order-matching.service.ts:132-211 | As long as every crossing of live orders has waited for a job, it still does after this one if and only if the job strands neither its own order nor one that it takes in part |
| LiveBook.LiveBookUncrossed | src/modules/orders/services/order-matching.service.ts:71-211 | Over any limit-only run in which no job has stranded an order every live crossing waits for a job, so with an empty queue the live book is uncrossed; the first step after which one does not is exactly the first that runs a stranding job |
| ExchangeExamples.PartlyFilledOrderCrosses | src/modules/orders/services/order-matching.service.ts:147-211 | A limit-only run in queue order that ends with an empty queue and a partly filled buy crossed by an untouched sale |
| ExchangeExamples.PartlyTakenOrderCrosses | src/modules/orders/services/order-matching.service.ts:147-211 | A limit-only run in queue order in which no job strands its own order, and which ends with two partly filled orders that cross |
| ExchangeExamples.MarketSaleAbortsBuy | src/modules/orders/services/order-matching.service.ts:147-256 | A limit buy is placed and a market sale before its job runs: the buy's job, first in the queue, is aborted by the ledger |
| ExchangeExamples.RepricedBuyIsUncovered | src/modules/orders/services/orders.service.ts:228-235 | A placed buy whose raised price leaves less locked than it claims |
| BestExecution.BuyerAccountedFor | src/modules/orders/services/order-matching.service.ts:248-312 | What a buyer's trades cost and what comes back add up exactly to the budget of a market buy, or to the filled part of a limit buy at its own price |
| BestExecution.LimitExecutionIsBest | src/modules/orders/services/order-matching.service.ts:147-211 | A limit order ends filled by the smaller of its quantity and the eligible depth, at the best total of all allocations of that quantity |
| BestExecution.MarketBuyIsLargest | src/modules/orders/services/order-matching.service.ts:171-203 | A market buy spends within its budget and gets at least as much as any affordable allocation over the same book |
| BestExecution.PriceTimePriority | src/modules/orders/services/order-matching.service.ts:139-211 | For every kind of order: of two open orders of other users on the other side of its asset that its limit admits, the worse-priced one, or the younger at the same price, trades only if the other ends filled |
| BestExecution.TakesAllItCan | src/modules/orders/services/order-matching.service.ts:139-211 | A committed job leaves its order full, or a market buy's budget spent to the last unit, or every order it may trade with filled; a market order ends filled or cancelled |
| BestExecution.TradesAreWithCounterparties | src/modules/orders/services/order-matching.service.ts:205-232 | Every new trade is with an order the taker may trade with, at that order's price and for all it has been filled by, with buyer and seller the owners and nothing settled; no other order changes |
| BestExecution.JobHandsBack | src/modules/orders/services/order-matching.service.ts:239-312 | A job moves nobody's available pocket but its owner's, by the price improvement of a limit buy or the residue of a market order |
| ExchangeService.TradingLedgerService.LockFunds | src/modules/orders/services/trading-ledger.service.ts:22-50 | Locks cash or asset, or changes nothing and reports the guard |
| ExchangeService.TradingLedgerService.UnlockRemainder | src/modules/orders/services/trading-ledger.service.ts:55-84 | Releases a remainder, nothing when there is none |
| ExchangeService.TradingLedgerService.Settle | src/modules/orders/services/trading-ledger.service.ts:89-130 | The four ledger writes of a match, stopping at the first refused |
| ExchangeService.TradingLedgerService.Refund | src/modules/orders/services/trading-ledger.service.ts:168-183 | Returns a price improvement, nothing when there is none |
| ExchangeService.TakeFrom | src/modules/orders/services/order-matching.service.ts:186-203 | The decision at one entry of the book, stop, skip or take, is what the allocation takes there, whatever entries follow |
| ExchangeService.PlanMatches | src/modules/orders/services/order-matching.service.ts:168-272 | The loop's matches, unfilled quantity and money spent are those of the allocation the best-execution results are about |
| ExchangeService.OrderServices.CreateOrder | src/modules/orders/services/orders.service.ts:47-128 | The tables take the create step, and stay safe |
| ExchangeService.OrderServices.CancelOrder | src/modules/orders/services/orders.service.ts:244-284 | The tables take the cancel step, or stay as they were with the right error |
| ExchangeService.OrderServices.BulkCancelOrders | src/modules/orders/services/orders.service.ts:286-314 | Each order is cancelled by itself; from a safe state the result is that of BulkCancelEffect, and the counts are those of the answers |
| ExchangeService.OrderServices.ExecuteMatch | src/modules/orders/services/order-matching.service.ts:213-256 | The writes of one match: both orders, the trade, the token price and the ledger |
| ExchangeService.OrderServices.ExecuteMatches | src/modules/orders/services/order-matching.service.ts:314-318 | All the writes of a job's matches, stopping at the first refused; the token price ends as the last match's |
| ExchangeService.OrderServices.FinishMarket | src/modules/orders/services/order-matching.service.ts:274-312 | The remainder and unspent budget of a market order |
| ExchangeService.OrderServices.MatchOrder | src/modules/orders/services/order-matching.service.ts:122-344 | The job as a whole: tables and token prices after it are those of the specification and the matches are reported to market data, or everything is restored and nothing reported when any write is refused |
| ExchangeService.OrderServices.Commit | src/modules/orders/services/order-matching.service.ts:314-318 | The transaction of a job: the tables and token prices of the specification, or everything as before |
| ExchangeService.TradesAreReported | src/modules/orders/services/order-matching.service.ts:258-328 | What is reported to market data are exactly the trades the transaction wrote, in their order |
| ExchangeService.QuotedIsLastPrice | src/modules/orders/services/order-matching.service.ts:234-237 | After a committed job the token price of its asset is that of the last trade it wrote; without a trade, and for other assets, prices stay |
| ExchangeService.OrderServices.RunJob | src/modules/orders/services/order-matching.service.ts:78-108 | The worker's step, with a failed job kept for retry until its last attempt, keeps the tables safe |
| ExchangeService.OrderServices.GroupTrades | src/modules/settlement/settlement.service.ts:96-102 | The accumulator loop computes the grouping whose partition is proved |
| ExchangeService.OrderServices.UnlockFunds | src/modules/settlement/settlement.service.ts:145-165 | The unlock loop, each transfer kept even when a later one throws |
| ExchangeService.OrderServices.SettleAsset | src/modules/settlement/settlement.service.ts:105-187 | The status machine of one asset's trades around its on-chain call |
| ExchangeService.OrderServices.ProcessSettlements | src/modules/settlement/settlement.service.ts:66-188 | One cron tick over the picked trades is the settlement step, and keeps the tables safe |
| Merkle.HeightIsLogarithm | src/modules/dividends/services/dividends.service.ts:37-51 | The number of layers above the leaves is the binary logarithm of their number, rounded up |
| Merkle.NextLayerAt | src/modules/dividends/services/dividends.service.ts:32-51 | A node is the hash of the two nodes below it with the smaller one first, an odd last one hashed with itself |
| Merkle.ParentHash | src/modules/dividends/services/dividends.service.ts:53-71 | A node's parent is the pair hash of the node and its sibling, whichever side it is on and even if it is an odd last node |
| Merkle.ProofsAreAccepted | src/modules/dividends/services/dividends.service.ts:53-71 | Completeness: for every non-empty list and index the proof folds to the root, and its length is the logarithm rounded up |
| Merkle.AcceptedOrForged | src/modules/dividends/services/dividends.service.ts:32-51 | Soundness of any hash: an accepted proof is for a listed digest and as long as the tree is high, or two different pairs hashed by tree and proof collide, or a pair has the digest of a leaf or of what is proved |
| Merkle.AcceptedProofsAreOfLeaves | src/modules/dividends/services/dividends.service.ts:32-51 | With pair hashing injective on sorted pairs and leaf digests no pair hashes, any proof of any length that folds a leaf digest to the root is for a listed leaf |
| Merkle.TreeTop | src/modules/dividends/services/dividends.service.ts:37-51 | A tree that ends in a single node has the right height, and that node is the root |
| Merkle.HashLayer | src/modules/dividends/services/dividends.service.ts:41-48 | The inner loop computes one layer, the odd last node paired with itself |
| Merkle.BuildMerkleTree | src/modules/dividends/jobs/merkle-tree.processor.ts:20-34 | The layers form a tree of the right height topped by the root, in the service and in the worker alike |
| Merkle.BuildMerkleProof | src/modules/dividends/services/dividends.service.ts:53-71 | The proof loop, which recomputes the layers, yields a proof that folds to the tree's root, and nothing for an index outside the list |
| Distributor.GetClaimProof | src/modules/dividends/services/dividends.service.ts:304-339 | A user with a claim gets the amount of the first one and a proof that folds the digest of its wallet, of the zero address without one, to the root over all rows; otherwise the right error |
| Distributor.ProofPaysWallet | src/modules/dividends/services/dividends.service.ts:323-338 | End to end: once the root of all rows is published, the row's wallet can claim its amount with the service's proof if and only if it is not marked and the contract holds enough |
| Distributor.OnlyRowsArePaid | smart-contracts/contracts/dividends/DividendDistributor.sol:36-50 | With that root and an ideal hash the contract pays only the wallets of rows, the row's amount, and a row without a wallet only to the zero address |
| Distributor.ClaimEffect | smart-contracts/contracts/dividends/DividendDistributor.sol:36-50 | A claim is accepted exactly for an unmarked sender whose digest folds to a published root and whom the held tokens can pay; they fall by exactly the amount, and no root changes |
| Distributor.PublishEffect | smart-contracts/contracts/dividends/DividendDistributor.sol:26-34 | Only the owner publishes, a root once, and the held tokens grow by exactly the total |
| Distributor.FundsAccountedFor | smart-contracts/contracts/dividends/DividendDistributor.sol:26-50 | Over every run from the contract's creation, held tokens and payments add up to the totals of successful publications and receipts |
| Distributor.AcceptedClaimIsAnEntry | smart-contracts/contracts/dividends/DividendDistributor.sol:36-50 | The contract pays only entries of the published distribution: any other accepted proof exhibits a forgery of the hash |
| Distributor.EntryCanBeClaimed | smart-contracts/contracts/dividends/DividendDistributor.sol:36-50 | With the service's proof an entry is paid if and only if its address has not claimed and the contract holds enough |
| Distributor.PayoutsAreBounded | smart-contracts/contracts/dividends/DividendDistributor.sol:26-50 | From the contract's creation, over any run of calls by anybody without a forgery, a published distribution pays only its entries, each address at most once, and no more in all than they add up to |
| Distributor.EntriesStayClaimable | smart-contracts/contracts/dividends/DividendDistributor.sol:26-50 | Solvency: when every distribution was published with its entries' root and at least their sum, every entry whose address has not claimed can be claimed in every reachable state |
| Distributor.UnfundedIsUnclaimable | smart-contracts/contracts/dividends/DividendDistributor.sol:26-47 | Published without funds, a listed entry cannot be claimed |
| ClaimChannels.ChannelsAreIndependent | src/modules/dividends/services/dividends.service.ts:245-339 | Calls of the service and of the contract have the effects they would have without the other |
| ClaimChannels.WhatAUserGets | src/modules/dividends/services/dividends.service.ts:245-339 | After any calls a user has got at most the claim in cash and one entry in tokens, and the entitlement more than once if and only if the claim is taken and the wallet marked |
| ClaimChannels.BothChannelsPay | src/modules/dividends/services/dividends.service.ts:245-339 | An open claim with an entry the contract can pay is paid by both, in either order |
| Distributor.IdealIsNeverForged | smart-contracts/contracts/dividends/DividendDistributor.sol:41-44 | A collision-free hash admits no forgery |
| Distributor.Verify | smart-contracts/contracts/dividends/DividendDistributor.sol:41-44 | The verification loop accepts exactly the proofs that fold to the root |
| Distributor.DividendDistributor.CreateDistribution | smart-contracts/contracts/dividends/DividendDistributor.sol:26-34 | Only the owner publishes a root, once per distribution, and only if the amount can be transferred in; a revert changes nothing |
| Distributor.DividendDistributor.ClaimDividend | smart-contracts/contracts/dividends/DividendDistributor.sol:36-50 | The storage and the held tokens take the claim step, or the call reverts and changes nothing, also when the transfer fails |
| Candles.OpenTimeRoundsDown | src/modules/market-data/services/market-data.service.ts:345-374 | Setting the date fields back is rounding down to the width of the bucket, for each of the six resolutions |
| Candles.OpeningTimes | src/modules/market-data/services/market-data.service.ts:345-374 | The six resolutions are 60, 300, 900, 3600, 14400 and 86400 seconds wide |
| Candles.BucketsNest | src/modules/market-data/services/market-data.service.ts:345-374 | Buckets are idempotent, and nest between resolutions both ways |
| Candles.FoldOfBatches | src/modules/market-data/services/market-data.service.ts:382-503 | Any split of the trades into batches gives the candle of all of them |
| Candles.FoldDescribes | src/modules/market-data/services/market-data.service.ts:190-228 | A candle exists exactly when its bucket has a trade, and gives the true first and last price, extremes and volumes |
| Candles.WindowSplit | src/modules/market-data/services/market-data.service.ts:275-312 | The candle of a window is that of its earlier part merged with that of its later part |
| Candles.BucketIsWindow | src/modules/market-data/services/market-data.service.ts:345-374 | A bucket holds exactly the trades from its opening for the length of its resolution |
| Candles.CoarseIsMergeOfMinutes | src/modules/market-data/services/market-data.service.ts:190-228 | Every coarse candle has the range and volumes of its one-minute candles together, and is their ordered merge when trades were recorded in order |
| MarketData.MarketDataService.RecordTrade | src/modules/market-data/services/market-data.service.ts:166-228 | Queueing a trade and updating its six candles keeps cache, queue and table in agreement with the history |
| MarketData.MarketDataService.UpdateCandle | src/modules/market-data/services/market-data.service.ts:190-228 | One cached candle is extended by the trade, or opened by it |
| MarketData.MarketDataService.GroupBatch | src/modules/market-data/services/market-data.service.ts:394-449 | The grouping loop holds the candle of every bucket of the batch and nothing else |
| MarketData.MarketDataService.MergeGroups | src/modules/market-data/services/market-data.service.ts:451-503 | Every group is merged once, in whatever order, and no other stored candle changes |
| MarketData.MergedForward | src/modules/market-data/services/market-data.service.ts:451-503 | Merging one batch brings the table forward by exactly the batch |
| MarketData.MarketDataService.SyncTradesToDB | src/modules/market-data/services/market-data.service.ts:377-509 | Draining any observed part of the queue keeps the agreement, and leaves what arrived later queued |
| MarketData.MarketDataService.StoredAndQueuedAreCached | src/modules/market-data/services/market-data.service.ts:181-228 | Every stored candle merged with the candle of the trades still queued is the cached one, and no bucket is missing on either side |
| MarketData.MarketDataService.CandlesTellTheTruth | src/modules/market-data/services/market-data.service.ts:166-503 | There is a cached candle exactly for the buckets with a recorded trade and a stored one exactly for those with a synced trade, and each gives the true first and last price, extremes and volumes of those trades |
| MarketData.MarketDataService.RollingWindow | src/modules/market-data/services/market-data.service.ts:275-312 | The ticker's pass computes the ordered merge of its one-minute candles |
| MarketData.MarketDataService.EmitTicker | src/modules/market-data/services/market-data.service.ts:265-343 | The ticker computed from the cached candles is the one whose truth is proved |
| MarketData.TickerTellsTheTruth | src/modules/market-data/services/market-data.service.ts:275-323 | In whatever order trades were recorded the ticker gives the true maximum, minimum and volume of the 1440 minutes up to the current one, the buy share that bought and traded volume give (a half without volume), and the change since the opening; in time order the opening is the first price, without trades the market price |
| Snapshots.NextPage | src/modules/dao/services/dao.service.ts:209-225 | Each page continues where the last one ended and is empty only at the end, for every page size |
| Dividends.OneClaimPerHolder | src/modules/dividends/services/dividends.service.ts:174-194 | A first snapshot gives each holder exactly one claim, of the holder's own share, and none for a share that is not positive |
| Dividends.SharesProportional | src/modules/dividends/services/dividends.service.ts:174-205 | The claims add up to the total in proportion to the holdings found |
| Dividends.PortionIsProportional | src/modules/dividends/services/dividends.service.ts:176-183 | A portion is to the total as the holding is to the supply |
| DividendRules.ClaimsAreProportional | src/modules/dividends/services/dividends.service.ts:174-194 | A snapshot writes an open claim for exactly the users who hold something and whose part is positive, of their part of the total in proportion to both pockets together |
| DividendRules.OtherClaimsStay | src/modules/dividends/services/dividends.service.ts:189-194 | It changes no claim of another distribution or of a user it did not find |
| DividendRules.OpensIffSomebodyIsPaid | src/modules/dividends/services/dividends.service.ts:139-208 | A waiting distribution opens for claims if and only if some holder's part is positive, and is completed otherwise; with an invalid supply or when it is not waiting nothing changes |
| DividendRules.AnnouncedThenDistributed | src/modules/dividends/services/dividends.service.ts:87-208 | A distribution waits from its announcement until its first snapshot decides |
| Dividends.ClaimsAndTreasuryMakeTotal | src/modules/dividends/services/dividends.service.ts:205-213 | Claims plus treasury make up the total if and only if the holdings are within the supply or the total is nothing |
| Dividends.HoldingsBeyondSupply | src/modules/dividends/services/dividends.service.ts:174-213 | Two holders with more than the supply between them: claims and treasury exceed the total |
| Dividends.SnapshotAddsShares | src/modules/dividends/services/dividends.service.ts:189-194 | A first snapshot adds exactly the sum of its shares to what is pending |
| Dividends.ClaimTakenEffect | src/modules/dividends/services/dividends.service.ts:245-289 | A claim goes through exactly once, and moves its amount from pending to its owner's available cash and nowhere else |
| Dividends.CreditedPlusPendingConstant | src/modules/dividends/services/dividends.service.ts:245-289 | Over any run of claim calls, what has been credited plus what is pending is constant, and a taken claim stays taken |
| Dividends.CreatedIsCreditedOrPending | src/modules/dividends/services/dividends.service.ts:88-289 | Over any run of announcements, snapshots and claims, what was credited plus what is pending is exactly what the snapshots created |
| Dividends.DividendsService.ProcessSnapshot | src/modules/dividends/services/dividends.service.ts:139-213 | A waiting distribution is snapshotted for any page size: the shares of all holders are inserted, counted and summed, and its status follows from their number; with a missing asset or an invalid supply nothing changes |
| Dividends.DividendsService.ClaimDividend | src/modules/dividends/services/dividends.service.ts:245-289 | Claim row and balance take the claim step together, or neither changes |
| Dao.VoteMovesOneTally | src/modules/dao/services/dao.service.ts:99-113 | A vote adds its snapshot power to the tally of its own proposal only |
| Dao.PowersEffect | src/modules/dao/services/dao.service.ts:219-238 | A snapshot keeps every row that was there and adds only what holders hold |
| Dao.NextAdvances | src/modules/dao/services/dao.service.ts:74-304 | Each step keeps votes equal to snapshot power, statuses move forward only, and the tally of a decided proposal is frozen |
| Dao.ApprovalsStandForever | src/modules/dao/services/dao.service.ts:266-304 | In every reachable state no votes exceed the snapshot, and whatever follows, decisions, tallies and votes never change |
| DaoRules.PassedIffCarried | src/modules/dao/services/dao.service.ts:288-304 | In every reachable state a decided proposal is passed or executed if and only if five times its total power reaches the supply, that power is positive, and a hundred times its power in favour exceeds fifty-one times it |
| DaoRules.DecidedAtTheEnd | src/modules/dao/services/dao.service.ts:256-304 | An active proposal is decided once its end date has come and not before, by that rule; nothing but its status changes |
| DaoRules.SnapshotIsHoldings | src/modules/dao/services/dao.service.ts:193-238 | A first snapshot gives voting power to exactly the users with something in either pocket, namely both pockets together |
| DaoRules.SnapshotOnce | src/modules/dao/services/dao.service.ts:195-203 | Before its date, once taken, or once the proposal is decided, a snapshot is not taken |
| DaoRules.VoteIsCountedIff | src/modules/dao/services/dao.service.ts:74-113 | A vote is counted exactly when the proposal is active and within its dates and its voter has power and has not voted; it records that power and changes nothing else, and an error names what is so |
| DaoRules.VotesAreAccounted | src/modules/dao/services/dao.service.ts:74-238 | In every reachable state a vote is its voter's own call within the proposal's dates, with the power a snapshot on or after the snapshot date found in both pockets |
| Dao.VotesWithinSnapshot | src/modules/dao/services/dao.service.ts:86-113 | No proposal collects more voting power than its snapshot holds |
| Dao.DaoService.VoteOn | src/modules/dao/services/dao.service.ts:74-113 | One vote per user on an active proposal within its dates, or the first failing guard's error |
| Dao.DaoService.ProcessSnapshot | src/modules/dao/services/dao.service.ts:193-242 | For any page size the cursor loop stops with a row for every holder |
| Dao.DaoService.SumVotes | src/modules/dao/services/dao.service.ts:273-287 | The two sums are the tally, in whatever order the votes are read |
| Dao.DaoService.FinalizeProposal | src/modules/dao/services/dao.service.ts:256-304 | An ended active proposal is passed or rejected as its tally says; any other stays |
| Dao.DaoService.ExecuteProposal | src/modules/dao/services/dao.service.ts:130-143 | Only a passed proposal is executed |
| LiquidationSafety.PayoutsAreExpected | src/modules/assets/jobs/asset-blockchain.processor.ts:181-203 | The loop pays each of its holders both pockets at the price exactly once, whatever the order, empties the holdings and touches nothing else |
| LiquidationSafety.HoldersArePaidInFull | src/modules/assets/jobs/asset-blockchain.processor.ts:174-203 | A complete payout adds the price of both asset pockets to every holder's available cash, empties those pockets, and changes nothing else |
| LiquidationSafety.ResumedIsUninterrupted | src/modules/assets/jobs/asset-blockchain.processor.ts:174-203 | Stopping after any number of holders and running again gives every account the balances of one uninterrupted run |
| LiquidationSafety.RetriesAreOneRun | src/modules/assets/jobs/asset-blockchain.processor.ts:174-203 | The same however many times the job stops |
| LiquidationSafety.LiquidationConserves | src/modules/assets/jobs/asset-blockchain.processor.ts:174-203 | A complete payout leaves none of the asset and adds exactly its value to the cash |
| LiquidationCoverage.PayoutCoveredIff | src/modules/assets/jobs/asset-blockchain.processor.ts:183-203 | A payout leaves the locked pockets covered if and only if no holder it pays still has the asset claimed by a live order or an unsettled trade |
| LiquidationCoverage.LiveSaleIsUncovered | src/modules/assets/jobs/asset-blockchain.processor.ts:183-203 | Paying the owner of a live sale of the asset always leaves it uncovered |
| ExchangeExamples.LiquidatedSaleIsUncovered | src/modules/assets/jobs/asset-blockchain.processor.ts:183-203 | A placed sale whose owner is paid out is left without its lock |
| LiquidationJob.AssetBlockchainProcessor.PayOut | src/modules/assets/jobs/asset-blockchain.processor.ts:181-203 | One holder's transaction |
| LiquidationJob.AssetBlockchainProcessor.PayAll | src/modules/assets/jobs/asset-blockchain.processor.ts:181-203 | The loop, stopped by a throw before any holder, has paid exactly the holders before that one |
| LiquidationJob.AssetBlockchainProcessor.ProcessLiquidationBurn | src/modules/assets/jobs/asset-blockchain.processor.ts:149-208 | Without a contract, or when submitting the burn throws, nothing changes; otherwise the asset is paused, holders are paid only if the burn succeeded, and only a job that gets through closes the asset |
| DerSignature.ParseKmsDerSignature | src/shared/services/aws-kms-signer.service.ts:34-68 | The cursor parser, with slices that may run past the end, answers as the piecewise specification, each error included |
| DerSignature.TakeInteger | src/shared/services/aws-kms-signer.service.ts:50-67 | The cursor's way over one INTEGER, an absent length included, reads what the specification reads there |
| SignatureEncoding.ParsesExactlyLayouts | src/shared/services/aws-kms-signer.service.ts:34-68 | The parser accepts exactly the texts with a covering header, a whole R and a non-empty S tail, and answers their numbers |
| SignatureEncoding.RefusedBecause | src/shared/services/aws-kms-signer.service.ts:39-63 | The error of a refused text tells the first thing wrong with it: header, length, either tag, or missing contents |
| SignatureEncoding.AcceptedIsDer | src/shared/services/aws-kms-signer.service.ts:34-68 | Exactly which accepted texts are encodings: short lengths, no trailing or missing octets, minimal non-negative contents |
| SignatureEncoding.TrailingOctetsAreAccepted | src/shared/services/aws-kms-signer.service.ts:46-67 | A text with two octets after the second INTEGER is accepted and is no encoding |
| SignatureEncoding.DerRoundTrip | src/shared/services/aws-kms-signer.service.ts:34-68 | Every pair of 256-bit numbers has exactly one ECDSA-Sig-Value encoding (section 2.2.3 of RFC 3279, contents as in section 8.3 of ITU-T X.690), and it parses back to them |
| Hex.DigitsInOrder | src/shared/services/aws-kms-signer.service.ts:30-32 | The digits are 0 to 9 and a to f |
| Hex.ToHexFits | src/shared/services/aws-kms-signer.service.ts:30-32 | A number's shortest digits fit a width exactly when it is below that power of sixteen |
| AwsKmsSigner.PrintReadsBack | src/shared/services/aws-kms-signer.service.ts:26-32 | What is printed reads back to the same number, padding and prefix included |
| AwsKmsSigner.PrintIs32Bytes | src/shared/services/aws-kms-signer.service.ts:30-32 | The print is 64 digits if and only if the number is non-negative and below 2^256 |
| AwsKmsSigner.LowSInRange | src/shared/services/aws-kms-signer.service.ts:157-160 | The low s (EIP-2) is positive and at most half the order of secp256k1 if and only if s is a scalar of the group |
| AwsKmsSigner.LowSChoosesOne | src/shared/services/aws-kms-signer.service.ts:157-164 | Two scalars have the same low s exactly when they are equal or opposite, and choosing again changes nothing |
| AwsKmsSigner.SignDigest | src/shared/services/aws-kms-signer.service.ts:142-178 | The first parity whose recovered address is the signer's is returned with the printed r and low s; otherwise the error tells a missing answer, a parse error, a recovery that throws, or a signer that is not recovered |
| AwsKmsSigner.SignedDigits | src/shared/services/aws-kms-signer.service.ts:154-178 | For the encoding of any signature over the group, 64 digits each are sent on, writing r and the low one of s and N - s |

## Left out

- ExchangeRuns.LimitTradingUncrossed: is about limit orders with positive prices; limit orders at price zero are covered
  by the exact condition in ExchangeSteps.MatchOrderSafe.
- ExchangeRuns.LocksCoveredAndMoneyConserved: runs over placing, matching, cancelling and settling. Three updates outside
  these touch orders or locked funds without the other: the price update and the liquidation payout, whose exact effect on
  coverage is ExchangeSteps.RepricingCoveredIff and LiquidationCoverage.PayoutCoveredIff, and the bulk cancellation of a
  redemption request.
- LiquidationJob.AssetBlockchainProcessor.PayOut: finds or creates the cash row by user and missing asset, as the code
  means to. Whether the database client accepts a missing value in a compound unique key is not modelled.
- LiquidationJob.AssetBlockchainProcessor.ProcessLiquidationBurn: each rerun submits the burn again on chain; what that
  does there is not modelled.
- SignatureEncoding.ParsesExactlyLayouts: texts are lower-case hexadecimal, as the signer makes them from bytes; reading
  other characters with the source language's number parser is not modelled.
- AwsKmsSigner.SignDigest: addresses compare without case; here they are values that compare as such.
- Merkle.BuildMerkleTree: on an empty list the source's top layer holds an empty string; the model's holds nothing, and
  no claim exists then.
- Distributor.GetClaimProof: amounts arrive as integers of the token's smallest unit; the conversion from decimals is not
  modelled.
- Distributor.DividendDistributor.ClaimDividend: the token transfer fails only when the contract holds too little; a token
  that refuses transfers for reasons of its own, and changes of the contract's owner, are not modelled.
- MarketData.MarketDataService.RecordTrade: a trade is recorded in one step; expiry of cached keys and failures between
  the queue, the cache and the database are not modelled. The table stores no buy volume, as in the source.
- MarketData.MarketDataService.EmitTicker: best bid and ask, their spread and the quote volume are not part of it.
- Dividends.DividendsService.ProcessSnapshot: starts from a waiting distribution; the query's filter by snapshot date is
  not modelled.
- ExchangeService.OrderServices.RunJob: whether an attempt is the last of its three is an input; the queue keeps no count.
- ExchangeService.OrderServices.MatchOrder: reporting a committed match to market data does not fail.
- Dao.DaoService.ProcessSnapshot: one proposal at a time; the batches of fifty proposals a tick are separate steps here,
  and so are those of finalisation.
- ExchangeService.OrderServices: one class with the order, queue and trade tables stands for the order, matching and
  settlement services, which share them through the database.
- Reads that happen before a transaction and writes that other requests make in between: each operation is one step, and
  a crash half way through settlement does not occur.
- Rows a query returns without promising an order or a choice (the picked trades, the stale ones, the holders to pay)
  are inputs, restricted by what the query filters on.
- Creation times are positions in the order table, so two orders never tie. The queues of all assets are one sequence, and
  the theorems over runs let any entry of it run next; the runs shown as examples take the jobs of their asset in turn.
- A market buy of quantity zero is a rejected request; the source divides by zero there and has no finite amount to lock.
- Rounding of the decimal library to twenty digits, and printing with a fixed number of decimals: amounts are exact reals.
- Time zones and daylight saving in the bucket arithmetic: the clock is uniform.
- Audit and transaction rows, commissions, notifications and web sockets.
- Hash functions, key management calls, public-key recovery and calls on chain: parameters, or outcomes left open.
- Retries with backoff inside the balance primitives, which repeat a transaction the database refused.
- Interest payments, redemption, gas and fund sweeping, deposits and withdrawals, multi-signature approval.
- Accounts, authentication, onboarding, posts, support, news, reporting, transport objects and configuration.
