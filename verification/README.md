# Verification of the attesta core

A Dafny project that models the parts of the platform where money, records and recovery are decided, and proves what
every run of them keeps. One module stands for one source file or one closely knit pair; each module's head names it.
Code that updates state is a class or a method with loops, held against a specification function or an automaton; the
theorems are about that specification, over all inputs, all runs or all interleavings.

`dafny verify dfyconfig.toml` checks everything, without further options. No module assumes anything that is not stated
in a precondition.

## The parts

**Vault accounting and settlement.** `ShareMath` is the share arithmetic of the strategy contract, `Vault` the Solidity
vault as a ledger with every call and its event log, `Weights` the correction of a strategy's answer, `Pricing` the
pricing of a decision and the clamp, `Ticks` the loop that reads the vault, prices, clamps and settles while investors
act in between; `TickRuns` says what whole runs of it do to the vault, in the vault's own calls and off its log.

**Copies that must agree with the chain.** `ChainMetrics` folds the event log back into the vault. `Positions` is the
table of holdings kept from receipts. `Settlement` is the browser's retry queue over a network that loses, delays and
repeats, both as a machine of interleaved calls and as the client's own methods; `SettlementRuns` proves the two to be
the same for a call that is left alone, and says what decides a call. `ValueSeries` has the two cursor sweeps that draw
value over time, and `ValueHistory` holds their points against the vault.

**Step machines.** `Scheduler` is the counting semaphore, the in-flight map and the timers, turn by turn of the event
loop. `Oracle` is the persisted price walk with its cached generator. `Publish` is the resumable publishing sequence
with crashes and errors at every point; `PublishHistory` says what its runs write for good, what they anchor and what
they top up.

**Search, scanners and codecs.** `FuzzyMatcher` is the memoised subsequence matcher. When its answer is the
best one and how far below the best it can be is said by `FuzzyOptimality` of the search under any bonuses and by
`FuzzyBoundaries` and `FuzzyGap` of the matcher with its own. `Base64` and `SecretEnvelope` are the envelope of a
creator's parameter: printer, recogniser and parser. `SourceBlanker` blanks comments and literals, and `SourceTokens`
says of every source, token by token, what that leaves. `NdjsonStream` is the chunked reader of drafts.

`Arithmetic`, `Collections` and `Text` hold what they share.

## Where the code is not what its words say

The model follows the code. These are the places where documentation or comments promise something else; each has a
theorem with the exact condition or a concrete input.

- `contracts/README.md:60-62` calls the contract's share maths identical to the TypeScript. It is, except for a deposit
  too small to buy a share: the TypeScript mints none, the contract reverts (`Vault.DepositAgreesWithTypeScript`, met by
  the run of `Vault.DustDepositIsReachable`).
- Redeeming right after depositing returns at most the deposit unless assets had been stranded without shares, and loses
  at most the rounding unless the vault had been wiped out under its holders (`ShareMath.RoundTripLoss`). A solvent run
  of the contract never strands assets (`Vault.RunStaysSolvent`); it can be wiped out (`Vault.WipeOutIsReachable`).
- `backend/src/scheduler/pricing.ts:25-27` says that rounding the fee down cannot make a strategy look better. It is the
  other way round: the settled delta is above the exact one, by less than one base unit, if and only if the exact cost
  is no whole number of base units (`Pricing.FeeRoundsInTheStrategysFavour`; an input is
  `Pricing.FeeFlattersTheStrategy`). Line 87 says that bigint division rounds toward negative infinity; it
  truncates, so the helper agrees with the operator it wraps.
- The `managed-assets` clamp cannot fire up to a venue cost of 5000 bps and can above it; the configuration allows
  10000 (`Pricing.ManagedAssetsClampUnreachable`).
- A withdrawal between the reading and the settlement can make a clamped loss revert (`Ticks.WithdrawalCanDefeatTheClamp`).
- `backend/src/scheduler/state.ts:59-60` says that a tick whose state file could not be written is made up for from the
  execution log. That holds for a file that is gone. An older file is still there, and the next tick measures from it, so
  that a move already settled is settled again; the same happens when a tick fails after its settlement landed. These
  two are the only cases (`Ticks.RememberedIffWritten`, `Ticks.IntervalsMeetIffRemembered`); before rounding, the second
  settlement of a held asset's move is right in two cases only (`Ticks.RepeatedMoveIsRightIff`), and
  `Ticks.OneRiseSettledTwice` is a run.
- A position that is completely recorded has the chain's shares if and only if no redemption was recorded ahead of what
  it redeems (`Positions.CompleteRecordAgreesIff`). In general it differs by the transfers that are missing and by the
  clamped shortfall (`Positions.PositionAgainstTheChain`); `Positions.WrongOrderDiverges` is a run of the vault and of two
  requests.
- `frontend/src/lib/settlement.ts:65-68` says that a 400, 403 or 404 does not change on a replay, so that the transfer may
  be dropped. It does: a node that has not seen the transaction yet and a session of another wallet are refused the same
  way, and those are the two ways in which a transfer that happened is denied (`Settlement.GenuineIsDeniedIff`). Then it
  leaves the queue unrecorded, although the same request would be accepted by a node that has caught up
  (`Settlement.LaggingNodeLosesTheTransfer`). Unless one of the two happens, or something between browser and handler
  makes up such an answer, it is queued or on file at every moment (`Settlement.GenuineTransferIsKept`).
- Lines 78-84 there take a 409 to mean recorded, but a strategy without a vault answers 409 too
  (`Settlement.ConflictOnNewHash`), and a flush then drops the transfer (`Settlement.NoVaultLosesTheTransfer`).
- `backend/src/routes/fuzzy.ts:54-56` promises the best-scoring match. The matcher finds it in every target if and only
  if the trimmed query has at most one character, or two of which the first is a separator
  (`FuzzyBoundaries.MatchedBestIff`, for queries that leave eight characters of the longest target free); for any query it
  does where no adjacency can arise (`FuzzyOptimality.NoPairsIsBest`). It is never more than 11 for each character after
  the first below the best (`FuzzyMatcher.MatchIsNearBest`), and exactly that much below on a query of each length from 2
  to 11 (`FuzzyGap.GapIsAttainedByMatcher`). `FuzzyMatcher.NotAlwaysTheBest` is a short example.
- A strategy none of whose assets the oracle quotes gets an empty history (`Oracle.HistoryNeedsAQuotedSymbol`).
- The backend accepts any version number in an envelope, the browser reads only `v1`
  (`SecretEnvelope.AcceptedIsReadIffVersionOne`).

## Assumptions that are modelling choices

Amounts are unbounded integers: BigInt on the TypeScript side, and on the Solidity side `uint256` without its overflow
revert. A strategy is any function at all, so its answer is a parameter. A transaction hash, an address and an
identifier are opaque values compared by equality. Lower-casing works one character at a time and keeps the length.
Clocks, the network, the disk and the other users are parameters or steps of the environment. A database transaction is
atomic; a query that orders its rows returns them ordered.

## Model

| member | source | states |
|---|---|---|
| ShareMath.ClaimFollowsPrice | shared/strategy-contract.ts:145-148 | Where the exact price is no lower, the rounded claim of any holding is no smaller |
| ShareMath.DepositKeepsPrice | shared/strategy-contract.ts:150-157 | Minting rounds against the depositor: a deposit never lowers the exact share price |
| ShareMath.WithdrawKeepsPrice | shared/strategy-contract.ts:159-164 | Paying out rounds against the leaver: a withdrawal pays at most what is managed, never lowers the exact price, and the last holder takes everything |
| ShareMath.RoundTripLoss | shared/strategy-contract.ts:150-164 | Depositing and redeeming at once returns at most the deposit if and only if no assets were stranded without shares, and loses less than M/(S+s)+1 if and only if the vault had not been wiped out under its holders |
| ShareMath.MintedOneToOne | shared/strategy-contract.ts:150-157 | A first depositor into stranded assets redeems all of them |
| ShareMath.SharedWithHolders | shared/strategy-contract.ts:150-157 | A deposit into a wiped-out vault is shared with the old holders, beyond any rounding |
| ShareMath.NavIsTheClaimOfAShare | contracts/src/StrategyVault.sol:157-160 | The quoted price is the claim of one whole share, one USDC before there are any: the exact price rounded down by less than a base unit |
| ShareMath.FirstDepositAtPar | shared/strategy-contract.ts:150-157 | The first deposit mints one share for each base unit and leaves the price at one USDC |
| Vault.StrategyVault.constructor | contracts/src/StrategyVault.sol:62-66 | A new vault holds nothing and has an empty log |
| Vault.StrategyVault.Deposit | contracts/src/StrategyVault.sol:70-81 | Does all of what `Apply` says of a deposit or reverts and changes nothing |
| Vault.StrategyVault.Withdraw | contracts/src/StrategyVault.sol:85-101 | The same for a withdrawal, with each of its refusals; that the tokens leave the vault with it is `BalanceIsNetOfLog` and `RedeemOne` |
| Vault.StrategyVault.FundReserve | contracts/src/StrategyVault.sol:104-109 | The same for a reserve top-up: the token balance grows, the managed assets do not |
| Vault.StrategyVault.ApplyPnl | contracts/src/StrategyVault.sol:115-137 | The same for a settlement: operator only, a gain only within the reserve and only with shares outstanding, a loss only within the managed assets |
| Vault.StrategyVault.RecordTrade | contracts/src/StrategyVault.sol:140-146 | Operator only: the event carries pair, side, size, price and pnl as reported, and nothing else changes |
| Vault.StrategyVault.ReceiveTokens | contracts/src/StrategyVault.sol:150-153 | Tokens sent straight to the vault become reserve |
| Vault.StrategyVault.TakeAll | contracts/src/StrategyVault.sol:70-153 | A list of calls against the contract leaves the ledger and the log of the run, reverted calls included |
| Vault.StepStaysSolvent | contracts/src/StrategyVault.sol:62-146 | No call breaks: balance covers managed, supply is the sum of holdings, no managed assets without shares; and no call dies of an underflow or a failed transfer |
| Vault.RunStaysSolvent | contracts/src/StrategyVault.sol:62-153 | The same after every run of calls, with managed + reserve equal to the token balance and the operator fixed |
| Vault.NewVaultIsSolvent | contracts/src/StrategyVault.sol:62-66 | Where every run starts |
| Vault.ClaimsWithinManagedAssets | contracts/src/StrategyVault.sol:163-165 | The rounded claims of all investors sum to at most the managed assets |
| Vault.RedeemOne | contracts/src/StrategyVault.sol:85-101 | A full redemption always goes through: the redeemer is paid exactly the claim, in tokens that leave the vault as well as in managed assets, and every other holding is left alone |
| Vault.RedeemingSparesOthers | contracts/src/StrategyVault.sol:85-101 | It leaves every other claim at least as large |
| Vault.EveryoneRedeems | contracts/src/StrategyVault.sol:85-101 | If everyone redeems, in any order, each is paid in tokens at least the claim they had before the first one left; together that is exactly the managed assets, and what is left in the vault is exactly the reserve |
| Vault.StepKeepsPrice | contracts/src/StrategyVault.sol:70-109 | No call but a settlement lowers the exact share price while shares remain |
| Vault.OthersNeverDilute | contracts/src/StrategyVault.sol:70-109 | No sequence of calls by others, settlements aside, makes a holder's claim smaller |
| Vault.DepositAgreesWithTypeScript | contracts/src/StrategyVault.sol:70-81 | The contract mints what `defaultOnDeposit` mints, and differs from it exactly on a deposit too small to buy a share |
| Vault.DustDepositIsReachable | contracts/src/StrategyVault.sol:70-81 | A run from the empty vault after which a deposit of five base units is accepted for no share by the TypeScript and reverts in the contract |
| Vault.WipeOutIsReachable | contracts/src/StrategyVault.sol:115-137 | A run that wipes a vault out under its holder: the next depositor of as much owns half, and half of the deposit is gone in a round trip |
| Vault.WithdrawAgreesWithTypeScript | contracts/src/StrategyVault.sol:85-101 | The contract pays what `defaultOnWithdraw` pays and refuses what the investor does not hold |
| Vault.ManagedIsNetOfLog | contracts/src/StrategyVault.sol:39-47 | What is managed is the signed sum of what the events say |
| Vault.BalanceIsNetOfLog | contracts/src/StrategyVault.sol:76-109 | Over every run the tokens a vault holds are what its log says was paid in, less what the redemptions paid out, and what was sent past it; a settlement moves none |
| Vault.EventsReportTheLedger | contracts/src/StrategyVault.sol:39-47 | Every event of a run was emitted by one of its calls and reports the totals, the reserve and the price which that call left |
| Vault.SettledIffSolventAfter | contracts/src/StrategyVault.sol:115-137 | The operator's settlement goes through if and only if it leaves the vault solvent, with no managed assets that nobody owns and none that the tokens do not cover |
| Vault.StrangersSettleNothing | contracts/src/StrategyVault.sol:115-146 | Whatever others than the operator call, nothing is settled and no trade is reported: every such call reverts |
| Vault.RevertSaysWhy | contracts/src/StrategyVault.sol:20-29 | A revert names what is wrong with the call, the caller before the amounts, with the figures that show it |
| Vault.RefusedIff | contracts/src/StrategyVault.sol:70-146 | A call on a solvent vault is refused if and only if there is such a reason |
| Vault.ClaimIsConverted | contracts/src/StrategyVault.sol:163-165 | The TypeScript's claim of an investor is the contract's conversion of the shares held |
| Weights.KeepDeclared | chainlink/strategy-toolkit/src/context.ts:135-148 | The first pass keeps what `Kept` says and raises the flag exactly when some entry is not declared or not a whole number within 0..10000 |
| Weights.Rescale | chainlink/strategy-toolkit/src/context.ts:150-156 | The second pass scales every weight of an oversubscribed book in place |
| Weights.NormaliseWeights | chainlink/strategy-toolkit/src/context.ts:129-159 | The two passes compute the normalised weights, and the flag is raised exactly for a decision that breaks the contract |
| Weights.NormalisedIsValid | chainlink/strategy-toolkit/src/context.ts:129-159 | Whatever a strategy returns, NaN included: only declared assets, each once, each within 0..10000, together at most 10000, and after rescaling short of the book by less than one basis point per asset |
| Weights.KeptIsPositive | chainlink/strategy-toolkit/src/context.ts:136-148 | The first pass keeps positive whole basis points of declared assets only |
| Weights.KeptWeight | chainlink/strategy-toolkit/src/context.ts:136-148 | A declared asset is kept at its weight rounded half up and clamped to 0..10000 |
| Weights.ClampedIsNearest | chainlink/strategy-toolkit/src/context.ts:143-144 | That weight is the nearest whole basis point between 0 and 10000, halves up, and nothing for what is no finite number |
| Weights.UnchangedIffWhole | chainlink/strategy-toolkit/src/context.ts:145-145 | The flag is not raised by exactly the whole numbers from 0 to 10000 |
| Weights.EachGetsItsShare | chainlink/strategy-toolkit/src/context.ts:138-156 | Each declared symbol's own weight: what it was given as long as the book has room, and in an oversubscribed book its share of the whole, rounded down; nothing for a symbol that is not declared |
| Weights.ScaledTotal | chainlink/strategy-toolkit/src/context.ts:150-156 | Rescaling rounds each share down, by less than one basis point |
| Weights.ConformingIsKept | chainlink/strategy-toolkit/src/context.ts:129-159 | A decision that keeps the contract reaches the book unchanged |
| Pricing.PriceDecision | backend/src/scheduler/pricing.ts:99-170 | The pricing pass computes the priced decision whose properties follow |
| Pricing.EarnInterval | backend/src/scheduler/pricing.ts:104-119 | The loop over the held weights earns exactly the legs with both prices quoted, in order, and their sum |
| Pricing.LegsAreTheMoves | backend/src/scheduler/pricing.ts:104-119 | The legs are exactly the held weights that are not zero and have a price at both ends of the interval, each with its prices and what the move earned, rounded toward zero |
| Pricing.PlanTrades | backend/src/scheduler/pricing.ts:124-154 | The loop over the changed weights: turnover counts every change and trades only the quoted ones; what the turnover is worth is `TurnoverIsWhatIsTraded` |
| Pricing.SymbolsAreTheKeys | backend/src/scheduler/pricing.ts:124-133 | Each key of either record is priced once, in ascending order |
| Pricing.LessIsDictionary | backend/src/scheduler/pricing.ts:124-133 | That order is the order of a dictionary: by the first character that differs, a word before its extensions |
| Pricing.MarketLossWithinManaged | backend/src/scheduler/pricing.ts:104-119 | With weights summing to at most 10000 and non-negative prices the market loss never exceeds the managed assets |
| Pricing.TurnoverAtMostFullRotation | backend/src/scheduler/pricing.ts:133-138 | Turnover lies between 0 and 20000 basis points |
| Pricing.TurnoverIsWhatIsTraded | backend/src/scheduler/pricing.ts:133-138 | Turnover is the sum of the sizes of all changes: of the planned trades when every changed symbol is quoted, and more than that by the sizes that are not |
| Pricing.TurnoverIgnoresPrices | backend/src/scheduler/pricing.ts:133-138 | The same two books have the same turnover at any two sets of prices |
| Pricing.TradesMoveTheTotal | backend/src/scheduler/pricing.ts:133-154 | When every change is quoted the trades together take the total weight of the old book to that of the new one |
| Pricing.ChargedAfterTheMarket | backend/src/scheduler/pricing.ts:120-160 | The fee is charged on the assets after the market move, nothing on none, and the net pnl is the market pnl less the fee |
| Pricing.FeeRoundsInTheStrategysFavour | backend/src/scheduler/pricing.ts:156-159 | The fee is the exact cost rounded down by less than a base unit; the settled delta is never below the exact one, and above it if and only if the exact cost is no whole number of base units |
| Pricing.LossWithinManaged | backend/src/scheduler/pricing.ts:99-170 | Up to 5000 bps of venue cost the net loss of a tick never exceeds the managed assets |
| Pricing.MarketPnlWithinOnePerLeg | backend/src/scheduler/pricing.ts:104-119 | Market pnl differs from the exact rational value by less than one base unit per leg |
| Pricing.MirroredMove | backend/src/scheduler/pricing.ts:21-24 | A move and its mirror image differ only in sign |
| Pricing.TradesCarryOutTheDecision | backend/src/scheduler/pricing.ts:133-154 | A symbol is traded exactly when its weight changed and it is quoted; the trade takes the old weight to the new one, on the right side and at the current price, at a notional and a quantity rounded down by less than one unit |
| Pricing.TradePnlIsItsLegs | backend/src/scheduler/pricing.ts:129-153 | A trade reports the pnl of its own symbol's leg, or nothing |
| Pricing.ClampIsNearest | backend/src/scheduler/pricing.ts:220-239 | The clamp gives the settleable value nearest to the computed delta and reports a cut exactly when there is one |
| Pricing.FullRotationFee | backend/src/scheduler/pricing.ts:156-159 | A full rotation of the book costs twice the venue cost |
| Pricing.FeeFlattersTheStrategy | backend/src/scheduler/pricing.ts:25-27 | A full rotation at 30 bps of 1000000 base units pays its cost exactly; of 999999 it pays less than its cost, so the settled delta is above the exact one |
| Pricing.ManagedAssetsClampUnreachable | backend/src/scheduler/pricing.ts:231-237 | The `managed-assets` cut is dead code if and only if the venue cost is at most 5000 bps |
| Ticks.TickLoop.constructor | backend/src/scheduler/state.ts:40-49 | A loop starts without a remembered tick |
| Ticks.TickLoop.PriceTick | backend/src/scheduler/tick.ts:173-221 | The supply, the normalised weights, the priced decision and the clamp of one and the same vault reading, measured from the remembered weights and prices |
| Ticks.TickLoop.Prepare | backend/src/scheduler/tick.ts:173-221 | Reading, answer, pricing and clamp, with investors acting before and after the reading: the vault is left as the settlement finds it, and the log has their calls only |
| Ticks.TickLoop.ReportTrades | backend/src/scheduler/tick.ts:247-258 | One event for each trade in order, and no asset moved |
| Ticks.TickLoop.SettleAndReport | backend/src/scheduler/tick.ts:223-258 | A vault read without depositors is not settled; a reverted settlement reports nothing and changes nothing; any other is settled and then reported |
| Ticks.TickLoop.RunTick | backend/src/scheduler/tick.ts:173-345 | One tick against the contract leaves the world that `Tick` says and adds to the vault's log exactly what investors did, the settlement and the trades reported, wherever the tick fails |
| Ticks.BuffersBetweenSettlements | contracts/src/StrategyVault.sol:70-109 | Between settlements the reserve never shrinks; without withdrawals, nor do the managed assets and the supply |
| Ticks.ClampedDeltaAccepted | backend/src/scheduler/tick.ts:216-245 | A delta clamped to the vault as read is accepted by the vault as found if and only if a gain still finds a share and a loss still finds its assets |
| Ticks.AcceptedWithoutWithdrawals | backend/src/scheduler/tick.ts:216-245 | Deposits and top-ups in between never make a settlement fail |
| Ticks.GainAcceptedWhileSharesRemain | backend/src/scheduler/tick.ts:216-245 | A gain survives withdrawals as long as one share is left |
| Ticks.WithdrawalCanDefeatTheClamp | backend/src/scheduler/tick.ts:216-245 | A withdrawal in between can make a clamped loss revert: a run from the empty vault |
| Ticks.TickKeepsWorld | backend/src/scheduler/tick.ts:173-345 | A tick keeps the vault solvent, the remembered weights valid and the remembered prices non-negative, and never needs the `managed-assets` cut |
| Ticks.EveryRunOfTicks | backend/src/scheduler/tick.ts:125-340 | The same over every run of ticks, whatever the strategy answers and whichever writes fail |
| Ticks.LogHoldsLastSuccess | backend/src/scheduler/tick.ts:177-178 | Over every run of ticks the execution log holds the weights that the last successful one decided |
| Ticks.LostStateFallsBack | backend/src/scheduler/tick.ts:177-182 | A tick that finds no state file goes on from those weights and measures no move |
| TickRuns.TickIsItsCalls | backend/src/scheduler/tick.ts:173-258 | A tick does to the vault what its investors' calls, one settlement and one report for each trade do, and adds their log |
| TickRuns.TicksAreNetOfLog | backend/src/scheduler/tick.ts:173-258 | Over every run of ticks what the vault manages is what it began with and what the log says went in, came out and was settled |
| TickRuns.FoldedTicksAreTheVault | backend/src/lib/chain-metrics.ts:123-179 | From the deployment on, the log of any run of ticks, delivered in any order, folds to the vault that the last tick left |
| TickRuns.ReportsInOrder | backend/src/scheduler/tick.ts:247-258 | A tick that does not fail after settling reports all its trades, one that does reports those it got to |
| TickRuns.TradeEventsSpeakOfTheBook | backend/src/scheduler/tick.ts:247-258 | Each trade event names a symbol whose weight the decision changed, the side of the change, the price the oracle quotes and its share of the assets to within a base unit |
| Ticks.SettledExactly | backend/src/scheduler/tick.ts:223-245 | Without withdrawals in between, a tick adds exactly the clamped delta to what it finds managed, and touches nothing else |
| Ticks.RememberedIffWritten | backend/src/scheduler/tick.ts:310-345 | Of the ticks whose settlement landed, those leave their weights and prices behind that neither fail afterwards nor lose the write of the state file; the others leave the old state |
| Ticks.IntervalsMeetIffRemembered | backend/src/scheduler/tick.ts:176-182 | The next interval begins where this one ended if and only if this one was remembered, and otherwise begins where this one began |
| Ticks.StillPricesTellThemApart | backend/src/scheduler/tick.ts:206-213 | When prices stand still after a settled tick, the next tick earns nothing if it was remembered and prices every one of its moves again if not |
| Ticks.RepeatedMoveIsRightIff | backend/src/scheduler/tick.ts:206-213 | After a tick that was not remembered, each held asset's leg in the next is measured from where the first began: right before rounding if and only if the price is now zero or had not moved, never less than due after a rise nor more after a fall, and different where the exact values are two base units apart |
| Ticks.OneRiseSettledTwice | backend/src/scheduler/state.ts:50-63 | From a loop that remembers nothing, on a vault reached from the empty one: a tick at 100 is remembered, and then one rise to 110 on a book of 1000 ends at 1100 if the next tick is remembered, and at 1210 if it fails after settling or loses its state file |
| ChainMetrics.FoldLogs | backend/src/lib/chain-metrics.ts:123-179 | The fold over the sorted log computes the reading whose properties follow |
| ChainMetrics.CountInvestors | backend/src/lib/chain-metrics.ts:168-168 | Counts the investors with a positive tally |
| ChainMetrics.OrderIsUnique | backend/src/lib/chain-metrics.ts:130-133 | Entries with different places have one order only |
| ChainMetrics.SortingUndoesDelivery | backend/src/lib/chain-metrics.ts:128-133 | However the node delivers the log, filtering and sorting give the chain's order back |
| ChainMetrics.FoldFollowsTheVault | backend/src/lib/chain-metrics.ts:138-166 | Folding the log of a run keeps step with the vault: assets, supply, every holding, one point per settlement |
| ChainMetrics.ReadingIsTheVault | backend/src/lib/chain-metrics.ts:123-179 | Folding any permutation of the complete log of any run gives that vault's managed assets, supply, NAV per share and number of holders, and each series point the totals in force at its settlement |
| ChainMetrics.TallyIsTheHolding | backend/src/lib/chain-metrics.ts:143-157 | The tally behind the count is each investor's holding |
| ChainMetrics.ReadingIsDated | backend/src/lib/chain-metrics.ts:138-166 | Each point carries the time of the block that mined it |
| ChainMetrics.UndatedIsLeftOut | backend/src/lib/chain-metrics.ts:138-140 | An entry in a block without a known time is left out altogether: the reading is that of the log without it, in whatever order the log came |
| Positions.PositionStore.OnFile | backend/src/routes/strategies.ts:449-454 | Finds a hash exactly when an event with it is on file |
| Positions.PositionStore.CheckRequest | backend/src/routes/strategies.ts:383-399 | The checks before the receipt, in their order |
| Positions.PositionStore.ServeOthers | backend/src/routes/strategies.ts:396-401 | The requests served while one waits take effect in their order |
| Positions.PositionStore.RecordTransfer | backend/src/routes/strategies.ts:383-447 | The handler's checks in its order, other requests served while it waits for the receipt, then the write; what it leaves and answers is `ServeWaiting` |
| Positions.PositionStore.ApplyTransfer | backend/src/routes/strategies.ts:469-544 | The write transaction: checks the hash again, moves the one position by the receipt's shares and assets and appends the event; what that does to the basis is `AcceptedMovesOnePosition` |
| Positions.ServeStaysExplained | backend/src/routes/strategies.ts:383-544 | Every position is the fold of its events on file, and no hash is on file twice |
| Positions.EveryRunStaysExplained | backend/src/routes/strategies.ts:383-544 | The same over every run of requests |
| Positions.ReplayChangesNothing | backend/src/routes/strategies.ts:396-399 | A hash on file changes nothing again, whoever presents it; an accepted request adds exactly one event, for a hash that was new |
| Positions.WaitingIsServingLater | backend/src/routes/strategies.ts:396-478 | A request that waited while others were served leaves what it would have left had it been served after them, and is accepted in the same cases: the second look-up is enough |
| Positions.AcceptedIsTheCallersOwn | backend/src/routes/strategies.ts:401-425 | What is written down is an event of a successful transaction, of the claimed kind, with the strategy's vault, by the caller's wallet, at the receipt's amounts |
| Positions.StatusSaysWhy | backend/src/routes/strategies.ts:383-401 | The status of a refusal says why and which of several reasons counts: no session, no such strategy, no vault or a hash on file, an unreachable node, and only then the receipt |
| Positions.ForeignOrMissing | backend/src/routes/strategies.ts:401-424 | A 403 is for a transfer that is there and somebody else's, a 400 for one that is not there |
| Positions.AcceptedMovesOnePosition | backend/src/routes/strategies.ts:503-522 | An accepted deposit raises shares and cost basis of its own position by exactly the receipt's; an accepted redemption lowers the shares and releases a fair part of the basis; no other position moves, and the reply is the stored row |
| Positions.ShortfallIsDeepestPrefix | backend/src/routes/strategies.ts:503-522 | The clamp has fired exactly when some prefix of the record sums below zero |
| Positions.PositionIsLiftedSum | backend/src/routes/strategies.ts:503-522 | A position is the signed sum of its own record lifted by the deepest shortfall, so it is that sum if and only if no prefix of the record ran below zero |
| Positions.WrongOrderDiverges | backend/src/routes/strategies.ts:503-522 | A run of a deposit and its full redemption, recorded in the wrong order by two requests that are both accepted, leaves five shares that the chain does not have |
| Positions.CompleteRecordIsTheChain | backend/src/routes/strategies.ts:469-544 | Recorded completely and in chain order, a position has the chain's shares after every run of the vault, and the clamp never fires on the way |
| Positions.StoredPositionIsTheHolding | backend/src/routes/strategies.ts:469-544 | The stored row too, whatever requests led to it |
| Positions.PositionAgainstTheChain | backend/src/routes/strategies.ts:469-544 | Whatever requests led to it, in whatever order: a stored position is the holding on the chain, less the net of the transfers missing from the record, plus how far the record ever ran below zero |
| Positions.CompleteRecordAgreesIff | backend/src/routes/strategies.ts:503-522 | A record with all of an investor's transfers, in any order, gives the holding if and only if no redemption was recorded ahead of what it redeems |
| Positions.BasisWithinDeposits | backend/src/routes/strategies.ts:503-522 | Always: shares are not negative, no shares means no basis, and the basis never exceeds what was deposited |
| Positions.BasisIsDepositsLessReleases | backend/src/routes/strategies.ts:503-522 | In any record the basis is the deposits less what each redemption released, and each release is the redeemed part of the basis, within a base unit, or all of it |
| Positions.DepositsAddUp | backend/src/routes/strategies.ts:507-510 | A record without redemptions has a basis equal to its deposits, and their shares |
| Positions.TransfersMoveShares | contracts/src/StrategyVault.sol:70-101 | The vault's transfers always move at least one share |
| Positions.BasisAfterPartialRedemptions | backend/src/routes/strategies.ts:558-564 | After k partial redemptions the basis is at least the exact proportional part and less than k base units above it |
| Settlement.StepIsSafe | frontend/src/lib/settlement.ts:60-223 | No step of calls, flushes, late, repeated or lost requests and answers breaks: every transfer handed over is queued or on file, unless somebody answered 400, 403, 404 or 409 about it while it was not on file; the queue holds no hash twice; the record holds no hash twice |
| Settlement.EveryRunIsSafe | frontend/src/lib/settlement.ts:60-223 | The same in every interleaving, whatever the servers answer |
| Settlement.StartIsSafe | frontend/src/lib/settlement.ts:92-112 | Where every run starts |
| Settlement.EveryRunIsNumbered | frontend/src/lib/settlement.ts:144-185 | Requests are told apart by their call and attempt in every interleaving |
| Settlement.AtMostFourRequests | frontend/src/lib/settlement.ts:144-185 | One call sends at most four requests |
| Settlement.DroppingReplyIffDenied | backend/src/routes/strategies.ts:383-424 | For a hash not on file the handler answers 400, 403, 404 or 409 if and only if the session is good and the strategy, its vault or the caller's transfer is not there to be seen |
| Settlement.MisledOnlyByMisleading | frontend/src/lib/settlement.ts:65-84 | A transfer becomes one that may be dropped unrecorded only by such an answer from the handler, or by that status from something in between |
| Settlement.GenuineIsDeniedIff | backend/src/routes/strategies.ts:401-424 | A transfer that happened, with a strategy that has its vault, is denied if and only if the node answers without having the transaction yet or the session belongs to another wallet |
| Settlement.GenuineTransferIsKept | frontend/src/lib/settlement.ts:136-223 | In every run in which neither of the two happens to it and nothing in between makes up a final answer, a transfer that happened is at every moment queued or on file |
| Settlement.FirstTryLosesIff | frontend/src/lib/settlement.ts:144-185 | A first try loses its transfer, out of the queue and not on file, if and only if the handler denies it for another reason than a missing vault |
| Settlement.LaggingNodeLosesTheTransfer | frontend/src/lib/settlement.ts:65-76 | A transfer that happened, presented by its own wallet to a node that has not seen it yet, is dropped; the same request to a node that has would be accepted |
| Settlement.EnqueuedHolds | frontend/src/lib/settlement.ts:124-128 | Enqueuing adds that hash and no other, and never twice |
| Settlement.WithoutRemovesOnly | frontend/src/lib/settlement.ts:130-134 | Dequeuing removes the entries of that hash and no other |
| Settlement.Client.Enqueue | frontend/src/lib/settlement.ts:124-128 | The stored queue gains the transfer at its end, unless its hash is queued already |
| Settlement.Client.Dequeue | frontend/src/lib/settlement.ts:130-134 | The stored queue loses the entries of that hash, and only those, in place |
| Settlement.Client.Record | frontend/src/lib/settlement.ts:52-54 | One request over a network that may lose it, lose the answer, handle it twice or break: the server's book and the reply are those of that delivery |
| Settlement.Client.RecordSettledTransfer | frontend/src/lib/settlement.ts:144-185 | The retry loop: stops at the first reply that is not retryable or at the fourth attempt, and drops the entry exactly when that reply says so |
| Settlement.Client.Replay | frontend/src/lib/settlement.ts:200-220 | One entry of a flush: the request, and what becomes of the entry |
| Settlement.Client.FlushUnrecorded | frontend/src/lib/settlement.ts:194-223 | Replays each queued entry once and keeps those whose reply leaves hope |
| Settlement.ExchangeMeansWhatItSays | frontend/src/lib/settlement.ts:78-84 | A delivery that neither denies nor makes up a final answer has the transfer on file whenever the client drops it for the reply |
| Settlement.DroppedIsRecorded | frontend/src/lib/settlement.ts:144-185 | Over such deliveries, lost and repeated ones included, a call that drops its transfer has it on file |
| Settlement.FlushedIsRecorded | frontend/src/lib/settlement.ts:194-223 | Over such deliveries a flush takes nothing off the queue that is not on file |
| Settlement.ReachableAnswersForGood | frontend/src/lib/settlement.ts:194-223 | Over a working network every reply is a final one |
| Settlement.FlushDropsEveryEntry | frontend/src/lib/settlement.ts:194-223 | Over a working network a flush removes every entry it replays and no other |
| Settlement.WorkingFlushLeavesNothing | frontend/src/lib/settlement.ts:194-223 | Over a working network a flush empties the queue |
| Settlement.ConflictOnNewHash | frontend/src/lib/settlement.ts:82-84 | For a hash not on file a 409 comes back if and only if the strategy has no vault |
| Settlement.NoVaultStaysQueued | frontend/src/lib/settlement.ts:144-185 | That 409 leaves the transfer queued at first |
| Settlement.NoVaultLosesTheTransfer | frontend/src/lib/settlement.ts:194-223 | The next flush takes it for a record: the transfer leaves the queue unrecorded |
| Settlement.StopsAtFirstAnswer | frontend/src/lib/settlement.ts:152-178 | A call goes on for as long as another attempt could help, four times at most, and ends on the first reply that settles it |
| Settlement.OutageIsRiddenOut | frontend/src/lib/settlement.ts:49-50 | An outage of up to three attempts is ridden out: the next one records the transfer and drops it from the queue |
| SettlementRuns.RecordingLeftAlone | frontend/src/lib/settlement.ts:144-185 | A recording call started in the interleaving machine at any moment and then left alone does to server, queue and calls under way what the call does on its own |
| SettlementRuns.FlushLeftAlone | frontend/src/lib/settlement.ts:194-223 | The same for a flush |
| SettlementRuns.AnswersAreHeardOnce | frontend/src/lib/settlement.ts:152-178 | An answer delivered again, or while the call waits for its timer, does nothing |
| SettlementRuns.ReloadThenFlush | frontend/src/lib/settlement.ts:187-198 | A reload keeps the queue and forgets the calls: nothing leaves the queue until the next call, whatever still reaches the server, and a flush left alone on a working network then empties it |
| SettlementRuns.FirstAnswerDecides | frontend/src/lib/settlement.ts:152-178 | The first answer that comes through decides a call, whatever was lost before: the transfer leaves the queue if and only if the session is good and it is not a first attempt that met a conflict |
| SettlementRuns.SilenceKeepsQueued | frontend/src/lib/settlement.ts:180-184 | While no answer comes through a call makes all four attempts and leaves the transfer queued |
| SettlementRuns.ForeignErrorDropsNothing | frontend/src/lib/settlement.ts:60-63 | An error that is not the server's ends a recording call at once with its transfer queued, and a flush goes on with its next entry |
| SettlementRuns.LostAnswerIsMadeUpFor | frontend/src/lib/settlement.ts:78-84 | A recorded transfer whose answer was lost is dropped by the next attempt that is answered, and is on file once |
| SettlementRuns.FlushDecides | frontend/src/lib/settlement.ts:200-220 | One entry of a flush leaves the queue if and only if an answer came through on a good session, and counts as settled if and only if it was recorded or met a conflict |
| SettlementRuns.SilenceSettlesNothing | frontend/src/lib/settlement.ts:219-220 | An entry about which no answer came through stays queued and is not counted |
| ValueSeries.CountUpTo | backend/src/routes/dto.ts:450-455 | The event cursor ends on the signed sum of all events at or before the snapshot |
| ValueSeries.PositionValueSeries | backend/src/routes/dto.ts:430-465 | The cursor sweep gives, for each snapshot from the start on, the claim of the shares held by then |
| ValueSeries.PositionSeriesCovers | backend/src/routes/dto.ts:435-444 | A line ascends, leaves out no snapshot from its start on, and has no point before the first event |
| ValueSeries.Advance | backend/src/routes/portfolio.ts:178-187 | A line's cursor and carried value end on exactly the points at or before the time |
| ValueSeries.AdvanceAll | backend/src/routes/portfolio.ts:175-188 | After one column every line's cursor and carried value have taken in exactly the points up to that time |
| ValueSeries.Sweep | backend/src/routes/portfolio.ts:166-190 | The multi-cursor sweep equals the plain definition: at each time of the sorted union, the sum over the lines of the last value at or before it |
| ValueSeries.SortedUnion | backend/src/routes/portfolio.ts:166-168 | The times of all lines, each once, ascending |
| ValueSeries.LinesWithPoints | backend/src/routes/portfolio.ts:158-163 | Leaving out holdings without points changes neither times nor totals |
| ValueSeries.PortfolioValueSeries | backend/src/routes/portfolio.ts:157-193 | The whole portfolio: the last 500 points of the plain sum over all holdings |
| ValueSeries.LastPointIsCurrent | backend/src/routes/portfolio.ts:149-192 | The series ends on what every line ends on; an idle strategy is carried, not dropped |
| ValueHistory.SharesAreTheHolding | backend/src/routes/dto.ts:446-455 | At a moment between two calls the record adds up to what the investor's holding in the vault has changed by |
| ValueHistory.PointIsTheClaim | backend/src/routes/dto.ts:449-463 | A point of the line is what the investor could have claimed in the vault at that snapshot |
| ValueHistory.CarriedIsLatest | backend/src/routes/portfolio.ts:180-185 | A line is carried at its latest value at or before the moment, and at 0 before it begins |
| ValueHistory.OnePointForEachMoment | backend/src/routes/portfolio.ts:166-190 | The portfolio has one point for each moment at which a line has one, in ascending order, at the sum of what the lines are carried at |
| Scheduler.StepIsSound | backend/src/scheduler/scheduler.ts:75-231 | No step oversells a slot, leaves one idle while a run waits, puts two runs of a strategy in flight or leaves a timer after the stop |
| Scheduler.EveryRunIsSound | backend/src/scheduler/scheduler.ts:75-231 | The same in every interleaving |
| Scheduler.NewMachineIsSound | backend/src/scheduler/scheduler.ts:96-111 | Where every run starts |
| Scheduler.NeverTwoInFlight | backend/src/scheduler/scheduler.ts:124-165 | Two live runs of one strategy are the same run |
| Scheduler.FirstComeFirstServed | backend/src/scheduler/scheduler.ts:75-94 | Waiting runs move up by one for each release and nobody overtakes them |
| Scheduler.GrantedAfterExactly | backend/src/scheduler/scheduler.ts:75-94 | The waiter at position k is granted with exactly the (k+1)-th release |
| Scheduler.StaggeredEvenly | backend/src/scheduler/scheduler.ts:182-199 | A cycle's ticks fall inside the interval, one even share apart give or take a millisecond |
| Scheduler.TimerLeadsToTick | backend/src/scheduler/scheduler.ts:186-197 | When a timer fires in a running loop its strategy is in flight: under a new number, at work if a slot was free and else last in the line; if it already was, nothing but the timer is used up |
| Scheduler.RequestLeadsToTick | backend/src/scheduler/scheduler.ts:124-165 | The same for whoever asks for a tick, whether the loop runs or not |
| Scheduler.TimersAddUp | backend/src/scheduler/scheduler.ts:182-202 | Until the loop is stopped no timer is lost and none appears by itself: those that fired and those left are those that cycles armed |
| Scheduler.LiveStrategyIsTicked | backend/src/scheduler/scheduler.ts:167-202 | Every strategy live at a cycle has a timer that stays until it fires and then puts the strategy in flight, and the next cycle is armed, unless the loop is stopped first |
| Scheduler.StoppedAsksForNothing | backend/src/scheduler/scheduler.ts:212-222 | A stopped loop asks for nothing until it is started again, whatever else happens |
| Scheduler.GrantedGoesToWork | backend/src/scheduler/scheduler.ts:85-88 | A granted run goes to work and nothing else changes |
| Scheduler.RunComesToItsEnd | backend/src/scheduler/scheduler.ts:88-161 | A run that settles, whatever came of it, hands its slot to whoever has waited longest, is counted once and forgotten, and its strategy can be ticked again |
| Scheduler.EveryRunIsCounted | backend/src/scheduler/scheduler.ts:113-122 | Over every run each tick asked for is counted once or still to be reported, and a failure is a tick |
| Scheduler.TickScheduler.constructor | backend/src/scheduler/scheduler.ts:96-111 | A new scheduler is idle |
| Scheduler.TickScheduler.Tick | backend/src/scheduler/scheduler.ts:124-165 | A tick asked for joins the run in flight, takes a free slot or waits |
| Scheduler.TickScheduler.Resumed | backend/src/scheduler/scheduler.ts:85-93 | A granted run starts its work |
| Scheduler.TickScheduler.Release | backend/src/scheduler/scheduler.ts:79-83 | A release hands the slot to the first waiter or back to the pool |
| Scheduler.TickScheduler.WorkSettled | backend/src/scheduler/scheduler.ts:88-92 | Finished work releases its slot, whatever came of it |
| Scheduler.TickScheduler.Report | backend/src/scheduler/scheduler.ts:113-122 | An outcome is counted once, a failure as such, and only after its slot is back |
| Scheduler.TickScheduler.Cleanup | backend/src/scheduler/scheduler.ts:159-161 | A reported run leaves the in-flight map |
| Scheduler.TickScheduler.Cycle | backend/src/scheduler/scheduler.ts:167-202 | A cycle arms the next one and schedules every live strategy |
| Scheduler.TickScheduler.ScheduleAll | backend/src/scheduler/scheduler.ts:182-199 | One timer for each live strategy |
| Scheduler.TickScheduler.TimerFired | backend/src/scheduler/scheduler.ts:186-197 | A timer is used up and asks for its tick unless the loop has stopped; what that leads to is `TimerLeadsToTick` |
| Scheduler.TickScheduler.Start | backend/src/scheduler/scheduler.ts:205-210 | Starting is done once |
| Scheduler.TickScheduler.Stop | backend/src/scheduler/scheduler.ts:212-222 | Stopping disarms every timer |
| Oracle.PriceWalk.constructor | backend/src/oracle/walk.ts:220-231 | A walk starts before its first step |
| Oracle.PriceWalk.Advance | backend/src/oracle/walk.ts:233-245 | Yields the starting prices first and then one step per call |
| Oracle.RowIsStep | backend/src/oracle/index.ts:132-198 | Row i of the table is step i of the pure walk, and the times are equally spaced |
| Oracle.WalkGoesOn | backend/src/oracle/walk.ts:220-245 | The first step moves the state on once, and a walk taken up again at any of its states goes on as it would have |
| Oracle.BackfillReproduces | backend/src/oracle/index.ts:132-168 | A backfill over a wiped table gives the same prices again |
| Oracle.Oracle.constructor | backend/src/oracle/index.ts:60-72 | An empty table and no cached generator |
| Oracle.Oracle.WalkPricesAt | backend/src/oracle/index.ts:74-79 | The cached generator returns what a replay from step 0 would, for any step asked for |
| Oracle.Oracle.ResetWalkCache | backend/src/oracle/index.ts:82-85 | Forgetting the generator loses nothing |
| Oracle.Oracle.EnsureBackfilled | backend/src/oracle/index.ts:132-168 | Fills an empty table once, all or nothing, and leaves any other alone |
| Oracle.Oracle.EnsureHistory | backend/src/oracle/index.ts:200-203 | Once a table is known to be filled nothing is looked up again; an empty one is filled before a read, or the read fails |
| Oracle.Oracle.Generate | backend/src/oracle/index.ts:140-148 | The rows of a backfill are the first steps of the walk |
| Oracle.Oracle.AppendStep | backend/src/oracle/index.ts:177-197 | Appends the next step one interval on, or stores nothing when the insert fails |
| Oracle.Oracle.Tick | backend/src/oracle/index.ts:174-198 | A tick returns the row it stored, after a backfill of an empty table |
| Oracle.Oracle.Drive | backend/src/oracle/index.ts:74-274 | Over any mix of ticks, reads, failed inserts, backfills, resets, restarts and wipes the table stays a prefix of the walk |
| Oracle.Oracle.SeriesFor | backend/src/oracle/index.ts:240-274 | A read fills an empty table first, all or nothing, and then gives one bucket for each of the newest ticks, oldest first |
| Oracle.Oracle.StoredSeries | backend/src/oracle/index.ts:245-274 | The range scan from the cutoff and the grouping give the newest ticks of the table as it is |
| Oracle.Oracle.GroupByTick | backend/src/oracle/index.ts:266-273 | The loop collects each time's rows in their order and lists the times in the order they first appear |
| Oracle.QueryIsNewest | backend/src/oracle/index.ts:249-264 | The range scan from the cutoff reads exactly the newest ticks' rows |
| Oracle.GroupingUndoesTheQuery | backend/src/oracle/index.ts:266-273 | Grouping the ordered rows by time gives each tick's rows back, in order |
| Oracle.SeriesIsNewest | backend/src/oracle/index.ts:240-274 | Scan and grouping together give the newest ticks |
| Oracle.History | backend/src/scheduler/wiring.ts:28-43 | What a strategy is handed: the read, with the backfill it may need, the filter for what is older than the newest, the last `limit` of it, in seconds |
| Oracle.HistoryIsTheLastBeforeNewest | backend/src/scheduler/wiring.ts:28-43 | It is exactly the last `limit` snapshots before the newest |
| Oracle.HistoryNeedsAQuotedSymbol | backend/src/scheduler/wiring.ts:28-43 | The window is complete if and only if the oracle quotes one of the strategy's assets |
| Oracle.AlignedIsLastBoundary | backend/src/oracle/index.ts:108-110 | A new table begins on the whole minute that has just gone by |
| Oracle.BucketHolds | backend/src/oracle/index.ts:249-273 | A bucket has one price for each symbol asked for, its own, in the order of the names |
| Oracle.HistoryIsTheWalk | backend/src/scheduler/wiring.ts:28-43 | What a strategy is shown are the walk's own prices for its own symbols, one step after the other up to the one before the newest, a minute apart, in seconds |
| Oracle.WindowWithinLimit | backend/src/scheduler/wiring.ts:28-43 | However far the newest snapshot is ahead of the table, no more than `limit` ticks are shown, the newest ones |
| Publish.EffectKeeps | backend/src/strategy/publish.ts:134-322 | Each effect of a publish call keeps every row, link and registry entry consistent, and leaves other submissions alone |
| Publish.EffectCounts | backend/src/strategy/publish.ts:199-262 | Only deploying deploys, only writing back records a vault, only registering registers |
| Publish.StepIsConsistent | backend/src/strategy/publish.ts:96-340 | So does every step of the system: calls, errors, crashes, edits, submissions, posted secrets, spent reserve |
| Publish.EveryRunIsConsistent | backend/src/strategy/publish.ts:96-340 | The same over every run |
| Publish.NothingMissingIsExact | backend/src/strategy/publish.ts:365-389 | A strategy that holds nothing but rows of the submission and misses none of its keys holds exactly what was posted |
| Publish.EffectKeepsSecrets | backend/src/strategy/publish.ts:365-389 | No effect puts anything but the submission's own rows on its strategy, nor touches another's |
| Publish.EveryRunKeepsSecrets | backend/src/routes/submissions.ts:168-211 | The same over every run, secrets posted again and again before the link included |
| Publish.PublishingIsResumable | backend/src/strategy/publish.ts:96-340 | With a crash or an error anywhere and any number of retries: one strategy per submission, the recorded vault operated by the recorded wallet, the registry entry written once and equal to the record, live only when anchored and with exactly the ciphertexts posted, at most one vault more than were lost between deployment and write-back |
| Publish.UndisturbedRetrySucceeds | backend/src/strategy/publish.ts:111-340 | Whatever came before, one retry that is left alone ends with submission and strategy live, the vault on record and anchored, the wallet funded, the reserve at the target and exactly the posted ciphertexts carried |
| Publish.EffectProgresses | backend/src/strategy/publish.ts:134-322 | A call that is left alone is never stuck, and each effect brings it nearer to its end |
| Publish.EffectProvides | backend/src/strategy/publish.ts:192-322 | A call that is left alone has its wallet funded from the gas step on, its reserve at the target from the top-up on, and its submission live when it ends |
| Publish.CarryingHelps | backend/src/strategy/publish.ts:366-389 | Carrying a secret never uncovers another |
| Publish.RerunRepeatsNothing | backend/src/strategy/publish.ts:199-262 | Once anchored, a rerun deploys and registers nothing, however far it gets |
| Publish.RerunAfterSuccess | backend/src/strategy/publish.ts:111-340 | In particular after a success |
| PublishHistory.EveryRunWritesOnce | backend/src/strategy/publish.ts:134-322 | Through calls, errors, crashes, retries and edits: hash, wallet, vault and secrets of a row, the link to it, its registry entry and a vault's operator are written once |
| PublishHistory.ReservesOnlyGrow | backend/src/strategy/publish.ts:218-236 | Publishing tops a reserve up and never draws it down |
| PublishHistory.NoSharedWallets | backend/src/strategy/publish.ts:175-216 | In every run no two strategies share an agent wallet, and so no two share a vault |
| PublishHistory.SnapshotOfBegin | backend/src/strategy/publish.ts:117-133 | A call works on the submission as it was when the call began |
| PublishHistory.HashOfBegin | backend/src/strategy/publish.ts:139-168 | In every run the hash of a linked strategy is the one its submission had, with every check passed, at the beginning of the call that created it |
| PublishHistory.AnchoredHashIsTheBegun | backend/src/strategy/publish.ts:238-262 | And so is the hash in the registry |
| PublishHistory.AnchoredIsWhatWasChecked | backend/src/routes/submissions.ts:418-423 | In every run the anchored hash is the one the submission still has on record, with every check passed |
| PublishHistory.PublishedStaysAsItWas | backend/src/routes/submissions.ts:418-423 | Once it has a strategy a submission stays as it was published, but for going live, whatever is posted, saved or checked afterwards |
| PublishHistory.UndisturbedRetryAnchors | backend/src/strategy/publish.ts:111-340 | A retry that is left alone anchors the hash the submission had when it began, or finds the hash of the strategy it has |
| PublishHistory.PublishedByItsSteps | backend/src/strategy/publish.ts:96-340 | From anywhere an admitted submission that nobody is publishing is published by beginning a call and letting it go on |
| PublishHistory.RetriedAfterFailure | backend/src/strategy/publish.ts:96-340 | Also after the call under way has failed, or the process has died with it |
| PublishHistory.EndedIsForgotten | backend/src/strategy/publish.ts:103-107 | A call that has ended is forgotten, so that the next one may begin, and leaves tables and chain as they are |
| PublishHistory.PublishedFromScratch | backend/src/strategy/publish.ts:111-340 | Handed in, given its secrets, checked and published, a submission ends live with its own secrets on its strategy and its own hash anchored |
| PublishHistory.ToppedUpExactly | backend/src/strategy/publish.ts:218-236 | A retry that is left alone brings its vault's reserve up to the target and not beyond, whatever had been spent, and moves no other vault's |
| PublishHistory.SpendingIsSeen | backend/src/strategy/publish.ts:218-221 | What a settlement takes out of a reserve is gone until the next call, and no other reserve moves |
| Publish.Publisher.StrategyStep | backend/src/strategy/publish.ts:134-173 | The row and the link to it are written together, or found; whose hash the row carries is `PublishHistory.HashOfBegin` |
| Publish.Publisher.WalletStep | backend/src/strategy/publish.ts:175-190 | The agent wallet is generated once and reused |
| Publish.Publisher.GasStep | backend/src/strategy/publish.ts:192-197 | Funding the wallet is repeatable: a wallet funded once stays funded |
| Publish.Publisher.DeployStep | backend/src/strategy/publish.ts:199-203 | A vault is deployed only if the row read at the start has none, with the agent wallet as operator |
| Publish.Publisher.WriteVaultStep | backend/src/strategy/publish.ts:204-207 | The deployed address is written to the row |
| Publish.Publisher.ReserveStep | backend/src/strategy/publish.ts:218-236 | The reserve is topped up to the target and never drawn down |
| Publish.Publisher.RegisterStep | backend/src/strategy/publish.ts:238-262 | The vault and the recorded hash are anchored unless the registry has an entry |
| Publish.Publisher.CarryStep | backend/src/strategy/publish.ts:366-389 | The next secret that is missing, never overwriting |
| Publish.Publisher.GoLiveStep | backend/src/strategy/publish.ts:308-322 | Strategy and submission go live in one transaction |
| Publish.Publisher.Publish | backend/src/strategy/publish.ts:111-340 | A call that survives for some number of effects has done exactly those |
| FuzzyMatcher.Matcher.constructor | backend/src/routes/fuzzy.ts:64-66 | A matcher starts with an empty memo |
| FuzzyMatcher.Matcher.Find | backend/src/routes/fuzzy.ts:68-95 | The memoised search answers what the plain recursion answers, whatever it has remembered before |
| FuzzyMatcher.Matcher.Remember | backend/src/routes/fuzzy.ts:74-94 | No two subproblems share a memo key |
| FuzzyMatcher.RunFuzzyMatch | backend/src/routes/fuzzy.ts:58-98 | An empty query matches everything without a position; a target too short or too long matches nothing; anything else is searched from the start |
| FuzzyMatcher.EmptyQueryMatchesAll | backend/src/routes/fuzzy.ts:56-60 | An empty query, or one of white space alone, matches every target with no score and no highlight |
| FuzzyMatcher.BonusIs | backend/src/routes/fuzzy.ts:37-46 | What a character is worth for where it stands: 18 at the start, 14 behind one of the fourteen separators, 10 for a capital behind what is none, and nothing elsewhere |
| FuzzyMatcher.CaseAndSpacesDoNotMatter | backend/src/routes/fuzzy.ts:58-62 | Neither the case of a query nor the white space around it changes what it matches |
| FuzzyMatcher.SpellsMeans | backend/src/routes/fuzzy.ts:25-30 | A placement is the same as strictly ascending positions that spell the query |
| FuzzyMatcher.FoundIsAPlacement | backend/src/routes/fuzzy.ts:68-95 | What the search returns is a placement whose score is its closed form: a point and a boundary bonus per character, a bonus per adjacency, less one per character skipped up to the last match |
| FuzzyMatcher.MatchedIffSubsequence | backend/src/routes/fuzzy.ts:54-98 | No match is reported if and only if the target is too long or does not contain the query as a subsequence |
| FuzzyMatcher.NearBest | backend/src/routes/fuzzy.ts:68-95 | No placement scores more than 11 per further character above the answer to a subproblem |
| FuzzyMatcher.MatchIsNearBest | backend/src/routes/fuzzy.ts:54-98 | The reported score is that of a real placement, and no placement scores more than 11(n-1) above it for an n-character query |
| FuzzyOptimality.NoPairsIsBest | backend/src/routes/fuzzy.ts:68-95 | Where no two neighbours of the target are neighbours of the query, the search gives the best-scoring placement, under any bonuses |
| FuzzyOptimality.DecoyIsNotBest | backend/src/routes/fuzzy.ts:68-95 | Behind every query of two characters or more its last one, on a bonus of 4 to 14 and with none before it, makes the search give less than the query's own place |
| FuzzyOptimality.AlwaysBestIffShort | backend/src/routes/fuzzy.ts:68-95 | Under arbitrary bonuses the search gives a best placement in every target if and only if the query has at most one character |
| FuzzyOptimality.GapIsAttainedAtEveryLength | backend/src/routes/fuzzy.ts:68-95 | Under arbitrary bonuses the gap of 11 for each character after the first is attained by queries of every length |
| FuzzyBoundaries.SecondStays | backend/src/routes/fuzzy.ts:37-46 | Right behind a separator that the query begins with, no later place outscores the query's second character |
| FuzzyBoundaries.ShortIsMatchedBest | backend/src/routes/fuzzy.ts:54-98 | A query of one character, or of a separator and one more, is matched best in every target |
| FuzzyBoundaries.LateLastIsNotBest | backend/src/routes/fuzzy.ts:68-95 | A query whose second to last character is no separator loses to its own place in a target that ends in its last character once more, on a boundary |
| FuzzyBoundaries.LatePairIsNotBest | backend/src/routes/fuzzy.ts:68-95 | A query that ends in a character, a separator and one more loses to its own place in a target that ends in the last two once more, on a boundary |
| FuzzyBoundaries.SplitPairIsNotBest | backend/src/routes/fuzzy.ts:68-95 | A query that ends in two separators and one more loses in a target where the last stands apart and the last two come once more |
| FuzzyBoundaries.MatchedBestIff | backend/src/routes/fuzzy.ts:54-98 | A query of at most 232 characters is matched best in every target if and only if, trimmed, it has at most one character, or two of which the first is a separator |
| FuzzyGap.GapIsAttainedByMatcher | backend/src/routes/fuzzy.ts:54-98 | For each length from 2 to 11 a query and a target of at most 123 characters whose reported score is exactly 11(n-1) below that of the query in its own place |
| FuzzyMatcher.NotAlwaysTheBest | backend/src/routes/fuzzy.ts:54-57 | The documented best score is not always found: `abc` on `abc bc` scores 44 at 0, 4, 5, while 0, 1, 2 score 45 |
| FuzzyMatcher.GapIsAttained | backend/src/routes/fuzzy.ts:54-57 | The gap of 11 on a real query and target of two characters |
| Base64.BytesOfSextets | frontend/src/lib/secrets.ts:72-84 | Reading the six-bit groups of some bytes gives the bytes back |
| Base64.SextetsOfBytes | backend/src/lib/secret-envelope.ts:61-65 | Writing the bytes of some groups gives the groups back if and only if no bit past the last whole byte is set |
| Base64.DecodeOfEncode | frontend/src/lib/secrets.ts:72-84 | `atob` undoes `btoa` |
| Base64.DigitsRunThroughTheAlphabet | frontend/src/lib/secrets.ts:72-76 | The digits are those of RFC 4648, in its order |
| Base64.GroupsAreTheSameBits | frontend/src/lib/secrets.ts:72-76 | Four digits are the 24 bits of three bytes in their order |
| Base64.SpacesAreIgnored | frontend/src/lib/secrets.ts:79-84 | White space anywhere in the text does not matter to `atob` |
| Base64.ForeignIsRefused | frontend/src/lib/secrets.ts:79-84 | Any other character outside the alphabet, but for the padding, makes `atob` fail |
| Base64.DecodesIff | frontend/src/lib/secrets.ts:79-84 | Exactly the strings that spell digits, with or without padding, are decoded |
| Base64.PaddingIsOptional | frontend/src/lib/secrets.ts:79-84 | An encoding that has lost its padding still decodes |
| Base64.EncodeIsInjective | frontend/src/lib/secrets.ts:72-76 | Different bytes have different encodings |
| Base64.ToBase64 | frontend/src/lib/secrets.ts:72-76 | The loop that builds the binary string encodes the bytes |
| Base64.FromBase64 | frontend/src/lib/secrets.ts:79-84 | The loop that copies the codes decodes the text, or fails where `atob` does |
| SecretEnvelope.DecodedIffEncoded | backend/src/lib/secret-envelope.ts:61-65 | A part is counted as n bytes if and only if it is the encoding of n bytes, n > 0 |
| SecretEnvelope.RefusedIffStrayBits | backend/src/lib/secret-envelope.ts:56-65 | Of the parts with the right shape, those refused are exactly those with a stray bit |
| SecretEnvelope.AcceptedIffProducible | backend/src/lib/secret-envelope.ts:71-99 | The recogniser accepts, under either scheme, exactly the strings that print a version and parts of the scheme's sizes |
| SecretEnvelope.SpacedIsRefused | backend/src/lib/secret-envelope.ts:72-72 | A value with white space anywhere is refused for that |
| SecretEnvelope.OtherTagIsNamed | backend/src/lib/secret-envelope.ts:74-79 | An envelope of the other scheme is refused by naming its scheme, anything without a known tag as no envelope |
| SecretEnvelope.PartsAreCounted | backend/src/lib/secret-envelope.ts:80-85 | After the right tag: no version if and only if there is none, a wrong number of parts if and only if there is a version and not that scheme's number |
| SecretEnvelope.FirstBadPartIsNamed | backend/src/lib/secret-envelope.ts:87-96 | The first part that is not as its scheme makes it is the one named: not the encoding of anything, or of too few bytes or too many, with their number |
| SecretEnvelope.WrongSizesAreNamed | backend/src/lib/secret-envelope.ts:22-42 | A `local-dev` iv that is not 12 bytes and a ciphertext under 16 are complained about by their names, in that order, with their sizes; nothing else is |
| SecretEnvelope.WrongThresholdSizesAreNamed | backend/src/lib/secret-envelope.ts:43-48 | The same for the three parts of the other scheme |
| SecretEnvelope.ThresholdEnvelopeIsAccepted | backend/src/lib/secret-envelope.ts:43-48 | Three parts of at least 12, 16 and 16 bytes under the tag of the other scheme are accepted, and no others of three parts |
| SecretEnvelope.EveryNumberIsAVersion | backend/src/lib/secret-envelope.ts:52-52 | Any number at all is a version |
| SecretEnvelope.PrintedIsInjective | frontend/src/lib/secrets.ts:154-156 | An envelope tells its scheme, its version and every byte |
| SecretEnvelope.PrintedSplits | frontend/src/lib/secrets.ts:154-156 | A printed envelope splits into the pieces it was joined from and holds no white space |
| SecretEnvelope.PrintEnvelope | frontend/src/lib/secrets.ts:154-156 | The browser prints the `local-dev` v1 envelope of its bytes |
| SecretEnvelope.ParseEnvelope | frontend/src/lib/secrets.ts:177-190 | The parsing half of `decryptValue`, with both of its failures |
| SecretEnvelope.UndecodableIff | frontend/src/lib/secrets.ts:177-190 | Four pieces under the browser's own tag and version that do not both decode are told apart from what is not its envelope at all |
| SecretEnvelope.PrintedIsAcceptedAndRead | frontend/src/lib/secrets.ts:154-190 | For every 12-byte iv and ciphertext of at least 16 bytes the envelope is accepted and parses back to the same bytes |
| SecretEnvelope.AcceptedIsReadIffVersionOne | backend/src/lib/secret-envelope.ts:71-99 | An accepted `local-dev` string is read by the browser if and only if its version is v1, and is then the envelope of the pair read |
| SecretEnvelope.VersionTwoIsAcceptedNotRead | backend/src/lib/secret-envelope.ts:52-52 | The backend accepts any version number, the browser only v1 |
| SourceBlanker.BlankCommentsAndLiterals | frontend/src/lib/strategy-source.ts:50-102 | The index-jumping scan computes what a one-character-at-a-time automaton computes, and terminates |
| SourceBlanker.BlankRange | frontend/src/lib/strategy-source.ts:55-59 | Blanking a range keeps line breaks and everything outside it |
| SourceBlanker.LiteralEnd | frontend/src/lib/strategy-source.ts:81-91 | The scan of a literal: escapes skip a character, an unclosed literal runs to the end |
| SourceBlanker.BlankLine | frontend/src/lib/strategy-source.ts:65-70 | A line comment is blanked up to its line break |
| SourceBlanker.BlankBlock | frontend/src/lib/strategy-source.ts:72-78 | A block comment is blanked to just past its first closer, which cannot overlap the opener |
| SourceBlanker.BlankLiteral | frontend/src/lib/strategy-source.ts:80-96 | A literal's inside is blanked, its quotes stay |
| SourceBlanker.BlankedAt | frontend/src/lib/strategy-source.ts:45-49 | Each character stands where it stood, or is blanked because of the region it is in; line breaks neither come nor go |
| SourceBlanker.BlankedAgain | frontend/src/lib/strategy-source.ts:45-49 | Blanking twice is blanking once |
| SourceBlanker.BlockRun | frontend/src/lib/strategy-source.ts:72-78 | A block comment read by the automaton ends where the search finds the closer |
| SourceBlanker.LineRun | frontend/src/lib/strategy-source.ts:65-70 | A line comment read by the automaton ends where the search finds the line break |
| SourceTokens.TokensAreShown | frontend/src/lib/strategy-source.ts:45-102 | A source written as its tokens, comments, literals with escapes, unclosed ones at the end, and plain characters, comes out with every comment and every inside of a literal blanked and everything else in its place |
| SourceTokens.EverySourceIsTokens | frontend/src/lib/strategy-source.ts:45-102 | Every string at all is such a list of tokens |
| NdjsonStream.StreamDrafts | frontend/src/lib/api.ts:313-333 | However the text is cut into chunks, the reader yields what the whole text holds: the drafts on its non-blank trimmed lines, up to the first that does not parse |
| NdjsonStream.WrittenIsRead | backend/src/routes/submissions.ts:316-327 | Every draft written in full is read, whatever follows it on the stream |
| NdjsonStream.StreamIsLossless | backend/src/routes/submissions.ts:316-327 | What the server wrote line by line comes back unchanged |
| Text.SpacesAreTheStandards | frontend/src/lib/api.ts:321-321 | What `trim` drops are the white space and line terminators of ECMA-262, code point by code point |
| Text.TrimDropsPadding | frontend/src/lib/api.ts:321-321 | It drops white space around a word, or alone, and nothing else |
| NdjsonStream.BlankLinePassed | frontend/src/lib/api.ts:320-326 | A line that is only white space is passed over |
| NdjsonStream.PaddedLineRead | frontend/src/lib/api.ts:320-330 | A draft is read through white space around it, and at the end of the stream without its line break too |
| NdjsonStream.BadLineStops | frontend/src/lib/api.ts:320-330 | Reading stops at the first line that does not parse, with what came before it yielded and nothing behind it looked at |
| NdjsonStream.LineTaken | frontend/src/lib/api.ts:320-326 | Taking one line off the buffer takes one draft off what is left to read |

## Left out

- Overflow of `uint256`, token allowances and failing `transferFrom`: the checked-arithmetic and transfer reverts are modelled only as reverts that a solvent vault never takes.
- The price walk's arithmetic is floating point: `Oracle` takes it as any deterministic step function, so nothing is said about the prices themselves.
- `throughOracleGate`: the promise chain that makes oracle ticks take turns; `Ticks` and `Oracle` take one tick at a time.
- The workflow directory of publishing: files on disk, adopted or regenerated, that no other step reads.
- `tickOnce`: awaits a run and then asks for a tick, which is a `Request` step like any other. `current`, `history` for one symbol and `priceAt`: single reads of the table that `Oracle` describes.
- `Publish.Publisher.Publish`: drives the effects with a counter of how many the call survives, where the source is one straight line of awaits; funding a wallet that already holds gas is one effect like any other.
- `Publish.PublishingIsResumable`: speaks of one process, since the in-flight map is per process; two processes publishing one submission are outside it, and so is the identity of the promise two callers share.
- `Positions.PositionStore.RecordTransfer`: is given its context, the receipt included, once; tables and chain that change while it waits are modelled only as the other requests served meanwhile. The reading of the totals for the reply is left out; a failure there is an answer that is lost.
- `Settlement.EveryRunIsSafe`: speaks of one tab; queues shared by several tabs and a failing local storage are left out.
- `Ticks.TickLoop.RunTick`: the rows a tick writes (trades, snapshot, execution) are modelled only by the weights they remember, and the block times on events are not modelled.
- `FuzzyBoundaries.MatchedBestIff`: leaves out queries of 233 to 240 characters, which leave a target too little room for that lure.
- `FuzzyGap.GapIsAttainedByMatcher`: whether a longer query can fall behind by the whole bound under the matcher's own bonuses is left open. `FuzzyOptimality.AlwaysBestIffShort` and `FuzzyOptimality.GapIsAttainedAtEveryLength` are about the search under bonuses of any size.
- `FuzzyMatcher.MatchIsNearBest`: takes case folding as a function on characters; foldings that change a string's length are left out. The weighting of name, ticker and creator over the matcher is floating point and left out.
- `ValueSeries.PortfolioValueSeries`: keeps amounts as integers and times as numbers; their formatting as strings is left out.
- `SecretEnvelope.ParseEnvelope`: ends where decryption begins; keys, AES-GCM and HKDF are opaque.
- `NdjsonStream.StreamDrafts`: starts from decoded text; `JSON.stringify` and `JSON.parse` are a codec, assumed faithful only where a round trip is claimed.
- The parts of the chain metrics that are floating point or display: APY, sparkline, drawdown, caching of readings.
- The checks of a submission, its sandbox, its type checking and its export surface: foreign code and compiler machinery.
- HTTP routing, sessions, database schema, wallets, user interface and configuration.
