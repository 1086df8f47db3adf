# Verification of the lending SDK core

A Dafny model of the parts of this SDK that repeat the on-chain lending arithmetic and assemble its
transactions, with proofs of what they promise. `dafny verify dfyconfig.toml` checks everything.

| file | models |
|---|---|
| CompoundInterest.dfy | the approximation of compound interest in KaminoReserve |
| RateCurve.dfy | the borrow rate curve: padding, cutting back, interpolation |
| Reserve.dfy | fees, supply, exchange rate, utilisation and borrow APR of a reserve |
| Obligation.dfy | the loops over deposits and borrows, and the withdraw and borrow formulas |
| BorrowCaps.dfy | the caps on borrowing from a reserve, and the maximum borrow within them |
| PubkeyMaps.dfy, PublicKeys.dfy | PublicKeySet, PublicKeyMap, PubkeyHashMap and the real hash |
| Market.dfy | elevation group descriptions and the counted intersection of groups |
| Leverage.dfy | the leverage solvers |
| Instructions.dfy, Action.dfy | the instruction lists, KaminoAction and its builders |
| RealArithmetic.dfy, Wrappers.dfy | products and quotients of reals; options and errors |

Decimal and number are exact reals, BN is an integer, a public key is the number it encodes, and
the hash maps are proved for any hash function. Exceptions are error results. Loops and objects that
the SDK updates in place are methods and classes here; expressions are functions. In the assembler an
instruction is a value with the accounts that matter, and the array that callers extend through an
alias is an object that `KaminoAction` and its callers share. What the methods compute is first stated
through functions that follow the code; what a total, a fee or an assembled list then holds is stated once
more in the stored fields alone (`OneMoreDeposit`, `FeeSplit`, `SetupIs`, `InBetweenIs`, `Ready`, `Asks`).

## What turned out otherwise

- Debt is not monotone in time for extreme rates: the step from four exact slots to five truncated ones
  can shrink it. `GrowthMonotoneIff` and `ExchangeRateNeverRisesIff` give the exact conditions,
  `GrowthCanDrop` and `ExchangeRateCanRise` the failures, the second with a reserve written out;
  `StoredRatesAreSafe` shows that rates within the stored widths never come near them.
- `calcAdjustAmounts` puts the flash loan fee on the debt only, so it reaches the target leverage exactly
  when the fee is zero or the target is 1 (`AdjustHitsTargetIff`).
- A reserve that lists a group twice can outvote one that does not list it
  (`DuplicateListingBreaksCounting`); counting is the intersection exactly when no reserve lists a group
  twice (`CountingIsIntersectionIff`).
- Groups whose ids are not 1..k in order are described with each other's reserves (`IdsOutOfOrder`);
  the descriptions are right for all reserves exactly when the ids are in order (`DescriptionsRightIff`).
- In a deposit-and-borrow the borrow instruction names the deposit reserves known before the deposit;
  the new one is among them only if the list was empty or already had it, although the obligation
  refresh in between names it (`BuildDepositAndBorrow`).
- For a collateral whose max LTV is zero, getMaxWithdrawAmount divides a token amount by the price as if
  it were a value. It still lets the whole deposit go, within liquidity and cap, exactly when the price is
  at most the mint factor (`ZeroLtvWithdrawIff`); otherwise it gives too little
  (`ZeroLtvWithdrawTooLittle`). Health is kept either way (`MaxWithdrawKeepsHealth`).
- A comment in the assembler lists the debt farm refresh before the collateral one, and the creation of farm
  accounts before all refreshes; for a liquidation the code does the former the other way round, and it
  creates the accounts behind the refreshes of the untouched reserves. The model follows the code
  (`AddLiquidationFarms`, `AddReserveRefreshes`).

## Model

| member | source | states |
|---|---|---|
| `CompoundInterest.CubicIsBinomial` | src/classes/reserve.ts:909-920 | the polynomial used from five slots on is (1+b)^n with every term above degree three dropped, where the cut-off is built by multiplying by 1+b slot by slot |
| `CompoundInterest.CompoundCases` | src/classes/reserve.ts:892-920 | for every rate and slot count: exact powers up to four slots, the degree-three cut-off from five on |
| `CompoundInterest.RefinesCompounding` | src/classes/reserve.ts:892-920 | the fast form equals (1+b)^n for n <= 4, and for every n >= 5 the gap to it lies between 0 and C(n,4) b^4 (1+b)^(n-4), for all b >= 0 |
| `CompoundInterest.BinomialPlusTail` | src/classes/reserve.ts:909-920 | cut-off plus dropped terms is exactly (1+b)^n |
| `CompoundInterest.TailBound` | src/classes/reserve.ts:909-920 | the terms of degree d and above are at most the d-th term compounded over the remaining slots |
| `CompoundInterest.CompoundSplit` | src/classes/reserve.ts:892-920 | compounding m and then n slots gives at least compounding m+n at once, across the four-slot boundary too |
| `CompoundInterest.SplittingNeverLowers` | src/classes/reserve.ts:892-920 | for every list of slot counts the product over the parts is at least the value on the total and at most true compounding on the total |
| `CompoundInterest.CompoundMonoRate` | src/classes/reserve.ts:892-920 | a larger rate never gives a smaller growth factor, for every slot count |
| `CompoundInterest.IncrementMono` | src/classes/reserve.ts:892-920 | a larger rate grows at least as much in every slot, except possibly from the exact fourth to the truncated fifth |
| `CompoundInterest.SpreadMonotoneIff` | src/classes/reserve.ts:892-920 | the difference of two growth factors never shrinks over time if and only if the rates are equal or pass a polynomial guard on the two rates |
| `CompoundInterest.GrowthMonotoneIff` | src/classes/reserve.ts:892-920 | waiting longer never lowers the growth factor if and only if b^3 <= 1 + 4b + 6b^2 |
| `CompoundInterest.GrowthCanDrop` | src/classes/reserve.ts:892-920 | a rate for which it does: at b = 10 five slots owe less than four |
| `RateCurve.GetBorrowRate` | src/classes/utils.ts:102-139 | the scan of the curve returns, or throws, what the specification says for every curve, valid or not: clamped argument, first knot at or above it, the four error conditions |
| `RateCurve.TruncateBorrowCurve` | src/classes/reserve.ts:1040-1050 | the loop keeps the points up to and including the first at 100%, as fractions |
| `RateCurve.PadThenTruncate` | src/classes/curve.ts:26-29 | a configured curve of at most eleven points survives padding to the stored length and cutting back |
| `RateCurve.RateOnCurve` | src/classes/utils.ts:102-139 | on a valid curve getBorrowRate never throws for utilisation >= 0, and the returned point lies on the polygon through the knots |
| `RateCurve.RateIsTheCurve` | src/classes/utils.ts:102-139 | y is the returned rate if and only if (clamped utilisation, y) lies on the polygon |
| `RateCurve.InterpolateOnSegment` | src/classes/utils.ts:94-100 | interpolation inside a segment gives the point on the straight line and never extrapolates |
| `RateCurve.CurveMonotone` | src/classes/utils.ts:102-139 | the polygon never falls, within and across segments |
| `RateCurve.RateMonotone` | src/classes/utils.ts:102-139 | more utilisation never costs less |
| `RateCurve.KnotsHit` | src/classes/utils.ts:102-139 | every knot is hit |
| `RateCurve.RateRange` | src/classes/utils.ts:102-139 | the rate stays between the first and the last and is the last from 100% on |
| `Reserve.RatesOrdered` | src/classes/reserve.ts:604-610 | the borrow rate is defined for every decoded account, and the debt compounds at no less than the host's fixed rate |
| `Reserve.CurrentRateInStoredFields` | src/classes/reserve.ts:600-610 | the yearly rate is the curve's rate at borrowed over available plus borrowed less all fees, times 500 ms over the slot duration |
| `Reserve.RatesInStoredFields` | src/classes/reserve.ts:600-617 | the per-slot rates: host bps over 10000 and 63072000, and the current rate over 63072000 on top |
| `Reserve.RateAtMonotone` | src/classes/reserve.ts:600-617 | the slot-adjusted rate rises with utilisation |
| `Reserve.AccrualShape` | src/classes/reserve.ts:832-883 | new debt, host fee and net new debt in terms of the two growth factors |
| `Reserve.FeesConserved` | src/classes/reserve.ts:832-883 | netNewDebt >= 0; new debt is accounted for by net new debt and the host fee; the rise of protocol plus pending referral fees is exactly variable fee plus host fee, whatever the referral rate |
| `Reserve.FeeSplit` | src/classes/reserve.ts:861-870 | pending referral fees rise by net new debt times take rate times referral rate, protocol fees by the host fee and the rest of the take, in the stored percentages |
| `Reserve.ReferralShareLinear` | src/classes/reserve.ts:861-870 | at 0 bps referrers get nothing, at 10000 bps the whole take, in between their part in proportion; what borrowers owe does not depend on it |
| `Reserve.BalanceSheet` | src/classes/reserve.ts:373-391 | what the reserve holds and is owed equals what depositors, the protocol and referrers are owed, in the stored account and after any accrual |
| `Reserve.FeeAccountsGrow` | src/classes/reserve.ts:832-883 | with a referral rate in 0..10000 bps neither fee account shrinks |
| `Reserve.AccrualSupply` | src/classes/reserve.ts:373-391 | supply rises by exactly netNewDebt times one minus the take rate, the referral rate cancelling out |
| `Reserve.SupplyGrowth` | src/classes/reserve.ts:373-391 | getEstimatedDebtAndSupply for every slot, before and after the last update, as stored debt and supply plus the growth of the two factors |
| `Reserve.ExchangeRateNeverRisesIff` | src/classes/reserve.ts:238-246 | for all pairs of slots the exchange rate at the later is at most that at the earlier, if and only if one of four conditions on the stored account holds |
| `Reserve.StoredRatesAreSafe` | src/classes/reserve.ts:600-610 | any account whose rates fit u32 and u16, with slots of at least 4 ms, meets the guard |
| `Reserve.ExchangeRateNeverRises` | src/classes/reserve.ts:238-246 | hence for such an account a cToken never redeems for less at a later slot |
| `Reserve.ExchangeRateCanRise` | src/classes/reserve.ts:238-246 | an account, written out: a flat curve beyond the stored width that charges ten times the debt in every slot, for which some later slot gives less, whatever the referral rate |
| `Reserve.UtilizationInClosedForm` | src/classes/reserve.ts:426-436 | the estimated utilisation and exchange rate at any slot: grown debt, or minted supply, over grown supply, with the empty cases |
| `Reserve.APRInClosedForm` | src/classes/reserve.ts:612-625 | the estimated APR is the curve's rate at that utilisation, adjusted to the slot duration, plus the host's rate; the cumulative rate is compounded at it |
| `Reserve.UtilizationNeverFalls` | src/classes/reserve.ts:426-436 | with stored utilisation at most 1 and positive supply, interest alone never lowers the estimated utilisation at any slot |
| `Reserve.BorrowAPRNeverBelowStored` | src/classes/reserve.ts:612-625 | so the estimated borrow APR is never below the stored one |
| `Reserve.CumulativeRateCoversDebt` | src/classes/reserve.ts:209-222 | carrying a debt forward with the estimated cumulative rate owes at least what compoundInterest adds to the reserve |
| `PubkeyMaps.PublicKeySet.constructor` | src/utils/pubkey.ts:23-25 | the list of arguments without repetitions, in order of first occurrence |
| `PubkeyMaps.PublicKeySet.Add` | src/utils/pubkey.ts:27-31 | appends only what is absent |
| `PubkeyMaps.PublicKeySet.Contains` | src/utils/pubkey.ts:33-39 | true exactly for the items of the list |
| `PubkeyMaps.UniqueLaws` | src/utils/pubkey.ts:18-46 | the list built by adding has each element once and nothing else |
| `PubkeyMaps.FindIndex` | src/utils/pubkey.ts:84-86 | the first entry with the key, or -1 |
| `PubkeyMaps.PublicKeyMap.Set` | src/utils/pubkey.ts:57-66 | overwrites the entry of the key or appends one |
| `PubkeyMaps.PublicKeyMap.Get` | src/utils/pubkey.ts:68-71 | the value of the first entry with the key |
| `PubkeyMaps.PublicKeyMap.Has` | src/utils/pubkey.ts:73-75 | whether there is one |
| `PubkeyMaps.PublicKeyMap.Delete` | src/utils/pubkey.ts:77-82 | removes that entry |
| `PubkeyMaps.PublicKeyMap.Clear` | src/utils/pubkey.ts:88-90 | empties the list |
| `PubkeyMaps.ListSetLaws` | src/utils/pubkey.ts:57-71 | after set the key reads back, every other key is unchanged and keys stay unique |
| `PubkeyMaps.ListDeleteLaws` | src/utils/pubkey.ts:68-82 | after delete the key is gone, every other key is unchanged |
| `PubkeyMaps.PubkeyHashMap.constructor` | src/utils/pubkey.ts:129-137 | sets the given entries one by one into an empty map |
| `PubkeyMaps.PubkeyHashMap.Set` | src/utils/pubkey.ts:149-165 | the bucket operation; keys stay unique and in their own bucket; size rises by one exactly when the key was absent |
| `PubkeyMaps.PubkeyHashMap.Get` | src/utils/pubkey.ts:167-175 | what the buckets hold for the key |
| `PubkeyMaps.PubkeyHashMap.Has` | src/utils/pubkey.ts:177-185 | whether they hold something |
| `PubkeyMaps.PubkeyHashMap.Delete` | src/utils/pubkey.ts:187-203 | the bucket operation, dropping an emptied bucket; the answer and the new size agree with what was there |
| `PubkeyMaps.PubkeyHashMap.Clear` | src/utils/pubkey.ts:205-208 | no buckets, size zero |
| `PubkeyMaps.PubkeyHashMap.IsEmpty` | src/utils/pubkey.ts:210-212 | size zero means that no key reads back |
| `PubkeyMaps.PubkeyHashMap.Entries` | src/utils/pubkey.ts:139-145 | the nested iteration yields size entries, no key twice, each with the value get returns |
| `PubkeyMaps.HashSetLaws` | src/utils/pubkey.ts:149-175 | for any hash: set keeps the invariant, its key reads back, every other key is unchanged |
| `PubkeyMaps.HashDeleteLaws` | src/utils/pubkey.ts:167-203 | for any hash: delete keeps the invariant and removes exactly its key |
| `PubkeyMaps.FlattenLaws` | src/utils/pubkey.ts:139-175 | iteration agrees with lookup, for every well-formed map |
| `PubkeyMaps.FlattenSet` | src/utils/pubkey.ts:149-165 | set changes the iterated entries as it changes the association list, and the count accordingly |
| `PubkeyMaps.FlattenDelete` | src/utils/pubkey.ts:187-203 | the same for delete |
| `PubkeyMaps.SameEntries` | src/utils/pubkey.ts:119-237 | two duplicate-free lists that answer every lookup alike hold the same entries |
| `PubkeyMaps.HashMapRefinesList` | src/utils/pubkey.ts:119-237 | for any hash and any sequence of set, get, has, delete and clear, the hash map answers as the association list and ends with the same entries |
| `PubkeyMaps.HashMapRefinesListFromEmpty` | src/utils/pubkey.ts:119-237 | in particular from the empty map |
| `PublicKeys.CollidingKeysKeptApart` | src/utils/pubkey.ts:239-256 | with the real hash, keys that agree in their last 32 bits share a bucket and still read back their own values |
| `Market.CountListings` | src/classes/obligation.ts:326-343 | the nested counting loops: each non-zero group with the number of times it is listed |
| `Market.GetElevationGroupsForReserves` | src/classes/obligation.ts:326-347 | exactly the groups listed as often as there are reserves, each once |
| `Market.CountingIsIntersection` | src/classes/obligation.ts:326-347 | without duplicate listings that is the set of groups common to all reserves |
| `Market.CountingIsIntersectionIff` | src/classes/obligation.ts:326-347 | for any set of reserves: counting gives the groups common to all, for every list of them and every group, if and only if none of them lists a group twice |
| `Market.DuplicateListingBreaksCounting` | src/classes/obligation.ts:326-347 | with a duplicate listing it is not: two reserves for which a group that one of them does not list is returned |
| `Market.PartiallyBuild` | src/classes/market.ts:1202-1215 | the first pass: a partial record for each group with a non-zero id |
| `Market.FillFromReserve` | src/classes/market.ts:1217-1242 | one round of the second pass: places the reserve in the record at id - 1 for each listed id, and throws exactly when an id exceeds the number of records |
| `Market.GetMarketElevationGroupDescriptions` | src/classes/market.ts:1202-1245 | throws if and only if some reserve lists an id above the number of groups; otherwise the finished records |
| `Market.DescriptionsExact` | src/classes/market.ts:1202-1245 | an address stands on the collateral side of record p once per listing of group p + 1 by the reserve there, and never if it is the debt reserve |
| `Market.DescriptionsOfGroups` | src/classes/market.ts:1202-1245 | when the non-zero ids are 1..k in order, each group has exactly the reserves that list it other than its debt reserve, once each |
| `Market.MintsBesideReserves` | src/classes/market.ts:1202-1245 | each collateral has its reserve's own mint beside it; the debt mint is the debt reserve's, and there is one if and only if that reserve lists the group |
| `Market.DescriptionsOfStoredGroups` | src/classes/market.ts:1202-1215 | with the used groups stored in front, one description per used group, in order, with its id and debt reserve |
| `Market.IdsOutOfOrder` | src/classes/market.ts:1202-1245 | when they are not, a reserve becomes collateral of a group it does not list |
| `Market.DescriptionsRightIff` | src/classes/market.ts:1202-1245 | for any list of groups: they are described by exactly the reserves that list them, whatever the reserves, if and only if the non-zero ids are 1..k in order |
| `Market.GetElevationGroupsForReservesCombination` | src/classes/market.ts:1264-1280 | the descriptions that hold every collateral and match the debt reserve, in the order and as often as they come; it fails exactly when the descriptions fail |
| `Market.KeptIffCounted` | src/classes/market.ts:1264-1280 | a group is kept for non-empty collateral if and only if it is in their counted intersection, its debt reserve is not among them, and it is the one asked for if any is |
| `Market.ReserveByItsAddress` | src/classes/market.ts:387-389 | a reserve of the market is found under its own address |
| `Obligation.CalculateObligationDeposits` | src/classes/obligation.ts:625-687 | the deposit loop: fails exactly when a used slot does not resolve, otherwise all totals are the sums over the slots and the map has the last slot of each reserve |
| `Obligation.CalculateObligationBorrows` | src/classes/obligation.ts:689-756 | the borrow loop: likewise, with adjusted totals and the number of open positions |
| `Obligation.DepositResolvesIff` | src/classes/obligation.ts:625-687 | a slot can be valued if and only if its reserve and exchange rate are known and the market has the group, when the reserve lists it |
| `Obligation.OneMoreDeposit` | src/classes/obligation.ts:1294-1315 | what one more slot adds to each total, in stored fields: its value, that times the max LTV and that times the liquidation threshold, both taken from the group when the reserve lists it and from the reserve otherwise |
| `Obligation.OneMoreBorrow` | src/classes/obligation.ts:1279-1286 | what one more borrow adds: its value, that once inside the group or times the borrow factor outside, and an open position unless nothing is owed |
| `Obligation.LimitsOrdered` | src/classes/obligation.ts:625-687 | where no max LTV exceeds its threshold, the borrow limit never exceeds the liquidation limit; the average liquidation LTV times the total gives the latter back |
| `Obligation.PositionIsLast` | src/classes/obligation.ts:625-687 | the position of a reserve is the last slot naming it, with its amount and value in stored fields |
| `Obligation.BorrowPositionIsLast` | src/classes/obligation.ts:689-756 | and what is owed to a reserve is the last slot naming it, grown from the slot's cumulative rate to the reserve's |
| `Obligation.LimitAfterWithdraw` | src/classes/obligation.ts:625-687 | re-running the loop with w tokens fewer in one slot lowers the borrow limit by their value times the slot's max LTV |
| `Obligation.MaxWithdrawKeepsHealth` | src/classes/obligation.ts:1094-1147 | withdrawing the result keeps a healthy loan healthy when the deposit loop is run again, in the zero-debt, zero-LTV and general cases, and the result lies between 0 and the deposit |
| `Obligation.MaxWithdrawIsExact` | src/classes/obligation.ts:1094-1147 | without debt the whole deposit of the last slot naming the reserve; at or over the limit nothing; below it, with a positive LTV, x tokens are within the result if and only if they are within deposit, liquidity and cap and the deposit loop, run again without them, gives up at most 99.9% of the gap |
| `Obligation.MaxWithdrawFailsIff` | src/classes/obligation.ts:1094-1107 | it throws if and only if no deposit slot names the reserve |
| `Obligation.ZeroLtvFormula` | src/classes/obligation.ts:1122-1135 | at max LTV zero, for every positive deposit: the result is the whole deposit within liquidity and cap, whatever they are, if and only if the price is at most the mint factor |
| `Obligation.ZeroLtvWithdrawIff` | src/classes/obligation.ts:1094-1147 | the same for getMaxWithdrawAmount on every healthy loan with debt and a deposit without LTV |
| `Obligation.ZeroLtvWithdrawTooLittle` | src/classes/obligation.ts:1122-1135 | a loan for which it falls short: ten tokens at price 2 and mint factor 1, of which only five may leave |
| `Obligation.SimulationBounds` | src/classes/obligation.ts:349-370 | a simulated change never makes a slot negative, touches no other reserve, empties a slot that holds less, and is undone by its opposite when the slot holds enough |
| `Obligation.FreeWithdrawalIsExact` | src/classes/obligation.ts:1122-1146 | at max LTV zero, x tokens are within the result if and only if they are within deposit, liquidity and cap and their value is at most the number of tokens deposited |
| `Obligation.SimulatedWithdrawal` | src/classes/obligation.ts:349-370 | with one slot per reserve, simulating that change is the lowered position of the theorem |
| `Obligation.PowerFillsGap` | src/classes/obligation.ts:792-858 | the power is never negative, is zero at or over the limit or when a deposit forces it, and otherwise with its fee costs exactly the gap |
| `Obligation.BorrowPowerReachesLimit` | src/classes/obligation.ts:792-858 | borrowing the power with its origination fee and re-running the borrow loop lands exactly on the limit, whether the borrow opens a slot or adds to one |
| `Obligation.BorrowPowerIsTheMost` | src/classes/obligation.ts:792-858 | x tokens with their fee fit within the limit if and only if x is at most the power |
| `Obligation.CanBorrowAtAllIff` | src/classes/obligation.ts:792-858 | the power is positive if and only if there is a gap and, outside the group, no deposit is barred from use as collateral |
| `Obligation.CostOfBorrowMore` | src/classes/obligation.ts:689-756 | adding x tokens to an existing borrow slot raises the adjusted total by x times price and borrow factor, at any cumulative rate |
| `BorrowCaps.CollateralCapsMembers` | src/classes/reserve.ts:922-987 | the collected caps are exactly those of the collaterals of the groups whose debt reserve this is |
| `BorrowCaps.CollateralHasCap` | src/classes/reserve.ts:922-960 | in a configured market every collateral of a group of the debt reserve has its cap among the collected ones |
| `BorrowCaps.CapHasCollateral` | src/classes/reserve.ts:922-960 | and every collected cap is that of such a collateral |
| `BorrowCaps.GroupRoomIff` | src/classes/reserve.ts:922-987 | the collected caps of a group leave room for x if and only if every other reserve that lists the group has x left under its own limit |
| `BorrowCaps.GetLiquidityAvailableForDebtReserveGivenCaps` | src/classes/reserve.ts:989-1037 | with the caps of the market: one amount per group, failing exactly when the descriptions fail or some group has no amount |
| `BorrowCaps.AvailableIsExact` | src/classes/reserve.ts:989-1037 | a positive amount is within the result if and only if borrowing it keeps liquidity, global cap, daily cap, group or outside-group caps and utilisation cap |
| `BorrowCaps.AvailableFailsIff` | src/classes/reserve.ts:1011-1032 | it fails if and only if the group is not 0 and has no collateral cap; the result is never negative |
| `BorrowCaps.LiquidityIsExact` | src/classes/reserve.ts:922-1037 | a positive amount is within the available liquidity if and only if borrowing it keeps every limit stored in the reserve and in the collaterals of the group |
| `BorrowCaps.LiquidityFailsIff` | src/classes/reserve.ts:922-1037 | there is none if and only if the group is not 0 and is not the debt reserve's or has no other reserve |
| `BorrowCaps.DebtIsLastSlot` | src/classes/obligation.ts:884-890 | the debt in a reserve is its last borrow slot grown to the reserve's cumulative rate, or zero |
| `BorrowCaps.MaxBorrowIsExact` | src/classes/obligation.ts:871-892 | a healthy loan may borrow x, with its fee, within its limit and within every limit of the market, the debt it brings into another group included, if and only if x is at most getMaxBorrowAmountV2 |
| `Leverage.DenominatorPositive` | src/leverage/operations.ts:60-122 | for leverage >= 1, price > 0 and fee, slippage >= 0 the solver's denominator is positive |
| `Leverage.PlanEquations` | src/leverage/operations.ts:60-122 | the plan of either branch satisfies the leverage equation and the swap equation |
| `Leverage.DepositHitsTarget` | src/leverage/operations.ts:60-122 | collateral over net value is exactly the target leverage, and the swap after worst slippage buys exactly the flash-borrowed collateral with its fee |
| `Leverage.InitialSol` | src/leverage/operations.ts:88 | the initial deposit in SOL is the deposit if it is in SOL, and zero if not |
| `Leverage.DepositPlanUnique` | src/leverage/operations.ts:60-122 | any collateral and debt that satisfy the two equations are the plan's |
| `Leverage.WithdrawKeepsLeverage` | src/leverage/calcs.ts:232-271 | the rest has the same leverage, its net value falls by exactly the amount, and a full withdrawal leaves zero on both sides |
| `Leverage.WithdrawalsCompose` | src/leverage/calcs.ts:232-271 | any sequence of withdrawals, in either token, ends where one withdrawal of their sum ends |
| `Leverage.AdjustHitsTargetIff` | src/leverage/calcs.ts:328-352 | the adjusted position has the target leverage if and only if the flash loan fee is zero or the target is 1 |
| `Leverage.AdjustPaysFee` | src/leverage/calcs.ts:328-352 | for any fee: the debt is net value times leverage minus 1, at the price, with the fee on top, so it covers the flash-borrowed amount and its fee, and the net value falls by exactly that fee |
| `Leverage.AdjustPathIndependent` | src/leverage/calcs.ts:328-352 | without a fee adjusting keeps the net value, does not depend on intermediate targets, and can be undone |
| `Leverage.BorrowIsPosition` | src/leverage/calcs.ts:173-194 | without a fee the amount borrowed is the debt of the position with that net value and leverage |
| `Instructions.OrderKeptByAppend` | src/classes/action.ts:1764-1862 | refresh before use: every obligation refresh comes after refreshes of all reserves it names since the last request or lending instruction; one such list behind another still is one |
| `Instructions.BlockKeepsOrder` | src/classes/action.ts:1714-1762 | refreshing the untouched and the current reserves in front of an obligation refresh keeps every earlier and this refresh in order |
| `Instructions.SetupInStages` | src/classes/action.ts:1640-1658 | accounts are created in order and once, then come the refreshes, then the farms, when the parts of a setup do so |
| `Instructions.FarmRefreshesFollow` | src/classes/action.ts:2141-2242 | farm refreshes at the end of what is appended come after those already in the list |
| `Instructions.NothingLost` | src/classes/action.ts:1080-1097 | the transaction holds every assembled instruction if and only if there are two lending instructions or nothing in between |
| `Instructions.OneStepTransaction` | src/classes/action.ts:1080-1097 | with one lending instruction: refreshes in order in front of it, farm refreshes repeated right behind it |
| `Instructions.TwoStepTransaction` | src/classes/action.ts:1080-1097 | with two: the same around each of them |
| `Action.CommonElevationGroups` | src/classes/action.ts:1806-1810 | the groups of the first side, in its order, that are on the second side too, are not 0 and name the debt reserve; it fails exactly when a group on both sides is unknown |
| `Action.GroupWithMaxLtv` | src/classes/action.ts:1823-1829 | a common group with the highest loan-to-value, failing when one is unknown |
| `Action.KaminoAction.constructor` | src/classes/action.ts:159-218 | an object with empty lists |
| `Action.KaminoAction.GetAdditionalDepositReservesList` | src/classes/action.ts:2846-2866 | returns the object's own list, extended by the preloaded reserves it lacks |
| `Action.KaminoAction.AddRefreshReserveIxs` | src/classes/action.ts:1947-1991 | appends one refresh per key to the chosen list, failing exactly when a key is not a reserve of the market |
| `Action.KaminoAction.AddRefreshObligationIx` | src/classes/action.ts:2024-2075 | appends the obligation refresh naming the extended deposit list and the borrows not repaid in the same transaction |
| `Action.KaminoAction.AddRequestElevationIx` | src/classes/action.ts:2077-2139 | the same for the elevation group request |
| `Action.KaminoAction.CollectFarms` | src/classes/action.ts:2159-2179 | one farm refresh per reserve that has a farm on the side |
| `Action.KaminoAction.PushFarm` | src/classes/action.ts:2202-2239 | where one farm refresh goes: setup, in between, kept for the cleanup |
| `Action.KaminoAction.AddRefreshFarmsForReserve` | src/classes/action.ts:2141-2242 | the same for all farms, in order, on each list it touches |
| `Action.KaminoAction.FarmsInStoredFields` | src/classes/action.ts:1863-1904 | the farms of every action in stored fields: a deposit or withdrawal its own collateral farm, a borrow or repayment its own debt farm, a liquidation the seized collateral farm and the repaid debt farm, in between the outflow reserve's debt or collateral farm |
| `Action.KaminoAction.InitFarmMembers` | src/classes/action.ts:1723-1751 | the farm accounts an action creates: its own side's, the other side's of the outflow reserve, where there is a farm and no account |
| `Action.KaminoAction.CurrentInStoredFields` | src/classes/action.ts:1660-1713 | the current reserves: own and outflow, each once, the seized one first in a liquidation |
| `Action.KaminoAction.AddRefreshFarmsCleanupTxnIxsToCleanupIxs` | src/classes/action.ts:2244-2247 | the kept refreshes are spliced in front of the cleanup |
| `Action.KaminoAction.AddComputeBudgetIxn` | src/classes/action.ts:2440-2443 | appends the budget instruction |
| `Action.KaminoAction.AddInitObligationForFarm` | src/classes/action.ts:2249-2307 | appends the farm account creation when there is a farm and no account |
| `Action.KaminoAction.AddInitObligationsForFarms` | src/classes/action.ts:1723-1751 | the sides on which each kind of action creates farm accounts, own reserve first |
| `Action.KaminoAction.AddAtaIxs` | src/classes/action.ts:2445-2592 | wallet instructions go in front of the setup and at the end of the cleanup; which ones, and whether there are any, is a given plan |
| `Action.KaminoAction.AddInitReferrerTokenStateIxs` | src/classes/action.ts:2367-2412 | missing token states of the distinct reserves are put in front, the last first |
| `Action.KaminoAction.AddInitUserMetadataIxs` | src/classes/action.ts:2339-2365 | appends lookup table and metadata creation |
| `Action.KaminoAction.AddInitObligationIxs` | src/classes/action.ts:2309-2337 | appends obligation creation when there is none |
| `Action.KaminoAction.AddPrelude` | src/classes/action.ts:1917-1925 | metadata, referrer states and obligation creation, in their places around what is there; nothing for mint and redeem |
| `Action.KaminoAction.SelectCurrentReserves` | src/classes/action.ts:1657-1713 | which reserve is preloaded: a deposit that opens a slot, a borrow whose debt with interest the amount repays; it fails exactly for two reserves without an outflow reserve or a repayment of no open borrow |
| `Action.KaminoAction.AddReserveRefreshes` | src/classes/action.ts:1714-1752 | the untouched reserves, the farm accounts, the current reserves; fails exactly when a reserve is unknown |
| `Action.KaminoAction.AddRefreshBlock` | src/classes/action.ts:1714-1762 | appends exactly the block of refreshes and farm accounts ending in the obligation refresh; the lists still refresh before use |
| `Action.KaminoAction.RequestAndRefresh` | src/classes/action.ts:1840-1843 | appends exactly the request for the group, the refreshes of the untouched and the current reserves, and the obligation refresh, in this order |
| `Action.KaminoAction.ChooseElevationGroup` | src/classes/action.ts:1783-1836 | the override if there is one; otherwise the common group with the highest loan-to-value, or none when there is no common group or the obligation is already in it; in which list; and exactly when it throws |
| `Action.KaminoAction.NoteElevationGroup` | src/classes/action.ts:1845-1847 | notes the new group on the obligation, failing without one |
| `Action.KaminoAction.CanAskIff` | src/classes/action.ts:1764-1836 | when the group can be worked out, in stored fields |
| `Action.KaminoAction.AsksInStoredFields` | src/classes/action.ts:1764-1848 | and which it is: the shared group with the highest loan-to-value unless the obligation is in it, the override, or none; for a repayment only when it clears the only debt |
| `Action.KaminoAction.RequestAfterRepay` | src/classes/action.ts:1777-1781 | appends to the cleanup exactly the refreshes of the untouched reserves, the obligation refresh without the borrows and the request, and nothing elsewhere |
| `Action.KaminoAction.RequestForBorrow` | src/classes/action.ts:1783-1848 | a request exactly for a changed group, with its refreshes behind it in the chosen list, nothing in any other; passes exactly when a group can be chosen and noted |
| `Action.KaminoAction.RequestElevation` | src/classes/action.ts:1764-1861 | for each action exactly when there is a request, for which group, what it appends to which list, and when it throws |
| `Action.KaminoAction.RequestLaws` | src/classes/action.ts:1764-1861 | what a request appends goes to the chosen list only, holds no farm refresh and, in setup and in-between, ends in an obligation refresh |
| `Action.KaminoAction.AddSetupFarms` | src/classes/action.ts:1863-1892 | the farm refreshes of each action in a setup, and their copies in between or for the cleanup |
| `Action.KaminoAction.AddInBetweenFarms` | src/classes/action.ts:1893-1904 | the farm refreshes in between, of the outflow reserve |
| `Action.KaminoAction.AddFarms` | src/classes/action.ts:1863-1904 | both of these, or an error for an action without a rule; the order is kept |
| `Action.KaminoAction.AddSupportIxsWithoutInitObligation` | src/classes/action.ts:1617-1906 | the three lists, the kept farm refreshes and the preloaded reserves afterwards, exactly; passes exactly when the wallet is ready, the current reserves can be worked out, every reserve is known, and the request and the farms have a rule |
| `Action.KaminoAction.AddSupportIxs` | src/classes/action.ts:1908-1937 | the same behind the prelude, with exactly the same conditions |
| `Action.KaminoAction.AddInBetweenIxs` | src/classes/action.ts:1577-1592 | the same for the in-between list, with exactly the same conditions |
| `Action.KaminoAction.RefreshContents` | src/classes/action.ts:1594-1615 | the instructions that refresh an obligation as it is, in stored fields |
| `Action.KaminoAction.AddRefreshObligation` | src/classes/action.ts:1594-1615 | refreshes of all distinct reserves, of all farms, then of the obligation; fails exactly when a reserve is unknown |
| `Action.KaminoAction.AddDepositIx` | src/classes/action.ts:1160-1186 | appends the deposit |
| `Action.KaminoAction.AddDepositReserveLiquidityIx` | src/classes/action.ts:1188-1212 | appends the mint |
| `Action.KaminoAction.AddRedeemReserveCollateralIx` | src/classes/action.ts:1214-1238 | appends the redemption |
| `Action.KaminoAction.AddDepositObligationCollateralIx` | src/classes/action.ts:1240-1260 | appends the collateral deposit |
| `Action.KaminoAction.AddBorrowIx` | src/classes/action.ts:1262-1296 | appends the borrow, naming the deposit reserves exactly when the obligation is in, or about to be in, a group |
| `Action.KaminoAction.AddDepositAndBorrowIx` | src/classes/action.ts:1298-1374 | appends both; an empty deposit list gains the deposited reserve, and so does the object's own list |
| `Action.KaminoAction.AddRepayAndWithdrawIxs` | src/classes/action.ts:1376-1451 | appends both, the repayment naming the deposit reserves |
| `Action.KaminoAction.AddWithdrawIx` | src/classes/action.ts:1453-1488 | appends the withdrawal |
| `Action.KaminoAction.AddRepayIx` | src/classes/action.ts:1490-1523 | appends the repayment, naming the deposit reserves exactly inside a group |
| `Action.KaminoAction.AddLiquidateIx` | src/classes/action.ts:1525-1575 | appends the liquidation, with its three error cases |
| `Action.KaminoAction.ReadyIff` | src/classes/action.ts:1617-1906 | when the support instructions can be added, in stored fields: the wallet, the reserves, the borrow to repay, the group |
| `Action.KaminoAction.SetupLaws` | src/classes/action.ts:1617-1906 | a setup ends in refreshes of the current reserves and of the whole obligation and the farms of the action, with or without a request |
| `Action.KaminoAction.SetupContents` | src/classes/action.ts:1617-1937 | a setup holds exactly what the action needs: each kind of instruction if and only if a condition on stored fields, created in order and once |
| `Action.KaminoAction.SetupCleanup` | src/classes/action.ts:1777-1781 | and its cleanup the token-account steps, with the request of a last repayment behind them |
| `Action.KaminoAction.SelectedInStoredFields` | src/classes/action.ts:1660-1713 | the deposits and borrows the refresh in between names: the own reserve when the deposit opens a slot, the borrows without the one repaid in full, none when closing |
| `Action.KaminoAction.SecondHalfLaws` | src/classes/action.ts:1617-1906 | the in-between list holds exactly the setup's farms, refreshes of everything, the obligation refresh, the request, and the outflow reserve's farm, ending in the current reserves, the obligation and that farm |
| `Action.KaminoAction.AddSecondHalf` | src/classes/action.ts:1577-1592 | the in-between half of a two-token action passes exactly when it is ready, and then leaves that list, the extended deposit list and its farm refreshes for the cleanup |
| `Action.KaminoAction.AddSecondHalfAndCleanup` | src/classes/action.ts:1577-1592 | and with the cleanup closed, the kept farm refreshes stand at its head; the setup keeps what it holds, with the second action's token-account steps in front |
| `Action.KaminoAction.BuildDeposit` | src/classes/action.ts:407-461 | exactly when it passes; refresh before use; exactly what the setup holds, ending in the own reserve, the obligation and the own collateral farm; that farm first in the cleanup, and the rest of it; the group requested; the one lending instruction |
| `Action.KaminoAction.BuildBorrow` | src/classes/action.ts:501-555 | exactly when it passes; refresh before use; exactly what the setup holds, ending in the own reserve, the obligation and the own debt farm; that farm first in the cleanup, and the rest of it; the group requested; the one lending instruction |
| `Action.KaminoAction.BuildDepositObligationCollateral` | src/classes/action.ts:663-714 | exactly when it passes; refresh before use; exactly what the setup holds, ending in the own reserve, the obligation and the own collateral farm; that farm first in the cleanup, and the rest of it; the one lending instruction |
| `Action.KaminoAction.BuildWithdraw` | src/classes/action.ts:853-905 | exactly when it passes; refresh before use; exactly what the setup holds, ending in the own reserve, the obligation and the own collateral farm; that farm first in the cleanup, and the rest of it; the one lending instruction |
| `Action.KaminoAction.BuildRepay` | src/classes/action.ts:922-976 | exactly when it passes; refresh before use; exactly what the setup holds, ending in the own reserve, the obligation and the own debt farm; that farm first in the cleanup, and the rest of it; the group requested; the one lending instruction |
| `Action.KaminoAction.BuildLiquidate` | src/classes/action.ts:978-1038 | exactly when it passes; refresh before use; exactly what the setup holds, ending in the own reserve, the obligation and the seized collateral farm and own debt farm; that farm first in the cleanup, and the rest of it; the one lending instruction |
| `Action.KaminoAction.BuildDepositReserveLiquidity` | src/classes/action.ts:557-608 | passes exactly when the wallet is ready; the token-account steps and the budget, no refreshes, nothing in between; the one lending instruction |
| `Action.KaminoAction.BuildRedeemReserveCollateral` | src/classes/action.ts:610-661 | passes exactly when the wallet is ready; the token-account steps and the budget, no refreshes, nothing in between; the one lending instruction |
| `Action.KaminoAction.BuildDepositAndBorrow` | src/classes/action.ts:716-782 | exactly when it passes; exactly what setup and in-between hold, the group requested in between; own collateral farm in the setup and again at the head of in-between, the outflow debt farm in between and again at the head of the cleanup; a deposit that opens a slot is named in the in-between refresh; the borrow names the deposits known before, or the new one if there are none, so it names the new one if and only if the list was empty or already had it |
| `Action.KaminoAction.BuildRepayAndWithdraw` | src/classes/action.ts:784-851 | exactly when it passes; exactly what setup, in-between and cleanup hold; own debt farm, then the outflow collateral farm, each repeated; the refresh in between leaves out the borrow repaid in full, or all when closing; leaving the group goes to the cleanup |
| `Action.KaminoAction.BuildRefreshObligation` | src/classes/action.ts:338-369 | exactly the budget, all its reserves, the deposits' collateral farms and the borrows' debt farms, and the obligation last; fails exactly when a reserve is unknown |
| `Action.KaminoAction.BuildRequestElevationGroup` | src/classes/action.ts:371-405 | the same and then the request, naming everything the obligation holds |
| `Instructions.FreshTransaction` | src/classes/action.ts:1080-1097 | lists that end in an obligation refresh and farm refreshes make a transaction where only farm refreshes stand between that refresh and the lending instruction |
| `Action.KaminoAction.StepsAreSafe` | src/classes/action.ts:1062-1106 | for what every builder leaves: in front of each lending instruction every obligation refresh follows fresh refreshes of its reserves, behind it the farm refreshes in front of it are repeated |
| `Action.KaminoAction.StepsAreFresh` | src/classes/action.ts:1062-1106 | and from the last obligation refresh to the lending instruction there are farm refreshes only, an elevation group request or not |
| `Action.KaminoAction.GetTransactions` | src/classes/action.ts:1062-1106 | the lists joined around the one or two lending instructions, and nothing in between unless there are two |

## Left out

- Digit rounding of decimal.js, rounding of BN and floating point of number: everything is an exact real; NaN and infinity, which a zero price or a zero rate would give, are kept out by requiring prices, mint factors and rates to be positive.
- Integer widths: stored rates are bounded only where a result needs it (`StoredRatesAreSafe`).
- The estimated rates of an obligation: getCumulativeBorrowRate and the exchange rates are given positive numbers; src/classes/obligation.ts:1161-1168 is not modelled.
- The variant of the two obligation loops that looks rates up on the fly when no map is given (src/classes/obligation.ts:625-756).
- getMaxBorrowAmount, marked deprecated in the source, and the simulation of whole obligation statistics.
- Finding a reserve by mint or symbol; a builder is given its reserves. The filter of group descriptions by mints, which is the one by reserves on the mint lists.
- Loading: initialize, initializeMultiTokenAction and loadObligation with the position limit; the object is given its obligation, lists and reserves.
- Action.KaminoAction.AddAtaIxs: does not say which wallet instructions arise nor when the source throws there, because both depend on accounts read from the chain; any lists, and a failure, are allowed, and every builder is proved for all of them.
- Which accounts exist on the chain, the amount of the action and the estimated cumulative borrow rate are given to `KaminoAction` as arbitrary values.
- The label arrays, which run parallel to the instruction arrays, and the transactions before and after the lending transaction with the price feed refresh.
- buildWithdrawReferrerFeeTxns, and the order of obligation refreshes in the cleanup list.
- Obligation.CalculateObligationDeposits: the order of the position map's entries is not modelled, only its contents.
- padPoints extends the array it is given; the model returns the extended list.
- The lower-level collection views forEach, keys and values, which follow entries.
- Configuration diffs, oracle parsing, farm reward yields, kTokens, swap providers, vaults and the command-line clients.
