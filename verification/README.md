# Perk risk engine: verified model

Perk is a perpetual-futures program.  Its risk engine keeps per-market totals and two indices per side, `A` for size
and `K` for profit, so that marking, funding and auto-deleveraging cost the same however many accounts exist.  An
account is only brought up to date when an instruction touches it.  What makes this safe are statements about all
accounts together, over all runs, with exact rounding.  This project models the engine and proves them.

## How the model is built

* `Numbers`, `Words`, `WideMath`, `FixedPoint` - machine integers, and the 256/512-bit limb arithmetic verified against
  mathematical integers.
* `Vamm` - the constant-product curve and its Newton square root.
* `State`, `Risk`, `Handlers` - accounts as values, and what each engine call and each instruction handler computes from
  them.  A returned error, failed assertion, panic or overflow is `Abort`.
* `Engine`, `Instructions` - the same operations in the form the program has: classes whose fields the methods update in
  place, each method verified against the function of the value model, down to the limb arithmetic and the sub-step
  loop.  The fields of a side, which the program keeps twice and reaches through accessors by side, form one `Book`
  value per side.  A method that does no more than carry its function over to the fields has no row below; the rows
  about the function are about it too.
* `Invariants` - sums over all accounts, and the global invariant: exact totals, the phantom-dust sandwich on the real
  numbers `|basis| * A / a_snapshot`, the reward accumulators, the curve.
* `AccountSteps`, `PositionSteps`, `AdlSteps`, `InstructionSteps` - every operation and every instruction keeps it.
* `Runs`, `Witness` - a market, all its accounts and any sequence of instructions; what holds in every reachable world,
  a concrete run to a world with an open position, a world in which a reward claim is refused, and one in which a
  liquidation lets the other side settle nothing.
* `Traces`, `LazyIndex`, `Refinement` - why an index moves; the lazy indices against a model that updates every account
  at every event; and that refinement over whole runs.
* `AdlCoverage` - what charging a deficit means at the index, and what holders settle once the liquidation is over.
* `InsuranceEpoch`, `InsuranceRuns` - the limits on the insurance fund, and the fund over runs.
* `Flows`, `Trading`, `Accrual`, `Haircut`, `Warmup` - what single operations, whole handlers and sequences of them do,
  in plain integers: money and margins, trades on the curve, marks and funding, profit conversion, release of profit.
* `PerkOracle` - the price account with its packed bytes.

A step of a run works on one position and the market; `rest` are all other accounts, which the program never reads.
Between `enqueue_adl` and the end of an instruction a side that is due for a reset and has no open interest is exempt
from the sandwich; between instructions none is.  Funds in the vault are `vault_balance`; `Cushion` is what the vault
holds beyond its senior claims (collateral, insurance, claimable fees).  Two history variables per side, which the
program does not store, record the rewards distributed and credited.

Results that qualify what the program's comments suggest:

* Conservation needs no closing check except for reward claims.  A claim raises the collateral total without a bound
  against the vault, so the cushion may be exceeded; `Runs.PermissionlessRefusedExactly` gives the exact condition for a
  bare settlement, `Witness.RewardRefused` a case of it, and `Runs.RunSolvent` the run-wide condition.
* After two resets of a side between two settlements of an account the lazy indices no longer determine its profit, and
  the program settles nothing.  One liquidation is enough: a drain-only side that it empties is reset by the dust check
  and again by its pending flag (`LazyIndex.DrainOnlyResetsTwice`, `Witness.MillionLost`).  Over a run, the indices
  and eager accounting differ for an account if and only if its side was reset more than once and there was a profit or
  a loss to forget (`Refinement.RunRefinesEager`).
* A charged deficit is not always paid.  If the side it is charged to is drain-only and the same liquidation empties
  it, its holders settle none of it, however fresh they are (`AdlCoverage.HolderSettles`,
  `Witness.DeficitForgotten`).  Otherwise their losses add up to the share of the deficit that falls on what they
  own, short of it by less than one unit for each holder that has not just settled
  (`AdlCoverage.LiquidationIsCovered`, `AdlCoverage.NobodyPays`).
* A second unfreeze of a price account in a row, which the handler does not refuse, overwrites the price before the
  freeze with zero, and the next price in range is accepted whatever band and breaker are set.  The anchor survives if
  and only if the price is still stored at the last unfreeze (`PerkOracle.AnchoredExactly`).
* The least curve constant of a market is declared as 10^25 but kept in 64 bits, where it is 1,590,897,978,359,414,784;
  a comment there takes it to fit (`Handlers.CreationAccepted`).
* Normalising the reserves loses nothing: a comment allows for one unit of rounding in `k`, but `k` is a perfect square
  from creation and stays the same in every run (`Vamm.NormalizeKeepsCurve`, `Runs.RunKeeps`).
* The slippage of an opening and the deviation for a re-peg are kept in 16 bits, so 65,536 basis points count as none;
  an accepted opening is within its limit if and only if it is less than that off (`Trading.OpenSwapExactly`).
* A rising price can make a long due: one that has been deleveraged, by one unit of rounding, or one that was not worth
  a unit and so required nothing (`Flows.LongStaysSafe`, `Flows.LongDueByRise`).
* A warmup over period T takes up to 2T slots, because the slope is rounded down; `Warmup.WarmupTakesOneToTwoPeriods`.

## Model

| member | source | states |
|---|---|---|
| `Words.AddCarry` | programs/perk-protocol/src/engine/wide_math.rs:465-469 | sum of two words and a carry: result plus 2^128 times the outgoing carry |
| `Words.SubBorrow` | programs/perk-protocol/src/engine/wide_math.rs:471-475 | difference with borrow, exact including the outgoing borrow |
| `Words.WideningMul` | programs/perk-protocol/src/engine/wide_math.rs:448-463 | low and high word are the full 256-bit product of two words |
| `WideMath.Mul256` | programs/perk-protocol/src/engine/wide_math.rs:525-547 | the four words are the full 512-bit product, all carries included |
| `WideMath.Cmp512` | programs/perk-protocol/src/engine/wide_math.rs:549-557 | word-by-word comparison is comparison of values |
| `WideMath.Shl512` | programs/perk-protocol/src/engine/wide_math.rs:559-572 | left shift is multiplication by 2^bits modulo 2^512 |
| `WideMath.Shr512` | programs/perk-protocol/src/engine/wide_math.rs:574-587 | right shift is floor division by 2^bits |
| `WideMath.Sub512` | programs/perk-protocol/src/engine/wide_math.rs:589-599 | subtraction with borrow chain is exact |
| `WideMath.SetBit` | programs/perk-protocol/src/engine/wide_math.rs:601-608 | setting a clear bit adds that power of two |
| `WideMath.LeadingZeros512` | programs/perk-protocol/src/engine/wide_math.rs:610-617 | 512 minus the bit length |
| `WideMath.CheckedDivRem` | programs/perk-protocol/src/engine/wide_math.rs:631-665 | `Some` exactly when the quotient fits 256 bits, and then the exact quotient and remainder |
| `FixedPoint.Add256` | programs/perk-protocol/src/engine/wide_math.rs:68-72 | `None` exactly on overflow, otherwise the exact sum |
| `FixedPoint.CheckedMul256` | programs/perk-protocol/src/engine/wide_math.rs:80-102 | `None` exactly when the product needs more than 256 bits, otherwise the exact product |
| `FixedPoint.DivRem256` | programs/perk-protocol/src/engine/wide_math.rs:481-506 | shift-subtract division yields the mathematical quotient and remainder |
| `FixedPoint.Negate` | programs/perk-protocol/src/engine/wide_math.rs:362-371 | `None` exactly for the most negative value |
| `FixedPoint.Magnitude` | programs/perk-protocol/src/engine/wide_math.rs:311-324 | two's complement absolute value |
| `FixedPoint.AddSigned` | programs/perk-protocol/src/engine/wide_math.rs:326-339 | `None` exactly outside the signed 256-bit range, detected by signs |
| `FixedPoint.SubSigned` | programs/perk-protocol/src/engine/wide_math.rs:341-360 | the same for differences, also when the subtrahend has no negation |
| `FixedPoint.ToI128` | programs/perk-protocol/src/engine/wide_math.rs:286-291 | `None` exactly outside the signed 128-bit range |
| `FixedPoint.MulDivRem` | programs/perk-protocol/src/engine/wide_math.rs:681-686 | for 256-bit values: quotient and remainder of a*b/d through the 512-bit product, refused exactly for a zero divisor or a quotient of more than 256 bits |
| `FixedPoint.MulDivCeilOf` | programs/perk-protocol/src/engine/wide_math.rs:688-693 | the same rounded up, refused exactly for a zero divisor or a result of more than 256 bits |
| `FixedPoint.ComputeCeilDiv` | programs/perk-protocol/src/engine/wide_math.rs:696-701 | rounded-up division, refused exactly for a zero divisor |
| `FixedPoint.ComputeWideMulDivFloor` | programs/perk-protocol/src/engine/wide_math.rs:718-723 | the limb computation is the floor of a*b/d, refused exactly when it needs more than 128 bits |
| `FixedPoint.ComputeCeilOrOver` | programs/perk-protocol/src/engine/wide_math.rs:755-762 | the limb computation is the rounded-up a*b/d, or over exactly beyond the positive signed range |
| `FixedPoint.ComputeKPairFloor` | programs/perk-protocol/src/engine/wide_math.rs:725-748 | K settlement is the mathematical floor of basis*(K_now-K_then)/den for every input; no intermediate overflow; refused exactly for a zero denominator or a result outside the symmetric 128-bit range |
| `FixedPoint.ComputeMulSigned` | programs/perk-protocol/src/engine/wide_math.rs:777-790 | signed product, refused exactly outside the symmetric 128-bit range |
| `Vamm.IntegerSqrt` | programs/perk-protocol/src/engine/vamm.rs:211-224 | Newton's loop terminates with the integer square root |
| `Vamm.Isqrt` | programs/perk-protocol/src/engine/vamm.rs:211-224 | s*s <= n < (s+1)*(s+1) |
| `Vamm.ComputeInitialize` | programs/perk-protocol/src/engine/vamm.rs:184-196 | balanced reserves computed with the Newton root |
| `Vamm.InitializeOnCurve` | programs/perk-protocol/src/engine/vamm.rs:184-196 | creation is refused exactly for a zero constant and otherwise starts on a curve with a perfect-square constant |
| `Vamm.NormalizeKeepsCurve` | programs/perk-protocol/src/engine/vamm.rs:200-208 | normalising balances the reserves and never changes k |
| `Vamm.LongOnCurve` | programs/perk-protocol/src/engine/vamm.rs:41-74 | on the curve a purchase is refused only for its size or price overflow, and stays on the curve |
| `Vamm.ShortOnCurve` | programs/perk-protocol/src/engine/vamm.rs:77-109 | the same for a sale; the quote subtraction never underflows |
| `Vamm.TradesMove` | programs/perk-protocol/src/engine/vamm.rs:41-115 | a sequence of trades ends where its net size says and costs the difference of the quote reserves |
| `Vamm.PathIndependence` | programs/perk-protocol/src/engine/vamm.rs:41-115 | equal net size means equal reserves and equal total quote; zero net size restores the reserves and costs nothing |
| `Vamm.FeeIsCeiling` | programs/perk-protocol/src/engine/vamm.rs:129-139 | the trading fee is the rounded-up share of the notional |
| `Vamm.SplitsConserve` | programs/perk-protocol/src/engine/vamm.rs:143-162 | creator and protocol share add up to the fee |
| `Vamm.PegRestoresPrice` | programs/perk-protocol/src/engine/vamm.rs:227-239 | after a re-peg the mark price is at the oracle price, short of it by less than the reserve ratio and one unit |
| `Engine.UserPosition.constructor` | programs/perk-protocol/src/instructions/initialize_position.rs:39-63 | a new position: all zero but the size snapshot and the activity slot |
| `Engine.FundInterval` | programs/perk-protocol/src/engine/risk.rs:704-764 | the sub-step loop in place: its invariant ties the remaining interval to the recursive form, which `Accrual.CatchesUp` is about |
| `Engine.Remainder` | programs/perk-protocol/src/engine/risk.rs:802-826 | the 256-bit remainder test for orphaned dust decides exactly whether re-basing drops a fraction of a unit |
| `Engine.ChargeSide` | programs/perk-protocol/src/engine/risk.rs:1119-1135 | the limb computation of the K shift: charged with the exact ceiling, or not at all when it is not representable |
| `Engine.ComputeTruncationDust` | programs/perk-protocol/src/engine/risk.rs:1161-1169 | the dust added for a truncated size index, in 256-bit arithmetic |
| `Engine.CutSide` | programs/perk-protocol/src/engine/risk.rs:1148-1175 | the 256-bit scaling of the size index to the remaining open interest, or nothing left of it |
| `Engine.NormalizeReserves` | programs/perk-protocol/src/engine/vamm.rs:200-208 | the reserves computed in place with the Newton root are those of `Vamm.Normalize` |
| `Instructions.Create` | programs/perk-protocol/src/instructions/create_market.rs:75-335 | refused exactly when `Handlers.CreateMarket` is, and otherwise a new market object with balanced curve, empty sides and default parameters |
| `Handlers.CreationAccepted` | programs/perk-protocol/src/instructions/create_market.rs:75-105 | which markets can be created; the least curve constant is the minimum truncated to 64 bits, not the declared one |
| `Handlers.CreationTerms` | programs/perk-protocol/src/instructions/create_market.rs:75-335 | a new market has empty sides, balanced reserves of the root of the constant, and limits of a fifth and a half of them |
| `Instructions.Execute` | programs/perk-protocol/src/instructions/liquidate.rs:68-274 | whatever the account instruction (this handler and eight others): in place it does what a step of a run does to the values, and keeps the invariant over all accounts of the market |
| `Instructions.ExecuteOnMarket` | programs/perk-protocol/src/instructions/crank_funding.rs:31-91 | the same for crank, re-peg and fee claim |
| `Flows.LossesFlow` | programs/perk-protocol/src/engine/risk.rs:1223-1240 | collateral turns into PnL one for one until one of them is used up |
| `Flows.ResolveFlow` | programs/perk-protocol/src/engine/risk.rs:1243-1253 | a flat account's loss ends; insurance pays at most the loss; nothing else moves |
| `Flows.SweepFlow` | programs/perk-protocol/src/engine/risk.rs:1275-1288 | what leaves collateral reaches insurance and lowers the debt, until debt or collateral is gone |
| `Flows.ChargeFlow` | programs/perk-protocol/src/engine/risk.rs:1291-1321 | a fee is paid from collateral as far as it goes; exactly the shortfall becomes debt |
| `Flows.CloseFeeFlow` | programs/perk-protocol/src/instructions/close_position.rs:138-181 | what is collected is what creator and protocol can claim; the rest is debt; the vault cushion is unchanged |
| `Flows.DebitKeepsHaircut` | programs/perk-protocol/src/instructions/withdraw.rs:144-153 | a withdrawal changes nobody's haircut |
| `Flows.OpenAddsExactly` | programs/perk-protocol/src/instructions/open_position.rs:182-218 | effective size, open interest and raw total grow by exactly the traded size |
| `Flows.CloseRemovesExactly` | programs/perk-protocol/src/instructions/close_position.rs:108-231 | exactly the closed part leaves open interest and raw total; a full close leaves nothing, a partial one at least one unit |
| `Flows.DepositEnds` | programs/perk-protocol/src/instructions/deposit.rs:67-147 | a deposit pays off a loss first, the rest is collateral; collateral and PnL together rise by the amount unless a flat loss is forgiven; the vault by the amount |
| `Flows.WithdrawKeepsMargin` | programs/perk-protocol/src/instructions/withdraw.rs:69-166 | a withdrawal pays off the whole loss, takes exactly the amount from collateral and vault, and leaves an exposed account with equity of at least max(floor(notional*bps/10^4), 20,000) |
| `Flows.SettleFundingEnds` | programs/perk-protocol/src/instructions/settle_funding.rs:50-118 | afterwards no released profit is left, and neither a loss nor fee debt beside collateral that could pay it |
| `Flows.SettleStaleEnds` | programs/perk-protocol/src/instructions/settle_stale_position.rs:54-88 | the same but for fee debt |
| `Flows.ReclaimsOnlyDust` | programs/perk-protocol/src/instructions/reclaim_empty_account.rs:56-116 | only a flat account without orders, debt or PnL, idle for a thousand slots and with at most a thousand units, whose collateral the insurance fund gets |
| `Flows.DistributeExactly` | programs/perk-protocol/src/instructions/liquidate.rs:151-197 | a surplus raises the accumulator by its exact share per raw unit, rounded down, or goes whole to the insurance fund if nobody can share it or the accumulator would overflow |
| `Flows.ClaimExactly` | programs/perk-protocol/src/engine/risk.rs:430-465 | a claim credits the rise of the accumulator times the raw size, rounded down, and takes the new snapshot |
| `Flows.MaintenanceExactly` | programs/perk-protocol/src/engine/risk.rs:1536-1604 | the maintenance test in plain integers for every input: collateral + gain - debt > max(floor(notional*mm/10^4), 10,000), with the gain of a long in the price and of a short against it |
| `Flows.LiquidatesOnlyDue` | programs/perk-protocol/src/instructions/liquidate.rs:68-112 | a liquidation only succeeds on a settled account whose equity is not above its maintenance requirement |
| `Flows.HealthyIsSpared` | programs/perk-protocol/src/instructions/liquidate.rs:68-112 | and is refused whenever it is |
| `Flows.ShortStaysSafe` | programs/perk-protocol/src/engine/risk.rs:1536-1604 | a falling price never makes a short due |
| `Flows.LongStaysSafe` | programs/perk-protocol/src/engine/risk.rs:1536-1604 | a rising price never makes a long due that is worth a unit and has not been deleveraged, nor a deleveraged one that was safe by more than one unit |
| `Flows.LongDueByRise` | programs/perk-protocol/src/engine/risk.rs:1536-1604 | a deleveraged long and a long worth less than a unit that a rising price makes due |
| `Flows.InitialExactly` | programs/perk-protocol/src/engine/risk.rs:1607-1636 | the initial-margin test in plain integers: collateral + min(PnL, 0) + haircut share - debt >= max(floor(notional*bps/10^4), 20,000) |
| `Flows.Waterfall` | programs/perk-protocol/src/engine/liquidation.rs:42-87 | deficit (debt beyond collateral and PnL), half the fee to the liquidator, half to insurance, the rest to the other side, each only after the earlier ones are paid in full; the fee is the rounded-up share of the notional |
| `Flows.LiquidationPays` | programs/perk-protocol/src/instructions/liquidate.rs:68-274 | the liquidated account ends empty, and the vault pays the liquidator exactly the reward of the bill |
| `Trading.OpenAllowedExactly` | programs/perk-protocol/src/instructions/open_position.rs:93-125 | who may open: in the direction of the position, on a side in normal mode, within position and open interest limits |
| `Trading.OpenSwapExactly` | programs/perk-protocol/src/engine/vamm.rs:41-180 | an opening takes its size from the curve in its own direction for the change of the quote reserve; its price is within the slippage limit if and only if it is less than 65,536 basis points off |
| `Trading.OpenTrades` | programs/perk-protocol/src/instructions/open_position.rs:49-283 | the whole handler: curve, recorded entry, raw and effective size, open interest and snapshots move by exactly the traded size |
| `Trading.OpenCharges` | programs/perk-protocol/src/instructions/open_position.rs:148-283 | the fee is the rounded-up share of the notional, a tenth of it claimable by the creator; a new position starts without PnL, reserve or debt at the current peg |
| `Trading.OpenWithinLimits` | programs/perk-protocol/src/instructions/open_position.rs:49-125 | an opening is only accepted within the limits of the market and the leverage range |
| `Trading.OpenKeepsMargin` | programs/perk-protocol/src/instructions/open_position.rs:219-222 | equity less the fee is at least the initial requirement of everything the account then holds |
| `Trading.CloseSizeExactly` | programs/perk-protocol/src/instructions/close_position.rs:79-96 | what may be closed: everything, or a part that leaves at least a hundred units |
| `Trading.CloseTrades` | programs/perk-protocol/src/instructions/close_position.rs:50-284 | the whole handler: the proportional effective size is traded back against the position, unless a side is reset; open interest falls by it; the entry that is left is the part of what is left, rounded up by less than a unit |
| `Trading.CloseCharges` | programs/perk-protocol/src/instructions/close_position.rs:134-284 | the collected part of the fee is claimable, the rest is debt; afterwards released profit is paid out, and a flat account has neither a loss nor a payable debt |
| `Trading.RoundTrip` | programs/perk-protocol/src/engine/vamm.rs:41-115 | opening and then closing the same effective size, with no reset in between, restores the reserves |
| `Trading.CloseClears` | programs/perk-protocol/src/instructions/close_position.rs:263-281 | when a close has taken the last position off its side, no open interest is left on it |
| `Trading.LiquidationClears` | programs/perk-protocol/src/instructions/liquidate.rs:200-274 | the same for both sides after a liquidation |
| `Trading.LiquidationTrades` | programs/perk-protocol/src/instructions/liquidate.rs:111-124 | a liquidation trades the whole effective position back, unless it resets a side |
| `AccountSteps.SetPnlKeeps` | programs/perk-protocol/src/engine/risk.rs:140-196 | keeps the whole invariant and the cushion; what it does to released profit is `Warmup.PnlUpdateNeverMatures` |
| `AccountSteps.SetPnlRefusals` | programs/perk-protocol/src/engine/risk.rs:140-196 | in a reachable state a PnL update is refused exactly at the documented limits; no total can underflow |
| `AccountSteps.SetReservedSucceeds` | programs/perk-protocol/src/engine/risk.rs:199-222 | moving the reserve within the positive PnL is never refused |
| `AccountSteps.PayoutBound` | programs/perk-protocol/src/engine/risk.rs:1256-1272 | the payout is at most the residual, because released profit is part of the matured total |
| `AccountSteps.ConvertKeeps` | programs/perk-protocol/src/engine/risk.rs:1256-1272 | conversion keeps the invariant and a solvent vault solvent |
| `AccountSteps.SettleSideEffectsKeeps` | programs/perk-protocol/src/engine/risk.rs:471-625 | settlement keeps the invariant, makes the account current, and costs the cushion exactly the claimed reward |
| `AccountSteps.AccrueKeeps` | programs/perk-protocol/src/engine/risk.rs:630-779 | accrual keeps the invariant and moves indices, as `Accrual.AccrueExactly` says, and clock only |
| `PositionSteps.OpenInterestCovers` | programs/perk-protocol/src/engine/risk.rs:1491-1519 | the effective size of a settled account never exceeds the open interest it is taken from |
| `PositionSteps.EnlargeKeeps` | programs/perk-protocol/src/instructions/open_position.rs:182-218 | opening keeps the invariant once the reward snapshot is in place |
| `PositionSteps.ReduceKeeps` | programs/perk-protocol/src/instructions/close_position.rs:186-231 | closing, in part or in full, keeps the invariant |
| `AdlSteps.CutKeeps` | programs/perk-protocol/src/engine/risk.rs:1148-1175 | the dust added for a truncated index covers every account of the side |
| `AdlSteps.EnqueueForm` | programs/perk-protocol/src/engine/risk.rs:1041-1185 | what deleveraging can do to each of the two sides, and to nothing else |
| `AdlSteps.EnqueueFlags` | programs/perk-protocol/src/engine/risk.rs:1041-1196 | which sides deleveraging leaves due for a reset, and what it leaves of the open interest of the liquidated side |
| `AdlSteps.CutDrains` | programs/perk-protocol/src/engine/risk.rs:1148-1175 | a side only drains once its size index is below a thousand |
| `AdlSteps.TruncationDustIs` | programs/perk-protocol/src/engine/risk.rs:1161-1169 | the dust added for a truncated index is one unit per position and the rounded-up quotient of open interest and positions by the index |
| `AdlSteps.DeleveragedKeeps` | programs/perk-protocol/src/engine/risk.rs:1062-1184 | the deleveraged side stays covered in every branch |
| `AdlSteps.DistributeForm` | programs/perk-protocol/src/instructions/liquidate.rs:151-197 | a distribution raises the accumulator by no more than the surplus backs |
| `AdlSteps.LiquidationCoreKeeps` | programs/perk-protocol/src/instructions/liquidate.rs:111-218 | deleveraging, distribution and wiping together keep the invariant, with their exact bound on the cushion |
| `AdlSteps.CheckDustKeeps` | programs/perk-protocol/src/engine/risk.rs:942-997 | clearing dust and resetting keeps the invariant |
| `AdlSteps.EmptySideIsCleared` | programs/perk-protocol/src/engine/risk.rs:942-997 | a side without stored positions is always cleared |
| `AdlSteps.ClearedForm` | programs/perk-protocol/src/engine/risk.rs:942-997 | clearing a side that still had open interest clears the other one with it, if no position is left there |
| `AdlSteps.FinalizeKeeps` | programs/perk-protocol/src/engine/risk.rs:1198-1217 | deferred resets keep the invariant and leave none pending |
| `InstructionSteps.TouchKeeps` | programs/perk-protocol/src/instructions/open_position.rs:75-88 | accrue, settle, warmup: keeps the invariant for all other accounts, the curve constant, and the cushion up to the pending reward of the touched account |
| `InstructionSteps.DepositKeeps` | programs/perk-protocol/src/instructions/deposit.rs:67-147 | deposit: keeps the invariant for all other accounts, the curve constant, and the cushion up to the pending reward of the touched account |
| `InstructionSteps.WithdrawKeeps` | programs/perk-protocol/src/instructions/withdraw.rs:69-166 | withdraw: keeps the invariant for all other accounts, the curve constant, and the cushion up to the pending reward of the touched account |
| `InstructionSteps.OpenKeeps` | programs/perk-protocol/src/instructions/open_position.rs:49-283 | open: keeps the invariant for all other accounts, the curve constant, and the cushion up to the pending reward of the touched account |
| `InstructionSteps.CloseKeeps` | programs/perk-protocol/src/instructions/close_position.rs:50-284 | close: keeps the invariant for all other accounts, the curve constant, and the cushion up to the pending reward of the touched account |
| `InstructionSteps.LiquidateKeeps` | programs/perk-protocol/src/instructions/liquidate.rs:68-274 | liquidate: keeps the invariant for all other accounts, the curve constant, and the cushion up to the pending reward of the touched account |
| `InstructionSteps.SettleFundingKeeps` | programs/perk-protocol/src/instructions/settle_funding.rs:50-118 | settle funding: keeps the invariant for all other accounts, the curve constant, and the cushion up to the pending reward of the touched account |
| `InstructionSteps.SettlePermissionlessKeeps` | programs/perk-protocol/src/instructions/settle_position_permissionless.rs:48-93 | permissionless settlement: keeps the invariant for all other accounts, the curve constant, and the cushion up to the pending reward of the touched account |
| `InstructionSteps.SettleStalePositionKeeps` | programs/perk-protocol/src/instructions/settle_stale_position.rs:54-88 | stale settlement: keeps the invariant for all other accounts, the curve constant, and the cushion up to the pending reward of the touched account |
| `InstructionSteps.ReclaimKeeps` | programs/perk-protocol/src/instructions/reclaim_empty_account.rs:56-116 | reclaim; the account ends without a trace in any total: keeps the invariant for all other accounts, the curve constant, and the cushion up to the pending reward of the touched account |
| `InstructionSteps.CrankKeeps` | programs/perk-protocol/src/instructions/crank_funding.rs:31-91 | funding crank: keeps the invariant for all other accounts, the curve constant, and the cushion up to the pending reward of the touched account |
| `InstructionSteps.UpdateAmmKeeps` | programs/perk-protocol/src/instructions/update_amm.rs:30-87 | re-peg: keeps the invariant for all other accounts, the curve constant, and the cushion up to the pending reward of the touched account |
| `InstructionSteps.ClaimKeeps` | programs/perk-protocol/src/instructions/claim_fees.rs:51-116 | fee claim: keeps the invariant for all other accounts, the curve constant, and the cushion up to the pending reward of the touched account |
| `InstructionSteps.CreateMarketInv` | programs/perk-protocol/src/instructions/create_market.rs:75-335 | creation establishes the invariant |
| `InstructionSteps.BillCovered` | programs/perk-protocol/src/engine/liquidation.rs:42-87 | the liquidation bill is exactly the collateral beyond the deficit |
| `Runs.StepKeeps` | programs/perk-protocol/src/engine/risk.rs:430-1321 | every instruction, aborted or not, keeps the invariant of the whole world and the curve constant |
| `Runs.RunKeeps` | programs/perk-protocol/src/engine/risk.rs:430-1321 | so does every sequence of instructions on any number of accounts |
| `Runs.ReachableOk` | programs/perk-protocol/src/instructions/create_market.rs:75-335 | every world reachable from the creation of a market satisfies the invariant |
| `Runs.CountsAreExact` | programs/perk-protocol/src/engine/risk.rs:271-294 | stored, stale and raw totals are exact sums over all accounts; 1 <= A <= ADL_ONE; no side is ever left in a reset |
| `Runs.MoneyIsExact` | programs/perk-protocol/src/engine/risk.rs:140-268 | collateral, positive PnL and matured totals are exact sums over all accounts |
| `Runs.GuardsNeverFire` | programs/perk-protocol/src/engine/risk.rs:140-294 | what one account contributes is covered by each total, so no guarded subtraction underflows or clips |
| `Runs.PhantomDust` | programs/perk-protocol/src/engine/risk.rs:797-1216 | 0 <= OI - sum |basis|*A/a <= dust bound, per side, in every reachable world |
| `Runs.EmptySideHoldsDust` | programs/perk-protocol/src/engine/risk.rs:942-997 | a side with no stored position has open interest within the dust bound, and the next check clears it |
| `Runs.SizesWithinOpenInterest` | programs/perk-protocol/src/engine/risk.rs:387-414 | the floored effective sizes of all accounts add up to at most the open interest, and can always be computed |
| `Runs.RewardsWithinDistributions` | programs/perk-protocol/src/instructions/liquidate.rs:151-218 | over any run, rewards credited plus rewards still claimable never exceed the surplus distributed to the side |
| `Runs.ClosingCheckNeverFires` | programs/perk-protocol/src/engine/risk.rs:1639-1650 | with the pending reward covered, the closing conservation check never refuses an instruction |
| `Runs.PermissionlessRefusedExactly` | programs/perk-protocol/src/instructions/settle_position_permissionless.rs:80-93 | a bare settlement is refused if and only if the pending reward exceeds the cushion |
| `InsuranceRuns.StepInsures` | programs/perk-protocol/src/engine/risk.rs:1005-1029 | every instruction changes the insurance fund by its own list of draws and inflows, a function of the instruction and the world, and by nothing else |
| `InsuranceRuns.InsuranceOverRun` | programs/perk-protocol/src/engine/risk.rs:1005-1029 | over any run across any number of insurance epochs: the recorded payouts are exactly what the fund has paid since its epoch began, within 30% of the highest balance it has had since, and the balance has not fallen below its floor |
| `InsuranceRuns.InsuranceSinceCreation` | programs/perk-protocol/src/instructions/create_market.rs:75-335 | in particular over every run of a new market |
| `Witness.RewardRefused` | programs/perk-protocol/src/instructions/settle_position_permissionless.rs:80-93 | a world within the invariant whose bare settlement is refused: the pending reward exceeds the cushion |
| `Runs.StepFlow` | programs/perk-protocol/src/engine/risk.rs:630-1216 | every successful instruction moves the indices of a side by exactly one mark at its price move, if the price has moved and the side is live, by funding at its price, rate and size indices for no more slots than have elapsed, by one charge of the deficit that insurance leaves and one cut of the size that is closed (liquidations only), and by resets; a refused one by nothing |
| `Runs.RunSolvent` | programs/perk-protocol/src/engine/risk.rs:1219-1321 | the vault covers all senior claims over any run in which unchecked instructions find the pending reward covered |
| `Witness.NewMarketReachable` | programs/perk-protocol/src/instructions/create_market.rs:75-335 | every market the program can create is the start of a run |
| `Witness.StepReachable` | programs/perk-protocol/src/instructions/open_position.rs:49-283 | reachability is closed under every instruction in every environment |
| `Witness.PositionsAreReachable` | programs/perk-protocol/src/instructions/open_position.rs:49-283 | one concrete run deposits and opens a position, with every number the program computes |
| `Traces.AccrueFlow` | programs/perk-protocol/src/engine/risk.rs:630-779 | an accrual moves each live side by exactly one mark if the price has moved, with opposite signs, and by funding at its price, rate and size indices for no more slots than have elapsed |
| `Traces.EnqueueFlow` | programs/perk-protocol/src/engine/risk.rs:1041-1185 | deleveraging moves the indices by at most one charge and one cut, both at the open interest of the side |
| `LazyIndex.EntryRecords` | programs/perk-protocol/src/engine/risk.rs:630-1185 | each of these calls is an event of the eager model: a move per unit of size, a shrink or a wind-up |
| `LazyIndex.LazyRefinesEager` | programs/perk-protocol/src/engine/risk.rs:385-625 | for any recorded events with at most one reset, size and profit from A and K equal those of eager accounting |
| `LazyIndex.RefinementExactly` | programs/perk-protocol/src/engine/risk.rs:547-621 | they agree for any recorded events if and only if there was at most one reset or the profit at the first one was zero |
| `LazyIndex.TraceRefinesEager` | programs/perk-protocol/src/engine/risk.rs:385-779 | the same for every trace of engine calls, with no premise on the path of the indices |
| `Refinement.SparedStays` | programs/perk-protocol/src/engine/risk.rs:471-625 | no run changes an account that none of its instructions succeeds on |
| `Refinement.RunTraced` | programs/perk-protocol/src/engine/risk.rs:630-1216 | the indices of a side go through such a trace in every run |
| `Refinement.RunRefinesEager` | programs/perk-protocol/src/engine/risk.rs:385-1216 | over any run that leaves an account alone, A and K give it exactly what eager accounting of the run gives, if and only if there was at most one reset or no profit to lose |
| `Refinement.RunSettlesEager` | programs/perk-protocol/src/engine/risk.rs:471-625 | settling the account at the end of the run books the whole units of its eager profit, across more than one reset nothing, and ends it exactly when less than one unit of size is left |
| `LazyIndex.DrainedByLiquidation` | programs/perk-protocol/src/engine/risk.rs:1089-1145 | deleveraging away the whole of a drain-only side leaves it pending with no open interest |
| `LazyIndex.DrainOnlyResetsTwice` | programs/perk-protocol/src/engine/risk.rs:942-1217 | the dust check and the pending flag then reset it twice |
| `LazyIndex.TwoResetsLoseProfit` | programs/perk-protocol/src/engine/risk.rs:547-587 | after these two resets the engine settles nothing, where eager accounting keeps the whole profit |
| `Witness.MillionLost` | programs/perk-protocol/src/instructions/liquidate.rs:68-274 | a two-account world within the invariant in which one step, the liquidation of the last short, makes a holder on the other side lose a profit of a million units |
| `LazyIndex.MarkRecords` | programs/perk-protocol/src/engine/risk.rs:666-684 | a price change is recorded as exactly the price difference per unit of size |
| `LazyIndex.ChargeRecords` | programs/perk-protocol/src/engine/risk.rs:1119-1135 | a charged deficit costs each unit its share of the deficit, rounded up by less than one index step |
| `LazyIndex.CutRecords` | programs/perk-protocol/src/engine/risk.rs:1148-1175 | a cut shrinks all positions by one ratio, which is the share of open interest that remains, rounded down to an index step |
| `LazyIndex.ResetRecords` | programs/perk-protocol/src/engine/risk.rs:868-900 | a reset ends all positions of the side at the current index |
| `LazyIndex.SettlesFloor` | programs/perk-protocol/src/engine/risk.rs:494-541 | settlement books the floor of the eager profit; the position ends exactly when less than one unit is left |
| `LazyIndex.SettlesStaleFloor` | programs/perk-protocol/src/engine/risk.rs:547-621 | settlement across one reset books the floor of the profit up to the end of the epoch, across more of them nothing, and ends the position |
| `LazyIndex.SettlesBooks` | programs/perk-protocol/src/engine/risk.rs:494-621 | what settlement books, exactly: whole units up to the index in the current epoch, up to the end of the epoch just after it, nothing later |
| `LazyIndex.OftenVersusOnce` | programs/perk-protocol/src/engine/risk.rs:494-541 | settling n times instead of once, with price changes, funding, deficits and size cuts in between, costs an open account at most n-1 units and never pays it more |
| `AdlCoverage.ChargedExactly` | programs/perk-protocol/src/engine/risk.rs:1119-1135 | the deficit is charged exactly when the shift is positive and representable |
| `AdlCoverage.LossExactly` | programs/perk-protocol/src/engine/risk.rs:494-541 | what a lower index means for one account, exactly; it falls short of its share if and only if the fraction of a unit it leaves out shrinks |
| `AdlCoverage.DeficitIsCovered` | programs/perk-protocol/src/engine/risk.rs:1089-1135 | at the index, under the invariant, also inside an instruction: (losses + unsettled holders) * OI >= deficit * owned size >= deficit * (OI - dust), and losses <= deficit + one index step per unit owned + one unit per holder |
| `AdlCoverage.EnqueueIsCovered` | programs/perk-protocol/src/engine/risk.rs:1041-1185 | every enqueue_adl lowers the index of the opposite side for exactly what the insurance fund leaves of the deficit, or not at all |
| `AdlCoverage.CoveredInFull` | programs/perk-protocol/src/engine/risk.rs:1089-1135 | losses that share a deficit out like that, on a side without phantom dust, are at least the deficit less the unsettled holders |
| `AdlCoverage.NobodyPays` | programs/perk-protocol/src/engine/risk.rs:1119-1135 | two unsettled holders of a side without dust who owe half a unit each and pay nothing of a deficit of one unit |
| `AdlCoverage.ResetsOf` | programs/perk-protocol/src/engine/risk.rs:942-1217 | how the other side comes out of the resets of a liquidation: with its indices if it has open interest left, else at the end of its epoch, or one epoch beyond if it was drain-only |
| `AdlCoverage.HolderSettles` | programs/perk-protocol/src/instructions/liquidate.rs:68-274 | what every current holder of the other side settles after a liquidation: its gain up to the charged index if and only if no drain-only side was drained away or that gain is zero; on one that was, nothing |
| `AdlCoverage.LiquidationIsCovered` | programs/perk-protocol/src/instructions/liquidate.rs:68-274 | unless a drain-only side is drained away, all holders together settle less than before by what shares out the uncovered deficit, or by nothing if the side does not take it |
| `Witness.DeficitForgotten` | programs/perk-protocol/src/instructions/liquidate.rs:68-274 | a just settled holder of a side without dust that is charged a whole deficit of 500,000 units through its index and settles none of it after the same liquidation step |
| `Haircut.ConversionPays` | programs/perk-protocol/src/engine/risk.rs:1256-1272 | the account is paid exactly its haircut share and the matured total falls by all it released |
| `Haircut.EquityUnchanged` | programs/perk-protocol/src/engine/risk.rs:365-379 | conversion leaves the initial-margin equity exactly unchanged |
| `Haircut.RatioNeverFalls` | programs/perk-protocol/src/engine/risk.rs:300-319 | residual' * matured >= residual * matured' |
| `Haircut.ConvertInAnyOrder` | programs/perk-protocol/src/engine/risk.rs:1256-1272 | in any order everyone gets at least the share of the opening ratio, and payments equal the drop of the residual |
| `Haircut.TotalPaidWithinResidual` | programs/perk-protocol/src/engine/risk.rs:1256-1272 | all payments together fit into the opening residual |
| `Accrual.CatchesUp` | programs/perk-protocol/src/engine/risk.rs:704-779 | after a successful accrual the market is at the current slot and price, however long the gap, and the next one is funded at this price |
| `Accrual.AccrueExactly` | programs/perk-protocol/src/engine/risk.rs:630-779 | a live side moves by exactly A*(price move), a short against it, also with no slot elapsed; beyond that only funding moves it, none without slots, rate or two live sides, and else price*rate*slots*A from payer to receiver within one step per sub-step; a dead side does not move |
| `Accrual.AccrualMintsNothing` | programs/perk-protocol/src/engine/risk.rs:630-779 | -n*(A_payer-1) <= A_short*dK_long + A_long*dK_short <= 0 for n sub-steps |
| `Accrual.SubstepsExactly` | programs/perk-protocol/src/engine/risk.rs:704-764 | an accrual takes one sub-step per started interval of 65,535 slots, at most sixteen |
| `Accrual.ReachableMintsNothing` | programs/perk-protocol/src/engine/risk.rs:630-779 | the same in every reachable world |
| `Accrual.RateFollowsPremium` | programs/perk-protocol/src/engine/funding.rs:23-61 | the rate has the sign of the premium, is within the cap and no larger than the premium |
| `Accrual.StoredRateCapped` | programs/perk-protocol/src/engine/funding.rs:118-140 | the stored per-slot rate adds up to at most the cap over one period |
| `Accrual.FundingWithinCap` | programs/perk-protocol/src/engine/funding.rs:85-144 | end to end: within a period the payer's index falls by at most A*price*cap/10000 and one unit per sub-step, which is one sub-step for up to 65,535 slots |
| `Accrual.FundingRecords` | programs/perk-protocol/src/engine/risk.rs:714-763 | a unit on the paying side is charged price * rate * slots, rounded up by less than one index step; a unit on the receiving side gains that, rounded down by less than one step |
| `Accrual.TwapIsMean` | programs/perk-protocol/src/engine/funding.rs:85-140 | the mark price of a funding update is the weighted mean of all observations since the last one, rounded down, and between the lowest and highest of them |
| `Accrual.TwapUnobserved` | programs/perk-protocol/src/engine/funding.rs:85-140 | without observations it is the mean of the current mark and that of the last update |
| `Accrual.CrankStoresPremium` | programs/perk-protocol/src/instructions/crank_funding.rs:31-91 | a crank stores the premium of the mean mark over the oracle price, rounded and capped, spread over the slots of the period, and starts a new mean |
| `Accrual.RepegRestores` | programs/perk-protocol/src/instructions/update_amm.rs:30-87 | a re-peg waits for cool-down and deviation, keeps the reserves, and puts the mark price at the oracle price within the stated error |
| `Accrual.ClaimPays` | programs/perk-protocol/src/instructions/claim_fees.rs:51-116 | a claim pays all that can be claimed, or what the vault has, and leaves the other party's fees alone |
| `Warmup.AdvanceTwice` | programs/perk-protocol/src/engine/warmup.rs:19-53 | advancing at two slots equals advancing once at the later one, in every field and every refusal |
| `Warmup.AdvanceOften` | programs/perk-protocol/src/engine/warmup.rs:19-53 | so does any ordered series of slots |
| `Warmup.WarmupStartedInThePast` | programs/perk-protocol/src/engine/warmup.rs:19-53 | in every reachable world each warmup has started in the past, so slots are in order |
| `Warmup.ReleasedExactly` | programs/perk-protocol/src/engine/risk.rs:1340-1358 | after a restart the reserve is gone exactly when slope times elapsed reaches it |
| `Warmup.WarmupTakesOneToTwoPeriods` | programs/perk-protocol/src/engine/risk.rs:1340-1358 | fully released after two periods; a reserve of one unit per slot lasts at least one |
| `Warmup.TwoPeriodsAreNeeded` | programs/perk-protocol/src/engine/risk.rs:1340-1358 | a reserve of 2T-1 is released after exactly 2T-1 slots |
| `Warmup.GainRestarts` | programs/perk-protocol/src/engine/risk.rs:494-541 | settling a gain reserves all of it and restarts the warmup of the whole reserve at the current slot; settling a loss leaves the warmup running |
| `Warmup.StaleGainRestarts` | programs/perk-protocol/src/engine/risk.rs:547-621 | the same for a position of an earlier epoch |
| `Warmup.PnlUpdateNeverMatures` | programs/perk-protocol/src/engine/risk.rs:140-196 | released profit afterwards is min(released profit, positive PnL): a gain matures and takes nothing, a loss takes the reserve first; the total falls by what the account's does |
| `Warmup.AdvanceMatures` | programs/perk-protocol/src/engine/warmup.rs:39-47 | an advance leaves max(reserve - slope * elapsed, 0) in reserve and matures exactly what it releases |
| `InsuranceEpoch.DrawLimits` | programs/perk-protocol/src/engine/risk.rs:1005-1029 | a draw never goes below the floor, stays within the epoch cap, counts exactly what it pays, and pays the whole loss unless it reaches one of the two limits |
| `InsuranceEpoch.EpochLimits` | programs/perk-protocol/src/engine/risk.rs:1005-1029 | over any draws and inflows the counter is what was paid and at most 30% of the peak balance |
| `InsuranceEpoch.PaidWithinThirtyPercent` | programs/perk-protocol/src/engine/risk.rs:1005-1029 | from the start of an epoch everything paid is within 30% of the peak balance |
| `InsuranceEpoch.FloorAndBalance` | programs/perk-protocol/src/engine/risk.rs:1005-1029 | the fund never falls below its floor and pays only what it had or received |
| `PerkOracle.AcceptedExactly` | programs/perk-protocol/src/instructions/update_perk_oracle.rs:30-172 | the exact conditions of acceptance, in exact arithmetic |
| `PerkOracle.AcceptedAfterUnfreeze` | programs/perk-protocol/src/instructions/freeze_perk_oracle.rs:24-64 | exactly which update is accepted after an unfreeze: held by band and breaker to the price stored before it, if there was one, and one gap is forgiven |
| `PerkOracle.AcceptedAfterSwitches` | programs/perk-protocol/src/instructions/freeze_perk_oracle.rs:24-64 | and after any series of freezes and unfreezes |
| `PerkOracle.AnchoredExactly` | programs/perk-protocol/src/instructions/freeze_perk_oracle.rs:24-64 | the next price is always held to the last accepted one if and only if the oracle was unfrozen once |
| `PerkOracle.EmaInHull` | programs/perk-protocol/src/instructions/update_perk_oracle.rs:93-108 | the average stays between its old value and the new price and never returns to zero |
| `PerkOracle.EmaWeights` | programs/perk-protocol/src/instructions/update_perk_oracle.rs:91-108 | it is nine parts of the old value and one of the new price, rounded down; the first price starts it |
| `PerkOracle.EmaStaysInHull` | programs/perk-protocol/src/instructions/update_perk_oracle.rs:91-125 | over any series of updates it stays in the hull of its start and the accepted prices |
| `PerkOracle.EmaDrift` | programs/perk-protocol/src/instructions/update_perk_oracle.rs:91-125 | after n updates the average has grown by at most the n-th power of the growth per update |
| `PerkOracle.PriceDrift` | programs/perk-protocol/src/instructions/update_perk_oracle.rs:91-125 | after n updates the price is at most ema_0*(1+(cb+1)/10^5)^(n-1)*(1+(cb+1)/10^4) |
| `PerkOracle.WindowBand` | programs/perk-protocol/src/instructions/update_perk_oracle.rs:127-170 | while a window runs every accepted price is within three bands of its start |
| `PerkOracle.DecodeEncode` | programs/perk-protocol/src/instructions/update_perk_oracle.rs:62-75 | reading a little-endian field back gives what was written |
| `PerkOracle.EncodeDecode` | programs/perk-protocol/src/instructions/update_perk_oracle.rs:62-75 | and writing back what was read changes no byte |
| `PerkOracle.PutU64` | programs/perk-protocol/src/instructions/update_perk_oracle.rs:157-161 | writing a word changes its own bytes only |
| `PerkOracle.Oracle.constructor` | programs/perk-protocol/src/instructions/initialize_perk_oracle.rs:76-100 | a new oracle account, with its limits packed into the reserved bytes |
| `PerkOracle.Oracle.UpdatePrice` | programs/perk-protocol/src/instructions/update_perk_oracle.rs:26-180 | the update handler on the packed account does what the specification says and touches no foreign byte |
| `PerkOracle.Oracle.SetFreeze` | programs/perk-protocol/src/instructions/freeze_perk_oracle.rs:24-64 | the freeze handler, likewise |

## Left out

- Administrative overrides (`admin_set_side_state`, `admin_reset_k_indices`, `admin_fix_market_accrue`, `admin_update_market`): they step outside the state machine on purpose and are not part of a run.
- `execute_trigger_order` and the placing and cancelling of trigger orders: the same open and close arithmetic; its open path does not write the reward snapshot, so it is excluded from the runs of the reward theorem.
- Account validation, signers, token transfers and extensions, rent: platform plumbing; a transfer is a change of `vault_balance`, equal to the token balance.
- Reading and falling back between price feeds: the price an instruction works with is a parameter, and so are slot, time, `paused`, `active`, whether the caller is the creator and whether orders are open.
- In `create_market`, the checks of the mints, their decimals and extensions and of the kind of price feed; the limits on fee, leverage and curve constant are those that `initialize_protocol` sets, and so is the creator's fee share of 10%.
- Statistics no instruction reads back: volumes, user and position counters, fees earned, insurance fee revenue.
- `finalize_side_reset`, `touch_account_full`, `advance_profit_warmup`, `attach_position`, `deposit_fee_credits`, `compute_trade_pnl`: not called by any handler.
- `debug_assert!` statements: compiled out of the deployed program, so the model does not rely on them; the two reserve comparisons that guard an unsigned subtraction abort.
- `update_oracle_config`, `transfer_oracle_authority`: they set limits; a run of the oracle keeps its limits.
- The packing of a `U256` into four 64-bit limbs: the model keeps the two 128-bit words that every operation works on.
- Two early exits of `checked_div_rem_by_u256` (zero numerator, more leading zeros): both are inside the case of a numerator below the divisor.
- Comparisons between the maintenance and the initial margin: they use different equities and neither implies the other.
- Rollback: a method that aborts may leave fields half updated, as the program does; the platform restores them, and a run leaves the world unchanged.
- Runs.RunSolvent: solvency of reward claims against the vault is a premise, because the residual behind them is shared with profit conversion.
- Accrual.FundingWithinCap: one accrual over at most one funding period; a longer gap is charged at the stored rate for up to a million slots.
- PerkOracle.PriceDrift: only the upper bound on the drift; below, the floor of the average loses up to one unit per update.
