/**
 What each instruction handler computes from the market, the position it was
 given and its environment.  The oracle reading, the clock and the caller's
 identity are parameters; a token transfer is a change of `funds.vault`.
 */
module Handlers {
  import opened Numbers
  import opened FixedPoint
  import opened State
  import opened Risk
  import Vamm

  const MIN_DEPOSIT_AMOUNT: int := 1_000
  const MIN_LEVERAGE: int := 100
  const MIN_REMAINING_POSITION_SIZE: int := 100
  const CREATOR_FEE_SHARE_BPS: int := 1_000
  const LIQUIDATOR_SHARE_BPS: int := 5_000
  const INSURANCE_EPOCH_SECONDS: int := 86_400
  const MIN_RECLAIM_DELAY_SLOTS: int := 1_000
  const DUST_THRESHOLD: int := 1_000
  const AMM_PEG_THRESHOLD_BPS: int := 50
  const PEG_UPDATE_COOLDOWN_SLOTS: int := 100
  const PEG_TWAP_WEIGHT: int := 1_000_000

  datatype Env = Env(slot: u64, time: i64, price: u64, paused: bool, active: bool)

  // ---------------------------------------------------------------------------
  // Common steps
  // ---------------------------------------------------------------------------

  /** Accrue, settle, advance the warmup: the opening of every instruction on a position. */
  function Touch(s: Pair, env: Env): Outcome<Pair> {
    var m :- Accrue(s.m, env.slot, env.price);
    var s1 :- SettleSideEffects(s.(m := m));
    AdvanceWarmup(s1, env.slot)
  }

  function Conserving(s: Pair): Outcome<Pair> {
    var _ :- Require(CheckConservation(s.m.funds));
    Done(s)
  }

  /** A handler that ends with the conservation check. */
  function Checked(body: Outcome<Pair>): Outcome<Pair> {
    var s :- body;
    Conserving(s)
  }

  function Stamp(s: Pair, slot: u64): Pair {
    s.(p := s.p.(lastActivity := slot))
  }

  function Finalize(s: Pair): Outcome<Pair> {
    var m :- FinalizePending(s.m);
    Done(s.(m := m))
  }

  function Elapsed(time: i64, since: i64): i64 {
    Max(Min(time - since, I64_MAX), -TWO63)
  }

  function RollInsuranceEpoch(m: MarketV, time: i64): MarketV {
    if Elapsed(time, m.funds.epochStart) >= INSURANCE_EPOCH_SECONDS
    then m.(funds := m.funds.(epochStart := time, epochPayout := 0))
    else m
  }

  /** A mark price observation, weighted by notional up to a tenth of the curve constant. */
  function Observe(m: MarketV, mark: u64, weight: u128): MarketV {
    MulPos(mark, Min(weight, m.amm.k / 10));
    var w: u128 := Min(weight, m.amm.k / 10);
    m.(twap := m.twap.(
         accumulator := SatAddU128(m.twap.accumulator, Min(mark * w, U128_MAX)),
         volume := SatAddU128(m.twap.volume, w),
         count := Min(m.twap.count + 1, 0xFFFF_FFFF)))
  }

  // ---------------------------------------------------------------------------
  // Deposit and withdraw
  // ---------------------------------------------------------------------------

  function Credit(s: Pair, amount: u64): Outcome<Pair> {
    var collateral :- CheckU64(s.p.collateral + amount);
    var vault :- CheckU128(s.m.funds.vault + amount);
    var cTot :- CheckU128(s.m.funds.cTot + amount);
    Done(Pair(s.p.(collateral := collateral), s.m.(funds := s.m.funds.(vault := vault, cTot := cTot))))
  }

  function DepositBody(s: Pair, env: Env, amount: u64): Outcome<Pair> {
    var _ :- Require(!env.paused && env.active && amount >= MIN_DEPOSIT_AMOUNT);
    var s1 :- Touch(s, env);
    var s2 :- Credit(s1, amount);
    var s3 :- SettleLosses(s2);
    var s4 :- ResolveFlatNegative(s3);
    Finalize(Stamp(s4, env.slot))
  }

  function Debit(s: Pair, amount: u64): Outcome<Pair> {
    var collateral :- CheckU64(s.p.collateral - amount);
    var vault :- CheckU128(s.m.funds.vault - amount);
    var cTot :- CheckU128(s.m.funds.cTot - amount);
    Done(Pair(s.p.(collateral := collateral), s.m.(funds := s.m.funds.(vault := vault, cTot := cTot))))
  }

  /** An exposed position may only withdraw down to its initial margin. */
  function WithdrawalAllowed(s: Pair, price: u64, amount: u64): Outcome<()> {
    var _ :- Require(amount <= s.p.collateral);
    var eff :- EffectiveQ(s.p, s.m);
    if s.p.baseSize == 0 && eff == 0 then Done(())
    else
      var above :- IsAboveInitial(s.p.(collateral := s.p.collateral - amount), s.m, price);
      Require(above)
  }

  function WithdrawBody(s: Pair, env: Env, amount: u64): Outcome<Pair> {
    var _ :- Require(amount > 0);
    var s1 :- Touch(s, env);
    var s2 :- SettleLosses(s1);
    var s3 :- ResolveFlatNegative(s2);
    var _ :- WithdrawalAllowed(s3, env.price, amount);
    var s4 :- Debit(s3, amount);
    Finalize(Stamp(s4, env.slot))
  }

  // ---------------------------------------------------------------------------
  // Open
  // ---------------------------------------------------------------------------

  function SignedSize(side: Side, size: int): int {
    if side == Long then size else 0 - size
  }

  /** No flipping, no increase on a draining side, and the size limits. */
  function OpenAllowed(s: Pair, side: Side, size: u64): Outcome<()> {
    var _ :- Require(s.p.baseSize != 0 ==> SideOf(s.p.baseSize) == side);
    var _ :- Require(SideAllowsIncrease(s.m, side));
    var _ :- if s.m.params.maxPosition > 0 then
               var next :- CheckI64(s.p.baseSize + SignedSize(side, size));
               Require(Abs(next) <= s.m.params.maxPosition)
             else Done(());
    if s.m.params.maxOi > 0 then
      var oi :- CheckU128(s.m.Side(side).oi + size);
      Require(oi <= s.m.params.maxOi)
    else Done(())
  }

  function SwapFor(m: MarketV, buy: bool, size: u128): Outcome<Vamm.Swap> {
    if buy then Vamm.SimulateLong(m.amm, size) else Vamm.SimulateShort(m.amm, size)
  }

  function Swapped(m: MarketV, swap: Vamm.Swap): MarketV {
    m.(amm := Vamm.ApplySwap(m.amm, swap))
  }

  /** Trade on the curve within the slippage limit; also returns the quote amount. */
  function OpenSwap(m: MarketV, side: Side, size: u64, price: u64, maxSlippage: u16): Outcome<(MarketV, u128)> {
    var mark :- Vamm.MarkPrice(m.amm);
    var weight :- Vamm.Notional(size, price);
    var m1 := Observe(m, mark, weight);
    var swap :- SwapFor(m1, side == Long, size);
    var slippage :- Vamm.SlippageBps(swap.execPrice, mark);
    var _ :- Require(slippage <= maxSlippage);
    Done((Swapped(m1, swap), swap.quoteAmount))
  }

  datatype Fees = Fees(total: u128, creator: u128, protocol: u128)

  function OpenFees(m: MarketV, size: u64, price: u64, isCreator: bool): Outcome<Fees> {
    var notional :- Vamm.Notional(size, price);
    var total :- Vamm.Fee(notional, m.params.tradingFeeBps);
    var (creator, protocol) :- if isCreator then Done((0, total)) else Vamm.SplitFee(total, CREATOR_FEE_SHARE_BPS);
    var _ :- Require(total <= U64_MAX);
    Done(Fees(total, creator, protocol))
  }

  function TakeFee(s: Pair, fee: u128): Outcome<Pair> {
    var collateral :- CheckU64(s.p.collateral - fee);
    var cTot :- CheckU128(s.m.funds.cTot - fee);
    Done(Pair(s.p.(collateral := collateral), s.m.(funds := s.m.funds.(cTot := cTot))))
  }

  function CreditFees(m: MarketV, creator: u128, protocol: u128): Outcome<MarketV> {
    var creatorFees :- CheckU64(m.funds.creatorFees + creator);
    var protocolFees :- CheckU64(m.funds.protocolFees + protocol);
    Done(m.(funds := m.funds.(creatorFees := creatorFees, protocolFees := protocolFees)))
  }

  /** Re-base the position at its old effective size plus the traded one, and move the open interest along. */
  function Rebase(s: Pair, oldEff: i128, delta: int): Outcome<Pair> {
    var target :- CheckI128(oldEff + delta);
    var s1 :- Attach(s, target);
    var newEff :- EffectiveQ(s1.p, s1.m);
    var m2 :- UpdateOi(s1.m, oldEff, newEff);
    Done(s1.(m := m2))
  }

  function AddTotal(m: MarketV, side: Side, size: u64): Outcome<MarketV> {
    var total :- CheckU128(m.Side(side).total + size);
    Done(m.With(side, m.Side(side).(total := total)))
  }

  function Enlarge(s: Pair, side: Side, size: u64, quote: u128): Outcome<Pair> {
    var oldEff :- EffectiveQ(s.p, s.m);
    var baseSize :- CheckI64(s.p.baseSize + SignedSize(side, size));
    var quoteEntry :- CheckU128(s.p.quoteEntry + quote);
    var s1 :- Rebase(s.(p := s.p.(baseSize := baseSize, quoteEntry := quoteEntry)), oldEff, SignedSize(side, size));
    var m2 :- AddTotal(s1.m, side, size);
    Done(s1.(m := m2))
  }

  /** A new position starts without anything of the account's previous one. */
  function StartPosition(s: Pair, side: Side, slot: u64): Outcome<Pair> {
    var book := s.m.Side(side);
    var s1 :- if s.p.reserved != 0 then SetReserved(s, 0) else Done(s);
    var s2 :- if s1.p.pnl != 0 then SetPnl(s1, 0) else Done(s1);
    Done(s2.(p := s2.p.(pegAtEntry := s2.m.amm.peg, kSnap := book.k, warmupSlope := 0, warmupStart := slot,
                        feeCredits := 0, rewardSnap := book.acc)))
  }

  function OpenBody(s: Pair, env: Env, side: Side, size: u64, leverage: u32, maxSlippage: u16, isCreator: bool)
    : Outcome<Pair>
  {
    var _ :- Require(!env.paused && env.active && 0 < size <= I64_MAX);
    var _ :- Require(MIN_LEVERAGE <= leverage <= s.m.params.maxLeverage);
    var s1 :- Touch(s, env);
    var _ :- OpenAllowed(s1, side, size);
    var (m2, quote) :- OpenSwap(s1.m, side, size, env.price, maxSlippage);
    var fees :- OpenFees(m2, size, env.price, isCreator);
    var s3 :- TakeFee(s1.(m := m2), fees.total);
    var s4 :- Enlarge(s3, side, size, quote);
    var ok :- IsAboveInitial(s4.p, s4.m, env.price);
    var _ :- Require(ok);
    var m5 :- CreditFees(s4.m, fees.creator, fees.protocol);
    var s6 :- if s1.p.baseSize == 0 then StartPosition(s4.(m := m5), side, env.slot) else Done(s4.(m := m5));
    Finalize(Stamp(s6, env.slot))
  }

  // ---------------------------------------------------------------------------
  // Close
  // ---------------------------------------------------------------------------

  datatype Amount = All | Part(size: u64)

  function CloseSize(p: PositionV, amount: Amount): Outcome<u64> {
    match amount
    case All => Done(Abs(p.baseSize))
    case Part(size) =>
      var _ :- Require(0 < size <= Abs(p.baseSize));
      var _ :- Require(size == Abs(p.baseSize) || Abs(p.baseSize) - size >= MIN_REMAINING_POSITION_SIZE);
      Done(size)
  }

  /** The effective size that goes with closing `size` raw units; all of it for a full close. */
  function EffectiveClose(p: PositionV, eff: i128, size: u64): Outcome<u128> {
    if eff == 0 then Done(size)
    else if size == Abs(p.baseSize) then Done(Abs(eff))
    else
      var product :- CheckU128(Abs(eff) * size);
      if p.baseSize == 0 then Abort else QuotientAtMost(product, Abs(p.baseSize)); Done(product / Abs(p.baseSize))
  }

  /** Charge the closing fee; what the collateral cannot pay becomes fee debt and only the rest is credited. */
  function CloseFee(s: Pair, fee: u128, isCreator: bool): Outcome<Pair> {
    var _ :- Require(fee <= U64_MAX);
    var collected: u128 := Min(fee, s.p.collateral);
    var s1 :- TakeFee(s, collected);
    var s2 :- if collected < fee then ChargeFee(s1, fee - collected) else Done(s1);
    var (creator, protocol) := Vamm.FeeSplit(collected, CREATOR_FEE_SHARE_BPS, isCreator);
    var m3 :- CreditFees(s2.m, creator % TWO64, protocol % TWO64);
    Done(s2.(m := m3))
  }

  function WrapI64(x: u64): i64 {
    if x <= I64_MAX then x else x - TWO64
  }

  function EntryShare(p: PositionV, size: u64): Outcome<u128> {
    if p.baseSize == 0 then Done(0)
    else
      var product :- CheckU128(p.quoteEntry * size);
      QuotientAtMost(product, Abs(p.baseSize));
      Done(product / Abs(p.baseSize))
  }

  function Reduce(s: Pair, oldEff: i128, size: u64, effClose: u128): Outcome<Pair> {
    var side := SideOf(s.p.baseSize);
    var baseSize :- CheckI64(s.p.baseSize - SignedSize(side, WrapI64(size)));
    var share :- EntryShare(s.p, size);
    var s1 :- Rebase(s.(p := s.p.(baseSize := baseSize, quoteEntry := SatSub(s.p.quoteEntry, share))),
                     oldEff, 0 - SignedSize(side, effClose));
    var book := s1.m.Side(side);
    Done(Pair(if baseSize == 0 then s1.p.(quoteEntry := 0) else s1.p,
              s1.m.With(side, book.(total := SatSub(book.total, size)))))
  }

  /** Trade the effective size back on the curve, sampling the mark price first. */
  function CloseSwap(m: MarketV, wasLong: bool, size: u64, effClose: u128, price: u64): Outcome<MarketV> {
    var mark :- Vamm.MarkPrice(m.amm);
    var weight :- Vamm.Notional(size, price);
    var m1 := Observe(m, mark, weight);
    var swap :- SwapFor(m1, !wasLong, effClose);
    Done(Swapped(m1, swap))
  }

  /** Settlement after a close: everything for a flat position, only released profit otherwise. */
  function SettleClosed(s: Pair): Outcome<Pair> {
    if s.p.baseSize == 0 then
      var s1 :- ConvertProfit(s);
      var s2 :- SettleLosses(s1);
      var s3 :- ResolveFlatNegative(s2);
      var s4 :- SweepFeeDebt(s3);
      Done(s4.(p := s4.p.(kSnap := 0, warmupSlope := 0, warmupStart := 0)))
    else ConvertProfit(s)
  }

  function CheckSide(s: Pair, side: Side): Outcome<Pair> {
    var m :- CheckDust(s.m, side);
    Done(s.(m := m))
  }

  function CloseBody(s: Pair, env: Env, amount: Amount, isCreator: bool): Outcome<Pair> {
    var _ :- Require(s.p.baseSize != 0);
    var s1 :- Touch(s, env);
    var _ :- Require(env.slot > s1.p.lastActivity);
    var side := SideOf(s1.p.baseSize);
    var size :- CloseSize(s1.p, amount);
    var oldEff :- EffectiveQ(s1.p, s1.m);
    var effClose :- EffectiveClose(s1.p, oldEff, size);
    var m2 :- CloseSwap(s1.m, side == Long, size, effClose, env.price);
    var notional :- Vamm.Notional(size, env.price);
    var fee :- Vamm.Fee(notional, m2.params.tradingFeeBps);
    var s3 :- CloseFee(s1.(m := m2), fee, isCreator);
    var s4 :- Reduce(s3, oldEff, size, effClose);
    var s5 :- SettleClosed(s4);
    var s6 :- CheckSide(s5, side);
    Finalize(Stamp(s6, env.slot))
  }

  // ---------------------------------------------------------------------------
  // Liquidate
  // ---------------------------------------------------------------------------

  /** How the collateral of a liquidated account is divided. */
  datatype Bill = Bill(deficit: u128, reward: u128, insuranceFee: u128, surplus: u128)

  /** Deficit first, then the capped liquidator reward, then the capped insurance fee, then the surplus. */
  function MakeBill(p: PositionV, m: MarketV, price: u64): Outcome<Bill> {
    var notional :- NotionalOf(p, m, price);
    var fee :- if notional > 0 && m.params.liquidationFeeBps > 0
               then MulDivCeil(notional, m.params.liquidationFeeBps, 10_000) else Done(0);
    var half :- CheckU128(fee * LIQUIDATOR_SHARE_BPS);
    var liquidatorReward: u128 := half / 10_000;
    var equity := EquityMaintRaw(p);
    var deficit: u128 := if equity < 0 then Abs(equity) else 0;
    var available: u128 := SatSub(p.collateral, deficit);
    var reward: u128 := Min(liquidatorReward, available);
    var insuranceFee: u128 := Min(SatSub(fee, liquidatorReward), available - reward);
    Done(Bill(deficit, reward, insuranceFee, available - reward - insuranceFee))
  }

  /** The surplus goes to the other side in proportion to raw size, or to insurance if it cannot. */
  function DistributeSurplus(m: MarketV, opp: Side, surplus: u128): Outcome<MarketV> {
    var book := m.Side(opp);
    if surplus == 0 then Done(m)
    else if book.total == 0 then Done(m.(funds := CreditInsurance(m.funds, surplus)))
    else
      var scaled :- CheckU128(surplus * REWARD_PRECISION);
      QuotientAtMost(scaled, book.total);
      var delta: u128 := scaled / book.total;
      if book.acc + delta <= U128_MAX then
        Done(m.With(opp, book.(acc := book.acc + delta)).(history := m.history.AddDistributed(opp, surplus)))
      else Done(m.(funds := CreditInsurance(m.funds, surplus)))
  }

  /** Remove the liquidated position from the raw totals and take its collateral and PnL. */
  function Wipe(s: Pair): Outcome<Pair> {
    var side := SideOf(s.p.baseSize);
    var book := s.m.Side(side);
    var m1 := s.m.With(side, book.(total := SatSub(book.total, Abs(s.p.baseSize))));
    var cTot :- CheckU128(m1.funds.cTot - s.p.collateral);
    var s2 :- ResetWarmup(s.(m := m1.(funds := m1.funds.(cTot := cTot))));
    var s3 :- SetPnl(s2.(p := s2.p.(baseSize := 0, quoteEntry := 0)), 0);
    Attach(s3.(p := s3.p.(collateral := 0)), 0)
  }

  /** Pay the liquidator out of the vault, never more than the vault holds. */
  function PayReward(m: MarketV, reward: u128): MarketV {
    m.(funds := m.funds.(vault := m.funds.vault - Min(reward, m.funds.vault)))
  }

  /** The part of a liquidation that concerns the market as a whole. */
  function Socialize(s: Pair, side: Side, eff: i128, bill: Bill): Outcome<Pair> {
    var swap :- SwapFor(s.m, side == Short, Abs(eff));
    var m1 :- EnqueueAdl(Swapped(s.m, swap), side, Abs(eff), bill.deficit);
    var m2 := m1.(funds := CreditInsurance(m1.funds, bill.insuranceFee));
    var m3 :- DistributeSurplus(m2, side.Opposite(), bill.surplus);
    Done(s.(m := m3))
  }

  function LiquidateBody(s: Pair, env: Env): Outcome<Pair> {
    var _ :- Require(s.p.baseSize != 0);
    var s1 :- Touch(s.(m := RollInsuranceEpoch(s.m, env.time)), env);
    var above :- IsAboveMaintenance(s1.p, s1.m, env.price);
    var eff :- EffectiveQ(s1.p, s1.m);
    var _ :- Require(!above && eff != 0);
    var bill :- MakeBill(s1.p, s1.m, env.price);
    var side := SideOf(s1.p.baseSize);
    var s2 :- Socialize(s1, side, eff, bill);
    var s3 :- Wipe(s2);
    var s4 :- CheckSide(s3.(m := PayReward(s3.m, bill.reward)), side);
    var s5 :- CheckSide(s4, side.Opposite());
    Finalize(Stamp(s5, env.slot))
  }

  // ---------------------------------------------------------------------------
  // Settlement instructions
  // ---------------------------------------------------------------------------

  function SettleFundingBody(s: Pair, env: Env): Outcome<Pair> {
    var _ :- Require(s.p.baseSize != 0);
    var s1 :- Touch(s, env);
    var _ :- Require(env.slot > s1.p.lastActivity);
    var s2 :- SettleLosses(s1);
    var s3 :- ConvertProfit(s2);
    var s4 :- SweepFeeDebt(s3);
    var s5 :- if s4.p.baseSize == 0 then ResolveFlatNegative(s4) else Done(s4);
    Finalize(Stamp(s5, env.slot))
  }

  function SettlePermissionlessBody(s: Pair, env: Env): Outcome<Pair> {
    var _ :- Require(s.p.baseSize != 0);
    var s1 :- Touch(s, env);
    Finalize(s1)
  }

  function SettleStalePosition(s: Pair, env: Env): Outcome<Pair> {
    var s1 :- Touch(s, env);
    var s2 :- SettleLosses(s1);
    var s3 :- ConvertProfit(s2);
    var s4 :- ResolveFlatNegative(s3);
    Finalize(s4)
  }

  /** Settle, then close an account that holds nothing but dust; the account itself is removed by the caller. */
  function Reclaim(s: Pair, env: Env, openOrders: bool): Outcome<Pair> {
    var s1 :- Touch(s, env);
    var s2 :- SettleLosses(s1);
    var s3 :- ConvertProfit(s2);
    var s4 :- ResolveFlatNegative(s3);
    var _ :- Require(s4.p.baseSize == 0 && !openOrders);
    var _ :- Require(SatSub(env.slot, s4.p.lastActivity) > MIN_RECLAIM_DELAY_SLOTS);
    var _ :- Require(s4.p.feeCredits >= 0 && s4.p.collateral <= DUST_THRESHOLD);
    var s5 :- ReclaimEmpty(s4);
    Finalize(s5)
  }

  // ---------------------------------------------------------------------------
  // Market instructions
  // ---------------------------------------------------------------------------

  /** Integer division rounding towards zero. */
  function TruncDiv(n: int, d: int): int
    requires d > 0
  {
    if n >= 0 then n / d else 0 - (0 - n) / d
  }

  function Clamp(x: int, bound: nat): int {
    if x > bound then bound else if x < 0 - bound then 0 - bound else x
  }

  /** The premium of mark over oracle in basis points, within the cap. */
  function FundingRate(mark: u64, price: u64, capBps: u16): Outcome<i64> {
    if price == 0 then Abort
    else Done(Clamp(Clamp(TruncDiv((mark - price) * Vamm.BPS_DENOMINATOR, price), capBps),
      MAX_ABS_FUNDING_BPS_PER_SLOT))
  }

  function TwapMark(t: Twap, mark: u64): u64 {
    if t.volume > 0 then (t.accumulator / t.volume) % TWO64
    else if t.count >= 2 then (t.accumulator / t.count) % TWO64
    else ((mark + (if t.lastMark == 0 then mark else t.lastMark)) / 2) % TWO64
  }

  function SlotsPerPeriod(periodSeconds: u32): u64 {
    if periodSeconds > 0 then periodSeconds * 5 / 2 else 1
  }

  /** The per-slot rate, scaled by the rate precision and clamped, for the next interval. */
  function ScaledRate(rate: i64, periodSeconds: u32): Outcome<i64> {
    var slots := SlotsPerPeriod(periodSeconds);
    var scaled :- CheckI64(rate * FUNDING_RATE_PRECISION);
    Done(Clamp(if slots > 1 then TruncDiv(scaled, slots) else scaled, MAX_ABS_FUNDING_BPS_PER_SLOT))
  }

  function UpdateFunding(m: MarketV, mark: u64, price: u64): Outcome<MarketV> {
    if m.long.oi == 0 || m.short.oi == 0 then Done(m)
    else
      var rate :- FundingRate(TwapMark(m.twap, mark), price, m.params.fundingCapBps);
      var scaled :- ScaledRate(rate, m.params.fundingPeriod);
      Done(m.(feed := m.feed.(rate := scaled), twap := m.twap.(lastMark := mark)))
  }

  function CrankFunding(m: MarketV, env: Env): Outcome<MarketV> {
    var _ :- Require(env.active && Elapsed(env.time, m.twap.lastFundingTime) >= m.params.fundingPeriod);
    var _ :- Require(m.long.oi > 0 && m.short.oi > 0);
    var m1 :- Accrue(m, env.slot, env.price);
    var mark :- Vamm.MarkPrice(m1.amm);
    var m2 :- UpdateFunding(m1, mark, env.price);
    var m3 := m2.(twap := m2.twap.(lastFundingTime := env.time, accumulator := 0, count := 0, volume := 0));
    FinalizePending(RollInsuranceEpoch(m3, env.time))
  }

  function UpdateAmm(m: MarketV, env: Env): Outcome<MarketV> {
    var _ :- Require(env.active && SatSub(env.slot, m.amm.lastPegSlot) >= PEG_UPDATE_COOLDOWN_SLOTS);
    var m1 :- Accrue(m, env.slot, env.price);
    var mark :- Vamm.MarkPrice(m1.amm);
    var drift :- Vamm.SlippageBps(mark, env.price);
    var _ :- Require(drift > AMM_PEG_THRESHOLD_BPS);
    var m2 := Observe(m1, mark, PEG_TWAP_WEIGHT);
    var peg :- Vamm.NewPeg(m2.amm, env.price);
    FinalizePending(m2.(amm := m2.amm.(peg := peg, lastPegSlot := env.slot)))
  }

  /** The creator or the protocol admin takes the claimable fees, as far as the vault reaches. */
  function ClaimBody(m: MarketV, isCreator: bool): Outcome<MarketV> {
    var claim := if isCreator then m.funds.creatorFees else m.funds.protocolFees;
    var paid: u64 := Min(claim, m.funds.vault);
    var _ :- Require(claim > 0 && paid > 0);
    var left: u64 := claim - paid;
    Done(m.(funds := if isCreator then m.funds.(creatorFees := left, vault := m.funds.vault - paid)
                     else m.funds.(protocolFees := left, vault := m.funds.vault - paid)))
  }

  // ---------------------------------------------------------------------------
  // Creation
  // ---------------------------------------------------------------------------

  const DEFAULT_FUNDING_PERIOD: int := 3_600
  const FUNDING_RATE_CAP_BPS: int := 50
  const WARMUP_PERIOD_SLOTS: int := 1_000
  const LIQUIDATION_FEE_BPS: int := 100
  const MIN_TRADING_FEE_BPS: int := 3
  const MAX_TRADING_FEE_BPS: int := 100
  const MAX_LEVERAGE: int := 2_000
  const MIN_INITIAL_K: int := 10_000_000_000_000_000_000_000_000

  /** The protocol keeps the minimum in 64 bits, which truncates it. */
  const MIN_INITIAL_LIQUIDITY: int := MIN_INITIAL_K % TWO64

  function CreateMarket(initialK: u128, env: Env, tradingFeeBps: u16, maxLeverage: u32): Outcome<MarketV> {
    var _ :- Require(!env.paused && MIN_TRADING_FEE_BPS <= tradingFeeBps <= MAX_TRADING_FEE_BPS);
    var _ :- Require(MIN_LEVERAGE <= maxLeverage <= MAX_LEVERAGE && initialK >= MIN_INITIAL_LIQUIDITY);
    var amm :- Vamm.Initialize(initialK, env.price);
    var root := Vamm.Isqrt(amm.k);
    Vamm.SmallRoot(amm.k);
    Done(MarketV(EMPTY_BOOK, EMPTY_BOOK, amm,
      Funds(0, 0, 0, 0, 0, 0, 0, env.time, 0, 0),
      Feed(env.slot, env.slot, env.price, 0, env.price),
      Twap(0, 0, 0, env.price, env.time),
      Params(tradingFeeBps, LIQUIDATION_FEE_BPS, MAINTENANCE_MARGIN_BPS, maxLeverage, WARMUP_PERIOD_SLOTS,
             DEFAULT_FUNDING_PERIOD, FUNDING_RATE_CAP_BPS, root / 5, root / 2),
      History(0, 0, 0, 0)))
  }

  /** Which markets can be created: the smallest curve constant is the truncated minimum, not the declared one. */
  lemma CreationAccepted(initialK: u128, env: Env, tradingFeeBps: u16, maxLeverage: u32)
    ensures CreateMarket(initialK, env, tradingFeeBps, maxLeverage).Done?
       <==> && !env.paused && 3 <= tradingFeeBps <= 100 && 100 <= maxLeverage <= 2_000
            && initialK >= 1_590_897_978_359_414_784
    ensures MIN_INITIAL_LIQUIDITY < MIN_INITIAL_K
  {
    Vamm.InitializeOnCurve(initialK, env.price);
    hide Vamm.Initialize;
    hide Vamm.Isqrt;
  }

  /** What a market starts with: balanced reserves at the oracle price, and limits of a fifth and a half of them. */
  lemma CreationTerms(initialK: u128, env: Env, tradingFeeBps: u16, maxLeverage: u32, m: MarketV)
    requires CreateMarket(initialK, env, tradingFeeBps, maxLeverage) == Done(m)
    ensures m.long == EMPTY_BOOK && m.short == EMPTY_BOOK && m.amm.base == m.amm.quote && m.amm.peg == env.price
    ensures m.amm.base * m.amm.base == m.amm.k <= initialK < (m.amm.base + 1) * (m.amm.base + 1)
    ensures m.params.maxPosition == m.amm.base / 5 && m.params.maxOi == m.amm.base / 2
    ensures m.params.tradingFeeBps == tradingFeeBps && m.params.maxLeverage == maxLeverage
  {
    Vamm.RootOfSquare(Vamm.Isqrt(initialK));
    hide Vamm.Isqrt;
  }
}
