/**
 Every instruction keeps the invariant and, up to the reward claimed by the
 touched account, the solvency of the vault, so the closing conservation check
 of the handlers never fires for any other reason.
 */
module InstructionSteps {
  import opened Numbers
  import opened State
  import opened Risk
  import opened Invariants
  import opened Traces
  import opened AccountSteps
  import opened PositionSteps
  import opened AdlSteps
  import opened Handlers
  import opened FixedPoint
  import Vamm

  // ---------------------------------------------------------------------------
  // Common steps
  // ---------------------------------------------------------------------------

  lemma TouchKeeps(rest: seq<PositionV>, s: Pair, env: Env, t: Pair)
    requires Inv(rest, s) && AtRest(s.m) && Touch(s, env) == Done(t)
    ensures Inv(rest, t) && AtRest(t.m) && Current(t.p, t.m) && t.m.feed.currentSlot == env.slot
    ensures Cushion(t.m.funds) == Cushion(s.m.funds) - PendingReward(s.p, s.m)
    ensures t.p.lastActivity == s.p.lastActivity && t.m.params == s.m.params && t.m.amm == s.m.amm
    ensures Flow(s.m, t.m, Quote(s.m, env.slot, env.price)) && SameOi(s.m, t.m)
  {
    hide Inv;
    hide Accrue;
    hide SettleSideEffects;
    hide AdvanceWarmup;
    var m := Accrue(s.m, env.slot, env.price).value;
    AccrueKeeps(rest, s, env.slot, env.price, m);
    var s1 := SettleSideEffects(s.(m := m)).value;
    assert PendingReward(s.p, m) == PendingReward(s.p, s.m);
    hide PendingReward;
    SettleSideEffectsKeeps(rest, s.(m := m), s1);
    AdvanceWarmupKeeps(rest, s1, env.slot, t);
    MoneyKeepsCurrent(s1, t);
    hide Current;
    hide Flow;
    hide Stage;
    SettledStage(s.(m := m), s1);
    MoneyStage(s1, t);
    FlowStage(s.m, m, s1.m, Quote(s.m, env.slot, env.price));
    FlowStage(s.m, s1.m, t.m, Quote(s.m, env.slot, env.price));
  }

  /** A money operation moves no index. */
  lemma MoneyStage(s: Pair, t: Pair)
    requires t.m == s.m.(funds := t.m.funds)
    ensures Stage(s.m, t.m)
  {
    StageSame(s.m, t.m);
    hide Stage;
  }

  lemma MarketStage(m: MarketV, n: MarketV)
    requires n == m.(amm := n.amm, twap := n.twap, feed := n.feed)
    ensures Stage(m, n)
  {
    StageSame(m, n);
    hide Stage;
  }

  lemma BookStage(s: Pair, side: Side, t: Pair)
    requires OnlyBook(s, side, t)
    ensures Stage(s.m, t.m)
  {
    StageSame(s.m, t.m);
    hide Stage;
  }

  lemma MoneyKeepsCurrent(s: Pair, t: Pair)
    requires MoneyOnly(s, t)
    ensures Current(s.p, s.m) ==> Current(t.p, t.m)
    ensures AtRest(s.m) ==> AtRest(t.m)
    ensures EffectiveQ(s.p, s.m) == EffectiveQ(t.p, t.m)
    ensures t.m.feed == s.m.feed && t.p.baseSize == s.p.baseSize
  {
  }

  lemma StampKeeps(rest: seq<PositionV>, s: Pair, slot: u64)
    requires Inv(rest, s)
    ensures Inv(rest, Stamp(s, slot))
  {
    MoneyFrame(rest, s, Stamp(s, slot));
  }

  /** The end of a handler: stamp the activity and run the deferred resets. */
  lemma FinishKeeps(rest: seq<PositionV>, s: Pair, slot: u64, t: Pair)
    requires Inv(rest, s) && Finalize(Stamp(s, slot)) == Done(t)
    ensures Inv(rest, t) && AtRest(t.m) && t.m.funds == s.m.funds && t.m.amm.k == s.m.amm.k && Stage(s.m, t.m)
  {
    StampKeeps(rest, s, slot);
    hide Inv;
    hide Stage;
    hide Finalize;
    FinalizeKeeps(rest, Stamp(s, slot), t);
  }

  /** Moving collateral between the account and something outside the account totals. */
  lemma CollateralKeeps(rest: seq<PositionV>, s: Pair, t: Pair)
    requires Inv(rest, s)
    requires t.p == s.p.(collateral := t.p.collateral)
    requires t.m == s.m.(funds := t.m.funds)
    requires t.m.funds.pnlPos == s.m.funds.pnlPos && t.m.funds.matured == s.m.funds.matured
    requires t.m.funds.cTot - s.m.funds.cTot == t.p.collateral - s.p.collateral
    ensures Inv(rest, t) && MoneyOnly(s, t)
  {
    MoneyFrame(rest, s, t);
  }

  /** A trade on the curve and a mark price observation are no part of any total. */
  lemma MarketKeeps(rest: seq<PositionV>, s: Pair, m: MarketV)
    requires Inv(rest, s) && Vamm.OnCurve(m.amm)
    requires m == s.m.(amm := m.amm, twap := m.twap)
    ensures Inv(rest, s.(m := m))
  {
    SideFrame(Long, rest, s, s.(m := m));
    SideFrame(Short, rest, s, s.(m := m));
    hide SideOk;
    hide FundsOk;
    hide Vamm.OnCurve;
    Assemble(rest, s, Long, s.(m := m));
  }

  lemma FeesKeep(rest: seq<PositionV>, s: Pair, creator: u128, protocol: u128, m: MarketV)
    requires Inv(rest, s) && CreditFees(s.m, creator, protocol) == Done(m)
    ensures Inv(rest, s.(m := m)) && MoneyOnly(s, s.(m := m))
    ensures Cushion(m.funds) == Cushion(s.m.funds) - creator - protocol
  {
    FundsFrame(rest, s, m.funds);
  }

  lemma TakeFeeKeeps(rest: seq<PositionV>, s: Pair, fee: u128, t: Pair)
    requires Inv(rest, s) && TakeFee(s, fee) == Done(t)
    ensures Inv(rest, t) && MoneyOnly(s, t) && Cushion(t.m.funds) == Cushion(s.m.funds) + fee
    ensures t.p == s.p.(collateral := s.p.collateral - fee) && t.m == s.m.(funds := t.m.funds)
  {
    CollateralKeeps(rest, s, t);
  }

  // ---------------------------------------------------------------------------
  // Deposit and withdraw
  // ---------------------------------------------------------------------------

  lemma DepositKeeps(rest: seq<PositionV>, s: Pair, env: Env, amount: u64, t: Pair)
    requires Inv(rest, s) && AtRest(s.m) && DepositBody(s, env, amount) == Done(t)
    ensures Inv(rest, t) && AtRest(t.m) && t.m.amm.k == s.m.amm.k
    ensures Cushion(t.m.funds) >= Cushion(s.m.funds) - PendingReward(s.p, s.m)
    ensures Flow(s.m, t.m, Quote(s.m, env.slot, env.price))
  {
    hide Inv;
    hide Flow;
    hide Stage;
    var drive := Quote(s.m, env.slot, env.price);
    hide Touch;
    hide SettleLosses;
    hide ResolveFlatNegative;
    hide Finalize;
    hide PendingReward;
    hide SameExposure;
    var s1 := Touch(s, env).value;
    TouchKeeps(rest, s, env, s1);
    var s2 := Credit(s1, amount).value;
    CollateralKeeps(rest, s1, s2);
    MoneyStage(s1, s2);
    FlowStage(s.m, s1.m, s2.m, drive);
    var s3 := SettleLosses(s2).value;
    SettleLossesKeeps(rest, s2, s3);
    MoneyStage(s2, s3);
    FlowStage(s.m, s2.m, s3.m, drive);
    var s4 := ResolveFlatNegative(s3).value;
    ResolveFlatKeeps(rest, s3, s4);
    MoneyStage(s3, s4);
    FlowStage(s.m, s3.m, s4.m, drive);
    FinishKeeps(rest, s4, env.slot, t);
    FlowStage(s.m, s4.m, t.m, drive);
  }

  lemma WithdrawKeeps(rest: seq<PositionV>, s: Pair, env: Env, amount: u64, t: Pair)
    requires Inv(rest, s) && AtRest(s.m) && WithdrawBody(s, env, amount) == Done(t)
    ensures Inv(rest, t) && AtRest(t.m) && t.m.amm.k == s.m.amm.k
    ensures Cushion(t.m.funds) >= Cushion(s.m.funds) - PendingReward(s.p, s.m)
    ensures Flow(s.m, t.m, Quote(s.m, env.slot, env.price))
  {
    hide Inv;
    hide Flow;
    hide Stage;
    var drive := Quote(s.m, env.slot, env.price);
    hide Touch;
    hide SettleLosses;
    hide ResolveFlatNegative;
    hide WithdrawalAllowed;
    hide Finalize;
    hide PendingReward;
    hide SameExposure;
    var s1 := Touch(s, env).value;
    TouchKeeps(rest, s, env, s1);
    var s2 := SettleLosses(s1).value;
    SettleLossesKeeps(rest, s1, s2);
    MoneyStage(s1, s2);
    FlowStage(s.m, s1.m, s2.m, drive);
    var s3 := ResolveFlatNegative(s2).value;
    ResolveFlatKeeps(rest, s2, s3);
    MoneyStage(s2, s3);
    FlowStage(s.m, s2.m, s3.m, drive);
    var s4 := Debit(s3, amount).value;
    CollateralKeeps(rest, s3, s4);
    MoneyStage(s3, s4);
    FlowStage(s.m, s3.m, s4.m, drive);
    FinishKeeps(rest, s4, env.slot, t);
    FlowStage(s.m, s4.m, t.m, drive);
  }

  // ---------------------------------------------------------------------------
  // Open
  // ---------------------------------------------------------------------------

  lemma OpenSwapKeeps(rest: seq<PositionV>, s: Pair, side: Side, size: u64, price: u64, maxSlippage: u16, m: MarketV)
    requires Inv(rest, s) && OpenSwap(s.m, side, size, price, maxSlippage).Done?
    requires OpenSwap(s.m, side, size, price, maxSlippage).value.0 == m
    ensures Inv(rest, s.(m := m)) && m == s.m.(amm := m.amm, twap := m.twap) && m.amm.k == s.m.amm.k
  {
    InvMoney(rest, s);
    hide Inv;
    hide SwapFor;
    hide Vamm.OnCurve;
    var mark := Vamm.MarkPrice(s.m.amm).value;
    var weight := Vamm.Notional(size, price).value;
    var m1 := Observe(s.m, mark, weight);
    var swap := SwapFor(m1, side == Long, size).value;
    SwapKeepsCurve(m1, side == Long, size, swap);
    MarketKeeps(rest, s, m);
  }

  lemma OpenFeesSum(m: MarketV, size: u64, price: u64, isCreator: bool)
    ensures var r := OpenFees(m, size, price, isCreator);
            r.Done? ==> r.value.creator + r.value.protocol == r.value.total
  {
    var r := OpenFees(m, size, price, isCreator);
    if r.Done? {
      Vamm.SplitsConserve(r.value.total, CREATOR_FEE_SHARE_BPS, isCreator);
    }
    hide Vamm.SplitFee;
  }

  /** Starting a position only clears money of the account; it is due with the reward snapshot already in place. */
  lemma StartPositionKeeps(rest: seq<PositionV>, s: Pair, side: Side, slot: u64, t: Pair)
    requires Inv(rest, s) && StartPosition(s, side, slot) == Done(t) && slot == s.m.feed.currentSlot
    requires s.p.rewardSnap == s.m.Side(side).acc
    ensures Inv(rest, t) && Cushion(t.m.funds) == Cushion(s.m.funds) && t.m == s.m.(funds := t.m.funds)
  {
    hide Inv;
    hide SetReserved;
    hide SetPnl;
    var s1 := if s.p.reserved != 0 then SetReserved(s, 0).value else s;
    if s.p.reserved != 0 {
      SetReservedKeeps(rest, s, 0, s1);
    }
    var s2 := if s1.p.pnl != 0 then SetPnl(s1, 0).value else s1;
    if s1.p.pnl != 0 {
      SetPnlKeeps(rest, s1, 0, s2);
    }
    StartedKeeps(rest, s2, slot, t);
  }

  lemma StartedKeeps(rest: seq<PositionV>, s: Pair, slot: u64, t: Pair)
    requires Inv(rest, s) && slot <= s.m.feed.currentSlot
    requires t.m == s.m && t.p == s.p.(pegAtEntry := t.p.pegAtEntry, kSnap := t.p.kSnap, warmupSlope := t.p.warmupSlope,
                                       warmupStart := slot, feeCredits := t.p.feeCredits)
    ensures Inv(rest, t) && MoneyOnly(s, t)
  {
    MoneyFrame(rest, s, t);
  }

  /** The snapshot the account carries into `StartPosition` does not matter: it is overwritten. */
  lemma StartOverwritesSnapshot(s: Pair, side: Side, slot: u64, snap: u128)
    ensures StartPosition(s.(p := s.p.(rewardSnap := snap)), side, slot) == StartPosition(s, side, slot)
  {
    hide SetReserved;
    hide SetPnl;
    SnapshotUnread(s, 0, 0, snap);
    if SetReserved(s, 0).Done? {
      SnapshotUnread(SetReserved(s, 0).value, 0, 0, snap);
    }
  }

  /** Money updates do not look at the reward snapshot and keep it. */
  lemma SnapshotUnread(s: Pair, reserved: u128, pnl: i128, snap: u128)
    ensures var t := s.(p := s.p.(rewardSnap := snap));
            && SetReserved(t, reserved) == Snapped(SetReserved(s, reserved), snap)
            && SetPnl(t, pnl) == Snapped(SetPnl(s, pnl), snap)
  {
  }

  function Snapped(o: Outcome<Pair>, snap: u128): Outcome<Pair> {
    var t :- o;
    Done(t.(p := t.p.(rewardSnap := snap)))
  }

  lemma OpenTailKeeps(rest: seq<PositionV>, s1: Pair, s4: Pair, side: Side, m5: MarketV, slot: u64, s6: Pair)
    requires Inv(rest, s4.(p := s4.p.(rewardSnap := s4.m.Side(side).acc)))
    requires s1.p.baseSize != 0 ==> s4.p.rewardSnap == s4.m.Side(side).acc
    requires exists creator: u128, protocol: u128 :: CreditFees(s4.m, creator, protocol) == Done(m5)
    requires slot == s4.m.feed.currentSlot
    requires Done(s6) == if s1.p.baseSize == 0 then StartPosition(s4.(m := m5), side, slot) else Done(s4.(m := m5))
    ensures Inv(rest, s6) && Cushion(s6.m.funds) == Cushion(m5.funds) && s6.m == s4.m.(funds := s6.m.funds)
  {
    var acc := s4.m.Side(side).acc;
    var v4 := s4.(p := s4.p.(rewardSnap := acc));
    var creator: u128, protocol: u128 :| CreditFees(s4.m, creator, protocol) == Done(m5);
    FeesKeep(rest, v4, creator, protocol, m5);
    assert m5 == s4.m.(funds := m5.funds);
    assert m5.Side(side).acc == acc && m5.feed == s4.m.feed;
    hide Inv;
    hide CreditFees;
    if s1.p.baseSize == 0 {
      StartOverwritesSnapshot(s4.(m := m5), side, slot, acc);
      hide StartPosition;
      StartPositionKeeps(rest, v4.(m := m5), side, slot, s6);
    }
  }

  lemma OpenKeeps(rest: seq<PositionV>, s: Pair, env: Env, side: Side, size: u64, leverage: u32, maxSlippage: u16,
                  isCreator: bool, t: Pair)
    requires Inv(rest, s) && AtRest(s.m)
    requires OpenBody(s, env, side, size, leverage, maxSlippage, isCreator) == Done(t)
    ensures Inv(rest, t) && AtRest(t.m) && t.m.amm.k == s.m.amm.k
    ensures Cushion(t.m.funds) >= Cushion(s.m.funds) - PendingReward(s.p, s.m)
    ensures Flow(s.m, t.m, Quote(s.m, env.slot, env.price))
  {
    hide Inv;
    hide Flow;
    hide Stage;
    var drive := Quote(s.m, env.slot, env.price);
    hide Touch;
    hide OpenSwap;
    hide OpenFees;
    hide TakeFee;
    hide Enlarge;
    hide IsAboveInitial;
    hide CreditFees;
    hide StartPosition;
    hide Finalize;
    hide PendingReward;
    hide Current;
    hide SameExposure;
    var s1 := Touch(s, env).value;
    TouchKeeps(rest, s, env, s1);
    assert s1.p.baseSize != 0 ==> SideOf(s1.p.baseSize) == side;
    hide OpenAllowed;
    var (m2, quote) := OpenSwap(s1.m, side, size, env.price, maxSlippage).value;
    OpenSwapKeeps(rest, s1, side, size, env.price, maxSlippage, m2);
    var fees := OpenFees(m2, size, env.price, isCreator).value;
    OpenFeesSum(m2, size, env.price, isCreator);
    var s2 := s1.(m := m2);
    CurrentFrame(s1, s2);
    MarketStage(s1.m, m2);
    FlowStage(s.m, s1.m, m2, drive);
    var s3 := TakeFee(s2, fees.total).value;
    TakeFeeKeeps(rest, s2, fees.total, s3);
    MoneyStage(s2, s3);
    FlowStage(s.m, m2, s3.m, drive);
    MoneyKeepsCurrent(s2, s3);
    var s4 := Enlarge(s3, side, size, quote).value;
    EnlargeKeeps(rest, s3, side, size, quote, s4);
    EnlargeFunds(s3, side, size, quote, s4);
    BookStage(s3, side, s4);
    FlowStage(s.m, s3.m, s4.m, drive);
    var m5 := CreditFees(s4.m, fees.creator, fees.protocol).value;
    FeesKeep(rest, s4.(p := s4.p.(rewardSnap := s4.m.Side(side).acc)), fees.creator, fees.protocol, m5);
    var s6 := if s1.p.baseSize == 0 then StartPosition(s4.(m := m5), side, env.slot).value else s4.(m := m5);
    OpenTailKeeps(rest, s1, s4, side, m5, env.slot, s6);
    MoneyStage(s4, s6);
    FlowStage(s.m, s4.m, s6.m, drive);
    FinishKeeps(rest, s6, env.slot, t);
    FlowStage(s.m, s6.m, t.m, drive);
  }

  lemma CurrentFrame(s: Pair, t: Pair)
    requires t == s.(m := s.m.(amm := t.m.amm, twap := t.m.twap))
    ensures Current(s.p, s.m) ==> Current(t.p, t.m)
    ensures EffectiveQ(s.p, s.m) == EffectiveQ(t.p, t.m)
  {
  }

  lemma EnlargeFunds(s: Pair, side: Side, size: u64, quote: u128, t: Pair)
    requires OnlyBook(s, side, t)
    ensures t.m.funds == s.m.funds && t.m.feed == s.m.feed && t.m.amm == s.m.amm
    ensures t.m.Side(side).acc == s.m.Side(side).acc
  {
  }

  // ---------------------------------------------------------------------------
  // Fees
  // ---------------------------------------------------------------------------

  lemma ChargeFeeKeeps(rest: seq<PositionV>, s: Pair, fee: u128, t: Pair)
    requires Inv(rest, s) && ChargeFee(s, fee) == Done(t)
    ensures Inv(rest, t) && MoneyOnly(s, t) && Cushion(t.m.funds) >= Cushion(s.m.funds)
  {
    hide Inv;
    hide SetCapital;
    hide SameExposure;
    hide CreditInsurance;
    var paid := Min(fee, s.p.collateral);
    if paid > 0 {
      var s1 := SetCapital(s, s.p.collateral - paid).value;
      SetCapitalKeeps(rest, s, s.p.collateral - paid, s1);
      InsuranceCredit(s1.m.funds, paid);
      var s2 := s1.(m := s1.m.(funds := CreditInsurance(s1.m.funds, paid)));
      FundsFrame(rest, s1, s2.m.funds);
      CreditsFrame(rest, s2, t);
      MoneyOnlyChain(s, s1, s2);
      MoneyOnlyChain(s, s2, t);
    } else {
      CreditsFrame(rest, s, t);
    }
  }

  lemma ClosingSplit(fee: u128, collected: u128, isCreator: bool)
    requires collected <= fee <= U64_MAX
    ensures var (creator, protocol) := Vamm.FeeSplit(collected, CREATOR_FEE_SHARE_BPS, isCreator);
            creator % TWO64 + protocol % TWO64 == collected && (isCreator ==> creator == 0)
  {
    Vamm.SplitsConserve(collected, CREATOR_FEE_SHARE_BPS, isCreator);
  }

  /** Whatever of the closing fee is collected is credited, exactly. */
  lemma CloseFeeKeeps(rest: seq<PositionV>, s: Pair, fee: u128, isCreator: bool, t: Pair)
    requires Inv(rest, s) && CloseFee(s, fee, isCreator) == Done(t)
    ensures Inv(rest, t) && MoneyOnly(s, t) && Cushion(t.m.funds) >= Cushion(s.m.funds)
  {
    hide Inv;
    hide TakeFee;
    hide ChargeFee;
    hide CreditFees;
    hide Vamm.FeeSplit;
    hide SameExposure;
    var collected := Min(fee, s.p.collateral);
    ClosingSplit(fee, collected, isCreator);
    var s1 := TakeFee(s, collected).value;
    TakeFeeKeeps(rest, s, collected, s1);
    var s2 := if collected < fee then ChargeFee(s1, fee - collected).value else s1;
    if collected < fee {
      ChargeFeeKeeps(rest, s1, fee - collected, s2);
      MoneyOnlyChain(s, s1, s2);
    }
    var (creator, protocol) := Vamm.FeeSplit(collected, CREATOR_FEE_SHARE_BPS, isCreator);
    FeesKeep(rest, s2, creator % TWO64, protocol % TWO64, t.m);
    MoneyOnlyChain(s, s2, t);
  }

  // ---------------------------------------------------------------------------
  // Close
  // ---------------------------------------------------------------------------

  lemma CloseSwapKeeps(rest: seq<PositionV>, s: Pair, wasLong: bool, size: u64, effClose: u128, price: u64, m: MarketV)
    requires Inv(rest, s) && CloseSwap(s.m, wasLong, size, effClose, price) == Done(m)
    ensures Inv(rest, s.(m := m)) && m == s.m.(amm := m.amm, twap := m.twap) && effClose > 0
    ensures m.amm.k == s.m.amm.k
  {
    InvMoney(rest, s);
    assert effClose > 0;
    hide Inv;
    hide SwapFor;
    hide Vamm.OnCurve;
    var mark := Vamm.MarkPrice(s.m.amm).value;
    var weight := Vamm.Notional(size, price).value;
    var m1 := Observe(s.m, mark, weight);
    var swap := SwapFor(m1, !wasLong, effClose).value;
    SwapKeepsCurve(m1, !wasLong, effClose, swap);
    MarketKeeps(rest, s, m);
  }

  lemma FlatResetKeeps(rest: seq<PositionV>, s: Pair, t: Pair)
    requires Inv(rest, s) && t == s.(p := s.p.(kSnap := 0, warmupSlope := 0, warmupStart := 0))
    ensures Inv(rest, t)
  {
    MoneyFrame(rest, s, t);
  }

  lemma SettleClosedKeeps(rest: seq<PositionV>, s: Pair, t: Pair)
    requires Inv(rest, s) && SettleClosed(s) == Done(t)
    ensures Inv(rest, t) && t.m == s.m.(funds := t.m.funds) && (Cushion(s.m.funds) >= 0 ==> Cushion(t.m.funds) >= 0)
  {
    hide Inv;
    hide ConvertProfit;
    hide SettleLosses;
    hide ResolveFlatNegative;
    hide SweepFeeDebt;
    hide SameExposure;
    var s1 := ConvertProfit(s).value;
    ConvertKeeps(rest, s, s1);
    if s.p.baseSize == 0 {
      var s2 := SettleLosses(s1).value;
      SettleLossesKeeps(rest, s1, s2);
      var s3 := ResolveFlatNegative(s2).value;
      ResolveFlatKeeps(rest, s2, s3);
      var s4 := SweepFeeDebt(s3).value;
      SweepKeeps(rest, s3, s4);
      FlatResetKeeps(rest, s4, t);
    }
  }

  lemma CloseSizeRange(p: PositionV, amount: Amount, size: u64)
    requires CloseSize(p, amount) == Done(size)
    ensures size <= Abs(p.baseSize) && (p.baseSize != 0 ==> size > 0)
    ensures p.baseSize == 0 ==> amount == All && size == 0
  {
  }

  lemma CloseKeeps(rest: seq<PositionV>, s: Pair, env: Env, amount: Amount, isCreator: bool, t: Pair)
    requires Inv(rest, s) && AtRest(s.m) && CloseBody(s, env, amount, isCreator) == Done(t)
    ensures Inv(rest, t) && AtRest(t.m) && t.m.amm.k == s.m.amm.k
    ensures Cushion(s.m.funds) >= PendingReward(s.p, s.m) ==> Cushion(t.m.funds) >= 0
    ensures Flow(s.m, t.m, Quote(s.m, env.slot, env.price))
  {
    hide Inv;
    hide Flow;
    hide Stage;
    var drive := Quote(s.m, env.slot, env.price);
    hide Touch;
    hide CloseSize;
    hide EffectiveQ;
    hide EffectiveClose;
    hide CloseSwap;
    hide CloseFee;
    hide Reduce;
    hide SettleClosed;
    hide CheckSide;
    hide Finalize;
    hide PendingReward;
    hide Current;
    hide SameExposure;
    var s1 := Touch(s, env).value;
    TouchKeeps(rest, s, env, s1);
    var side := SideOf(s1.p.baseSize);
    var size := CloseSize(s1.p, amount).value;
    CloseSizeRange(s1.p, amount, size);
    var oldEff := EffectiveQ(s1.p, s1.m).value;
    var effClose := EffectiveClose(s1.p, oldEff, size).value;
    var m2 := CloseSwap(s1.m, side == Long, size, effClose, env.price).value;
    CloseSwapKeeps(rest, s1, side == Long, size, effClose, env.price, m2);
    ClosesSomething(rest, s1, oldEff, size, effClose);
    var s2 := s1.(m := m2);
    CurrentFrame(s1, s2);
    MarketStage(s1.m, m2);
    FlowStage(s.m, s1.m, m2, drive);
    var fee := Vamm.Fee(Vamm.Notional(size, env.price).value, m2.params.tradingFeeBps).value;
    var s3 := CloseFee(s2, fee, isCreator).value;
    CloseFeeKeeps(rest, s2, fee, isCreator, s3);
    assert s3.m == s2.m.(funds := s3.m.funds);
    MoneyStage(s2, s3);
    FlowStage(s.m, m2, s3.m, drive);
    MoneyKeepsCurrent(s2, s3);
    SameEffectiveClose(s1.p, s3.p, oldEff, size);
    var s4 := Reduce(s3, oldEff, size, effClose).value;
    ReduceKeeps(rest, s3, side, oldEff, size, effClose, s4);
    EnlargeFunds(s3, side, size, 0, s4);
    BookStage(s3, side, s4);
    FlowStage(s.m, s3.m, s4.m, drive);
    var s5 := SettleClosed(s4).value;
    SettleClosedKeeps(rest, s4, s5);
    MoneyStage(s4, s5);
    FlowStage(s.m, s4.m, s5.m, drive);
    var s6 := CheckSide(s5, side).value;
    CheckDustKeeps(rest, s5, side, s6);
    FlowStage(s.m, s5.m, s6.m, drive);
    FinishKeeps(rest, s6, env.slot, t);
    FlowStage(s.m, s6.m, t.m, drive);
  }

  /** A position that settlement has emptied cannot be traded back: the swap of size zero is refused. */
  lemma ClosesSomething(rest: seq<PositionV>, s: Pair, oldEff: i128, size: u64, effClose: u128)
    requires Inv(rest, s) && EffectiveQ(s.p, s.m) == Done(oldEff)
    requires EffectiveClose(s.p, oldEff, size) == Done(effClose) && effClose > 0
    requires s.p.baseSize == 0 ==> size == 0
    ensures s.p.baseSize != 0
  {
    InvShape(rest, s);
    hide Inv;
  }

  lemma SameEffectiveClose(p: PositionV, q: PositionV, eff: i128, size: u64)
    requires p.baseSize == q.baseSize
    ensures EffectiveClose(p, eff, size) == EffectiveClose(q, eff, size)
  {
  }

  // ---------------------------------------------------------------------------
  // Liquidate
  // ---------------------------------------------------------------------------

  /** The epoch timer does not come round in this instruction. */
  predicate SameEpoch(m: MarketV, time: i64) {
    Elapsed(time, m.funds.epochStart) < INSURANCE_EPOCH_SECONDS
  }

  lemma RollKeeps(rest: seq<PositionV>, s: Pair, time: i64)
    requires Inv(rest, s)
    ensures var t := s.(m := RollInsuranceEpoch(s.m, time));
            && Inv(rest, t) && (AtRest(s.m) ==> AtRest(t.m)) && Cushion(t.m.funds) == Cushion(s.m.funds)
            && PendingReward(t.p, t.m) == PendingReward(s.p, s.m) && t.m == s.m.(funds := t.m.funds)
            && (SameEpoch(s.m, time) ==> t.m == s.m)
  {
    FundsFrame(rest, s, RollInsuranceEpoch(s.m, time).funds);
    hide Inv;
  }

  /** The collateral of a liquidated account covers its bill. */
  lemma BillCovered(p: PositionV, m: MarketV, price: u64, bill: Bill)
    requires MakeBill(p, m, price) == Done(bill)
    ensures bill.reward + bill.insuranceFee + bill.surplus <= p.collateral
    ensures bill.reward + bill.insuranceFee + bill.surplus == SatSub(p.collateral, bill.deficit)
    ensures bill.deficit == PosPart(0 - EquityMaintRaw(p))
  {
    hide EquityMaintRaw;
    hide NotionalOf;
    hide MulDivCeil;
  }

  lemma PayRewardKeeps(rest: seq<PositionV>, s: Pair, reward: u128)
    requires Inv(rest, s)
    ensures var t := s.(m := PayReward(s.m, reward));
            Inv(rest, t) && t.m == s.m.(funds := t.m.funds) && Cushion(t.m.funds) >= Cushion(s.m.funds) - reward
  {
    FundsFrame(rest, s, PayReward(s.m, reward).funds);
  }

  lemma ExposedHolds(rest: seq<PositionV>, s: Pair, eff: i128)
    requires Inv(rest, s) && EffectiveQ(s.p, s.m) == Done(eff) && eff != 0
    ensures Holds(s.p, SideOf(s.p.baseSize))
  {
    InvShape(rest, s);
    hide Inv;
  }

  /** The account and the market as a liquidation finds them after accrual and settlement. */
  function Touched(s: Pair, env: Env): Outcome<Pair> {
    Touch(s.(m := RollInsuranceEpoch(s.m, env.time)), env)
  }

  /** What a liquidation asks of the other side. */
  function TryStrike(s: Pair, env: Env): Outcome<Strike> {
    var s1 :- Touched(s, env);
    var eff :- EffectiveQ(s1.p, s1.m);
    var bill :- MakeBill(s1.p, s1.m, env.price);
    Done(Strike(Uncovered(s1.m.funds, bill.deficit), Abs(eff)))
  }

  function StrikeOf(s: Pair, env: Env): Strike {
    match TryStrike(s, env)
    case Done(strike) => strike
    case Abort => Strike(0, 0)
  }

  lemma StrikeIs(s: Pair, env: Env, s1: Pair, eff: i128, bill: Bill)
    requires Touched(s, env) == Done(s1) && EffectiveQ(s1.p, s1.m) == Done(eff)
    requires MakeBill(s1.p, s1.m, env.price) == Done(bill)
    ensures StrikeOf(s, env) == Strike(Uncovered(s1.m.funds, bill.deficit), Abs(eff))
  {
    hide Touched;
    hide EffectiveQ;
    hide MakeBill;
    hide Uncovered;
  }

  /** The end of a liquidation: the reward is paid and the sides are cleared. */
  lemma LiquidationTailKeeps(rest: seq<PositionV>, s: Pair, side: Side, reward: u128, slot: u64, s4: Pair, s5: Pair,
                             t: Pair)
    requires Inv(rest, s) && CheckSide(s.(m := PayReward(s.m, reward)), side) == Done(s4)
    requires CheckSide(s4, side.Opposite()) == Done(s5) && Finalize(Stamp(s5, slot)) == Done(t)
    ensures Inv(rest, t) && AtRest(t.m) && t.m.amm.k == s.m.amm.k && Stage(s.m, t.m)
    ensures Cushion(t.m.funds) >= Cushion(s.m.funds) - reward
  {
    hide Inv;
    hide Flow;
    hide PayReward;
    hide CheckSide;
    hide Finalize;
    PayRewardKeeps(rest, s, reward);
    var paid := s.(m := PayReward(s.m, reward));
    MoneyStage(s, paid);
    CheckDustKeeps(rest, paid, side, s4);
    FlowStage(s.m, paid.m, s4.m, Quiet);
    CheckDustKeeps(rest, s4, side.Opposite(), s5);
    FlowStage(s.m, s4.m, s5.m, Quiet);
    FinishKeeps(rest, s5, slot, t);
    FlowStage(s.m, s5.m, t.m, Quiet);
  }

  /** The parts of a liquidation, after the insurance epoch has been rolled, which moves no index. */
  lemma LiquidationFlow(m: MarketV, m0: MarketV, m1: MarketV, m3: MarketV, n: MarketV, slot: u64, price: u64,
                        strike: Strike)
    requires m0 == m.(funds := m0.funds) && Flow(m0, m1, Quote(m0, slot, price)) && SameOi(m0, m1)
    requires Flow(m1, m3, Full(strike)) && Stage(m3, n)
    ensures Flow(m, n, Struck(Quote(m, slot, price), strike))
  {
    assert Quote(m0, slot, price) == Quote(m, slot, price);
    hide Flow;
    hide Parts;
    hide Quote;
    var drive := Struck(Quote(m, slot, price), strike);
    hide Struck;
    QuoteThenStrike(m, slot, price, strike);
    FlowChain(m0, m1, m3, Quote(m, slot, price), Full(strike), drive);
    FlowStage(m0, m3, n, drive);
    QuietFirst(drive);
    FlowSame(m, m0, Quiet);
    FlowChain(m, m0, n, Quiet, drive, drive);
  }

  lemma LiquidateKeeps(rest: seq<PositionV>, s: Pair, env: Env, t: Pair)
    requires Inv(rest, s) && AtRest(s.m) && LiquidateBody(s, env) == Done(t)
    ensures Inv(rest, t) && AtRest(t.m) && t.m.amm.k == s.m.amm.k
    ensures Cushion(t.m.funds) >= Cushion(s.m.funds) - PendingReward(s.p, s.m)
    ensures Flow(s.m, t.m, Struck(Quote(s.m, env.slot, env.price), StrikeOf(s, env)))
  {
    hide Inv;
    hide Flow;
    hide Stage;
    hide SameEpoch;
    hide Parts;
    hide Uncovered;
    hide StrikeOf;
    hide Struck;
    hide Quote;
    hide RollInsuranceEpoch;
    hide Touch;
    hide IsAboveMaintenance;
    hide EffectiveQ;
    hide MakeBill;
    hide Socialize;
    hide Wipe;
    hide PayReward;
    hide CheckSide;
    hide Finalize;
    hide PendingReward;
    hide Current;
    var s0 := s.(m := RollInsuranceEpoch(s.m, env.time));
    RollKeeps(rest, s, env.time);
    var s1 := Touch(s0, env).value;
    TouchKeeps(rest, s0, env, s1);
    var eff := EffectiveQ(s1.p, s1.m).value;
    var bill := MakeBill(s1.p, s1.m, env.price).value;
    BillCovered(s1.p, s1.m, env.price, bill);
    var side := SideOf(s1.p.baseSize);
    ExposedHolds(rest, s1, eff);
    var s2 := Socialize(s1, side, eff, bill).value;
    var s3 := Wipe(s2).value;
    LiquidationCoreKeeps(rest, s1, side, eff, bill, s2, s3);
    StrikeIs(s, env, s1, eff, bill);
    var s4 := CheckSide(s3.(m := PayReward(s3.m, bill.reward)), side).value;
    var s5 := CheckSide(s4, side.Opposite()).value;
    LiquidationTailKeeps(rest, s3, side, bill.reward, env.slot, s4, s5, t);
    LiquidationFlow(s.m, s0.m, s1.m, s3.m, t.m, env.slot, env.price, StrikeOf(s, env));
  }

  // ---------------------------------------------------------------------------
  // Settlement instructions
  // ---------------------------------------------------------------------------

  lemma SettleFundingKeeps(rest: seq<PositionV>, s: Pair, env: Env, t: Pair)
    requires Inv(rest, s) && AtRest(s.m) && SettleFundingBody(s, env) == Done(t)
    ensures Inv(rest, t) && AtRest(t.m) && t.m.amm.k == s.m.amm.k
    ensures Cushion(s.m.funds) >= PendingReward(s.p, s.m) ==> Cushion(t.m.funds) >= 0
    ensures Flow(s.m, t.m, Quote(s.m, env.slot, env.price))
  {
    hide Inv;
    hide Flow;
    hide Stage;
    var drive := Quote(s.m, env.slot, env.price);
    hide Touch;
    hide SettleLosses;
    hide ConvertProfit;
    hide SweepFeeDebt;
    hide ResolveFlatNegative;
    hide Finalize;
    hide PendingReward;
    hide SameExposure;
    var s1 := Touch(s, env).value;
    TouchKeeps(rest, s, env, s1);
    var s2 := SettleLosses(s1).value;
    SettleLossesKeeps(rest, s1, s2);
    MoneyStage(s1, s2);
    FlowStage(s.m, s1.m, s2.m, drive);
    var s3 := ConvertProfit(s2).value;
    ConvertKeeps(rest, s2, s3);
    MoneyStage(s2, s3);
    FlowStage(s.m, s2.m, s3.m, drive);
    var s4 := SweepFeeDebt(s3).value;
    SweepKeeps(rest, s3, s4);
    MoneyStage(s3, s4);
    FlowStage(s.m, s3.m, s4.m, drive);
    var s5 := if s4.p.baseSize == 0 then ResolveFlatNegative(s4).value else s4;
    if s4.p.baseSize == 0 {
      ResolveFlatKeeps(rest, s4, s5);
    }
    MoneyStage(s4, s5);
    FlowStage(s.m, s4.m, s5.m, drive);
    FinishKeeps(rest, s5, env.slot, t);
    FlowStage(s.m, s5.m, t.m, drive);
  }

  lemma SettlePermissionlessKeeps(rest: seq<PositionV>, s: Pair, env: Env, t: Pair)
    requires Inv(rest, s) && AtRest(s.m) && SettlePermissionlessBody(s, env) == Done(t)
    ensures Inv(rest, t) && AtRest(t.m) && t.m.amm.k == s.m.amm.k
    ensures Cushion(t.m.funds) == Cushion(s.m.funds) - PendingReward(s.p, s.m)
    ensures Flow(s.m, t.m, Quote(s.m, env.slot, env.price))
  {
    hide Inv;
    hide Flow;
    hide Stage;
    var drive := Quote(s.m, env.slot, env.price);
    hide Touch;
    hide Finalize;
    hide PendingReward;
    var s1 := Touch(s, env).value;
    TouchKeeps(rest, s, env, s1);
    FinalizeKeeps(rest, s1, t);
    FlowStage(s.m, s1.m, t.m, drive);
  }

  /** The settlement that stale positions and reclaimed accounts go through. */
  lemma SettledFlatKeeps(rest: seq<PositionV>, s: Pair, s2: Pair, s3: Pair, s4: Pair)
    requires Inv(rest, s) && SettleLosses(s) == Done(s2) && ConvertProfit(s2) == Done(s3)
    requires ResolveFlatNegative(s3) == Done(s4)
    ensures Inv(rest, s4) && s4.m.amm == s.m.amm && (Cushion(s.m.funds) >= 0 ==> Cushion(s4.m.funds) >= 0)
    ensures Stage(s.m, s4.m)
  {
    hide Inv;
    hide Stage;
    hide SameExposure;
    hide SettleLosses;
    hide ConvertProfit;
    hide ResolveFlatNegative;
    SettleLossesKeeps(rest, s, s2);
    ConvertKeeps(rest, s2, s3);
    ResolveFlatKeeps(rest, s3, s4);
    MoneyStage(s, s4);
  }

  lemma SettleStalePositionKeeps(rest: seq<PositionV>, s: Pair, env: Env, t: Pair)
    requires Inv(rest, s) && AtRest(s.m) && SettleStalePosition(s, env) == Done(t)
    ensures Inv(rest, t) && AtRest(t.m) && t.m.amm.k == s.m.amm.k
    ensures Cushion(s.m.funds) >= PendingReward(s.p, s.m) ==> Cushion(t.m.funds) >= 0
    ensures Flow(s.m, t.m, Quote(s.m, env.slot, env.price))
  {
    hide Inv;
    hide Flow;
    hide Stage;
    var drive := Quote(s.m, env.slot, env.price);
    hide Touch;
    hide SettleLosses;
    hide ConvertProfit;
    hide ResolveFlatNegative;
    hide Finalize;
    hide PendingReward;
    var s1 := Touch(s, env).value;
    TouchKeeps(rest, s, env, s1);
    var s2 := SettleLosses(s1).value;
    var s3 := ConvertProfit(s2).value;
    var s4 := ResolveFlatNegative(s3).value;
    SettledFlatKeeps(rest, s1, s2, s3, s4);
    FlowStage(s.m, s1.m, s4.m, drive);
    FinalizeKeeps(rest, s4, t);
    FlowStage(s.m, s4.m, t.m, drive);
  }

  // ---------------------------------------------------------------------------
  // Reclaim
  // ---------------------------------------------------------------------------

  /** An account that counts for nothing in any total. */
  ghost predicate Empty(p: PositionV) {
    Gone(p) && p.collateral == 0 && p.pnl == 0 && p.reserved == 0
  }

  lemma EmptiedKeeps(rest: seq<PositionV>, s: Pair, t: Pair)
    requires Inv(rest, s) && s.p.pnl == 0 && s.p.baseSize == 0
    requires t.m == s.m
    requires t.p == s.p.(basis := 0, aSnap := ADL_ONE, kSnap := 0, reserved := 0, warmupSlope := 0, feeCredits := 0)
    ensures Inv(rest, t) && t.p.reserved == s.p.reserved
  {
    InvShape(rest, s);
    EmptiedSide(Long, rest, s, t);
    EmptiedSide(Short, rest, s, t);
    InvMoney(rest, s);
    hide SideOk;
    hide Vamm.OnCurve;
    Assemble(rest, s, Long, t);
  }

  lemma EmptiedSide(side: Side, rest: seq<PositionV>, s: Pair, t: Pair)
    requires Inv(rest, s) && Gone(s.p) && Gone(t.p) && t.m == s.m
    ensures SideOk(side, rest, t)
  {
    SideParts(side, rest, s);
    var b := s.m.Side(side);
    GoneMeasures(s.p, side, b.epoch, b.acc);
    GoneMeasures(t.p, side, b.epoch, b.acc);
    assert Share(side, s.p, b) == Share(side, t.p, b);
    hide Of;
    hide Share;
    hide RestShare;
    hide Inv;
  }

  lemma ReclaimEmptyKeeps(rest: seq<PositionV>, s: Pair, t: Pair)
    requires Inv(rest, s) && s.p.baseSize == 0 && ReclaimEmpty(s) == Done(t)
    ensures Inv(rest, t) && Empty(t.p) && t.m.amm == s.m.amm && Cushion(t.m.funds) >= Cushion(s.m.funds)
    ensures Stage(s.m, t.m)
  {
    hide Inv;
    hide Stage;
    hide EffectiveQ;
    hide SetCapital;
    hide CreditInsurance;
    var c := s.p.collateral;
    if c > 0 {
      var s1 := SetCapital(s, 0).value;
      SetCapitalKeeps(rest, s, 0, s1);
      InsuranceCredit(s1.m.funds, c);
      var s2 := s1.(m := s1.m.(funds := CreditInsurance(s1.m.funds, c)));
      FundsFrame(rest, s1, s2.m.funds);
      EmptiedKeeps(rest, s2, t);
    } else {
      EmptiedKeeps(rest, s, t);
    }
    MoneyStage(s, t);
  }

  lemma ReclaimKeeps(rest: seq<PositionV>, s: Pair, env: Env, openOrders: bool, t: Pair)
    requires Inv(rest, s) && AtRest(s.m) && Reclaim(s, env, openOrders) == Done(t)
    ensures Inv(rest, t) && AtRest(t.m) && Empty(t.p) && t.m.amm.k == s.m.amm.k
    ensures Cushion(s.m.funds) >= PendingReward(s.p, s.m) ==> Cushion(t.m.funds) >= 0
    ensures Flow(s.m, t.m, Quote(s.m, env.slot, env.price))
  {
    hide Inv;
    hide Flow;
    hide Stage;
    var drive := Quote(s.m, env.slot, env.price);
    hide Touch;
    hide SettleLosses;
    hide ConvertProfit;
    hide ResolveFlatNegative;
    hide ReclaimEmpty;
    hide Finalize;
    hide PendingReward;
    var s1 := Touch(s, env).value;
    TouchKeeps(rest, s, env, s1);
    var s2 := SettleLosses(s1).value;
    var s3 := ConvertProfit(s2).value;
    var s4 := ResolveFlatNegative(s3).value;
    SettledFlatKeeps(rest, s1, s2, s3, s4);
    FlowStage(s.m, s1.m, s4.m, drive);
    var s5 := ReclaimEmpty(s4).value;
    ReclaimEmptyKeeps(rest, s4, s5);
    FlowStage(s.m, s4.m, s5.m, drive);
    FinalizeKeeps(rest, s5, t);
    FlowStage(s.m, s5.m, t.m, drive);
  }

  // ---------------------------------------------------------------------------
  // Market instructions
  // ---------------------------------------------------------------------------

  lemma ClockKeeps(rest: seq<PositionV>, s: Pair, m: MarketV)
    requires Inv(rest, s) && Vamm.OnCurve(m.amm) && m.feed.currentSlot == s.m.feed.currentSlot
    requires m == s.m.(amm := m.amm, twap := m.twap, feed := m.feed)
    ensures Inv(rest, s.(m := m))
  {
    SideFrame(Long, rest, s, s.(m := m));
    SideFrame(Short, rest, s, s.(m := m));
    hide SideOk;
    hide FundsOk;
    hide Vamm.OnCurve;
    Assemble(rest, s, Long, s.(m := m));
  }

  lemma CrankKeeps(rest: seq<PositionV>, s: Pair, env: Env, n: MarketV)
    requires Inv(rest, s) && CrankFunding(s.m, env) == Done(n)
    ensures Inv(rest, s.(m := n)) && AtRest(n) && n.amm.k == s.m.amm.k && Cushion(n.funds) == Cushion(s.m.funds)
    ensures Flow(s.m, n, Quote(s.m, env.slot, env.price))
  {
    hide Inv;
    hide Flow;
    hide Stage;
    var drive := Quote(s.m, env.slot, env.price);
    hide Accrue;
    hide FinalizePending;
    hide FundingRate;
    hide ScaledRate;
    hide TwapMark;
    hide RollInsuranceEpoch;
    hide Vamm.OnCurve;
    var m1 := Accrue(s.m, env.slot, env.price).value;
    AccrueKeeps(rest, s, env.slot, env.price, m1);
    var s1 := s.(m := m1);
    InvMoney(rest, s1);
    var mark := Vamm.MarkPrice(m1.amm).value;
    var m2 := UpdateFunding(m1, mark, env.price).value;
    var m3 := m2.(twap := m2.twap.(lastFundingTime := env.time, accumulator := 0, count := 0, volume := 0));
    ClockKeeps(rest, s1, m3);
    RollKeeps(rest, s.(m := m3), env.time);
    hide PendingReward;
    var m4 := RollInsuranceEpoch(m3, env.time);
    FinalizeKeeps(rest, s.(m := m4), s.(m := n));
    MarketStage(m1, m3);
    FlowStage(s.m, m1, m3, drive);
    RolledStage(s.m, m3, m4, n, drive);
  }

  lemma RolledStage(m: MarketV, m3: MarketV, m4: MarketV, n: MarketV, d: Drive)
    requires Flow(m, m3, d) && m4 == m3.(funds := m4.funds) && Stage(m4, n)
    ensures Flow(m, n, d)
  {
    hide Flow;
    FlowSame(m3, m4, Quiet);
    FlowStage(m, m3, m4, d);
    FlowStage(m, m4, n, d);
  }

  lemma PegKeepsCurve(a: Vamm.Amm, peg: u128, slot: u64)
    requires Vamm.OnCurve(a)
    ensures Vamm.OnCurve(a.(peg := peg, lastPegSlot := slot))
  {
  }

  lemma UpdateAmmKeeps(rest: seq<PositionV>, s: Pair, env: Env, n: MarketV)
    requires Inv(rest, s) && UpdateAmm(s.m, env) == Done(n)
    ensures Inv(rest, s.(m := n)) && AtRest(n) && n.amm.k == s.m.amm.k && Cushion(n.funds) == Cushion(s.m.funds)
    ensures Flow(s.m, n, Quote(s.m, env.slot, env.price))
  {
    hide Inv;
    hide Flow;
    hide Stage;
    var drive := Quote(s.m, env.slot, env.price);
    hide Accrue;
    hide FinalizePending;
    hide Vamm.OnCurve;
    hide Vamm.NewPeg;
    hide Vamm.SlippageBps;
    var m1 := Accrue(s.m, env.slot, env.price).value;
    AccrueKeeps(rest, s, env.slot, env.price, m1);
    var s1 := s.(m := m1);
    InvMoney(rest, s1);
    var mark := Vamm.MarkPrice(m1.amm).value;
    var m2 := Observe(m1, mark, PEG_TWAP_WEIGHT);
    var peg := Vamm.NewPeg(m2.amm, env.price).value;
    var m3 := m2.(amm := m2.amm.(peg := peg, lastPegSlot := env.slot));
    PegKeepsCurve(m2.amm, peg, env.slot);
    ClockKeeps(rest, s1, m3);
    FinalizeKeeps(rest, s.(m := m3), s.(m := n));
    MarketStage(m1, m3);
    FlowStage(s.m, m1, m3, drive);
    FlowStage(s.m, m3, n, drive);
  }

  lemma ClaimKeeps(rest: seq<PositionV>, s: Pair, isCreator: bool, n: MarketV)
    requires Inv(rest, s) && ClaimBody(s.m, isCreator) == Done(n)
    ensures Inv(rest, s.(m := n)) && (AtRest(s.m) ==> AtRest(n)) && n.amm == s.m.amm
    ensures Cushion(n.funds) == Cushion(s.m.funds) && Stage(s.m, n)
  {
    FundsFrame(rest, s, n.funds);
    MoneyStage(s, s.(m := n));
    hide Inv;
    hide Stage;
  }

  lemma CreateMarketInv(initialK: u128, env: Env, tradingFeeBps: u16, maxLeverage: u32, m: MarketV, p: PositionV)
    requires CreateMarket(initialK, env, tradingFeeBps, maxLeverage) == Done(m)
    requires Empty(p) && p.warmupStart <= env.slot && p.aSnap == ADL_ONE
    ensures Inv([], Pair(p, m)) && AtRest(m) && Cushion(m.funds) == 0
  {
    hide Vamm.Initialize;
    hide Vamm.OnCurve;
    hide Vamm.Isqrt;
    hide BookOk;
    hide RewardOk;
    Vamm.InitializeOnCurve(initialK, env.price);
    NewSide(Long, p, m);
    NewSide(Short, p, m);
  }

  lemma NewSide(side: Side, p: PositionV, m: MarketV)
    requires m.Side(side) == EMPTY_BOOK && m.history == History(0, 0, 0, 0) && Empty(p)
    ensures SideOk(side, [], Pair(p, m))
  {
    GoneMeasures(p, side, 0, 0);
    hide Of;
    hide Weight;
    assert Owned(side, [], p, EMPTY_BOOK) == 0.0;
    hide Owned;
  }
}
