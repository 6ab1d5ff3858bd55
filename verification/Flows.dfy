/**
 Where the money of each operation goes, exactly: what one place loses another
 gains, and which of two limits stopped the transfer.  And the margins, in plain
 integers: when an account is due for liquidation, how much equity a withdrawal
 must leave, and what a liquidation does with the money of the account.  No
 saturation, wrap-around or narrowing of the program's 128-bit arithmetic ever
 decides any of these.
 */
module Flows {
  import opened Numbers
  import opened FixedPoint
  import opened State
  import opened Risk
  import opened Invariants
  import opened AccountSteps
  import opened PositionSteps
  import opened InstructionSteps
  import opened InsuranceEpoch
  import opened Handlers
  import opened AdlSteps
  import opened Haircut
  import Traces
  import Vamm

  /** Settling losses turns collateral into PnL one for one, until one of the two is used up. */
  lemma LossesFlow(s: Pair, t: Pair)
    requires SettleLosses(s) == Done(t)
    ensures t.p.collateral + t.p.pnl == s.p.collateral + s.p.pnl
    ensures s.p.pnl < 0 ==> t.p.pnl <= 0 && (t.p.pnl == 0 || t.p.collateral == 0)
    ensures s.p.pnl >= 0 ==> t == s
    ensures Cushion(t.m.funds) == Cushion(s.m.funds) + s.p.collateral - t.p.collateral
  {
  }

  /** A flat account's loss ends with it; the insurance fund pays what it may, the rest is left to the haircut. */
  lemma ResolveFlow(s: Pair, t: Pair)
    requires ResolveFlatNegative(s) == Done(t)
    ensures EffectiveQ(s.p, s.m) == Done(0) && s.p.pnl < 0 ==> t.p.pnl == 0
    ensures t.m.funds.insurance != s.m.funds.insurance ==> EffectiveQ(s.p, s.m) == Done(0) && s.p.pnl < 0
    ensures 0 <= s.m.funds.insurance - t.m.funds.insurance <= PosPart(0 - s.p.pnl)
    ensures t.p.collateral == s.p.collateral && t.m.funds.vault == s.m.funds.vault
  {
    InsuranceDraw(s.m.funds, PosPart(0 - s.p.pnl));
    hide EffectiveQ;
  }

  /** Sweeping fee debt moves collateral to the insurance fund until the debt or the collateral is gone. */
  lemma SweepFlow(s: Pair, t: Pair)
    requires SweepFeeDebt(s) == Done(t)
    ensures var paid := s.p.collateral - t.p.collateral;
            && 0 <= paid && FeeDebt(t.p.feeCredits) == FeeDebt(s.p.feeCredits) - paid
            && (FeeDebt(t.p.feeCredits) == 0 || t.p.collateral == 0)
            && t.m.funds.insurance == Min(s.m.funds.insurance + paid, U64_MAX)
            && t.m.funds.cTot == s.m.funds.cTot - paid && t.m.funds.vault == s.m.funds.vault
  {
  }

  /** A charged fee is paid from collateral as far as it goes; exactly the shortfall becomes fee debt. */
  lemma ChargeFlow(s: Pair, fee: u128, t: Pair)
    requires ChargeFee(s, fee) == Done(t)
    ensures var paid := s.p.collateral - t.p.collateral;
            && 0 <= paid <= fee && (paid == fee || t.p.collateral == 0)
            && t.p.feeCredits == s.p.feeCredits - (fee - paid)
            && t.m.funds.insurance == Min(s.m.funds.insurance + paid, U64_MAX)
            && t.m.funds.cTot == s.m.funds.cTot - paid
  {
  }

  /** A closing fee: what was collected is what creator and protocol can claim, the rest is fee debt. */
  lemma CloseFeeFlow(s: Pair, fee: u128, isCreator: bool, t: Pair)
    requires CloseFee(s, fee, isCreator) == Done(t)
    ensures var paid := s.p.collateral - t.p.collateral;
            && 0 <= paid <= fee && (paid == fee || t.p.collateral == 0)
            && t.p.feeCredits == s.p.feeCredits - (fee - paid)
            && paid == (t.m.funds.creatorFees - s.m.funds.creatorFees)
                       + (t.m.funds.protocolFees - s.m.funds.protocolFees)
            && (isCreator ==> t.m.funds.creatorFees == s.m.funds.creatorFees)
            && Cushion(t.m.funds) == Cushion(s.m.funds)
  {
    var collected: u128 := Min(fee, s.p.collateral);
    ClosingSplit(fee, collected, isCreator);
    var s1 := TakeFee(s, collected).value;
    var s2 := if collected < fee then ChargeFee(s1, fee - collected).value else s1;
    if collected < fee {
      ChargeFlow(s1, fee - collected, s2);
      ChargeNothing(s1, fee - collected, s2);
    }
    hide ChargeFee;
    hide Vamm.FeeSplit;
  }

  lemma ChargeNothing(s: Pair, fee: u128, t: Pair)
    requires ChargeFee(s, fee) == Done(t) && s.p.collateral == 0
    ensures t.m == s.m && t.p == s.p.(feeCredits := s.p.feeCredits - fee)
  {
  }

  // ---------------------------------------------------------------------------
  // Withdrawals
  // ---------------------------------------------------------------------------

  /** A withdrawal lowers vault and collateral total together, so it changes nobody's haircut. */
  lemma DebitKeepsHaircut(s: Pair, amount: u64, t: Pair)
    requires Debit(s, amount) == Done(t)
    ensures Residual(t.m.funds) == Residual(s.m.funds) && HaircutRatio(t.m.funds) == HaircutRatio(s.m.funds)
  {
    ResidualIsCushion(s.m.funds);
    ResidualIsCushion(t.m.funds);
    hide Residual;
  }

  /** After an accepted withdrawal the account, if exposed, still has its initial margin. */
  lemma WithdrawalKeepsMargin(s: Pair, price: u64, amount: u64, t: Pair)
    requires WithdrawalAllowed(s, price, amount).Done? && Debit(s, amount) == Done(t)
    ensures (t.p.baseSize == 0 && EffectiveQ(t.p, t.m) == Done(0)) || IsAboveInitial(t.p, t.m, price) == Done(true)
    ensures t.p.collateral == s.p.collateral - amount && t.m.funds.vault == s.m.funds.vault - amount
    ensures Cushion(t.m.funds) == Cushion(s.m.funds)
  {
    DebitKeepsHaircut(s, amount, t);
    hide HaircutRatio;
    hide Residual;
    hide WideMulDivFloor;
    assert EffectiveQ(t.p, t.m) == EffectiveQ(s.p, s.m);
    var q := s.p.(collateral := s.p.collateral - amount);
    assert EffectiveQ(q, s.m) == EffectiveQ(s.p, s.m);
    hide EffectiveQ;
    assert EquityInitRaw(t.m.funds, t.p) == EquityInitRaw(s.m.funds, q);
    hide EquityInitRaw;
  }

  // ---------------------------------------------------------------------------
  // Trading
  // ---------------------------------------------------------------------------

  /** Opening adds exactly the traded size to the account's effective size, the open interest and the raw total. */
  lemma OpenAddsExactly(rest: seq<PositionV>, s: Pair, side: Side, size: u64, quote: u128, t: Pair)
    requires Inv(rest, s) && AtRest(s.m) && Current(s.p, s.m) && 0 < size
    requires s.p.baseSize != 0 ==> SideOf(s.p.baseSize) == side
    requires Enlarge(s, side, size, quote) == Done(t)
    ensures t.m.Side(side).oi == s.m.Side(side).oi + size
    ensures t.m.Side(side).total == s.m.Side(side).total + size
    ensures Abs(t.p.basis) == OldSize(s.p, s.m.Side(side)) + size && Holds(t.p, side)
    ensures t.m.Side(side.Opposite()) == s.m.Side(side.Opposite())
  {
    InvShape(rest, s);
    CurrentOnSide(rest, s, side);
    assert Invariants.SideOk(side, rest, s);
    hide Inv;
    hide Enlarge;
    var target, mid := EnlargeForm(s, side, size, quote, t);
    hide OldSize;
    hide OnSide;
  }

  /** Closing removes exactly the closed part; a full close leaves nothing, a partial one at least one unit. */
  lemma CloseRemovesExactly(rest: seq<PositionV>, s: Pair, side: Side, oldEff: i128, size: u64, effClose: u128, t: Pair)
    requires Inv(rest, s) && AtRest(s.m) && Current(s.p, s.m) && s.p.baseSize != 0 && side == SideOf(s.p.baseSize)
    requires 0 < size <= Abs(s.p.baseSize)
    requires EffectiveQ(s.p, s.m) == Done(oldEff) && EffectiveClose(s.p, oldEff, size) == Done(effClose)
    requires Reduce(s, oldEff, size, effClose) == Done(t)
    ensures t.m.Side(side).oi == s.m.Side(side).oi - effClose
    ensures t.m.Side(side).total == s.m.Side(side).total - size
    ensures Abs(t.p.basis) == Abs(oldEff) - effClose && Abs(t.p.baseSize) == Abs(s.p.baseSize) - size
    ensures t.p.basis == 0 <==> size == Abs(s.p.baseSize)
    ensures t.m.Side(side.Opposite()) == s.m.Side(side.Opposite())
  {
    InvShape(rest, s);
    CurrentOnSide(rest, s, side);
    RawTotal(rest, s, side);
    assert Invariants.SideOk(side, rest, s);
    EffectiveIsSize(s.p, s.m, side, oldEff);
    EffectiveCloseBounds(s.p, oldEff, size, effClose);
    hide EffectiveQ;
    hide EffectiveClose;
    hide Inv;
    hide Reduce;
    var target, mid := ReduceForm(s, side, oldEff, size, effClose, t);
    hide OldSize;
    hide OnSide;
  }

  // ---------------------------------------------------------------------------
  // Rewards
  // ---------------------------------------------------------------------------

  lemma QuotientRange(n: nat, d: nat)
    requires d > 0
    ensures (n / d) * d <= n < (n / d + 1) * d
  {
    DivMod(n, d);
    Distribute(n / d, 1, d);
  }

  /**
   A surplus raises the reward per unit of raw size by its exact share, rounded down, as long as there is
   anyone to share it and the accumulator can hold it; otherwise the insurance fund gets it whole.
   */
  lemma DistributeExactly(m: MarketV, opp: Side, surplus: u128, n: MarketV)
    requires DistributeSurplus(m, opp, surplus) == Done(n)
    ensures var b, c := m.Side(opp), n.Side(opp);
            var rise := c.acc - b.acc;
            if b.total > 0 && b.acc + (surplus * REWARD_PRECISION) / b.total <= U128_MAX then
              && rise * b.total <= surplus * REWARD_PRECISION < (rise + 1) * b.total
              && n == m.With(opp, b.(acc := c.acc)).(history := m.history.AddDistributed(opp, surplus))
            else n == m.(funds := m.funds.(insurance := Min(m.funds.insurance + surplus, U64_MAX)))
  {
    var b := m.Side(opp);
    if surplus > 0 && b.total > 0 {
      QuotientRange(surplus * REWARD_PRECISION, b.total);
    } else if b.total > 0 {
      DivUnique(0, b.total, 0);
    }
  }

  /** A claim credits exactly the rise of the accumulator since the last one, times the raw size, rounded down. */
  lemma ClaimExactly(s: Pair, t: Pair)
    requires SettleRewards(s) == Done(t) && s.p.baseSize != 0
    requires s.p.rewardSnap <= s.m.Side(SideOf(s.p.baseSize)).acc
    ensures var acc, claimed := s.m.Side(SideOf(s.p.baseSize)).acc, t.p.collateral - s.p.collateral;
            && claimed * REWARD_PRECISION <= (acc - s.p.rewardSnap) * Abs(s.p.baseSize)
            && (acc - s.p.rewardSnap) * Abs(s.p.baseSize) < (claimed + 1) * REWARD_PRECISION
            && t.p.rewardSnap == acc && t.m.funds == s.m.funds.(cTot := s.m.funds.cTot + claimed)
  {
    MulPos(s.m.Side(SideOf(s.p.baseSize)).acc - s.p.rewardSnap, Abs(s.p.baseSize));
  }

  // ---------------------------------------------------------------------------
  // What settlement leaves
  // ---------------------------------------------------------------------------

  /** No loss is left beside collateral that could pay it. */
  predicate LossesPaid(p: PositionV) {
    p.pnl < 0 ==> p.collateral == 0
  }

  /** No fee debt is left beside collateral that could pay it. */
  predicate DebtSwept(p: PositionV) {
    FeeDebt(p.feeCredits) == 0 || p.collateral == 0
  }

  /** All released profit has been paid out. */
  predicate Converted(p: PositionV) {
    ReleasedPos(p) == 0
  }

  lemma LossesEnd(s: Pair, t: Pair)
    requires SettleLosses(s) == Done(t)
    ensures LossesPaid(t.p) && t.p.baseSize == s.p.baseSize && t.m == s.m.(funds := t.m.funds)
    ensures t.p.basis == s.p.basis && t.p.aSnap == s.p.aSnap && t.p.epochSnap == s.p.epochSnap
    ensures t.p.feeCredits == s.p.feeCredits
  {
  }

  lemma ConversionEnds(s: Pair, t: Pair)
    requires ConvertProfit(s) == Done(t) && s.p.reserved <= PosPart(s.p.pnl)
    ensures Converted(t.p) && (LossesPaid(s.p) ==> LossesPaid(t.p))
    ensures t.p.baseSize == s.p.baseSize && t.m == s.m.(funds := t.m.funds) && t.p.reserved <= PosPart(t.p.pnl)
    ensures t.p.basis == s.p.basis && t.p.aSnap == s.p.aSnap && t.p.epochSnap == s.p.epochSnap
    ensures t.p.feeCredits == s.p.feeCredits
  {
    hide Payout;
  }

  lemma SweepEnds(s: Pair, t: Pair)
    requires SweepFeeDebt(s) == Done(t)
    ensures DebtSwept(t.p) && (LossesPaid(s.p) ==> LossesPaid(t.p)) && (Converted(s.p) ==> Converted(t.p))
    ensures t.p.baseSize == s.p.baseSize && t.m == s.m.(funds := t.m.funds)
    ensures t.p == s.p.(collateral := t.p.collateral, feeCredits := t.p.feeCredits)
  {
  }

  lemma FlatEnds(s: Pair, t: Pair)
    requires ResolveFlatNegative(s) == Done(t) && s.p.reserved <= PosPart(s.p.pnl)
    ensures EffectiveQ(s.p, s.m) == Done(0) ==> t.p.pnl >= 0
    ensures t.p == s.p.(pnl := t.p.pnl, reserved := t.p.reserved) && t.m == s.m.(funds := t.m.funds)
    ensures (LossesPaid(s.p) ==> LossesPaid(t.p)) && (Converted(s.p) ==> Converted(t.p))
  {
    hide EffectiveQ;
    hide UseInsurance;
  }

  // ---------------------------------------------------------------------------
  // Engine calls that move no money out of the vault or the insurance fund
  // ---------------------------------------------------------------------------

  /** The vault, the insurance fund and the claimable fees are the same in both. */
  predicate Still(s: Pair, t: Pair) {
    && SameInsurance(s.m.funds, t.m.funds) && s.m.funds.vault == t.m.funds.vault
    && s.m.funds.creatorFees == t.m.funds.creatorFees && s.m.funds.protocolFees == t.m.funds.protocolFees
  }

  lemma PnlStill(s: Pair, pnl: i128, t: Pair)
    requires SetPnl(s, pnl) == Done(t)
    ensures Still(s, t)
  {
  }

  lemma RestartStill(s: Pair, t: Pair)
    requires RestartWarmup(s) == Done(t)
    ensures Still(s, t)
  {
  }

  lemma AdvanceStill(s: Pair, slot: u64, t: Pair)
    requires AdvanceWarmup(s, slot) == Done(t)
    ensures Still(s, t)
  {
  }

  lemma LossesStill(s: Pair, t: Pair)
    requires SettleLosses(s) == Done(t)
    ensures Still(s, t)
  {
  }

  lemma ConvertStill(s: Pair, t: Pair)
    requires ConvertProfit(s) == Done(t)
    ensures Still(s, t)
  {
    hide Payout;
  }

  lemma RestartIfStill(s: Pair, oldReserved: u128, t: Pair)
    requires RestartIfRaised(s, oldReserved) == Done(t)
    ensures Still(s, t)
  {
    hide RestartWarmup;
    if s.p.reserved > oldReserved {
      RestartStill(s, t);
    }
  }

  lemma BasisStill(s: Pair, basis: i128, t: Pair)
    requires SetBasis(s, basis) == Done(t)
    ensures t.m.funds == s.m.funds
  {
  }

  lemma CurrentStill(s: Pair, side: Side, t: Pair)
    requires SettleCurrent(s, side) == Done(t)
    ensures Still(s, t)
  {
    hide SetPnl;
    hide KPairFloor;
    hide MulDivFloor;
    hide SetBasis;
    hide RestartIfRaised;
    var book := s.m.Side(side);
    var delta := KPairFloor(Abs(s.p.basis), book.k, s.p.kSnap, s.p.aSnap * POS_SCALE).value;
    var s1 := AddPnl(s, delta).value;
    PnlStill(s, s.p.pnl + delta, s1);
    var size := MulDivFloor(Abs(s1.p.basis), s1.m.Side(side).a, s1.p.aSnap).value;
    var dusty := s1.(m := s1.m.With(side, AddDust(s1.m.Side(side), 1)));
    if size == 0 {
      BasisStill(dusty, 0, SetBasis(dusty, 0).value);
    }
    RestartIfStill(Resnapshot(s1, side).value, s.p.reserved, t);
  }

  lemma StaleStill(s: Pair, side: Side, t: Pair)
    requires Risk.SettleStale(s, side) == Done(t)
    ensures Still(s, t)
  {
    hide SetPnl;
    hide StaleDelta;
    hide SetBasis;
    hide RestartIfRaised;
    var delta := StaleDelta(s.p, s.m.Side(side)).value;
    var s1 := AddPnl(s, delta).value;
    PnlStill(s, s.p.pnl + delta, s1);
    BasisStill(s1, 0, SetBasis(s1, 0).value);
    RestartIfStill(LeaveStale(s1, side).value, s.p.reserved, t);
  }

  lemma SideEffectsStill(s: Pair, t: Pair)
    requires SettleSideEffects(s) == Done(t)
    ensures Still(s, t)
  {
    hide SettleCurrent;
    hide Risk.SettleStale;
    hide PendingReward;
    var s1 := SettleRewards(s).value;
    var side := SideOf(s1.p.basis);
    if s1.p.basis != 0 {
      if s1.p.epochSnap == s1.m.Side(side).epoch {
        CurrentStill(s1, side, t);
      } else {
        StaleStill(s1, side, t);
      }
    }
  }

  lemma TouchStill(s: Pair, env: Env, t: Pair)
    requires Touch(s, env) == Done(t)
    ensures Still(s, t)
  {
    hide Accrue;
    hide SettleSideEffects;
    hide AdvanceWarmup;
    var m := Accrue(s.m, env.slot, env.price).value;
    AccrueForm(s.m, env.slot, env.price, m);
    SideEffectsStill(s.(m := m), SettleSideEffects(s.(m := m)).value);
    AdvanceStill(SettleSideEffects(s.(m := m)).value, env.slot, t);
  }

  lemma ResetsStill(m: MarketV, side: Side, n: MarketV)
    ensures CheckDust(m, side) == Done(n) ==> n.funds == m.funds
    ensures FinalizePending(m) == Done(n) ==> n.funds == m.funds
  {
    hide Vamm.Normalize;
    hide ResetBook;
  }

  lemma FinishStill(s: Pair, slot: u64, t: Pair)
    ensures Finalize(Stamp(s, slot)) == Done(t) ==> Still(s, t)
    ensures Finalize(s) == Done(t) ==> Still(s, t)
  {
    ResetsStill(s.m, Long, t.m);
    hide FinalizePending;
  }

  lemma AttachStill(s: Pair, eff: i128, t: Pair)
    requires Attach(s, eff) == Done(t)
    ensures t.m.funds == s.m.funds
  {
    hide SetBasis;
    hide LeavesRemainder;
    BasisStill(s.(m := OrphanRemainder(s.p, s.m)), eff, SetBasis(s.(m := OrphanRemainder(s.p, s.m)), eff).value);
  }

  lemma RebaseStill(s: Pair, oldEff: i128, delta: int, t: Pair)
    requires Rebase(s, oldEff, delta) == Done(t)
    ensures t.m.funds == s.m.funds
  {
    hide Attach;
    hide EffectiveQ;
    AttachStill(s, oldEff + delta, Attach(s, oldEff + delta).value);
  }

  lemma EnlargeStill(s: Pair, side: Side, size: u64, quote: u128, t: Pair)
    requires Enlarge(s, side, size, quote) == Done(t)
    ensures t.m.funds == s.m.funds
  {
    hide Rebase;
    hide EffectiveQ;
    var oldEff := EffectiveQ(s.p, s.m).value;
    var q := s.p.(baseSize := s.p.baseSize + SignedSize(side, size), quoteEntry := s.p.quoteEntry + quote);
    RebaseStill(s.(p := q), oldEff, SignedSize(side, size), Rebase(s.(p := q), oldEff, SignedSize(side, size)).value);
  }

  lemma ReduceStill(s: Pair, oldEff: i128, size: u64, effClose: u128, t: Pair)
    requires Reduce(s, oldEff, size, effClose) == Done(t)
    ensures t.m.funds == s.m.funds
  {
    hide Rebase;
    hide EntryShare;
    var side := SideOf(s.p.baseSize);
    var q := s.p.(baseSize := s.p.baseSize - SignedSize(side, WrapI64(size)),
                  quoteEntry := SatSub(s.p.quoteEntry, EntryShare(s.p, size).value));
    RebaseStill(s.(p := q), oldEff, 0 - SignedSize(side, effClose),
                Rebase(s.(p := q), oldEff, 0 - SignedSize(side, effClose)).value);
  }

  lemma WipeStill(s: Pair, t: Pair)
    requires Wipe(s) == Done(t)
    ensures Still(s, t)
  {
    hide Attach;
    hide SetPnl;
    var side := SideOf(s.p.baseSize);
    var book := s.m.Side(side);
    var m1 := s.m.With(side, book.(total := SatSub(book.total, Abs(s.p.baseSize))));
    var s2 := ResetWarmup(s.(m := m1.(funds := m1.funds.(cTot := m1.funds.cTot - s.p.collateral)))).value;
    var s3 := SetPnl(s2.(p := s2.p.(baseSize := 0, quoteEntry := 0)), 0).value;
    PnlStill(s2.(p := s2.p.(baseSize := 0, quoteEntry := 0)), 0, s3);
    AttachStill(s3.(p := s3.p.(collateral := 0)), 0, t);
  }

  lemma StartStill(s: Pair, side: Side, slot: u64, t: Pair)
    requires StartPosition(s, side, slot) == Done(t)
    ensures Still(s, t)
  {
    hide SetPnl;
    var s1 := if s.p.reserved != 0 then SetReserved(s, 0).value else s;
    if s1.p.pnl != 0 {
      PnlStill(s1, 0, SetPnl(s1, 0).value);
    }
  }

  lemma FinishEnds(s: Pair, slot: u64, t: Pair)
    ensures Finalize(s) == Done(t) ==> t.p == s.p
    ensures Finalize(Stamp(s, slot)) == Done(t) ==> t.p == s.p.(lastActivity := slot)
  {
    hide FinalizePending;
  }

  lemma TouchEnds(rest: seq<PositionV>, s: Pair, env: Env, t: Pair)
    requires Inv(rest, s) && AtRest(s.m) && Touch(s, env) == Done(t)
    ensures t.p.reserved <= PosPart(t.p.pnl) && t.m.funds.vault == s.m.funds.vault
    ensures t.p.basis == 0 <==> t.p.baseSize == 0
  {
    hide Inv;
    hide Touch;
    TouchKeeps(rest, s, env, t);
    TouchStill(s, env, t);
    InvShape(rest, t);
    hide Current;
    hide Traces.Flow;
  }

  /** A flat account has no loss left. */
  predicate NoFlatLoss(p: PositionV) {
    p.basis == 0 ==> p.pnl >= 0
  }

  lemma LossesExactly(s: Pair, t: Pair)
    requires SettleLosses(s) == Done(t) && s.p.reserved <= PosPart(s.p.pnl)
    ensures t.p.collateral == s.p.collateral - Min(PosPart(0 - s.p.pnl), s.p.collateral)
    ensures t.p.reserved <= PosPart(t.p.pnl)
  {
  }

  /**
   A deposit pays off a loss before anything else: what is left of it is collateral, nothing is lost of
   the two together unless a flat account's loss is forgiven, and the vault has exactly the amount more.
   */
  lemma DepositEnds(rest: seq<PositionV>, s: Pair, env: Env, amount: u64, t: Pair)
    requires Inv(rest, s) && AtRest(s.m) && DepositBody(s, env, amount) == Done(t)
    ensures Touch(s, env).Done?
    ensures var p := Touch(s, env).value.p;
            && t.p.collateral == p.collateral + amount - Min(PosPart(0 - p.pnl), p.collateral + amount)
            && (t.p.basis != 0 ==> t.p.collateral + t.p.pnl == p.collateral + p.pnl + amount)
            && t.m.funds.vault == s.m.funds.vault + amount && LossesPaid(t.p) && NoFlatLoss(t.p)
    ensures !env.paused && env.active && amount >= 1_000
  {
    hide Inv;
    hide Touch;
    hide SettleLosses;
    hide ResolveFlatNegative;
    hide Finalize;
    hide EffectiveQ;
    hide Current;
    hide Traces.Flow;
    var s1 := Touch(s, env).value;
    TouchEnds(rest, s, env, s1);
    var s2 := Credit(s1, amount).value;
    var s3 := SettleLosses(s2).value;
    LossesExactly(s2, s3);
    LossesEnd(s2, s3);
    LossesFlow(s2, s3);
    LossesStill(s2, s3);
    var s4 := ResolveFlatNegative(s3).value;
    FlatEnds(s3, s4);
    ResolveFlow(s3, s4);
    HoldsOrFlat(s3, s4);
    TouchKeeps(rest, s, env, s1);
    if s1.p.basis != 0 {
      CurrentExposed(s1.p, s1.m);
      SameEffective(s1.p, s1.m, s3.p, s3.m);
    }
    FinishEnds(s4, env.slot, t);
    FinishStill(s4, env.slot, t);
  }

  /** A settled position has an effective size. */
  lemma CurrentExposed(p: PositionV, m: MarketV)
    requires Current(p, m) && p.basis != 0
    ensures EffectiveQ(p, m) != Done(0)
  {
  }

  lemma SameEffective(p: PositionV, m: MarketV, q: PositionV, n: MarketV)
    requires q.basis == p.basis && q.aSnap == p.aSnap && q.epochSnap == p.epochSnap
    requires n == m.(funds := n.funds)
    ensures EffectiveQ(q, n) == EffectiveQ(p, m)
  {
  }

  lemma HoldsOrFlat(s: Pair, t: Pair)
    requires ResolveFlatNegative(s) == Done(t)
    ensures s.p.basis == 0 ==> EffectiveQ(s.p, s.m) == Done(0)
    ensures t.p.pnl == s.p.pnl || (EffectiveQ(s.p, s.m) == Done(0) && s.p.pnl < 0)
  {
    hide UseInsurance;
  }

  /** After settle-funding, loss and debt are paid as far as collateral goes, and released profit has been paid out. */
  lemma SettleFundingEnds(rest: seq<PositionV>, s: Pair, env: Env, t: Pair)
    requires Inv(rest, s) && AtRest(s.m) && SettleFundingBody(s, env) == Done(t)
    ensures LossesPaid(t.p) && Converted(t.p) && DebtSwept(t.p) && NoFlatLoss(t.p)
    ensures env.slot > s.p.lastActivity
  {
    hide Inv;
    hide Touch;
    hide SettleLosses;
    hide ConvertProfit;
    hide SweepFeeDebt;
    hide ResolveFlatNegative;
    hide Finalize;
    hide Traces.Flow;
    hide Current;
    var s1 := Touch(s, env).value;
    TouchEnds(rest, s, env, s1);
    TouchKeeps(rest, s, env, s1);
    var s2 := SettleLosses(s1).value;
    LossesExactly(s1, s2);
    LossesEnd(s1, s2);
    var s3 := ConvertProfit(s2).value;
    ConversionEnds(s2, s3);
    var s4 := SweepFeeDebt(s3).value;
    SweepEnds(s3, s4);
    var s5 := if s4.p.baseSize == 0 then ResolveFlatNegative(s4).value else s4;
    if s4.p.baseSize == 0 {
      FlatEnds(s4, s5);
      HoldsOrFlat(s4, s5);
    }
    FinishEnds(s5, env.slot, t);
  }

  lemma SettledEnds(s: Pair, s2: Pair, s3: Pair, t: Pair)
    requires s.p.reserved <= PosPart(s.p.pnl)
    requires SettleLosses(s) == Done(s2) && ConvertProfit(s2) == Done(s3) && ResolveFlatNegative(s3) == Done(t)
    ensures LossesPaid(t.p) && Converted(t.p) && NoFlatLoss(t.p)
  {
    hide SettleLosses;
    hide ConvertProfit;
    hide ResolveFlatNegative;
    LossesExactly(s, s2);
    LossesEnd(s, s2);
    ConversionEnds(s2, s3);
    FlatEnds(s3, t);
    HoldsOrFlat(s3, t);
  }

  /** The same after a stale settlement, which leaves fee debt alone. */
  lemma SettleStaleEnds(rest: seq<PositionV>, s: Pair, env: Env, t: Pair)
    requires Inv(rest, s) && AtRest(s.m) && SettleStalePosition(s, env) == Done(t)
    ensures LossesPaid(t.p) && Converted(t.p) && NoFlatLoss(t.p)
  {
    hide Inv;
    hide Touch;
    hide SettleLosses;
    hide ConvertProfit;
    hide ResolveFlatNegative;
    hide Finalize;
    var s1 := Touch(s, env).value;
    TouchEnds(rest, s, env, s1);
    var s2 := SettleLosses(s1).value;
    var s3 := ConvertProfit(s2).value;
    var s4 := ResolveFlatNegative(s3).value;
    SettledEnds(s1, s2, s3, s4);
    FinishEnds(s4, 0, t);
  }

  /** A closed position ends without loss, released profit or payable debt; a part of one without released profit. */
  lemma ClosedEnds(s: Pair, t: Pair)
    requires SettleClosed(s) == Done(t) && s.p.reserved <= PosPart(s.p.pnl)
    requires s.p.baseSize == 0 ==> s.p.basis == 0
    ensures Converted(t.p)
    ensures s.p.baseSize == 0 ==> LossesPaid(t.p) && DebtSwept(t.p) && t.p.pnl >= 0
    ensures t.p.baseSize == s.p.baseSize
  {
    hide ConvertProfit;
    hide SettleLosses;
    hide ResolveFlatNegative;
    hide SweepFeeDebt;
    var s1 := ConvertProfit(s).value;
    ConversionEnds(s, s1);
    if s.p.baseSize == 0 {
      var s2 := SettleLosses(s1).value;
      LossesExactly(s1, s2);
      LossesEnd(s1, s2);
      LossesConvert(s1, s2);
      var s3 := ResolveFlatNegative(s2).value;
      FlatEnds(s2, s3);
      HoldsOrFlat(s2, s3);
      SweepEnds(s3, SweepFeeDebt(s3).value);
    }
  }

  lemma LossesConvert(s: Pair, t: Pair)
    requires SettleLosses(s) == Done(t) && Converted(s.p)
    ensures Converted(t.p)
  {
  }

  /** Only an account without position, orders, debt or PnL, idle and with no more than dust in it, is reclaimed. */
  lemma ReclaimsOnlyDust(s: Pair, env: Env, openOrders: bool, t: Pair)
    requires Reclaim(s, env, openOrders) == Done(t)
    ensures !openOrders && Touch(s, env).Done? && SettleLosses(Touch(s, env).value).Done?
    ensures ConvertProfit(SettleLosses(Touch(s, env).value).value).Done?
    ensures var s3 := ConvertProfit(SettleLosses(Touch(s, env).value).value).value;
            ResolveFlatNegative(s3).Done?
            && var s4 := ResolveFlatNegative(s3).value;
              && s4.p.baseSize == 0 && s4.p.pnl == 0 && s4.p.feeCredits >= 0 && s4.p.collateral <= 1_000
              && env.slot > s4.p.lastActivity + 1_000
              && t.m.funds.insurance == Min(s4.m.funds.insurance + s4.p.collateral, U64_MAX)
              && t.m.funds.cTot == s4.m.funds.cTot - s4.p.collateral
  {
    hide Touch;
    hide SettleLosses;
    hide ConvertProfit;
    hide ResolveFlatNegative;
    hide EffectiveQ;
    hide Finalize;
    var s4 := ResolveFlatNegative(ConvertProfit(SettleLosses(Touch(s, env).value).value).value).value;
    var s5 := ReclaimEmpty(s4).value;
    FinishTotals(s5, t);
  }

  lemma FinishTotals(s: Pair, t: Pair)
    requires Finalize(s) == Done(t)
    ensures t.m.funds == s.m.funds
  {
    hide Vamm.Normalize;
    hide ResetBook;
  }

  // ---------------------------------------------------------------------------
  // Requirements
  // ---------------------------------------------------------------------------

  /** What `size` is worth at a price, in whole units. */
  function Value(size: nat, price: nat): nat {
    MulPos(size, price);
    (size * price) / POS_SCALE
  }

  /** A share of the notional in basis points, but never less than `least` for a position that is worth anything. */
  function Required(notional: nat, bps: nat, least: nat): nat {
    MulPos(notional, bps);
    if notional == 0 then 0 else Max((notional * bps) / 10_000, least)
  }

  lemma RequiredIs(notional: u128, bps: u128, least: u128, share: u128)
    requires MulDivFloor(notional, bps, 10_000) == Done(share)
    ensures (if notional > 0 then Max(share, least) else share) == Required(notional, bps, least)
    ensures share * 10_000 <= U128_MAX
  {
  }

  lemma NotionalIs(p: PositionV, m: MarketV, price: u64, eff: i128)
    requires EffectiveQ(p, m) == Done(eff) && NotionalOf(p, m, price).Done?
    ensures NotionalOf(p, m, price).value == Value(Abs(eff), price)
  {
    hide EffectiveQ;
  }

  // ---------------------------------------------------------------------------
  // Maintenance
  // ---------------------------------------------------------------------------

  /** The peg of the entry, or the current one for a position that has none. */
  function EntryPeg(p: PositionV, m: MarketV): u128 {
    if p.pegAtEntry != 0 then p.pegAtEntry else m.amm.peg
  }

  /** What the position has gained since it was entered: a long with the price, a short against it. */
  function Gained(p: PositionV, m: MarketV, price: u64): int {
    var now, entry := Value(Abs(p.baseSize), price), Value(p.quoteEntry, EntryPeg(p, m));
    if p.baseSize > 0 then now - entry else entry - now
  }

  /** The fee debt; the least credit balance, which no fee is allowed to reach, counts as a credit. */
  function Debt(p: PositionV): int {
    if p.feeCredits == -TWO127 then -TWO127 else FeeDebt(p.feeCredits)
  }

  /** Equity at the oracle price. */
  function Standing(p: PositionV, m: MarketV, price: u64): int {
    p.collateral + Gained(p, m, price) - Debt(p)
  }

  lemma EquityIs(p: PositionV, m: MarketV, price: u64, required: nat)
    requires p.baseSize != 0 && OracleEquity(p, m, price).Done? && required * 10_000 <= U128_MAX
    ensures OracleEquity(p, m, price).value > required <==> Standing(p, m, price) > required
  {
    ValueIs(Abs(p.baseSize), price);
    ValueIs(p.quoteEntry, EntryPeg(p, m));
    hide MulDivFloor;
    hide Value;
  }

  lemma ValueIs(size: u128, price: u128)
    requires MulDivFloor(size, price, POS_SCALE).Done?
    ensures MulDivFloor(size, price, POS_SCALE).value == Value(size, price)
    ensures Value(size, price) * POS_SCALE <= U128_MAX
  {
  }

  /** The maintenance test in plain integers, for every position and every price. */
  lemma MaintenanceExactly(p: PositionV, m: MarketV, price: u64, eff: i128, above: bool)
    requires p.baseSize != 0 && EffectiveQ(p, m) == Done(eff) && IsAboveMaintenance(p, m, price) == Done(above)
    ensures above <==> Standing(p, m, price)
                       > Required(Value(Abs(eff), price), m.params.maintenanceBps, MIN_NONZERO_MM_REQ)
  {
    hide EffectiveQ;
    hide OracleEquity;
    hide NotionalOf;
    hide MulDivFloor;
    hide Standing;
    hide Required;
    NotionalIs(p, m, price, eff);
    hide Value;
    var notional := NotionalOf(p, m, price).value;
    var share := MulDivFloor(notional, m.params.maintenanceBps, 10_000).value;
    RequiredIs(notional, m.params.maintenanceBps, MIN_NONZERO_MM_REQ, share);
    LeastFits(share);
    EquityIs(p, m, price, if notional > 0 then Max(share, MIN_NONZERO_MM_REQ) else share);
  }

  lemma LeastFits(share: u128)
    requires share * 10_000 <= U128_MAX
    ensures Max(share, MIN_NONZERO_MM_REQ) * 10_000 <= U128_MAX && Max(share, MIN_NONZERO_MM_REQ) <= I128_MAX
    ensures Max(share, MIN_NONZERO_IM_REQ) <= I128_MAX && share <= I128_MAX
  {
  }

  /** What a position of `eff` effective units must hold to be spared. */
  function Maintenance(m: MarketV, eff: i128, price: u64): nat {
    Required(Value(Abs(eff), price), m.params.maintenanceBps, MIN_NONZERO_MM_REQ)
  }

  /** Only an account that has not more than its maintenance requirement is liquidated. */
  lemma LiquidatesOnlyDue(rest: seq<PositionV>, s: Pair, env: Env, t: Pair)
    requires Inv(rest, s) && AtRest(s.m) && LiquidateBody(s, env) == Done(t)
    ensures Touched(s, env).Done?
    ensures var s1 := Touched(s, env).value;
            && EffectiveQ(s1.p, s1.m).Done? && EffectiveQ(s1.p, s1.m).value != 0 && s1.p.baseSize != 0
            && Standing(s1.p, s1.m, env.price) <= Maintenance(s1.m, EffectiveQ(s1.p, s1.m).value, env.price)
  {
    hide Inv;
    hide RollInsuranceEpoch;
    hide Touch;
    hide IsAboveMaintenance;
    hide EffectiveQ;
    hide MakeBill;
    hide Socialize;
    hide Wipe;
    hide CheckSide;
    hide Finalize;
    hide Standing;
    hide Traces.Flow;
    hide Current;
    RollKeeps(rest, s, env.time);
    var s1 := Touched(s, env).value;
    TouchKeeps(rest, s.(m := RollInsuranceEpoch(s.m, env.time)), env, s1);
    ExposedHolds(rest, s1, EffectiveQ(s1.p, s1.m).value);
    InvShape(rest, s1);
    MaintenanceExactly(s1.p, s1.m, env.price, EffectiveQ(s1.p, s1.m).value, false);
    hide Required;
    hide Value;
  }

  /** And an account that has more is never liquidated. */
  lemma HealthyIsSpared(s: Pair, env: Env, s1: Pair, eff: i128)
    requires Touched(s, env) == Done(s1) && s1.p.baseSize != 0 && EffectiveQ(s1.p, s1.m) == Done(eff)
    requires Standing(s1.p, s1.m, env.price) > Maintenance(s1.m, eff, env.price)
    ensures LiquidateBody(s, env).Abort?
  {
    hide RollInsuranceEpoch;
    hide Touch;
    hide IsAboveMaintenance;
    hide EffectiveQ;
    hide MakeBill;
    hide Socialize;
    hide Wipe;
    hide CheckSide;
    hide Finalize;
    hide Standing;
    hide Required;
    hide Value;
    if IsAboveMaintenance(s1.p, s1.m, env.price).Done? {
      MaintenanceExactly(s1.p, s1.m, env.price, eff, IsAboveMaintenance(s1.p, s1.m, env.price).value);
    }
  }

  // ---------------------------------------------------------------------------
  // How the price decides
  // ---------------------------------------------------------------------------

  lemma ValueGrows(size: nat, price: nat, price': nat)
    requires price <= price'
    ensures Value(size, price) <= Value(size, price')
  {
    MulMono(price, price', size);
    DivMod(size * price, POS_SCALE);
    MulPos(size, price);
    DivAtLeast(size * price', POS_SCALE, (size * price) / POS_SCALE);
  }

  /** What a larger size gains is at most one unit short of what a smaller one gains. */
  lemma ValueGains(size: nat, eff: nat, price: nat, price': nat)
    requires eff <= size && price <= price'
    ensures Value(size, price') - Value(size, price) >= Value(eff, price') - Value(eff, price) - 1
  {
    MulMono(eff, size, price' - price);
    Spread(size, price, price' - price);
    Spread(eff, price, price' - price);
  }

  lemma Spread(x: int, y: int, z: int)
    ensures x * (y + z) == x * y + x * z
  {
  }

  /** A requirement of at most the whole notional grows no faster than a positive notional does. */
  lemma RequirementGrows(n: nat, n': nat, bps: nat, least: nat)
    requires n <= n' && bps <= 10_000
    ensures Required(n, bps, least) <= Required(n', bps, least)
    ensures n > 0 ==> Required(n', bps, least) - Required(n, bps, least) <= n' - n
  {
    MulMono(n, n', bps);
    MulMono(bps, 10_000, n' - n);
    Spread(bps, n, n' - n);
  }

  /** A falling price never makes a short due. */
  lemma ShortStaysSafe(p: PositionV, m: MarketV, eff: i128, price: u64, price': u64)
    requires p.baseSize < 0 && price' <= price && m.params.maintenanceBps <= 10_000
    requires Standing(p, m, price) > Maintenance(m, eff, price)
    ensures Standing(p, m, price') > Maintenance(m, eff, price')
  {
    ValueGrows(Abs(p.baseSize), price', price);
    ValueGrows(Abs(eff), price', price);
    hide Value;
    RequirementGrows(Value(Abs(eff), price'), Value(Abs(eff), price), m.params.maintenanceBps, MIN_NONZERO_MM_REQ);
    hide Required;
  }

  /**
   A rising price never makes a long due that is worth anything at the lower price and has not been
   deleveraged; after deleveraging, not one that was safe by more than one unit.
   */
  lemma LongStaysSafe(p: PositionV, m: MarketV, eff: i128, price: u64, price': u64)
    requires 0 < p.baseSize && Abs(eff) <= p.baseSize && price <= price' && m.params.maintenanceBps <= 10_000
    requires Value(Abs(eff), price) > 0
    requires Standing(p, m, price) > Maintenance(m, eff, price) + if Abs(eff) == p.baseSize then 0 else 1
    ensures Standing(p, m, price') > Maintenance(m, eff, price')
  {
    ValueGains(p.baseSize, Abs(eff), price, price');
    ValueGrows(Abs(eff), price, price');
    hide Value;
    RequirementGrows(Value(Abs(eff), price), Value(Abs(eff), price'), m.params.maintenanceBps, MIN_NONZERO_MM_REQ);
    hide Required;
  }

  /** Both conditions are needed: the extra unit of a deleveraged long, and that it is worth anything. */
  lemma LongDueByRise(p: PositionV, q: PositionV, m: MarketV)
    requires m.params.maintenanceBps == 500
    requires p.baseSize == 450_000 && p.collateral == 10_001 && p.quoteEntry == 225_022 && p.pegAtEntry == POS_SCALE
    requires q.baseSize == 1 && q.collateral == 9_999 && q.quoteEntry == 0 && q.pegAtEntry == POS_SCALE
    requires p.feeCredits == 0 && q.feeCredits == 0
    ensures Standing(p, m, 500_049) > Maintenance(m, 400_000, 500_049)
    ensures Standing(p, m, 500_050) <= Maintenance(m, 400_000, 500_050)
    ensures Standing(q, m, 999_999) > Maintenance(m, 1, 999_999)
    ensures Standing(q, m, 1_000_000) <= Maintenance(m, 1, 1_000_000)
  {
  }

  // ---------------------------------------------------------------------------
  // Initial margin
  // ---------------------------------------------------------------------------

  /** Equity for opening and withdrawing: collateral, less a loss, the haircut share of released profit, less debt. */
  function MarginEquity(f: Funds, p: PositionV): int {
    p.collateral + Min(p.pnl, 0) + HaircutShare(f, ReleasedPos(p)) - FeeDebt(p.feeCredits)
  }

  /** The share of the notional that the highest leverage leaves, but more than the maintenance share. */
  function InitialBps(maxLeverage: u32): nat {
    if maxLeverage / 100 > 0 then Max(10_000 / (maxLeverage / 100), MAINTENANCE_MARGIN_BPS + 1) else 10_000
  }

  /** What `eff` effective units require of a withdrawal or an opening. */
  function Initial(m: MarketV, eff: nat, price: u64): nat {
    Required(Value(eff, price), InitialBps(m.params.maxLeverage), MIN_NONZERO_IM_REQ)
  }

  lemma ShareIs(f: Funds, p: PositionV)
    requires EffectiveMatured(f, p).Done?
    ensures EffectiveMatured(f, p).value == HaircutShare(f, ReleasedPos(p))
  {
    NothingToShare(f);
    hide ReleasedPos;
    hide Residual;
  }

  lemma EquityInitIs(f: Funds, p: PositionV, required: nat)
    requires EquityInitRaw(f, p).Done? && required <= I128_MAX
    ensures EquityInitRaw(f, p).value >= required <==> MarginEquity(f, p) >= required
  {
    ShareIs(f, p);
    hide EffectiveMatured;
    hide HaircutShare;
    hide ReleasedPos;
  }

  /** The initial-margin test in plain integers. */
  lemma InitialExactly(p: PositionV, m: MarketV, price: u64, eff: i128, above: bool)
    requires EffectiveQ(p, m) == Done(eff) && IsAboveInitial(p, m, price) == Done(above)
    ensures above <==> MarginEquity(m.funds, p) >= Initial(m, Abs(eff), price)
  {
    hide EffectiveQ;
    hide EquityInitRaw;
    hide NotionalOf;
    hide MulDivFloor;
    hide MarginEquity;
    hide Required;
    NotionalIs(p, m, price, eff);
    hide Value;
    var notional := NotionalOf(p, m, price).value;
    var bps := InitialBps(m.params.maxLeverage);
    var share := MulDivFloor(notional, bps, 10_000).value;
    RequiredIs(notional, bps, MIN_NONZERO_IM_REQ, share);
    LeastFits(share);
    EquityInitIs(m.funds, p, if notional > 0 then Max(share, MIN_NONZERO_IM_REQ) else share);
  }

  /** From the debit to the end of the handler nothing that the test looks at changes. */
  lemma FinishAtRest(rest: seq<PositionV>, s: Pair, slot: u64, t: Pair)
    requires Inv(rest, s) && AtRest(s.m) && Finalize(Stamp(s, slot)) == Done(t)
    ensures t == Pair(s.p.(lastActivity := slot), s.m)
  {
    SidesRun(rest, s);
    hide Inv;
    FinalizeAtRest(s.m, t.m);
    hide FinalizePending;
  }

  lemma DebitKeeps(rest: seq<PositionV>, s: Pair, amount: u64, t: Pair)
    requires Inv(rest, s) && Debit(s, amount) == Done(t)
    ensures Inv(rest, t) && t.m == s.m.(funds := t.m.funds)
  {
    CollateralKeeps(rest, s, t);
    hide Inv;
  }

  /**
   A withdrawal first pays off the account's loss, all of it, and then takes exactly the amount out of its
   collateral and out of the vault; and an account that still has a position is left with at least the
   initial margin of that position.
   */
  lemma WithdrawKeepsMargin(rest: seq<PositionV>, s: Pair, env: Env, amount: u64, t: Pair)
    requires Inv(rest, s) && AtRest(s.m) && WithdrawBody(s, env, amount) == Done(t)
    ensures Touch(s, env).Done?
    ensures t.p.collateral == Touch(s, env).value.p.collateral - PosPart(0 - Touch(s, env).value.p.pnl) - amount
    ensures t.p.pnl >= 0 && t.m.funds.vault == s.m.funds.vault - amount
    ensures t.p.basis != 0 ==>
              EffectiveQ(t.p, t.m).Done?
              && MarginEquity(t.m.funds, t.p) >= Initial(t.m, Abs(EffectiveQ(t.p, t.m).value), env.price)
  {
    hide Inv;
    hide Touch;
    hide SettleLosses;
    hide ResolveFlatNegative;
    hide WithdrawalAllowed;
    hide Debit;
    hide Finalize;
    hide EffectiveQ;
    hide IsAboveInitial;
    hide MarginEquity;
    hide Initial;
    hide Traces.Flow;
    hide Current;
    var s1 := Touch(s, env).value;
    var s2 := SettleLosses(s1).value;
    var s3 := ResolveFlatNegative(s2).value;
    WithdrawalPays(rest, s, env, amount, s1, s2, s3);
    var s4 := Debit(s3, amount).value;
    WithdrawalKeepsMargin(s3, env.price, amount, s4);
    DebitPays(s3, amount, s4);
    DebitKeeps(rest, s3, amount, s4);
    FinishAtRest(rest, s4, env.slot, t);
    InvShape(rest, s4);
    if s4.p.basis != 0 {
      SameEffective(s4.p, s4.m, t.p, t.m);
      TestedMargin(s4.p, s4.m, env.price, t.p);
    }
  }

  lemma TestedMargin(p: PositionV, m: MarketV, price: u64, q: PositionV)
    requires IsAboveInitial(p, m, price) == Done(true) && q == p.(lastActivity := q.lastActivity)
    ensures EffectiveQ(p, m).Done? && MarginEquity(m.funds, q) >= Initial(m, Abs(EffectiveQ(p, m).value), price)
  {
    hide EffectiveQ;
    hide EquityInitRaw;
    hide Initial;
    hide Residual;
    InitialExactly(p, m, price, EffectiveQ(p, m).value, true);
  }

  lemma DebitPays(s: Pair, amount: u64, t: Pair)
    requires Debit(s, amount) == Done(t)
    ensures t.p == s.p.(collateral := s.p.collateral - amount) && t.m.funds.vault == s.m.funds.vault - amount
    ensures s.p.collateral >= amount
  {
  }

  /** Before the debit: the loss is paid off, since otherwise there would be no collateral left to withdraw. */
  lemma WithdrawalPays(rest: seq<PositionV>, s: Pair, env: Env, amount: u64, s1: Pair, s2: Pair, s3: Pair)
    requires Inv(rest, s) && AtRest(s.m) && Touch(s, env) == Done(s1)
    requires SettleLosses(s1) == Done(s2) && ResolveFlatNegative(s2) == Done(s3)
    ensures Inv(rest, s3) && AtRest(s3.m) && s3.m == s1.m.(funds := s3.m.funds)
    ensures s3.m.funds.vault == s.m.funds.vault
    ensures s3.p.collateral == s1.p.collateral - Min(PosPart(0 - s1.p.pnl), s1.p.collateral)
    ensures s3.p.collateral > 0 ==>
              s3.p.pnl >= 0 && s3.p.collateral == s1.p.collateral - PosPart(0 - s1.p.pnl)
  {
    hide Inv;
    hide Touch;
    hide SettleLosses;
    hide ResolveFlatNegative;
    hide Traces.Flow;
    hide Current;
    TouchEnds(rest, s, env, s1);
    TouchKeeps(rest, s, env, s1);
    SettleLossesKeeps(rest, s1, s2);
    LossesExactly(s1, s2);
    LossesEnd(s1, s2);
    LossesFlow(s1, s2);
    LossesStill(s1, s2);
    ResolveFlatKeeps(rest, s2, s3);
    FlatEnds(s2, s3);
    ResolveFlow(s2, s3);
  }

  // ---------------------------------------------------------------------------
  // What a liquidation does with the money
  // ---------------------------------------------------------------------------

  /** The liquidation fee: a share of the notional, rounded up. */
  function LiquidationFee(m: MarketV, eff: i128, price: u64): nat {
    MulPos(Value(Abs(eff), price), m.params.liquidationFeeBps);
    CeilDiv(Value(Abs(eff), price) * m.params.liquidationFeeBps, 10_000)
  }

  lemma FeeIs(notional: u128, bps: u16)
    requires (if notional > 0 && bps > 0 then MulDivCeil(notional, bps, 10_000) else Done(0)).Done?
    ensures notional * bps >= 0
    ensures (if notional > 0 && bps > 0 then MulDivCeil(notional, bps, 10_000) else Done(0)).value
         == CeilDiv(notional * bps, 10_000)
  {
    MulPos(notional, bps);
  }

  /**
   The waterfall of a liquidation: what the account owes beyond its collateral comes first, and each later
   claim - half of the liquidation fee for the liquidator, the other half for the insurance fund, the
   rest for the other side - is only paid once every earlier one has been paid in full.
   */
  lemma Waterfall(p: PositionV, m: MarketV, price: u64, eff: i128, bill: Bill)
    requires MakeBill(p, m, price) == Done(bill) && EffectiveQ(p, m) == Done(eff)
    ensures var fee, owed := LiquidationFee(m, eff, price), FeeDebt(p.feeCredits) - p.collateral - p.pnl;
            && bill.reward <= fee / 2 && bill.insuranceFee <= fee - fee / 2
            && (bill.insuranceFee > 0 || bill.surplus > 0 ==> bill.reward == fee / 2)
            && (bill.surplus > 0 ==> bill.insuranceFee == fee - fee / 2)
            && bill.deficit == if owed > TWO127 then I128_MAX else PosPart(owed)
    ensures bill.reward + bill.insuranceFee + bill.surplus == SatSub(p.collateral, bill.deficit)
  {
    hide EffectiveQ;
    hide NotionalOf;
    hide MulDivCeil;
    NotionalIs(p, m, price, eff);
    hide Value;
    var notional := NotionalOf(p, m, price).value;
    FeeIs(notional, m.params.liquidationFeeBps);
    hide CeilDiv;
    var fee := LiquidationFee(m, eff, price);
    assert (fee * LIQUIDATOR_SHARE_BPS) / 10_000 == fee / 2;
  }

  /** The liquidated account ends empty, and the vault pays the liquidator exactly the reward of the bill. */
  lemma LiquidationPays(rest: seq<PositionV>, s: Pair, env: Env, t: Pair)
    requires Inv(rest, s) && AtRest(s.m) && LiquidateBody(s, env) == Done(t)
    requires Cushion(s.m.funds) >= PendingReward(s.p, s.m)
    ensures Touched(s, env).Done?
    ensures MakeBill(Touched(s, env).value.p, Touched(s, env).value.m, env.price).Done?
    ensures Gone(t.p) && t.p.collateral == 0 && t.p.pnl == 0 && t.p.reserved == 0
    ensures var s1 := Touched(s, env).value;
            t.m.funds.vault == s.m.funds.vault - MakeBill(s1.p, s1.m, env.price).value.reward
  {
    hide Inv;
    hide RollInsuranceEpoch;
    hide Touch;
    hide IsAboveMaintenance;
    hide EffectiveQ;
    hide MakeBill;
    hide Socialize;
    hide Wipe;
    hide CheckDust;
    hide Finalize;
    hide Traces.Flow;
    hide Current;
    hide Cushion;
    hide PendingReward;
    RollKeeps(rest, s, env.time);
    var s0 := s.(m := RollInsuranceEpoch(s.m, env.time));
    var s1 := Touched(s, env).value;
    TouchKeeps(rest, s0, env, s1);
    TouchEnds(rest, s0, env, s1);
    RollVault(s.m, env.time);
    var eff, bill := EffectiveQ(s1.p, s1.m).value, MakeBill(s1.p, s1.m, env.price).value;
    var side := SideOf(s1.p.baseSize);
    ExposedHolds(rest, s1, eff);
    BillCovered(s1.p, s1.m, env.price, bill);
    CollateralInVault(rest, s1);
    var s2, s3 := Socialize(s1, side, eff, bill).value, Wipe(Socialize(s1, side, eff, bill).value).value;
    WipedAll(rest, s1, side, eff, bill, s2, s3);
    var s3' := s3.(m := PayReward(s3.m, bill.reward));
    var s4 := CheckSide(s3', side).value;
    ResetsStill(s3'.m, side, s4.m);
    var s5 := CheckSide(s4, side.Opposite()).value;
    ResetsStill(s4.m, side.Opposite(), s5.m);
    FinishEnds(s5, env.slot, t);
    FinishStill(s5, env.slot, t);
  }

  lemma RollVault(m: MarketV, time: i64)
    ensures RollInsuranceEpoch(m, time).funds.vault == m.funds.vault
  {
  }

  lemma CollateralInVault(rest: seq<PositionV>, s: Pair)
    requires Inv(rest, s) && Cushion(s.m.funds) >= 0
    ensures s.p.collateral <= s.m.funds.vault
  {
    RestBounds(rest, s.m);
  }

  lemma WipedAll(rest: seq<PositionV>, s: Pair, side: Side, eff: i128, bill: Bill, s2: Pair, t: Pair)
    requires Inv(rest, s) && Current(s.p, s.m) && Holds(s.p, side) && EffectiveQ(s.p, s.m) == Done(eff)
    requires Socialize(s, side, eff, bill) == Done(s2) && Wipe(s2) == Done(t)
    ensures Gone(t.p) && t.p.collateral == 0 && t.p.pnl == 0 && t.p.reserved == 0
    ensures t.m.funds.vault == s.m.funds.vault
  {
    InvShape(rest, s);
    InvMoney(rest, s);
    CurrentOnSide(rest, s, side);
    hide Inv;
    hide Socialize;
    hide Wipe;
    hide OnSide;
    hide OldSize;
    hide EffectiveQ;
    hide LiquidatedBook;
    hide DeleveragedBook;
    hide WipedBook;
    hide Backed;
    EffectiveIsSize(s.p, s.m, side, eff);
    SocializeForm(s, side, eff, bill, s2);
    OnSideFrame(s.p, side, OldSize(s.p, s.m.Side(side)), s.m.Side(side), s2.m.Side(side));
    WipeForm(s2, side, t);
  }
}
