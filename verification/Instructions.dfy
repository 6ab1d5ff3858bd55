/**
 The instruction handlers on one position, in the form the program has: engine
 calls in sequence on a market account and a position account, each handler
 verified against the function of module `Handlers` that the theorems about
 runs are about.
 */
module Instructions {
  import opened Numbers
  import opened FixedPoint
  import opened State
  import opened Risk
  import opened Invariants
  import opened Handlers
  import opened Engine
  import opened Runs
  import Vamm

  /** The two accounts as the pure checks see them. */
  function Snapshot(p: UserPosition, m: Market): Pair
    reads p, m
  {
    Pair(p.View(), m.Stored())
  }

  /** The pure checks do not look at the history variables. */
  lemma HistoryUnread(p: PositionV, m: MarketV, h: History, price: u64)
    ensures var n := m.(history := h);
            && EffectiveQ(p, n) == EffectiveQ(p, m) && NotionalOf(p, n, price) == NotionalOf(p, m, price)
            && IsAboveInitial(p, n, price) == IsAboveInitial(p, m, price)
            && IsAboveMaintenance(p, n, price) == IsAboveMaintenance(p, m, price)
  {
    assert EffectiveQ(p, m.(history := h)) == EffectiveQ(p, m);
    hide EffectiveQ;
    hide EquityInitRaw;
    hide MulDivFloor;
    assert OracleEquity(p, m.(history := h), price) == OracleEquity(p, m, price);
    hide OracleEquity;
  }

  // ---------------------------------------------------------------------------
  // Common steps
  // ---------------------------------------------------------------------------

  method TouchAccounts(p: UserPosition, m: Market, env: Env) returns (r: Outcome<()>)
    modifies p, m
    ensures Yields(r, p, m, Touch(old(Views(p, m)), env))
  {
    hide Accrue;
    hide SettleSideEffects;
    hide AdvanceWarmup;
    var _ :- AccrueMarket(m, env.slot, env.price);
    var _ :- Settle(p, m);
    r := AdvanceWarmupOf(p, m, env.slot);
  }

  method FinishAccounts(p: UserPosition, m: Market, slot: u64) returns (r: Outcome<()>)
    modifies p, m
    ensures Yields(r, p, m, Finalize(Stamp(old(Views(p, m)), slot)))
  {
    hide FinalizePending;
    p.lastActivity := slot;
    r := FinalizePendingResets(m);
  }

  method FinishMarket(p: UserPosition, m: Market) returns (r: Outcome<()>)
    modifies m
    ensures Yields(r, p, m, Finalize(old(Views(p, m))))
  {
    hide FinalizePending;
    r := FinalizePendingResets(m);
  }

  method CheckDustOn(p: UserPosition, m: Market, side: Side) returns (r: Outcome<()>)
    modifies m
    ensures Yields(r, p, m, CheckSide(old(Views(p, m)), side))
  {
    hide CheckDust;
    r := ClearPhantomDust(m, side);
  }

  /** The closing check of most handlers. */
  method Conserved(p: UserPosition, m: Market) returns (r: Outcome<()>)
    ensures Yields(r, p, m, Conserving(Views(p, m)))
  {
    r := if CheckConservation(m.Money()) then Done(()) else Abort;
  }

  // ---------------------------------------------------------------------------
  // Deposit and withdraw
  // ---------------------------------------------------------------------------

  method CreditDeposit(p: UserPosition, m: Market, amount: u64) returns (r: Outcome<()>)
    modifies p, m
    ensures Yields(r, p, m, Credit(old(Views(p, m)), amount))
  {
    p.collateral :- CheckU64(p.collateral + amount);
    m.vault :- CheckU128(m.vault + amount);
    m.cTot :- CheckU128(m.cTot + amount);
    return Done(());
  }

  method DebitWithdrawal(p: UserPosition, m: Market, amount: u64) returns (r: Outcome<()>)
    modifies p, m
    ensures Yields(r, p, m, Debit(old(Views(p, m)), amount))
  {
    p.collateral :- CheckU64(p.collateral - amount);
    m.vault :- CheckU128(m.vault - amount);
    m.cTot :- CheckU128(m.cTot - amount);
    return Done(());
  }

  method DepositCollateral(p: UserPosition, m: Market, env: Env, amount: u64) returns (r: Outcome<()>)
    modifies p, m
    ensures Yields(r, p, m, Checked(DepositBody(old(Views(p, m)), env, amount)))
  {
    hide Touch;
    hide Credit;
    hide SettleLosses;
    hide ResolveFlatNegative;
    hide Finalize;
    hide CheckConservation;
    if env.paused || !env.active || amount < MIN_DEPOSIT_AMOUNT {
      return Abort;
    }
    var _ :- TouchAccounts(p, m, env);
    var _ :- CreditDeposit(p, m, amount);
    var _ :- SettleLossesOf(p, m);
    var _ :- ResolveFlat(p, m);
    var _ :- FinishAccounts(p, m, env.slot);
    r := Conserved(p, m);
  }

  method CheckWithdrawal(p: UserPosition, m: Market, price: u64, amount: u64) returns (r: Outcome<()>)
    ensures r == WithdrawalAllowed(Views(p, m), price, amount)
  {
    hide EffectiveQ;
    hide IsAboveInitial;
    hide IsAboveMaintenance;
    hide NotionalOf;
    if amount > p.collateral {
      return Abort;
    }
    var eff :- EffectivePosition(p, m);
    if p.baseSize == 0 && eff == 0 {
      return Done(());
    }
    var after := p.View().(collateral := p.collateral - amount);
    HistoryUnread(after, m.Stored(), m.history, price);
    var above :- IsAboveInitial(after, m.Stored(), price);
    return Require(above);
  }

  method WithdrawCollateral(p: UserPosition, m: Market, env: Env, amount: u64) returns (r: Outcome<()>)
    modifies p, m
    ensures Yields(r, p, m, Checked(WithdrawBody(old(Views(p, m)), env, amount)))
  {
    hide Touch;
    hide Debit;
    hide SettleLosses;
    hide ResolveFlatNegative;
    hide WithdrawalAllowed;
    hide Finalize;
    hide CheckConservation;
    if amount == 0 {
      return Abort;
    }
    var _ :- TouchAccounts(p, m, env);
    var _ :- SettleLossesOf(p, m);
    var _ :- ResolveFlat(p, m);
    var _ :- CheckWithdrawal(p, m, env.price, amount);
    var _ :- DebitWithdrawal(p, m, amount);
    var _ :- FinishAccounts(p, m, env.slot);
    r := Conserved(p, m);
  }

  // ---------------------------------------------------------------------------
  // Open
  // ---------------------------------------------------------------------------

  /** Sample the mark price into the moving average, weighted up to a tenth of the curve constant. */
  method SampleMark(m: Market, mark: u64, weight: u128)
    modifies m
    ensures m.View() == Observe(old(m.View()), mark, weight)
  {
    MulPos(mark, Min(weight, m.k / 10));
    var w: u128 := Min(weight, m.k / 10);
    StoreAverage(m, SatAddU128(m.accumulator, Min(mark * w, U128_MAX)), SatAddU128(m.volume, w),
                 Min(m.count + 1, 0xFFFF_FFFF));
  }

  method StoreAverage(m: Market, accumulator: u128, volume: u128, count: u32)
    modifies m
    ensures m.View() == old(m.View()).(twap := old(m.Average()).(accumulator := accumulator, volume := volume,
            count := count))
  {
    m.accumulator, m.volume, m.count := accumulator, volume, count;
  }

  method TradeOpen(m: Market, side: Side, size: u64, price: u64, maxSlippage: u16) returns (r: Outcome<u128>)
    modifies m
    ensures var expected := OpenSwap(old(m.View()), side, size, price, maxSlippage);
            && (r.Done? <==> expected.Done?)
            && (r.Done? ==> m.View() == expected.value.0 && r.value == expected.value.1)
  {
    hide Vamm.MarkPrice;
    hide Vamm.Notional;
    hide Vamm.SimulateLong;
    hide Vamm.SimulateShort;
    hide Vamm.SlippageBps;
    hide Observe;
    ObserveKeepsCurve(m.View());
    var mark :- Vamm.MarkPrice(m.Amm());
    var weight :- Vamm.Notional(size, price);
    SampleMark(m, mark, weight);
    var swap :- if side == Long then Vamm.SimulateLong(m.Amm(), size) else Vamm.SimulateShort(m.Amm(), size);
    var slippage :- Vamm.SlippageBps(swap.execPrice, mark);
    if slippage > maxSlippage {
      return Abort;
    }
    Swap(m, swap);
    return Done(swap.quoteAmount);
  }

  lemma ObserveKeepsCurve(m: MarketV)
    ensures forall mark: u64, weight: u128 :: Observe(m, mark, weight).amm == m.amm
  {
  }

  method TakeFeeFrom(p: UserPosition, m: Market, fee: u128) returns (r: Outcome<()>)
    modifies p, m
    ensures Yields(r, p, m, TakeFee(old(Views(p, m)), fee))
  {
    p.collateral :- CheckU64(p.collateral - fee);
    m.cTot :- CheckU128(m.cTot - fee);
    return Done(());
  }

  method CreditFeesTo(m: Market, creator: u128, protocol: u128) returns (r: Outcome<()>)
    modifies m
    ensures YieldsMarket(r, m, CreditFees(old(m.View()), creator, protocol))
  {
    m.creatorFees :- CheckU64(m.creatorFees + creator);
    m.protocolFees :- CheckU64(m.protocolFees + protocol);
    return Done(());
  }

  method RebaseAt(p: UserPosition, m: Market, oldEff: i128, delta: int) returns (r: Outcome<()>)
    modifies p, m
    ensures Yields(r, p, m, Rebase(old(Views(p, m)), oldEff, delta))
  {
    hide Attach;
    hide EffectiveQ;
    hide UpdateOi;
    var target :- CheckI128(oldEff + delta);
    var _ :- AttachPosition(p, m, target);
    var newEff :- EffectivePosition(p, m);
    r := ChangeOi(m, oldEff, newEff);
  }

  method EnlargePosition(p: UserPosition, m: Market, side: Side, size: u64, quote: u128) returns (r: Outcome<()>)
    modifies p, m
    ensures Yields(r, p, m, Enlarge(old(Views(p, m)), side, size, quote))
  {
    hide EffectiveQ;
    hide Rebase;
    var oldEff :- EffectivePosition(p, m);
    p.baseSize :- CheckI64(p.baseSize + SignedSize(side, size));
    p.quoteEntry :- CheckU128(p.quoteEntry + quote);
    var _ :- RebaseAt(p, m, oldEff, SignedSize(side, size));
    var book := m.Get(side);
    var total :- CheckU128(book.total + size);
    m.Put(side, book.(total := total));
    return Done(());
  }

  method StoreStart(p: UserPosition, peg: u128, kSnap: i128, slot: u64, acc: u128)
    modifies p
    ensures p.View() == old(p.View()).(pegAtEntry := peg, kSnap := kSnap, warmupSlope := 0, warmupStart := slot,
                                       feeCredits := 0, rewardSnap := acc)
  {
    p.pegAtEntry, p.kSnap, p.warmupSlope, p.warmupStart, p.feeCredits, p.rewardSnap := peg, kSnap, 0, slot, 0, acc;
  }

  method StartPositionOf(p: UserPosition, m: Market, side: Side, slot: u64) returns (r: Outcome<()>)
    modifies p, m
    ensures Yields(r, p, m, StartPosition(old(Views(p, m)), side, slot))
  {
    hide SetReserved;
    hide SetPnl;
    var book := m.Get(side);
    if p.reserved != 0 {
      var _ :- UpdateReserved(p, m, 0);
    }
    if p.pnl != 0 {
      var _ :- UpdatePnl(p, m, 0);
    }
    StoreStart(p, m.peg, book.k, slot, book.acc);
    return Done(());
  }

  lemma ChecksAgree(s: Pair, h: History, side: Side, size: u64, price: u64, isCreator: bool)
    ensures OpenAllowed(s.(m := s.m.(history := h)), side, size) == OpenAllowed(s, side, size)
    ensures OpenFees(s.m.(history := h), size, price, isCreator) == OpenFees(s.m, size, price, isCreator)
  {
  }

  method OpenPosition(p: UserPosition, m: Market, env: Env, side: Side, size: u64, leverage: u32, maxSlippage: u16,
                      isCreator: bool) returns (r: Outcome<()>)
    modifies p, m
    ensures Yields(r, p, m, OpenBody(old(Views(p, m)), env, side, size, leverage, maxSlippage, isCreator))
  {
    hide Touch;
    hide OpenAllowed;
    hide OpenSwap;
    hide OpenFees;
    hide TakeFee;
    hide Enlarge;
    hide IsAboveInitial;
    hide IsAboveMaintenance;
    hide EffectiveQ;
    hide NotionalOf;
    hide CreditFees;
    hide StartPosition;
    hide Finalize;
    if env.paused || !env.active || size == 0 || size > I64_MAX {
      return Abort;
    }
    if leverage < MIN_LEVERAGE || leverage > m.params.maxLeverage {
      return Abort;
    }
    var _ :- TouchAccounts(p, m, env);
    ChecksAgree(Snapshot(p, m), m.history, side, size, env.price, isCreator);
    var opening := p.baseSize == 0;
    var _ :- OpenAllowed(Snapshot(p, m), side, size);
    var quote :- TradeOpen(m, side, size, env.price, maxSlippage);
    ChecksAgree(Snapshot(p, m), m.history, side, size, env.price, isCreator);
    var fees :- OpenFees(m.Stored(), size, env.price, isCreator);
    var _ :- TakeFeeFrom(p, m, fees.total);
    var _ :- EnlargePosition(p, m, side, size, quote);
    HistoryUnread(p.View(), m.Stored(), m.history, env.price);
    var ok :- IsAboveInitial(p.View(), m.Stored(), env.price);
    if !ok {
      return Abort;
    }
    var _ :- CreditFeesTo(m, fees.creator, fees.protocol);
    if opening {
      var _ :- StartPositionOf(p, m, side, env.slot);
    }
    r := FinishAccounts(p, m, env.slot);
  }

  // ---------------------------------------------------------------------------
  // Close
  // ---------------------------------------------------------------------------

  method TradeClose(m: Market, wasLong: bool, size: u64, effClose: u128, price: u64) returns (r: Outcome<()>)
    modifies m
    ensures YieldsMarket(r, m, CloseSwap(old(m.View()), wasLong, size, effClose, price))
  {
    hide Vamm.MarkPrice;
    hide Vamm.Notional;
    hide Vamm.SimulateLong;
    hide Vamm.SimulateShort;
    hide Observe;
    ObserveKeepsCurve(m.View());
    var mark :- Vamm.MarkPrice(m.Amm());
    var weight :- Vamm.Notional(size, price);
    SampleMark(m, mark, weight);
    var swap :- if wasLong then Vamm.SimulateShort(m.Amm(), effClose) else Vamm.SimulateLong(m.Amm(), effClose);
    Swap(m, swap);
    return Done(());
  }

  method ChargeCloseFee(p: UserPosition, m: Market, fee: u128, isCreator: bool) returns (r: Outcome<()>)
    modifies p, m
    ensures Yields(r, p, m, CloseFee(old(Views(p, m)), fee, isCreator))
  {
    hide TakeFee;
    hide ChargeFee;
    hide CreditFees;
    hide Vamm.FeeSplit;
    if fee > U64_MAX {
      return Abort;
    }
    var collected: u128 := Min(fee, p.collateral);
    var _ :- TakeFeeFrom(p, m, collected);
    if collected < fee {
      var _ :- ChargeFeeToInsurance(p, m, fee - collected);
    }
    var (creator, protocol) := Vamm.FeeSplit(collected, CREATOR_FEE_SHARE_BPS, isCreator);
    r := CreditFeesTo(m, creator % TWO64, protocol % TWO64);
  }

  method ReducePosition(p: UserPosition, m: Market, oldEff: i128, size: u64, effClose: u128) returns (r: Outcome<()>)
    modifies p, m
    ensures Yields(r, p, m, Reduce(old(Views(p, m)), oldEff, size, effClose))
  {
    hide Rebase;
    hide EntryShare;
    var side := SideOf(p.baseSize);
    var share :- EntryShare(p.View(), size);
    var baseSize :- CheckI64(p.baseSize - SignedSize(side, WrapI64(size)));
    p.baseSize := baseSize;
    p.quoteEntry := SatSub(p.quoteEntry, share);
    var _ :- RebaseAt(p, m, oldEff, 0 - SignedSize(side, effClose));
    var book := m.Get(side);
    m.Put(side, book.(total := SatSub(book.total, size)));
    if baseSize == 0 {
      p.quoteEntry := 0;
    }
    return Done(());
  }

  /** A closed position starts the next one without a PnL snapshot and without a warmup. */
  method StoreFlat(p: UserPosition)
    modifies p
    ensures p.View() == old(p.View()).(kSnap := 0, warmupSlope := 0, warmupStart := 0)
  {
    p.kSnap, p.warmupSlope, p.warmupStart := 0, 0, 0;
  }

  method SettleAfterClose(p: UserPosition, m: Market) returns (r: Outcome<()>)
    modifies p, m
    ensures Yields(r, p, m, SettleClosed(old(Views(p, m))))
  {
    hide ConvertProfit;
    hide SettleLosses;
    hide ResolveFlatNegative;
    hide SweepFeeDebt;
    if p.baseSize == 0 {
      var _ :- Convert(p, m);
      var _ :- SettleLossesOf(p, m);
      var _ :- ResolveFlat(p, m);
      var _ :- SweepDebt(p, m);
      StoreFlat(p);
      return Done(());
    }
    r := Convert(p, m);
  }

  method ClosePosition(p: UserPosition, m: Market, env: Env, amount: Amount, isCreator: bool) returns (r: Outcome<()>)
    modifies p, m
    ensures Yields(r, p, m, Checked(CloseBody(old(Views(p, m)), env, amount, isCreator)))
  {
    hide Touch;
    hide CloseSize;
    hide EffectiveQ;
    hide EffectiveClose;
    hide CloseSwap;
    hide Vamm.Notional;
    hide Vamm.Fee;
    hide CloseFee;
    hide Reduce;
    hide SettleClosed;
    hide CheckSide;
    hide Finalize;
    hide CheckConservation;
    if p.baseSize == 0 {
      return Abort;
    }
    var _ :- TouchAccounts(p, m, env);
    if env.slot <= p.lastActivity {
      return Abort;
    }
    var side := SideOf(p.baseSize);
    var size :- CloseSize(p.View(), amount);
    var oldEff :- EffectivePosition(p, m);
    var effClose :- EffectiveClose(p.View(), oldEff, size);
    var _ :- TradeClose(m, side == Long, size, effClose, env.price);
    var notional :- Vamm.Notional(size, env.price);
    var fee :- Vamm.Fee(notional, m.params.tradingFeeBps);
    var _ :- ChargeCloseFee(p, m, fee, isCreator);
    var _ :- ReducePosition(p, m, oldEff, size, effClose);
    var _ :- SettleAfterClose(p, m);
    var _ :- CheckDustOn(p, m, side);
    var _ :- FinishAccounts(p, m, env.slot);
    r := Conserved(p, m);
  }

  // ---------------------------------------------------------------------------
  // Liquidate
  // ---------------------------------------------------------------------------

  method RollEpoch(m: Market, time: i64)
    modifies m
    ensures m.View() == RollInsuranceEpoch(old(m.View()), time)
  {
    if Elapsed(time, m.epochStart) >= INSURANCE_EPOCH_SECONDS {
      m.epochStart, m.epochPayout := time, 0;
    }
  }

  method Distribute(m: Market, opp: Side, surplus: u128) returns (r: Outcome<()>)
    modifies m
    ensures YieldsMarket(r, m, DistributeSurplus(old(m.View()), opp, surplus))
  {
    hide CreditInsurance;
    if surplus > 0 {
      var book := m.Get(opp);
      if book.total > 0 {
        var scaled :- CheckU128(surplus * REWARD_PRECISION);
        QuotientAtMost(scaled, book.total);
        var delta: u128 := scaled / book.total;
        if book.acc + delta <= U128_MAX {
          m.Put(opp, book.(acc := book.acc + delta));
          m.history := m.history.AddDistributed(opp, surplus);
        } else {
          CreditInsuranceFund(m, surplus);
        }
      } else {
        CreditInsuranceFund(m, surplus);
      }
    }
    return Done(());
  }

  method SocializeLoss(p: UserPosition, m: Market, side: Side, eff: i128, bill: Bill) returns (r: Outcome<()>)
    modifies m
    ensures Yields(r, p, m, Socialize(old(Views(p, m)), side, eff, bill))
  {
    hide Vamm.SimulateLong;
    hide Vamm.SimulateShort;
    hide EnqueueAdl;
    hide CreditInsurance;
    hide DistributeSurplus;
    var swap :- if side == Short then Vamm.SimulateLong(m.Amm(), Abs(eff)) else Vamm.SimulateShort(m.Amm(), Abs(eff));
    Swap(m, swap);
    var _ :- Enqueue(m, side, Abs(eff), bill.deficit);
    CreditInsuranceFund(m, bill.insuranceFee);
    r := Distribute(m, side.Opposite(), bill.surplus);
  }

  method StoreSize(p: UserPosition, baseSize: i64, quoteEntry: u128)
    modifies p
    ensures p.View() == old(p.View()).(baseSize := baseSize, quoteEntry := quoteEntry)
  {
    p.baseSize, p.quoteEntry := baseSize, quoteEntry;
  }

  method StoreCollateral(p: UserPosition, collateral: u64)
    modifies p
    ensures p.View() == old(p.View()).(collateral := collateral)
  {
    p.collateral := collateral;
  }

  method WipePosition(p: UserPosition, m: Market) returns (r: Outcome<()>)
    modifies p, m
    ensures Yields(r, p, m, Wipe(old(Views(p, m))))
  {
    hide ResetWarmup;
    hide SetPnl;
    hide Attach;
    var side := SideOf(p.baseSize);
    var book := m.Get(side);
    m.Put(side, book.(total := SatSub(book.total, Abs(p.baseSize))));
    m.cTot :- CheckU128(m.cTot - p.collateral);
    var _ :- ResetWarmupOf(p, m);
    StoreSize(p, 0, 0);
    var _ :- UpdatePnl(p, m, 0);
    StoreCollateral(p, 0);
    r := AttachPosition(p, m, 0);
  }

  method PayLiquidator(m: Market, reward: u128)
    modifies m
    ensures m.View() == PayReward(old(m.View()), reward)
  {
    m.vault := m.vault - Min(reward, m.vault);
  }

  lemma BillAgrees(p: PositionV, m: MarketV, h: History, price: u64)
    ensures MakeBill(p, m.(history := h), price) == MakeBill(p, m, price)
  {
    HistoryUnread(p, m, h, price);
    hide NotionalOf;
    hide EquityMaintRaw;
    hide MulDivCeil;
  }

  method LiquidatePosition(p: UserPosition, m: Market, env: Env) returns (r: Outcome<()>)
    modifies p, m
    ensures Yields(r, p, m, Checked(LiquidateBody(old(Views(p, m)), env)))
  {
    hide RollInsuranceEpoch;
    hide Touch;
    hide IsAboveInitial;
    hide IsAboveMaintenance;
    hide NotionalOf;
    hide EffectiveQ;
    hide MakeBill;
    hide Socialize;
    hide Wipe;
    hide PayReward;
    hide CheckSide;
    hide Finalize;
    hide CheckConservation;
    if p.baseSize == 0 {
      return Abort;
    }
    RollEpoch(m, env.time);
    var _ :- TouchAccounts(p, m, env);
    HistoryUnread(p.View(), m.Stored(), m.history, env.price);
    BillAgrees(p.View(), m.Stored(), m.history, env.price);
    var above :- IsAboveMaintenance(p.View(), m.Stored(), env.price);
    var eff :- EffectivePosition(p, m);
    if above || eff == 0 {
      return Abort;
    }
    var bill :- MakeBill(p.View(), m.Stored(), env.price);
    var side := SideOf(p.baseSize);
    var _ :- SocializeLoss(p, m, side, eff, bill);
    var _ :- WipePosition(p, m);
    PayLiquidator(m, bill.reward);
    var _ :- CheckDustOn(p, m, side);
    var _ :- CheckDustOn(p, m, side.Opposite());
    var _ :- FinishAccounts(p, m, env.slot);
    r := Conserved(p, m);
  }

  // ---------------------------------------------------------------------------
  // Settlement and reclaim
  // ---------------------------------------------------------------------------

  method SettleFundingOf(p: UserPosition, m: Market, env: Env) returns (r: Outcome<()>)
    modifies p, m
    ensures Yields(r, p, m, Checked(SettleFundingBody(old(Views(p, m)), env)))
  {
    hide Touch;
    hide SettleLosses;
    hide ConvertProfit;
    hide SweepFeeDebt;
    hide ResolveFlatNegative;
    hide Finalize;
    hide CheckConservation;
    if p.baseSize == 0 {
      return Abort;
    }
    var _ :- TouchAccounts(p, m, env);
    if env.slot <= p.lastActivity {
      return Abort;
    }
    var _ :- SettleLossesOf(p, m);
    var _ :- Convert(p, m);
    var _ :- SweepDebt(p, m);
    if p.baseSize == 0 {
      var _ :- ResolveFlat(p, m);
    }
    var _ :- FinishAccounts(p, m, env.slot);
    r := Conserved(p, m);
  }

  method SettleForAnyone(p: UserPosition, m: Market, env: Env) returns (r: Outcome<()>)
    modifies p, m
    ensures Yields(r, p, m, Checked(SettlePermissionlessBody(old(Views(p, m)), env)))
  {
    hide Touch;
    hide Finalize;
    hide CheckConservation;
    if p.baseSize == 0 {
      return Abort;
    }
    var _ :- TouchAccounts(p, m, env);
    var _ :- FinishMarket(p, m);
    r := Conserved(p, m);
  }

  method SettleStaleOf(p: UserPosition, m: Market, env: Env) returns (r: Outcome<()>)
    modifies p, m
    ensures Yields(r, p, m, SettleStalePosition(old(Views(p, m)), env))
  {
    hide Touch;
    hide SettleLosses;
    hide ConvertProfit;
    hide ResolveFlatNegative;
    hide Finalize;
    var _ :- TouchAccounts(p, m, env);
    var _ :- SettleLossesOf(p, m);
    var _ :- Convert(p, m);
    var _ :- ResolveFlat(p, m);
    r := FinishMarket(p, m);
  }

  method ReclaimPosition(p: UserPosition, m: Market, env: Env, openOrders: bool) returns (r: Outcome<()>)
    modifies p, m
    ensures Yields(r, p, m, Reclaim(old(Views(p, m)), env, openOrders))
  {
    hide Touch;
    hide SettleLosses;
    hide ConvertProfit;
    hide ResolveFlatNegative;
    hide ReclaimEmpty;
    hide Finalize;
    var _ :- TouchAccounts(p, m, env);
    var _ :- SettleLossesOf(p, m);
    var _ :- Convert(p, m);
    var _ :- ResolveFlat(p, m);
    if p.baseSize != 0 || openOrders {
      return Abort;
    }
    if SatSub(env.slot, p.lastActivity) <= MIN_RECLAIM_DELAY_SLOTS {
      return Abort;
    }
    if p.feeCredits < 0 || p.collateral > DUST_THRESHOLD {
      return Abort;
    }
    var _ :- ReclaimEmptyOf(p, m);
    r := FinishMarket(p, m);
  }

  // ---------------------------------------------------------------------------
  // Every instruction on an account
  // ---------------------------------------------------------------------------

  method Dispatch(p: UserPosition, m: Market, i: Instruction, env: Env) returns (r: Outcome<()>)
    requires i.OnAccount()
    modifies p, m
    ensures Yields(r, p, m, AccountStep(old(Views(p, m)), i, env))
  {
    hide DepositBody;
    hide WithdrawBody;
    hide OpenBody;
    hide CloseBody;
    hide LiquidateBody;
    hide SettleFundingBody;
    hide SettlePermissionlessBody;
    hide SettleStalePosition;
    hide Reclaim;
    hide Checked;
    match i
    case Deposit(_, amount) => r := DepositCollateral(p, m, env, amount);
    case Withdraw(_, amount) => r := WithdrawCollateral(p, m, env, amount);
    case Open(_, side, size, leverage, maxSlippage, byCreator) =>
      r := OpenPosition(p, m, env, side, size, leverage, maxSlippage, byCreator);
    case Close(_, portion, byCreator) => r := ClosePosition(p, m, env, portion, byCreator);
    case Liquidate(_) => r := LiquidatePosition(p, m, env);
    case SettleFunding(_) => r := SettleFundingOf(p, m, env);
    case SettlePermissionless(_) => r := SettleForAnyone(p, m, env);
    case SettleStale(_) => r := SettleStaleOf(p, m, env);
    case ReclaimAccount(_, openOrders) => r := ReclaimPosition(p, m, env, openOrders);
  }

  /**
   Whatever the instruction, the handler does to the two accounts what a step of a run does to their
   values, and keeps the invariant of the market and all its accounts; `rest` are the other accounts.
   */
  method Execute(p: UserPosition, m: Market, i: Instruction, env: Env, ghost rest: seq<PositionV>)
    returns (r: Outcome<()>)
    requires i.OnAccount()
    modifies p, m
    ensures Yields(r, p, m, AccountStep(old(Views(p, m)), i, env))
    ensures r.Done? && old(Inv(rest, Views(p, m)) && AtRest(m.View())) ==> Inv(rest, Views(p, m)) && AtRest(m.View())
    ensures r.Done? && old(Inv(rest, Views(p, m)) && AtRest(m.View())) ==> m.k == old(m.k)
  {
    hide Inv;
    hide AccountBody;
    hide AccountStep;
    ghost var s := Views(p, m);
    r := Dispatch(p, m, i, env);
    if r.Done? {
      ghost var t := Views(p, m);
      AccountStepIsBody(s, i, env, t);
      if Inv(rest, s) && AtRest(s.m) {
        AccountBodyKeeps(rest, s, i, env, t);
      }
    }
  }

  // ---------------------------------------------------------------------------
  // Instructions on the market alone
  // ---------------------------------------------------------------------------

  method UpdateFundingOf(m: Market, mark: u64, price: u64) returns (r: Outcome<()>)
    modifies m
    ensures YieldsMarket(r, m, UpdateFunding(old(m.View()), mark, price))
  {
    hide FundingRate;
    hide ScaledRate;
    hide TwapMark;
    if m.long.oi == 0 || m.short.oi == 0 {
      return Done(());
    }
    var rate :- FundingRate(TwapMark(m.Average(), mark), price, m.params.fundingCapBps);
    var scaled :- ScaledRate(rate, m.params.fundingPeriod);
    m.rate, m.lastMark := scaled, mark;
    return Done(());
  }

  method StartAverage(m: Market, time: i64)
    modifies m
    ensures m.View() == old(m.View()).(twap := old(m.Average()).(lastFundingTime := time, accumulator := 0,
            count := 0, volume := 0))
  {
    m.lastFundingTime, m.accumulator, m.count, m.volume := time, 0, 0, 0;
  }

  method Crank(m: Market, env: Env) returns (r: Outcome<()>)
    modifies m
    ensures YieldsMarket(r, m, CrankFunding(old(m.View()), env))
  {
    hide Accrue;
    hide Vamm.MarkPrice;
    hide UpdateFunding;
    hide RollInsuranceEpoch;
    hide FinalizePending;
    if !env.active || Elapsed(env.time, m.lastFundingTime) < m.params.fundingPeriod {
      return Abort;
    }
    if m.long.oi == 0 || m.short.oi == 0 {
      return Abort;
    }
    var _ :- AccrueMarket(m, env.slot, env.price);
    var mark :- Vamm.MarkPrice(m.Amm());
    var _ :- UpdateFundingOf(m, mark, env.price);
    StartAverage(m, env.time);
    RollEpoch(m, env.time);
    r := FinalizePendingResets(m);
  }

  method StorePeg(m: Market, peg: u128, slot: u64)
    modifies m
    ensures m.View() == old(m.View()).(amm := old(m.Amm()).(peg := peg, lastPegSlot := slot))
  {
    m.peg, m.lastPegSlot := peg, slot;
  }

  method UpdatePegOf(m: Market, env: Env) returns (r: Outcome<()>)
    modifies m
    ensures YieldsMarket(r, m, UpdateAmm(old(m.View()), env))
  {
    hide Accrue;
    hide Vamm.MarkPrice;
    hide Vamm.SlippageBps;
    hide Vamm.NewPeg;
    hide Observe;
    hide FinalizePending;
    if !env.active || SatSub(env.slot, m.lastPegSlot) < PEG_UPDATE_COOLDOWN_SLOTS {
      return Abort;
    }
    var _ :- AccrueMarket(m, env.slot, env.price);
    var mark :- Vamm.MarkPrice(m.Amm());
    var drift :- Vamm.SlippageBps(mark, env.price);
    if drift <= AMM_PEG_THRESHOLD_BPS {
      return Abort;
    }
    ObserveKeepsCurve(m.View());
    SampleMark(m, mark, PEG_TWAP_WEIGHT);
    var peg :- Vamm.NewPeg(m.Amm(), env.price);
    StorePeg(m, peg, env.slot);
    r := FinalizePendingResets(m);
  }

  method StoreClaim(m: Market, creatorFees: u64, protocolFees: u64, vault: u128)
    modifies m
    ensures m.View() == old(m.View()).(funds := old(m.Money()).(creatorFees := creatorFees,
            protocolFees := protocolFees, vault := vault))
  {
    m.creatorFees, m.protocolFees, m.vault := creatorFees, protocolFees, vault;
  }

  method ClaimFeesOf(m: Market, isCreator: bool, env: Env) returns (r: Outcome<()>)
    modifies m
    ensures YieldsMarket(r, m, MarketStep(old(m.View()), ClaimFees(isCreator), env))
  {
    hide CheckConservation;
    var claim := if isCreator then m.creatorFees else m.protocolFees;
    var paid: u64 := Min(claim, m.vault);
    if claim == 0 || paid == 0 {
      return Abort;
    }
    if isCreator {
      StoreClaim(m, claim - paid, m.protocolFees, m.vault - paid);
    } else {
      StoreClaim(m, m.creatorFees, claim - paid, m.vault - paid);
    }
    return if CheckConservation(m.Money()) then Done(()) else Abort;
  }

  method DispatchOnMarket(m: Market, i: Instruction, env: Env) returns (r: Outcome<()>)
    requires i.Crank? || i.UpdatePeg? || i.ClaimFees?
    modifies m
    ensures YieldsMarket(r, m, MarketStep(old(m.View()), i, env))
  {
    hide CrankFunding;
    hide UpdateAmm;
    hide ClaimBody;
    match i
    case Crank => r := Crank(m, env);
    case UpdatePeg => r := UpdatePegOf(m, env);
    case ClaimFees(byCreator) => r := ClaimFeesOf(m, byCreator, env);
  }

  /** The same for the instructions that take no account, with all accounts of the market in `accounts`. */
  method ExecuteOnMarket(m: Market, i: Instruction, env: Env, ghost accounts: seq<PositionV>, ghost none: PositionV)
    returns (r: Outcome<()>)
    requires i.Crank? || i.UpdatePeg? || i.ClaimFees?
    modifies m
    ensures YieldsMarket(r, m, MarketStep(old(m.View()), i, env))
    ensures r.Done? && old(Inv(accounts, Pair(none, m.View())) && AtRest(m.View())) ==>
              Inv(accounts, Pair(none, m.View())) && AtRest(m.View()) && m.k == old(m.k)
  {
    hide Inv;
    hide MarketStep;
    ghost var before := m.View();
    r := DispatchOnMarket(m, i, env);
    if r.Done? && Inv(accounts, Pair(none, before)) && AtRest(before) {
      MarketStepKeeps(accounts, Pair(none, before), i, env, m.View());
    }
  }

  /** Creating a market: balanced reserves for the given curve constant, everything else empty. */
  method Create(initialK: u128, env: Env, tradingFeeBps: u16, maxLeverage: u32) returns (m: Market?)
    ensures m == null <==> CreateMarket(initialK, env, tradingFeeBps, maxLeverage).Abort?
    ensures m != null ==> fresh(m) && m.View() == CreateMarket(initialK, env, tradingFeeBps, maxLeverage).value
  {
    hide Vamm.Initialize;
    hide Vamm.Isqrt;
    if env.paused || tradingFeeBps < MIN_TRADING_FEE_BPS || tradingFeeBps > MAX_TRADING_FEE_BPS {
      return null;
    }
    if maxLeverage < MIN_LEVERAGE || maxLeverage > MAX_LEVERAGE || initialK < MIN_INITIAL_LIQUIDITY {
      return null;
    }
    var amm := Vamm.ComputeInitialize(initialK, env.price);
    if amm.Abort? {
      return null;
    }
    var root := Vamm.IntegerSqrt(amm.value.k);
    Vamm.SmallRoot(amm.value.k);
    m := new Market(amm.value, env.slot, env.time, env.price,
                    Params(tradingFeeBps, LIQUIDATION_FEE_BPS, MAINTENANCE_MARGIN_BPS, maxLeverage, WARMUP_PERIOD_SLOTS,
                           DEFAULT_FUNDING_PERIOD, FUNDING_RATE_CAP_BPS, root / 5, root / 2), EMPTY_BOOK);
  }
}
