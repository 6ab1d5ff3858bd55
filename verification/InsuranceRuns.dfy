/**
 The insurance fund over runs.  Every instruction draws on the fund and pays
 into it at fixed places of its handler; the list of these events is a
 function of the instruction and the world it meets.  Along a run they give
 what the fund has paid since its epoch began, and the highest balance it has
 had since, and these meet the limits that single draws are checked against.
 */
module InsuranceRuns {
  import opened Numbers
  import opened FixedPoint
  import opened State
  import opened Risk
  import opened Handlers
  import opened InsuranceEpoch
  import opened Flows
  import opened Runs
  import AccountSteps
  import Vamm

  // ---------------------------------------------------------------------------
  // The events of an engine call
  // ---------------------------------------------------------------------------

  /** The loss of a flat account. */
  function FlatDraws(s: Pair): seq<Event> {
    if EffectiveQ(s.p, s.m) == Done(0) && s.p.pnl < 0 then [Draw(Abs(s.p.pnl))] else []
  }

  function SweepInflows(s: Pair): seq<Event> {
    var pay: u128 := Min(FeeDebt(s.p.feeCredits), s.p.collateral);
    if pay == 0 then [] else [Inflow(pay)]
  }

  function ChargeInflows(s: Pair, fee: u128): seq<Event> {
    var paid: u128 := Min(fee, s.p.collateral);
    if paid == 0 then [] else [Inflow(paid)]
  }

  function ReclaimInflows(s: Pair): seq<Event> {
    if s.p.collateral == 0 then [] else [Inflow(s.p.collateral)]
  }

  /** The surplus of a liquidation, if the other side cannot take it. */
  function SurplusInflows(m: MarketV, opp: Side, surplus: u128): seq<Event> {
    if DistributeSurplus(m, opp, surplus) == Done(m.(funds := CreditInsurance(m.funds, surplus))) && surplus != 0
    then [Inflow(surplus)] else []
  }

  lemma FlatInsures(s: Pair, t: Pair)
    requires ResolveFlatNegative(s) == Done(t)
    ensures Insures(s.m.funds, FlatDraws(s), t.m.funds)
  {
    hide UseInsurance;
    hide EffectiveQ;
    hide Insures;
    if FlatDraws(s) == [] {
      InsuresSame(s.m.funds, t.m.funds);
    } else {
      InsuresOnce(s.m.funds, Draw(Abs(s.p.pnl)), t.m.funds);
    }
  }

  lemma SweepInsures(s: Pair, t: Pair)
    requires SweepFeeDebt(s) == Done(t)
    ensures Insures(s.m.funds, SweepInflows(s), t.m.funds)
  {
    hide Insures;
    if SweepInflows(s) == [] {
      InsuresSame(s.m.funds, t.m.funds);
    } else {
      InsuresOnce(s.m.funds, SweepInflows(s)[0], t.m.funds);
    }
  }

  lemma ChargeInsures(s: Pair, fee: u128, t: Pair)
    requires ChargeFee(s, fee) == Done(t)
    ensures Insures(s.m.funds, ChargeInflows(s, fee), t.m.funds)
  {
    hide Insures;
    if ChargeInflows(s, fee) == [] {
      InsuresSame(s.m.funds, t.m.funds);
    } else {
      InsuresOnce(s.m.funds, ChargeInflows(s, fee)[0], t.m.funds);
    }
  }

  lemma ReclaimInsures(s: Pair, t: Pair)
    requires ReclaimEmpty(s) == Done(t)
    ensures Insures(s.m.funds, ReclaimInflows(s), t.m.funds)
  {
    hide Insures;
    hide EffectiveQ;
    if s.p.collateral == 0 {
      InsuresSame(s.m.funds, t.m.funds);
    } else {
      InsuresOnce(s.m.funds, Inflow(s.p.collateral), t.m.funds);
    }
  }

  lemma SurplusInsures(m: MarketV, opp: Side, surplus: u128, n: MarketV)
    requires DistributeSurplus(m, opp, surplus) == Done(n)
    ensures Insures(m.funds, SurplusInflows(m, opp, surplus), n.funds)
  {
    hide Insures;
    hide CreditInsurance;
    if SurplusInflows(m, opp, surplus) == [] {
      InsuresSame(m.funds, n.funds);
    } else {
      InsuresOnce(m.funds, Inflow(surplus), n.funds);
    }
  }

  // ---------------------------------------------------------------------------
  // The events of an instruction
  // ---------------------------------------------------------------------------

  function DepositEvents(s: Pair, env: Env, amount: u64): Outcome<seq<Event>> {
    var s1 :- Touch(s, env);
    var s2 :- Credit(s1, amount);
    var s3 :- SettleLosses(s2);
    Done(FlatDraws(s3))
  }

  lemma DepositInsures(s: Pair, env: Env, amount: u64, t: Pair)
    requires DepositBody(s, env, amount) == Done(t)
    ensures DepositEvents(s, env, amount).Done?
    ensures Insures(s.m.funds, DepositEvents(s, env, amount).value, t.m.funds)
  {
    hide Touch;
    hide SettleLosses;
    hide ResolveFlatNegative;
    hide Finalize;
    hide FlatDraws;
    hide Insures;
    var s1 := Touch(s, env).value;
    TouchStill(s, env, s1);
    var s2 := Credit(s1, amount).value;
    var s3 := SettleLosses(s2).value;
    LossesStill(s2, s3);
    var s4 := ResolveFlatNegative(s3).value;
    FlatInsures(s3, s4);
    FinishStill(s4, env.slot, t);
    InsuresAround(s.m.funds, s3.m.funds, FlatDraws(s3), s4.m.funds, t.m.funds);
  }

  function WithdrawEvents(s: Pair, env: Env): Outcome<seq<Event>> {
    var s1 :- Touch(s, env);
    var s2 :- SettleLosses(s1);
    Done(FlatDraws(s2))
  }

  lemma WithdrawInsures(s: Pair, env: Env, amount: u64, t: Pair)
    requires WithdrawBody(s, env, amount) == Done(t)
    ensures WithdrawEvents(s, env).Done? && Insures(s.m.funds, WithdrawEvents(s, env).value, t.m.funds)
  {
    hide Touch;
    hide SettleLosses;
    hide ResolveFlatNegative;
    hide WithdrawalAllowed;
    hide Finalize;
    hide FlatDraws;
    hide Insures;
    var s1 := Touch(s, env).value;
    TouchStill(s, env, s1);
    var s2 := SettleLosses(s1).value;
    LossesStill(s1, s2);
    var s3 := ResolveFlatNegative(s2).value;
    FlatInsures(s2, s3);
    var s4 := Debit(s3, amount).value;
    FinishStill(s4, env.slot, t);
    InsuresAround(s.m.funds, s2.m.funds, FlatDraws(s2), s3.m.funds, t.m.funds);
  }

  lemma OpenInsures(s: Pair, env: Env, side: Side, size: u64, leverage: u32, maxSlippage: u16, isCreator: bool, t: Pair)
    requires OpenBody(s, env, side, size, leverage, maxSlippage, isCreator) == Done(t)
    ensures Insures(s.m.funds, [], t.m.funds)
  {
    hide Touch;
    hide OpenAllowed;
    hide SwapFor;
    hide OpenFees;
    hide Enlarge;
    hide IsAboveInitial;
    hide StartPosition;
    hide Finalize;
    hide Insures;
    var s1 := Touch(s, env).value;
    TouchStill(s, env, s1);
    var (m2, quote) := OpenSwap(s1.m, side, size, env.price, maxSlippage).value;
    var fees := OpenFees(m2, size, env.price, isCreator).value;
    var s3 := TakeFee(s1.(m := m2), fees.total).value;
    var s4 := Enlarge(s3, side, size, quote).value;
    EnlargeStill(s3, side, size, quote, s4);
    var m5 := CreditFees(s4.m, fees.creator, fees.protocol).value;
    var s6 := if s1.p.baseSize == 0 then StartPosition(s4.(m := m5), side, env.slot).value else s4.(m := m5);
    if s1.p.baseSize == 0 {
      StartStill(s4.(m := m5), side, env.slot, s6);
    }
    FinishStill(s6, env.slot, t);
    InsuresSame(s.m.funds, t.m.funds);
  }

  /** What a close charges to the account beyond its collateral, and what settlement draws and sweeps afterwards. */
  function CloseFeeEvents(s: Pair, fee: u128): Outcome<seq<Event>> {
    var collected: u128 := Min(fee, s.p.collateral);
    var s1 :- TakeFee(s, collected);
    Done(if collected < fee then ChargeInflows(s1, fee - collected) else [])
  }

  lemma CloseFeeInsures(s: Pair, fee: u128, isCreator: bool, t: Pair)
    requires CloseFee(s, fee, isCreator) == Done(t)
    ensures CloseFeeEvents(s, fee).Done? && Insures(s.m.funds, CloseFeeEvents(s, fee).value, t.m.funds)
  {
    hide ChargeFee;
    hide ChargeInflows;
    hide Vamm.FeeSplit;
    hide Insures;
    var collected: u128 := Min(fee, s.p.collateral);
    var s1 := TakeFee(s, collected).value;
    if collected < fee {
      var s2 := ChargeFee(s1, fee - collected).value;
      ChargeInsures(s1, fee - collected, s2);
      InsuresAround(s.m.funds, s1.m.funds, ChargeInflows(s1, fee - collected), s2.m.funds, t.m.funds);
    } else {
      InsuresSame(s.m.funds, t.m.funds);
    }
  }

  function ClosedEvents(s: Pair): Outcome<seq<Event>> {
    if s.p.baseSize != 0 then Done([])
    else
      var s1 :- ConvertProfit(s);
      var s2 :- SettleLosses(s1);
      var s3 :- ResolveFlatNegative(s2);
      Done(FlatDraws(s2) + SweepInflows(s3))
  }

  lemma ClosedInsures(s: Pair, t: Pair)
    requires SettleClosed(s) == Done(t)
    ensures ClosedEvents(s).Done? && Insures(s.m.funds, ClosedEvents(s).value, t.m.funds)
  {
    hide ConvertProfit;
    hide SettleLosses;
    hide ResolveFlatNegative;
    hide SweepFeeDebt;
    hide FlatDraws;
    hide SweepInflows;
    hide Insures;
    var s1 := ConvertProfit(s).value;
    ConvertStill(s, s1);
    if s.p.baseSize == 0 {
      var s2 := SettleLosses(s1).value;
      LossesStill(s1, s2);
      var s3 := ResolveFlatNegative(s2).value;
      FlatInsures(s2, s3);
      var s4 := SweepFeeDebt(s3).value;
      SweepInsures(s3, s4);
      InsuresChain(s2.m.funds, FlatDraws(s2), s3.m.funds, SweepInflows(s3), s4.m.funds);
      InsuresAround(s.m.funds, s2.m.funds, FlatDraws(s2) + SweepInflows(s3), s4.m.funds, t.m.funds);
    } else {
      InsuresSame(s.m.funds, t.m.funds);
    }
  }

  function CloseEvents(s: Pair, env: Env, amount: Amount, isCreator: bool): Outcome<seq<Event>> {
    var s1 :- Touch(s, env);
    var size :- CloseSize(s1.p, amount);
    var oldEff :- EffectiveQ(s1.p, s1.m);
    var effClose :- EffectiveClose(s1.p, oldEff, size);
    var m2 :- CloseSwap(s1.m, SideOf(s1.p.baseSize) == Long, size, effClose, env.price);
    var notional :- Vamm.Notional(size, env.price);
    var fee :- Vamm.Fee(notional, m2.params.tradingFeeBps);
    var charged :- CloseFeeEvents(s1.(m := m2), fee);
    var s3 :- CloseFee(s1.(m := m2), fee, isCreator);
    var s4 :- Reduce(s3, oldEff, size, effClose);
    var settled :- ClosedEvents(s4);
    Done(charged + settled)
  }

  lemma CloseInsures(s: Pair, env: Env, amount: Amount, isCreator: bool, t: Pair)
    requires CloseBody(s, env, amount, isCreator) == Done(t)
    ensures CloseEvents(s, env, amount, isCreator).Done?
    ensures Insures(s.m.funds, CloseEvents(s, env, amount, isCreator).value, t.m.funds)
  {
    hide Touch;
    hide CloseSize;
    hide EffectiveQ;
    hide EffectiveClose;
    hide SwapFor;
    hide CloseFee;
    hide CloseFeeEvents;
    hide Reduce;
    hide SettleClosed;
    hide ClosedEvents;
    hide CheckDust;
    hide Finalize;
    hide Insures;
    var s1 := Touch(s, env).value;
    TouchStill(s, env, s1);
    var side := SideOf(s1.p.baseSize);
    var size := CloseSize(s1.p, amount).value;
    var oldEff := EffectiveQ(s1.p, s1.m).value;
    var effClose := EffectiveClose(s1.p, oldEff, size).value;
    var m2 := CloseSwap(s1.m, side == Long, size, effClose, env.price).value;
    var fee := Vamm.Fee(Vamm.Notional(size, env.price).value, m2.params.tradingFeeBps).value;
    var s2 := s1.(m := m2);
    var s3 := CloseFee(s2, fee, isCreator).value;
    CloseFeeInsures(s2, fee, isCreator, s3);
    var s4 := Reduce(s3, oldEff, size, effClose).value;
    ReduceStill(s3, oldEff, size, effClose, s4);
    var s5 := SettleClosed(s4).value;
    ClosedInsures(s4, s5);
    var s6 := CheckSide(s5, side).value;
    ResetsStill(s5.m, side, s6.m);
    FinishStill(s6, env.slot, t);
    var charged, settled := CloseFeeEvents(s2, fee).value, ClosedEvents(s4).value;
    InsuresAround(s.m.funds, s2.m.funds, charged, s3.m.funds, s4.m.funds);
    InsuresAround(s4.m.funds, s4.m.funds, settled, s5.m.funds, t.m.funds);
    InsuresChain(s.m.funds, charged, s4.m.funds, settled, t.m.funds);
  }

  /** The deficit, the insurance fee, and the surplus if the other side cannot take it. */
  function BillEvents(s: Pair, side: Side, eff: i128, bill: Bill): Outcome<seq<Event>> {
    var swap :- SwapFor(s.m, side == Short, Abs(eff));
    var m1 :- EnqueueAdl(Swapped(s.m, swap), side, Abs(eff), bill.deficit);
    var m2 := m1.(funds := CreditInsurance(m1.funds, bill.insuranceFee));
    Done([Draw(bill.deficit), Inflow(bill.insuranceFee)] + SurplusInflows(m2, side.Opposite(), bill.surplus))
  }

  lemma EnqueueInsures(m: MarketV, side: Side, close: u128, deficit: u128, n: MarketV)
    requires EnqueueAdl(m, side, close, deficit) == Done(n)
    ensures Insures(m.funds, [Draw(deficit)], n.funds)
  {
    hide UseInsurance;
    hide InsurancePay;
    hide ChargeDeficit;
    hide CutBook;
    assert n.funds == UseInsurance(m.funds, deficit);
    hide EnqueueAdl;
    InsuresOnce(m.funds, Draw(deficit), n.funds);
    hide Insures;
  }

  lemma BillInsures(s: Pair, side: Side, eff: i128, bill: Bill, t: Pair)
    requires Socialize(s, side, eff, bill) == Done(t)
    ensures BillEvents(s, side, eff, bill).Done?
    ensures Insures(s.m.funds, BillEvents(s, side, eff, bill).value, t.m.funds)
  {
    hide SwapFor;
    hide EnqueueAdl;
    hide DistributeSurplus;
    hide SurplusInflows;
    hide CreditInsurance;
    hide Insures;
    var m0 := Swapped(s.m, SwapFor(s.m, side == Short, Abs(eff)).value);
    var m1 := EnqueueAdl(m0, side, Abs(eff), bill.deficit).value;
    EnqueueInsures(m0, side, Abs(eff), bill.deficit, m1);
    var m2 := m1.(funds := CreditInsurance(m1.funds, bill.insuranceFee));
    InsuresOnce(m1.funds, Inflow(bill.insuranceFee), m2.funds);
    InsuresChain(s.m.funds, [Draw(bill.deficit)], m1.funds, [Inflow(bill.insuranceFee)], m2.funds);
    SurplusInsures(m2, side.Opposite(), bill.surplus, t.m);
    var two := [Draw(bill.deficit), Inflow(bill.insuranceFee)];
    assert two == [Draw(bill.deficit)] + [Inflow(bill.insuranceFee)];
    InsuresChain(s.m.funds, two, m2.funds, SurplusInflows(m2, side.Opposite(), bill.surplus), t.m.funds);
  }

  function LiquidateEvents(s: Pair, env: Env): Outcome<seq<Event>> {
    var s1 :- Touch(s.(m := RollInsuranceEpoch(s.m, env.time)), env);
    var eff :- EffectiveQ(s1.p, s1.m);
    var bill :- MakeBill(s1.p, s1.m, env.price);
    BillEvents(s1, SideOf(s1.p.baseSize), eff, bill)
  }

  lemma LiquidateInsures(s: Pair, env: Env, t: Pair)
    requires LiquidateBody(s, env) == Done(t)
    ensures LiquidateEvents(s, env).Done?
    ensures Insures(RollInsuranceEpoch(s.m, env.time).funds, LiquidateEvents(s, env).value, t.m.funds)
  {
    hide RollInsuranceEpoch;
    hide Touch;
    hide IsAboveMaintenance;
    hide EffectiveQ;
    hide MakeBill;
    hide Socialize;
    hide BillEvents;
    hide Wipe;
    hide CheckDust;
    hide Finalize;
    hide Insures;
    var s0 := s.(m := RollInsuranceEpoch(s.m, env.time));
    var s1 := Touch(s0, env).value;
    TouchStill(s0, env, s1);
    var eff := EffectiveQ(s1.p, s1.m).value;
    var bill := MakeBill(s1.p, s1.m, env.price).value;
    var side := SideOf(s1.p.baseSize);
    var s2 := Socialize(s1, side, eff, bill).value;
    BillInsures(s1, side, eff, bill, s2);
    var s3 := Wipe(s2).value;
    WipeStill(s2, s3);
    var s3' := s3.(m := PayReward(s3.m, bill.reward));
    var s4 := CheckSide(s3', side).value;
    ResetsStill(s3'.m, side, s4.m);
    var s5 := CheckSide(s4, side.Opposite()).value;
    ResetsStill(s4.m, side.Opposite(), s5.m);
    FinishStill(s5, env.slot, t);
    InsuresAround(s0.m.funds, s1.m.funds, BillEvents(s1, side, eff, bill).value, s2.m.funds, t.m.funds);
  }

  function SettleFundingEvents(s: Pair, env: Env): Outcome<seq<Event>> {
    var s1 :- Touch(s, env);
    var s2 :- SettleLosses(s1);
    var s3 :- ConvertProfit(s2);
    var s4 :- SweepFeeDebt(s3);
    Done(SweepInflows(s3) + if s4.p.baseSize == 0 then FlatDraws(s4) else [])
  }

  lemma SettleFundingInsures(s: Pair, env: Env, t: Pair)
    requires SettleFundingBody(s, env) == Done(t)
    ensures SettleFundingEvents(s, env).Done? && Insures(s.m.funds, SettleFundingEvents(s, env).value, t.m.funds)
  {
    hide Touch;
    hide SettleLosses;
    hide ConvertProfit;
    hide SweepFeeDebt;
    hide ResolveFlatNegative;
    hide Finalize;
    hide FlatDraws;
    hide SweepInflows;
    hide Insures;
    var s1 := Touch(s, env).value;
    TouchStill(s, env, s1);
    var s2 := SettleLosses(s1).value;
    LossesStill(s1, s2);
    var s3 := ConvertProfit(s2).value;
    ConvertStill(s2, s3);
    var s4 := SweepFeeDebt(s3).value;
    SweepInsures(s3, s4);
    var s5 := if s4.p.baseSize == 0 then ResolveFlatNegative(s4).value else s4;
    var draws := if s4.p.baseSize == 0 then FlatDraws(s4) else [];
    if s4.p.baseSize == 0 {
      FlatInsures(s4, s5);
    } else {
      InsuresSame(s4.m.funds, s5.m.funds);
    }
    FinishStill(s5, env.slot, t);
    InsuresChain(s3.m.funds, SweepInflows(s3), s4.m.funds, draws, s5.m.funds);
    InsuresAround(s.m.funds, s3.m.funds, SweepInflows(s3) + draws, s5.m.funds, t.m.funds);
  }

  function SettleStaleEvents(s: Pair, env: Env): Outcome<seq<Event>> {
    var s1 :- Touch(s, env);
    var s2 :- SettleLosses(s1);
    var s3 :- ConvertProfit(s2);
    Done(FlatDraws(s3))
  }

  lemma FlatSettledInsures(s: Pair, env: Env, s4: Pair)
    requires SettleStaleEvents(s, env).Done?
    requires var s3 := ConvertProfit(SettleLosses(Touch(s, env).value).value).value; ResolveFlatNegative(s3) == Done(s4)
    ensures Insures(s.m.funds, SettleStaleEvents(s, env).value, s4.m.funds)
  {
    hide Touch;
    hide SettleLosses;
    hide ConvertProfit;
    hide ResolveFlatNegative;
    hide FlatDraws;
    hide Insures;
    var s1 := Touch(s, env).value;
    TouchStill(s, env, s1);
    var s2 := SettleLosses(s1).value;
    LossesStill(s1, s2);
    var s3 := ConvertProfit(s2).value;
    ConvertStill(s2, s3);
    FlatInsures(s3, s4);
    InsuresAround(s.m.funds, s3.m.funds, FlatDraws(s3), s4.m.funds, s4.m.funds);
  }

  lemma SettleStaleInsures(s: Pair, env: Env, t: Pair)
    requires SettleStalePosition(s, env) == Done(t)
    ensures SettleStaleEvents(s, env).Done? && Insures(s.m.funds, SettleStaleEvents(s, env).value, t.m.funds)
  {
    hide Touch;
    hide SettleLosses;
    hide ConvertProfit;
    hide ResolveFlatNegative;
    hide FlatDraws;
    hide Finalize;
    hide Insures;
    var s4 := ResolveFlatNegative(ConvertProfit(SettleLosses(Touch(s, env).value).value).value).value;
    FlatSettledInsures(s, env, s4);
    FinishStill(s4, 0, t);
    InsuresAround(s.m.funds, s.m.funds, SettleStaleEvents(s, env).value, s4.m.funds, t.m.funds);
  }

  function ReclaimEvents(s: Pair, env: Env): Outcome<seq<Event>> {
    var draws :- SettleStaleEvents(s, env);
    var s1 :- Touch(s, env);
    var s2 :- SettleLosses(s1);
    var s3 :- ConvertProfit(s2);
    var s4 :- ResolveFlatNegative(s3);
    Done(draws + ReclaimInflows(s4))
  }

  lemma ReclaimingInsures(s: Pair, env: Env, openOrders: bool, t: Pair)
    requires Reclaim(s, env, openOrders) == Done(t)
    ensures ReclaimEvents(s, env).Done? && Insures(s.m.funds, ReclaimEvents(s, env).value, t.m.funds)
  {
    hide Touch;
    hide SettleLosses;
    hide ConvertProfit;
    hide ResolveFlatNegative;
    hide ReclaimEmpty;
    hide ReclaimInflows;
    hide FlatDraws;
    hide Finalize;
    hide Insures;
    var s4 := ResolveFlatNegative(ConvertProfit(SettleLosses(Touch(s, env).value).value).value).value;
    FlatSettledInsures(s, env, s4);
    var s5 := ReclaimEmpty(s4).value;
    ReclaimInsures(s4, s5);
    FinishStill(s5, 0, t);
    InsuresChain(s.m.funds, SettleStaleEvents(s, env).value, s4.m.funds, ReclaimInflows(s4), s5.m.funds);
    InsuresAround(s.m.funds, s.m.funds, ReclaimEvents(s, env).value, s5.m.funds, t.m.funds);
  }

  lemma PermissionlessInsures(s: Pair, env: Env, t: Pair)
    requires SettlePermissionlessBody(s, env) == Done(t)
    ensures Insures(s.m.funds, [], t.m.funds)
  {
    hide Touch;
    hide Finalize;
    hide Insures;
    var s1 := Touch(s, env).value;
    TouchStill(s, env, s1);
    FinishStill(s1, 0, t);
    InsuresSame(s.m.funds, t.m.funds);
  }

  // ---------------------------------------------------------------------------
  // Steps
  // ---------------------------------------------------------------------------

  function AccountEvents(s: Pair, i: Instruction, env: Env): Outcome<seq<Event>>
    requires i.OnAccount()
  {
    match i
    case Deposit(_, amount) => DepositEvents(s, env, amount)
    case Withdraw(_, _) => WithdrawEvents(s, env)
    case Open(_, _, _, _, _, _) => Done([])
    case Close(_, portion, byCreator) => CloseEvents(s, env, portion, byCreator)
    case Liquidate(_) => LiquidateEvents(s, env)
    case SettleFunding(_) => SettleFundingEvents(s, env)
    case SettlePermissionless(_) => Done([])
    case SettleStale(_) => SettleStaleEvents(s, env)
    case ReclaimAccount(_, _) => ReclaimEvents(s, env)
  }

  /** The market after the insurance epoch has been rolled, by the instructions that do so. */
  function Rolled(m: MarketV, i: Instruction, env: Env): MarketV {
    if i.Liquidate? || i.Crank? then RollInsuranceEpoch(m, env.time) else m
  }

  lemma AccountInsures(s: Pair, i: Instruction, env: Env, t: Pair)
    requires i.OnAccount() && AccountBody(s, i, env) == Done(t)
    ensures AccountEvents(s, i, env).Done?
    ensures Insures(Rolled(s.m, i, env).funds, AccountEvents(s, i, env).value, t.m.funds)
  {
    hide DepositBody;
    hide WithdrawBody;
    hide OpenBody;
    hide CloseBody;
    hide LiquidateBody;
    hide SettleFundingBody;
    hide SettlePermissionlessBody;
    hide SettleStalePosition;
    hide Reclaim;
    hide DepositEvents;
    hide WithdrawEvents;
    hide CloseEvents;
    hide LiquidateEvents;
    hide SettleFundingEvents;
    hide SettleStaleEvents;
    hide ReclaimEvents;
    hide RollInsuranceEpoch;
    hide Insures;
    match i
    case Deposit(_, amount) => DepositInsures(s, env, amount, t);
    case Withdraw(_, amount) => WithdrawInsures(s, env, amount, t);
    case Open(_, side, size, leverage, maxSlippage, byCreator) =>
      OpenInsures(s, env, side, size, leverage, maxSlippage, byCreator, t);
    case Close(_, portion, byCreator) => CloseInsures(s, env, portion, byCreator, t);
    case Liquidate(_) => LiquidateInsures(s, env, t);
    case SettleFunding(_) => SettleFundingInsures(s, env, t);
    case SettlePermissionless(_) => PermissionlessInsures(s, env, t);
    case SettleStale(_) => SettleStaleInsures(s, env, t);
    case ReclaimAccount(_, openOrders) => ReclaimingInsures(s, env, openOrders, t);
  }

  lemma CrankInsures(m: MarketV, env: Env, n: MarketV)
    requires CrankFunding(m, env) == Done(n)
    ensures SameInsurance(RollInsuranceEpoch(m, env.time).funds, n.funds)
  {
    hide Accrue;
    hide Vamm.MarkPrice;
    hide FundingRate;
    hide ScaledRate;
    hide TwapMark;
    hide FinalizePending;
    var m1 := Accrue(m, env.slot, env.price).value;
    AccountSteps.AccrueForm(m, env.slot, env.price, m1);
    var mark := Vamm.MarkPrice(m1.amm).value;
    var m2 := UpdateFunding(m1, mark, env.price).value;
    var m3 := m2.(twap := m2.twap.(lastFundingTime := env.time, accumulator := 0, count := 0, volume := 0));
    ResetsStill(RollInsuranceEpoch(m3, env.time), Long, n);
  }

  lemma MarketInsures(m: MarketV, i: Instruction, env: Env, n: MarketV)
    requires (i.Crank? || i.UpdatePeg? || i.ClaimFees?) && MarketStep(m, i, env) == Done(n)
    ensures SameInsurance(Rolled(m, i, env).funds, n.funds)
  {
    hide CrankFunding;
    hide RollInsuranceEpoch;
    hide Accrue;
    hide Vamm.MarkPrice;
    hide Vamm.NewPeg;
    hide Vamm.SlippageBps;
    hide FinalizePending;
    if i.Crank? {
      CrankInsures(m, env, n);
    } else if i.UpdatePeg? {
      var m1 := Accrue(m, env.slot, env.price).value;
      AccountSteps.AccrueForm(m, env.slot, env.price, m1);
      var m2 := Observe(m1, Vamm.MarkPrice(m1.amm).value, PEG_TWAP_WEIGHT);
      var peg := Vamm.NewPeg(m2.amm, env.price).value;
      ResetsStill(m2.(amm := m2.amm.(peg := peg, lastPegSlot := env.slot)), Long, n);
    }
  }

  /** What the step starts from, with the insurance epoch rolled if it rolls it. */
  function StartOf(w: World, i: Instruction, env: Env): MarketV {
    if Succeeds(w, i, env) then Rolled(w.m, i, env) else w.m
  }

  function EventsOf(w: World, i: Instruction, env: Env): seq<Event> {
    if !i.OnAccount() || !Succeeds(w, i, env) then []
    else match AccountEvents(Acting(w, i), i, env)
      case Done(events) => events
      case Abort => []
  }

  /** Every step changes the insurance fund by its own events, and by nothing else. */
  lemma StepInsures(w: World, i: Instruction, env: Env)
    ensures Insures(StartOf(w, i, env).funds, EventsOf(w, i, env), Step(w, i, env).m.funds)
  {
    hide AccountStep;
    hide AccountEvents;
    hide MarketStep;
    hide Rolled;
    hide After;
    hide Insures;
    if !Succeeds(w, i, env) {
      InsuresSame(w.m.funds, w.m.funds);
    } else if i.OnAccount() {
      var t := AccountStep(Acting(w, i), i, env).value;
      AccountStepIsBody(Acting(w, i), i, env, t);
      AccountInsures(Acting(w, i), i, env, t);
    } else {
      var n := MarketStep(w.m, i, env).value;
      MarketInsures(w.m, i, env, n);
      InsuresSame(Rolled(w.m, i, env).funds, n.funds);
    }
  }

  // ---------------------------------------------------------------------------
  // Runs
  // ---------------------------------------------------------------------------

  /** Since the insurance epoch began: what the fund has paid, and the highest balance it has had. */
  datatype Ledger = Ledger(paid: nat, peak: nat)

  /** A new epoch begins with this step. */
  predicate Begins(w: World, i: Instruction, env: Env) {
    Succeeds(w, i, env) && (i.Liquidate? || i.Crank?)
    && Elapsed(env.time, w.m.funds.epochStart) >= INSURANCE_EPOCH_SECONDS
  }

  function Record(l: Ledger, w: World, i: Instruction, env: Env): Ledger {
    var f, events := StartOf(w, i, env).funds, EventsOf(w, i, env);
    if Begins(w, i, env) then Ledger(Paid(f, events), Peak(f, events))
    else Ledger(l.paid + Paid(f, events), Max(l.peak, Peak(f, events)))
  }

  function RunLedger(l: Ledger, w: World, steps: seq<(Instruction, Env)>): Ledger
    decreases |steps|
  {
    if steps == [] then l
    else RunLedger(Record(l, w, steps[0].0, steps[0].1), Step(w, steps[0].0, steps[0].1), steps[1..])
  }

  /** The counter of the program is the ledger's, and it is within 30% of the highest balance. */
  predicate Kept(l: Ledger, f: Funds) {
    f.epochPayout == l.paid <= Cap(l.peak)
  }

  lemma StartForm(w: World, i: Instruction, env: Env)
    ensures var f := StartOf(w, i, env).funds;
            && f.insurance == w.m.funds.insurance && f.insuranceFloor == w.m.funds.insuranceFloor
            && f.epochPayout == if Begins(w, i, env) then 0 else w.m.funds.epochPayout
  {
    hide Succeeds;
  }

  lemma RecordKeeps(l: Ledger, w: World, i: Instruction, env: Env)
    requires Kept(l, w.m.funds)
    ensures Kept(Record(l, w, i, env), Step(w, i, env).m.funds)
    ensures Step(w, i, env).m.funds.insuranceFloor == w.m.funds.insuranceFloor
    ensures Step(w, i, env).m.funds.insurance >= Min(w.m.funds.insurance, w.m.funds.insuranceFloor)
  {
    hide Step;
    hide StartOf;
    hide EventsOf;
    hide Begins;
    var f, events := StartOf(w, i, env).funds, EventsOf(w, i, env);
    StartForm(w, i, env);
    StepInsures(w, i, env);
    EpochLimits(f, events);
    FloorAndBalance(f, events);
    FloorStays(f, events);
    hide Epoch;
    hide Paid;
    hide Peak;
    CapMono(l.peak, Max(l.peak, Peak(f, events)));
    CapMono(Peak(f, events), Max(l.peak, Peak(f, events)));
    hide Cap;
  }

  lemma {:induction false} FloorStays(f: Funds, events: seq<Event>)
    ensures Epoch(f, events).insuranceFloor == f.insuranceFloor
    decreases |events|
  {
    if events != [] {
      FloorStays(Apply(f, events[0]), events[1..]);
    }
  }

  /**
   Over any run, across any number of insurance epochs: the payouts the program has counted are exactly
   what the fund has paid since its epoch began, they are within 30% of the highest balance it has had
   since, and the balance has not fallen below its floor.
   */
  lemma {:induction false} InsuranceOverRun(l: Ledger, w: World, steps: seq<(Instruction, Env)>)
    requires Kept(l, w.m.funds)
    ensures var end, f, g := RunLedger(l, w, steps), w.m.funds, Run(w, steps).m.funds;
            && g.epochPayout == end.paid && end.paid * 10_000 <= INSURANCE_EPOCH_CAP_BPS * end.peak
            && g.insuranceFloor == f.insuranceFloor && g.insurance >= Min(f.insurance, f.insuranceFloor)
    decreases |steps|
  {
    hide Record;
    hide Step;
    if steps != [] {
      var i, env := steps[0].0, steps[0].1;
      RecordKeeps(l, w, i, env);
      InsuranceOverRun(Record(l, w, i, env), Step(w, i, env), steps[1..]);
    }
  }

  /** In particular over every run of a new market, whose fund has paid nothing and is empty. */
  lemma InsuranceSinceCreation(initialK: u128, env: Env, tradingFeeBps: u16, maxLeverage: u32, m: MarketV,
                               steps: seq<(Instruction, Env)>)
    requires CreateMarket(initialK, env, tradingFeeBps, maxLeverage) == Done(m)
    ensures var end, g := RunLedger(Ledger(0, 0), World(m, []), steps), Run(World(m, []), steps).m.funds;
            g.epochPayout == end.paid && end.paid * 10_000 <= INSURANCE_EPOCH_CAP_BPS * end.peak
  {
    hide Vamm.Initialize;
    hide Vamm.Isqrt;
    assert m.funds.epochPayout == 0;
    hide CreateMarket;
    hide RunLedger;
    hide Run;
    InsuranceOverRun(Ledger(0, 0), World(m, []), steps);
  }
}
