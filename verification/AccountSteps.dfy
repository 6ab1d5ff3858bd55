/**
 Every engine operation on money and every settlement keeps the invariant: the
 running totals stay exact sums over all accounts, their underflow guards never
 fire, and no operation but a reward claim reduces the cushion of the vault
 below zero.  A position that settlement empties leaves its side for good and
 orphans less than one unit of open interest.
 */
module AccountSteps {
  import opened Numbers
  import opened FixedPoint
  import opened State
  import opened Risk
  import opened Invariants
  import opened Traces
  import Vamm

  // ---------------------------------------------------------------------------
  // Aggregates
  // ---------------------------------------------------------------------------

  lemma ReserveAfterBounds(oldPos: nat, reserved: nat, newPos: nat)
    requires reserved <= oldPos
    ensures ReserveAfter(oldPos, reserved, newPos) <= newPos
    ensures newPos - ReserveAfter(oldPos, reserved, newPos) <= oldPos - reserved
  {
  }

  /** A PnL update never increases matured profit: gains enter the reserve, losses leave it first. */
  lemma SetPnlKeeps(rest: seq<PositionV>, s: Pair, newPnl: i128, t: Pair)
    requires Inv(rest, s) && SetPnl(s, newPnl) == Done(t)
    ensures Inv(rest, t) && MoneyOnly(s, t) && t.p == s.p.(pnl := newPnl, reserved := t.p.reserved)
    ensures t.m.funds.matured <= s.m.funds.matured && Cushion(t.m.funds) == Cushion(s.m.funds)
    ensures PosPart(newPnl) <= PosPart(s.p.pnl) ==> t.p.reserved <= s.p.reserved
  {
    assert t.p.reserved <= PosPart(newPnl);
    MoneyFrame(rest, s, t);
  }

  lemma {:induction false} ReleasedAtMostGain(accounts: seq<PositionV>)
    ensures Sum(Released, accounts) <= Sum(Gain, accounts)
  {
    if accounts != [] {
      ReleasedAtMostGain(accounts[1..]);
    }
  }

  lemma RestBounds(rest: seq<PositionV>, m: MarketV)
    requires AllOk(rest, m)
    ensures 0 <= Sum(Released, rest) <= Sum(Gain, rest)
    ensures 0 <= Sum(Collateral, rest)
  {
    ReleasedNonNegative(rest);
    ReleasedAtMostGain(rest);
    SumNonNegative(Collateral, rest);
  }

  /** In a reachable state a PnL update is refused only at the documented limits; no aggregate can underflow. */
  lemma SetPnlRefusals(rest: seq<PositionV>, s: Pair, newPnl: i128)
    requires Inv(rest, s)
    ensures SetPnl(s, newPnl).Abort?
       <==> newPnl == -TWO127 || PosPart(newPnl) > MAX_ACCOUNT_POSITIVE_PNL
            || Sum(Gain, rest) + PosPart(newPnl) > MAX_PNL_POS_TOT
  {
    RestBounds(rest, s.m);
    ReserveAfterBounds(PosPart(s.p.pnl), s.p.reserved, PosPart(newPnl));
  }

  lemma SetReservedKeeps(rest: seq<PositionV>, s: Pair, newR: u128, t: Pair)
    requires Inv(rest, s) && SetReserved(s, newR) == Done(t)
    ensures Inv(rest, t) && MoneyOnly(s, t) && t.p == s.p.(reserved := newR)
    ensures Cushion(t.m.funds) == Cushion(s.m.funds)
  {
    MoneyFrame(rest, s, t);
  }

  /** Moving the reserve within the positive PnL is never refused. */
  lemma SetReservedSucceeds(rest: seq<PositionV>, s: Pair, newR: u128)
    requires Inv(rest, s) && newR <= PosPart(s.p.pnl)
    ensures SetReserved(s, newR).Done?
  {
    RestBounds(rest, s.m);
  }

  lemma SetCapitalKeeps(rest: seq<PositionV>, s: Pair, capital: u128, t: Pair)
    requires Inv(rest, s) && SetCapital(s, capital) == Done(t)
    ensures Inv(rest, t) && MoneyOnly(s, t) && t.p == s.p.(collateral := t.p.collateral) && t.p.collateral == capital
    ensures Cushion(t.m.funds) == Cushion(s.m.funds) + s.p.collateral - capital
    ensures t.m == s.m.(funds := s.m.funds.(cTot := t.m.funds.cTot))
  {
    MoneyFrame(rest, s, t);
  }

  // ---------------------------------------------------------------------------
  // Warmup
  // ---------------------------------------------------------------------------

  lemma WarmupClock(rest: seq<PositionV>, s: Pair, t: Pair)
    requires Inv(rest, s)
    requires t.m == s.m && t.p == s.p.(warmupSlope := t.p.warmupSlope, warmupStart := t.p.warmupStart)
    requires t.p.warmupStart <= s.m.feed.currentSlot
    ensures Inv(rest, t) && MoneyOnly(s, t)
  {
    MoneyFrame(rest, s, t);
  }

  lemma RestartWarmupKeeps(rest: seq<PositionV>, s: Pair, t: Pair)
    requires Inv(rest, s) && RestartWarmup(s) == Done(t)
    ensures Inv(rest, t) && MoneyOnly(s, t) && Cushion(t.m.funds) == Cushion(s.m.funds)
    ensures t.p.pnl == s.p.pnl && t.p.collateral == s.p.collateral && t.p.lastActivity == s.p.lastActivity
  {
    hide Inv;
    if s.m.params.warmupPeriod == 0 {
      var s1 := SetReserved(s, 0).value;
      SetReservedKeeps(rest, s, 0, s1);
      WarmupClock(rest, s1, t);
    } else {
      WarmupClock(rest, s, t);
    }
  }

  lemma AdvanceWarmupKeeps(rest: seq<PositionV>, s: Pair, slot: u64, t: Pair)
    requires Inv(rest, s) && AdvanceWarmup(s, slot) == Done(t) && slot <= s.m.feed.currentSlot
    ensures Inv(rest, t) && MoneyOnly(s, t) && Cushion(t.m.funds) == Cushion(s.m.funds)
    ensures t.p.pnl == s.p.pnl && t.p.collateral == s.p.collateral && t.p.lastActivity == s.p.lastActivity
  {
    hide Inv;
    hide WarmupRelease;
    var release := WarmupRelease(s.p, slot);
    if s.p.reserved == 0 {
      WarmupClock(rest, s, t);
    } else {
      var newR := if s.m.params.warmupPeriod == 0 then 0 else s.p.reserved - release;
      if s.m.params.warmupPeriod == 0 || release > 0 {
        var s1 := SetReserved(s, newR).value;
        SetReservedKeeps(rest, s, newR, s1);
        WarmupClock(rest, s1, t);
      } else {
        WarmupClock(rest, s, t);
      }
    }
  }

  // ---------------------------------------------------------------------------
  // Insurance
  // ---------------------------------------------------------------------------

  /** Changing only fund balances that no account total speaks of. */
  lemma FundsFrame(rest: seq<PositionV>, s: Pair, f: Funds)
    requires Inv(rest, s)
    requires f.cTot == s.m.funds.cTot && f.pnlPos == s.m.funds.pnlPos && f.matured == s.m.funds.matured
    ensures Inv(rest, s.(m := s.m.(funds := f)))
  {
    MoneyFrame(rest, s, s.(m := s.m.(funds := f)));
  }

  lemma InsuranceDraw(f: Funds, loss: u128)
    ensures Cushion(UseInsurance(f, loss)) == Cushion(f) + InsurancePay(f, loss)
    ensures 0 <= InsurancePay(f, loss) <= loss
    ensures UseInsurance(f, loss).cTot == f.cTot && UseInsurance(f, loss).pnlPos == f.pnlPos
    ensures UseInsurance(f, loss).matured == f.matured && UseInsurance(f, loss).vault == f.vault
  {
  }

  lemma InsuranceCredit(f: Funds, amount: u128)
    ensures Cushion(CreditInsurance(f, amount)) >= Cushion(f) - amount
    ensures CreditInsurance(f, amount) == f.(insurance := CreditInsurance(f, amount).insurance)
  {
  }

  // ---------------------------------------------------------------------------
  // Losses, conversion, fees
  // ---------------------------------------------------------------------------

  lemma SettleLossesKeeps(rest: seq<PositionV>, s: Pair, t: Pair)
    requires Inv(rest, s) && SettleLosses(s) == Done(t)
    ensures Inv(rest, t) && MoneyOnly(s, t) && Cushion(t.m.funds) >= Cushion(s.m.funds)
    ensures t.p.lastActivity == s.p.lastActivity
  {
    hide Inv;
    hide SetPnl;
    hide SetCapital;
    hide SameExposure;
    var pay := Min(Abs(s.p.pnl), s.p.collateral);
    if s.p.pnl < 0 && pay != 0 {
      var s1 := SetCapital(s, s.p.collateral - pay).value;
      SetCapitalKeeps(rest, s, s.p.collateral - pay, s1);
      SetPnlKeeps(rest, s1, s.p.pnl + pay, t);
      MoneyOnlyChain(s, s1, t);
    } else {
      MoneyOnlyRefl(s);
    }
  }

  lemma MoneyOnlyRefl(s: Pair)
    ensures MoneyOnly(s, s)
  {
  }

  lemma MoneyOnlyChain(s: Pair, t: Pair, u: Pair)
    requires MoneyOnly(s, t) && MoneyOnly(t, u)
    ensures MoneyOnly(s, u)
  {
  }

  lemma ResolveFlatKeeps(rest: seq<PositionV>, s: Pair, t: Pair)
    requires Inv(rest, s) && ResolveFlatNegative(s) == Done(t)
    ensures Inv(rest, t) && MoneyOnly(s, t) && Cushion(t.m.funds) >= Cushion(s.m.funds)
    ensures t.p.lastActivity == s.p.lastActivity && t.p.collateral == s.p.collateral
    ensures t.p.feeCredits == s.p.feeCredits
  {
    hide Inv;
    hide SetPnl;
    hide UseInsurance;
    hide EffectiveQ;
    var eff := EffectiveQ(s.p, s.m).value;
    if eff == 0 && s.p.pnl < 0 {
      var f := UseInsurance(s.m.funds, Abs(s.p.pnl));
      InsuranceDraw(s.m.funds, Abs(s.p.pnl));
      FundsFrame(rest, s, f);
      SetPnlKeeps(rest, s.(m := s.m.(funds := f)), 0, t);
    }
  }

  /** A haircut share of `x <= matured` is at most the residual. */
  lemma ShareBound(x: nat, num: nat, den: nat)
    requires 0 < den && x <= den && num <= den
    ensures (x * num) / den <= num && (x * num) / den <= x
  {
    MulMono(x, den, num);
    MulMono(num, den, x);
    DivAtMost(x * num, den, num);
    DivAtMost(x * num, den, x);
  }

  /** The payout of a conversion never exceeds the residual of the vault. */
  lemma PayoutBound(rest: seq<PositionV>, s: Pair, y: u128)
    requires Inv(rest, s) && ReleasedPos(s.p) > 0 && Payout(s.m.funds, ReleasedPos(s.p)) == Done(y)
    ensures y <= Residual(s.m.funds) && y <= ReleasedPos(s.p) <= s.m.funds.matured
  {
    RestBounds(rest, s.m);
    var f := s.m.funds;
    assert ReleasedPos(s.p) <= f.matured;
    ShareBound(ReleasedPos(s.p), Min(Residual(f), f.matured), f.matured);
  }

  lemma ConsumeKeeps(rest: seq<PositionV>, s: Pair, x: u128, t: Pair)
    requires Inv(rest, s) && ConsumeReleased(s, x) == Done(t)
    ensures Inv(rest, t) && MoneyOnly(s, t) && t.p == s.p.(pnl := s.p.pnl - x)
    ensures t.m == s.m.(funds := s.m.funds.(pnlPos := s.m.funds.pnlPos - x, matured := s.m.funds.matured - x))
  {
    MoneyFrame(rest, s, t);
  }

  lemma ConvertKeeps(rest: seq<PositionV>, s: Pair, t: Pair)
    requires Inv(rest, s) && ConvertProfit(s) == Done(t)
    ensures Inv(rest, t) && MoneyOnly(s, t)
    ensures Cushion(s.m.funds) >= 0 ==> Cushion(t.m.funds) >= 0
    ensures t.p.lastActivity == s.p.lastActivity && t.p.feeCredits == s.p.feeCredits
  {
    hide Inv;
    hide SameExposure;
    hide ConsumeReleased;
    hide SetCapital;
    hide Payout;
    hide Residual;
    hide ReleasedPos;
    var x := ReleasedPos(s.p);
    if x > 0 {
      var y := Payout(s.m.funds, x).value;
      PayoutBound(rest, s, y);
      var s1 := ConsumeReleased(s, x).value;
      ConsumeKeeps(rest, s, x, s1);
      var s2 := SetCapital(s1, s1.p.collateral + y).value;
      SetCapitalKeeps(rest, s1, s1.p.collateral + y, s2);
      MoneyOnlyChain(s, s1, s2);
      ResidualIsCushion(s.m.funds);
      if s2.p.reserved == 0 {
        WarmupClock(rest, s2, t);
        MoneyOnlyChain(s, s2, t);
      }
    } else {
      MoneyOnlyRefl(s);
    }
  }

  lemma ResidualIsCushion(f: Funds)
    ensures Residual(f) == Max(Cushion(f), 0)
  {
  }

  lemma SweepKeeps(rest: seq<PositionV>, s: Pair, t: Pair)
    requires Inv(rest, s) && SweepFeeDebt(s) == Done(t)
    ensures Inv(rest, t) && MoneyOnly(s, t) && Cushion(t.m.funds) >= Cushion(s.m.funds)
    ensures t.p.lastActivity == s.p.lastActivity
  {
    hide Inv;
    hide SetCapital;
    hide SameExposure;
    hide CreditInsurance;
    var pay := Min(FeeDebt(s.p.feeCredits), s.p.collateral);
    if pay > 0 {
      var s1 := SetCapital(s, s.p.collateral - pay).value;
      SetCapitalKeeps(rest, s, s.p.collateral - pay, s1);
      InsuranceCredit(s1.m.funds, pay);
      var s2 := s1.(m := s1.m.(funds := CreditInsurance(s1.m.funds, pay)));
      FundsFrame(rest, s1, s2.m.funds);
      CreditsFrame(rest, s2, t);
      MoneyOnlyChain(s, s1, s2);
      MoneyOnlyChain(s, s2, t);
    } else {
      MoneyOnlyRefl(s);
    }
  }

  /** Fee credits are no part of any total. */
  lemma CreditsFrame(rest: seq<PositionV>, s: Pair, t: Pair)
    requires Inv(rest, s) && t == s.(p := s.p.(feeCredits := t.p.feeCredits))
    ensures Inv(rest, t) && MoneyOnly(s, t)
  {
    MoneyFrame(rest, s, t);
  }

  // ---------------------------------------------------------------------------
  // Rewards
  // ---------------------------------------------------------------------------

  /** What a claim credits, in accumulator units, is covered by what it stops owing. */
  lemma ClaimCovered(delta: nat, size: nat)
    ensures 0 <= delta * size
    ensures REWARD_PRECISION * ((delta * size) / REWARD_PRECISION) <= size * delta
  {
    MulPos(delta, size);
    DivMod(delta * size, REWARD_PRECISION);
  }

  lemma ClaimMeasures(p: PositionV, q: PositionV, side: Side, epoch: int)
    requires q == p.(collateral := q.collateral, rewardsClaimed := q.rewardsClaimed, rewardSnap := q.rewardSnap)
    ensures Of(StoredOn(side), p) == Of(StoredOn(side), q) && Of(StaleOn(side, epoch), p) == Of(StaleOn(side, epoch), q)
    ensures Of(BaseOn(side), p) == Of(BaseOn(side), q) && Weight(side, epoch, p) == Weight(side, epoch, q)
  {
  }

  lemma ClaimBook(side: Side, rest: seq<PositionV>, p: PositionV, q: PositionV, b: Book)
    requires BookOk(side, rest, p, b)
    requires q == p.(collateral := q.collateral, rewardsClaimed := q.rewardsClaimed, rewardSnap := q.rewardSnap)
    ensures BookOk(side, rest, q, b)
  {
    ClaimMeasures(p, q, side, b.epoch);
    assert Owned(side, rest, p, b) == Owned(side, rest, q, b);
    hide Of;
    hide Weight;
    hide Owned;
  }

  lemma ClaimReward(side: Side, rest: seq<PositionV>, s: Pair, t: Pair)
    requires RewardOk(side, rest, s.p, s.m.Side(side), s.m.history) && SettleRewards(s) == Done(t)
    requires s.p.baseSize != 0 && SideOf(s.p.baseSize) == side && s.p.rewardSnap <= s.m.Side(side).acc
    ensures RewardOk(side, rest, t.p, t.m.Side(side), t.m.history)
  {
    var acc := s.m.Side(side).acc;
    var reward := PendingReward(s.p, s.m);
    ClaimCovered(acc - s.p.rewardSnap, Abs(s.p.baseSize));
    assert t.m.Side(side) == s.m.Side(side) && t.m.history == s.m.history.AddPaid(side, reward);
    assert Of(OwedOn(side, acc), t.p) == 0 by { assert t.p.rewardSnap == acc; }
    assert Of(OwedOn(side, acc), s.p) == Abs(s.p.baseSize) * (acc - s.p.rewardSnap);
    assert t.m.history.Paid(side) == s.m.history.Paid(side) + reward;
    hide SettleRewards;
    hide Of;
  }

  lemma SettleRewardsSide(side: Side, rest: seq<PositionV>, s: Pair, t: Pair)
    requires Inv(rest, s) && SettleRewards(s) == Done(t)
    ensures SideOk(side, rest, t)
  {
    var p, b := s.p, s.m.Side(side);
    assert t.m.Side(side) == b;
    assert SideOk(side, rest, s);
    ClaimBook(side, rest, p, t.p, b);
    if p.baseSize != 0 && SideOf(p.baseSize) == side {
      ClaimReward(side, rest, s, t);
    } else {
      assert BaseSizeOn(p, side) == BaseSizeOn(t.p, side) == 0;
      assert t.m.history.Paid(side) == s.m.history.Paid(side);
      assert t.m.history.Distributed(side) == s.m.history.Distributed(side);
      hide BookOk;
    }
  }

  lemma SettleRewardsKeeps(rest: seq<PositionV>, s: Pair, t: Pair)
    requires Inv(rest, s) && SettleRewards(s) == Done(t)
    ensures Inv(rest, t)
    ensures t.p == s.p.(collateral := t.p.collateral, rewardsClaimed := t.p.rewardsClaimed,
            rewardSnap := t.p.rewardSnap)
    ensures t.m == s.m.(funds := s.m.funds.(cTot := t.m.funds.cTot), history := t.m.history)
    ensures t.p.collateral == s.p.collateral + PendingReward(s.p, s.m)
    ensures Cushion(t.m.funds) == Cushion(s.m.funds) - PendingReward(s.p, s.m)
    ensures t.p.baseSize != 0 ==> t.p.rewardSnap == t.m.Side(SideOf(t.p.baseSize)).acc
  {
    SettleRewardsSide(Long, rest, s, t);
    SettleRewardsSide(Short, rest, s, t);
    hide SideOk;
    hide Vamm.OnCurve;
    AllOkAdvances(rest, s.m, t.m);
  }

  // ---------------------------------------------------------------------------
  // Leaving a side
  // ---------------------------------------------------------------------------

  lemma RealFloor(n: nat, d: nat)
    requires d > 0
    ensures (n / d) as real <= (n as real) / (d as real) < (n / d) as real + 1.0
    ensures n % d == 0 ==> (n as real) / (d as real) == (n / d) as real
  {
    DivMod(n, d);
    var q, r := n / d, n % d;
    RealSplit(q, d, r);
  }

  lemma RealSplit(q: nat, d: nat, r: nat)
    requires r < d
    ensures ((q * d + r) as real) / (d as real) == q as real + (r as real) / (d as real)
    ensures 0.0 <= (r as real) / (d as real) < 1.0
  {
    assert ((q * d) as real) == (q as real) * (d as real);
  }

  /** The effective size of an account: the floor of the real number it owns. */
  lemma OwnedFloor(side: Side, p: PositionV, b: Book)
    requires Holds(p, side) && p.epochSnap == b.epoch && p.aSnap > 0
    ensures var n := Abs(p.basis) * b.a;
            n >= 0 && (n / p.aSnap) as real <= Share(side, p, b) < (n / p.aSnap) as real + 1.0
            && (n % p.aSnap == 0 ==> Share(side, p, b) == (n / p.aSnap) as real)
  {
    MulPos(Abs(p.basis), b.a);
    RealFloor(Abs(p.basis) * b.a, p.aSnap);
    ProductOverSnap(Abs(p.basis), b.a, p.aSnap);
  }

  lemma ProductOverSnap(basis: nat, a: nat, snap: nat)
    requires snap > 0
    ensures (a as real) * ((basis as real) / (snap as real)) == ((basis * a) as real) / (snap as real)
  {
    assert (basis * a) as real == (basis as real) * (a as real);
  }

  ghost predicate Gone(p: PositionV) {
    p.basis == 0 && p.baseSize == 0
  }

  lemma GoneMeasures(p: PositionV, side: Side, epoch: int, acc: int)
    requires Gone(p)
    ensures Of(StoredOn(side), p) == Of(StaleOn(side, epoch), p) == Of(BaseOn(side), p) == 0
    ensures Of(OwedOn(side, acc), p) == 0 && Weight(side, epoch, p) == 0.0
  {
  }

  /** The book of a side after one of its accounts has left it. */
  ghost predicate LeftBook(p: PositionV, b: Book, c: Book) {
    && b.stored > 0
    && c == b.(stored := b.stored - 1, total := SatSub(b.total, Abs(p.baseSize)),
               stale := if p.epochSnap != b.epoch && b.stale > 0 then b.stale - 1 else b.stale,
               dust := if p.epochSnap == b.epoch then SatAddU128(b.dust, 1) else b.dust)
  }

  lemma LeaveCounted(side: Side, rest: seq<PositionV>, p: PositionV, b: Book, q: PositionV, c: Book)
    requires Counted(side, rest, p, b) && Shape(p) && Holds(p, side) && Gone(q) && LeftBook(p, b, c)
    ensures Counted(side, rest, q, c)
  {
    SumNonNegative(StaleOn(side, b.epoch), rest);
    SumNonNegative(BaseOn(side), rest);
    GoneMeasures(q, side, b.epoch, 0);
  }

  /** Releasing less than one unit of ownership costs one unit of dust. */
  lemma CoverShift(oi: u128, dust: u128, owned: real, share: real)
    requires 0.0 <= (oi as real) - owned <= dust as real && 0.0 <= share <= 1.0 && 0.0 <= owned - share
    ensures 0.0 <= (oi as real) - (owned - share) <= SatAddU128(dust, 1) as real
    ensures share == 0.0 ==> (oi as real) - (owned - share) <= dust as real
  {
  }

  lemma OwnedNonNegative(side: Side, rest: seq<PositionV>, p: PositionV, b: Book)
    ensures 0.0 <= Share(side, p, b) && 0.0 <= RestShare(side, rest, b)
  {
    WeightNonNegative(side, b.epoch, p);
    SumWeightNonNegative(side, b.epoch, rest);
    RealProduct(b.a as real, Weight(side, b.epoch, p));
    RealProduct(b.a as real, SumWeight(side, b.epoch, rest));
  }

  lemma RealProduct(x: real, y: real)
    requires 0.0 <= x && 0.0 <= y
    ensures 0.0 <= x * y
  {
  }

  lemma LeaveCovered(side: Side, rest: seq<PositionV>, p: PositionV, b: Book, q: PositionV, c: Book)
    requires Covered(side, rest, p, b) && Shape(p) && Holds(p, side) && Gone(q) && LeftBook(p, b, c)
    requires p.epochSnap == b.epoch ==> (Abs(p.basis) * b.a) / p.aSnap == 0
    ensures Covered(side, rest, q, c)
  {
    assert Share(side, p, b) < 1.0 && (p.epochSnap != b.epoch ==> Share(side, p, b) == 0.0) by {
      if p.epochSnap == b.epoch { OwnedFloor(side, p, b); }
    }
    GoneMeasures(q, side, b.epoch, 0);
    assert Share(side, q, c) == 0.0;
    OwnedNonNegative(side, rest, p, b);
    assert RestShare(side, rest, c) == RestShare(side, rest, b);
    hide Share;
    hide RestShare;
    hide Shape;
    if Sandwich(side, rest, p, b) {
      CoverShift(b.oi, b.dust, Owned(side, rest, p, b), Share(side, p, b));
    }
  }

  lemma LeaveSide(side: Side, rest: seq<PositionV>, p: PositionV, b: Book, q: PositionV, c: Book, h: History)
    requires BookOk(side, rest, p, b) && RewardOk(side, rest, p, b, h)
    requires Shape(p) && Fits(p, b) && Holds(p, side) && Gone(q) && LeftBook(p, b, c)
    requires p.epochSnap == b.epoch ==> (Abs(p.basis) * b.a) / p.aSnap == 0
    ensures BookOk(side, rest, q, c) && RewardOk(side, rest, q, c, h)
  {
    LeaveCounted(side, rest, p, b, q, c);
    LeaveCovered(side, rest, p, b, q, c);
    GoneMeasures(q, side, b.epoch, b.acc);
    MulPos(BaseSizeOn(p, side), b.acc - p.rewardSnap);
    hide Counted;
    hide Covered;
  }

  /** The other side does not notice. */
  lemma OtherSide(side: Side, rest: seq<PositionV>, p: PositionV, b: Book, q: PositionV, h: History)
    requires BookOk(side, rest, p, b) && RewardOk(side, rest, p, b, h)
    requires Shape(p) && p.basis != 0 && SideOf(p.basis) != side && Gone(q)
    ensures BookOk(side, rest, q, b) && RewardOk(side, rest, q, b, h)
  {
    GoneMeasures(q, side, b.epoch, b.acc);
    assert Of(StoredOn(side), p) == Of(StaleOn(side, b.epoch), p) == Of(BaseOn(side), p) == 0;
    assert Of(OwedOn(side, b.acc), p) == 0 && Weight(side, b.epoch, p) == 0.0;
    hide Of;
    hide Weight;
  }

  /** An account with an effective size of zero, or of an earlier epoch, leaves its side. */
  lemma LeaveKeeps(rest: seq<PositionV>, s: Pair, side: Side, t: Pair)
    requires Inv(rest, s) && Holds(s.p, side)
    requires s.p.epochSnap == s.m.Side(side).epoch ==> (Abs(s.p.basis) * s.m.Side(side).a) / s.p.aSnap == 0
    requires LeftBook(s.p, s.m.Side(side), t.m.Side(side)) && t.m == s.m.With(side, t.m.Side(side))
    requires Gone(t.p) && t.p == s.p.(basis := 0, baseSize := 0, quoteEntry := t.p.quoteEntry, aSnap := ADL_ONE,
                                     kSnap := t.p.kSnap, epochSnap := t.p.epochSnap)
    ensures Inv(rest, t)
  {
    var opp := side.Opposite();
    assert SideOk(side, rest, s) && SideOk(opp, rest, s);
    assert Fits(s.p, s.m.Side(side));
    LeaveSide(side, rest, s.p, s.m.Side(side), t.p, t.m.Side(side), s.m.history);
    OtherSide(opp, rest, s.p, s.m.Side(opp), t.p, s.m.history);
    hide BookOk;
    hide RewardOk;
    hide Vamm.OnCurve;
    assert t.m.Side(opp) == s.m.Side(opp);
    assert SideOk(side, rest, t) && SideOk(opp, rest, t);
    AllOkAdvances(rest, s.m, t.m);
  }

  // ---------------------------------------------------------------------------
  // Settlement
  // ---------------------------------------------------------------------------

  lemma LeaveForm(s: Pair, side: Side, dust: nat, t: Pair, epoch: u64)
    requires Holds(s.p, side) && Shape(s.p) && dust <= 1
    requires var b := s.m.Side(side);
             SetBasis(s.(m := s.m.With(side, if dust == 1 then AddDust(b, 1) else b)), 0) == Done(t)
    ensures var u := Detached(ClearBase(t), epoch);
            var b, c := s.m.Side(side), u.m.Side(side);
            && b.stored > 0 && u.m == s.m.With(side, c)
            && c == b.(stored := b.stored - 1, total := SatSub(b.total, Abs(s.p.baseSize)),
                       dust := if dust == 1 then SatAddU128(b.dust, 1) else b.dust)
            && u.p == s.p.(basis := 0, baseSize := 0, quoteEntry := u.p.quoteEntry, aSnap := ADL_ONE, kSnap := 0,
                           epochSnap := epoch)
  {
  }

  /** What settlement leaves of the rest of the market. */
  ghost predicate Settled(s: Pair, t: Pair) {
    && t.m.long == s.m.long.(stored := t.m.long.stored, stale := t.m.long.stale, total := t.m.long.total,
      dust := t.m.long.dust)
    && t.m.short == s.m.short.(stored := t.m.short.stored, stale := t.m.short.stale, total := t.m.short.total,
      dust := t.m.short.dust)
    && t.m == s.m.(long := t.m.long, short := t.m.short, funds := t.m.funds, history := t.m.history)
    && t.p.lastActivity == s.p.lastActivity
  }

  lemma SettledStage(s: Pair, t: Pair)
    requires Settled(s, t)
    ensures Stage(s.m, t.m)
  {
    StageSame(s.m, t.m);
    hide Stage;
  }

  lemma SettledChain(s: Pair, t: Pair, u: Pair)
    requires Settled(s, t) && Settled(t, u)
    ensures Settled(s, u)
  {
  }

  lemma MoneySettled(s: Pair, t: Pair)
    requires MoneyOnly(s, t) && t.p.lastActivity == s.p.lastActivity
    ensures Settled(s, t)
  {
  }

  lemma SettleCurrentKeeps(rest: seq<PositionV>, s: Pair, side: Side, t: Pair)
    requires Inv(rest, s) && Holds(s.p, side) && s.p.epochSnap == s.m.Side(side).epoch
    requires SettleCurrent(s, side) == Done(t)
    ensures Inv(rest, t) && Settled(s, t) && Cushion(t.m.funds) == Cushion(s.m.funds)
    ensures t.m.history == s.m.history
    ensures if (Abs(s.p.basis) * s.m.Side(side).a) / s.p.aSnap == 0 then Gone(t.p) else SameExposure(s.p, t.p)
  {
    hide Inv;
    hide SetPnl;
    hide RestartWarmup;
    hide KPairFloor;
    hide SetBasis;
    var book := s.m.Side(side);
    assert Shape(s.p) by { InvShape(rest, s); }
    var delta := KPairFloor(Abs(s.p.basis), book.k, s.p.kSnap, s.p.aSnap * POS_SCALE).value;
    var s1 := SetPnl(s, s.p.pnl + delta).value;
    SetPnlKeeps(rest, s, s.p.pnl + delta, s1);
    InvShape(rest, s1);
    MoneySettled(s, s1);
    var size := MulDivFloor(Abs(s.p.basis), book.a, s.p.aSnap).value;
    if size == 0 {
      var u := SetBasis(s1.(m := s1.m.With(side, AddDust(book, 1))), 0).value;
      LeaveForm(s1, side, 1, u, book.epoch);
      var s2 := Detached(ClearBase(u), book.epoch);
      LeaveKeeps(rest, s1, side, s2);
      SettleTail(rest, s1, s2, s.p.reserved, t);
    } else {
      var s2 := s1.(p := s1.p.(kSnap := book.k, epochSnap := book.epoch));
      KSnapKeeps(rest, s1, s2);
      SettleTail(rest, s1, s2, s.p.reserved, t);
    }
    SettledChain(s, s1, t);
  }

  lemma InvShape(rest: seq<PositionV>, s: Pair)
    requires Inv(rest, s)
    ensures Shape(s.p) && FitsMarket(s.p, s.m) && s.p.warmupStart <= s.m.feed.currentSlot
  {
  }

  lemma KSnapKeeps(rest: seq<PositionV>, s: Pair, t: Pair)
    requires Inv(rest, s) && t == s.(p := s.p.(kSnap := t.p.kSnap))
    ensures Inv(rest, t) && MoneyOnly(s, t)
  {
    MoneyFrame(rest, s, t);
  }

  lemma SettleTail(rest: seq<PositionV>, s: Pair, s2: Pair, oldReserved: u128, t: Pair)
    requires Inv(rest, s2) && Settled(s, s2) && RestartIfRaised(s2, oldReserved) == Done(t)
    ensures Inv(rest, t) && Settled(s, t) && Cushion(t.m.funds) == Cushion(s2.m.funds)
    ensures SameExposure(s2.p, t.p) && t.m.history == s2.m.history
  {
    hide Inv;
    hide RestartWarmup;
    if s2.p.reserved > oldReserved {
      RestartWarmupKeeps(rest, s2, t);
      MoneySettled(s2, t);
      SettledChain(s, s2, t);
    }
  }

  lemma SettleStaleKeeps(rest: seq<PositionV>, s: Pair, side: Side, t: Pair)
    requires Inv(rest, s) && Holds(s.p, side) && s.p.epochSnap != s.m.Side(side).epoch
    requires SettleStale(s, side) == Done(t)
    ensures Inv(rest, t) && Settled(s, t) && Cushion(t.m.funds) == Cushion(s.m.funds)
    ensures t.m.history == s.m.history && Gone(t.p)
  {
    hide Inv;
    hide SetPnl;
    hide RestartWarmup;
    hide StaleDelta;
    hide SetBasis;
    assert Shape(s.p) by { InvShape(rest, s); }
    var delta := StaleDelta(s.p, s.m.Side(side)).value;
    var s1 := SetPnl(s, s.p.pnl + delta).value;
    SetPnlKeeps(rest, s, s.p.pnl + delta, s1);
    InvShape(rest, s1);
    MoneySettled(s, s1);
    assert s1.m.With(side, s1.m.Side(side)) == s1.m;
    var s2 := SetBasis(s1, 0).value;
    var s3 := ClearBase(s2);
    var epoch := s.m.Side(side).epoch;
    LeaveForm(s1, side, 0, s2, epoch);
    var s4 := Detached(s3.(m := s3.m.With(side, CountStaleDown(s3.m.Side(side)))), epoch);
    LeaveKeeps(rest, s1, side, s4);
    SettleTail(rest, s1, s4, s.p.reserved, t);
    SettledChain(s, s1, t);
  }

  /** A settled account with a basis is of the current epoch, owns at least one unit and has claimed its rewards. */
  ghost predicate Current(p: PositionV, m: MarketV) {
    p.basis != 0 ==>
      var b := m.Side(SideOf(p.basis));
      p.epochSnap == b.epoch && p.aSnap > 0 && (Abs(p.basis) * b.a) / p.aSnap > 0 && p.rewardSnap == b.acc
  }

  lemma SettleSideEffectsKeeps(rest: seq<PositionV>, s: Pair, t: Pair)
    requires Inv(rest, s) && SettleSideEffects(s) == Done(t)
    ensures Inv(rest, t) && Settled(s, t) && Current(t.p, t.m)
    ensures Cushion(t.m.funds) == Cushion(s.m.funds) - PendingReward(s.p, s.m)
  {
    hide Inv;
    hide SettleRewards;
    hide SettleCurrent;
    hide SettleStale;
    hide PendingReward;
    var s1 := SettleRewards(s).value;
    SettleRewardsKeeps(rest, s, s1);
    InvShape(rest, s1);
    assert Settled(s, s1);
    if s1.p.basis != 0 {
      var side := SideOf(s1.p.basis);
      if s1.p.epochSnap == s1.m.Side(side).epoch {
        SettleCurrentKeeps(rest, s1, side, t);
        QuotientNonNegative(Abs(s1.p.basis) * s1.m.Side(side).a, s1.p.aSnap);
      } else {
        SettleStaleKeeps(rest, s1, side, t);
      }
      SettledChain(s, s1, t);
    }
  }

  lemma QuotientNonNegative(n: int, d: int)
    requires d > 0
    ensures n >= 0 ==> n / d >= 0
  {
    if n >= 0 {
      DivAtLeast(n, d, 0);
    }
  }

  // ---------------------------------------------------------------------------
  // Accrual
  // ---------------------------------------------------------------------------

  lemma {:induction false} FundingStepsOnlyK(
    payer: Book, receiver: Book, price: u64, absRate: u128, remaining: u64, iterations: nat)
    ensures var r := FundingSteps(payer, receiver, price, absRate, remaining, iterations);
            r.Done? ==> OnlyK(payer, r.value.0) && OnlyK(receiver, r.value.1)
    decreases iterations
  {
    if remaining > 0 && iterations > 0 {
      var dt: u64 := Min(remaining, MAX_FUNDING_DT);
      var step := FundingStep(payer, receiver, price, absRate, dt);
      if step.Done? {
        FundingStepOnlyK(payer, receiver, price, absRate, dt);
        hide FundingStep;
        FundingStepsOnlyK(step.value.0, step.value.1, price, absRate, remaining - dt, iterations - 1);
      }
    }
  }

  /** Accrual moves the PnL indices and the clock, nothing else. */
  lemma AccrueForm(m: MarketV, slot: u64, price: u64, n: MarketV)
    requires Accrue(m, slot, price) == Done(n)
    ensures OnlyK(m.long, n.long) && OnlyK(m.short, n.short)
    ensures n == m.(long := n.long, short := n.short, feed := n.feed)
    ensures n.feed.currentSlot == slot >= m.feed.currentSlot && n.feed.rate == m.feed.rate
  {
    hide FundingSteps;
    hide MulSigned;
    var dt := Min(slot - m.feed.lastMarketSlot, MAX_ACCRUE_DT);
    if dt != 0 {
      var last := if m.feed.lastPrice == 0 then price else m.feed.lastPrice;
      var (l, sh) := Mark(m.long, m.short, price - last).value;
      var px := if m.feed.sample == 0 then price else m.feed.sample;
      FundingStepsOnlyK(l, sh, px, Abs(m.feed.rate), dt, MAX_FUNDING_ITERATIONS);
      FundingStepsOnlyK(sh, l, px, Abs(m.feed.rate), dt, MAX_FUNDING_ITERATIONS);
    }
  }

  lemma OnlyKSide(side: Side, rest: seq<PositionV>, p: PositionV, b: Book, c: Book, h: History)
    requires OnlyK(b, c) && BookOk(side, rest, p, b) && RewardOk(side, rest, p, b, h)
    ensures BookOk(side, rest, p, c) && RewardOk(side, rest, p, c, h)
  {
    hide Of;
    hide Weight;
    assert Share(side, p, b) == Share(side, p, c) && RestShare(side, rest, b) == RestShare(side, rest, c);
    hide Share;
    hide RestShare;
  }

  lemma AccrueKeeps(rest: seq<PositionV>, s: Pair, slot: u64, price: u64, n: MarketV)
    requires Inv(rest, s) && Accrue(s.m, slot, price) == Done(n)
    ensures Inv(rest, s.(m := n)) && n.feed.currentSlot == slot
    ensures Flow(s.m, n, Quote(s.m, slot, price))
    ensures n == s.m.(long := s.m.long.(k := n.long.k), short := s.m.short.(k := n.short.k), feed := n.feed)
  {
    AccrueForm(s.m, slot, price, n);
    AccrueFlow(s.m, slot, price, n);
    hide Accrue;
    hide Flow;
    OnlyKSide(Long, rest, s.p, s.m.long, n.long, s.m.history);
    OnlyKSide(Short, rest, s.p, s.m.short, n.short, s.m.history);
    AllOkAdvances(rest, s.m, n);
    hide BookOk;
    hide RewardOk;
    hide Vamm.OnCurve;
    hide FundsOk;
  }
}
