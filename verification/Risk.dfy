/**
 What each call of the risk engine computes, as functions on account values.
 `Abort` stands for every `Err`, failed assertion and arithmetic panic.
 The state-changing methods of module `Engine` are verified against these
 functions, and the theorems about all accounts and all runs are about them.
 */
module Risk {
  import opened Numbers
  import opened FixedPoint
  import opened State
  import Vamm

  // ---------------------------------------------------------------------------
  // Aggregates
  // ---------------------------------------------------------------------------

  /** The reserve that goes with a new PnL: gains are reserved, losses eat the reserve first. */
  function ReserveAfter(oldPos: nat, reserved: nat, newPos: nat): nat {
    if newPos > oldPos then reserved + (newPos - oldPos) else SatSub(reserved, oldPos - newPos)
  }

  /** The totals of positive and of matured PnL after a change of either. */
  function ProfitTotals(f: Funds, profit: int, released: int): Outcome<(u128, u128)> {
    var pnlPos :- CheckU128(f.pnlPos + profit);
    var matured :- CheckU128(f.matured + released);
    var _ :- Require(pnlPos <= MAX_PNL_POS_TOT && matured <= pnlPos);
    Done((pnlPos, matured))
  }

  function SetPnl(s: Pair, newPnl: i128): Outcome<Pair> {
    var oldPos, newPos := PosPart(s.p.pnl), PosPart(newPnl);
    var newR := ReserveAfter(oldPos, s.p.reserved, newPos);
    var _ :- Require(newPnl != -TWO127 && s.p.reserved <= oldPos && newPos <= MAX_ACCOUNT_POSITIVE_PNL
      && newR <= newPos);
    var (pnlPos, matured) :- ProfitTotals(s.m.funds, newPos - oldPos, (newPos - newR) - (oldPos - s.p.reserved));
    Done(Pair(s.p.(pnl := newPnl, reserved := newR),
              s.m.(funds := s.m.funds.(pnlPos := pnlPos, matured := matured))))
  }

  function SetReserved(s: Pair, newR: u128): Outcome<Pair> {
    var pos := PosPart(s.p.pnl);
    var _ :- Require(newR <= pos && s.p.reserved <= pos);
    var matured :- CheckU128(s.m.funds.matured + s.p.reserved - newR);
    var _ :- Require(matured <= s.m.funds.pnlPos);
    Done(Pair(s.p.(reserved := newR), s.m.(funds := s.m.funds.(matured := matured))))
  }

  /** Take `x` of released profit out of the account, leaving its reserve alone. */
  function ConsumeReleased(s: Pair, x: u128): Outcome<Pair> {
    var _ :- Require(0 < x <= ReleasedPos(s.p));
    var pnlPos :- CheckU128(s.m.funds.pnlPos - x);
    var matured :- CheckU128(s.m.funds.matured - x);
    var _ :- Require(matured <= pnlPos && x <= I128_MAX);
    var pnl :- CheckI128(s.p.pnl - x);
    var _ :- Require(pnl != -TWO127);
    Done(Pair(s.p.(pnl := pnl), s.m.(funds := s.m.funds.(pnlPos := pnlPos, matured := matured))))
  }

  function SetCapital(s: Pair, capital: u128): Outcome<Pair> {
    var cTot :- CheckU128(s.m.funds.cTot + capital - s.p.collateral);
    var c :- CheckU64(capital);
    Done(Pair(s.p.(collateral := c), s.m.(funds := s.m.funds.(cTot := cTot))))
  }

  function CountDown(b: Book): Outcome<Book> {
    var stored :- CheckU64(b.stored - 1);
    Done(b.(stored := stored))
  }

  function CountUp(b: Book): Outcome<Book> {
    var stored :- CheckU64(b.stored + 1);
    Done(b.(stored := stored))
  }

  /** Change the basis, keeping the number of stored positions of each side. */
  function SetBasis(s: Pair, basis: i128): Outcome<Pair> {
    var m1 :- if s.p.basis == 0 then Done(s.m)
              else
                var b :- CountDown(s.m.Side(SideOf(s.p.basis)));
                Done(s.m.With(SideOf(s.p.basis), b));
    var m2 :- if basis == 0 then Done(m1)
              else
                var b :- CountUp(m1.Side(SideOf(basis)));
                Done(m1.With(SideOf(basis), b));
    Done(Pair(s.p.(basis := basis), m2))
  }

  // ---------------------------------------------------------------------------
  // Haircut and equity
  // ---------------------------------------------------------------------------

  function ReleasedPos(p: PositionV): u128 {
    SatSub(PosPart(p.pnl), p.reserved)
  }

  /** Claims that come before matured profit. */
  function Senior(f: Funds): nat {
    f.cTot + f.insurance + f.creatorFees + f.protocolFees
  }

  function Residual(f: Funds): nat {
    if Senior(f) <= U128_MAX && Senior(f) <= f.vault then f.vault - Senior(f) else 0
  }

  /** The share of matured profit that the vault can pay, as numerator and denominator. */
  function HaircutRatio(f: Funds): (u128, u128) {
    if f.matured == 0 then (1, 1) else (Min(Residual(f), f.matured), f.matured)
  }

  function EffectiveMatured(f: Funds, p: PositionV): Outcome<u128> {
    var released := ReleasedPos(p);
    if released == 0 then Done(0)
    else var (num, den) := HaircutRatio(f); WideMulDivFloor(released, num, den)
  }

  /** A 256-bit equity narrowed to 128 bits; the negative bound is `MIN + 1`. */
  function Narrow(equity: int): i128 {
    if equity > I128_MAX then I128_MAX else if equity < -TWO127 then -I128_MAX else equity
  }

  function EquityMaintRaw(p: PositionV): i128 {
    Narrow(p.collateral + p.pnl - FeeDebt(p.feeCredits))
  }

  function EquityInitRaw(f: Funds, p: PositionV): Outcome<i128> {
    var matured :- EffectiveMatured(f, p);
    Done(Narrow(p.collateral + Min(p.pnl, 0) + matured - FeeDebt(p.feeCredits)))
  }

  function CheckConservation(f: Funds): bool {
    Senior(f) <= U128_MAX && f.vault >= Senior(f)
  }

  // ---------------------------------------------------------------------------
  // Effective positions
  // ---------------------------------------------------------------------------

  /** The position after all size cuts of its side; zero once its epoch is over. */
  function EffectiveQ(p: PositionV, m: MarketV): Outcome<i128> {
    if p.basis == 0 then Done(0)
    else
      var book := m.Side(SideOf(p.basis));
      if p.epochSnap != book.epoch || p.aSnap == 0 then Done(0)
      else
        var size :- MulDivFloor(Abs(p.basis), book.a, p.aSnap);
        if p.basis < 0 && size == 0 then Done(0)
        else
          var _ :- Require(size <= I128_MAX);
          Done(if p.basis < 0 then 0 - size else size)
  }

  function NotionalOf(p: PositionV, m: MarketV, price: u64): Outcome<u128> {
    var eff :- EffectiveQ(p, m);
    if eff == 0 then Done(0) else MulDivFloor(Abs(eff), price, POS_SCALE)
  }

  // ---------------------------------------------------------------------------
  // Settlement
  // ---------------------------------------------------------------------------

  /** The liquidation reward an account can claim. */
  function PendingReward(p: PositionV, m: MarketV): nat {
    if p.baseSize == 0 then 0
    else
      MulPos(SatSub(m.Side(SideOf(p.baseSize)).acc, p.rewardSnap), Abs(p.baseSize));
      (SatSub(m.Side(SideOf(p.baseSize)).acc, p.rewardSnap) * Abs(p.baseSize)) / REWARD_PRECISION
  }

  function SettleRewards(s: Pair): Outcome<Pair> {
    if s.p.baseSize == 0 then Done(s)
    else
      var side := SideOf(s.p.baseSize);
      var acc := s.m.Side(side).acc;
      var _ :- CheckU128(SatSub(acc, s.p.rewardSnap) * Abs(s.p.baseSize));
      var reward := PendingReward(s.p, s.m);
      var collateral :- CheckU64(s.p.collateral + reward);
      var claimed :- CheckU64(s.p.rewardsClaimed + reward);
      var cTot :- CheckU128(s.m.funds.cTot + reward);
      Done(Pair(s.p.(collateral := collateral, rewardsClaimed := claimed, rewardSnap := acc),
                s.m.(funds := s.m.funds.(cTot := cTot), history := s.m.history.AddPaid(side, reward))))
  }

  /** Clear the raw size of a position whose effective size is gone. */
  function ClearBase(s: Pair): Pair {
    if s.p.baseSize == 0 then s
    else
      var side := SideOf(s.p.baseSize);
      var book := s.m.Side(side);
      Pair(s.p.(baseSize := 0, quoteEntry := 0),
           s.m.With(side, book.(total := SatSub(book.total, Abs(s.p.baseSize)))))
  }

  /** Book a PnL change. */
  function AddPnl(s: Pair, delta: i128): Outcome<Pair> {
    var pnl :- CheckI128(s.p.pnl + delta);
    SetPnl(s, pnl)
  }

  /** Restart the warmup if a booked PnL change has raised the reserve. */
  function RestartIfRaised(s: Pair, oldReserved: u128): Outcome<Pair> {
    if s.p.reserved > oldReserved then RestartWarmup(s) else Done(s)
  }

  function Detached(s: Pair, epoch: u64): Pair {
    s.(p := s.p.(aSnap := ADL_ONE, kSnap := 0, epochSnap := epoch))
  }

  function AddDust(b: Book, amount: u128): Book {
    b.(dust := SatAddU128(b.dust, amount))
  }

  /** Take a new snapshot of the PnL index; a position that has shrunk to nothing leaves its side. */
  function Resnapshot(s: Pair, side: Side): Outcome<Pair> {
    var book := s.m.Side(side);
    var size :- MulDivFloor(Abs(s.p.basis), book.a, s.p.aSnap);
    if size == 0 then
      var t :- SetBasis(s.(m := s.m.With(side, AddDust(book, 1))), 0);
      Done(Detached(ClearBase(t), book.epoch))
    else Done(s.(p := s.p.(kSnap := book.k, epochSnap := book.epoch)))
  }

  /** Settlement of a position of the current epoch. */
  function SettleCurrent(s: Pair, side: Side): Outcome<Pair> {
    var book := s.m.Side(side);
    var den :- CheckU128(s.p.aSnap * POS_SCALE);
    var delta :- KPairFloor(Abs(s.p.basis), book.k, s.p.kSnap, den);
    var s1 :- AddPnl(s, delta);
    var s2 :- Resnapshot(s1, side);
    RestartIfRaised(s2, s.p.reserved)
  }

  /** The PnL still due to a position of an earlier epoch: exact for the previous epoch, none for older ones. */
  function StaleDelta(p: PositionV, book: Book): Outcome<i128> {
    if p.epochSnap + 1 == book.epoch then
      var den :- CheckU128(p.aSnap * POS_SCALE);
      KPairFloor(Abs(p.basis), book.epochStartK, p.kSnap, den)
    else Done(0)
  }

  function CountStaleDown(b: Book): Book {
    if b.stale > 0 then b.(stale := b.stale - 1) else b
  }

  /** A stale position leaves its side. */
  function LeaveStale(s: Pair, side: Side): Outcome<Pair> {
    var t :- SetBasis(s, 0);
    var u := ClearBase(t);
    var book := u.m.Side(side);
    Done(Detached(u.(m := u.m.With(side, CountStaleDown(book))), book.epoch))
  }

  /** Settlement of a position left over from an earlier epoch. */
  function SettleStale(s: Pair, side: Side): Outcome<Pair> {
    var delta :- StaleDelta(s.p, s.m.Side(side));
    var s1 :- AddPnl(s, delta);
    var s2 :- LeaveStale(s1, side);
    RestartIfRaised(s2, s.p.reserved)
  }

  function SettleSideEffects(s: Pair): Outcome<Pair> {
    var s1 :- SettleRewards(s);
    if s1.p.basis == 0 then Done(s1)
    else
      var side := SideOf(s1.p.basis);
      if s1.p.aSnap == 0 then Abort
      else if s1.p.epochSnap == s1.m.Side(side).epoch then SettleCurrent(s1, side)
      else SettleStale(s1, side)
  }

  // ---------------------------------------------------------------------------
  // Market accrual
  // ---------------------------------------------------------------------------

  const MAX_ACCRUE_DT: int := 1_000_000
  const MAX_FUNDING_DT: int := 65_535
  const MAX_FUNDING_ITERATIONS: int := 50
  const MAX_ABS_FUNDING_BPS_PER_SLOT: int := 10_000
  const FUNDING_RATE_PRECISION: int := 1_000_000

  function AddK(b: Book, delta: int): Outcome<Book> {
    var k :- CheckI128(b.k + delta);
    Done(b.(k := k))
  }

  /** Mark both live sides from one price to another. */
  function Mark(long: Book, short: Book, delta: i128): Outcome<(Book, Book)> {
    var l :- if delta != 0 && long.oi != 0 then
               var dk :- MulSigned(long.a, delta); AddK(long, dk)
             else Done(long);
    var sh :- if delta != 0 && short.oi != 0 then
               var dk :- MulSigned(short.a, delta); AddK(short, 0 - dk)
             else Done(short);
    Done((l, sh))
  }

  /**
   One funding sub-step: the payer's index falls by a rounded-up amount, the receiver's rises by a
   rounded-down one.
   */
  function FundingStep(payer: Book, receiver: Book, price: u64, absRate: u128, dt: u64): Outcome<(Book, Book)> {
    var x :- CheckU128(price * absRate);
    var raw :- CheckU128(x * dt);
    var term: u128 := raw / FUNDING_RATE_PRECISION;
    if term == 0 then Done((payer, receiver))
    else
      var paid :- MulDivCeil(payer.a, term, 10_000);
      var _ :- Require(paid <= I128_MAX);
      var payer' :- AddK(payer, 0 - paid);
      var received :- MulDivFloor(paid, receiver.a, payer.a);
      var _ :- Require(received <= I128_MAX);
      var receiver' :- AddK(receiver, received);
      Done((payer', receiver'))
  }

  /** The sub-steps of an interval, at most `iterations` of them; also returns the slots left over. */
  function FundingSteps(payer: Book, receiver: Book, price: u64, absRate: u128, remaining: u64, iterations: nat)
    : Outcome<(Book, Book, u64)>
    decreases iterations
  {
    if remaining == 0 || iterations == 0 then Done((payer, receiver, remaining))
    else
      var dt: u64 := Min(remaining, MAX_FUNDING_DT);
      var (payer', receiver') :- FundingStep(payer, receiver, price, absRate, dt);
      FundingSteps(payer', receiver', price, absRate, remaining - dt, iterations - 1)
  }

  /** Sub-steps that move no index only use up slots. */
  function IdleSteps(remaining: u64, iterations: nat): u64
    decreases iterations
  {
    if remaining == 0 || iterations == 0 then remaining
    else IdleSteps(remaining - Min(remaining, MAX_FUNDING_DT), iterations - 1)
  }

  function Funding(long: Book, short: Book, rate: i64, price: u64, dt: u64): Outcome<(Book, Book, u64)> {
    if rate != 0 && long.oi != 0 && short.oi != 0 then
      if rate > 0 then FundingSteps(long, short, price, Abs(rate), dt, MAX_FUNDING_ITERATIONS)
      else
        var (s, l, left) :- FundingSteps(short, long, price, Abs(rate), dt, MAX_FUNDING_ITERATIONS);
        Done((l, s, left))
    else Done((long, short, IdleSteps(dt, MAX_FUNDING_ITERATIONS)))
  }

  function Accrue(m: MarketV, slot: u64, price: u64): Outcome<MarketV> {
    var _ :- Require(0 < price <= MAX_ORACLE_PRICE);
    var _ :- Require(slot >= m.feed.currentSlot && slot >= m.feed.lastMarketSlot);
    var dt: u64 := Min(slot - m.feed.lastMarketSlot, MAX_ACCRUE_DT);
    if dt == 0 && m.feed.lastPrice == price then Done(m.(feed := m.feed.(currentSlot := slot)))
    else
      var last := if m.feed.lastPrice == 0 then price else m.feed.lastPrice;
      var (l, s) :- Mark(m.long, m.short, price - last);
      var feed := m.feed.(currentSlot := slot, lastPrice := price, sample := price);
      if dt == 0 then Done(m.(long := l, short := s, feed := feed))
      else
        var _ :- Require(Abs(m.feed.rate) <= MAX_ABS_FUNDING_BPS_PER_SLOT);
        var px := if m.feed.sample == 0 then price else m.feed.sample;
        var (l', s', left) :- Funding(l, s, m.feed.rate, px, dt);
        Done(m.(long := l', short := s', feed := feed.(lastMarketSlot := SatSub(slot, left))))
  }

  // ---------------------------------------------------------------------------
  // Warmup
  // ---------------------------------------------------------------------------

  function StopWarmup(s: Pair, slot: u64): Pair {
    s.(p := s.p.(warmupSlope := 0, warmupStart := slot))
  }

  function RestartWarmup(s: Pair): Outcome<Pair> {
    var t, slot := s.m.params.warmupPeriod, s.m.feed.currentSlot;
    if t == 0 then
      var s1 :- SetReserved(s, 0);
      Done(StopWarmup(s1, slot))
    else if s.p.reserved == 0 then Done(StopWarmup(s, slot))
    else
      var base := s.p.reserved / t;
      QuotientAtMost(s.p.reserved, t);
      Done(s.(p := s.p.(warmupSlope := if base == 0 then 1 else base, warmupStart := slot)))
  }

  /** What the warmup has released by `slot`. */
  function WarmupRelease(p: PositionV, slot: u64): u128 {
    Min(p.reserved, SatMul(p.warmupSlope, SatSub(slot, p.warmupStart)))
  }

  function AdvanceWarmup(s: Pair, slot: u64): Outcome<Pair> {
    if s.p.reserved == 0 then Done(StopWarmup(s, slot))
    else if s.m.params.warmupPeriod == 0 then
      var s1 :- SetReserved(s, 0);
      Done(StopWarmup(s1, slot))
    else
      var release := WarmupRelease(s.p, slot);
      var s1 :- if release > 0 then SetReserved(s, s.p.reserved - release) else Done(s);
      Done(s1.(p := s1.p.(warmupSlope := if s1.p.reserved == 0 then 0 else s1.p.warmupSlope, warmupStart := slot)))
  }

  /** Release everything at once and forget the warmup. */
  function ResetWarmup(s: Pair): Outcome<Pair> {
    var s1 :- SetReserved(s, 0);
    Done(StopWarmup(s1, 0))
  }

  // ---------------------------------------------------------------------------
  // Attaching a position
  // ---------------------------------------------------------------------------

  /** Whether re-basing the position drops a fraction of a unit. */
  predicate LeavesRemainder(p: PositionV, book: Book) {
    p.basis != 0 && p.epochSnap == book.epoch && p.aSnap != 0 && (Abs(p.basis) * book.a) % p.aSnap != 0
  }

  function OrphanRemainder(p: PositionV, m: MarketV): MarketV {
    var side := SideOf(p.basis);
    if LeavesRemainder(p, m.Side(side)) then m.With(side, AddDust(m.Side(side), 1)) else m
  }

  function Attach(s: Pair, eff: i128): Outcome<Pair> {
    var s1 :- SetBasis(s.(m := OrphanRemainder(s.p, s.m)), eff);
    if eff == 0 then
      Done(Detached(s1, if s.p.basis == 0 then 0 else s.m.Side(SideOf(s.p.basis)).epoch))
    else
      var book := s.m.Side(SideOf(eff));
      Done(s1.(p := s1.p.(aSnap := book.a, kSnap := book.k, epochSnap := book.epoch)))
  }

  function SideAllowsIncrease(m: MarketV, side: Side): bool {
    m.Side(side).mode == Normal
  }

  function UpdateOi(m: MarketV, oldEff: i128, newEff: i128): Outcome<MarketV> {
    var m1 :- if oldEff == 0 then Done(m)
              else
                var book := m.Side(SideOf(oldEff));
                var oi :- CheckU128(book.oi - Abs(oldEff));
                Done(m.With(SideOf(oldEff), book.(oi := oi)));
    if newEff == 0 then Done(m1)
    else
      var book := m1.Side(SideOf(newEff));
      var oi :- CheckU128(book.oi + Abs(newEff));
      Done(m1.With(SideOf(newEff), book.(oi := oi)))
  }

  // ---------------------------------------------------------------------------
  // Resets and phantom dust
  // ---------------------------------------------------------------------------

  function ResetBook(b: Book): Outcome<Book> {
    var _ :- Require(b.oi == 0);
    var epoch :- CheckU64(b.epoch + 1);
    Done(b.(epochStartK := b.k, epoch := epoch, a := ADL_ONE, stale := b.stored, dust := 0, mode := ResetPending))
  }

  function BeginReset(m: MarketV, side: Side): Outcome<MarketV> {
    var book :- ResetBook(m.Side(side));
    Done(m.With(side, book).(amm := Vamm.Normalize(m.amm).(lastPegSlot := 0)))
  }

  function BeginResetUnlessPending(m: MarketV, side: Side): Outcome<MarketV> {
    if m.Side(side).mode != ResetPending then BeginReset(m, side) else Done(m)
  }

  function FinalizeBook(b: Book): Book {
    if b.mode == ResetPending && b.oi == 0 then b.(mode := Normal) else b
  }

  function FinalizeReady(m: MarketV): MarketV {
    m.(long := FinalizeBook(m.long), short := FinalizeBook(m.short))
  }

  function DropOi(m: MarketV, side: Side): MarketV {
    m.With(side, m.Side(side).(oi := 0))
  }

  /** Once a side has been emptied, reset the other one too if it is empty or holds only dust. */
  function ClearOpposite(m: MarketV, opp: Side): Outcome<MarketV> {
    var book := m.Side(opp);
    if book.stored == 0 && book.oi <= book.dust then BeginResetUnlessPending(DropOi(m, opp), opp) else Done(m)
  }

  function CheckDust(m: MarketV, side: Side): Outcome<MarketV> {
    var book := m.Side(side);
    if book.oi == 0 then
      if book.mode == DrainOnly then
        var m1 :- BeginReset(m, side);
        Done(FinalizeReady(m1))
      else Done(m)
    else if book.stored > 0 || book.oi > book.dust then Done(m)
    else
      var m1 :- BeginResetUnlessPending(DropOi(m, side), side);
      var m2 :- ClearOpposite(m1, side.Opposite());
      Done(FinalizeReady(m2))
  }

  function ClearPending(m: MarketV, side: Side): Outcome<MarketV> {
    var book := m.Side(side);
    if !book.pending then Done(m)
    else
      var m1 := m.With(side, book.(pending := false));
      if book.oi == 0 then BeginResetUnlessPending(m1, side) else Done(m1)
  }

  function FinalizePending(m: MarketV): Outcome<MarketV> {
    var m1 :- ClearPending(m, Long);
    var m2 :- ClearPending(m1, Short);
    Done(FinalizeReady(m2))
  }

  // ---------------------------------------------------------------------------
  // Insurance and auto-deleveraging
  // ---------------------------------------------------------------------------

  const INSURANCE_EPOCH_CAP_BPS: int := 3_000

  /** What the insurance fund pays towards a loss. */
  function InsurancePay(f: Funds, loss: u128): (pay: u128)
    ensures pay <= loss && pay <= f.insurance
  {
    var available := SatSub(f.insurance, Max(f.insuranceFloor, f.insurance / 5));
    var epochCap := (f.insurance * INSURANCE_EPOCH_CAP_BPS) / 10_000;
    Min(loss, Min(available, SatSub(epochCap, f.epochPayout)))
  }

  /** What it leaves of a loss. */
  function Uncovered(f: Funds, loss: u128): u128 {
    loss - InsurancePay(f, loss)
  }

  function UseInsurance(f: Funds, loss: u128): Funds {
    var pay := InsurancePay(f, loss);
    f.(insurance := f.insurance - pay, epochPayout := SatAddU64(f.epochPayout, pay))
  }

  /** Charge a deficit to a side through its PnL index; an unrepresentable shift is left uncharged. */
  function ChargeDeficit(b: Book, deficit: u128): Outcome<Book> {
    if deficit == 0 || b.oi == 0 then Done(b)
    else
      var scaled :- CheckU128(b.a * POS_SCALE);
      match CeilOrOver(deficit, scaled, b.oi)
      case None => Done(b)
      case Some(shift) => if b.k - shift >= -TWO127 then Done(b.(k := b.k - shift)) else Done(b)
  }

  /** The bound on the open interest orphaned by truncating the size index. */
  function TruncationDust(b: Book): u128
    requires b.a > 0
  {
    QuotientAtMost(b.oi + b.stored, b.a);
    Min(b.stored + CeilDiv(b.oi + b.stored, b.a), U128_MAX)
  }

  function MarkPending(m: MarketV, side: Side): MarketV {
    m.With(side, m.Side(side).(pending := true))
  }

  function MarkPendingIfEmpty(m: MarketV, side: Side): MarketV {
    if m.Side(side).oi == 0 then MarkPending(m, side) else m
  }

  /** Shrink the size index of a side so that `cut` of its open interest disappears. */
  function CutBook(b: Book, cut: u128): Book
    requires cut < b.oi && b.a > 0
  {
    var rest: u128 := b.oi - cut;
    MulPos(b.a, rest);
    CutAtMost(b.a, rest, b.oi);
    var a := (b.a * rest) / b.oi;
    var exact := (b.a * rest) % b.oi == 0;
    b.(a := a, oi := rest,
       dust := if exact then b.dust else SatAddU128(b.dust, TruncationDust(b)),
       mode := if a < MIN_A_SIDE then DrainOnly else b.mode)
  }

  lemma CutAtMost(a: nat, rest: nat, oi: nat)
    requires rest <= oi && oi > 0
    ensures 0 <= (a * rest) / oi <= a
  {
    MulMono(rest, oi, a);
    MulPos(a, rest);
    DivAtMost(a * rest, oi, a);
    DivAtLeast(a * rest, oi, 0);
  }

  /** The opposite side pays the uncovered deficit and gives up the closed size, down to a full drain. */
  function Deleveraged(m: MarketV, liqSide: Side, close: u128, uncovered: u128): Outcome<MarketV> {
    var opp := liqSide.Opposite();
    var charged :- ChargeDeficit(m.Side(opp), uncovered);
    if close >= charged.oi then
      Done(MarkPendingIfEmpty(MarkPending(m.With(opp, charged.(oi := 0)), opp), liqSide))
    else if charged.a == 0 || CutBook(charged, close).a == 0 then
      Done(MarkPending(MarkPending(DropOi(m.With(opp, charged.(oi := 0)), liqSide), opp), liqSide))
    else Done(m.With(opp, CutBook(charged, close)))
  }

  function EnqueueAdl(m: MarketV, liqSide: Side, close: u128, deficit: u128): Outcome<MarketV> {
    var opp := liqSide.Opposite();
    var liqOi :- CheckU128(m.Side(liqSide).oi - close);
    var uncovered := Uncovered(m.funds, deficit);
    var m1 := m.With(liqSide, m.Side(liqSide).(oi := liqOi)).(funds := UseInsurance(m.funds, deficit));
    var book := m1.Side(opp);
    if book.oi == 0 then
      Done(if liqOi == 0 then MarkPending(MarkPending(m1, liqSide), opp) else m1)
    else if book.stored == 0 then
      var oi :- CheckU128(book.oi - close);
      var m2 := m1.With(opp, book.(oi := oi));
      Done(if oi == 0 then MarkPendingIfEmpty(MarkPending(m2, opp), liqSide) else m2)
    else Deleveraged(m1, liqSide, close, uncovered)
  }

  // ---------------------------------------------------------------------------
  // Losses, profit conversion and fees
  // ---------------------------------------------------------------------------

  function SettleLosses(s: Pair): Outcome<Pair> {
    if s.p.pnl >= 0 then Done(s)
    else
      var _ :- Require(s.p.pnl != -TWO127);
      var pay: u128 := Min(Abs(s.p.pnl), s.p.collateral);
      if pay == 0 then Done(s)
      else
        var s1 :- SetCapital(s, s.p.collateral - pay);
        SetPnl(s1, s.p.pnl + pay)
  }

  function ResolveFlatNegative(s: Pair): Outcome<Pair> {
    var eff :- EffectiveQ(s.p, s.m);
    if eff != 0 || s.p.pnl >= 0 then Done(s)
    else
      var _ :- Require(s.p.pnl != -TWO127);
      SetPnl(s.(m := s.m.(funds := UseInsurance(s.m.funds, Abs(s.p.pnl)))), 0)
  }

  /** The part of a released profit that the vault can pay now. */
  function Payout(f: Funds, released: u128): Outcome<u128> {
    var (num, den) := HaircutRatio(f);
    WideMulDivFloor(released, num, den)
  }

  function ConvertProfit(s: Pair): Outcome<Pair> {
    var x := ReleasedPos(s.p);
    if x == 0 then Done(s)
    else
      var y :- Payout(s.m.funds, x);
      var s1 :- ConsumeReleased(s, x);
      var capital :- CheckU128(s1.p.collateral + y);
      var s2 :- SetCapital(s1, capital);
      Done(if s2.p.reserved == 0 then StopWarmup(s2, s2.m.feed.currentSlot) else s2)
  }

  function CreditInsurance(f: Funds, amount: u128): Funds {
    f.(insurance := SatAddU64(f.insurance, Min(amount, U64_MAX)))
  }

  function SweepFeeDebt(s: Pair): Outcome<Pair> {
    var pay: u128 := Min(FeeDebt(s.p.feeCredits), s.p.collateral);
    if pay == 0 then Done(s)
    else
      var s1 :- SetCapital(s, s.p.collateral - pay);
      Done(Pair(s1.p.(feeCredits := SatI128(s1.p.feeCredits + pay)),
                s1.m.(funds := CreditInsurance(s1.m.funds, pay))))
  }

  function ChargeFee(s: Pair, fee: u128): Outcome<Pair> {
    var _ :- Require(fee <= MAX_PROTOCOL_FEE_ABS);
    var paid: u128 := Min(fee, s.p.collateral);
    var s1 :- if paid > 0 then
                var t :- SetCapital(s, s.p.collateral - paid);
                Done(t.(m := t.m.(funds := CreditInsurance(t.m.funds, paid))))
              else Done(s);
    if fee == paid then Done(s1)
    else
      var credits :- CheckI128(s1.p.feeCredits - (fee - paid));
      var _ :- Require(credits != -TWO127);
      Done(s1.(p := s1.p.(feeCredits := credits)))
  }

  function ReclaimEmpty(s: Pair): Outcome<Pair> {
    var eff :- EffectiveQ(s.p, s.m);
    var _ :- Require(eff == 0 && s.p.pnl == 0);
    var s1 :- if s.p.collateral > 0 then
                var t :- SetCapital(s, 0);
                Done(t.(m := t.m.(funds := CreditInsurance(t.m.funds, s.p.collateral))))
              else Done(s);
    Done(s1.(p := s1.p.(basis := 0, aSnap := ADL_ONE, kSnap := 0, reserved := 0, warmupSlope := 0, feeCredits := 0)))
  }

  // ---------------------------------------------------------------------------
  // Margin
  // ---------------------------------------------------------------------------

  const MIN_NONZERO_MM_REQ: int := 10_000
  const MIN_NONZERO_IM_REQ: int := 20_000
  const MAINTENANCE_MARGIN_BPS: int := 500

  /** Equity marked to the oracle from the recorded entry, not from the indices. */
  function OracleEquity(p: PositionV, m: MarketV, price: u64): Outcome<i128> {
    var debt := WrapI128(FeeDebt(p.feeCredits));
    if p.baseSize == 0 then Done(Max(SatI128(p.collateral - debt), 0))
    else
      var now :- MulDivFloor(Abs(p.baseSize), price, POS_SCALE);
      var entry :- MulDivFloor(p.quoteEntry, if p.pegAtEntry != 0 then p.pegAtEntry else m.amm.peg, POS_SCALE);
      var gain := if p.baseSize > 0 then SatI128(WrapI128(now) - WrapI128(entry))
                  else SatI128(WrapI128(entry) - WrapI128(now));
      Done(Max(SatI128(SatI128(p.collateral + gain) - debt), 0))
  }

  function IsAboveMaintenance(p: PositionV, m: MarketV, price: u64): Outcome<bool> {
    var equity :- OracleEquity(p, m, price);
    var notional :- NotionalOf(p, m, price);
    var share :- MulDivFloor(notional, m.params.maintenanceBps, 10_000);
    Done(equity > Min(if notional > 0 then Max(share, MIN_NONZERO_MM_REQ) else share, I128_MAX))
  }

  function IsAboveInitial(p: PositionV, m: MarketV, price: u64): Outcome<bool> {
    var equity :- EquityInitRaw(m.funds, p);
    var notional :- NotionalOf(p, m, price);
    var leverage := m.params.maxLeverage / 100;
    var bps: u128 := if leverage > 0 then Max(10_000 / leverage, MAINTENANCE_MARGIN_BPS + 1) else 10_000;
    var share :- MulDivFloor(notional, bps, 10_000);
    Done(equity >= Min(if notional > 0 then Max(share, MIN_NONZERO_IM_REQ) else share, I128_MAX))
  }
}
