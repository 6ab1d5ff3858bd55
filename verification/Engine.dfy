/**
 The risk engine in the form the program has: methods that update the fields
 of a market account and a position account in place.  Each one is verified
 against the function of module `Risk` (or `Vamm`) of the same purpose, on
 which the theorems about all accounts and runs are proved.

 A method that returns `Abort` may leave fields half updated: the platform
 then discards every change of the instruction.
 */
module Engine {
  import opened Numbers
  import opened FixedPoint
  import opened WideMath
  import opened State
  import opened Risk
  import Traces
  import Vamm

  // ---------------------------------------------------------------------------
  // Accounts
  // ---------------------------------------------------------------------------

  class UserPosition {
    var collateral: u64
    var baseSize: i64
    var quoteEntry: u128
    var pegAtEntry: u128
    var pnl: i128
    var reserved: u128
    var warmupStart: u64
    var warmupSlope: u128
    var basis: i128
    var aSnap: u128
    var kSnap: i128
    var epochSnap: u64
    var feeCredits: i128
    var lastActivity: u64
    var rewardSnap: u128
    var rewardsClaimed: u64

    function View(): PositionV
      reads this
    {
      PositionV(collateral, baseSize, quoteEntry, pegAtEntry, pnl, reserved, warmupStart, warmupSlope,
                basis, aSnap, kSnap, epochSnap, feeCredits, lastActivity, rewardSnap, rewardsClaimed)
    }

    constructor (slot: u64)
      ensures View() == FreshPosition(slot)
    {
      collateral, baseSize, quoteEntry, pegAtEntry, pnl, reserved := 0, 0, 0, 0, 0, 0;
      warmupStart, warmupSlope, basis, aSnap, kSnap, epochSnap := 0, 0, 0, ADL_ONE, 0, 0;
      feeCredits, lastActivity, rewardSnap, rewardsClaimed := 0, slot, 0, 0;
    }
  }

  /** The two sides are kept as one `Book` each and read and written through `Get` and `Put`. */
  class Market {
    var long: Book
    var short: Book

    var baseReserve: u128
    var quoteReserve: u128
    var k: u128
    var peg: u128
    var lastPegSlot: u64

    var vault: u128
    var cTot: u128
    var pnlPos: u128
    var matured: u128
    var insurance: u64
    var insuranceFloor: u128
    var epochPayout: u64
    var epochStart: i64
    var creatorFees: u64
    var protocolFees: u64

    var currentSlot: u64
    var lastMarketSlot: u64
    var lastPrice: u64
    var rate: i64
    var sample: u64

    var accumulator: u128
    var volume: u128
    var count: u32
    var lastMark: u64
    var lastFundingTime: i64

    const params: Params
    ghost var history: History

    function Amm(): Vamm.Amm
      reads `baseReserve, `quoteReserve, `k, `peg, `lastPegSlot
    {
      Vamm.Amm(baseReserve, quoteReserve, k, peg, lastPegSlot)
    }

    function Money(): Funds
      reads `vault, `cTot, `pnlPos, `matured, `insurance, `insuranceFloor, `epochPayout, `epochStart, `creatorFees,
            `protocolFees
    {
      Funds(vault, cTot, pnlPos, matured, insurance, insuranceFloor, epochPayout, epochStart, creatorFees, protocolFees)
    }

    function Clock(): Feed
      reads `currentSlot, `lastMarketSlot, `lastPrice, `rate, `sample
    {
      Feed(currentSlot, lastMarketSlot, lastPrice, rate, sample)
    }

    function Average(): Twap
      reads `accumulator, `volume, `count, `lastMark, `lastFundingTime
    {
      Twap(accumulator, volume, count, lastMark, lastFundingTime)
    }

    /** The stored fields. */
    function Stored(): MarketV
      reads this
    {
      MarketV(long, short, Amm(), Money(), Clock(), Average(), params, History(0, 0, 0, 0))
    }

    ghost function View(): MarketV
      reads this
    {
      Stored().(history := history)
    }

    function Get(side: Side): Book
      reads this
      ensures Get(side) == View().Side(side)
    {
      if side == Long then long else short
    }

    method Put(side: Side, book: Book)
      modifies this
      ensures View() == old(View()).With(side, book)
    {
      if side == Long { long := book; } else { short := book; }
    }

    constructor (amm: Vamm.Amm, slot: u64, time: i64, price: u64, params: Params, empty: Book)
      ensures View() == MarketV(empty, empty, amm, Funds(0, 0, 0, 0, 0, 0, 0, time, 0, 0),
                                Feed(slot, slot, price, 0, price), Twap(0, 0, 0, price, time), params,
                                History(0, 0, 0, 0))
    {
      long, short := empty, empty;
      baseReserve, quoteReserve, k, peg, lastPegSlot := amm.base, amm.quote, amm.k, amm.peg, amm.lastPegSlot;
      vault, cTot, pnlPos, matured, insurance, insuranceFloor := 0, 0, 0, 0, 0, 0;
      epochPayout, epochStart, creatorFees, protocolFees := 0, time, 0, 0;
      currentSlot, lastMarketSlot, lastPrice, rate, sample := slot, slot, price, 0, price;
      accumulator, volume, count, lastMark, lastFundingTime := 0, 0, 0, price, time;
      this.params := params;
      history := History(0, 0, 0, 0);
    }
  }

  ghost function Views(p: UserPosition, m: Market): Pair
    reads p, m
  {
    Pair(p.View(), m.View())
  }

  /** The method ended as its specification says. */
  ghost predicate Yields(r: Outcome<()>, p: UserPosition, m: Market, expected: Outcome<Pair>)
    reads p, m
  {
    (r.Done? <==> expected.Done?) && (r.Done? ==> Views(p, m) == expected.value)
  }

  ghost predicate YieldsMarket(r: Outcome<()>, m: Market, expected: Outcome<MarketV>)
    reads m
  {
    (r.Done? <==> expected.Done?) && (r.Done? ==> m.View() == expected.value)
  }

  // ---------------------------------------------------------------------------
  // Aggregates
  // ---------------------------------------------------------------------------

  method UpdatePnl(p: UserPosition, m: Market, newPnl: i128) returns (r: Outcome<()>)
    modifies p, m
    ensures Yields(r, p, m, SetPnl(old(Views(p, m)), newPnl))
  {
    hide ReserveAfter;
    hide PosPart;
    hide ProfitTotals;
    var oldPos, newPos, oldR := PosPart(p.pnl), PosPart(newPnl), p.reserved;
    var newR := ReserveAfter(oldPos, oldR, newPos);
    if newPnl == -TWO127 || oldR > oldPos || newPos > MAX_ACCOUNT_POSITIVE_PNL || newR > newPos {
      return Abort;
    }
    var totals :- ProfitTotals(m.Money(), newPos - oldPos, (newPos - newR) - (oldPos - oldR));
    StorePnl(p, m, newPnl, newR, totals.0, totals.1);
    return Done(());
  }

  method StorePnl(p: UserPosition, m: Market, pnl: i128, reserved: u128, pnlPos: u128, matured: u128)
    modifies p, m
    ensures p.View() == old(p.View()).(pnl := pnl, reserved := reserved)
    ensures m.View() == old(m.View()).(funds := old(m.Money()).(pnlPos := pnlPos, matured := matured))
  {
    m.pnlPos, m.matured := pnlPos, matured;
    p.pnl, p.reserved := pnl, reserved;
  }

  method UpdateReserved(p: UserPosition, m: Market, newR: u128) returns (r: Outcome<()>)
    modifies p, m
    ensures Yields(r, p, m, SetReserved(old(Views(p, m)), newR))
  {
    var pos := PosPart(p.pnl);
    if newR > pos || p.reserved > pos {
      return Abort;
    }
    m.matured :- CheckU128(m.matured + (pos - newR) - (pos - p.reserved));
    if m.matured > m.pnlPos {
      return Abort;
    }
    p.reserved := newR;
    return Done(());
  }

  method Consume(p: UserPosition, m: Market, x: u128) returns (r: Outcome<()>)
    modifies p, m
    ensures Yields(r, p, m, ConsumeReleased(old(Views(p, m)), x))
  {
    if x == 0 || x > SatSub(PosPart(p.pnl), p.reserved) {
      return Abort;
    }
    var pnlPos :- CheckU128(m.pnlPos - x);
    var matured :- CheckU128(m.matured - x);
    if matured > pnlPos {
      return Abort;
    }
    m.pnlPos, m.matured := pnlPos, matured;
    p.pnl := p.pnl - x;
    return Done(());
  }

  method UpdateCapital(p: UserPosition, m: Market, capital: u128) returns (r: Outcome<()>)
    modifies p, m
    ensures Yields(r, p, m, SetCapital(old(Views(p, m)), capital))
  {
    var before := p.collateral;
    if capital >= before {
      m.cTot :- CheckU128(m.cTot + (capital - before));
    } else {
      m.cTot :- CheckU128(m.cTot - (before - capital));
    }
    if capital > U64_MAX {
      return Abort;
    }
    p.collateral := capital;
    return Done(());
  }

  method UpdateBasis(p: UserPosition, m: Market, basis: i128) returns (r: Outcome<()>)
    modifies p, m
    ensures Yields(r, p, m, SetBasis(old(Views(p, m)), basis))
  {
    if p.basis != 0 {
      var side := SideOf(p.basis);
      var book :- CountDown(m.Get(side));
      m.Put(side, book);
    }
    if basis != 0 {
      var side := SideOf(basis);
      var book :- CountUp(m.Get(side));
      m.Put(side, book);
    }
    p.basis := basis;
    return Done(());
  }

  // ---------------------------------------------------------------------------
  // Warmup
  // ---------------------------------------------------------------------------

  method RestartWarmupOf(p: UserPosition, m: Market) returns (r: Outcome<()>)
    modifies p, m
    ensures Yields(r, p, m, RestartWarmup(old(Views(p, m))))
  {
    var t := m.params.warmupPeriod;
    if t == 0 {
      var _ :- UpdateReserved(p, m, 0);
      p.warmupSlope, p.warmupStart := 0, m.currentSlot;
      return Done(());
    }
    if p.reserved == 0 {
      p.warmupSlope, p.warmupStart := 0, m.currentSlot;
      return Done(());
    }
    QuotientAtMost(p.reserved, t);
    var base := p.reserved / t;
    p.warmupSlope := if base == 0 then 1 else base;
    p.warmupStart := m.currentSlot;
    return Done(());
  }

  method AdvanceWarmupOf(p: UserPosition, m: Market, slot: u64) returns (r: Outcome<()>)
    modifies p, m
    ensures Yields(r, p, m, AdvanceWarmup(old(Views(p, m)), slot))
  {
    hide SetReserved;
    hide SatMul;
    if p.reserved == 0 {
      p.warmupSlope, p.warmupStart := 0, slot;
      return Done(());
    }
    if m.params.warmupPeriod == 0 {
      var _ :- UpdateReserved(p, m, 0);
      p.warmupSlope, p.warmupStart := 0, slot;
      return Done(());
    }
    var elapsed: u64 := SatSub(slot, p.warmupStart);
    var release: u128 := Min(p.reserved, SatMul(p.warmupSlope, elapsed));
    if release > 0 {
      var _ :- UpdateReserved(p, m, p.reserved - release);
    }
    if p.reserved == 0 {
      p.warmupSlope := 0;
    }
    p.warmupStart := slot;
    return Done(());
  }

  method ResetWarmupOf(p: UserPosition, m: Market) returns (r: Outcome<()>)
    modifies p, m
    ensures Yields(r, p, m, ResetWarmup(old(Views(p, m))))
  {
    hide SetReserved;
    var _ :- UpdateReserved(p, m, 0);
    p.warmupSlope, p.warmupStart := 0, 0;
    return Done(());
  }

  // ---------------------------------------------------------------------------
  // Settlement
  // ---------------------------------------------------------------------------

  method ClaimRewards(p: UserPosition, m: Market) returns (r: Outcome<()>)
    modifies p, m
    ensures Yields(r, p, m, SettleRewards(old(Views(p, m))))
  {
    if p.baseSize == 0 {
      return Done(());
    }
    var side := SideOf(p.baseSize);
    var acc := m.Get(side).acc;
    var delta: u128 := SatSub(acc, p.rewardSnap);
    var product :- CheckU128(delta * Abs(p.baseSize));
    var reward := product / REWARD_PRECISION;
    p.collateral :- CheckU64(p.collateral + reward);
    p.rewardsClaimed :- CheckU64(p.rewardsClaimed + reward);
    m.cTot :- CheckU128(m.cTot + reward);
    p.rewardSnap := acc;
    m.history := m.history.AddPaid(side, reward);
    return Done(());
  }

  method ClearBaseOf(p: UserPosition, m: Market)
    modifies p, m
    ensures Views(p, m) == ClearBase(old(Views(p, m)))
  {
    if p.baseSize != 0 {
      var side := SideOf(p.baseSize);
      var book := m.Get(side);
      m.Put(side, book.(total := SatSub(book.total, Abs(p.baseSize))));
      p.baseSize, p.quoteEntry := 0, 0;
    }
  }

  method BookPnl(p: UserPosition, m: Market, delta: i128) returns (r: Outcome<()>)
    modifies p, m
    ensures Yields(r, p, m, AddPnl(old(Views(p, m)), delta))
  {
    hide SetPnl;
    var pnl :- CheckI128(p.pnl + delta);
    r := UpdatePnl(p, m, pnl);
  }

  method RestartIfReserveRose(p: UserPosition, m: Market, oldReserved: u128) returns (r: Outcome<()>)
    modifies p, m
    ensures Yields(r, p, m, RestartIfRaised(old(Views(p, m)), oldReserved))
  {
    hide RestartWarmup;
    if p.reserved > oldReserved {
      r := RestartWarmupOf(p, m);
    } else {
      r := Done(());
    }
  }

  method Detach(p: UserPosition, epoch: u64)
    modifies p
    ensures p.View() == old(p.View()).(aSnap := ADL_ONE, kSnap := 0, epochSnap := epoch)
  {
    p.aSnap, p.kSnap, p.epochSnap := ADL_ONE, 0, epoch;
  }

  method ResnapshotOf(p: UserPosition, m: Market, side: Side) returns (r: Outcome<()>)
    modifies p, m
    ensures Yields(r, p, m, Resnapshot(old(Views(p, m)), side))
  {
    hide SetBasis;
    hide ClearBase;
    hide MulDivFloor;
    var book := m.Get(side);
    var size :- MulDivFloor(Abs(p.basis), book.a, p.aSnap);
    if size == 0 {
      m.Put(side, AddDust(book, 1));
      var _ :- UpdateBasis(p, m, 0);
      ClearBaseOf(p, m);
      Detach(p, book.epoch);
    } else {
      p.kSnap, p.epochSnap := book.k, book.epoch;
    }
    return Done(());
  }

  method SettleCurrentEpoch(p: UserPosition, m: Market, side: Side) returns (r: Outcome<()>)
    modifies p, m
    ensures Yields(r, p, m, SettleCurrent(old(Views(p, m)), side))
  {
    hide AddPnl;
    hide KPairFloor;
    hide Resnapshot;
    hide RestartIfRaised;
    var oldR, book := p.reserved, m.Get(side);
    var den :- CheckU128(p.aSnap * POS_SCALE);
    var delta :- ComputeKPairFloor(Abs(p.basis), book.k, p.kSnap, den);
    var _ :- BookPnl(p, m, delta);
    var _ :- ResnapshotOf(p, m, side);
    r := RestartIfReserveRose(p, m, oldR);
  }

  method LeaveStaleOf(p: UserPosition, m: Market, side: Side) returns (r: Outcome<()>)
    modifies p, m
    ensures Yields(r, p, m, LeaveStale(old(Views(p, m)), side))
  {
    hide SetBasis;
    hide ClearBase;
    var _ :- UpdateBasis(p, m, 0);
    ClearBaseOf(p, m);
    var book := m.Get(side);
    m.Put(side, CountStaleDown(book));
    Detach(p, book.epoch);
    return Done(());
  }

  method SettleEarlierEpoch(p: UserPosition, m: Market, side: Side) returns (r: Outcome<()>)
    modifies p, m
    ensures Yields(r, p, m, SettleStale(old(Views(p, m)), side))
  {
    hide AddPnl;
    hide KPairFloor;
    hide LeaveStale;
    hide RestartIfRaised;
    var oldR, book := p.reserved, m.Get(side);
    var delta: i128 := 0;
    if p.epochSnap + 1 == book.epoch {
      var den :- CheckU128(p.aSnap * POS_SCALE);
      delta :- ComputeKPairFloor(Abs(p.basis), book.epochStartK, p.kSnap, den);
    }
    var _ :- BookPnl(p, m, delta);
    var _ :- LeaveStaleOf(p, m, side);
    r := RestartIfReserveRose(p, m, oldR);
  }

  method Settle(p: UserPosition, m: Market) returns (r: Outcome<()>)
    modifies p, m
    ensures Yields(r, p, m, SettleSideEffects(old(Views(p, m))))
  {
    hide SettleRewards;
    hide SettleCurrent;
    hide SettleStale;
    var _ :- ClaimRewards(p, m);
    if p.basis == 0 {
      return Done(());
    }
    var side := SideOf(p.basis);
    if p.aSnap == 0 {
      return Abort;
    }
    if p.epochSnap == m.Get(side).epoch {
      r := SettleCurrentEpoch(p, m, side);
    } else {
      r := SettleEarlierEpoch(p, m, side);
    }
  }

  // ---------------------------------------------------------------------------
  // Accrual
  // ---------------------------------------------------------------------------

  method MarkSides(m: Market, delta: i128) returns (r: Outcome<()>)
    modifies m
    ensures r.Done? <==> Mark(old(m.long), old(m.short), delta).Done?
    ensures r.Done? ==> var (l, s) := Mark(old(m.long), old(m.short), delta).value;
                        m.View() == old(m.View()).(long := l, short := s)
  {
    hide MulSigned;
    if delta != 0 && m.long.oi != 0 {
      var dk :- ComputeMulSigned(m.long.a, delta);
      m.long :- AddK(m.long, dk);
    }
    if delta != 0 && m.short.oi != 0 {
      var dk :- ComputeMulSigned(m.short.a, delta);
      m.short :- AddK(m.short, 0 - (dk as int));
    }
    return Done(());
  }

  /** One funding sub-step on the two sides. */
  method Fund(m: Market, payer: Side, price: u64, absRate: u128, dt: u64) returns (r: Outcome<()>)
    modifies m
    ensures var expected := FundingStep(old(m.Get(payer)), old(m.Get(payer.Opposite())), price, absRate, dt);
            && (r.Done? <==> expected.Done?)
            && (r.Done? ==>
                  m.View() == old(m.View()).With(payer, expected.value.0).With(payer.Opposite(), expected.value.1))
  {
    hide MulDivCeil;
    hide MulDivFloor;
    var x :- CheckU128(price * absRate);
    var raw :- CheckU128(x * dt);
    var term: u128 := raw / FUNDING_RATE_PRECISION;
    if term > 0 {
      var aPayer, aReceiver := m.Get(payer).a, m.Get(payer.Opposite()).a;
      var paid :- MulDivCeil(aPayer, term, 10_000);
      if paid > I128_MAX {
        return Abort;
      }
      var payer' :- AddK(m.Get(payer), 0 - paid);
      m.Put(payer, payer');
      var received :- MulDivFloor(paid, aReceiver, aPayer);
      if received > I128_MAX {
        return Abort;
      }
      var receiver' :- AddK(m.Get(payer.Opposite()), received);
      m.Put(payer.Opposite(), receiver');
    }
    return Done(());
  }

  /** Funding over an interval, in sub-steps: what it has still to do is always what the whole interval has to do. */
  method FundInterval(m: Market, price: u64, interval: u64) returns (r: Outcome<u64>)
    modifies m
    ensures var expected := Funding(old(m.long), old(m.short), old(m.rate), price, interval);
            && (r.Done? <==> expected.Done?)
            && (r.Done? ==> r.value == expected.value.2
                            && m.View() == old(m.View()).(long := expected.value.0, short := expected.value.1))
  {
    hide FundingStep;
    var live := m.rate != 0 && m.long.oi != 0 && m.short.oi != 0;
    var payer := if m.rate > 0 then Long else Short;
    var absRate := Abs(m.rate);
    ghost var before := m.View();
    ghost var whole := FundingSteps(m.Get(payer), m.Get(payer.Opposite()), price, absRate, interval,
                                    MAX_FUNDING_ITERATIONS);
    ghost var idle := IdleSteps(interval, MAX_FUNDING_ITERATIONS);
    var remaining: u64, iterations: nat := interval, 0;
    while remaining > 0 && iterations < MAX_FUNDING_ITERATIONS
      invariant iterations <= MAX_FUNDING_ITERATIONS
      invariant m.View() == before.(long := m.long, short := m.short)
      invariant live ==> FundingSteps(m.Get(payer), m.Get(payer.Opposite()), price, absRate, remaining,
                                      MAX_FUNDING_ITERATIONS - iterations) == whole
      invariant !live ==> m.View() == before && IdleSteps(remaining, MAX_FUNDING_ITERATIONS - iterations) == idle
    {
      var dt: u64 := Min(remaining, MAX_FUNDING_DT);
      if live {
        var _ :- Fund(m, payer, price, absRate, dt);
      }
      remaining := remaining - dt;
      iterations := iterations + 1;
    }
    return Done(remaining);
  }

  method StoreClock(m: Market, slot: u64, last: u64, price: u64)
    modifies m
    ensures m.View() == old(m.View()).(feed := old(m.Clock()).(currentSlot := slot, lastMarketSlot := last,
                                                               lastPrice := price, sample := price))
  {
    m.currentSlot, m.lastMarketSlot, m.lastPrice, m.sample := slot, last, price, price;
  }

  method AccrueMarket(m: Market, slot: u64, price: u64) returns (r: Outcome<()>)
    modifies m
    ensures YieldsMarket(r, m, Accrue(old(m.View()), slot, price))
  {
    hide Mark;
    hide Funding;
    if price == 0 || price > MAX_ORACLE_PRICE || slot < m.currentSlot || slot < m.lastMarketSlot {
      return Abort;
    }
    var dt: u64 := Min(slot - m.lastMarketSlot, MAX_ACCRUE_DT);
    if dt == 0 && m.lastPrice == price {
      m.currentSlot := slot;
      return Done(());
    }
    var last := if m.lastPrice == 0 then price else m.lastPrice;
    var _ :- MarkSides(m, price - last);
    if dt == 0 {
      StoreClock(m, slot, m.lastMarketSlot, price);
      return Done(());
    }
    if Abs(m.rate) > MAX_ABS_FUNDING_BPS_PER_SLOT {
      return Abort;
    }
    var px := if m.sample == 0 then price else m.sample;
    var remaining :- FundInterval(m, px, dt);
    StoreClock(m, slot, SatSub(slot, remaining), price);
    return Done(());
  }

  // ---------------------------------------------------------------------------
  // The curve
  // ---------------------------------------------------------------------------

  method Swap(m: Market, swap: Vamm.Swap)
    modifies m
    ensures m.View() == old(m.View()).(amm := Vamm.ApplySwap(old(m.Amm()), swap))
  {
    m.baseReserve, m.quoteReserve := swap.newBase, swap.newQuote;
  }

  method StoreCurve(m: Market, base: u128, quote: u128, k: u128)
    modifies m
    ensures m.View() == old(m.View()).(amm := old(m.Amm()).(base := base, quote := quote, k := k))
  {
    m.baseReserve, m.quoteReserve, m.k := base, quote, k;
  }

  method NormalizeReserves(m: Market)
    modifies m
    ensures m.View() == old(m.View()).(amm := Vamm.Normalize(old(m.Amm())))
  {
    var s := Vamm.IntegerSqrt(m.k);
    if s > 0 {
      Vamm.SmallRoot(m.k);
      StoreCurve(m, s, s, s * s);
    }
  }

  // ---------------------------------------------------------------------------
  // Attaching a position
  // ---------------------------------------------------------------------------

  /** The effective size, as the program computes it from the two accounts. */
  function EffectivePosition(p: UserPosition, m: Market): (q: Outcome<i128>)
    reads p, m
    ensures q == EffectiveQ(p.View(), m.View())
  {
    if p.basis == 0 then Done(0)
    else
      var book := m.Get(SideOf(p.basis));
      if p.epochSnap != book.epoch || p.aSnap == 0 then Done(0)
      else
        var size :- MulDivFloor(Abs(p.basis), book.a, p.aSnap);
        if p.basis < 0 && size == 0 then Done(0)
        else if size > I128_MAX then Abort
        else Done(if p.basis < 0 then 0 - size else size)
  }

  /** The 256-bit remainder test of a re-base. */
  method Remainder(p: UserPosition, book: Book) returns (some: bool)
    ensures some == LeavesRemainder(p.View(), book)
  {
    if p.basis == 0 || p.epochSnap != book.epoch || p.aSnap == 0 {
      return false;
    }
    KProductFits(Abs(p.basis), book.a);
    var product := CheckedMul256(FromU128(Abs(p.basis)), FromU128(book.a)).value;
    var _, rem := DivRem256(product, FromU128(p.aSnap));
    return !rem.IsZero();
  }

  method StoreSnapshot(p: UserPosition, book: Book)
    modifies p
    ensures p.View() == old(p.View()).(aSnap := book.a, kSnap := book.k, epochSnap := book.epoch)
  {
    p.aSnap, p.kSnap, p.epochSnap := book.a, book.k, book.epoch;
  }

  method AttachPosition(p: UserPosition, m: Market, eff: i128) returns (r: Outcome<()>)
    modifies p, m
    ensures Yields(r, p, m, Attach(old(Views(p, m)), eff))
  {
    hide SetBasis;
    hide LeavesRemainder;
    var oldBasis := p.basis;
    var oldSide := SideOf(oldBasis);
    var some := Remainder(p, m.Get(oldSide));
    if some {
      m.Put(oldSide, AddDust(m.Get(oldSide), 1));
    }
    var epoch := if oldBasis == 0 then 0 else m.Get(oldSide).epoch;
    BasisKeepsIndices(m.View(), p.View(), eff);
    var _ :- UpdateBasis(p, m, eff);
    if eff == 0 {
      Detach(p, epoch);
    } else {
      StoreSnapshot(p, m.Get(SideOf(eff)));
    }
    return Done(());
  }

  /** Changing the basis touches the position counts only. */
  lemma BasisKeepsIndices(m: MarketV, p: PositionV, basis: i128)
    ensures var t := SetBasis(Pair(p, m), basis);
            t.Done? ==> forall side ::
              t.value.m.Side(side).a == m.Side(side).a && t.value.m.Side(side).k == m.Side(side).k
              && t.value.m.Side(side).epoch == m.Side(side).epoch
  {
  }

  method ChangeOi(m: Market, oldEff: i128, newEff: i128) returns (r: Outcome<()>)
    modifies m
    ensures YieldsMarket(r, m, UpdateOi(old(m.View()), oldEff, newEff))
  {
    if oldEff != 0 {
      var book := m.Get(SideOf(oldEff));
      var oi :- CheckU128(book.oi - Abs(oldEff));
      m.Put(SideOf(oldEff), book.(oi := oi));
    }
    if newEff != 0 {
      var book := m.Get(SideOf(newEff));
      var oi :- CheckU128(book.oi + Abs(newEff));
      m.Put(SideOf(newEff), book.(oi := oi));
    }
    return Done(());
  }

  // ---------------------------------------------------------------------------
  // Resets and phantom dust
  // ---------------------------------------------------------------------------

  method BeginFullReset(m: Market, side: Side) returns (r: Outcome<()>)
    modifies m
    ensures YieldsMarket(r, m, BeginReset(old(m.View()), side))
  {
    hide Vamm.Normalize;
    var book :- ResetBook(m.Get(side));
    m.Put(side, book);
    NormalizeReserves(m);
    m.lastPegSlot := 0;
    return Done(());
  }

  method FinalizeReadySides(m: Market)
    modifies m
    ensures m.View() == FinalizeReady(old(m.View()))
  {
    if m.long.mode == ResetPending && m.long.oi == 0 {
      m.long := m.long.(mode := Normal);
    }
    if m.short.mode == ResetPending && m.short.oi == 0 {
      m.short := m.short.(mode := Normal);
    }
  }

  /** The last part of a dust check: the other side, if it is empty or holds only dust. */
  method ClearOtherSide(m: Market, opp: Side) returns (r: Outcome<()>)
    modifies m
    ensures YieldsMarket(r, m, ClearOpposite(old(m.View()), opp))
  {
    hide BeginReset;
    var book := m.Get(opp);
    if book.stored == 0 && book.oi <= book.dust {
      m.Put(opp, book.(oi := 0));
      if book.mode != ResetPending {
        var _ :- BeginFullReset(m, opp);
      }
    }
    return Done(());
  }

  method ClearPhantomDust(m: Market, side: Side) returns (r: Outcome<()>)
    modifies m
    ensures YieldsMarket(r, m, CheckDust(old(m.View()), side))
  {
    hide BeginReset;
    hide ClearOpposite;
    hide FinalizeReady;
    var book := m.Get(side);
    if book.oi == 0 {
      if book.mode == DrainOnly {
        var _ :- BeginFullReset(m, side);
        FinalizeReadySides(m);
      }
      return Done(());
    }
    if book.stored > 0 || book.oi > book.dust {
      return Done(());
    }
    m.Put(side, book.(oi := 0));
    if book.mode != ResetPending {
      var _ :- BeginFullReset(m, side);
    }
    var _ :- ClearOtherSide(m, side.Opposite());
    FinalizeReadySides(m);
    return Done(());
  }

  method ClearPendingSide(m: Market, side: Side) returns (r: Outcome<()>)
    modifies m
    ensures YieldsMarket(r, m, ClearPending(old(m.View()), side))
  {
    hide BeginReset;
    var book := m.Get(side);
    if book.pending {
      m.Put(side, book.(pending := false));
      if book.mode != ResetPending && book.oi == 0 {
        var _ :- BeginFullReset(m, side);
      }
    }
    return Done(());
  }

  method FinalizePendingResets(m: Market) returns (r: Outcome<()>)
    modifies m
    ensures YieldsMarket(r, m, FinalizePending(old(m.View())))
  {
    hide ClearPending;
    hide FinalizeReady;
    var _ :- ClearPendingSide(m, Long);
    var _ :- ClearPendingSide(m, Short);
    FinalizeReadySides(m);
    return Done(());
  }

  // ---------------------------------------------------------------------------
  // Insurance and auto-deleveraging
  // ---------------------------------------------------------------------------

  method StoreInsurance(m: Market, insurance: u64, payout: u64)
    modifies m
    ensures m.View() == old(m.View()).(funds := old(m.Money()).(insurance := insurance, epochPayout := payout))
  {
    m.insurance, m.epochPayout := insurance, payout;
  }

  /** Pay a loss out of the insurance fund; returns what remains of it. */
  method UseInsuranceBuffer(m: Market, loss: u128) returns (remaining: u128)
    modifies m
    ensures m.View() == old(m.View()).(funds := UseInsurance(old(m.Money()), loss))
    ensures remaining == loss - InsurancePay(old(m.Money()), loss)
  {
    if loss == 0 {
      return 0;
    }
    var balance := m.insurance;
    var floor := Max(m.insuranceFloor, balance / 5);
    var available := SatSub(balance, floor);
    var epochCap := (balance * INSURANCE_EPOCH_CAP_BPS) / 10_000;
    var epochRemaining := SatSub(epochCap, m.epochPayout);
    var pay := Min(loss, Min(available, epochRemaining));
    if pay > 0 {
      StoreInsurance(m, balance - pay, SatAddU64(m.epochPayout, pay));
    }
    return loss - pay;
  }

  method CreditInsuranceFund(m: Market, amount: u128)
    modifies m
    ensures m.View() == old(m.View()).(funds := CreditInsurance(old(m.Money()), amount))
  {
    m.insurance := SatAddU64(m.insurance, Min(amount, U64_MAX));
  }

  /** Charge a deficit to a side through its PnL index; nothing happens if the shift cannot be represented. */
  method ChargeSide(b: Book, deficit: u128) returns (r: Outcome<Book>)
    ensures r == ChargeDeficit(b, deficit)
  {
    hide CeilOrOver;
    if deficit == 0 || b.oi == 0 {
      return Done(b);
    }
    var scaled :- CheckU128(b.a * POS_SCALE);
    var shift := ComputeCeilOrOver(deficit, scaled, b.oi);
    if shift.Some? && b.k - shift.value >= -TWO127 {
      return Done(b.(k := b.k - shift.value));
    }
    return Done(b);
  }

  /** The dust bound of a truncated size index, in 256-bit arithmetic. */
  method ComputeTruncationDust(b: Book) returns (dust: u128)
    requires b.a > 0
    ensures dust == TruncationDust(b)
  {
    var n := FromU128(b.stored);
    var sum := Add256(FromU128(b.oi), n).value;
    var term := ComputeCeilDiv(sum, FromU128(b.a));
    TermAtMost(b.oi + b.stored, b.a);
    var total := Add256(n, term.value).value;
    return if total.ToU128().Some? then total.ToU128().value else U128_MAX;
  }

  lemma TermAtMost(n: nat, d: nat)
    requires d > 0
    ensures 0 <= CeilDiv(n, d) <= n + 1
  {
    QuotientAtMost(n, d);
  }

  /**
   Scale the size index down so that `cut` of the open interest disappears; `None` when nothing would be
   left of it.
   */
  method CutSide(b: Book, cut: u128) returns (r: Option<Book>)
    requires cut < b.oi
    ensures r.None? <==> b.a == 0 || CutBook(b, cut).a == 0
    ensures r.Some? ==> r.value == CutBook(b, cut)
  {
    hide TruncationDust;
    var rest: u128 := b.oi - cut;
    CutAtMost(b.a, rest, b.oi);
    var q, rem := MulDivRemNarrow(b.a, rest, b.oi);
    if q.IsZero() {
      if b.a > 0 { CutQuotient(b, cut); }
      return None;
    }
    if b.a == 0 {
      DivUnique(0, b.oi, 0);
      return None;
    }
    CutQuotient(b, cut);
    var a: u128 := q.ToU128().value;
    var c := b.(a := a, oi := rest);
    if !rem.IsZero() {
      var dust := ComputeTruncationDust(b);
      c := c.(dust := SatAddU128(b.dust, dust));
    }
    if a < MIN_A_SIDE {
      c := c.(mode := DrainOnly);
    }
    return Some(c);
  }

  lemma CutQuotient(b: Book, cut: u128)
    requires cut < b.oi && b.a > 0
    ensures CutBook(b, cut).a == (b.a * (b.oi - cut)) / b.oi
  {
  }

  method MarkForReset(m: Market, side: Side)
    modifies m
    ensures m.View() == MarkPending(old(m.View()), side)
  {
    m.Put(side, m.Get(side).(pending := true));
  }

  method MarkForResetIfEmpty(m: Market, side: Side)
    modifies m
    ensures m.View() == MarkPendingIfEmpty(old(m.View()), side)
  {
    if m.Get(side).oi == 0 {
      MarkForReset(m, side);
    }
  }

  /** Take the deficit and the closed size from the side opposite to a liquidation. */
  method Deleverage(m: Market, liqSide: Side, close: u128, uncovered: u128) returns (r: Outcome<()>)
    requires m.Get(liqSide.Opposite()).oi != 0 && m.Get(liqSide.Opposite()).stored != 0
    modifies m
    ensures YieldsMarket(r, m, Deleveraged(old(m.View()), liqSide, close, uncovered))
  {
    hide ChargeDeficit;
    hide CutBook;
    hide MarkPendingIfEmpty;
    hide MarkPending;
    var opp := liqSide.Opposite();
    var charged :- ChargeSide(m.Get(opp), uncovered);
    Traces.ChargeForm(m.Get(opp), uncovered, charged);
    if close >= charged.oi {
      m.Put(opp, charged.(oi := 0));
      MarkForReset(m, opp);
      MarkForResetIfEmpty(m, liqSide);
      return Done(());
    }
    var cut := CutSide(charged, close);
    if cut.Some? {
      m.Put(opp, cut.value);
      return Done(());
    }
    m.Put(opp, charged.(oi := 0));
    m.Put(liqSide, m.Get(liqSide).(oi := 0));
    MarkForReset(m, opp);
    MarkForReset(m, liqSide);
    return Done(());
  }

  method Enqueue(m: Market, liqSide: Side, close: u128, deficit: u128) returns (r: Outcome<()>)
    modifies m
    ensures YieldsMarket(r, m, EnqueueAdl(old(m.View()), liqSide, close, deficit))
  {
    hide UseInsurance;
    hide InsurancePay;
    hide Deleveraged;
    hide MarkPendingIfEmpty;
    hide MarkPending;
    var opp := liqSide.Opposite();
    var liqOi :- CheckU128(m.Get(liqSide).oi - close);
    m.Put(liqSide, m.Get(liqSide).(oi := liqOi));
    var uncovered := UseInsuranceBuffer(m, deficit);
    var book := m.Get(opp);
    if book.oi == 0 {
      if liqOi == 0 {
        MarkForReset(m, liqSide);
        MarkForReset(m, opp);
      }
      return Done(());
    }
    if book.stored == 0 {
      var oi :- CheckU128(book.oi - close);
      m.Put(opp, book.(oi := oi));
      if oi == 0 {
        MarkForReset(m, opp);
        MarkForResetIfEmpty(m, liqSide);
      }
      return Done(());
    }
    r := Deleverage(m, liqSide, close, uncovered);
  }

  // ---------------------------------------------------------------------------
  // Losses, profit conversion and fees
  // ---------------------------------------------------------------------------

  method SettleLossesOf(p: UserPosition, m: Market) returns (r: Outcome<()>)
    modifies p, m
    ensures Yields(r, p, m, SettleLosses(old(Views(p, m))))
  {
    hide SetPnl;
    var pnl := p.pnl;
    if pnl >= 0 {
      return Done(());
    }
    if pnl == -TWO127 {
      return Abort;
    }
    var pay: u128 := Min(Abs(pnl), p.collateral);
    if pay > 0 {
      var _ :- UpdateCapital(p, m, p.collateral - pay);
      r := UpdatePnl(p, m, pnl + pay);
    } else {
      r := Done(());
    }
  }

  method ResolveFlat(p: UserPosition, m: Market) returns (r: Outcome<()>)
    modifies p, m
    ensures Yields(r, p, m, ResolveFlatNegative(old(Views(p, m))))
  {
    hide SetPnl;
    hide EffectiveQ;
    hide UseInsurance;
    var eff :- EffectivePosition(p, m);
    if eff != 0 || p.pnl >= 0 {
      return Done(());
    }
    if p.pnl == -TWO127 {
      return Abort;
    }
    var _ := UseInsuranceBuffer(m, Abs(p.pnl));
    r := UpdatePnl(p, m, 0);
  }

  method Convert(p: UserPosition, m: Market) returns (r: Outcome<()>)
    modifies p, m
    ensures Yields(r, p, m, ConvertProfit(old(Views(p, m))))
  {
    hide HaircutRatio;
    hide WideMulDivFloor;
    hide ConsumeReleased;
    var x := ReleasedPos(p.View());
    if x == 0 {
      return Done(());
    }
    var ratio := HaircutRatio(m.Money());
    var y :- ComputeWideMulDivFloor(x, ratio.0, ratio.1);
    var _ :- Consume(p, m, x);
    var capital :- CheckU128(p.collateral + y);
    var _ :- UpdateCapital(p, m, capital);
    if p.reserved == 0 {
      p.warmupSlope, p.warmupStart := 0, m.currentSlot;
    }
    return Done(());
  }

  method SweepDebt(p: UserPosition, m: Market) returns (r: Outcome<()>)
    modifies p, m
    ensures Yields(r, p, m, SweepFeeDebt(old(Views(p, m))))
  {
    var pay: u128 := Min(FeeDebt(p.feeCredits), p.collateral);
    if pay > 0 {
      var _ :- UpdateCapital(p, m, p.collateral - pay);
      p.feeCredits := SatI128(p.feeCredits + pay);
      CreditInsuranceFund(m, pay);
    }
    return Done(());
  }

  method ChargeFeeToInsurance(p: UserPosition, m: Market, fee: u128) returns (r: Outcome<()>)
    modifies p, m
    ensures Yields(r, p, m, ChargeFee(old(Views(p, m)), fee))
  {
    hide CreditInsurance;
    if fee > MAX_PROTOCOL_FEE_ABS {
      return Abort;
    }
    var paid: u128 := Min(fee, p.collateral);
    if paid > 0 {
      var _ :- UpdateCapital(p, m, p.collateral - paid);
      CreditInsuranceFund(m, paid);
    }
    var shortfall := fee - paid;
    if shortfall > 0 {
      var credits :- CheckI128(p.feeCredits - shortfall);
      if credits == -TWO127 {
        return Abort;
      }
      p.feeCredits := credits;
    }
    return Done(());
  }

  method StoreEmpty(p: UserPosition)
    modifies p
    ensures p.View() == old(p.View()).(basis := 0, aSnap := ADL_ONE, kSnap := 0, reserved := 0, warmupSlope := 0,
            feeCredits := 0)
  {
    p.basis, p.aSnap, p.kSnap, p.reserved, p.warmupSlope, p.feeCredits := 0, ADL_ONE, 0, 0, 0, 0;
  }

  method ReclaimEmptyOf(p: UserPosition, m: Market) returns (r: Outcome<()>)
    modifies p, m
    ensures Yields(r, p, m, ReclaimEmpty(old(Views(p, m))))
  {
    hide EffectiveQ;
    hide CreditInsurance;
    var eff :- EffectivePosition(p, m);
    if eff != 0 || p.pnl != 0 {
      return Abort;
    }
    var left := p.collateral;
    if left > 0 {
      var _ :- UpdateCapital(p, m, 0);
      CreditInsuranceFund(m, left);
    }
    StoreEmpty(p);
    return Done(());
  }
}
