/**
 What opening, closing and liquidating a position trade on the curve, and on
 which terms: the direction and size of the trade, what the account pays for
 it, what it is recorded to have paid for what it holds, and the limits that
 an opening must respect.
 */
module Trading {
  import opened Numbers
  import opened FixedPoint
  import opened State
  import opened Risk
  import opened Invariants
  import opened AccountSteps
  import opened PositionSteps
  import opened AdlSteps
  import opened InstructionSteps
  import opened Handlers
  import opened Haircut
  import opened Flows
  import Traces
  import Vamm

  // ---------------------------------------------------------------------------
  // On the curve
  // ---------------------------------------------------------------------------

  /** The curve after `taken` base units have been taken out of it, or put into it if negative. */
  ghost predicate Traded(a: Vamm.Amm, taken: int, b: Vamm.Amm) {
    && Vamm.OnCurve(b) && b == a.(base := b.base, quote := b.quote)
    && b.base == a.base - taken && b.quote == a.k / b.base
  }

  lemma SwapTrades(m: MarketV, buy: bool, size: u128, swap: Vamm.Swap)
    requires Vamm.OnCurve(m.amm) && SwapFor(m, buy, size) == Done(swap)
    ensures Traded(m.amm, if buy then size else 0 - size, Swapped(m, swap).amm)
    ensures swap.quoteAmount == Abs(Swapped(m, swap).amm.quote - m.amm.quote)
    ensures Swapped(m, swap) == m.(amm := Swapped(m, swap).amm)
  {
    if buy {
      Vamm.LongOnCurve(m.amm, size);
      LessForMore(m.amm.k, m.amm.base - size, m.amm.base);
    } else {
      Vamm.ShortOnCurve(m.amm, size);
      LessForMore(m.amm.k, m.amm.base, m.amm.base + size);
    }
  }

  lemma LessForMore(k: nat, few: nat, many: nat)
    requires 0 < few <= many
    ensures k / many <= k / few
  {
    Vamm.QuotientGrows(k, few, many);
  }

  /** Trading back what was taken restores the reserves. */
  lemma TradedBack(a: Vamm.Amm, taken: int, b: Vamm.Amm, c: Vamm.Amm)
    requires Vamm.OnCurve(a) && Traded(a, taken, b) && Traded(b, 0 - taken, c)
    ensures c == a
  {
  }

  // ---------------------------------------------------------------------------
  // Opening: the pieces of the handler
  // ---------------------------------------------------------------------------

  /** The states an opening goes through. */
  datatype Opening = Opening(s1: Pair, m2: MarketV, quote: u128, fees: Fees, s3: Pair, s4: Pair, m5: MarketV, s6: Pair)

  ghost predicate Opens(s: Pair, env: Env, side: Side, size: u64, maxSlippage: u16, isCreator: bool, o: Opening,
                        t: Pair)
  {
    && Touch(s, env) == Done(o.s1)
    && OpenAllowed(o.s1, side, size).Done?
    && OpenSwap(o.s1.m, side, size, env.price, maxSlippage) == Done((o.m2, o.quote))
    && OpenFees(o.m2, size, env.price, isCreator) == Done(o.fees)
    && TakeFee(o.s1.(m := o.m2), o.fees.total) == Done(o.s3)
    && Enlarge(o.s3, side, size, o.quote) == Done(o.s4)
    && IsAboveInitial(o.s4.p, o.s4.m, env.price) == Done(true)
    && CreditFees(o.s4.m, o.fees.creator, o.fees.protocol) == Done(o.m5)
    && Done(o.s6) == (if o.s1.p.baseSize == 0 then StartPosition(o.s4.(m := o.m5), side, env.slot)
                      else Done(o.s4.(m := o.m5)))
    && Finalize(Stamp(o.s6, env.slot)) == Done(t)
  }

  lemma OpenParts(s: Pair, env: Env, side: Side, size: u64, leverage: u32, maxSlippage: u16, isCreator: bool, t: Pair)
    returns (o: Opening)
    requires OpenBody(s, env, side, size, leverage, maxSlippage, isCreator) == Done(t)
    ensures Opens(s, env, side, size, maxSlippage, isCreator, o, t)
    ensures !env.paused && env.active && 0 < size <= I64_MAX && MIN_LEVERAGE <= leverage <= s.m.params.maxLeverage
  {
    hide Touch;
    hide OpenAllowed;
    hide OpenSwap;
    hide OpenFees;
    hide TakeFee;
    hide Enlarge;
    hide IsAboveInitial;
    hide CreditFees;
    hide StartPosition;
    hide Finalize;
    var s1 := Touch(s, env).value;
    var (m2, quote) := OpenSwap(s1.m, side, size, env.price, maxSlippage).value;
    var fees := OpenFees(m2, size, env.price, isCreator).value;
    var s3 := TakeFee(s1.(m := m2), fees.total).value;
    var s4 := Enlarge(s3, side, size, quote).value;
    var m5 := CreditFees(s4.m, fees.creator, fees.protocol).value;
    var s6 := if s1.p.baseSize == 0 then StartPosition(s4.(m := m5), side, env.slot).value else s4.(m := m5);
    o := Opening(s1, m2, quote, fees, s3, s4, m5, s6);
  }

  predicate WithinLimit(size: int, limit: nat) {
    -TWO63 <= size <= I64_MAX && Abs(size) <= limit
  }

  /** Who may open: in the direction of the position, on a side in normal mode, within the limits of the market. */
  lemma OpenAllowedExactly(s: Pair, side: Side, size: u64)
    requires 0 < size <= I64_MAX
    ensures OpenAllowed(s, side, size).Done?
       <==> && (s.p.baseSize != 0 ==> SideOf(s.p.baseSize) == side)
            && s.m.Side(side).mode == Normal
            && (s.m.params.maxPosition > 0 ==>
                  WithinLimit(s.p.baseSize + SignedSize(side, size), s.m.params.maxPosition))
            && (s.m.params.maxOi > 0 ==> s.m.Side(side).oi + size <= s.m.params.maxOi)
  {
  }

  /** The mark price before a trade has been observed, weighted by what the trade is worth. */
  ghost predicate Seen(m: MarketV, size: u128, price: u64, n: MarketV) {
    && Vamm.MarkPrice(m.amm).Done? && Vamm.Notional(size, price).Done?
    && n.twap == Observe(m, Vamm.MarkPrice(m.amm).value, Vamm.Notional(size, price).value).twap
  }

  /** How far, in basis points, a price is from a reference. */
  function Deviation(price: nat, reference: nat): nat
    requires reference > 0
  {
    (Abs(price - reference) * 10_000) / reference
  }

  /**
   An opening takes its size from the curve, a long out of it and a short into it, and pays the change of
   the quote reserve for it.  Its price is within the slippage limit if and only if it is less than
   65,536 basis points away from the mark price before it, since the deviation is kept in 16 bits.
   */
  lemma OpenSwapExactly(m: MarketV, side: Side, size: u64, price: u64, maxSlippage: u16, n: MarketV, quote: u128)
    requires Vamm.OnCurve(m.amm) && OpenSwap(m, side, size, price, maxSlippage) == Done((n, quote)) && size > 0
    ensures Traded(m.amm, SignedSize(side, size), n.amm) && quote == Abs(n.amm.quote - m.amm.quote)
    ensures n == m.(amm := n.amm, twap := n.twap) && Seen(m, size, price, n)
    ensures Vamm.MarkPrice(m.amm).Done? && Vamm.MarkPrice(m.amm).value > 0
    ensures var deviation := Deviation((quote * m.amm.peg) / size, Vamm.MarkPrice(m.amm).value);
            deviation % 0x1_0000 <= maxSlippage && (deviation <= maxSlippage <==> deviation < 0x1_0000)
  {
    hide Vamm.OnCurve;
    hide Vamm.MarkPrice;
    var mark := Vamm.MarkPrice(m.amm).value;
    var weight := Vamm.Notional(size, price).value;
    var m1 := Observe(m, mark, weight);
    var swap := SwapFor(m1, side == Long, size).value;
    SwapTrades(m1, side == Long, size, swap);
    SwapPrice(m1, side == Long, size, swap);
    hide SwapFor;
    hide Traded;
  }

  lemma SwapPrice(m: MarketV, buy: bool, size: u128, swap: Vamm.Swap)
    requires SwapFor(m, buy, size) == Done(swap) && size > 0
    ensures swap.execPrice == (swap.quoteAmount * m.amm.peg) / size
  {
  }

  /** The trading fee on `size` units: a share of what they are worth, rounded up. */
  function TradingFee(m: MarketV, size: nat, price: nat): nat {
    MulPos(Value(size, price), m.params.tradingFeeBps);
    CeilDiv(Value(size, price) * m.params.tradingFeeBps, 10_000)
  }

  lemma FeeAmount(notional: u128, bps: u16)
    requires Vamm.Fee(notional, bps).Done?
    ensures notional * bps >= 0 && Vamm.Fee(notional, bps).value == CeilDiv(notional * bps, 10_000)
  {
    MulPos(notional, bps);
  }

  lemma NotionalAmount(size: u128, price: u64)
    requires Vamm.Notional(size, price).Done?
    ensures Vamm.Notional(size, price).value == Value(size, price)
  {
  }

  /** A tenth of the fee goes to the creator of the market, unless it is the creator who trades. */
  lemma OpenFeesExactly(m: MarketV, size: u64, price: u64, isCreator: bool, fees: Fees)
    requires OpenFees(m, size, price, isCreator) == Done(fees)
    ensures fees.total == TradingFee(m, size, price) && fees.creator + fees.protocol == fees.total
    ensures fees.creator == if isCreator then 0 else fees.total / 10
  {
    NotionalAmount(size, price);
    FeeAmount(Value(size, price), m.params.tradingFeeBps);
    hide Vamm.Notional;
    hide Vamm.Fee;
    hide Value;
    hide CeilDiv;
  }

  lemma FeeTaken(s: Pair, fee: u128, t: Pair)
    requires TakeFee(s, fee) == Done(t)
    ensures t.p == s.p.(collateral := s.p.collateral - fee)
    ensures t.m == s.m.(funds := s.m.funds.(cTot := s.m.funds.cTot - fee)) && fee <= s.m.funds.cTot
    ensures fee <= s.p.collateral
  {
  }

  lemma FeesCredited(m: MarketV, creator: u128, protocol: u128, n: MarketV)
    requires CreditFees(m, creator, protocol) == Done(n)
    ensures n.funds.creatorFees == m.funds.creatorFees + creator
    ensures n.funds.protocolFees == m.funds.protocolFees + protocol
    ensures n == m.(funds := m.funds.(creatorFees := n.funds.creatorFees, protocolFees := n.funds.protocolFees))
  {
  }

  // ---------------------------------------------------------------------------
  // Opening: the account and its side
  // ---------------------------------------------------------------------------

  lemma BasisOnly(s: Pair, basis: i128, t: Pair)
    requires SetBasis(s, basis) == Done(t)
    ensures t.p == s.p.(basis := basis) && t.m.amm == s.m.amm && t.m.funds == s.m.funds
  {
  }

  /** The position has been settled at the current indices of the side: settling it again books nothing. */
  predicate FreshOn(p: PositionV, b: Book) {
    p.aSnap == b.a && p.kSnap == b.k && p.epochSnap == b.epoch
  }

  /** Re-basing a position touches nothing but its basis and its snapshots, and these are the current ones. */
  lemma RebaseOnly(s: Pair, oldEff: i128, delta: int, t: Pair)
    requires Rebase(s, oldEff, delta) == Done(t)
    ensures t.p == s.p.(basis := t.p.basis, aSnap := t.p.aSnap, kSnap := t.p.kSnap, epochSnap := t.p.epochSnap)
    ensures t.p.basis == oldEff + delta && (t.p.basis != 0 ==> FreshOn(t.p, s.m.Side(SideOf(t.p.basis))))
  {
    hide SetBasis;
    hide LeavesRemainder;
    hide EffectiveQ;
    hide UpdateOi;
    var orphaned := s.(m := OrphanRemainder(s.p, s.m));
    BasisOnly(orphaned, oldEff + delta, SetBasis(orphaned, oldEff + delta).value);
  }

  lemma EnlargeOnly(s: Pair, side: Side, size: u64, quote: u128, t: Pair)
    requires Enlarge(s, side, size, quote) == Done(t)
    ensures t.p == s.p.(basis := t.p.basis, aSnap := t.p.aSnap, kSnap := t.p.kSnap, epochSnap := t.p.epochSnap,
                        baseSize := s.p.baseSize + SignedSize(side, size), quoteEntry := s.p.quoteEntry + quote)
    ensures EffectiveQ(s.p, s.m).Done? && (t.p.basis != 0 ==> FreshOn(t.p, s.m.Side(SideOf(t.p.basis))))
  {
    hide Rebase;
    hide EffectiveQ;
    var oldEff := EffectiveQ(s.p, s.m).value;
    var s0 := s.(p := s.p.(baseSize := s.p.baseSize + SignedSize(side, size), quoteEntry := s.p.quoteEntry + quote));
    RebaseOnly(s0, oldEff, SignedSize(side, size), Rebase(s0, oldEff, SignedSize(side, size)).value);
  }

  lemma StartOnly(s: Pair, side: Side, slot: u64, t: Pair)
    requires StartPosition(s, side, slot) == Done(t)
    ensures t.p == s.p.(pnl := 0, reserved := 0, pegAtEntry := s.m.amm.peg, kSnap := s.m.Side(side).k, warmupSlope := 0,
                        warmupStart := slot, feeCredits := 0, rewardSnap := s.m.Side(side).acc)
    ensures t.m == s.m.(funds := s.m.funds.(pnlPos := t.m.funds.pnlPos, matured := t.m.funds.matured))
  {
  }

  /** The states of an opening, one after the other. */
  lemma OpenChain(rest: seq<PositionV>, s: Pair, env: Env, side: Side, size: u64, maxSlippage: u16, isCreator: bool,
                  o: Opening, t: Pair)
    requires Inv(rest, s) && AtRest(s.m) && 0 < size <= I64_MAX
    requires Opens(s, env, side, size, maxSlippage, isCreator, o, t)
    ensures Inv(rest, o.s1) && AtRest(o.s1.m) && Current(o.s1.p, o.s1.m)
    ensures o.s1.m.amm == s.m.amm && o.s1.m.params == s.m.params
    ensures o.m2 == o.s1.m.(amm := o.m2.amm, twap := o.m2.twap) && Seen(o.s1.m, size, env.price, o.m2)
    ensures Traded(s.m.amm, SignedSize(side, size), o.m2.amm) && o.quote == Abs(o.m2.amm.quote - s.m.amm.quote)
    ensures o.s1.p.baseSize != 0 ==> SideOf(o.s1.p.baseSize) == side
    ensures o.s3.p == o.s1.p.(collateral := o.s1.p.collateral - o.fees.total) && o.s3.m == o.m2.(funds := o.s3.m.funds)
    ensures o.s3.m.funds == o.s1.m.funds.(cTot := o.s1.m.funds.cTot - o.fees.total)
    ensures Inv(rest, o.s3) && AtRest(o.s3.m) && Current(o.s3.p, o.s3.m)
    ensures o.fees.total <= o.s1.p.collateral
  {
    hide Inv;
    hide Touch;
    hide OpenSwap;
    hide OpenFees;
    hide TakeFee;
    hide Enlarge;
    hide IsAboveInitial;
    hide CreditFees;
    hide StartPosition;
    hide Finalize;
    hide Current;
    hide Traces.Flow;
    hide Traded;
    hide Seen;
    hide SameExposure;
    hide Vamm.OnCurve;
    TouchKeeps(rest, s, env, o.s1);
    InvMoney(rest, s);
    OpenAllowedExactly(o.s1, side, size);
    hide OpenAllowed;
    OpenSwapExactly(o.s1.m, side, size, env.price, maxSlippage, o.m2, o.quote);
    OpenSwapKeeps(rest, o.s1, side, size, env.price, maxSlippage, o.m2);
    CurrentFrame(o.s1, o.s1.(m := o.m2));
    FeeTaken(o.s1.(m := o.m2), o.fees.total, o.s3);
    TakeFeeKeeps(rest, o.s1.(m := o.m2), o.fees.total, o.s3);
    MoneyKeepsCurrent(o.s1.(m := o.m2), o.s3);
  }

  /** And what the last of them leaves. */
  lemma OpenEnd(rest: seq<PositionV>, s: Pair, env: Env, side: Side, size: u64, maxSlippage: u16, isCreator: bool,
                o: Opening, t: Pair)
    requires Inv(rest, s) && AtRest(s.m) && 0 < size <= I64_MAX
    requires Opens(s, env, side, size, maxSlippage, isCreator, o, t)
    ensures OnlyBook(o.s3, side, o.s4)
    ensures t == Pair(o.s6.p.(lastActivity := env.slot), o.s6.m)
    ensures o.s6.m == o.m5.(funds := o.s6.m.funds)
    ensures o.s6.m.funds.creatorFees == o.m5.funds.creatorFees && o.s6.m.funds.protocolFees == o.m5.funds.protocolFees
    ensures o.m5 == o.s4.m.(funds := o.m5.funds)
    ensures o.m5.funds.creatorFees == o.s4.m.funds.creatorFees + o.fees.creator
    ensures o.m5.funds.protocolFees == o.s4.m.funds.protocolFees + o.fees.protocol
  {
    OpenChain(rest, s, env, side, size, maxSlippage, isCreator, o, t);
    hide Inv;
    hide Touch;
    hide OpenAllowed;
    hide OpenSwap;
    hide OpenFees;
    hide TakeFee;
    hide Enlarge;
    hide IsAboveInitial;
    hide CreditFees;
    hide StartPosition;
    hide Current;
    hide Traded;
    hide FinalizePending;
    EnlargeKeeps(rest, o.s3, side, size, o.quote, o.s4);
    SidesRun(rest, o.s3);
    FeesCredited(o.s4.m, o.fees.creator, o.fees.protocol, o.m5);
    if o.s1.p.baseSize == 0 {
      StartOnly(o.s4.(m := o.m5), side, env.slot, o.s6);
    }
    FinalizeAtRest(o.s6.m, t.m);
  }

  // ---------------------------------------------------------------------------
  // What an opening does
  // ---------------------------------------------------------------------------

  /**
   An opening takes exactly its size from the curve, in its own direction, and records what it paid; the
   account's raw size and what it effectively holds grow by exactly that size, and so does the open
   interest of the side.  It leaves the account settled, and the mark price before it observed.
   */
  lemma OpenTrades(rest: seq<PositionV>, s: Pair, env: Env, side: Side, size: u64, leverage: u32, maxSlippage: u16,
                   isCreator: bool, t: Pair)
    requires Inv(rest, s) && AtRest(s.m)
    requires OpenBody(s, env, side, size, leverage, maxSlippage, isCreator) == Done(t)
    ensures Touch(s, env).Done? && Traded(s.m.amm, SignedSize(side, size), t.m.amm)
    ensures var s1 := Touch(s, env).value;
            && t.p.baseSize == s1.p.baseSize + SignedSize(side, size)
            && t.p.quoteEntry == s1.p.quoteEntry + Abs(t.m.amm.quote - s.m.amm.quote)
            && Holds(t.p, side) && Abs(t.p.basis) == OldSize(s1.p, s1.m.Side(side)) + size
            && t.m.Side(side).oi == s1.m.Side(side).oi + size
            && FreshOn(t.p, t.m.Side(side)) && Seen(s1.m, size, env.price, t.m)
  {
    hide Inv;
    hide OpenBody;
    hide Touch;
    hide OpenAllowed;
    hide OpenSwap;
    hide OpenFees;
    hide TakeFee;
    hide Enlarge;
    hide IsAboveInitial;
    hide CreditFees;
    hide StartPosition;
    hide Finalize;
    hide Current;
    hide OldSize;
    hide Traded;
    var o := OpenParts(s, env, side, size, leverage, maxSlippage, isCreator, t);
    OpenChain(rest, s, env, side, size, maxSlippage, isCreator, o, t);
    OpenEnd(rest, s, env, side, size, maxSlippage, isCreator, o, t);
    EnlargeOnly(o.s3, side, size, o.quote, o.s4);
    OpenAddsExactly(rest, o.s3, side, size, o.quote, o.s4);
    SameOldSize(o.s1.p, o.s3.p, o.s1.m.Side(side), o.s3.m.Side(side));
    if o.s1.p.baseSize == 0 {
      StartOnly(o.s4.(m := o.m5), side, env.slot, o.s6);
    }
  }

  lemma SameOldSize(p: PositionV, q: PositionV, b: Book, c: Book)
    requires q.basis == p.basis && q.aSnap == p.aSnap && b == c
    ensures OldSize(q, c) == OldSize(p, b)
  {
  }

  /** It costs the trading fee, all of which the creator and the protocol can claim; a new position starts clean. */
  lemma OpenCharges(rest: seq<PositionV>, s: Pair, env: Env, side: Side, size: u64, leverage: u32, maxSlippage: u16,
                    isCreator: bool, t: Pair)
    requires Inv(rest, s) && AtRest(s.m)
    requires OpenBody(s, env, side, size, leverage, maxSlippage, isCreator) == Done(t)
    ensures Touch(s, env).Done?
    ensures var s1, fee := Touch(s, env).value, TradingFee(s.m, size, env.price);
            var creator := if isCreator then 0 else fee / 10;
            && t.p.collateral == s1.p.collateral - fee
            && t.m.funds.creatorFees == s1.m.funds.creatorFees + creator
            && t.m.funds.protocolFees == s1.m.funds.protocolFees + (fee - creator)
            && if s1.p.baseSize == 0
               then t.p.pnl == 0 && t.p.reserved == 0 && t.p.feeCredits == 0 && t.p.pegAtEntry == s.m.amm.peg
               else t.p.pnl == s1.p.pnl && t.p.reserved == s1.p.reserved && t.p.feeCredits == s1.p.feeCredits
                    && t.p.pegAtEntry == s1.p.pegAtEntry
  {
    hide Inv;
    hide OpenBody;
    hide Touch;
    hide OpenAllowed;
    hide OpenSwap;
    hide OpenFees;
    hide TakeFee;
    hide Enlarge;
    hide IsAboveInitial;
    hide CreditFees;
    hide StartPosition;
    hide Finalize;
    hide Current;
    hide TradingFee;
    var o := OpenParts(s, env, side, size, leverage, maxSlippage, isCreator, t);
    OpenChain(rest, s, env, side, size, maxSlippage, isCreator, o, t);
    OpenEnd(rest, s, env, side, size, maxSlippage, isCreator, o, t);
    OpenFeesExactly(o.m2, size, env.price, isCreator, o.fees);
    SameFee(s.m, o.m2, size, env.price);
    EnlargeOnly(o.s3, side, size, o.quote, o.s4);
    if o.s1.p.baseSize == 0 {
      StartOnly(o.s4.(m := o.m5), side, env.slot, o.s6);
    }
  }

  lemma SameFee(m: MarketV, n: MarketV, size: nat, price: nat)
    requires n.params == m.params
    ensures TradingFee(n, size, price) == TradingFee(m, size, price)
  {
  }

  /** An opening is only accepted within the limits of the market, on a side that is not draining. */
  lemma OpenWithinLimits(s: Pair, env: Env, side: Side, size: u64, leverage: u32, maxSlippage: u16, isCreator: bool,
                         t: Pair)
    requires OpenBody(s, env, side, size, leverage, maxSlippage, isCreator) == Done(t)
    ensures !env.paused && env.active && 100 <= leverage <= s.m.params.maxLeverage && Touch(s, env).Done?
    ensures var s1 := Touch(s, env).value;
            && (s1.p.baseSize != 0 ==> SideOf(s1.p.baseSize) == side) && s1.m.Side(side).mode == Normal
            && (s1.m.params.maxPosition > 0 ==>
                  WithinLimit(s1.p.baseSize + SignedSize(side, size), s1.m.params.maxPosition))
            && (s1.m.params.maxOi > 0 ==> s1.m.Side(side).oi + size <= s1.m.params.maxOi)
  {
    hide OpenBody;
    hide Touch;
    hide OpenAllowed;
    hide OpenSwap;
    hide OpenFees;
    hide TakeFee;
    hide Enlarge;
    hide IsAboveInitial;
    hide CreditFees;
    hide StartPosition;
    hide Finalize;
    hide WithinLimit;
    var o := OpenParts(s, env, side, size, leverage, maxSlippage, isCreator, t);
    OpenAllowedExactly(o.s1, side, size);
  }

  // ---------------------------------------------------------------------------
  // The margin of an opening
  // ---------------------------------------------------------------------------

  /** The funds once a fee has left the collateral total. */
  function AfterFee(f: Funds, fee: nat): Funds {
    if fee <= f.cTot then f.(cTot := f.cTot - fee) else f
  }

  /** What the account is worth for the margin test of an opening: as it was found, less the fee. */
  function OpeningEquity(s: Pair, fee: nat): int {
    s.p.collateral - fee + Min(s.p.pnl, 0) + HaircutShare(AfterFee(s.m.funds, fee), ReleasedPos(s.p))
    - FeeDebt(s.p.feeCredits)
  }

  lemma EquityAfterFee(s: Pair, fee: nat, f: Funds, q: PositionV)
    requires fee <= s.m.funds.cTot && f == s.m.funds.(cTot := s.m.funds.cTot - fee)
    requires q.collateral == s.p.collateral - fee && q.pnl == s.p.pnl && q.reserved == s.p.reserved
    requires q.feeCredits == s.p.feeCredits
    ensures MarginEquity(f, q) == OpeningEquity(s, fee)
  {
    hide HaircutShare;
  }

  /** A position that has just been re-based is as large as it was made. */
  lemma RebasedEffective(q: PositionV, m: MarketV, side: Side)
    requires q.basis != 0 && SideOf(q.basis) == side && q.aSnap == m.Side(side).a > 0
    requires q.epochSnap == m.Side(side).epoch && EffectiveQ(q, m).Done?
    ensures Abs(EffectiveQ(q, m).value) == Abs(q.basis)
  {
    FullSize(Abs(q.basis), q.aSnap);
  }

  lemma EnlargedEffective(rest: seq<PositionV>, s: Pair, side: Side, size: u64, quote: u128, t: Pair)
    requires Inv(rest, s) && AtRest(s.m) && Current(s.p, s.m) && 0 < size
    requires s.p.baseSize != 0 ==> SideOf(s.p.baseSize) == side
    requires Enlarge(s, side, size, quote) == Done(t) && EffectiveQ(t.p, t.m).Done?
    ensures EffectiveQ(s.p, s.m).Done? && Abs(EffectiveQ(t.p, t.m).value) == HeldWith(s, size)
  {
    InvShape(rest, s);
    CurrentOnSide(rest, s, side);
    assert Invariants.SideOk(side, rest, s);
    hide Inv;
    EnlargeOnly(s, side, size, quote, t);
    hide Enlarge;
    var target, mid := EnlargeForm(s, side, size, quote, t);
    EffectiveIsSize(s.p, s.m, side, EffectiveQ(s.p, s.m).value);
    hide OldSize;
    hide OnSide;
    RebasedEffective(t.p, t.m, side);
    hide EffectiveQ;
  }

  /** What the account effectively holds together with `size` more units. */
  function HeldWith(s: Pair, size: nat): nat {
    match EffectiveQ(s.p, s.m)
    case Done(eff) => Abs(eff) + size
    case Abort => size
  }

  lemma SameHeld(s: Pair, t: Pair, size: nat)
    requires t.p.basis == s.p.basis && t.p.aSnap == s.p.aSnap && t.p.epochSnap == s.p.epochSnap
    requires t.m.long == s.m.long && t.m.short == s.m.short
    ensures HeldWith(t, size) == HeldWith(s, size)
  {
  }

  /**
   An opening leaves at least the initial margin of everything the account then holds.  The test comes
   before the profit or loss of an earlier position is dropped from a new one, and before the fee
   becomes claimable.
   */
  lemma OpenKeepsMargin(rest: seq<PositionV>, s: Pair, env: Env, side: Side, size: u64, leverage: u32,
                        maxSlippage: u16, isCreator: bool, t: Pair)
    requires Inv(rest, s) && AtRest(s.m)
    requires OpenBody(s, env, side, size, leverage, maxSlippage, isCreator) == Done(t)
    ensures Touch(s, env).Done?
    ensures var s1 := Touch(s, env).value;
            OpeningEquity(s1, TradingFee(s.m, size, env.price))
            >= Initial(s.m, HeldWith(s1, size), env.price)
  {
    hide Inv;
    hide OpenBody;
    hide Touch;
    hide OpenAllowed;
    hide OpenSwap;
    hide OpenFees;
    hide TakeFee;
    hide Enlarge;
    hide IsAboveInitial;
    hide CreditFees;
    hide StartPosition;
    hide Finalize;
    hide Current;
    hide Traded;
    hide TradingFee;
    hide EffectiveQ;
    hide HeldWith;
    hide MarginEquity;
    hide OpeningEquity;
    hide Required;
    var o := OpenParts(s, env, side, size, leverage, maxSlippage, isCreator, t);
    OpenChain(rest, s, env, side, size, maxSlippage, isCreator, o, t);
    OpenEnd(rest, s, env, side, size, maxSlippage, isCreator, o, t);
    OpenFeesExactly(o.m2, size, env.price, isCreator, o.fees);
    SameFee(s.m, o.m2, size, env.price);
    EnlargeOnly(o.s3, side, size, o.quote, o.s4);
    TestedMargin(o.s4.p, o.s4.m, env.price, o.s4.p);
    EnlargedEffective(rest, o.s3, side, size, o.quote, o.s4);
    SameHeld(o.s1, o.s3, size);
    CollateralInTotal(rest, o.s1);
    EquityAfterFee(o.s1, o.fees.total, o.s4.m.funds, o.s4.p);
  }

  lemma CollateralInTotal(rest: seq<PositionV>, s: Pair)
    requires Inv(rest, s)
    ensures s.p.collateral <= s.m.funds.cTot
  {
    RestBounds(rest, s.m);
  }

  // ---------------------------------------------------------------------------
  // Resets and the curve
  // ---------------------------------------------------------------------------

  /** Neither side has been reset. */
  predicate SameEpochs(m: MarketV, n: MarketV) {
    m.long.epoch == n.long.epoch && m.short.epoch == n.short.epoch
  }

  /** Epochs only grow, and the curve and the sides are touched only when one does. */
  ghost predicate CurveUnlessReset(m: MarketV, n: MarketV) {
    && m.long.epoch <= n.long.epoch && m.short.epoch <= n.short.epoch
    && (SameEpochs(m, n) ==>
          && n.amm == m.amm
          && n.long == m.long.(pending := n.long.pending) && n.short == m.short.(pending := n.short.pending))
    && n.twap == m.twap
  }

  lemma CheckDustCurve(m: MarketV, side: Side, n: MarketV)
    requires Running(m) && CheckDust(m, side) == Done(n)
    ensures CurveUnlessReset(m, n)
  {
    hide Vamm.Normalize;
  }

  lemma FinalizeCurve(m: MarketV, n: MarketV)
    requires Running(m) && FinalizePending(m) == Done(n)
    ensures CurveUnlessReset(m, n)
  {
    hide Vamm.Normalize;
  }

  lemma TouchEpochs(rest: seq<PositionV>, s: Pair, env: Env, t: Pair)
    requires Inv(rest, s) && AtRest(s.m) && Touch(s, env) == Done(t)
    ensures SameEpochs(s.m, t.m)
  {
    hide Inv;
    hide Accrue;
    hide SettleSideEffects;
    hide AdvanceWarmup;
    hide Traces.Flow;
    hide Current;
    var m := Accrue(s.m, env.slot, env.price).value;
    AccrueKeeps(rest, s, env.slot, env.price, m);
    var s1 := SettleSideEffects(s.(m := m)).value;
    SettleSideEffectsKeeps(rest, s.(m := m), s1);
    SettledClock(s.(m := m), s1);
    AdvanceWarmupKeeps(rest, s1, env.slot, t);
  }

  lemma SettledClock(s: Pair, t: Pair)
    requires Settled(s, t)
    ensures t.m.feed == s.m.feed && SameEpochs(s.m, t.m)
  {
  }

  // ---------------------------------------------------------------------------
  // Closing: the pieces of the handler
  // ---------------------------------------------------------------------------

  /** The states a close goes through. */
  datatype Closing = Closing(s1: Pair, size: u64, eff: i128, effClose: u128, m2: MarketV, fee: u128, s3: Pair, s4: Pair,
                             s5: Pair, s6: Pair)

  ghost predicate Closes(s: Pair, env: Env, amount: Amount, isCreator: bool, c: Closing, t: Pair) {
    var side := SideOf(c.s1.p.baseSize);
    && Touch(s, env) == Done(c.s1)
    && CloseSize(c.s1.p, amount) == Done(c.size)
    && EffectiveQ(c.s1.p, c.s1.m) == Done(c.eff) && EffectiveClose(c.s1.p, c.eff, c.size) == Done(c.effClose)
    && CloseSwap(c.s1.m, side == Long, c.size, c.effClose, env.price) == Done(c.m2)
    && Vamm.Notional(c.size, env.price).Done?
    && Vamm.Fee(Vamm.Notional(c.size, env.price).value, c.m2.params.tradingFeeBps) == Done(c.fee)
    && CloseFee(c.s1.(m := c.m2), c.fee, isCreator) == Done(c.s3)
    && Reduce(c.s3, c.eff, c.size, c.effClose) == Done(c.s4)
    && SettleClosed(c.s4) == Done(c.s5)
    && CheckSide(c.s5, side) == Done(c.s6)
    && Finalize(Stamp(c.s6, env.slot)) == Done(t)
  }

  lemma CloseParts(s: Pair, env: Env, amount: Amount, isCreator: bool, t: Pair) returns (c: Closing)
    requires CloseBody(s, env, amount, isCreator) == Done(t)
    ensures Closes(s, env, amount, isCreator, c, t) && env.slot > c.s1.p.lastActivity && s.p.baseSize != 0
  {
    hide Touch;
    hide CloseSize;
    hide EffectiveQ;
    hide EffectiveClose;
    hide CloseSwap;
    hide CloseFee;
    hide Reduce;
    hide SettleClosed;
    hide CheckSide;
    hide Finalize;
    hide Vamm.Notional;
    hide Vamm.Fee;
    var s1 := Touch(s, env).value;
    var side := SideOf(s1.p.baseSize);
    var size := CloseSize(s1.p, amount).value;
    var eff := EffectiveQ(s1.p, s1.m).value;
    var effClose := EffectiveClose(s1.p, eff, size).value;
    var m2 := CloseSwap(s1.m, side == Long, size, effClose, env.price).value;
    var fee := Vamm.Fee(Vamm.Notional(size, env.price).value, m2.params.tradingFeeBps).value;
    var s3 := CloseFee(s1.(m := m2), fee, isCreator).value;
    var s4 := Reduce(s3, eff, size, effClose).value;
    var s5 := SettleClosed(s4).value;
    var s6 := CheckSide(s5, side).value;
    c := Closing(s1, size, eff, effClose, m2, fee, s3, s4, s5, s6);
  }

  /** A close puts back into the curve what a long held, and takes out of it what a short owed. */
  lemma CloseSwapExactly(m: MarketV, wasLong: bool, size: u64, effClose: u128, price: u64, n: MarketV)
    requires Vamm.OnCurve(m.amm) && CloseSwap(m, wasLong, size, effClose, price) == Done(n)
    ensures Traded(m.amm, if wasLong then 0 - effClose else effClose, n.amm) && n == m.(amm := n.amm, twap := n.twap)
    ensures Seen(m, size, price, n)
  {
    hide Vamm.OnCurve;
    hide Vamm.MarkPrice;
    var mark := Vamm.MarkPrice(m.amm).value;
    var weight := Vamm.Notional(size, price).value;
    var m1 := Observe(m, mark, weight);
    var swap := SwapFor(m1, !wasLong, effClose).value;
    SwapTrades(m1, !wasLong, effClose, swap);
    hide SwapFor;
    hide Traded;
  }

  /** The effective size that goes with a close: all of it with a full one, else in proportion, rounded down. */
  lemma CloseProportion(p: PositionV, eff: i128, size: u64, effClose: u128)
    requires eff != 0 && p.baseSize != 0 && EffectiveClose(p, eff, size) == Done(effClose)
    ensures size == Abs(p.baseSize) ==> effClose == Abs(eff)
    ensures size != Abs(p.baseSize) ==>
              effClose * Abs(p.baseSize) <= Abs(eff) * size < (effClose + 1) * Abs(p.baseSize)
  {
    QuotientRange(Abs(eff) * size, Abs(p.baseSize));
  }

  /** What may be closed: everything, or a part that leaves at least a hundred units. */
  lemma CloseSizeExactly(p: PositionV, size: u64)
    ensures CloseSize(p, All) == Done(Abs(p.baseSize))
    ensures CloseSize(p, Part(size))
         == if 0 < size && (size == Abs(p.baseSize) || size + 100 <= Abs(p.baseSize)) then Done(size) else Abort
  {
  }

  lemma EntryExactly(p: PositionV, size: u64, share: u128)
    requires EntryShare(p, size) == Done(share) && p.baseSize != 0 && size <= Abs(p.baseSize)
    ensures share <= p.quoteEntry
    ensures p.quoteEntry * (Abs(p.baseSize) - size) <= (p.quoteEntry - share) * Abs(p.baseSize)
    ensures (p.quoteEntry - share) * Abs(p.baseSize) < p.quoteEntry * (Abs(p.baseSize) - size) + Abs(p.baseSize)
  {
    var q, n := p.quoteEntry, Abs(p.baseSize);
    MulPos(q, size);
    QuotientRange(q * size, n);
    MulMono(size, n, q);
    DivAtMost(q * size, n, q);
    EntrySpread(q, share, n, size);
  }

  lemma EntrySpread(q: int, share: int, n: int, size: int)
    ensures (q - share) * n == q * n - share * n && q * (n - size) == q * n - q * size
    ensures (share + 1) * n == share * n + n
  {
  }

  /** What a close leaves of the recorded entry: the part of what remains open, rounded up to a unit. */
  ghost predicate EntryKept(p: PositionV, size: nat, q: PositionV) {
    if Abs(p.baseSize) == size then q.quoteEntry == 0
    else
      && p.quoteEntry * (Abs(p.baseSize) - size) <= q.quoteEntry * Abs(p.baseSize)
      && q.quoteEntry * Abs(p.baseSize) < p.quoteEntry * (Abs(p.baseSize) - size) + Abs(p.baseSize)
  }

  lemma ReduceEntry(s: Pair, eff: i128, size: u64, effClose: u128, t: Pair)
    requires Reduce(s, eff, size, effClose) == Done(t) && s.p.baseSize != 0 && 0 < size <= Abs(s.p.baseSize)
    ensures t.p.basis != 0 ==> FreshOn(t.p, s.m.Side(SideOf(t.p.basis)))
    ensures EntryKept(s.p, size, t.p) && Abs(t.p.baseSize) == Abs(s.p.baseSize) - size
    ensures t.p == s.p.(basis := t.p.basis, aSnap := t.p.aSnap, kSnap := t.p.kSnap, epochSnap := t.p.epochSnap,
                        baseSize := t.p.baseSize, quoteEntry := t.p.quoteEntry)
    ensures size <= I64_MAX ==> t.p.baseSize == s.p.baseSize - SignedSize(SideOf(s.p.baseSize), size)
  {
    hide Rebase;
    hide EntryShare;
    var side := SideOf(s.p.baseSize);
    var baseSize := s.p.baseSize - SignedSize(side, WrapI64(size));
    var share := EntryShare(s.p, size).value;
    EntryExactly(s.p, size, share);
    var s0 := s.(p := s.p.(baseSize := baseSize, quoteEntry := SatSub(s.p.quoteEntry, share)));
    RebaseOnly(s0, eff, 0 - SignedSize(side, effClose), Rebase(s0, eff, 0 - SignedSize(side, effClose)).value);
  }

  /** The states of a close up to the trade on the curve and the fee. */
  lemma CloseChain(rest: seq<PositionV>, s: Pair, env: Env, amount: Amount, isCreator: bool, c: Closing, t: Pair)
    requires Inv(rest, s) && AtRest(s.m) && Closes(s, env, amount, isCreator, c, t)
    ensures Inv(rest, c.s1) && AtRest(c.s1.m) && c.s1.m.amm == s.m.amm && c.s1.m.params == s.m.params
    ensures SameEpochs(s.m, c.s1.m)
    ensures c.s1.p.baseSize != 0 && 0 < c.size <= Abs(c.s1.p.baseSize) && c.eff != 0
    ensures c.m2 == c.s1.m.(amm := c.m2.amm, twap := c.m2.twap) && Seen(c.s1.m, c.size, env.price, c.m2)
    ensures Traded(s.m.amm, if c.s1.p.baseSize > 0 then 0 - c.effClose else c.effClose, c.m2.amm)
    ensures Inv(rest, c.s3) && AtRest(c.s3.m) && Current(c.s3.p, c.s3.m) && c.s3.m == c.m2.(funds := c.s3.m.funds)
    ensures EffectiveQ(c.s3.p, c.s3.m) == Done(c.eff) && SameExposure(c.s1.p, c.s3.p)
  {
    hide Inv;
    hide Touch;
    hide CloseSize;
    hide EffectiveQ;
    hide EffectiveClose;
    hide CloseSwap;
    hide CloseFee;
    hide Reduce;
    hide SettleClosed;
    hide CheckSide;
    hide Finalize;
    hide Vamm.Notional;
    hide Vamm.Fee;
    hide Current;
    hide Traded;
    hide Traces.Flow;
    hide Vamm.OnCurve;
    TouchKeeps(rest, s, env, c.s1);
    TouchEpochs(rest, s, env, c.s1);
    InvMoney(rest, s);
    CloseSizeRange(c.s1.p, amount, c.size);
    var side := SideOf(c.s1.p.baseSize);
    CloseSwapExactly(c.s1.m, side == Long, c.size, c.effClose, env.price, c.m2);
    CloseSwapKeeps(rest, c.s1, side == Long, c.size, c.effClose, env.price, c.m2);
    ClosesSomething(rest, c.s1, c.eff, c.size, c.effClose);
    ExposedClose(rest, c.s1, c.eff);
    var s2 := c.s1.(m := c.m2);
    CurrentFrame(c.s1, s2);
    CloseFeeKeeps(rest, s2, c.fee, isCreator, c.s3);
    MoneyKeepsCurrent(s2, c.s3);
  }

  lemma ExposedClose(rest: seq<PositionV>, s: Pair, eff: i128)
    requires Inv(rest, s) && Current(s.p, s.m) && EffectiveQ(s.p, s.m) == Done(eff) && s.p.baseSize != 0
    ensures eff != 0
  {
    InvShape(rest, s);
    CurrentExposed(s.p, s.m);
    hide Inv;
    hide EffectiveQ;
    hide Current;
  }

  /** From the reduced position to the end: settlement leaves the exposure alone, and only a reset moves the curve. */
  lemma CloseEnd(s: Pair, env: Env, amount: Amount, isCreator: bool, c: Closing, t: Pair)
    requires Closes(s, env, amount, isCreator, c, t) && c.s4.p.reserved <= PosPart(c.s4.p.pnl) && Running(c.s4.m)
    ensures t.p.baseSize == c.s4.p.baseSize && t.p.quoteEntry == c.s4.p.quoteEntry
    ensures t.p.feeCredits == c.s5.p.feeCredits && t.p.collateral == c.s5.p.collateral
    ensures t.p.pnl == c.s5.p.pnl && t.p.reserved == c.s5.p.reserved && t.p.basis == c.s4.p.basis
    ensures c.s4.p.baseSize != 0 ==>
              t.p.aSnap == c.s4.p.aSnap && t.p.kSnap == c.s4.p.kSnap && t.p.epochSnap == c.s4.p.epochSnap
    ensures c.s4.p.baseSize != 0 ==> c.s5.p.feeCredits == c.s4.p.feeCredits
    ensures CurveUnlessReset(c.s4.m, t.m)
    ensures t.m.funds.creatorFees == c.s4.m.funds.creatorFees && t.m.funds.protocolFees == c.s4.m.funds.protocolFees
  {
    hide Touch;
    hide CloseSize;
    hide EffectiveQ;
    hide EffectiveClose;
    hide CloseSwap;
    hide CloseFee;
    hide Reduce;
    hide SettleClosed;
    hide CheckDust;
    hide FinalizePending;
    hide Vamm.Notional;
    hide Vamm.Fee;
    SettleClosedOnly(c.s4, c.s5);
    var side := SideOf(c.s1.p.baseSize);
    CheckDustCurve(c.s5.m, side, c.s6.m);
    CheckRuns(c.s5.m, side, c.s6.m);
    FinalizeCurve(c.s6.m, t.m);
    ResetsStill(c.s5.m, side, c.s6.m);
    ResetsStill(c.s6.m, side, t.m);
  }

  lemma SettleClosedOnly(s: Pair, t: Pair)
    requires SettleClosed(s) == Done(t) && s.p.reserved <= PosPart(s.p.pnl)
    ensures t.p.baseSize == s.p.baseSize && t.p.quoteEntry == s.p.quoteEntry && t.p.basis == s.p.basis
    ensures t.m == s.m.(funds := t.m.funds)
    ensures s.p.baseSize != 0 ==> t.p.feeCredits == s.p.feeCredits && t.p.aSnap == s.p.aSnap
                                  && t.p.kSnap == s.p.kSnap && t.p.epochSnap == s.p.epochSnap
    ensures t.m.funds.creatorFees == s.m.funds.creatorFees && t.m.funds.protocolFees == s.m.funds.protocolFees
  {
    hide ConvertProfit;
    hide SettleLosses;
    hide ResolveFlatNegative;
    hide SweepFeeDebt;
    var s1 := ConvertProfit(s).value;
    ConversionEnds(s, s1);
    ConvertedOnly(s, s1);
    ConvertStill(s, s1);
    if s.p.baseSize == 0 {
      var s2 := SettleLosses(s1).value;
      LossesExactly(s1, s2);
      LossesEnd(s1, s2);
      LossesOnly(s1, s2);
      LossesStill(s1, s2);
      var s3 := ResolveFlatNegative(s2).value;
      FlatEnds(s2, s3);
      FlatOnly(s2, s3);
      SweepEnds(s3, SweepFeeDebt(s3).value);
      SweepOnly(s3, SweepFeeDebt(s3).value);
    }
  }

  lemma ConvertedOnly(s: Pair, t: Pair)
    requires ConvertProfit(s) == Done(t)
    ensures t.p.quoteEntry == s.p.quoteEntry && t.p.kSnap == s.p.kSnap
  {
    hide Payout;
  }

  lemma LossesOnly(s: Pair, t: Pair)
    requires SettleLosses(s) == Done(t)
    ensures t.p.quoteEntry == s.p.quoteEntry
  {
  }

  lemma FlatOnly(s: Pair, t: Pair)
    requires ResolveFlatNegative(s) == Done(t)
    ensures t.m.funds.creatorFees == s.m.funds.creatorFees && t.m.funds.protocolFees == s.m.funds.protocolFees
  {
    hide EffectiveQ;
  }

  lemma SweepOnly(s: Pair, t: Pair)
    requires SweepFeeDebt(s) == Done(t)
    ensures t.m.funds.creatorFees == s.m.funds.creatorFees && t.m.funds.protocolFees == s.m.funds.protocolFees
  {
  }

  // ---------------------------------------------------------------------------
  // What a close does
  // ---------------------------------------------------------------------------

  lemma CloseMiddle(rest: seq<PositionV>, s: Pair, env: Env, amount: Amount, isCreator: bool, c: Closing, t: Pair)
    requires Inv(rest, s) && AtRest(s.m) && Closes(s, env, amount, isCreator, c, t)
    ensures c.s4.p.reserved <= PosPart(c.s4.p.pnl) && Running(c.s4.m) && SameEpochs(c.s3.m, c.s4.m)
    ensures var side := SideOf(c.s1.p.baseSize);
            && c.s4.m.Side(side).oi == c.s3.m.Side(side).oi - c.effClose
            && c.s4.m.Side(side.Opposite()) == c.s3.m.Side(side.Opposite())
    ensures c.s4.m.amm == c.s3.m.amm && c.s4.m.funds == c.s3.m.funds && c.s4.m.twap == c.s3.m.twap
    ensures c.s4.p.basis != 0 ==> FreshOn(c.s4.p, c.s4.m.Side(SideOf(c.s4.p.basis)))
    ensures EntryKept(c.s3.p, c.size, c.s4.p) && c.s4.p.feeCredits == c.s3.p.feeCredits
    ensures c.s3.p.baseSize != -TWO63 ==>
              c.s4.p.baseSize == c.s3.p.baseSize - SignedSize(SideOf(c.s3.p.baseSize), c.size)
    ensures Abs(c.s4.p.baseSize) == Abs(c.s3.p.baseSize) - c.size && (c.s4.p.baseSize == 0 ==> c.s4.p.basis == 0)
  {
    CloseChain(rest, s, env, amount, isCreator, c, t);
    hide Touch;
    hide CloseSize;
    hide EffectiveQ;
    hide CloseSwap;
    hide CloseFee;
    hide SettleClosed;
    hide CheckSide;
    hide Finalize;
    hide Vamm.Notional;
    hide Vamm.Fee;
    hide Traded;
    var side := SideOf(c.s1.p.baseSize);
    SameEffectiveClose(c.s1.p, c.s3.p, c.eff, c.size);
    hide EffectiveClose;
    ReduceEntry(c.s3, c.eff, c.size, c.effClose, c.s4);
    ReduceKeeps(rest, c.s3, side, c.eff, c.size, c.effClose, c.s4);
    CloseRemovesExactly(rest, c.s3, side, c.eff, c.size, c.effClose, c.s4);
    hide Reduce;
    InvShape(rest, c.s4);
    SidesRun(rest, c.s4);
    hide Inv;
    hide EntryKept;
    hide Current;
  }

  /**
   A close of `size` raw units trades back exactly the effective size that goes with it, against the
   direction of the position, unless it resets a side, which balances the curve; what is left of the
   recorded entry is the part of what is left of the position; and the open interest falls by what
   has been traded back.
   */
  lemma CloseTrades(rest: seq<PositionV>, s: Pair, env: Env, amount: Amount, isCreator: bool, t: Pair)
    returns (size: u64, eff: i128, effClose: u128)
    requires Inv(rest, s) && AtRest(s.m) && CloseBody(s, env, amount, isCreator) == Done(t)
    ensures Touch(s, env).Done?
    ensures var p := Touch(s, env).value.p;
            && CloseSize(p, amount) == Done(size) && EffectiveQ(p, Touch(s, env).value.m) == Done(eff)
            && (size == Abs(p.baseSize) ==> effClose == Abs(eff))
            && (size != Abs(p.baseSize) ==>
                  effClose * Abs(p.baseSize) <= Abs(eff) * size < (effClose + 1) * Abs(p.baseSize))
            && (SameEpochs(s.m, t.m) ==> Traded(s.m.amm, if p.baseSize > 0 then 0 - effClose else effClose, t.m.amm))
            && Abs(t.p.baseSize) == Abs(p.baseSize) - size && EntryKept(p, size, t.p)
            && (SameEpochs(s.m, t.m) ==> t.m.Side(SideOf(p.baseSize)).oi
                                         == Touch(s, env).value.m.Side(SideOf(p.baseSize)).oi - effClose)
            && (SameEpochs(s.m, t.m) && t.p.basis != 0 ==> FreshOn(t.p, t.m.Side(SideOf(t.p.basis))))
            && Seen(Touch(s, env).value.m, size, env.price, t.m) && env.slot > p.lastActivity
  {
    hide Inv;
    hide CloseBody;
    hide Touch;
    hide CloseSize;
    hide EffectiveQ;
    hide EffectiveClose;
    hide CloseSwap;
    hide CloseFee;
    hide Reduce;
    hide SettleClosed;
    hide CheckSide;
    hide Finalize;
    hide Vamm.Notional;
    hide Vamm.Fee;
    hide Traded;
    hide Current;
    var c := CloseParts(s, env, amount, isCreator, t);
    size, eff, effClose := c.size, c.eff, c.effClose;
    CloseChain(rest, s, env, amount, isCreator, c, t);
    CloseMiddle(rest, s, env, amount, isCreator, c, t);
    CloseEnd(s, env, amount, isCreator, c, t);
    CloseProportion(c.s1.p, eff, size, effClose);
    SameEntry(c.s1, c.m2, c.fee, isCreator, c.s3);
  }

  lemma SameEntry(s: Pair, m: MarketV, fee: u128, isCreator: bool, t: Pair)
    requires CloseFee(s.(m := m), fee, isCreator) == Done(t)
    ensures t.p.quoteEntry == s.p.quoteEntry && t.p.pnl == s.p.pnl && t.p.reserved == s.p.reserved
  {
    hide Vamm.FeeSplit;
  }

  /**
   A close costs the trading fee on the closed size: what the collateral covers of it is what creator and
   protocol can claim, and the rest is fee debt.  Afterwards released profit has been paid out, and an
   account without a position has neither a loss nor a debt that its collateral could pay.
   */
  lemma CloseCharges(rest: seq<PositionV>, s: Pair, env: Env, amount: Amount, isCreator: bool, t: Pair)
    requires Inv(rest, s) && AtRest(s.m) && CloseBody(s, env, amount, isCreator) == Done(t)
    ensures Touch(s, env).Done? && CloseSize(Touch(s, env).value.p, amount).Done?
    ensures var s1 := Touch(s, env).value;
            var fee := TradingFee(s.m, CloseSize(s1.p, amount).value, env.price);
            var paid := Min(fee, s1.p.collateral);
            && t.m.funds.creatorFees == s1.m.funds.creatorFees + (if isCreator then 0 else paid / 10)
            && t.m.funds.protocolFees == s1.m.funds.protocolFees + (paid - if isCreator then 0 else paid / 10)
            && (t.p.baseSize != 0 ==> t.p.feeCredits == s1.p.feeCredits - (fee - paid))
    ensures Converted(t.p)
    ensures t.p.baseSize == 0 ==> LossesPaid(t.p) && DebtSwept(t.p) && t.p.pnl >= 0
  {
    hide Inv;
    hide CloseBody;
    hide Touch;
    hide CloseSize;
    hide EffectiveQ;
    hide EffectiveClose;
    hide CloseSwap;
    hide CloseFee;
    hide Reduce;
    hide SettleClosed;
    hide CheckSide;
    hide Finalize;
    hide Vamm.Notional;
    hide Vamm.Fee;
    hide Traded;
    hide Current;
    hide TradingFee;
    hide EntryKept;
    var c := CloseParts(s, env, amount, isCreator, t);
    CloseChain(rest, s, env, amount, isCreator, c, t);
    CloseMiddle(rest, s, env, amount, isCreator, c, t);
    CloseEnd(s, env, amount, isCreator, c, t);
    ClosingFee(c.m2, c.size, env.price, c.fee);
    SameFee(s.m, c.m2, c.size, env.price);
    ClosingShares(c.s1.(m := c.m2), c.fee, isCreator, c.s3);
    ClosedEnds(c.s4, c.s5);
    SameClaims(c.s5.p, t.p);
  }

  lemma SameClaims(p: PositionV, q: PositionV)
    requires q.pnl == p.pnl && q.reserved == p.reserved && q.collateral == p.collateral && q.feeCredits == p.feeCredits
    ensures (Converted(p) ==> Converted(q)) && (LossesPaid(p) ==> LossesPaid(q)) && (DebtSwept(p) ==> DebtSwept(q))
  {
  }

  lemma ClosingFee(m: MarketV, size: u64, price: u64, fee: u128)
    requires Vamm.Notional(size, price).Done?
    requires Vamm.Fee(Vamm.Notional(size, price).value, m.params.tradingFeeBps) == Done(fee)
    ensures fee == TradingFee(m, size, price)
  {
    NotionalAmount(size, price);
    FeeAmount(Vamm.Notional(size, price).value, m.params.tradingFeeBps);
    hide Vamm.Fee;
    hide Vamm.Notional;
    hide CeilDiv;
    hide Value;
  }

  lemma ClosingShares(s: Pair, fee: u128, isCreator: bool, t: Pair)
    requires CloseFee(s, fee, isCreator) == Done(t)
    ensures var paid := Min(fee, s.p.collateral);
            && t.m.funds.creatorFees == s.m.funds.creatorFees + (if isCreator then 0 else paid / 10)
            && t.m.funds.protocolFees == s.m.funds.protocolFees + (paid - if isCreator then 0 else paid / 10)
            && t.p.feeCredits == s.p.feeCredits - (fee - paid)
  {
    var collected: u128 := Min(fee, s.p.collateral);
    SharesOf(collected, isCreator);
    hide Vamm.FeeSplit;
    var s1 := TakeFee(s, collected).value;
    FeeTaken(s, collected, s1);
    hide TakeFee;
    if collected < fee {
      ChargeNothing(s1, fee - collected, ChargeFee(s1, fee - collected).value);
    }
    hide ChargeFee;
  }

  lemma SharesOf(collected: u128, isCreator: bool)
    requires collected <= U64_MAX
    ensures var (creator, protocol) := Vamm.FeeSplit(collected, CREATOR_FEE_SHARE_BPS, isCreator);
            && creator % TWO64 == (if isCreator then 0 else collected / 10)
            && protocol % TWO64 == collected - if isCreator then 0 else collected / 10
  {
  }

  /** Opening a position and closing all of it, with no reset in between, brings the curve back to where it was. */
  lemma RoundTrip(rest: seq<PositionV>, s: Pair, env: Env, side: Side, size: u64, leverage: u32, maxSlippage: u16,
                  isCreator: bool, t: Pair, later: Env, t': Pair)
    requires Inv(rest, s) && AtRest(s.m)
    requires OpenBody(s, env, side, size, leverage, maxSlippage, isCreator) == Done(t)
    requires CloseBody(t, later, All, isCreator) == Done(t')
    requires SameEpochs(t.m, t'.m) && Touch(t, later).Done?
    requires EffectiveQ(Touch(t, later).value.p, Touch(t, later).value.m) == Done(SignedSize(side, size))
    ensures t'.m.amm == s.m.amm && t'.p.baseSize == 0 && t'.p.quoteEntry == 0
  {
    InvMoney(rest, s);
    hide Inv;
    hide OpenBody;
    hide CloseBody;
    hide Touch;
    hide EffectiveQ;
    hide Traded;
    hide OldSize;
    hide Traces.Flow;
    OpenTrades(rest, s, env, side, size, leverage, maxSlippage, isCreator, t);
    OpenKeeps(rest, s, env, side, size, leverage, maxSlippage, isCreator, t);
    var closed, eff, effClose := CloseTrades(rest, t, later, All, isCreator, t');
    ClosesSide(rest, t, later, side, eff);
    TradedBack(s.m.amm, SignedSize(side, size), t.m.amm, t'.m.amm);
  }

  lemma ClosesSide(rest: seq<PositionV>, s: Pair, env: Env, side: Side, eff: i128)
    requires Inv(rest, s) && AtRest(s.m) && Touch(s, env).Done?
    requires var t := Touch(s, env).value; EffectiveQ(t.p, t.m) == Done(eff) && eff != 0 && SideOf(eff) == side
    ensures Touch(s, env).value.p.baseSize > 0 <==> side == Long
  {
    hide Inv;
    hide Touch;
    hide Current;
    hide Traces.Flow;
    TouchKeeps(rest, s, env, Touch(s, env).value);
    InvShape(rest, Touch(s, env).value);
  }

  // ---------------------------------------------------------------------------
  // Liquidations
  // ---------------------------------------------------------------------------

  lemma SocializeTrades(s: Pair, side: Side, eff: i128, bill: Bill, t: Pair)
    requires Vamm.OnCurve(s.m.amm) && Socialize(s, side, eff, bill) == Done(t) && eff != 0 && SideOf(eff) == side
    ensures Traded(s.m.amm, 0 - eff, t.m.amm) && SameEpochs(s.m, t.m)
  {
    hide EnqueueAdl;
    hide DistributeSurplus;
    hide SwapFor;
    hide Vamm.OnCurve;
    hide Traded;
    hide Backed;
    var swap := SwapFor(s.m, side == Short, Abs(eff)).value;
    SwapTrades(s.m, side == Short, Abs(eff), swap);
    var m0 := Swapped(s.m, swap);
    var m1 := EnqueueAdl(m0, side, Abs(eff), bill.deficit).value;
    EnqueueForm(m0, side, Abs(eff), bill.deficit, m1);
    EnqueueEpochs(m0, side, Abs(eff), m1);
    var m2 := m1.(funds := CreditInsurance(m1.funds, bill.insuranceFee));
    DistributeForm(m2, side.Opposite(), bill.surplus, t.m);
  }

  lemma EnqueueEpochs(m: MarketV, side: Side, close: u128, n: MarketV)
    requires LiquidatedBook(m.Side(side), close, n.Side(side))
    requires DeleveragedBook(m.Side(side.Opposite()), close, n.Side(side.Opposite()))
    ensures SameEpochs(m, n)
  {
    if close < m.Side(side.Opposite()).oi && m.Side(side.Opposite()).a > 0 {
      CutForm(m.Side(side.Opposite()).(k := n.Side(side.Opposite()).k), close);
    }
    hide CutBook;
  }

  lemma WipeEpochs(rest: seq<PositionV>, s: Pair, side: Side, eff: i128, bill: Bill, s2: Pair, t: Pair)
    requires Inv(rest, s) && AtRest(s.m) && Current(s.p, s.m) && Holds(s.p, side) && EffectiveQ(s.p, s.m) == Done(eff)
    requires Socialize(s, side, eff, bill) == Done(s2) && Wipe(s2) == Done(t)
    ensures Traded(s.m.amm, 0 - eff, t.m.amm) && SameEpochs(s.m, t.m) && Running(t.m)
  {
    InvShape(rest, s);
    InvMoney(rest, s);
    CurrentOnSide(rest, s, side);
    LiquidationCoreKeeps(rest, s, side, eff, bill, s2, t);
    SidesRun(rest, t);
    hide Inv;
    hide Socialize;
    hide Wipe;
    hide OnSide;
    hide OldSize;
    hide EffectiveQ;
    hide LiquidatedBook;
    hide DeleveragedBook;
    hide Backed;
    hide Traded;
    hide Vamm.OnCurve;
    hide Traces.Flow;
    hide Current;
    EffectiveIsSize(s.p, s.m, side, eff);
    SocializeForm(s, side, eff, bill, s2);
    SocializeTrades(s, side, eff, bill, s2);
    OnSideFrame(s.p, side, OldSize(s.p, s.m.Side(side)), s.m.Side(side), s2.m.Side(side));
    WipeForm(s2, side, t);
  }

  /** A liquidation trades the whole effective position back, unless it resets a side. */
  lemma LiquidationTrades(rest: seq<PositionV>, s: Pair, env: Env, t: Pair) returns (eff: i128)
    requires Inv(rest, s) && AtRest(s.m) && LiquidateBody(s, env) == Done(t)
    ensures Touched(s, env).Done? && EffectiveQ(Touched(s, env).value.p, Touched(s, env).value.m) == Done(eff)
    ensures SameEpochs(s.m, t.m) ==> Traded(s.m.amm, 0 - eff, t.m.amm)
  {
    hide Inv;
    hide RollInsuranceEpoch;
    hide Touch;
    hide IsAboveMaintenance;
    hide EffectiveQ;
    hide MakeBill;
    hide Socialize;
    hide Wipe;
    hide CheckDust;
    hide FinalizePending;
    hide Traces.Flow;
    hide Current;
    hide Traded;
    RollKeeps(rest, s, env.time);
    var s0 := s.(m := RollInsuranceEpoch(s.m, env.time));
    var s1 := Touched(s, env).value;
    TouchKeeps(rest, s0, env, s1);
    TouchEpochs(rest, s0, env, s1);
    eff := EffectiveQ(s1.p, s1.m).value;
    var bill := MakeBill(s1.p, s1.m, env.price).value;
    var side := SideOf(s1.p.baseSize);
    ExposedHolds(rest, s1, eff);
    var s2, s3 := Socialize(s1, side, eff, bill).value, Wipe(Socialize(s1, side, eff, bill).value).value;
    WipeEpochs(rest, s1, side, eff, bill, s2, s3);
    var m3 := PayReward(s3.m, bill.reward);
    var s4 := CheckSide(s3.(m := m3), side).value;
    CheckDustCurve(m3, side, s4.m);
    CheckRuns(m3, side, s4.m);
    var s5 := CheckSide(s4, side.Opposite()).value;
    CheckDustCurve(s4.m, side.Opposite(), s5.m);
    CheckRuns(s4.m, side.Opposite(), s5.m);
    FinalizeCurve(s5.m, t.m);
  }

  // ---------------------------------------------------------------------------
  // What is cleared afterwards
  // ---------------------------------------------------------------------------

  /** Nobody is left on the side only if no open interest is. */
  predicate Cleared(b: Book) {
    b.stored == 0 ==> b.oi == 0
  }

  lemma ResetClears(b: Book, c: Book)
    requires ResetOrKept(b, c) || FinalizedBook(b, c)
    ensures Cleared(b) ==> Cleared(c)
  {
  }

  lemma CheckClears(rest: seq<PositionV>, s: Pair, side: Side, t: Pair)
    requires Inv(rest, s) && CheckSide(s, side) == Done(t)
    ensures Inv(rest, t) && Cleared(t.m.Side(side))
    ensures Cleared(s.m.Side(side.Opposite())) ==> Cleared(t.m.Side(side.Opposite()))
  {
    SidesRun(rest, s);
    CheckDustKeeps(rest, s, side, t);
    hide Inv;
    hide Traces.Flow;
    CheckDustForm(s.m, side, t.m);
    hide CheckDust;
    hide Vamm.OnCurve;
    ResetClears(s.m.Side(side.Opposite()), t.m.Side(side.Opposite()));
    if s.m.Side(side).stored == 0 {
      EmptySideIsCleared(rest, s, side, t);
    }
  }

  lemma FinalizeClears(rest: seq<PositionV>, s: Pair, slot: u64, t: Pair, side: Side)
    requires Inv(rest, s) && Finalize(Stamp(s, slot)) == Done(t) && Cleared(s.m.Side(side))
    ensures Cleared(t.m.Side(side))
  {
    SidesRun(rest, s);
    hide Inv;
    FinalizePendingForm(s.m, t.m);
    hide FinalizePending;
    hide Vamm.OnCurve;
    ResetClears(s.m.Side(side), t.m.Side(side));
  }

  /** When a close has taken the last position off its side, no open interest is left on it. */
  lemma CloseClears(rest: seq<PositionV>, s: Pair, env: Env, amount: Amount, isCreator: bool, t: Pair)
    requires Inv(rest, s) && AtRest(s.m) && CloseBody(s, env, amount, isCreator) == Done(t)
    ensures Touch(s, env).Done? && Cleared(t.m.Side(SideOf(Touch(s, env).value.p.baseSize)))
  {
    var c := CloseParts(s, env, amount, isCreator, t);
    CloseChain(rest, s, env, amount, isCreator, c, t);
    hide Inv;
    hide CloseBody;
    hide Touch;
    hide CloseSize;
    hide EffectiveQ;
    hide CloseSwap;
    hide CloseFee;
    hide SettleClosed;
    hide CheckDust;
    hide FinalizePending;
    hide Vamm.Notional;
    hide Vamm.Fee;
    hide Traded;
    hide Current;
    SameEffectiveClose(c.s1.p, c.s3.p, c.eff, c.size);
    hide EffectiveClose;
    var side := SideOf(c.s1.p.baseSize);
    ReduceKeeps(rest, c.s3, side, c.eff, c.size, c.effClose, c.s4);
    hide Reduce;
    SettleClosedKeeps(rest, c.s4, c.s5);
    CheckClears(rest, c.s5, side, c.s6);
    FinalizeClears(rest, c.s6, env.slot, t, side);
  }

  /** And the same for both sides after a liquidation. */
  lemma LiquidationClears(rest: seq<PositionV>, s: Pair, env: Env, t: Pair)
    requires Inv(rest, s) && AtRest(s.m) && LiquidateBody(s, env) == Done(t)
    ensures Cleared(t.m.long) && Cleared(t.m.short)
  {
    hide Inv;
    hide RollInsuranceEpoch;
    hide Touch;
    hide IsAboveMaintenance;
    hide EffectiveQ;
    hide MakeBill;
    hide Socialize;
    hide Wipe;
    hide CheckDust;
    hide FinalizePending;
    hide Traces.Flow;
    hide Current;
    hide Cleared;
    RollKeeps(rest, s, env.time);
    var s0 := s.(m := RollInsuranceEpoch(s.m, env.time));
    var s1 := Touched(s, env).value;
    TouchKeeps(rest, s0, env, s1);
    var eff, bill := EffectiveQ(s1.p, s1.m).value, MakeBill(s1.p, s1.m, env.price).value;
    var side := SideOf(s1.p.baseSize);
    ExposedHolds(rest, s1, eff);
    var s2 := Socialize(s1, side, eff, bill).value;
    var s3 := Wipe(s2).value;
    LiquidationCoreKeeps(rest, s1, side, eff, bill, s2, s3);
    PayRewardKeeps(rest, s3, bill.reward);
    var s4 := CheckSide(s3.(m := PayReward(s3.m, bill.reward)), side).value;
    CheckClears(rest, s3.(m := PayReward(s3.m, bill.reward)), side, s4);
    var s5 := CheckSide(s4, side.Opposite()).value;
    CheckClears(rest, s4, side.Opposite(), s5);
    FinalizeClears(rest, s5, env.slot, t, side);
    FinalizeClears(rest, s5, env.slot, t, side.Opposite());
  }
}
