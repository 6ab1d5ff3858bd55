/**
 Accrual, exactly: the mark moves both sides by the price move, funding goes
 from one to the other, nothing is minted, and the sub-step loop always catches
 up with the current slot.  The stored rate is the premium of the weighted mean
 mark price over the oracle price, spread over the funding period; a re-peg
 brings the mark price back to the oracle; a fee claim pays what can be claimed.
 */
module Accrual {
  import opened Numbers
  import opened FixedPoint
  import opened State
  import opened Risk
  import opened Traces
  import opened Handlers
  import opened Runs
  import opened LazyIndex
  import opened Invariants
  import opened AccountSteps
  import opened AdlSteps
  import opened Trading
  import Vamm

  // ---------------------------------------------------------------------------
  // Sub-steps
  // ---------------------------------------------------------------------------

  /** The number of sub-steps an interval takes. */
  function StepCount(remaining: nat, iterations: nat): nat
    decreases iterations
  {
    if remaining == 0 || iterations == 0 then 0
    else 1 + StepCount(remaining - Min(remaining, MAX_FUNDING_DT), iterations - 1)
  }

  lemma {:induction false} StepCountBound(remaining: nat, iterations: nat)
    ensures StepCount(remaining, iterations) * MAX_FUNDING_DT < remaining + MAX_FUNDING_DT
    decreases iterations
  {
    if remaining > 0 && iterations > 0 {
      StepCountBound(remaining - Min(remaining, MAX_FUNDING_DT), iterations - 1);
    }
  }

  /** As many as are needed for the interval, as long as they suffice. */
  lemma {:induction false} StepCountExactly(remaining: nat, iterations: nat)
    requires remaining <= iterations * MAX_FUNDING_DT
    ensures StepCount(remaining, iterations) == CeilDiv(remaining, MAX_FUNDING_DT)
    ensures 0 < remaining <= MAX_FUNDING_DT ==> StepCount(remaining, iterations) == 1
    decreases iterations
  {
    if remaining > 0 && iterations > 0 {
      var dt := Min(remaining, MAX_FUNDING_DT);
      StepCountExactly(remaining - dt, iterations - 1);
    }
  }

  lemma {:induction false} IdleDrains(remaining: u64, iterations: nat)
    requires remaining <= iterations * MAX_FUNDING_DT
    ensures IdleSteps(remaining, iterations) == 0
    decreases iterations
  {
    if remaining > 0 && iterations > 0 {
      IdleDrains(remaining - Min(remaining, MAX_FUNDING_DT), iterations - 1);
    }
  }

  lemma {:induction false} FundingDrains(payer: Book, receiver: Book, price: u64, absRate: u128, remaining: u64,
                                         iterations: nat)
    requires remaining <= iterations * MAX_FUNDING_DT
    ensures var r := FundingSteps(payer, receiver, price, absRate, remaining, iterations);
            r.Done? ==> r.value.2 == 0
    decreases iterations
  {
    hide FundingStep;
    if remaining > 0 && iterations > 0 {
      var dt: u64 := Min(remaining, MAX_FUNDING_DT);
      var step := FundingStep(payer, receiver, price, absRate, dt);
      if step.Done? {
        FundingDrains(step.value.0, step.value.1, price, absRate, remaining - dt, iterations - 1);
      }
    }
  }

  /**
   However long the gap, a successful accrual leaves the market at the current slot and price, and the
   next one is funded at this price.
   */
  lemma CatchesUp(m: MarketV, slot: u64, price: u64, n: MarketV)
    requires Accrue(m, slot, price) == Done(n)
    ensures n.feed.lastMarketSlot == slot && n.feed.currentSlot == slot && n.feed.lastPrice == price
    ensures slot > m.feed.lastMarketSlot || price != m.feed.lastPrice ==> n.feed.sample == price
    ensures 0 < price <= 1_000_000_000_000 && slot >= m.feed.currentSlot && slot >= m.feed.lastMarketSlot
  {
    hide Mark;
    hide FundingSteps;
    hide IdleSteps;
    var dt := Min(slot - m.feed.lastMarketSlot, MAX_ACCRUE_DT);
    if dt != 0 {
      var last := if m.feed.lastPrice == 0 then price else m.feed.lastPrice;
      var (l, s) := Mark(m.long, m.short, price - last).value;
      var px := if m.feed.sample == 0 then price else m.feed.sample;
      IdleDrains(dt, MAX_FUNDING_ITERATIONS);
      FundingDrains(l, s, px, Abs(m.feed.rate), dt, MAX_FUNDING_ITERATIONS);
      FundingDrains(s, l, px, Abs(m.feed.rate), dt, MAX_FUNDING_ITERATIONS);
    }
  }

  // ---------------------------------------------------------------------------
  // What a sub-step moves
  // ---------------------------------------------------------------------------

  lemma ReceivedShare(paid: nat, aReceiver: nat, aPayer: nat, received: int)
    requires aPayer > 0 && received == (paid * aReceiver) / aPayer
    ensures 0 <= received
    ensures 0 - (aPayer - 1) <= aPayer * received - aReceiver * paid <= 0
  {
    MulPos(paid, aReceiver);
    DivMod(paid * aReceiver, aPayer);
    DivAtLeast(paid * aReceiver, aPayer, 0);
  }

  lemma TermBound(price: nat, rate: nat, dt: nat, term: nat)
    requires term == ((price * rate) * dt) / FUNDING_RATE_PRECISION
    ensures term * FUNDING_RATE_PRECISION <= (price * rate) * dt
  {
  }

  lemma PaidBound(a: nat, term: nat, paid: nat, raw: nat)
    requires paid * 10_000 < a * term + 10_000 && term * FUNDING_RATE_PRECISION <= raw
    ensures paid * (10_000 * FUNDING_RATE_PRECISION) <= a * raw + 10_000 * FUNDING_RATE_PRECISION
  {
    MulMono(term * FUNDING_RATE_PRECISION, raw, a);
    assert a * (term * FUNDING_RATE_PRECISION) == (a * term) * FUNDING_RATE_PRECISION;
  }

  /** One sub-step: what it takes from the payer and gives to the receiver, per unit of exposure and in all. */
  ghost predicate Moved(payer: Book, receiver: Book, payer': Book, receiver': Book, steps: nat, raw: int) {
    && OnlyK(payer, payer') && OnlyK(receiver, receiver')
    && payer'.k <= payer.k && receiver.k <= receiver'.k
    && 0 - steps * (payer.a - 1) <= receiver.a * (payer'.k - payer.k) + payer.a * (receiver'.k - receiver.k) <= 0
    && (payer.k - payer'.k) * (10_000 * FUNDING_RATE_PRECISION)
      <= payer.a * raw + steps * (10_000 * FUNDING_RATE_PRECISION)
  }

  lemma StepMoves(payer: Book, receiver: Book, price: u64, absRate: u128, dt: u64)
    requires payer.a > 0
    ensures var r := FundingStep(payer, receiver, price, absRate, dt);
            r.Done? ==> Moved(payer, receiver, r.value.0, r.value.1, 1, (price * absRate) * dt)
  {
    var r := FundingStep(payer, receiver, price, absRate, dt);
    if r.Done? {
      FundingStepOnlyK(payer, receiver, price, absRate, dt);
      StepAmounts(payer, receiver, price, absRate, dt, r.value.0, r.value.1);
      hide FundingStep;
      hide Moved;
      var term := ((price * absRate) * dt) / FUNDING_RATE_PRECISION;
      TermBound(price, absRate, dt, term);
      MovedOnce(payer, receiver, r.value.0, r.value.1, term, (price * absRate) * dt);
    }
  }

  lemma MovedOnce(p: Book, r: Book, p': Book, r': Book, term: nat, raw: int)
    requires p.a > 0 && OnlyK(p, p') && OnlyK(r, r') && p'.k <= p.k
    requires (p.k - p'.k) * 10_000 < p.a * term + 10_000 && term * FUNDING_RATE_PRECISION <= raw
    requires r'.k - r.k == ((p.k - p'.k) * r.a) / p.a
    ensures Moved(p, r, p', r', 1, raw)
  {
    PaidBound(p.a, term, p.k - p'.k, raw);
    ReceivedShare(p.k - p'.k, r.a, p.a, r'.k - r.k);
    Negated(r.a, p'.k - p.k, p.k - p'.k);
  }

  lemma Negated(x: int, y: int, z: int)
    requires y == 0 - z
    ensures x * y == 0 - x * z
  {
  }

  lemma StepAmounts(payer: Book, receiver: Book, price: u64, absRate: u128, dt: u64, payer': Book, receiver': Book)
    requires payer.a > 0 && FundingStep(payer, receiver, price, absRate, dt) == Done((payer', receiver'))
    ensures ((price * absRate) * dt) / FUNDING_RATE_PRECISION >= 0
    ensures 0 <= payer.k - payer'.k
    ensures var term := ((price * absRate) * dt) / FUNDING_RATE_PRECISION;
            payer.a * term <= (payer.k - payer'.k) * 10_000 < payer.a * term + 10_000
    ensures receiver'.k - receiver.k == ((payer.k - payer'.k) * receiver.a) / payer.a
  {
    var term := ((price * absRate) * dt) / FUNDING_RATE_PRECISION;
    if term == 0 {
      DivUnique(0, payer.a, 0);
    } else {
      CeilForm(payer.a, term, MulDivCeil(payer.a, term, 10_000).value);
    }
    hide MulDivCeil;
  }

  /** What a unit of size pays for `dt` slots of funding, the product of price, rate and slots in whole rate units. */
  ghost function FundingDue(price: u64, absRate: u128, dt: u64): real {
    ((((price * absRate) * dt) / FUNDING_RATE_PRECISION) as real) / (10_000.0 * (POS_SCALE as real))
  }

  /**
   In terms of size: a unit on the paying side is charged what funding is due, rounded up by less than
   one step of its index, and a unit on the receiving side gains that, rounded down by less than one
   step of its own.
   */
  lemma FundingRecords(payer: Book, receiver: Book, price: u64, absRate: u128, dt: u64, payer': Book, receiver': Book)
    requires payer.a > 0 && receiver.a > 0
    requires FundingStep(payer, receiver, price, absRate, dt) == Done((payer', receiver'))
    ensures Records(payer, Move(PerUnit(payer, payer'.k - payer.k)), payer')
    ensures Records(receiver, Move(PerUnit(receiver, receiver'.k - receiver.k)), receiver')
    ensures var due, charge := FundingDue(price, absRate, dt), PerUnit(payer, payer.k - payer'.k);
            due <= charge < due + PerUnit(payer, 1)
    ensures var charge, gain := PerUnit(payer, payer.k - payer'.k), PerUnit(receiver, receiver'.k - receiver.k);
            0.0 <= gain <= charge < gain + PerUnit(receiver, 1)
  {
    FundingStepOnlyK(payer, receiver, price, absRate, dt);
    StepAmounts(payer, receiver, price, absRate, dt, payer', receiver');
    hide FundingStep;
    ShiftRecords(payer, payer');
    ShiftRecords(receiver, receiver');
    hide Records;
    ReceivedShare(payer.k - payer'.k, receiver.a, payer.a, receiver'.k - receiver.k);
    GainWithinCharge(payer.k - payer'.k, payer.a, receiver'.k - receiver.k, receiver.a);
    ChargeNearDue(payer.k - payer'.k, payer.a, ((price * absRate) * dt) / FUNDING_RATE_PRECISION);
    GainNearCharge(payer.k - payer'.k, payer.a, receiver'.k - receiver.k, receiver.a);
  }

  lemma ChargeNearDue(paid: nat, a: nat, term: nat)
    requires a > 0 && a * term <= paid * 10_000 < a * term + 10_000
    ensures var unit := POS_SCALE as real;
            var due := (term as real) / (10_000.0 * unit);
            due <= (paid as real) / ((a as real) * unit) < due + 1.0 / ((a as real) * unit)
  {
    var unit := POS_SCALE as real;
    ProductAsReal(a, term);
    ProductAsReal(paid, 10_000);
    var x, y := paid as real, a as real;
    ScaledBoth(term as real, y, x, 10_000.0, unit);
    RatioAtLeast(x, y * unit, term as real, 10_000.0 * unit);
    ScaledBelow(x - 1.0, 10_000.0, term as real, y, unit);
    RatioBelow(x - 1.0, y * unit, term as real, 10_000.0 * unit);
    OneLess(x, y * unit);
  }

  lemma GainNearCharge(paid: nat, aPayer: nat, received: nat, aReceiver: nat)
    requires aPayer > 0 && aReceiver > 0 && aReceiver * paid < aPayer * received + aPayer
    ensures var unit := POS_SCALE as real;
            (paid as real) / ((aPayer as real) * unit)
            < (received as real) / ((aReceiver as real) * unit) + 1.0 / ((aReceiver as real) * unit)
  {
    var unit := POS_SCALE as real;
    var x, y, z, w := paid as real, aPayer as real, received as real, aReceiver as real;
    ProductAsReal(aReceiver, paid);
    ProductAsReal(aPayer, received);
    assert y * z + y == y * (z + 1.0);
    ScaledBelow(x, w, z + 1.0, y, unit);
    RatioBelow(x, y * unit, z + 1.0, w * unit);
    OneLess(z + 1.0, w * unit);
  }

  lemma ScaledBelow(x: real, y: real, z: real, w: real, unit: real)
    requires y * x < w * z && unit > 0.0
    ensures x * (y * unit) < z * (w * unit)
  {
    assert x * (y * unit) == (y * x) * unit && z * (w * unit) == (w * z) * unit;
  }

  lemma OneLess(x: real, d: real)
    requires d > 0.0
    ensures (x - 1.0) / d == x / d - 1.0 / d
  {
  }

  lemma GainWithinCharge(paid: nat, aPayer: nat, received: nat, aReceiver: nat)
    requires aPayer > 0 && aReceiver > 0 && aPayer * received <= aReceiver * paid
    ensures var unit := POS_SCALE as real;
            0.0 <= (received as real) / ((aReceiver as real) * unit) <= (paid as real) / ((aPayer as real) * unit)
  {
    var unit := POS_SCALE as real;
    ProductAsReal(aPayer, received);
    ProductAsReal(aReceiver, paid);
    assert (aPayer as real) * (received as real) <= (aReceiver as real) * (paid as real);
    ScaledBoth(aPayer as real, received as real, aReceiver as real, paid as real, unit);
    RatioAtLeast(paid as real, (aPayer as real) * unit, received as real, (aReceiver as real) * unit);
    NonNegativeRatio(received as real, (aReceiver as real) * unit);
  }

  lemma ScaledBoth(x: real, y: real, z: real, w: real, unit: real)
    requires x * y <= z * w && unit > 0.0
    ensures w * (z * unit) >= y * (x * unit)
  {
    assert w * (z * unit) == (z * w) * unit && y * (x * unit) == (x * y) * unit;
  }

  lemma NonNegativeRatio(x: real, y: real)
    requires x >= 0.0 && y > 0.0
    ensures x / y >= 0.0
  {
  }

  lemma CeilForm(a: u128, b: u128, c: u128)
    requires MulDivCeil(a, b, 10_000) == Done(c)
    ensures a * b <= c * 10_000 < a * b + 10_000
  {
    DivMod(a * b, 10_000);
  }

  lemma MovedChain(p: Book, r: Book, p1: Book, r1: Book, p2: Book, r2: Book, n: nat, raw1: int, raw2: int)
    requires p.a > 0 && Moved(p, r, p1, r1, 1, raw1) && Moved(p1, r1, p2, r2, n, raw2)
    ensures Moved(p, r, p2, r2, n + 1, raw1 + raw2)
  {
    Chained(r.a, p1.k - p.k, p2.k - p1.k);
    Chained(p.a, r1.k - r.k, r2.k - r1.k);
    Chained(p.a, raw1, raw2);
    Distribute(n, 1, p.a - 1);
  }

  lemma Chained(x: int, y: int, z: int)
    ensures x * (y + z) == x * y + x * z
  {
  }

  lemma RawSplit(x: nat, dt: nat, remaining: nat)
    requires dt <= remaining
    ensures x * dt + x * (remaining - dt) == x * remaining
  {
  }

  lemma {:induction false} StepsMove(payer: Book, receiver: Book, price: u64, absRate: u128, remaining: u64,
                                     iterations: nat)
    requires payer.a > 0 && remaining <= iterations * MAX_FUNDING_DT
    ensures var r := FundingSteps(payer, receiver, price, absRate, remaining, iterations);
            r.Done? ==> Moved(payer, receiver, r.value.0, r.value.1, StepCount(remaining, iterations),
                              (price * absRate) * remaining)
    decreases iterations
  {
    hide FundingStep;
    var r := FundingSteps(payer, receiver, price, absRate, remaining, iterations);
    if remaining == 0 || iterations == 0 {
      MovedNot(payer, receiver, price * absRate);
    } else if r.Done? {
      var dt: u64 := Min(remaining, MAX_FUNDING_DT);
      var (p1, r1) := FundingStep(payer, receiver, price, absRate, dt).value;
      StepMoves(payer, receiver, price, absRate, dt);
      hide Moved;
      MovedKeepsA(payer, receiver, p1, r1, 1, (price * absRate) * dt);
      StepsMove(p1, r1, price, absRate, remaining - dt, iterations - 1);
      MulPos(price, absRate);
      RawSplit(price * absRate, dt, remaining);
      MovedChain(payer, receiver, p1, r1, r.value.0, r.value.1, StepCount(remaining - dt, iterations - 1),
                 (price * absRate) * dt, (price * absRate) * (remaining - dt));
    }
  }

  lemma MovedNot(p: Book, r: Book, x: int)
    ensures Moved(p, r, p, r, 0, x * 0)
  {
  }

  lemma MovedKeepsA(p: Book, r: Book, p1: Book, r1: Book, n: nat, raw: int)
    requires Moved(p, r, p1, r1, n, raw)
    ensures p1.a == p.a && r1.a == r.a
  {
  }

  // ---------------------------------------------------------------------------
  // Nothing is minted
  // ---------------------------------------------------------------------------

  /** The index moves of both sides weighted by the other side's size index: the gain per unit of matched exposure. */
  function Minted(m: MarketV, n: MarketV): int {
    Weighted(m.short.a, n.long.k - m.long.k) + Weighted(m.long.a, n.short.k - m.short.k)
  }

  function Weighted(a: int, delta: int): int {
    a * delta
  }

  lemma WeightedAdds(a: int, x: int, y: int)
    ensures Weighted(a, x + y) == Weighted(a, x) + Weighted(a, y)
  {
  }

  lemma MarkMintsNothing(long: Book, short: Book, delta: i128, l: Book, s: Book)
    requires Mark(long, short, delta) == Done((l, s)) && long.oi != 0 && short.oi != 0
    ensures OnlyK(long, l) && OnlyK(short, s)
    ensures short.a * (l.k - long.k) + long.a * (s.k - short.k) == 0
  {
    MarkShifts(long, short, delta, l, s);
    hide Mark;
    Cancels(short.a, long.a, delta);
  }

  lemma Cancels(x: int, y: int, z: int)
    ensures x * (y * z) + y * (0 - x * z) == 0
  {
  }

  /** The side that pays funding. */
  function Payer(rate: i64): Side {
    if rate > 0 then Long else Short
  }

  lemma FundingMoves(long: Book, short: Book, rate: i64, price: u64, dt: u64, l: Book, s: Book, left: u64)
    requires Funding(long, short, rate, price, dt) == Done((l, s, left)) && dt <= MAX_ACCRUE_DT
    requires long.a > 0 && short.a > 0
    ensures rate > 0 ==> Moved(long, short, l, s, StepCount(dt, MAX_FUNDING_ITERATIONS), (price * Abs(rate)) * dt)
    ensures rate <= 0 ==> Moved(short, long, s, l, StepCount(dt, MAX_FUNDING_ITERATIONS), (price * Abs(rate)) * dt)
  {
    hide FundingSteps;
    hide IdleSteps;
    StepsMove(long, short, price, Abs(rate), dt, MAX_FUNDING_ITERATIONS);
    StepsMove(short, long, price, Abs(rate), dt, MAX_FUNDING_ITERATIONS);
    MulPos(price, Abs(rate));
    MulPos(price * Abs(rate), dt);
    MovedIdle(long, short, StepCount(dt, MAX_FUNDING_ITERATIONS), (price * Abs(rate)) * dt);
    MovedIdle(short, long, StepCount(dt, MAX_FUNDING_ITERATIONS), (price * Abs(rate)) * dt);
    hide Moved;
  }

  lemma MovedIdle(p: Book, r: Book, n: nat, raw: nat)
    requires p.a > 0
    ensures Moved(p, r, p, r, n, raw)
  {
    MulPos(p.a, raw);
    MulPos(n, p.a - 1);
  }

  lemma MovedDrift(p: Book, r: Book, p': Book, r': Book, n: nat, raw: int)
    requires p.a > 0 && Moved(p, r, p', r', n, raw)
    ensures Drifts(p, r, p', r', n)
  {
  }

  /**
   What `n` funding sub-steps change per unit of matched exposure: never a gain, and less than one unit
   lost in each.
   */
  ghost predicate Drifts(p: Book, r: Book, p': Book, r': Book, n: nat) {
    0 - n * (p.a - 1) <= Weighted(r.a, p'.k - p.k) + Weighted(p.a, r'.k - r.k) <= 0
  }

  /** The sub-steps of an accrual at `slot`. */
  function Substeps(m: MarketV, slot: u64): nat {
    StepCount(Min(SatSub(slot, m.feed.lastMarketSlot), MAX_ACCRUE_DT), MAX_FUNDING_ITERATIONS)
  }

  /** One per started interval of 65,535 slots, at most sixteen, and one for a gap of up to 65,535 slots. */
  lemma SubstepsExactly(m: MarketV, slot: u64)
    ensures var dt := Min(SatSub(slot, m.feed.lastMarketSlot), MAX_ACCRUE_DT);
            Substeps(m, slot) == CeilDiv(dt, MAX_FUNDING_DT) <= 16
            && (0 < dt <= MAX_FUNDING_DT ==> Substeps(m, slot) == 1)
  {
    StepCountExactly(Min(SatSub(slot, m.feed.lastMarketSlot), MAX_ACCRUE_DT), MAX_FUNDING_ITERATIONS);
    StepCountBound(Min(SatSub(slot, m.feed.lastMarketSlot), MAX_ACCRUE_DT), MAX_FUNDING_ITERATIONS);
    hide StepCount;
  }

  /** The two parts of an accrual: the mark, and funding on top of it. */
  lemma AccrualParts(m: MarketV, slot: u64, price: u64, n: MarketV) returns (l: Book, s: Book)
    requires m.long.oi != 0 && m.short.oi != 0 && m.long.a > 0 && m.short.a > 0
    requires Accrue(m, slot, price) == Done(n)
    ensures l.a == m.long.a && s.a == m.short.a
    ensures Weighted(m.short.a, l.k - m.long.k) + Weighted(m.long.a, s.k - m.short.k) == 0
    ensures m.feed.rate > 0 ==> Drifts(l, s, n.long, n.short, Substeps(m, slot))
    ensures m.feed.rate <= 0 ==> Drifts(s, l, n.short, n.long, Substeps(m, slot))
  {
    hide Mark;
    hide Funding;
    hide Moved;
    hide Drifts;
    hide StepCount;
    var steps := Substeps(m, slot);
    var dt := Min(slot - m.feed.lastMarketSlot, MAX_ACCRUE_DT);
    l, s := m.long, m.short;
    if !(dt == 0 && m.feed.lastPrice == price) {
      var last := if m.feed.lastPrice == 0 then price else m.feed.lastPrice;
      var marked := Mark(m.long, m.short, price - last).value;
      l, s := marked.0, marked.1;
      MarkMintsNothing(m.long, m.short, price - last, l, s);
    }
    if dt == 0 {
      MovedIdle(l, s, steps, 0);
      MovedIdle(s, l, steps, 0);
      MovedDrift(l, s, l, s, steps, 0);
      MovedDrift(s, l, s, l, steps, 0);
    } else {
      var px := if m.feed.sample == 0 then price else m.feed.sample;
      var (l', s', left) := Funding(l, s, m.feed.rate, px, dt).value;
      FundingMoves(l, s, m.feed.rate, px, dt, l', s', left);
      var raw := (px * Abs(m.feed.rate)) * dt;
      if m.feed.rate > 0 {
        MovedDrift(l, s, l', s', steps, raw);
      } else {
        MovedDrift(s, l, s', l', steps, raw);
      }
    }
  }

  /**
   With both sides live, an accrual never gains anything, and loses less than the payer's size index in
   each sub-step.
   */
  lemma AccrualMintsNothing(m: MarketV, slot: u64, price: u64, n: MarketV)
    requires m.long.oi != 0 && m.short.oi != 0 && m.long.a > 0 && m.short.a > 0
    requires Accrue(m, slot, price) == Done(n)
    ensures 0 - Substeps(m, slot) * (m.Side(Payer(m.feed.rate)).a - 1) <= Minted(m, n) <= 0
  {
    hide Weighted;
    hide Accrue;
    hide Minted;
    hide Substeps;
    var l, s := AccrualParts(m, slot, price, n);
    MintedInTwo(m, l, s, n);
  }

  lemma MintedInTwo(m: MarketV, l: Book, s: Book, n: MarketV)
    ensures Minted(m, n) == Weighted(m.short.a, l.k - m.long.k) + Weighted(m.long.a, s.k - m.short.k)
                            + Weighted(m.short.a, n.long.k - l.k) + Weighted(m.long.a, n.short.k - s.k)
  {
    hide Weighted;
    WeightedAdds(m.short.a, l.k - m.long.k, n.long.k - l.k);
    WeightedAdds(m.long.a, s.k - m.short.k, n.short.k - s.k);
    assert n.long.k - m.long.k == (l.k - m.long.k) + (n.long.k - l.k);
    assert n.short.k - m.short.k == (s.k - m.short.k) + (n.short.k - s.k);
  }

  /** In particular in every reachable world. */
  lemma ReachableMintsNothing(w: World, slot: u64, price: u64, n: MarketV)
    requires Reachable(w) && w.m.long.oi != 0 && w.m.short.oi != 0 && Accrue(w.m, slot, price) == Done(n)
    ensures 0 - Substeps(w.m, slot) * (w.m.Side(Payer(w.m.feed.rate)).a - 1) <= Minted(w.m, n) <= 0
  {
    hide Reachable;
    hide Accrue;
    hide Minted;
    hide Substeps;
    hide Invariants.Sum;
    CountsAreExact(w, Long);
    CountsAreExact(w, Short);
    AccrualMintsNothing(w.m, slot, price, n);
  }

  // ---------------------------------------------------------------------------
  // An accrual, exactly
  // ---------------------------------------------------------------------------

  /** A charge of at least what is due on the size index `a`, but for the rounding of `steps` sub-steps. */
  ghost predicate Enough(a: nat, charge: int, steps: nat, raw: int) {
    a * (raw - steps * FUNDING_RATE_PRECISION) <= charge * (10_000 * FUNDING_RATE_PRECISION)
  }

  lemma EnoughOnce(a: nat, charge: int, term: nat, raw: nat)
    requires a * term <= charge * 10_000 && term == raw / FUNDING_RATE_PRECISION
    ensures Enough(a, charge, 1, raw)
  {
    MulMono(raw - FUNDING_RATE_PRECISION, term * FUNDING_RATE_PRECISION, a);
    assert a * (term * FUNDING_RATE_PRECISION) == (a * term) * FUNDING_RATE_PRECISION;
  }

  lemma EnoughChain(a: nat, charge1: int, raw1: int, charge2: int, steps: nat, raw2: int)
    requires Enough(a, charge1, 1, raw1) && Enough(a, charge2, steps, raw2)
    ensures Enough(a, charge1 + charge2, steps + 1, raw1 + raw2)
  {
    Chained(a, raw1 - FUNDING_RATE_PRECISION, raw2 - steps * FUNDING_RATE_PRECISION);
  }

  lemma {:induction false} StepsCharge(payer: Book, receiver: Book, price: u64, absRate: u128, remaining: u64,
                                       iterations: nat)
    requires payer.a > 0 && remaining <= iterations * MAX_FUNDING_DT
    ensures var r := FundingSteps(payer, receiver, price, absRate, remaining, iterations);
            r.Done? ==> Enough(payer.a, payer.k - r.value.0.k, StepCount(remaining, iterations),
                               (price * absRate) * remaining)
    decreases iterations
  {
    hide FundingStep;
    var r := FundingSteps(payer, receiver, price, absRate, remaining, iterations);
    if remaining > 0 && iterations > 0 && r.Done? {
      var dt: u64 := Min(remaining, MAX_FUNDING_DT);
      var (p1, r1) := FundingStep(payer, receiver, price, absRate, dt).value;
      StepAmounts(payer, receiver, price, absRate, dt, p1, r1);
      FundingStepOnlyK(payer, receiver, price, absRate, dt);
      MulPos(price, absRate);
      MulPos(price * absRate, dt);
      EnoughOnce(payer.a, payer.k - p1.k, ((price * absRate) * dt) / FUNDING_RATE_PRECISION, (price * absRate) * dt);
      hide Enough;
      StepsCharge(p1, r1, price, absRate, remaining - dt, iterations - 1);
      RawSplit(price * absRate, dt, remaining);
      EnoughChain(payer.a, payer.k - p1.k, (price * absRate) * dt, p1.k - r.value.0.k,
                  StepCount(remaining - dt, iterations - 1), (price * absRate) * (remaining - dt));
    }
  }

  /** The price move that the sides are marked by. */
  function PriceMove(m: MarketV, price: u64): int {
    price - if m.feed.lastPrice == 0 then price else m.feed.lastPrice
  }

  /** What a side with open interest gains per unit of its size index when the price moves its way. */
  function MarkGain(b: Book, move: int): int {
    if b.oi == 0 then 0 else b.a * move
  }

  /** What else has moved the index. */
  function Rest(b: Book, move: int, c: Book): int {
    c.k - b.k - MarkGain(b, move)
  }

  /**
   Funding over `dt` slots: the payer is charged price * rate * slots, rounded by less than one step of
   the rate and one of the index in each sub-step, and the receiver gets what the payer is charged, in
   proportion to the size indices, rounded down in each sub-step.
   */
  ghost predicate Funded(aPayer: nat, charge: int, aReceiver: nat, gain: int, steps: nat, raw: int) {
    && charge >= 0 && gain >= 0 && Enough(aPayer, charge, steps, raw)
    && charge * (10_000 * FUNDING_RATE_PRECISION) <= aPayer * raw + steps * (10_000 * FUNDING_RATE_PRECISION)
    && 0 - steps * (aPayer - 1) <= aPayer * gain - aReceiver * charge <= 0
  }

  lemma MovedFunds(p: Book, r: Book, p': Book, r': Book, steps: nat, raw: int)
    requires Moved(p, r, p', r', steps, raw) && Enough(p.a, p.k - p'.k, steps, raw)
    ensures Funded(p.a, p.k - p'.k, r.a, r'.k - r.k, steps, raw)
  {
    Negated(r.a, p'.k - p.k, p.k - p'.k);
    hide Enough;
  }

  lemma FundsExactly(long: Book, short: Book, rate: i64, price: u64, dt: u64, l: Book, s: Book, left: u64)
    requires Funding(long, short, rate, price, dt) == Done((l, s, left)) && dt <= MAX_ACCRUE_DT
    requires long.a > 0 && short.a > 0
    ensures OnlyK(long, l) && OnlyK(short, s)
    ensures if rate == 0 || long.oi == 0 || short.oi == 0 then l == long && s == short
            else var steps, raw := StepCount(dt, MAX_FUNDING_ITERATIONS), (price * Abs(rate)) * dt;
              if rate > 0 then Funded(long.a, long.k - l.k, short.a, s.k - short.k, steps, raw)
              else Funded(short.a, short.k - s.k, long.a, l.k - long.k, steps, raw)
  {
    hide FundingSteps;
    hide IdleSteps;
    hide Moved;
    hide Enough;
    hide Funded;
    FundingMoves(long, short, rate, price, dt, l, s, left);
    StepsCharge(long, short, price, Abs(rate), dt, MAX_FUNDING_ITERATIONS);
    StepsCharge(short, long, price, Abs(rate), dt, MAX_FUNDING_ITERATIONS);
    var steps, raw := StepCount(dt, MAX_FUNDING_ITERATIONS), (price * Abs(rate)) * dt;
    hide StepCount;
    if rate > 0 {
      MovedOnlyK(long, short, l, s, steps, raw);
    } else {
      MovedOnlyK(short, long, s, l, steps, raw);
    }
    if rate != 0 && long.oi != 0 && short.oi != 0 {
      if rate > 0 {
        MovedFunds(long, short, l, s, steps, raw);
      } else {
        MovedFunds(short, long, s, l, steps, raw);
      }
    }
  }

  lemma MovedOnlyK(p: Book, r: Book, p': Book, r': Book, steps: nat, raw: int)
    requires Moved(p, r, p', r', steps, raw)
    ensures OnlyK(p, p') && OnlyK(r, r')
  {
  }

  /**
   Every accrual moves each live side by exactly the price move times its size index, a long with the
   price and a short against it, also when no slot has passed, and beyond that by funding only: none if
   no slot has passed, the rate is zero or a side is empty, and else from the side that the rate makes
   the payer to the other one.  A side without open interest does not move.
   */
  lemma AccrueExactly(m: MarketV, slot: u64, price: u64, n: MarketV)
    requires m.long.a > 0 && m.short.a > 0 && Accrue(m, slot, price) == Done(n)
    ensures OnlyK(m.long, n.long) && OnlyK(m.short, n.short)
    ensures var move, rate := PriceMove(m, price), m.feed.rate;
            var ofLong, ofShort := Rest(m.long, move, n.long), Rest(m.short, 0 - move, n.short);
            if slot == m.feed.lastMarketSlot || rate == 0 || m.long.oi == 0 || m.short.oi == 0
            then ofLong == 0 && ofShort == 0
            else var dt := Min(slot - m.feed.lastMarketSlot, MAX_ACCRUE_DT);
              var steps, raw := Substeps(m, slot), (FundingPrice(m, price) * Abs(rate)) * dt;
              if rate > 0 then Funded(m.long.a, 0 - ofLong, m.short.a, ofShort, steps, raw)
              else Funded(m.short.a, 0 - ofShort, m.long.a, ofLong, steps, raw)
  {
    hide Mark;
    hide Funding;
    hide Funded;
    hide StepCount;
    var dt := Min(slot - m.feed.lastMarketSlot, MAX_ACCRUE_DT);
    if !(dt == 0 && m.feed.lastPrice == price) {
      var (l, s) := Mark(m.long, m.short, PriceMove(m, price)).value;
      Traces.MarkForm(m.long, m.short, PriceMove(m, price), l, s);
      if dt != 0 {
        var (l', s', left) := Funding(l, s, m.feed.rate, FundingPrice(m, price), dt).value;
        FundsExactly(l, s, m.feed.rate, FundingPrice(m, price), dt, l', s', left);
      }
    }
  }

  /** The price that funding is charged on. */
  function FundingPrice(m: MarketV, price: u64): u64 {
    if m.feed.sample == 0 then price else m.feed.sample
  }

  // ---------------------------------------------------------------------------
  // The funding cap
  // ---------------------------------------------------------------------------

  lemma TruncAtMost(n: int, d: nat)
    requires d > 0
    ensures Abs(TruncDiv(n, d)) * d <= Abs(n)
  {
    DivMod(Abs(n), d);
    DivAtLeast(Abs(n), d, 0);
    assert Abs(TruncDiv(n, d)) == Abs(n) / d;
  }

  lemma ClampAtMost(x: int, bound: nat)
    ensures Abs(Clamp(x, bound)) <= bound && Abs(Clamp(x, bound)) <= Abs(x)
  {
  }

  /** The funding rate has the sign of the premium of mark over oracle and stays within the cap. */
  lemma RateFollowsPremium(mark: u64, price: u64, capBps: u16, rate: i64)
    requires FundingRate(mark, price, capBps) == Done(rate)
    ensures mark >= price ==> rate >= 0
    ensures mark <= price ==> rate <= 0
    ensures Abs(rate) <= capBps && Abs(rate) * price <= Abs(mark - price) * Vamm.BPS_DENOMINATOR
  {
    var n := (mark - price) * Vamm.BPS_DENOMINATOR;
    TruncAtMost(n, price);
    TruncSign(n, price);
    var premium := TruncDiv(n, price);
    hide TruncDiv;
    MulMono(Abs(rate), Abs(premium), price);
  }

  lemma TruncSign(n: int, d: nat)
    requires d > 0
    ensures n >= 0 ==> TruncDiv(n, d) >= 0
    ensures n <= 0 ==> TruncDiv(n, d) <= 0
  {
    DivAtLeast(Abs(n), d, 0);
  }

  /** The stored rate adds up to at most the cap over one funding period. */
  lemma StoredRateCapped(m: MarketV, mark: u64, price: u64, n: MarketV)
    requires m.long.oi > 0 && m.short.oi > 0 && UpdateFunding(m, mark, price) == Done(n)
    ensures Abs(n.feed.rate) * SlotsPerPeriod(m.params.fundingPeriod) <= m.params.fundingCapBps * FUNDING_RATE_PRECISION
  {
    var cap := m.params.fundingCapBps;
    var rate := FundingRate(TwapMark(m.twap, mark), price, cap).value;
    hide TwapMark;
    assert Abs(rate) <= cap by {
      var premium := TruncDiv((TwapMark(m.twap, mark) - price) * Vamm.BPS_DENOMINATOR, price);
      ClampAtMost(premium, cap);
      ClampAtMost(Clamp(premium, cap), MAX_ABS_FUNDING_BPS_PER_SLOT);
      hide Clamp;
      hide TruncDiv;
    }
    hide FundingRate;
    var slots := SlotsPerPeriod(m.params.fundingPeriod);
    hide SlotsPerPeriod;
    var scaled := rate * FUNDING_RATE_PRECISION;
    if slots > 1 {
      TruncAtMost(scaled, slots);
      ClampAtMost(TruncDiv(scaled, slots), MAX_ABS_FUNDING_BPS_PER_SLOT);
      MulMono(Abs(n.feed.rate), Abs(TruncDiv(scaled, slots)), slots);
    } else {
      ClampAtMost(scaled, MAX_ABS_FUNDING_BPS_PER_SLOT);
      MulMono(slots, 1, Abs(n.feed.rate));
    }
    hide Clamp;
    hide TruncDiv;
  }

  lemma CapOverPeriod(rate: nat, slots: nat, dt: nat, cap: nat, price: nat)
    requires rate * slots <= cap * FUNDING_RATE_PRECISION && dt <= slots
    ensures (price * rate) * dt <= (price * cap) * FUNDING_RATE_PRECISION
  {
    MulMono(dt, slots, rate);
    MulMono(rate * dt, cap * FUNDING_RATE_PRECISION, price);
    Associate(price, rate, dt);
    Associate(price, cap, FUNDING_RATE_PRECISION);
  }

  lemma DropPrecision(paid: int, a: nat, raw: nat, capped: nat, steps: nat)
    requires paid * (10_000 * FUNDING_RATE_PRECISION) <= a * raw + steps * (10_000 * FUNDING_RATE_PRECISION)
    requires raw <= capped * FUNDING_RATE_PRECISION
    ensures paid * 10_000 <= a * capped + steps * 10_000
  {
    MulMono(raw, capped * FUNDING_RATE_PRECISION, a);
    assert a * (capped * FUNDING_RATE_PRECISION) == (a * capped) * FUNDING_RATE_PRECISION;
  }

  /** Both sides after the mark part of an accrual. */
  function Marked(m: MarketV, price: u64): Outcome<(Book, Book)> {
    Mark(m.long, m.short, price - (if m.feed.lastPrice == 0 then price else m.feed.lastPrice))
  }

  /**
   End to end: with the rate that a funding update stored, an accrual over at most one funding period
   lowers the payer's index, beyond the mark part, by at most `a * price * cap / 10_000` and one unit
   per sub-step, of which there is one unless the gap is longer than 65,535 slots.
   */
  lemma FundingWithinCap(m0: MarketV, mark: u64, price0: u64, m1: MarketV, m: MarketV, slot: u64, price: u64,
                         n: MarketV)
    requires m0.long.oi > 0 && m0.short.oi > 0 && UpdateFunding(m0, mark, price0) == Done(m1)
    requires m.feed.rate == m1.feed.rate && m.long.a > 0 && m.short.a > 0
    requires Accrue(m, slot, price) == Done(n) && slot > m.feed.lastMarketSlot
    requires slot - m.feed.lastMarketSlot <= SlotsPerPeriod(m0.params.fundingPeriod)
    ensures Marked(m, price).Done?
    ensures var payer := Payer(m.feed.rate);
            var marked := if payer == Long then Marked(m, price).value.0 else Marked(m, price).value.1;
            0 <= (marked.k - n.Side(payer).k) * 10_000
            <= marked.a * (FundingPrice(m, price) * m0.params.fundingCapBps) + Substeps(m, slot) * 10_000
    ensures slot - m.feed.lastMarketSlot <= MAX_FUNDING_DT ==> Substeps(m, slot) == 1
  {
    hide Mark;
    hide Funding;
    hide UpdateFunding;
    hide SlotsPerPeriod;
    hide StepCount;
    SubstepsExactly(m, slot);
    StoredRateCapped(m0, mark, price0, m1);
    var dt := Min(slot - m.feed.lastMarketSlot, MAX_ACCRUE_DT);
    var rate, px, cap := Abs(m.feed.rate), FundingPrice(m, price), m0.params.fundingCapBps;
    CapOverPeriod(rate, SlotsPerPeriod(m0.params.fundingPeriod), dt, cap, px);
    var (l, s) := Marked(m, price).value;
    MarkForm(m, price, l, s);
    var (l', s', left) := Funding(l, s, m.feed.rate, px, dt).value;
    FundingMoves(l, s, m.feed.rate, px, dt, l', s', left);
    assert n.long == l' && n.short == s';
    hide Accrue;
    MulPos(px, rate);
    MulPos(px * rate, dt);
    MulPos(px, cap);
    if m.feed.rate > 0 {
      DropPrecision(l.k - l'.k, l.a, (px * rate) * dt, px * cap, Substeps(m, slot));
    } else {
      DropPrecision(s.k - s'.k, s.a, (px * rate) * dt, px * cap, Substeps(m, slot));
    }
  }

  lemma MarkForm(m: MarketV, price: u64, l: Book, s: Book)
    requires Marked(m, price) == Done((l, s))
    ensures OnlyK(m.long, l) && OnlyK(m.short, s)
  {
    hide MulSigned;
  }

  // ---------------------------------------------------------------------------
  // The time-weighted mark price
  // ---------------------------------------------------------------------------

  /** A mark price and the notional it was seen with. */
  datatype Observation = Observation(mark: u64, notional: u128)

  function ObserveAll(m: MarketV, seen: seq<Observation>): MarketV
    decreases |seen|
  {
    if seen == [] then m else ObserveAll(Observe(m, seen[0].mark, seen[0].notional), seen[1..])
  }

  /** The weight of an observation: its notional, up to a tenth of the curve constant. */
  function WeightOf(o: Observation, k: u128): nat {
    Min(o.notional, k / 10)
  }

  function SumWeights(seen: seq<Observation>, k: u128): nat {
    if seen == [] then 0 else WeightOf(seen[0], k) + SumWeights(seen[1..], k)
  }

  function SumMarks(seen: seq<Observation>, k: u128): nat {
    if seen == [] then 0
    else MulPos(seen[0].mark, WeightOf(seen[0], k)); seen[0].mark * WeightOf(seen[0], k) + SumMarks(seen[1..], k)
  }

  lemma {:induction false} ObservedSums(m: MarketV, seen: seq<Observation>)
    ensures var t := ObserveAll(m, seen).twap;
            && t.accumulator == Min(m.twap.accumulator + SumMarks(seen, m.amm.k), U128_MAX)
            && t.volume == Min(m.twap.volume + SumWeights(seen, m.amm.k), U128_MAX)
    decreases |seen|
  {
    if seen != [] {
      MulPos(seen[0].mark, WeightOf(seen[0], m.amm.k));
      ObservedSums(Observe(m, seen[0].mark, seen[0].notional), seen[1..]);
    }
  }

  predicate Between(seen: seq<Observation>, low: u64, high: u64) {
    forall o :: o in seen ==> low <= o.mark <= high
  }

  lemma {:induction false} MarksBetween(seen: seq<Observation>, k: u128, low: u64, high: u64)
    requires Between(seen, low, high)
    ensures low * SumWeights(seen, k) <= SumMarks(seen, k) <= high * SumWeights(seen, k)
  {
    if seen != [] {
      var w := WeightOf(seen[0], k);
      assert seen[0] in seen && forall o :: o in seen[1..] ==> o in seen;
      MarksBetween(seen[1..], k, low, high);
      MulMono(low, seen[0].mark, w);
      MulMono(seen[0].mark, high, w);
      Parts(low, w, SumWeights(seen[1..], k));
      Parts(high, w, SumWeights(seen[1..], k));
    }
  }

  lemma Parts(x: int, y: int, z: int)
    ensures x * (y + z) == x * y + x * z
  {
  }

  /**
   The mark price of a funding update is the weighted mean of everything observed since the last one,
   rounded down, and so lies between the lowest and the highest mark observed.
   */
  lemma TwapIsMean(m: MarketV, seen: seq<Observation>, mark: u64, low: u64, high: u64)
    requires m.twap.accumulator == 0 && m.twap.volume == 0 && Between(seen, low, high)
    requires SumMarks(seen, m.amm.k) <= U128_MAX && 0 < SumWeights(seen, m.amm.k) <= U128_MAX
    ensures TwapMark(ObserveAll(m, seen).twap, mark) == SumMarks(seen, m.amm.k) / SumWeights(seen, m.amm.k)
    ensures low <= TwapMark(ObserveAll(m, seen).twap, mark) <= high
  {
    ObservedSums(m, seen);
    MarksBetween(seen, m.amm.k, low, high);
    hide ObserveAll;
    hide SumMarks;
    hide SumWeights;
    hide Between;
    var marks, weights := SumMarks(seen, m.amm.k), SumWeights(seen, m.amm.k);
    DivAtLeast(marks, weights, low);
    DivAtMost(marks, weights, high);
  }

  /** Without any observation it is the mean of the current mark and the one of the last update. */
  lemma TwapUnobserved(t: Twap, mark: u64)
    requires t.volume == 0 && t.count < 2
    ensures var last := if t.lastMark == 0 then mark else t.lastMark;
            TwapMark(t, mark) == (mark + last) / 2
  {
  }

  // ---------------------------------------------------------------------------
  // The funding rate
  // ---------------------------------------------------------------------------

  /** The premium of `mark` over `price` in basis points, rounded towards zero, but no larger than `cap`. */
  ghost predicate Premium(mark: int, price: nat, cap: nat, rate: int) {
    && (mark >= price ==> rate >= 0) && (mark <= price ==> rate <= 0)
    && if Abs(mark - price) * 10_000 < (cap + 1) * price
       then Abs(rate) * price <= Abs(mark - price) * 10_000 < (Abs(rate) + 1) * price
       else Abs(rate) == cap
  }

  lemma TruncExactly(n: int, d: nat)
    requires d > 0
    ensures Abs(TruncDiv(n, d)) * d <= Abs(n) < (Abs(TruncDiv(n, d)) + 1) * d
    ensures (n >= 0 ==> TruncDiv(n, d) >= 0) && (n <= 0 ==> TruncDiv(n, d) <= 0)
  {
    DivMod(Abs(n), d);
    DivAtLeast(Abs(n), d, 0);
    Distribute(Abs(n) / d, 1, d);
    assert Abs(TruncDiv(n, d)) == Abs(n) / d;
  }

  lemma PremiumIs(mark: u64, price: u64, cap: u16, rate: i64)
    requires FundingRate(mark, price, cap) == Done(rate) && cap <= 10_000
    ensures Premium(mark, price, cap, rate)
  {
    var n := (mark - price) * 10_000;
    TruncExactly(n, price);
    var x := TruncDiv(n, price);
    hide TruncDiv;
    if Abs(n) < (cap + 1) * price {
      CancelLess(Abs(x), cap + 1, price);
    } else {
      CancelLess(cap + 1, Abs(x) + 1, price);
    }
  }

  /** The rate per slot, in millionths of a basis point: the premium spread over the slots of the period. */
  ghost predicate PerSlot(rate: int, slots: nat, stored: int) {
    && (rate >= 0 ==> stored >= 0) && (rate <= 0 ==> stored <= 0)
    && if Abs(rate) * 1_000_000 < 10_001 * slots
       then Abs(stored) * slots <= Abs(rate) * 1_000_000 < (Abs(stored) + 1) * slots
       else Abs(stored) == 10_000
  }

  lemma PerSlotIs(rate: i64, period: u32, stored: i64)
    requires ScaledRate(rate, period) == Done(stored)
    ensures PerSlot(rate, Max(SlotsPerPeriod(period), 1), stored)
  {
    var slots := Max(SlotsPerPeriod(period), 1);
    hide SlotsPerPeriod;
    TruncExactly(rate * 1_000_000, slots);
    TruncByOne(rate * 1_000_000);
    var x := TruncDiv(rate * 1_000_000, slots);
    hide TruncDiv;
    if Abs(rate) * 1_000_000 < 10_001 * slots {
      CancelLess(Abs(x), 10_001, slots);
    } else {
      CancelLess(10_001, Abs(x) + 1, slots);
    }
  }

  lemma TruncByOne(n: int)
    ensures TruncDiv(n, 1) == n
  {
  }

  /**
   A crank, at most once per funding period and only with both sides open, stores the premium of the mean
   mark price over the oracle price as the rate of the next period, and starts a new mean.
   */
  lemma CrankStoresPremium(m: MarketV, env: Env, n: MarketV)
    requires CrankFunding(m, env) == Done(n) && m.params.fundingCapBps <= 10_000
    ensures env.active && Elapsed(env.time, m.twap.lastFundingTime) >= m.params.fundingPeriod
    ensures m.long.oi > 0 && m.short.oi > 0
    ensures Vamm.MarkPrice(m.amm).Done?
    ensures exists rate: i64 ::
              && Premium(TwapMark(m.twap, Vamm.MarkPrice(m.amm).value), env.price, m.params.fundingCapBps, rate)
              && PerSlot(rate, Max(SlotsPerPeriod(m.params.fundingPeriod), 1), n.feed.rate)
    ensures n.twap == Twap(0, 0, 0, Vamm.MarkPrice(m.amm).value, env.time)
  {
    hide Accrue;
    hide Vamm.MarkPrice;
    hide TwapMark;
    hide FundingRate;
    hide ScaledRate;
    hide FinalizePending;
    hide Premium;
    hide PerSlot;
    hide SlotsPerPeriod;
    var m1 := Accrue(m, env.slot, env.price).value;
    AccrueForm(m, env.slot, env.price, m1);
    var mark := Vamm.MarkPrice(m1.amm).value;
    var rate := FundingRate(TwapMark(m1.twap, mark), env.price, m1.params.fundingCapBps).value;
    PremiumIs(TwapMark(m1.twap, mark), env.price, m1.params.fundingCapBps, rate);
    var m2 := UpdateFunding(m1, mark, env.price).value;
    PerSlotIs(rate, m1.params.fundingPeriod, m2.feed.rate);
    var m3 := m2.(twap := m2.twap.(lastFundingTime := env.time, accumulator := 0, count := 0, volume := 0));
    FinalizeClock(RollInsuranceEpoch(m3, env.time), n);
  }

  lemma FinalizeClock(m: MarketV, n: MarketV)
    requires FinalizePending(m) == Done(n)
    ensures n.feed == m.feed && n.twap == m.twap && n.params == m.params
  {
    hide Vamm.Normalize;
    hide ResetBook;
  }

  // ---------------------------------------------------------------------------
  // Re-pegging and fee claims
  // ---------------------------------------------------------------------------

  /**
   A re-peg waits for its cool-down and for a mark price more than fifty basis points off, in the 16 bits
   that deviations are kept in.  It leaves the reserves alone, observes the mark price and then puts it at
   the oracle price, short of it by less than the reserve ratio and one unit.
   */
  lemma RepegRestores(rest: seq<PositionV>, s: Pair, env: Env, n: MarketV)
    requires Inv(rest, s) && AtRest(s.m) && UpdateAmm(s.m, env) == Done(n) && Vamm.MarkPrice(n.amm).Done?
    ensures env.active && env.slot >= s.m.amm.lastPegSlot + 100
    ensures Vamm.MarkPrice(s.m.amm).Done? && env.price > 0
    ensures Deviation(Vamm.MarkPrice(s.m.amm).value, env.price) % 0x1_0000 > 50
    ensures n.amm == s.m.amm.(peg := n.amm.peg, lastPegSlot := env.slot)
    ensures n.twap == Observe(s.m, Vamm.MarkPrice(s.m.amm).value, PEG_TWAP_WEIGHT).twap
    ensures var mark := Vamm.MarkPrice(n.amm).value;
            mark <= env.price && env.price * n.amm.base < (mark + 1) * n.amm.base + n.amm.quote
  {
    hide Accrue;
    hide Vamm.MarkPrice;
    hide Vamm.NewPeg;
    hide FinalizePending;
    var m1 := Accrue(s.m, env.slot, env.price).value;
    AccrueForm(s.m, env.slot, env.price, m1);
    SidesRun(rest, s);
    hide Inv;
    var mark := Vamm.MarkPrice(m1.amm).value;
    var m2 := Observe(m1, mark, PEG_TWAP_WEIGHT);
    var peg := Vamm.NewPeg(m2.amm, env.price).value;
    var m3 := m2.(amm := m2.amm.(peg := peg, lastPegSlot := env.slot));
    FinalizeAtRest(m3, n);
    hide Observe;
    PeggedMark(m2.amm, peg, env.slot);
    Vamm.PegRestoresPrice(m2.amm, env.price, peg);
  }

  lemma PeggedMark(a: Vamm.Amm, peg: u128, slot: u64)
    ensures Vamm.MarkPrice(a.(peg := peg, lastPegSlot := slot)) == Vamm.MarkPrice(a.(peg := peg))
  {
  }

  /** A claim pays out all that the claimant can claim, or what the vault has, and leaves the other's fees alone. */
  lemma ClaimPays(m: MarketV, isCreator: bool, n: MarketV)
    requires ClaimBody(m, isCreator) == Done(n)
    ensures var paid := m.funds.vault - n.funds.vault;
            && 0 < paid && n == m.(funds := n.funds)
            && (if isCreator then n.funds == m.funds.(vault := n.funds.vault, creatorFees := n.funds.creatorFees)
                              && m.funds.creatorFees - n.funds.creatorFees == paid
                else n.funds == m.funds.(vault := n.funds.vault, protocolFees := n.funds.protocolFees)
                     && m.funds.protocolFees - n.funds.protocolFees == paid)
            && ((if isCreator then n.funds.creatorFees else n.funds.protocolFees) == 0 || n.funds.vault == 0)
  {
  }
}
