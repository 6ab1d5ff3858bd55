/**
 The virtual AMM: a constant-product curve `base * quote = k` with floor
 division, re-balanced through an integer Newton square root.
 */
module Vamm {
  import opened Numbers

  const PRICE_SCALE: int := 1_000_000
  const BPS_DENOMINATOR: int := 10_000

  datatype Amm = Amm(base: u128, quote: u128, k: u128, peg: u128, lastPegSlot: u64)

  datatype Swap = Swap(quoteAmount: u128, newBase: u128, newQuote: u128, execPrice: u128)

  // ---------------------------------------------------------------------------
  // Integer square root
  // ---------------------------------------------------------------------------

  lemma DoubleSquare(q: int)
    ensures (2 * q) * (2 * q) == 4 * (q * q)
  {
  }

  lemma IsqrtStep(n: nat, q: nat, r: nat)
    requires q * q <= n / 4 < (q + 1) * (q + 1)
    requires r == if (2 * q + 1) * (2 * q + 1) <= n then 2 * q + 1 else 2 * q
    ensures r * r <= n < (r + 1) * (r + 1)
  {
    DoubleSquare(q);
    DoubleSquare(q + 1);
  }

  /** The integer square root, two bits of `n` at a time. */
  function Isqrt(n: nat): (s: nat)
    ensures s * s <= n < (s + 1) * (s + 1)
  {
    if n == 0 then 0
    else
      var q := Isqrt(n / 4);
      var r := if (2 * q + 1) * (2 * q + 1) <= n then 2 * q + 1 else 2 * q;
      IsqrtStep(n, q, r);
      r
  }

  lemma SquareMono(x: nat, y: nat)
    requires x <= y
    ensures x * x <= y * y
  {
    MulMono(x, y, x);
    MulMono(x, y, y);
  }

  lemma IsqrtUnique(n: nat, s: nat)
    requires s * s <= n < (s + 1) * (s + 1)
    ensures s == Isqrt(n)
  {
    var r := Isqrt(n);
    if r < s { SquareMono(r + 1, s); }
    if s < r { SquareMono(s + 1, r); }
  }

  /** Whatever point Newton's iteration starts from, its next point is not below the root. */
  lemma NewtonStaysAbove(n: nat, x: nat, q: nat, y: nat)
    requires q * x <= n < (q + 1) * x && y == (x + q) / 2
    ensures n < (y + 1) * (y + 1)
  {
    // a product is at most the square of the half sum
    FourProduct(x, q + 1);
    Square(x - (q + 1));
    SquareMono(x + q + 1, 2 * (y + 1));
    DoubleSquare(y + 1);
  }

  lemma Square(d: int)
    ensures d * d >= 0
  {
  }

  lemma FourProduct(a: int, b: int)
    ensures (a + b) * (a + b) == 4 * (a * b) + (a - b) * (a - b)
  {
  }

  /** Newton's iteration stops only at the root. */
  lemma NewtonStops(n: nat, x: nat, q: nat)
    requires q * x <= n && (x + q) / 2 >= x
    ensures x * x <= n
  {
    MulMono(x, q, x);
  }

  lemma NewtonRange(n: u128, x: nat, q: nat)
    requires n > 0 && 0 < x <= TWO127 && (x == 1 ==> n < 4) && q * x <= n < (q + 1) * x
    ensures 2 <= x + q <= U128_MAX
  {
    if x > 1 {
      MulMono(2, x, q);
    }
  }

  /** One step of the loop: the guarded addition does not overflow and the next point stays above the root. */
  lemma NewtonStep(n: u128, x: nat, q: nat, y: nat)
    requires n > 0 && 0 < x <= TWO127 && (x == 1 ==> n < 4)
    requires q * x <= n < (q + 1) * x && y == (x + q) / 2
    ensures 2 <= x + q <= U128_MAX
    ensures n < (y + 1) * (y + 1) && (y >= x ==> x * x <= n)
  {
    NewtonRange(n, x, q);
    NewtonStaysAbove(n, x, q, y);
    if y >= x {
      NewtonStops(n, x, q);
    }
  }

  lemma NewtonStart(n: u128)
    requires n > 0
    ensures var y := (if n + 1 <= U128_MAX then n + 1 else U128_MAX) / 2;
            0 < y < TWO127 + 1 && n < (y + 1) * (y + 1) && (y >= n ==> n * n <= n)
    ensures n < (n + 1) * (n + 1)
  {
    var y := (if n + 1 <= U128_MAX then n + 1 else U128_MAX) / 2;
    assert n <= 2 * y + 1;
    Distribute(y, 1, y + 1);
    Distribute(n, 1, n + 1);
  }

  method IntegerSqrt(n: u128) returns (s: u128)
    ensures s == Isqrt(n)
  {
    if n == 0 {
      return 0;
    }
    NewtonStart(n);
    var x := n;
    var y := (if x + 1 <= U128_MAX then x + 1 else U128_MAX) / 2;
    while y < x
      invariant 0 < x && 0 < y <= TWO127
      invariant n < (x + 1) * (x + 1) && n < (y + 1) * (y + 1)
      invariant y >= x ==> x * x <= n
      decreases x
    {
      x := y;
      var sum := x + n / x;
      DivMod(n, x);
      Distribute(n / x, 1, x);
      NewtonStep(n, x, n / x, sum / 2);
      y := (if sum <= U128_MAX then sum else U128_MAX) / 2;
    }
    IsqrtUnique(n, x);
    return x;
  }

  // ---------------------------------------------------------------------------
  // Swaps
  // ---------------------------------------------------------------------------

  /** `quote * peg / base`, truncated to 64 bits. */
  function MarkPrice(a: Amm): Outcome<u64> {
    if a.base == 0 then Abort
    else
      var numerator :- CheckU128(a.quote * a.peg);
      Done((numerator / a.base) % TWO64)
  }

  /** A buyer takes base out of the curve. */
  function SimulateLong(a: Amm, size: u128): Outcome<Swap> {
    var _ :- Require(0 < size < a.base);
    var newBase: u128 := a.base - size;
    DivMod(a.k, newBase);
    QuotientAtMost(a.k, newBase);
    var newQuote: u128 := a.k / newBase;
    var cost :- CheckU128(newQuote - a.quote);
    var product :- CheckU128(cost * a.peg);
    QuotientAtMost(product, size);
    Done(Swap(cost, newBase, newQuote, product / size))
  }

  /** A seller puts base into the curve. */
  function SimulateShort(a: Amm, size: u128): Outcome<Swap> {
    var _ :- Require(0 < size);
    var newBase :- CheckU128(a.base + size);
    QuotientAtMost(a.k, newBase);
    var newQuote: u128 := a.k / newBase;
    var received :- CheckU128(a.quote - newQuote);
    var product :- CheckU128(received * a.peg);
    QuotientAtMost(product, size);
    Done(Swap(received, newBase, newQuote, product / size))
  }

  function ApplySwap(a: Amm, swap: Swap): Amm {
    a.(base := swap.newBase, quote := swap.newQuote)
  }

  /** Balanced reserves of the same curve. */
  function Normalize(a: Amm): Amm {
    var s := Isqrt(a.k);
    if s > 0 then SmallRoot(a.k); a.(base := s, quote := s, k := s * s) else a
  }

  lemma SmallRoot(n: u128)
    ensures Isqrt(n) <= n && Isqrt(n) * Isqrt(n) <= n
  {
    if Isqrt(n) > 0 {
      MulMono(1, Isqrt(n), Isqrt(n));
    }
  }

  /** The peg that puts the mark price at `price`. */
  function NewPeg(a: Amm, price: u64): Outcome<u128> {
    if a.base == 0 then Abort
    else
      var product :- CheckU128(price * a.base);
      if a.quote == 0 then Abort
      else QuotientAtMost(product, a.quote); Done(product / a.quote)
  }

  /** Balanced reserves for an initial curve constant. */
  function Initialize(initialK: u128, price: u64): Outcome<Amm> {
    var s := Isqrt(initialK);
    SmallRoot(initialK);
    if s == 0 then Abort else Done(Amm(s, s, s * s, price, 0))
  }

  // -- prices and fees ------------------------------------------------------------

  function Notional(size: u128, price: u64): Outcome<u128> {
    var product :- CheckU128(size * price);
    Done(product / PRICE_SCALE)
  }

  /** The trading fee, rounded up. */
  function Fee(notional: u128, feeBps: u16): Outcome<u128> {
    var product :- CheckU128(notional * feeBps);
    var sum :- CheckU128(product + BPS_DENOMINATOR - 1);
    Done(sum / BPS_DENOMINATOR)
  }

  lemma FeeIsCeiling(notional: u128, feeBps: u16)
    ensures Fee(notional, feeBps).Done? ==> notional * feeBps <= Fee(notional, feeBps).value * BPS_DENOMINATOR
    ensures Fee(notional, feeBps).Done? ==>
              Fee(notional, feeBps).value * BPS_DENOMINATOR < notional * feeBps + BPS_DENOMINATOR
  {
  }

  /** Creator and protocol share of an amount collected while closing; the creator gets nothing from own trades. */
  function FeeSplit(amount: u128, creatorShareBps: u16, isCreator: bool): (u128, u128) {
    if isCreator then (0, amount)
    else
      var creator: u128 := (if amount * creatorShareBps <= U128_MAX then amount * creatorShareBps else 0) / 10_000;
      (creator, SatSub(amount, creator))
  }

  /** Creator and protocol share of a fee charged while opening. */
  function SplitFee(total: u128, creatorShareBps: u16): Outcome<(u128, u128)> {
    var product :- CheckU128(total * creatorShareBps);
    var creator: u128 := product / BPS_DENOMINATOR;
    var protocol :- CheckU128(total - creator);
    Done((creator, protocol))
  }

  /** Nothing is lost or created when a fee is split, for any share up to 100%. */
  lemma SplitsConserve(amount: u128, share: u16, isCreator: bool)
    requires share <= BPS_DENOMINATOR
    ensures FeeSplit(amount, share, isCreator).0 + FeeSplit(amount, share, isCreator).1 == amount
    ensures SplitFee(amount, share).Done? ==>
              SplitFee(amount, share).value.0 + SplitFee(amount, share).value.1 == amount
  {
    MulMono(share, BPS_DENOMINATOR, amount);
    assert amount * share <= amount * BPS_DENOMINATOR;
  }

  /** The deviation in basis points, truncated to 16 bits. */
  function SlippageBps(execPrice: u128, reference: u64): Outcome<u16> {
    if reference == 0 then Abort
    else
      var diff := Abs(execPrice - reference);
      var product :- CheckU128(diff * BPS_DENOMINATOR);
      Done((product / reference) % 0x1_0000)
  }

  // ---------------------------------------------------------------------------
  // The curve is kept exactly
  // ---------------------------------------------------------------------------

  ghost predicate OnCurve(a: Amm) {
    && a.base > 0
    && a.quote == a.k / a.base
    && 0 < a.k == Isqrt(a.k) * Isqrt(a.k)
  }

  method ComputeInitialize(initialK: u128, price: u64) returns (r: Outcome<Amm>)
    ensures r == Initialize(initialK, price)
  {
    var s := IntegerSqrt(initialK);
    SmallRoot(initialK);
    r := if s == 0 then Abort else Done(Amm(s, s, s * s, price, 0));
  }

  lemma InitializeOnCurve(initialK: u128, price: u64)
    ensures Initialize(initialK, price).Done? <==> initialK > 0
    ensures Initialize(initialK, price).Done? ==> OnCurve(Initialize(initialK, price).value)
  {
    var s := Isqrt(initialK);
    if s > 0 {
      RootOfSquare(s);
      DivUnique(s * s, s, s);
      MulMono(1, s, s);
    }
  }

  lemma RootOfSquare(s: nat)
    ensures Isqrt(s * s) == s
  {
    SquareMono(s, s + 1);
    assert (s + 1) * (s + 1) == s * s + 2 * s + 1;
    IsqrtUnique(s * s, s);
  }

  /** Re-pegging puts the mark price at the oracle price, short of it by less than the reserve ratio and one unit. */
  lemma PegRestoresPrice(a: Amm, price: u64, peg: u128)
    requires NewPeg(a, price) == Done(peg) && MarkPrice(a.(peg := peg)).Done?
    ensures MarkPrice(a.(peg := peg)).value <= price
    ensures price * a.base < (MarkPrice(a.(peg := peg)).value + 1) * a.base + a.quote
  {
    DivMod(price * a.base, a.quote);
    DivMod(a.quote * peg, a.base);
    DivAtMost(a.quote * peg, a.base, price);
    DivAtLeast(a.quote * peg, a.base, 0);
    Distribute((a.quote * peg) / a.base, 1, a.base);
  }

  /** Re-balancing never changes the curve constant. */
  lemma NormalizeKeepsCurve(a: Amm)
    requires OnCurve(a)
    ensures Normalize(a).k == a.k && OnCurve(Normalize(a))
    ensures Normalize(a).base == Normalize(a).quote
  {
    var s := Isqrt(a.k);
    DivUnique(s * s, s, s);
  }

  /** On the curve the quote subtraction of a purchase cannot underflow: only size and price overflow refuse it. */
  lemma LongOnCurve(a: Amm, size: u128)
    requires OnCurve(a)
    ensures SimulateLong(a, size).Done?
       <==> 0 < size < a.base && (a.k / (a.base - size) - a.k / a.base) * a.peg <= U128_MAX
    ensures SimulateLong(a, size).Done? ==>
              var b := ApplySwap(a, SimulateLong(a, size).value);
              OnCurve(b) && b == a.(base := a.base - size, quote := a.k / (a.base - size))
              && SimulateLong(a, size).value.quoteAmount == b.quote - a.quote
  {
    if 0 < size < a.base {
      QuotientGrows(a.k, a.base - size, a.base);
      QuotientAtMost(a.k, a.base - size);
      MulPos(a.k / (a.base - size) - a.k / a.base, a.peg);
    }
  }

  lemma ShortOnCurve(a: Amm, size: u128)
    requires OnCurve(a)
    ensures SimulateShort(a, size).Done?
       <==> 0 < size && a.base + size <= U128_MAX && (a.k / a.base - a.k / (a.base + size)) * a.peg <= U128_MAX
    ensures SimulateShort(a, size).Done? ==>
              var b := ApplySwap(a, SimulateShort(a, size).value);
              OnCurve(b) && b == a.(base := a.base + size, quote := a.k / (a.base + size))
              && SimulateShort(a, size).value.quoteAmount == a.quote - b.quote
  {
    if 0 < size && a.base + size <= U128_MAX {
      QuotientGrows(a.k, a.base, a.base + size);
      QuotientAtMost(a.k, a.base + size);
      MulPos(a.k / a.base - a.k / (a.base + size), a.peg);
    }
  }

  lemma QuotientGrows(n: nat, d: nat, e: nat)
    requires 0 < d <= e
    ensures n / e <= n / d
  {
    DivMod(n, e);
    DivAtLeast(n, e, 0);
    MulMono(d, e, n / e);
    DivAtLeast(n, d, n / e);
  }

  // -- sequences of trades ----------------------------------------------------------

  /** A signed trade: positive sizes buy base, negative sizes sell it. */
  function Trade(a: Amm, size: int): Outcome<Amm> {
    var swap :- if 0 <= size <= U128_MAX then SimulateLong(a, size)
                else if size < 0 && -size <= U128_MAX then SimulateShort(a, -size) else Abort;
    Done(ApplySwap(a, swap))
  }

  /** What the trader pays for a trade (negative: receives). */
  function Paid(a: Amm, size: int): Outcome<int> {
    var swap :- if 0 <= size <= U128_MAX then SimulateLong(a, size)
                else if size < 0 && -size <= U128_MAX then SimulateShort(a, -size) else Abort;
    Done(if size >= 0 then swap.quoteAmount else 0 - swap.quoteAmount)
  }

  function Trades(a: Amm, sizes: seq<int>): Outcome<Amm>
    decreases |sizes|
  {
    if sizes == [] then Done(a)
    else
      var b :- Trade(a, sizes[0]);
      Trades(b, sizes[1..])
  }

  function TotalPaid(a: Amm, sizes: seq<int>): Outcome<int>
    decreases |sizes|
  {
    if sizes == [] then Done(0)
    else
      var p :- Paid(a, sizes[0]);
      var b :- Trade(a, sizes[0]);
      var rest :- TotalPaid(b, sizes[1..]);
      Done(p + rest)
  }

  function Net(sizes: seq<int>): int {
    if sizes == [] then 0 else sizes[0] + Net(sizes[1..])
  }

  /** `b` is the point of the curve of `a` that lies `net` base units further. */
  ghost predicate Moved(a: Amm, b: Amm, net: int) {
    && OnCurve(b)
    && b.base == a.base - net
    && b.k == a.k && b.peg == a.peg && b.lastPegSlot == a.lastPegSlot
  }

  lemma TradeMoves(a: Amm, size: int)
    requires OnCurve(a) && Trade(a, size).Done?
    ensures Moved(a, Trade(a, size).value, size)
    ensures Paid(a, size) == Done(Trade(a, size).value.quote - a.quote)
  {
    if size >= 0 { LongOnCurve(a, size); } else { ShortOnCurve(a, -size); }
  }

  lemma MovedOnce(a: Amm, b: Amm, c: Amm, net: int)
    requires OnCurve(a)
    ensures Moved(a, b, net) && Moved(a, c, net) ==> b == c
    ensures Moved(a, b, 0) ==> b == a
  {
  }

  /** Where a sequence of trades ends, and what it costs in all, depends on its net size only. */
  lemma {:induction false} TradesMove(a: Amm, sizes: seq<int>)
    requires OnCurve(a) && Trades(a, sizes).Done?
    ensures Moved(a, Trades(a, sizes).value, Net(sizes))
    ensures TotalPaid(a, sizes) == Done(Trades(a, sizes).value.quote - a.quote)
    decreases |sizes|
  {
    hide Trade;
    hide Paid;
    hide OnCurve;
    if sizes != [] {
      TradeMoves(a, sizes[0]);
      TradesMove(Trade(a, sizes[0]).value, sizes[1..]);
    }
  }

  /** Path independence: two ways of trading the same net size agree on the reserves and on the total quote. */
  lemma PathIndependence(a: Amm, sizes: seq<int>, others: seq<int>)
    requires OnCurve(a) && Trades(a, sizes).Done? && Trades(a, others).Done? && Net(sizes) == Net(others)
    ensures Trades(a, sizes) == Trades(a, others)
    ensures TotalPaid(a, sizes) == TotalPaid(a, others)
    ensures Net(sizes) == 0 ==> Trades(a, sizes) == Done(a) && TotalPaid(a, sizes) == Done(0)
  {
    hide *;
    TradesMove(a, sizes);
    TradesMove(a, others);
    MovedOnce(a, Trades(a, sizes).value, Trades(a, others).value, Net(sizes));
  }
}
