/**
 Sums over all accounts, which the engine never computes but keeps running
 totals of, and the global invariant, split into what it says of each side, of
 the reward accumulators, of the money totals and of each account.

 An instruction works on one position `s.p`; `rest` are all other accounts of
 the market.  The engine never reads them, but its totals are about them.
 */
module Invariants {
  import opened Numbers
  import opened State
  import Vamm
  import Risk

  /** The integer quantities that are added up over accounts. */
  datatype Measure =
    | Collateral                       // deposited collateral
    | Gain                             // positive PnL
    | Released                         // positive PnL outside the reserve
    | StoredOn(side: Side)             // 1 for an account with a basis on the side
    | StaleOn(side: Side, epoch: int)  // 1 for such an account of another epoch
    | BaseOn(side: Side)               // raw size on the side
    | OwedOn(side: Side, acc: int)     // unclaimed reward in units of 1 / REWARD_PRECISION

  predicate Holds(p: PositionV, side: Side) {
    p.basis != 0 && SideOf(p.basis) == side
  }

  function BaseSizeOn(p: PositionV, side: Side): nat {
    if p.baseSize != 0 && SideOf(p.baseSize) == side then Abs(p.baseSize) else 0
  }

  function Of(measure: Measure, p: PositionV): int {
    match measure
    case Collateral => p.collateral
    case Gain => PosPart(p.pnl)
    case Released => PosPart(p.pnl) - p.reserved
    case StoredOn(side) => if Holds(p, side) then 1 else 0
    case StaleOn(side, epoch) => if Holds(p, side) && p.epochSnap != epoch then 1 else 0
    case BaseOn(side) => BaseSizeOn(p, side)
    case OwedOn(side, acc) => BaseSizeOn(p, side) * (acc - p.rewardSnap)
  }

  function Sum(measure: Measure, accounts: seq<PositionV>): int {
    if accounts == [] then 0 else Of(measure, accounts[0]) + Sum(measure, accounts[1..])
  }

  /** The real number `|basis| / a_snapshot` of a current position: its effective size per unit of the size index. */
  ghost function Weight(side: Side, epoch: int, p: PositionV): real {
    if Holds(p, side) && p.epochSnap == epoch && p.aSnap > 0 then (Abs(p.basis) as real) / (p.aSnap as real) else 0.0
  }

  ghost function SumWeight(side: Side, epoch: int, accounts: seq<PositionV>): real {
    if accounts == [] then 0.0 else Weight(side, epoch, accounts[0]) + SumWeight(side, epoch, accounts[1..])
  }

  /** All accounts but the one at `i`. */
  function Without<T>(accounts: seq<T>, i: nat): seq<T>
    requires i < |accounts|
  {
    accounts[..i] + accounts[i + 1..]
  }

  lemma {:induction false} SumSplit(measure: Measure, accounts: seq<PositionV>, i: nat)
    requires i < |accounts|
    ensures Sum(measure, accounts) == Of(measure, accounts[i]) + Sum(measure, Without(accounts, i))
  {
    if i == 0 {
      assert Without(accounts, 0) == accounts[1..];
    } else {
      SumSplit(measure, accounts[1..], i - 1);
      assert Without(accounts, i) == [accounts[0]] + Without(accounts[1..], i - 1);
    }
  }

  lemma {:induction false} WeightSplit(side: Side, epoch: int, accounts: seq<PositionV>, i: nat)
    requires i < |accounts|
    ensures SumWeight(side, epoch, accounts)
            == Weight(side, epoch, accounts[i]) + SumWeight(side, epoch, Without(accounts, i))
  {
    if i == 0 {
      assert Without(accounts, 0) == accounts[1..];
    } else {
      WeightSplit(side, epoch, accounts[1..], i - 1);
      assert Without(accounts, i) == [accounts[0]] + Without(accounts[1..], i - 1);
    }
  }

  predicate Additive(measure: Measure) {
    measure.Collateral? || measure.Gain? || measure.StoredOn? || measure.StaleOn? || measure.BaseOn?
  }

  lemma {:induction false} SumNonNegative(measure: Measure, accounts: seq<PositionV>)
    requires Additive(measure)
    ensures Sum(measure, accounts) >= 0
  {
    if accounts != [] {
      SumNonNegative(measure, accounts[1..]);
    }
  }

  lemma {:induction false} ReleasedNonNegative(accounts: seq<PositionV>)
    requires forall q :: q in accounts ==> q.reserved <= PosPart(q.pnl)
    ensures Sum(Released, accounts) >= 0
  {
    if accounts != [] {
      assert accounts[0] in accounts;
      assert forall q :: q in accounts[1..] ==> q in accounts;
      ReleasedNonNegative(accounts[1..]);
    }
  }

  lemma WeightNonNegative(side: Side, epoch: int, p: PositionV)
    ensures Weight(side, epoch, p) >= 0.0
    ensures Weight(side, epoch, p) > 0.0 <==> Holds(p, side) && p.epochSnap == epoch && p.aSnap > 0
  {
  }

  lemma {:induction false} SumWeightNonNegative(side: Side, epoch: int, accounts: seq<PositionV>)
    ensures SumWeight(side, epoch, accounts) >= 0.0
  {
    if accounts != [] {
      WeightNonNegative(side, epoch, accounts[0]);
      SumWeightNonNegative(side, epoch, accounts[1..]);
    }
  }

  /** When the epoch moves past every account, all stored positions are stale and none has weight. */
  lemma {:induction false} AllStale(side: Side, epoch: int, accounts: seq<PositionV>)
    requires forall q :: q in accounts && Holds(q, side) ==> q.epochSnap < epoch
    ensures Sum(StaleOn(side, epoch), accounts) == Sum(StoredOn(side), accounts)
    ensures SumWeight(side, epoch, accounts) == 0.0
  {
    if accounts != [] {
      assert accounts[0] in accounts;
      assert forall q :: q in accounts[1..] ==> q in accounts;
      AllStale(side, epoch, accounts[1..]);
    }
  }

  /** A side without stored positions has no weight. */
  lemma {:induction false} NoneStored(side: Side, epoch: int, accounts: seq<PositionV>)
    requires Sum(StoredOn(side), accounts) == 0
    ensures SumWeight(side, epoch, accounts) == 0.0
  {
    if accounts != [] {
      SumNonNegative(StoredOn(side), accounts[1..]);
      NoneStored(side, epoch, accounts[1..]);
    }
  }

  /** Raising the accumulator by `delta` owes `delta` more per unit of raw size. */
  lemma {:induction false} OwedGrows(side: Side, acc: int, delta: int, accounts: seq<PositionV>)
    ensures Sum(OwedOn(side, acc + delta), accounts)
         == Sum(OwedOn(side, acc), accounts) + delta * Sum(BaseOn(side), accounts)
  {
    if accounts != [] {
      OwedGrows(side, acc, delta, accounts[1..]);
      OwedGrowsOne(side, acc, delta, accounts[0]);
      Distribute(BaseSizeOn(accounts[0], side), Sum(BaseOn(side), accounts[1..]), delta);
    }
  }

  lemma OwedGrowsOne(side: Side, acc: int, delta: int, p: PositionV)
    ensures Of(OwedOn(side, acc + delta), p) == Of(OwedOn(side, acc), p) + delta * Of(BaseOn(side), p)
  {
    Distribute(acc - p.rewardSnap, delta, BaseSizeOn(p, side));
  }

  // ---------------------------------------------------------------------------
  // One account
  // ---------------------------------------------------------------------------

  /** What holds of an account by itself. */
  ghost predicate Shape(p: PositionV) {
    && p.reserved <= PosPart(p.pnl)
    && (p.basis > 0 <==> p.baseSize > 0)
    && (p.basis < 0 <==> p.baseSize < 0)
    && Abs(p.basis) <= Abs(p.baseSize)
    && 0 < p.aSnap <= ADL_ONE
  }

  /** What holds of an account relative to a side it is on. */
  ghost predicate Fits(p: PositionV, b: Book) {
    && p.epochSnap <= b.epoch
    && (p.epochSnap == b.epoch ==> b.a <= p.aSnap)
    && p.rewardSnap <= b.acc
  }

  ghost predicate FitsMarket(p: PositionV, m: MarketV) {
    p.basis != 0 ==> Fits(p, m.Side(SideOf(p.basis)))
  }

  ghost predicate AccountOk(p: PositionV, m: MarketV) {
    Shape(p) && FitsMarket(p, m) && p.warmupStart <= m.feed.currentSlot
  }

  ghost predicate AllOk(accounts: seq<PositionV>, m: MarketV) {
    forall q :: q in accounts ==> AccountOk(q, m)
  }

  // ---------------------------------------------------------------------------
  // One side
  // ---------------------------------------------------------------------------

  /** What one account owns of a side's open interest: the real number |basis| * a / a_snapshot. */
  ghost function Share(side: Side, p: PositionV, b: Book): real {
    (b.a as real) * Weight(side, b.epoch, p)
  }

  ghost function RestShare(side: Side, rest: seq<PositionV>, b: Book): real {
    (b.a as real) * SumWeight(side, b.epoch, rest)
  }

  /** What all current positions of a side own together. */
  ghost function Owned(side: Side, rest: seq<PositionV>, p: PositionV, b: Book): real {
    Share(side, p, b) + RestShare(side, rest, b)
  }

  /** Open interest exceeds what accounts own by at most the phantom dust bound. */
  ghost predicate Sandwich(side: Side, rest: seq<PositionV>, p: PositionV, b: Book) {
    0.0 <= (b.oi as real) - Owned(side, rest, p, b) <= b.dust as real
  }

  /** A side that is due for a reset has no open interest left and is exempt from the sandwich until then. */
  ghost predicate Covered(side: Side, rest: seq<PositionV>, p: PositionV, b: Book) {
    (b.pending && b.oi == 0) || Sandwich(side, rest, p, b)
  }

  ghost predicate Counted(side: Side, rest: seq<PositionV>, p: PositionV, b: Book) {
    && b.stored == Of(StoredOn(side), p) + Sum(StoredOn(side), rest)
    && b.stale == Of(StaleOn(side, b.epoch), p) + Sum(StaleOn(side, b.epoch), rest)
    && b.total == Of(BaseOn(side), p) + Sum(BaseOn(side), rest)
  }

  ghost predicate BookOk(side: Side, rest: seq<PositionV>, p: PositionV, b: Book) {
    && 1 <= b.a <= ADL_ONE
    && b.mode != ResetPending
    && Counted(side, rest, p, b)
    && Covered(side, rest, p, b)
  }

  /** Rewards credited to a side, and those still claimable, never exceed what was distributed to it. */
  ghost predicate RewardOk(side: Side, rest: seq<PositionV>, p: PositionV, b: Book, h: History) {
    Of(OwedOn(side, b.acc), p) + Sum(OwedOn(side, b.acc), rest) + REWARD_PRECISION * h.Paid(side)
    <= REWARD_PRECISION * h.Distributed(side)
  }

  ghost predicate SideOk(side: Side, rest: seq<PositionV>, s: Pair) {
    BookOk(side, rest, s.p, s.m.Side(side)) && RewardOk(side, rest, s.p, s.m.Side(side), s.m.history)
  }

  // ---------------------------------------------------------------------------
  // Money
  // ---------------------------------------------------------------------------

  ghost predicate FundsOk(rest: seq<PositionV>, p: PositionV, f: Funds) {
    && f.cTot == Of(Collateral, p) + Sum(Collateral, rest)
    && f.pnlPos == Of(Gain, p) + Sum(Gain, rest)
    && f.matured == Of(Released, p) + Sum(Released, rest)
  }

  /** By how much the vault exceeds the senior claims on it. */
  ghost function Cushion(f: Funds): int {
    f.vault - Risk.Senior(f)
  }

  // ---------------------------------------------------------------------------
  // Everything
  // ---------------------------------------------------------------------------

  ghost predicate Inv(rest: seq<PositionV>, s: Pair) {
    && SideOk(Long, rest, s) && SideOk(Short, rest, s)
    && FundsOk(rest, s.p, s.m.funds)
    && Vamm.OnCurve(s.m.amm)
    && AccountOk(s.p, s.m)
    && AllOk(rest, s.m)
  }

  /** No reset is under way: what every instruction leaves behind. */
  ghost predicate AtRest(m: MarketV) {
    !m.long.pending && !m.short.pending
  }

  // ---------------------------------------------------------------------------
  // Frames: what an operation may change without touching a part of the invariant
  // ---------------------------------------------------------------------------

  /** A side only moves forward: epochs and accumulators grow, the size index shrinks within an epoch. */
  ghost predicate BookAdvances(b: Book, c: Book) {
    && b.epoch <= c.epoch
    && (b.epoch == c.epoch ==> c.a <= b.a)
    && b.acc <= c.acc
  }

  ghost predicate Advances(m: MarketV, n: MarketV) {
    BookAdvances(m.long, n.long) && BookAdvances(m.short, n.short) && m.feed.currentSlot <= n.feed.currentSlot
  }

  lemma AllOkAdvances(accounts: seq<PositionV>, m: MarketV, n: MarketV)
    requires AllOk(accounts, m) && Advances(m, n)
    ensures AllOk(accounts, n)
  {
  }

  /** The account's exposure, as far as the sides know it. */
  ghost predicate SameExposure(p: PositionV, q: PositionV) {
    && p.basis == q.basis && p.baseSize == q.baseSize
    && p.aSnap == q.aSnap && p.epochSnap == q.epochSnap && p.rewardSnap == q.rewardSnap
  }

  /** An operation on money only: sides, curve, clock and history stay as they are. */
  ghost predicate MoneyOnly(s: Pair, t: Pair) {
    && SameExposure(s.p, t.p)
    && t.m == s.m.(funds := t.m.funds)
    && t.p.warmupStart <= Max(s.p.warmupStart, s.m.feed.currentSlot)
  }

  lemma SameMeasures(side: Side, epoch: int, acc: int, p: PositionV, q: PositionV)
    requires SameExposure(p, q)
    ensures Of(StoredOn(side), p) == Of(StoredOn(side), q) && Of(StaleOn(side, epoch), p) == Of(StaleOn(side, epoch), q)
    ensures Of(BaseOn(side), p) == Of(BaseOn(side), q) && Of(OwedOn(side, acc), p) == Of(OwedOn(side, acc), q)
    ensures Weight(side, epoch, p) == Weight(side, epoch, q)
  {
  }

  lemma SideFrame(side: Side, rest: seq<PositionV>, s: Pair, t: Pair)
    requires SideOk(side, rest, s) && SameExposure(s.p, t.p)
    requires s.m.Side(side) == t.m.Side(side) && s.m.history == t.m.history
    ensures SideOk(side, rest, t)
  {
    var b := s.m.Side(side);
    SameMeasures(side, b.epoch, b.acc, s.p, t.p);
    assert Share(side, s.p, b) == Share(side, t.p, b);
    hide Of;
    hide Share;
    hide RestShare;
  }

  /** Shares depend on the size index and the epoch only. */
  lemma SameShares(side: Side, rest: seq<PositionV>, p: PositionV, b: Book, c: Book)
    requires b.a == c.a && b.epoch == c.epoch
    ensures Share(side, p, b) == Share(side, p, c) && RestShare(side, rest, b) == RestShare(side, rest, c)
  {
  }

  /** A money operation keeps the invariant if it keeps the money totals. */
  lemma MoneyFrame(rest: seq<PositionV>, s: Pair, t: Pair)
    requires Inv(rest, s) && MoneyOnly(s, t)
    requires FundsOk(rest, t.p, t.m.funds) && t.p.reserved <= PosPart(t.p.pnl)
    ensures Inv(rest, t)
  {
    SideFrame(Long, rest, s, t);
    SideFrame(Short, rest, s, t);
    hide SideOk;
    hide FundsOk;
    hide Vamm.OnCurve;
  }

  /** The invariant from its parts, when the rest of the market has only moved forward. */
  lemma Assemble(rest: seq<PositionV>, s: Pair, side: Side, t: Pair)
    requires Inv(rest, s) && Advances(s.m, t.m)
    requires SideOk(side, rest, t) && SideOk(side.Opposite(), rest, t)
    requires FundsOk(rest, t.p, t.m.funds) && Vamm.OnCurve(t.m.amm) && AccountOk(t.p, t.m)
    ensures Inv(rest, t)
  {
    AllOkAdvances(rest, s.m, t.m);
    hide SideOk;
    hide FundsOk;
    hide Vamm.OnCurve;
  }
}
