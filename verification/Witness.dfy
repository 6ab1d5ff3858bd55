/**
 The reachable worlds are exactly those that instructions lead to from a new
 market, and they include worlds with open positions: one concrete run that
 deposits and opens, with every number the program computes on the way.  Two more
 concrete worlds show a reward that the vault cannot pay, and a drain-only side
 about to be emptied by the liquidation of the last short, after which its only
 holder settles nothing, whatever it was owed or owes.
 */
module Witness {
  import opened Numbers
  import opened FixedPoint
  import opened State
  import opened Risk
  import opened Invariants
  import opened PositionSteps
  import opened AdlSteps
  import opened Handlers
  import opened Runs
  import opened InstructionSteps
  import opened LazyIndex
  import opened AdlCoverage
  import Vamm
  import Traces

  /** A new market without accounts is reachable. */
  lemma NewMarketReachable(initialK: u128, env: Env, tradingFeeBps: u16, maxLeverage: u32, m: MarketV)
    requires CreateMarket(initialK, env, tradingFeeBps, maxLeverage) == Done(m)
    ensures Reachable(World(m, []))
  {
    hide CreateMarket;
    assert World(m, []) == Run(World(m, []), []);
  }

  lemma {:induction false} RunAppend(w: World, steps: seq<(Instruction, Env)>, i: Instruction, env: Env)
    ensures Run(w, steps + [(i, env)]) == Step(Run(w, steps), i, env)
    decreases |steps|
  {
    hide Step;
    var more := steps + [(i, env)];
    if steps == [] {
      assert more[1..] == [];
      assert Run(Step(w, i, env), []) == Step(w, i, env);
    } else {
      assert more[0] == steps[0] && more[1..] == steps[1..] + [(i, env)];
      RunAppend(Step(w, steps[0].0, steps[0].1), steps[1..], i, env);
    }
  }

  /** From a reachable world every instruction, in every environment, leads to a reachable world. */
  lemma StepReachable(w: World, i: Instruction, env: Env)
    requires Reachable(w)
    ensures Reachable(Step(w, i, env))
  {
    hide CreateMarket;
    hide Step;
    hide Run;
    var initialK: u128, env0: Env, tradingFeeBps: u16, maxLeverage: u32, m: MarketV, steps: seq<(Instruction, Env)> :|
      CreateMarket(initialK, env0, tradingFeeBps, maxLeverage) == Done(m) && w == Run(World(m, []), steps);
    RunAppend(World(m, []), steps, i, env);
  }

  // ---------------------------------------------------------------------------
  // One run
  // ---------------------------------------------------------------------------

  const ENV := Env(10, 100, 1_000_000, false, true)

  const CURVE := Vamm.Amm(2_000_000_000, 2_000_000_000, 4_000_000_000_000_000_000, 1_000_000, 0)

  /** The market with the given long side, curve, money and mark price observations. */
  function Listed(long: Book, amm: Vamm.Amm, funds: Funds, twap: Twap, history: History): MarketV {
    MarketV(long, EMPTY_BOOK, amm, funds, Feed(10, 10, 1_000_000, 0, 1_000_000), twap,
            Params(30, LIQUIDATION_FEE_BPS, MAINTENANCE_MARGIN_BPS, 1_000, WARMUP_PERIOD_SLOTS, DEFAULT_FUNDING_PERIOD,
                   FUNDING_RATE_CAP_BPS, 400_000_000, 1_000_000_000), history)
  }

  function Money(vault: u128, cTot: u128, creatorFees: u64, protocolFees: u64): Funds {
    Funds(vault, cTot, 0, 0, 0, 0, 0, 100, creatorFees, protocolFees)
  }

  /** The account with the given collateral, and with a long position. */
  function Opener(collateral: u64, size: i64, quoteEntry: u128, pegAtEntry: u128): PositionV {
    PositionV(collateral, size, quoteEntry, pegAtEntry, 0, 0, 10, 0, size, ADL_ONE, 0, 0, 0, 10, 0, 0)
  }

  const UNTRADED := Twap(0, 0, 0, 1_000_000, 100)

  const NO_REWARDS := History(0, 0, 0, 0)

  const MARKET := Listed(EMPTY_BOOK, CURVE, Money(0, 0, 0, 0), UNTRADED, NO_REWARDS)

  lemma Created(initialK: u128)
    requires initialK == 4_000_000_000_000_000_000
    ensures CreateMarket(initialK, ENV, 30, 1_000) == Done(MARKET)
  {
    hide Vamm.Isqrt;
    RootIs(initialK);
    assert Vamm.Initialize(initialK, ENV.price) == Done(CURVE);
  }

  lemma RootIs(n: nat)
    requires n == 4_000_000_000_000_000_000
    ensures Vamm.Isqrt(n) == 2_000_000_000
  {
    hide Vamm.Isqrt;
    Vamm.IsqrtUnique(n, 2_000_000_000);
  }

  const DEPOSITED := Pair(
    Opener(1_000_000, 0, 0, 0), Listed(EMPTY_BOOK, CURVE, Money(1_000_000, 1_000_000, 0, 0), UNTRADED, NO_REWARDS))

  lemma Deposits()
    ensures Checked(DepositBody(Pair(FreshPosition(10), MARKET), ENV, 1_000_000)) == Done(DEPOSITED)
  {
    var s := Pair(FreshPosition(10), MARKET);
    assert Accrue(s.m, ENV.slot, ENV.price) == Done(MARKET);
    assert Touch(s, ENV) == Done(s.(p := s.p.(warmupStart := 10)));
  }

  lemma Traded()
    ensures OpenSwap(DEPOSITED.m, Long, 1_000_000, 1_000_000, 100) == Done((TRADED, 1_000_500))
  {
    assert Vamm.MarkPrice(CURVE) == Done(1_000_000);
    assert Vamm.Notional(1_000_000, 1_000_000) == Done(1_000_000);
    DivUnique(4_000_000_000_000_000_000, 1_999_000_000, 2_001_000_500);
    assert Vamm.SimulateLong(CURVE, 1_000_000) == Done(Vamm.Swap(1_000_500, 1_999_000_000, 2_001_000_500, 1_000_500));
    assert Vamm.SlippageBps(1_000_500, 1_000_000) == Done(5);
  }

  const BOUGHT := Vamm.Amm(1_999_000_000, 2_001_000_500, 4_000_000_000_000_000_000, 1_000_000, 0)

  const OBSERVED := Twap(1_000_000_000_000, 1_000_000, 1, 1_000_000, 100)

  const TRADED := Listed(EMPTY_BOOK, BOUGHT, Money(1_000_000, 1_000_000, 0, 0), OBSERVED, NO_REWARDS)

  const CHARGED := Pair(
    Opener(997_000, 0, 0, 0), Listed(EMPTY_BOOK, BOUGHT, Money(1_000_000, 997_000, 0, 0), OBSERVED, NO_REWARDS))

  const LONGS := Book(ADL_ONE, 0, 0, 0, Normal, 1_000_000, 1, 0, 0, false, 1_000_000, 0)

  const ENLARGED := Pair(
    Opener(997_000, 1_000_000, 1_000_500, 0),
    Listed(LONGS, BOUGHT, Money(1_000_000, 997_000, 0, 0), OBSERVED, NO_REWARDS))

  lemma Charged()
    ensures OpenFees(TRADED, 1_000_000, 1_000_000, false) == Done(Fees(3_000, 300, 2_700))
    ensures TakeFee(DEPOSITED.(m := TRADED), 3_000) == Done(CHARGED)
  {
  }

  lemma Enlarged()
    ensures Enlarge(CHARGED, Long, 1_000_000, 1_000_500) == Done(ENLARGED)
    ensures IsAboveInitial(ENLARGED.p, ENLARGED.m, 1_000_000) == Done(true)
  {
    assert EffectiveQ(CHARGED.p, CHARGED.m) == Done(0);
    assert EffectiveQ(ENLARGED.p, ENLARGED.m) == Done(1_000_000);
  }

  const OPENED := Pair(
    Opener(997_000, 1_000_000, 1_000_500, 1_000_000),
    Listed(LONGS, BOUGHT, Money(1_000_000, 997_000, 300, 2_700), OBSERVED, NO_REWARDS))

  lemma Opens()
    ensures OpenBody(DEPOSITED, ENV, Long, 1_000_000, 100, 100, false) == Done(OPENED)
  {
    hide OpenSwap;
    hide OpenFees;
    hide TakeFee;
    hide Enlarge;
    hide IsAboveInitial;
    Traded();
    Charged();
    Enlarged();
    assert Touch(DEPOSITED, ENV) == Done(DEPOSITED);
    assert OpenAllowed(DEPOSITED, Long, 1_000_000) == Done(());
    assert StartPosition(ENLARGED.(m := OPENED.m), Long, 10) == Done(OPENED);
    assert Finalize(Stamp(OPENED, 10)) == Done(OPENED);
  }

  lemma AccountSteps(w: World, i: Instruction, env: Env, t: Pair)
    requires i.OnAccount() && i.who < |w.accounts| && !i.ReclaimAccount?
    requires AccountStep(Pair(w.accounts[i.who], w.m), i, env) == Done(t)
    ensures Step(w, i, env) == World(t.m, w.accounts[i.who := t.p])
  {
    hide AccountStep;
  }

  lemma DepositStep()
    ensures Step(World(MARKET, [FreshPosition(10)]), Deposit(0, 1_000_000), ENV) == World(DEPOSITED.m, [DEPOSITED.p])
  {
    hide DepositBody;
    hide Checked;
    hide FreshPosition;
    hide Step;
    Deposits();
    AccountSteps(World(MARKET, [FreshPosition(10)]), Deposit(0, 1_000_000), ENV, DEPOSITED);
    assert [FreshPosition(10)][0 := DEPOSITED.p] == [DEPOSITED.p];
  }

  lemma OpenStep()
    ensures Step(World(DEPOSITED.m, [DEPOSITED.p]), Open(0, Long, 1_000_000, 100, 100, false), ENV)
         == World(OPENED.m, [OPENED.p])
  {
    hide OpenBody;
    hide Step;
    Opens();
    AccountSteps(World(DEPOSITED.m, [DEPOSITED.p]), Open(0, Long, 1_000_000, 100, 100, false), ENV, OPENED);
    assert [DEPOSITED.p][0 := OPENED.p] == [OPENED.p];
  }

  lemma InitStep()
    ensures Step(World(MARKET, []), InitPosition, ENV) == World(MARKET, [FreshPosition(10)])
  {
    hide AccountStep;
    hide MarketStep;
  }

  lemma OpenedInterest()
    ensures OPENED.m.long.oi == 1_000_000
  {
  }

  lemma OpenedReachable()
    ensures Reachable(World(OPENED.m, [OPENED.p]))
  {
    hide *;
    var initialK: u128 :| initialK == 4_000_000_000_000_000_000;
    Created(initialK);
    NewMarketReachable(initialK, ENV, 30, 1_000, MARKET);
    StepReachable(World(MARKET, []), InitPosition, ENV);
    InitStep();
    StepReachable(World(MARKET, [FreshPosition(10)]), Deposit(0, 1_000_000), ENV);
    DepositStep();
    StepReachable(World(DEPOSITED.m, [DEPOSITED.p]), Open(0, Long, 1_000_000, 100, 100, false), ENV);
    OpenStep();
  }

  /** Someone can deposit and open a position: the theorems about reachable worlds are about worlds with exposure. */
  lemma PositionsAreReachable()
    ensures exists w: World :: Reachable(w) && w.accounts == [OPENED.p] && w.m.long.oi == 1_000_000
  {
    hide *;
    OpenedReachable();
    OpenedInterest();
    assert World(OPENED.m, [OPENED.p]).m.long.oi == 1_000_000;
  }

  // ---------------------------------------------------------------------------
  // A reward that the vault cannot pay
  // ---------------------------------------------------------------------------

  /** The opened position with a reward of 1,000,000 distributed to it that nothing in the vault backs any more. */
  const REWARDED := Listed(
    Book(ADL_ONE, 0, 0, 0, Normal, 1_000_000, 1, 0, 0, false, 1_000_000, 1_000_000), BOUGHT,
    Money(1_000_000, 997_000, 300, 2_700), OBSERVED, History(0, 0, 1_000_000, 0))

  lemma RewardedLong()
    requires SideOk(Long, [OPENED.p], Pair(NOBODY, OPENED.m))
    ensures SideOk(Long, [OPENED.p], Pair(NOBODY, REWARDED))
  {
    hide BookOk;
    hide RewardOk;
    SideParts(Long, [OPENED.p], Pair(NOBODY, OPENED.m));
    AccBook(Long, [OPENED.p], NOBODY, OPENED.m.long, REWARDED.long);
    RewardedOwed();
  }

  lemma OpenedOwed()
    ensures Of(OwedOn(Long, 1_000_000), OPENED.p) == 1_000_000 * 1_000_000 && Of(OwedOn(Long, 1_000_000), NOBODY) == 0
    ensures REWARDED.long.acc == 1_000_000 && REWARDED.history == History(0, 0, 1_000_000, 0)
  {
  }

  lemma RewardedOwed()
    ensures RewardOk(Long, [OPENED.p], NOBODY, REWARDED.long, REWARDED.history)
  {
    hide Of;
    OpenedOwed();
    assert [OPENED.p][1..] == [];
    assert Sum(OwedOn(Long, 1_000_000), [OPENED.p]) == 1_000_000 * 1_000_000;
  }

  lemma RewardedShort()
    requires SideOk(Short, [OPENED.p], Pair(NOBODY, OPENED.m))
    ensures SideOk(Short, [OPENED.p], Pair(NOBODY, REWARDED))
  {
    hide BookOk;
    hide Sum;
    hide Of;
  }

  lemma RewardedAdvances()
    ensures Advances(OPENED.m, REWARDED) && REWARDED.funds == OPENED.m.funds && REWARDED.amm == OPENED.m.amm
    ensures AtRest(REWARDED) && AccountOk(NOBODY, REWARDED)
  {
  }

  lemma RewardedOk()
    ensures WorldOk(World(REWARDED, [OPENED.p]))
  {
    hide *;
    OpenedReachable();
    ReachableOk(World(OPENED.m, [OPENED.p]));
    RewardedFrom();
  }

  lemma RewardedFrom()
    requires WorldOk(World(OPENED.m, [OPENED.p]))
    ensures WorldOk(World(REWARDED, [OPENED.p]))
  {
    RewardedAdvances();
    InvMoney([OPENED.p], Pair(NOBODY, OPENED.m));
    hide SideOk;
    hide FundsOk;
    hide Vamm.OnCurve;
    hide AccountOk;
    hide AllOk;
    RewardedLong();
    RewardedShort();
    Assemble([OPENED.p], Pair(NOBODY, OPENED.m), Long, Pair(NOBODY, REWARDED));
  }

  lemma RewardTouched()
    ensures Touch(Pair(OPENED.p, REWARDED), ENV).Done?
    ensures AtRest(Touch(Pair(OPENED.p, REWARDED), ENV).value.m)
  {
    hide KPairFloor;
    assert Accrue(REWARDED, ENV.slot, ENV.price) == Done(REWARDED);
    hide Accrue;
    assert KPairFloor(1_000_000, 0, 0, ADL_ONE * POS_SCALE) == Done(0) by {
      NoGain();
    }
  }

  lemma NoGain()
    ensures KPairFloor(1_000_000, 0, 0, ADL_ONE * POS_SCALE) == Done(0)
  {
  }

  lemma NothingPending(s: Pair)
    requires AtRest(s.m)
    ensures Finalize(s).Done?
  {
  }

  lemma OpenedFields()
    ensures OPENED.p.baseSize == 1_000_000 && OPENED.p.rewardSnap == 0 && REWARDED.long.acc == 1_000_000
    ensures REWARDED.funds == Funds(1_000_000, 997_000, 0, 0, 0, 0, 0, 100, 300, 2_700)
  {
  }

  lemma RewardPending()
    ensures PendingReward(OPENED.p, REWARDED) == 1_000_000
  {
    OpenedFields();
    var p, m := OPENED.p, REWARDED;
    PendingIs(p, m);
  }

  lemma PendingIs(p: PositionV, m: MarketV)
    requires p.baseSize == 1_000_000 && p.rewardSnap == 0 && m.long.acc == 1_000_000
    ensures PendingReward(p, m) == 1_000_000
  {
    DivUnique(1_000_000 * 1_000_000, REWARD_PRECISION, 1_000_000);
  }

  lemma NothingBacksIt()
    ensures Cushion(REWARDED.funds) == 0
  {
    OpenedFields();
    var f := REWARDED.funds;
    NoCushion(f);
  }

  lemma NoCushion(f: Funds)
    requires f == Funds(1_000_000, 997_000, 0, 0, 0, 0, 0, 100, 300, 2_700)
    ensures Cushion(f) == 0
  {
  }

  lemma RewardSettles()
    ensures AccountBody(Pair(OPENED.p, REWARDED), SettlePermissionless(0), ENV).Done?
  {
    hide Touch;
    hide Finalize;
    hide AtRest;
    RewardTouched();
    NothingPending(Touch(Pair(OPENED.p, REWARDED), ENV).value);
    assert OPENED.p.baseSize == 1_000_000;
  }

  /** So the refusal of a bare settlement is a case that occurs while the invariant holds. */
  lemma RewardRefused()
    ensures WorldOk(World(REWARDED, [OPENED.p]))
    ensures AccountBody(Pair(OPENED.p, REWARDED), SettlePermissionless(0), ENV).Done?
    ensures AccountStep(Pair(OPENED.p, REWARDED), SettlePermissionless(0), ENV) == Abort
  {
    hide WorldOk;
    hide AccountBody;
    hide AccountStep;
    hide PendingReward;
    hide Cushion;
    RewardedOk();
    RewardSettles();
    RewardPending();
    NothingBacksIt();
    var w := World(REWARDED, [OPENED.p]);
    assert PendingFor(w, SettlePermissionless(0)) == 1_000_000;
    PermissionlessRefusedExactly(w, SettlePermissionless(0), ENV);
  }

  const NOW := Env(0, 0, 1_000_000, false, true)

  /** The holder: a million raw units, of which 999 are left, last settled at index `kSnap`. */
  function Waiting(kSnap: i128): PositionV {
    PositionV(0, 1_000_000, 0, 0, 0, 0, 0, 0, 1_000_000, ADL_ONE, kSnap, 0, 0, 0, 0, 0)
  }

  /** The last short, with a loss of 500,000 units that it cannot pay. */
  const BROKE := PositionV(0, -999, 0, 0, -500_000, 0, 0, 0, -999, ADL_ONE, 0, 0, 0, 0, 0, 0)

  const DRAINING := Book(999, 1_000_000_000_000, 0, 0, DrainOnly, 999, 1, 0, 0, false, 1_000_000, 0)

  const SHORTS := Book(ADL_ONE, 0, 0, 0, Normal, 999, 1, 0, 0, false, 999, 0)

  const EVEN := Vamm.Amm(1_000_000, 1_000_000, 1_000_000_000_000, 1_000_000, 0)

  const EMPTY_FUNDS := Funds(0, 0, 0, 0, 0, 0, 0, 0, 0, 0)

  function MarketOf(long: Book, short: Book, amm: Vamm.Amm): MarketV {
    MarketV(long, short, amm, EMPTY_FUNDS, Feed(0, 0, 1_000_000, 0, 1_000_000), Twap(0, 0, 0, 0, 0),
            Params(30, 100, 500, 1_000, 0, 0, 0, 0, 0), History(0, 0, 0, 0))
  }

  const LAST_MARKET := MarketOf(DRAINING, SHORTS, EVEN)

  function Last(kSnap: i128): World {
    World(LAST_MARKET, [Waiting(kSnap), BROKE])
  }

  // ---------------------------------------------------------------------------
  // The world satisfies the invariant
  // ---------------------------------------------------------------------------

  lemma WaitingMeasures(kSnap: i128)
    ensures var q := Waiting(kSnap);
            && Of(StoredOn(Long), q) == 1 && Of(StaleOn(Long, 0), q) == 0 && Of(BaseOn(Long), q) == 1_000_000
            && Of(OwedOn(Long, 0), q) == 0 && Of(StoredOn(Short), q) == 0 && Of(StaleOn(Short, 0), q) == 0
            && Of(BaseOn(Short), q) == 0 && Of(OwedOn(Short, 0), q) == 0
            && Of(Collateral, q) == 0 && Of(Gain, q) == 0 && Of(Released, q) == 0
    ensures AccountOk(Waiting(kSnap), LAST_MARKET)
  {
  }

  /** A short of 999 units without collateral or profit. */
  predicate ShortOf999(q: PositionV) {
    && q.baseSize == -999 && q.basis == -999 && q.epochSnap == 0 && q.rewardSnap == 0 && q.aSnap == ADL_ONE
    && q.collateral == 0 && q.pnl <= 0 && q.reserved == 0 && q.warmupStart == 0
  }

  lemma ShortMeasures(q: PositionV)
    requires ShortOf999(q)
    ensures Of(StoredOn(Short), q) == 1 && Of(StaleOn(Short, 0), q) == 0 && Of(BaseOn(Short), q) == 999
    ensures Of(OwedOn(Short, 0), q) == 0 && Of(StoredOn(Long), q) == 0 && Of(StaleOn(Long, 0), q) == 0
    ensures Of(BaseOn(Long), q) == 0 && Of(OwedOn(Long, 0), q) == 0
    ensures Of(Collateral, q) == 0 && Of(Gain, q) == 0 && Of(Released, q) == 0
  {
  }

  lemma ShortFits(q: PositionV, m: MarketV)
    requires ShortOf999(q) && m.short.epoch == 0 && m.short.a <= ADL_ONE
    ensures AccountOk(q, m)
  {
  }

  lemma BrokeMeasures()
    ensures var q := BROKE;
            && Of(StoredOn(Short), q) == 1 && Of(StaleOn(Short, 0), q) == 0 && Of(BaseOn(Short), q) == 999
            && Of(OwedOn(Short, 0), q) == 0 && Of(StoredOn(Long), q) == 0 && Of(StaleOn(Long, 0), q) == 0
            && Of(BaseOn(Long), q) == 0 && Of(OwedOn(Long, 0), q) == 0
            && Of(Collateral, q) == 0 && Of(Gain, q) == 0 && Of(Released, q) == 0
    ensures AccountOk(BROKE, LAST_MARKET)
  {
    hide Of;
    hide AccountOk;
    ShortMeasures(BROKE);
    ShortFits(BROKE, LAST_MARKET);
  }

  lemma Shares(kSnap: i128)
    ensures Weight(Long, 0, Waiting(kSnap)) == 1.0 && Weight(Short, 0, Waiting(kSnap)) == 0.0
    ensures Weight(Long, 0, BROKE) == 0.0 && Weight(Short, 0, BROKE) == 999.0 / 1_000_000.0
  {
  }

  lemma SumsOf(side: Side, epoch: int, acc: int, q: PositionV)
    ensures Sum(StoredOn(side), [q]) == Of(StoredOn(side), q)
    ensures Sum(StaleOn(side, epoch), [q]) == Of(StaleOn(side, epoch), q)
    ensures Sum(BaseOn(side), [q]) == Of(BaseOn(side), q) && Sum(OwedOn(side, acc), [q]) == Of(OwedOn(side, acc), q)
    ensures SumWeight(side, epoch, [q]) == Weight(side, epoch, q)
  {
    SumOne(StoredOn(side), q);
    SumOne(StaleOn(side, epoch), q);
    SumOne(BaseOn(side), q);
    SumOne(OwedOn(side, acc), q);
    hide Of;
    hide Weight;
    assert [q][1..] == [] && SumWeight(side, epoch, []) == 0.0;
  }

  /** The holder owns all that is left of the long side. */
  lemma LongOk(kSnap: i128)
    ensures SideOk(Long, [Waiting(kSnap)], Pair(BROKE, LAST_MARKET))
  {
    WaitingMeasures(kSnap);
    BrokeMeasures();
    Shares(kSnap);
    SumsOf(Long, 0, 0, Waiting(kSnap));
    hide Of;
    hide Sum;
    hide Weight;
    hide SumWeight;
    hide AccountOk;
  }

  lemma ShortOk(kSnap: i128)
    ensures SideOk(Short, [Waiting(kSnap)], Pair(BROKE, LAST_MARKET))
  {
    WaitingMeasures(kSnap);
    BrokeMeasures();
    Shares(kSnap);
    SumsOf(Short, 0, 0, Waiting(kSnap));
    hide Of;
    hide Sum;
    hide Weight;
    hide SumWeight;
    hide AccountOk;
    assert 1_000_000.0 * (999.0 / 1_000_000.0) == 999.0;
  }

  lemma FundsAreOk(kSnap: i128)
    ensures FundsOk([Waiting(kSnap)], BROKE, EMPTY_FUNDS) && Vamm.OnCurve(EVEN)
  {
    WaitingMeasures(kSnap);
    BrokeMeasures();
    SumOne(Collateral, Waiting(kSnap));
    SumOne(Gain, Waiting(kSnap));
    SumOne(Released, Waiting(kSnap));
    hide Of;
    hide Sum;
    hide AccountOk;
    EvenOnCurve();
    hide Vamm.OnCurve;
  }

  lemma EvenOnCurve()
    ensures Vamm.OnCurve(EVEN)
  {
    hide Vamm.Isqrt;
    Vamm.IsqrtUnique(1_000_000_000_000, 1_000_000);
  }

  lemma LastOk(kSnap: i128)
    ensures Inv([Waiting(kSnap)], Pair(BROKE, LAST_MARKET)) && AtRest(LAST_MARKET)
    ensures WorldOk(Last(kSnap))
  {
    LongOk(kSnap);
    ShortOk(kSnap);
    FundsAreOk(kSnap);
    WaitingMeasures(kSnap);
    BrokeMeasures();
    var w := Last(kSnap);
    assert Without(w.accounts, 1) == [Waiting(kSnap)] && w.accounts[1] == BROKE;
    SingleOut(w.accounts, 1, LAST_MARKET);
    hide SideOk;
    hide FundsOk;
    hide AccountOk;
    hide Vamm.OnCurve;
    hide Without;
  }

  // ---------------------------------------------------------------------------
  // The liquidation of the last short
  // ---------------------------------------------------------------------------

  lemma NoIndexGain()
    ensures KPairFloor(999, 0, 0, ADL_ONE * POS_SCALE) == Done(0)
  {
  }

  lemma NoReward(s: Pair)
    requires s.p.baseSize < 0 && s.p.rewardSnap == s.m.short.acc
    ensures SettleRewards(s) == Done(s)
  {
    MulPos(0, Abs(s.p.baseSize));
    assert PendingReward(s.p, s.m) == 0;
    hide PendingReward;
  }

  lemma BrokeRewards()
    ensures SettleRewards(Pair(BROKE, LAST_MARKET)) == Done(Pair(BROKE, LAST_MARKET))
  {
    hide SettleRewards;
    NoReward(Pair(BROKE, LAST_MARKET));
  }

  lemma BrokePnl()
    ensures AddPnl(Pair(BROKE, LAST_MARKET), 0) == Done(Pair(BROKE, LAST_MARKET))
  {
  }

  lemma BrokeSnapshot()
    ensures Resnapshot(Pair(BROKE, LAST_MARKET), Short) == Done(Pair(BROKE, LAST_MARKET))
  {
    assert MulDivFloor(999, ADL_ONE, ADL_ONE) == Done(999);
    hide MulDivFloor;
  }

  lemma BrokeCurrent()
    ensures SettleCurrent(Pair(BROKE, LAST_MARKET), Short) == Done(Pair(BROKE, LAST_MARKET))
  {
    NoIndexGain();
    BrokePnl();
    BrokeSnapshot();
    hide KPairFloor;
    hide AddPnl;
    hide Resnapshot;
  }

  lemma BrokeSettles()
    ensures SettleSideEffects(Pair(BROKE, LAST_MARKET)) == Done(Pair(BROKE, LAST_MARKET))
  {
    BrokeRewards();
    BrokeCurrent();
    hide SettleRewards;
    hide SettleCurrent;
  }

  lemma BrokeTouched()
    ensures Touched(Pair(BROKE, LAST_MARKET), NOW) == Done(Pair(BROKE, LAST_MARKET))
  {
    hide SettleSideEffects;
    BrokeSettles();
    var s := Pair(BROKE, LAST_MARKET);
    assert RollInsuranceEpoch(LAST_MARKET, 0) == LAST_MARKET;
    assert Accrue(LAST_MARKET, 0, 1_000_000) == Done(LAST_MARKET);
    hide Accrue;
    assert AdvanceWarmup(s, 0) == Done(s);
  }

  lemma BrokeIsDue()
    ensures EffectiveQ(BROKE, LAST_MARKET) == Done(-999)
    ensures IsAboveMaintenance(BROKE, LAST_MARKET, 1_000_000) == Done(false)
  {
    assert MulDivFloor(999, ADL_ONE, ADL_ONE) == Done(999);
  }

  lemma BrokeBill()
    ensures MakeBill(BROKE, LAST_MARKET, 1_000_000) == Done(Bill(500_000, 0, 0, 0))
  {
    BrokeIsDue();
    hide EffectiveQ;
    assert MulDivFloor(999, 1_000_000, POS_SCALE) == Done(999);
    assert MulDivCeil(999, 100, 10_000) == Done(10);
  }

  // -- what the liquidation does -------------------------------------------------------

  const LOWERED := Book(999, 500_000_000_000, 0, 0, DrainOnly, 999, 1, 0, 0, false, 1_000_000, 0)

  const DRAINED := Book(999, 500_000_000_000, 0, 0, DrainOnly, 0, 1, 0, 0, true, 1_000_000, 0)

  const CLOSED := Book(ADL_ONE, 0, 0, 0, Normal, 0, 1, 0, 0, true, 999, 0)

  const WIPED := Book(ADL_ONE, 0, 0, 0, Normal, 0, 0, 0, 0, true, 0, 0)

  lemma DrainingCharged()
    ensures ChargeDeficit(DRAINING, 500_000) == Done(LOWERED)
  {
  }

  lemma NoInsurance(f: Funds, loss: u128)
    requires f.insurance == 0
    ensures UseInsurance(f, loss) == f && Uncovered(f, loss) == loss && CreditInsurance(f, 0) == f
  {
    assert InsurancePay(f, loss) == 0;
    hide InsurancePay;
  }

  lemma LastStruck(m: MarketV)
    requires m == MarketOf(DRAINING, SHORTS, m.amm)
    ensures EnqueueAdl(m, Short, 999, 500_000) == Done(MarketOf(DRAINED, CLOSED, m.amm))
  {
    hide ChargeDeficit;
    hide UseInsurance;
    hide CutBook;
    hide Uncovered;
    hide CreditInsurance;
    DrainingCharged();
    NoInsurance(EMPTY_FUNDS, 500_000);
  }

  lemma LastSwaps()
    ensures SwapFor(LAST_MARKET, true, 999).Done?
  {
    hide Vamm.OnCurve;
    EvenOnCurve();
    Vamm.LongOnCurve(EVEN, 999);
  }

  lemma BrokeSocialized() returns (amm: Vamm.Amm)
    ensures Socialize(Pair(BROKE, LAST_MARKET), Short, -999, Bill(500_000, 0, 0, 0))
         == Done(Pair(BROKE, MarketOf(DRAINED, CLOSED, amm)))
  {
    hide SwapFor;
    hide EnqueueAdl;
    hide UseInsurance;
    hide Uncovered;
    hide CreditInsurance;
    LastSwaps();
    var m0 := Swapped(LAST_MARKET, SwapFor(LAST_MARKET, true, 999).value);
    amm := m0.amm;
    LastStruck(m0);
    NoInsurance(EMPTY_FUNDS, 500_000);
  }

  /** Wiping a short without collateral takes it out of its side. */
  lemma WipesShort(s: Pair)
    requires ShortOf999(s.p) && s.p.pnl != -TWO127 && s.m.funds == EMPTY_FUNDS
    requires s.m.short == CLOSED
    ensures Wipe(s).Done? && Wipe(s).value.m == s.m.(short := s.m.short.(stored := 0, total := 0))
  {
    var m1 := s.m.(short := s.m.short.(total := 0));
    var s2 := s.(m := m1).(p := s.p.(warmupSlope := 0, warmupStart := 0));
    assert ResetWarmup(s.(m := m1)) == Done(s2);
    var s2' := s2.(p := s2.p.(baseSize := 0, quoteEntry := 0));
    var s3 := s2'.(p := s2'.p.(pnl := 0));
    NoProfit(s2');
    hide SetPnl;
    hide ResetWarmup;
    var s4 := s3.(p := s3.p.(collateral := 0));
    Leaves(s4);
    hide Attach;
  }

  lemma NoProfit(s: Pair)
    requires s.p.pnl <= 0 && s.p.reserved == 0 && s.m.funds == EMPTY_FUNDS && s.p.pnl != -TWO127
    ensures SetPnl(s, 0) == Done(s.(p := s.p.(pnl := 0)))
  {
  }

  lemma Leaves(s: Pair)
    requires s.p.basis == -999 && s.p.aSnap == ADL_ONE && s.p.epochSnap == 0
    requires s.m.short == CLOSED.(total := 0)
    ensures Attach(s, 0).Done? && Attach(s, 0).value.m == s.m.(short := s.m.short.(stored := 0))
  {
    assert !LeavesRemainder(s.p, s.m.short);
    hide LeavesRemainder;
  }

  lemma BrokeWiped(amm: Vamm.Amm)
    ensures var s := Pair(BROKE, MarketOf(DRAINED, CLOSED, amm));
            Wipe(s).Done? && Wipe(s).value.m == MarketOf(DRAINED, WIPED, amm)
  {
    hide Wipe;
    WipesShort(Pair(BROKE, MarketOf(DRAINED, CLOSED, amm)));
  }

  /** Nothing refuses the resets of two empty sides in their first epoch. */
  lemma ResetsSucceed(s: Pair)
    requires s.m.long.mode == DrainOnly && s.m.long.oi == 0 && s.m.long.epoch == 0
    requires s.m.short.mode == Normal && s.m.short.oi == 0 && s.m.short.epoch == 0
    ensures CheckSide(s, Short) == Done(s)
    ensures CheckSide(s, Long).Done? && Finalize(Stamp(CheckSide(s, Long).value, 0)).Done?
  {
    hide Vamm.Normalize;
  }

  lemma WipedSides(amm: Vamm.Amm)
    ensures var m := PayReward(MarketOf(DRAINED, WIPED, amm), 0);
            && m.long.mode == DrainOnly && m.long.oi == 0 && m.long.epoch == 0
            && m.short.mode == Normal && m.short.oi == 0 && m.short.epoch == 0
  {
  }

  lemma LastLiquidates()
    ensures LiquidateBody(Pair(BROKE, LAST_MARKET), NOW).Done?
  {
    hide Touch;
    hide RollInsuranceEpoch;
    hide IsAboveMaintenance;
    hide EffectiveQ;
    hide MakeBill;
    hide Socialize;
    hide Wipe;
    hide PayReward;
    hide CheckSide;
    hide Finalize;
    BrokeTouched();
    BrokeIsDue();
    BrokeBill();
    var amm := BrokeSocialized();
    BrokeWiped(amm);
    WipedSides(amm);
    var s3 := Wipe(Pair(BROKE, MarketOf(DRAINED, CLOSED, amm))).value;
    ResetsSucceed(s3.(m := PayReward(s3.m, 0)));
  }

  // ---------------------------------------------------------------------------
  // The step, and what it leaves to the holder
  // ---------------------------------------------------------------------------

  lemma LastStrike()
    ensures StrikeOf(Pair(BROKE, LAST_MARKET), NOW) == Traces.Strike(500_000, 999)
  {
    hide Touched;
    hide EffectiveQ;
    hide MakeBill;
    hide StrikeOf;
    hide Uncovered;
    BrokeTouched();
    BrokeIsDue();
    BrokeBill();
    StrikeIs(Pair(BROKE, LAST_MARKET), NOW, Pair(BROKE, LAST_MARKET), -999, Bill(500_000, 0, 0, 0));
    NoInsurance(EMPTY_FUNDS, 500_000);
    assert LAST_MARKET.funds == EMPTY_FUNDS;
  }

  lemma LastIsDrained(kSnap: i128)
    ensures Touched(Pair(BROKE, LAST_MARKET), NOW) == Done(Pair(BROKE, LAST_MARKET))
    ensures Payers(Pair(BROKE, LAST_MARKET)) == Long && OnBook(Long, DRAINING, Waiting(kSnap))
    ensures LAST_MARKET.long == DRAINING && DrainedAway(DRAINING, 999)
  {
    hide Touched;
    BrokeTouched();
  }

  lemma NoClaims()
    ensures PendingReward(BROKE, LAST_MARKET) == 0 && Cushion(LAST_MARKET.funds) == 0
  {
    hide SettleRewards;
    hide PendingReward;
    PendingNothing(BROKE, LAST_MARKET);
    EmptyCushion(LAST_MARKET.funds);
    hide Cushion;
  }

  lemma PendingNothing(p: PositionV, m: MarketV)
    requires p.baseSize < 0 && p.rewardSnap == m.short.acc
    ensures PendingReward(p, m) == 0
  {
    MulPos(0, Abs(p.baseSize));
  }

  lemma EmptyCushion(f: Funds)
    requires f.vault == 0 && f.cTot == 0 && f.insurance == 0 && f.creatorFees == 0 && f.protocolFees == 0
    ensures Cushion(f) == 0
  {
  }

  /** A liquidation whose pending reward is covered is not refused by the closing check. */
  lemma LiquidationSteps(w: World, who: nat, env: Env, t: Pair)
    requires WorldOk(w) && who < |w.accounts| && PendingReward(w.accounts[who], w.m) <= Cushion(w.m.funds)
    requires LiquidateBody(Pair(w.accounts[who], w.m), env) == Done(t)
    ensures Step(w, Liquidate(who), env) == World(t.m, w.accounts[who := t.p])
  {
    hide LiquidateBody;
    hide WorldOk;
    hide PendingReward;
    hide Cushion;
    ClosingCheckNeverFires(w, Liquidate(who), env);
    hide AccountStep;
  }

  lemma LastSteps(kSnap: i128) returns (t: Pair)
    ensures LiquidateBody(Pair(BROKE, LAST_MARKET), NOW) == Done(t)
    ensures Step(Last(kSnap), Liquidate(1), NOW) == World(t.m, [Waiting(kSnap), t.p])
  {
    hide LiquidateBody;
    hide WorldOk;
    hide PendingReward;
    hide Cushion;
    hide Waiting;
    hide Step;
    LastLiquidates();
    LastOk(kSnap);
    NoClaims();
    t := LiquidateBody(Pair(BROKE, LAST_MARKET), NOW).value;
    LiquidationSteps(Last(kSnap), 1, NOW, t);
    assert [Waiting(kSnap), BROKE][1 := t.p] == [Waiting(kSnap), t.p];
  }

  /** Whenever it was last settled, the holder settles nothing after the step. */
  lemma HolderSettlesNothing(kSnap: i128)
    ensures WorldOk(Last(kSnap)) && Waiting(kSnap).aSnap > 0
    ensures var v := Step(Last(kSnap), Liquidate(1), NOW);
            |v.accounts| == 2 && v.accounts[0] == Waiting(kSnap) && Books(Waiting(kSnap), v.m.long) == 0
  {
    hide Step;
    hide LiquidateBody;
    hide Touched;
    hide OnBook;
    hide Books;
    hide UnitsTo;
    hide DrainedAway;
    hide StrikeOf;
    hide WorldOk;
    hide Inv;
    LastOk(kSnap);
    LastStrike();
    LastIsDrained(kSnap);
    var t := LastSteps(kSnap);
    HolderSettles([Waiting(kSnap)], Pair(BROKE, LAST_MARKET), NOW, t, Waiting(kSnap));
  }

  lemma DueBefore(kSnap: i128)
    ensures Books(Waiting(kSnap), DRAINING) == (1_000_000_000_000 - kSnap) / 1_000_000
    ensures Lazy(Waiting(kSnap), DRAINING) == Holding(999.0, ((1_000_000_000_000 - kSnap) as real) / 1_000_000.0)
  {
    UnitsPer(1_000_000_000_000 - kSnap);
    hide Profit;
    ProfitIs(Waiting(kSnap), DRAINING.k);
    assert Abs(Waiting(kSnap).basis) == Waiting(kSnap).aSnap == 1_000_000;
  }

  lemma UnitsPer(gap: int)
    ensures (1_000_000 * gap) / (ADL_ONE * POS_SCALE) == gap / 1_000_000
  {
    DivMod(gap, 1_000_000);
    DivUnique(1_000_000 * gap, ADL_ONE * POS_SCALE, gap / 1_000_000);
  }

  /** A holder within the invariant is owed a million units, and after one liquidation on the other side nothing. */
  lemma MillionLost(kSnap: i128)
    requires kSnap == 0
    ensures WorldOk(Last(kSnap)) && Last(kSnap).accounts[0] == Waiting(kSnap) && Waiting(kSnap).aSnap > 0
    ensures Books(Waiting(kSnap), Last(kSnap).m.long) == 1_000_000
    ensures Lazy(Waiting(kSnap), Last(kSnap).m.long) == Holding(999.0, 1_000_000.0)
    ensures var v := Step(Last(kSnap), Liquidate(1), NOW);
            |v.accounts| == 2 && v.accounts[0] == Waiting(kSnap) && Books(Waiting(kSnap), v.m.long) == 0
  {
    hide WorldOk;
    hide Step;
    hide Lazy;
    hide Books;
    DueBefore(kSnap);
    HolderSettlesNothing(kSnap);
  }

  lemma ShareOfDeficit(b: Book)
    requires b == DRAINING
    ensures Takes(b, 500_000) && ShiftOf(b, 500_000) == 500_000_000_000
  {
    DrainingCharged();
    ChargedExactly(b, 500_000, b.(k := 500_000_000_000));
    hide ChargeDeficit;
    hide Representable;
    hide CeilDiv;
  }

  lemma WaitingCharged(kSnap: i128)
    ensures Loss(Long, DRAINING, Waiting(kSnap), 500_000_000_000) == 500_000
    ensures kSnap == 1_000_000_000_000 ==> Unsettled(Long, DRAINING, [Waiting(kSnap)]) == 0
  {
    UnitsPer(1_000_000_000_000 - kSnap);
    UnitsPer(500_000_000_000 - kSnap);
    assert [Waiting(kSnap)][1..] == [];
  }

  /**
   A holder that has just settled, with a side without dust to itself, is charged a whole deficit of
   500,000 units through its index, and after the same liquidation settles none of it.
   */
  lemma DeficitForgotten(kSnap: i128)
    requires kSnap == 1_000_000_000_000
    ensures WorldOk(Last(kSnap)) && Last(kSnap).accounts[0] == Waiting(kSnap) && Waiting(kSnap).aSnap > 0
    ensures Last(kSnap).m.long == DRAINING && StrikeOf(Pair(BROKE, LAST_MARKET), NOW).uncovered == 500_000
    ensures Takes(DRAINING, 500_000) && ShiftOf(DRAINING, 500_000) == 500_000_000_000
    ensures Loss(Long, DRAINING, Waiting(kSnap), 500_000_000_000) == 500_000
    ensures Unsettled(Long, DRAINING, [Waiting(kSnap)]) == 0 && Books(Waiting(kSnap), DRAINING) == 0
    ensures var v := Step(Last(kSnap), Liquidate(1), NOW);
            |v.accounts| == 2 && v.accounts[0] == Waiting(kSnap) && Books(Waiting(kSnap), v.m.long) == 0
  {
    hide WorldOk;
    hide Step;
    hide StrikeOf;
    hide Takes;
    hide ShiftOf;
    hide Loss;
    hide Unsettled;
    hide Books;
    LastStrike();
    ShareOfDeficit(DRAINING);
    WaitingCharged(kSnap);
    DueBefore(kSnap);
    HolderSettlesNothing(kSnap);
  }
}
