/**
 Runs: a market, all its accounts, and any sequence of instructions on them.
 An aborted instruction leaves the world as it was.  Every invariant of the
 engine holds in every world a run can reach.
 */
module Runs {
  import opened Numbers
  import opened State
  import opened Risk
  import opened Invariants
  import opened Traces
  import opened AccountSteps
  import opened PositionSteps
  import opened AdlSteps
  import opened InstructionSteps
  import opened Handlers
  import Vamm

  datatype World = World(m: MarketV, accounts: seq<PositionV>)

  datatype Instruction =
    | InitPosition
    | Deposit(who: nat, amount: u64)
    | Withdraw(who: nat, amount: u64)
    | Open(who: nat, side: Side, size: u64, leverage: u32, maxSlippage: u16, byCreator: bool)
    | Close(who: nat, portion: Amount, byCreator: bool)
    | Liquidate(who: nat)
    | SettleFunding(who: nat)
    | SettlePermissionless(who: nat)
    | SettleStale(who: nat)
    | ReclaimAccount(who: nat, openOrders: bool)
    | Crank
    | UpdatePeg
    | ClaimFees(byCreator: bool)
  {
    /** Whether the instruction works on one account. */
    predicate OnAccount() {
      !InitPosition? && !Crank? && !UpdatePeg? && !ClaimFees?
    }

    /** Whether the handler ends with the conservation check. */
    predicate Checked() {
      Deposit? || Withdraw? || Close? || Liquidate? || SettleFunding? || SettlePermissionless? || ClaimFees?
    }
  }

  // ---------------------------------------------------------------------------
  // Steps
  // ---------------------------------------------------------------------------

  /** The handler up to its closing check. */
  function AccountBody(s: Pair, i: Instruction, env: Env): Outcome<Pair>
    requires i.OnAccount()
  {
    match i
    case Deposit(_, amount) => DepositBody(s, env, amount)
    case Withdraw(_, amount) => WithdrawBody(s, env, amount)
    case Open(_, side, size, leverage, maxSlippage, byCreator) =>
      OpenBody(s, env, side, size, leverage, maxSlippage, byCreator)
    case Close(_, portion, byCreator) => CloseBody(s, env, portion, byCreator)
    case Liquidate(_) => LiquidateBody(s, env)
    case SettleFunding(_) => SettleFundingBody(s, env)
    case SettlePermissionless(_) => SettlePermissionlessBody(s, env)
    case SettleStale(_) => SettleStalePosition(s, env)
    case ReclaimAccount(_, openOrders) => Reclaim(s, env, openOrders)
  }

  function AccountStep(s: Pair, i: Instruction, env: Env): Outcome<Pair>
    requires i.OnAccount()
  {
    if i.Checked() then Checked(AccountBody(s, i, env)) else AccountBody(s, i, env)
  }

  function MarketStep(m: MarketV, i: Instruction, env: Env): Outcome<MarketV>
    requires i.Crank? || i.UpdatePeg? || i.ClaimFees?
  {
    match i
    case Crank => CrankFunding(m, env)
    case UpdatePeg => UpdateAmm(m, env)
    case ClaimFees(byCreator) =>
      var n :- ClaimBody(m, byCreator);
      var _ :- Require(CheckConservation(n.funds));
      Done(n)
  }

  /** The accounts after a step on the one at `who`, which an account reclaim removes. */
  function After(accounts: seq<PositionV>, who: nat, p: PositionV, removed: bool): seq<PositionV>
    requires who < |accounts|
  {
    if removed then Without(accounts, who) else accounts[who := p]
  }

  function Step(w: World, i: Instruction, env: Env): World {
    if i.InitPosition? then
      if env.active && !env.paused then w.(accounts := w.accounts + [FreshPosition(env.slot)]) else w
    else if i.OnAccount() then
      if i.who >= |w.accounts| then w
      else match AccountStep(Pair(w.accounts[i.who], w.m), i, env)
        case Abort => w
        case Done(t) => World(t.m, After(w.accounts, i.who, t.p, i.ReclaimAccount?))
    else match MarketStep(w.m, i, env)
      case Abort => w
      case Done(n) => w.(m := n)
  }

  function Run(w: World, steps: seq<(Instruction, Env)>): World
    decreases |steps|
  {
    if steps == [] then w else Run(Step(w, steps[0].0, steps[0].1), steps[1..])
  }

  // ---------------------------------------------------------------------------
  // The invariant of a world
  // ---------------------------------------------------------------------------

  const NOBODY := FreshPosition(0)

  /** The invariant with nobody singled out, between instructions. */
  ghost predicate WorldOk(w: World) {
    Inv(w.accounts, Pair(NOBODY, w.m)) && AtRest(w.m)
  }

  lemma EmptyCounts(p: PositionV, measure: Measure, side: Side, epoch: int)
    requires Empty(p)
    ensures Of(measure, p) == 0 && Weight(side, epoch, p) == 0.0
  {
  }

  /** Moving one account between `rest` and the touched position changes nothing. */
  lemma SingleOutSide(side: Side, accounts: seq<PositionV>, i: nat, none: PositionV, m: MarketV)
    requires i < |accounts| && Empty(none)
    ensures SideOk(side, Without(accounts, i), Pair(accounts[i], m)) <==> SideOk(side, accounts, Pair(none, m))
  {
    var b := m.Side(side);
    SumSplit(StoredOn(side), accounts, i);
    SumSplit(StaleOn(side, b.epoch), accounts, i);
    SumSplit(BaseOn(side), accounts, i);
    SumSplit(OwedOn(side, b.acc), accounts, i);
    EmptyCounts(none, StoredOn(side), side, b.epoch);
    EmptyCounts(none, StaleOn(side, b.epoch), side, b.epoch);
    EmptyCounts(none, BaseOn(side), side, b.epoch);
    EmptyCounts(none, OwedOn(side, b.acc), side, b.epoch);
    SplitOwned(side, accounts, i, none, b);
    hide Of;
    hide Weight;
    hide Sum;
    hide SumWeight;
    hide Owned;
    hide Without;
  }

  lemma SplitOwned(side: Side, accounts: seq<PositionV>, i: nat, none: PositionV, b: Book)
    requires i < |accounts| && Empty(none)
    ensures Owned(side, Without(accounts, i), accounts[i], b) == Owned(side, accounts, none, b)
  {
    hide Without;
    hide Weight;
    hide SumWeight;
    hide Owned;
    hide Times;
    WeightSplit(side, b.epoch, accounts, i);
    EmptyCounts(none, Collateral, side, b.epoch);
    OwnedIsWeight(side, Without(accounts, i), accounts[i], b);
    OwnedIsWeight(side, accounts, none, b);
  }

  lemma SingleOutFunds(accounts: seq<PositionV>, i: nat, none: PositionV, f: Funds)
    requires i < |accounts| && Empty(none)
    ensures FundsOk(Without(accounts, i), accounts[i], f) <==> FundsOk(accounts, none, f)
  {
    SumSplit(Collateral, accounts, i);
    SumSplit(Gain, accounts, i);
    SumSplit(Released, accounts, i);
    EmptyCounts(none, Collateral, Long, 0);
    EmptyCounts(none, Gain, Long, 0);
    EmptyCounts(none, Released, Long, 0);
    hide Of;
    hide Sum;
    hide Without;
  }

  lemma WithoutMember(accounts: seq<PositionV>, i: nat, q: PositionV)
    requires i < |accounts|
    ensures q in accounts <==> q == accounts[i] || q in Without(accounts, i)
  {
    assert accounts == accounts[..i] + [accounts[i]] + accounts[i + 1..];
  }

  lemma SingleOutAll(accounts: seq<PositionV>, i: nat, m: MarketV)
    requires i < |accounts|
    ensures AllOk(accounts, m) <==> AllOk(Without(accounts, i), m) && AccountOk(accounts[i], m)
  {
    forall q ensures q in accounts <==> q == accounts[i] || q in Without(accounts, i) {
      WithoutMember(accounts, i, q);
    }
    hide AccountOk;
  }

  lemma NobodyOk(none: PositionV, m: MarketV)
    requires none == NOBODY
    ensures Empty(none) && AccountOk(none, m)
  {
  }

  /** A world's invariant is the invariant of the pair of any one account and the market. */
  lemma SingleOut(accounts: seq<PositionV>, i: nat, m: MarketV)
    requires i < |accounts|
    ensures Inv(Without(accounts, i), Pair(accounts[i], m)) <==> Inv(accounts, Pair(NOBODY, m))
  {
    NobodyOk(NOBODY, m);
    SingleOutSide(Long, accounts, i, NOBODY, m);
    SingleOutSide(Short, accounts, i, NOBODY, m);
    SingleOutFunds(accounts, i, NOBODY, m.funds);
    SingleOutAll(accounts, i, m);
    hide SideOk;
    hide FundsOk;
    hide AllOk;
    hide AccountOk;
    hide Without;
    hide Vamm.OnCurve;
  }

  lemma PutBack(accounts: seq<PositionV>, i: nat, p: PositionV)
    requires i < |accounts|
    ensures Without(accounts[i := p], i) == Without(accounts, i)
  {
  }

  /** Replacing one empty account by another that fits the market as well. */
  lemma SwapEmpty(rest: seq<PositionV>, s: Pair, q: PositionV)
    requires Inv(rest, s) && Empty(s.p) && Empty(q) && AccountOk(q, s.m)
    ensures Inv(rest, s.(p := q))
  {
    var t := s.(p := q);
    EmptiedSide(Long, rest, s, t);
    EmptiedSide(Short, rest, s, t);
    InvMoney(rest, s);
    hide SideOk;
    hide Vamm.OnCurve;
    hide AccountOk;
    Assemble(rest, s, Long, t);
  }

  // ---------------------------------------------------------------------------
  // Every step keeps it
  // ---------------------------------------------------------------------------

  /** The account that an instruction works on, with the market. */
  function Acting(w: World, i: Instruction): Pair {
    Pair(if i.OnAccount() && i.who < |w.accounts| then w.accounts[i.who] else NOBODY, w.m)
  }

  /** What drives the indices in an instruction that succeeds on the account `s.p`. */
  function DriveOf(s: Pair, i: Instruction, env: Env): Drive {
    if i.Liquidate? then Struck(Quote(s.m, env.slot, env.price), StrikeOf(s, env))
    else if i.ClaimFees? then Quiet
    else Quote(s.m, env.slot, env.price)
  }

  /** Whether a step does anything to the market. */
  predicate Succeeds(w: World, i: Instruction, env: Env) {
    if i.InitPosition? then false
    else if i.OnAccount() then i.who < |w.accounts| && AccountStep(Acting(w, i), i, env).Done?
    else MarketStep(w.m, i, env).Done?
  }

  /** What drives the indices in a step. */
  function StepDrive(w: World, i: Instruction, env: Env): Drive {
    if Succeeds(w, i, env) then DriveOf(Acting(w, i), i, env) else Quiet
  }

  /** What an instruction on one account guarantees, whatever it is. */
  lemma AccountBodyKeeps(rest: seq<PositionV>, s: Pair, i: Instruction, env: Env, t: Pair)
    requires i.OnAccount() && Inv(rest, s) && AtRest(s.m) && AccountBody(s, i, env) == Done(t)
    ensures Inv(rest, t) && AtRest(t.m) && t.m.amm.k == s.m.amm.k
    ensures Cushion(s.m.funds) >= PendingReward(s.p, s.m) ==> Cushion(t.m.funds) >= 0
    ensures i.ReclaimAccount? ==> Empty(t.p)
    ensures Flow(s.m, t.m, DriveOf(s, i, env))
  {
    hide Inv;
    hide Flow;
    hide AtRest;
    hide Cushion;
    hide Empty;
    hide PendingReward;
    hide DepositBody;
    hide WithdrawBody;
    hide OpenBody;
    hide CloseBody;
    hide LiquidateBody;
    hide SettleFundingBody;
    hide SettlePermissionlessBody;
    hide SettleStalePosition;
    hide Reclaim;
    match i
    case Deposit(_, amount) => DepositKeeps(rest, s, env, amount, t);
    case Withdraw(_, amount) => WithdrawKeeps(rest, s, env, amount, t);
    case Open(_, side, size, leverage, maxSlippage, byCreator) =>
      OpenKeeps(rest, s, env, side, size, leverage, maxSlippage, byCreator, t);
    case Close(_, portion, byCreator) => CloseKeeps(rest, s, env, portion, byCreator, t);
    case Liquidate(_) => LiquidateKeeps(rest, s, env, t);
    case SettleFunding(_) => SettleFundingKeeps(rest, s, env, t);
    case SettlePermissionless(_) => SettlePermissionlessKeeps(rest, s, env, t);
    case SettleStale(_) => SettleStalePositionKeeps(rest, s, env, t);
    case ReclaimAccount(_, openOrders) => ReclaimKeeps(rest, s, env, openOrders, t);
  }

  lemma MarketStepKeeps(accounts: seq<PositionV>, s: Pair, i: Instruction, env: Env, n: MarketV)
    requires i.Crank? || i.UpdatePeg? || i.ClaimFees?
    requires Inv(accounts, s) && AtRest(s.m) && MarketStep(s.m, i, env) == Done(n)
    ensures Inv(accounts, s.(m := n)) && AtRest(n) && n.amm.k == s.m.amm.k
    ensures Cushion(n.funds) == Cushion(s.m.funds)
    ensures Flow(s.m, n, DriveOf(s, i, env))
  {
    hide Inv;
    hide Flow;
    hide Cushion;
    hide CrankFunding;
    hide UpdateAmm;
    hide ClaimBody;
    match i
    case Crank => CrankKeeps(accounts, s, env, n);
    case UpdatePeg => UpdateAmmKeeps(accounts, s, env, n);
    case ClaimFees(byCreator) => ClaimKeeps(accounts, s, byCreator, n);
  }

  lemma InitKeeps(accounts: seq<PositionV>, m: MarketV, slot: u64)
    requires Inv(accounts, Pair(NOBODY, m))
    ensures Inv(accounts + [FreshPosition(slot)], Pair(NOBODY, m))
  {
    var newcomer := FreshPosition(slot);
    assert Empty(NOBODY) && Empty(newcomer) && AccountOk(newcomer, m);
    SwapEmpty(accounts, Pair(NOBODY, m), newcomer);
    var more := accounts + [newcomer];
    assert Without(more, |accounts|) == accounts;
    hide Inv;
    hide Without;
    SingleOut(more, |accounts|, m);
  }

  lemma AfterKeeps(accounts: seq<PositionV>, who: nat, t: Pair, removed: bool)
    requires who < |accounts| && Inv(Without(accounts, who), t) && (removed ==> Empty(t.p))
    ensures Inv(After(accounts, who, t.p, removed), Pair(NOBODY, t.m))
  {
    hide Inv;
    if removed {
      NobodyOk(NOBODY, t.m);
      SwapEmpty(Without(accounts, who), t, NOBODY);
    } else {
      PutBack(accounts, who, t.p);
      hide Without;
      SingleOut(accounts[who := t.p], who, t.m);
    }
  }

  lemma AccountStepKeeps(w: World, i: Instruction, env: Env)
    requires WorldOk(w) && i.OnAccount() && i.who < |w.accounts|
    ensures WorldOk(Step(w, i, env)) && Step(w, i, env).m.amm.k == w.m.amm.k
  {
    hide Inv;
    hide AtRest;
    hide AccountStep;
    hide AccountBody;
    hide Without;
    hide After;
    hide Empty;
    hide Flow;
    hide Cushion;
    hide PendingReward;
    hide DriveOf;
    var s := Pair(w.accounts[i.who], w.m);
    SingleOut(w.accounts, i.who, w.m);
    if AccountStep(s, i, env).Done? {
      var t := AccountStep(s, i, env).value;
      AccountStepIsBody(s, i, env, t);
      AccountBodyKeeps(Without(w.accounts, i.who), s, i, env, t);
      AfterKeeps(w.accounts, i.who, t, i.ReclaimAccount?);
    }
  }

  lemma AccountStepIsBody(s: Pair, i: Instruction, env: Env, t: Pair)
    requires i.OnAccount() && AccountStep(s, i, env) == Done(t)
    ensures AccountBody(s, i, env) == Done(t)
  {
    hide AccountBody;
  }

  lemma StepKeeps(w: World, i: Instruction, env: Env)
    requires WorldOk(w)
    ensures WorldOk(Step(w, i, env)) && Step(w, i, env).m.amm.k == w.m.amm.k
  {
    if i.OnAccount() {
      if i.who < |w.accounts| {
        AccountStepKeeps(w, i, env);
      }
    } else if i.InitPosition? {
      InitKeeps(w.accounts, w.m, env.slot);
    } else if MarketStep(w.m, i, env).Done? {
      MarketStepKeeps(w.accounts, Pair(NOBODY, w.m), i, env, MarketStep(w.m, i, env).value);
    }
    hide Inv;
    hide AccountStep;
    hide MarketStep;
    hide Without;
  }

  /**
   What a successful step does to the indices of a side is a trace of exactly one mark at the price move
   of the step, if there is one and the side is live, funding at its price, rate and size indices for no
   more slots than have elapsed, at most one charge and one cut, at the open interest it began with and
   only if it is a liquidation, of the deficit that the insurance fund leaves and of the size that is
   closed, and resets.  A refused step, or one that only adds an account or pays out fees, does nothing to them.
   */
  lemma StepFlow(w: World, i: Instruction, env: Env)
    requires WorldOk(w)
    ensures Flow(w.m, Step(w, i, env).m, StepDrive(w, i, env))
  {
    hide Inv;
    hide Flow;
    hide AccountBody;
    hide MarketStep;
    hide After;
    FlowSame(w.m, w.m, Quiet);
    if i.OnAccount() {
      if i.who < |w.accounts| {
        AccountStepFlow(w, i, env);
      }
    } else if !i.InitPosition? && MarketStep(w.m, i, env).Done? {
      MarketStepKeeps(w.accounts, Pair(NOBODY, w.m), i, env, MarketStep(w.m, i, env).value);
    }
  }

  lemma AccountStepFlow(w: World, i: Instruction, env: Env)
    requires WorldOk(w) && i.OnAccount() && i.who < |w.accounts|
    ensures Flow(w.m, Step(w, i, env).m, StepDrive(w, i, env))
  {
    hide Inv;
    hide Flow;
    hide AccountBody;
    hide AccountStep;
    hide After;
    hide Without;
    FlowSame(w.m, w.m, Quiet);
    var s := Pair(w.accounts[i.who], w.m);
    SingleOut(w.accounts, i.who, w.m);
    if AccountStep(s, i, env).Done? {
      var t := AccountStep(s, i, env).value;
      AccountStepIsBody(s, i, env, t);
      AccountBodyKeeps(Without(w.accounts, i.who), s, i, env, t);
    }
  }

  /** Every world of every run satisfies the invariant, and its curve constant never changes. */
  lemma {:induction false} RunKeeps(w: World, steps: seq<(Instruction, Env)>)
    requires WorldOk(w)
    ensures WorldOk(Run(w, steps)) && Run(w, steps).m.amm.k == w.m.amm.k
    decreases |steps|
  {
    hide WorldOk;
    hide Step;
    if steps != [] {
      StepKeeps(w, steps[0].0, steps[0].1);
      RunKeeps(Step(w, steps[0].0, steps[0].1), steps[1..]);
    }
  }

  lemma CreatedOk(initialK: u128, env: Env, tradingFeeBps: u16, maxLeverage: u32, m: MarketV)
    requires CreateMarket(initialK, env, tradingFeeBps, maxLeverage) == Done(m)
    ensures WorldOk(World(m, [])) && Cushion(m.funds) == 0
  {
    CreateMarketInv(initialK, env, tradingFeeBps, maxLeverage, m, NOBODY);
  }

  /** A world that some run from the creation of a market leads to. */
  ghost predicate Reachable(w: World) {
    exists initialK: u128, env: Env, tradingFeeBps: u16, maxLeverage: u32, m: MarketV, steps: seq<(Instruction, Env)> ::
      CreateMarket(initialK, env, tradingFeeBps, maxLeverage) == Done(m) && w == Run(World(m, []), steps)
  }

  lemma ReachableOk(w: World)
    requires Reachable(w)
    ensures WorldOk(w)
  {
    hide CreateMarket;
    hide Run;
    hide WorldOk;
    var initialK: u128, env: Env, tradingFeeBps: u16, maxLeverage: u32, m: MarketV, steps: seq<(Instruction, Env)> :|
      CreateMarket(initialK, env, tradingFeeBps, maxLeverage) == Done(m) && w == Run(World(m, []), steps);
    CreatedOk(initialK, env, tradingFeeBps, maxLeverage, m);
    RunKeeps(World(m, []), steps);
  }

  // ---------------------------------------------------------------------------
  // What every reachable world satisfies
  // ---------------------------------------------------------------------------

  lemma SideFacts(side: Side, w: World)
    requires WorldOk(w)
    ensures BookOk(side, w.accounts, NOBODY, w.m.Side(side)) && !w.m.Side(side).pending
    ensures RewardOk(side, w.accounts, NOBODY, w.m.Side(side), w.m.history)
  {
    SideParts(side, w.accounts, Pair(NOBODY, w.m));
  }

  /** The running totals of each side are exact, and its size index stays within its range. */
  lemma CountsAreExact(w: World, side: Side)
    requires Reachable(w)
    ensures var b := w.m.Side(side);
            && b.stored == Sum(StoredOn(side), w.accounts)
            && b.stale == Sum(StaleOn(side, b.epoch), w.accounts)
            && b.total == Sum(BaseOn(side), w.accounts)
            && 1 <= b.a <= ADL_ONE && b.mode != ResetPending && !b.pending
  {
    hide Reachable;
    hide WorldOk;
    ReachableOk(w);
    SideFacts(side, w);
    hide Covered;
    hide RewardOk;
    hide Sum;
    EmptyCounts(NOBODY, StoredOn(side), side, 0);
    EmptyCounts(NOBODY, StaleOn(side, w.m.Side(side).epoch), side, 0);
    EmptyCounts(NOBODY, BaseOn(side), side, 0);
  }

  /** So are the money totals. */
  lemma MoneyIsExact(w: World)
    requires Reachable(w)
    ensures var f := w.m.funds;
            && f.cTot == Sum(Collateral, w.accounts)
            && f.pnlPos == Sum(Gain, w.accounts)
            && f.matured == Sum(Released, w.accounts)
            && f.matured <= f.pnlPos
  {
    hide Reachable;
    ReachableOk(w);
    InvMoney(w.accounts, Pair(NOBODY, w.m));
    hide Inv;
    hide Sum;
    AccountSteps.ReleasedAtMostGain(w.accounts);
  }

  /**
   Everything one account contributes to a total is covered by that total, so no subtraction of it can
   underflow or clip.
   */
  lemma GuardsNeverFire(w: World, who: nat)
    requires Reachable(w) && who < |w.accounts|
    ensures var p, f := w.accounts[who], w.m.funds;
            && p.collateral <= f.cTot && PosPart(p.pnl) <= f.pnlPos && p.reserved <= PosPart(p.pnl)
            && PosPart(p.pnl) - p.reserved <= f.matured
    ensures var p := w.accounts[who];
            p.basis != 0 ==>
              var b := w.m.Side(SideOf(p.basis));
              CountDown(b).Done? && Abs(p.baseSize) <= b.total && (p.epochSnap != b.epoch ==> b.stale > 0)
  {
    hide Reachable;
    ReachableOk(w);
    SingleOut(w.accounts, who, w.m);
    var rest, s := Without(w.accounts, who), Pair(w.accounts[who], w.m);
    hide Without;
    AccountSteps.RestBounds(rest, w.m);
    SumNonNegative(Gain, rest);
    if s.p.basis != 0 {
      var side := SideOf(s.p.basis);
      SideParts(side, rest, s);
      SumNonNegative(StoredOn(side), rest);
      SumNonNegative(StaleOn(side, w.m.Side(side).epoch), rest);
      SumNonNegative(BaseOn(side), rest);
    }
    hide Covered;
    hide Sum;
  }

  /** Open interest exceeds what the accounts own by at most the phantom dust bound. */
  lemma PhantomDust(w: World, side: Side)
    requires Reachable(w)
    ensures var b := w.m.Side(side);
            0.0 <= (b.oi as real) - (b.a as real) * SumWeight(side, b.epoch, w.accounts) <= b.dust as real
  {
    hide Reachable;
    hide WorldOk;
    ReachableOk(w);
    SideFacts(side, w);
    hide RewardOk;
    hide Counted;
    assert Share(side, NOBODY, w.m.Side(side)) == 0.0;
    hide Share;
  }

  /** A side that no account has a position on holds nothing but dust, which the next dust check clears. */
  lemma EmptySideHoldsDust(w: World, side: Side)
    requires Reachable(w) && w.m.Side(side).stored == 0
    ensures w.m.Side(side).oi <= w.m.Side(side).dust
    ensures CheckDust(w.m, side).Done? ==> CheckDust(w.m, side).value.Side(side).oi == 0
  {
    hide Reachable;
    hide CheckDust;
    ReachableOk(w);
    var s := Pair(NOBODY, w.m);
    EmptySideIsDust(w.accounts, s, side);
    if CheckDust(w.m, side).Done? {
      EmptySideIsCleared(w.accounts, s, side, s.(m := CheckDust(w.m, side).value));
    }
  }

  // -- floored sizes --------------------------------------------------------------

  /** The effective size of an account on a side, as the engine computes it. */
  function EffectiveOn(side: Side, p: PositionV, m: MarketV): nat {
    match EffectiveQ(p, m)
    case Done(q) => if q != 0 && SideOf(q) == side then Abs(q) else 0
    case Abort => 0
  }

  function SumEffective(side: Side, accounts: seq<PositionV>, m: MarketV): nat {
    if accounts == [] then 0 else EffectiveOn(side, accounts[0], m) + SumEffective(side, accounts[1..], m)
  }

  lemma SizeFits(basis: nat, a: nat, snap: nat)
    requires basis <= TWO63 && a <= ADL_ONE && snap > 0
    ensures 0 <= basis * a <= U128_MAX && 0 <= (basis * a) / snap <= I128_MAX
  {
    MulMono(basis, TWO63, a);
    MulPos(basis, a);
    QuotientAtMost(basis * a, snap);
  }

  /** The effective size can always be computed, and is at most what the account owns. */
  lemma EffectiveIsOwned(side: Side, p: PositionV, m: MarketV)
    requires Shape(p) && m.long.a <= ADL_ONE && m.short.a <= ADL_ONE
    ensures EffectiveQ(p, m).Done? && EffectiveOn(side, p, m) as real <= Share(side, p, m.Side(side))
  {
    var b := m.Side(side);
    OwnedNonNegative(side, [], p, b);
    if p.basis != 0 {
      SizeFits(Abs(p.basis), m.Side(SideOf(p.basis)).a, p.aSnap);
      if Holds(p, side) && p.epochSnap == b.epoch {
        OwnedFloor(side, p, b);
      }
    }
    hide Share;
  }

  lemma {:induction false} SumEffectiveIsOwned(side: Side, accounts: seq<PositionV>, m: MarketV)
    requires forall q :: q in accounts ==> Shape(q)
    requires m.long.a <= ADL_ONE && m.short.a <= ADL_ONE
    ensures SumEffective(side, accounts, m) as real <= RestShare(side, accounts, m.Side(side))
  {
    if accounts != [] {
      assert accounts[0] in accounts;
      assert forall q :: q in accounts[1..] ==> q in accounts;
      SumEffectiveIsOwned(side, accounts[1..], m);
      EffectiveIsOwned(side, accounts[0], m);
      RestShareStep(side, accounts, m.Side(side));
    }
    hide Share;
    hide Shape;
    hide EffectiveOn;
  }

  lemma RestShareStep(side: Side, accounts: seq<PositionV>, b: Book)
    requires accounts != []
    ensures RestShare(side, accounts, b) == Share(side, accounts[0], b) + RestShare(side, accounts[1..], b)
  {
  }

  /** The effective sizes of all accounts add up to at most the open interest: subtracting one never fails. */
  lemma SizesWithinOpenInterest(w: World, side: Side)
    requires Reachable(w)
    ensures SumEffective(side, w.accounts, w.m) <= w.m.Side(side).oi
    ensures forall p :: p in w.accounts ==> EffectiveQ(p, w.m).Done?
  {
    hide Reachable;
    ReachableOk(w);
    SideFacts(Long, w);
    SideFacts(Short, w);
    assert forall q :: q in w.accounts ==> Shape(q);
    SumEffectiveIsOwned(side, w.accounts, w.m);
    PhantomDust(w, side);
    forall p | p in w.accounts ensures EffectiveQ(p, w.m).Done? {
      EffectiveIsOwned(side, p, w.m);
    }
    hide *;
    assert RestShare(side, w.accounts, w.m.Side(side)) <= w.m.Side(side).oi as real;
  }

  // -- rewards --------------------------------------------------------------------

  lemma {:induction false} OwedNonNegative(side: Side, acc: u128, accounts: seq<PositionV>)
    requires forall q :: q in accounts && BaseSizeOn(q, side) > 0 ==> q.rewardSnap <= acc
    ensures Sum(OwedOn(side, acc), accounts) >= 0
  {
    if accounts != [] {
      assert accounts[0] in accounts;
      assert forall q :: q in accounts[1..] ==> q in accounts;
      OwedNonNegative(side, acc, accounts[1..]);
      MulPos(BaseSizeOn(accounts[0], side), Max(acc - accounts[0].rewardSnap, 0));
    }
  }

  /**
   Over any run, the rewards credited to a side, with those it can still claim, never exceed what was
   distributed to it.
   */
  lemma RewardsWithinDistributions(w: World, side: Side)
    requires Reachable(w)
    ensures 0 <= Sum(OwedOn(side, w.m.Side(side).acc), w.accounts)
         <= REWARD_PRECISION * (w.m.history.Distributed(side) - w.m.history.Paid(side))
    ensures w.m.history.Paid(side) <= w.m.history.Distributed(side)
  {
    hide Reachable;
    ReachableOk(w);
    SideFacts(side, w);
    var acc := w.m.Side(side).acc;
    assert forall q :: q in w.accounts && BaseSizeOn(q, side) > 0 ==> q.rewardSnap <= acc;
    hide WorldOk;
    hide BookOk;
    OwedNonNegative(side, acc, w.accounts);
    EmptyCounts(NOBODY, OwedOn(side, acc), side, 0);
    hide Of;
    hide Sum;
  }

  // -- the vault ------------------------------------------------------------------

  /** What the touched account could claim. */
  function PendingFor(w: World, i: Instruction): nat {
    if i.OnAccount() && i.who < |w.accounts| then PendingReward(w.accounts[i.who], w.m) else 0
  }

  /** The vault covers every senior claim. */
  ghost predicate Solvent(w: World) {
    Cushion(w.m.funds) >= 0
  }

  /** As long as the pending reward is covered, the closing conservation check never refuses an instruction. */
  lemma ClosingCheckNeverFires(w: World, i: Instruction, env: Env)
    requires WorldOk(w) && i.OnAccount() && i.who < |w.accounts| && PendingFor(w, i) <= Cushion(w.m.funds)
    ensures var s := Pair(w.accounts[i.who], w.m); AccountStep(s, i, env) == AccountBody(s, i, env)
  {
    hide Inv;
    hide AccountBody;
    hide PendingReward;
    var s := Pair(w.accounts[i.who], w.m);
    SingleOut(w.accounts, i.who, w.m);
    hide Without;
    if AccountBody(s, i, env).Done? {
      AccountBodyKeeps(Without(w.accounts, i.who), s, i, env, AccountBody(s, i, env).value);
    }
  }

  /** For a bare settlement the condition is exact: it is refused if and only if the reward exceeds the cushion. */
  lemma PermissionlessRefusedExactly(w: World, i: Instruction, env: Env)
    requires WorldOk(w) && i.SettlePermissionless? && i.who < |w.accounts|
    requires AccountBody(Pair(w.accounts[i.who], w.m), i, env).Done?
    ensures AccountStep(Pair(w.accounts[i.who], w.m), i, env).Done? <==> PendingFor(w, i) <= Cushion(w.m.funds)
  {
    hide Inv;
    hide SettlePermissionlessBody;
    hide PendingReward;
    var s := Pair(w.accounts[i.who], w.m);
    SingleOut(w.accounts, i.who, w.m);
    hide Without;
    SettlePermissionlessKeeps(Without(w.accounts, i.who), s, env, AccountBody(s, i, env).value);
  }

  lemma StepSolvent(w: World, i: Instruction, env: Env)
    requires WorldOk(w) && Solvent(w)
    requires i.Checked() || PendingFor(w, i) <= Cushion(w.m.funds)
    ensures Solvent(Step(w, i, env))
  {
    hide Inv;
    hide AccountBody;
    hide MarketStep;
    hide PendingReward;
    hide After;
    if i.OnAccount() && i.who < |w.accounts| {
      var s := Pair(w.accounts[i.who], w.m);
      SingleOut(w.accounts, i.who, w.m);
      hide Without;
      if AccountBody(s, i, env).Done? {
        AccountBodyKeeps(Without(w.accounts, i.who), s, i, env, AccountBody(s, i, env).value);
      }
    } else if !i.OnAccount() && !i.InitPosition? && MarketStep(w.m, i, env).Done? {
      MarketStepKeeps(w.accounts, Pair(NOBODY, w.m), i, env, MarketStep(w.m, i, env).value);
    }
  }

  /** Along the run, every instruction without a closing check finds the pending reward of its account covered. */
  ghost predicate RewardsCovered(w: World, steps: seq<(Instruction, Env)>)
    decreases |steps|
  {
    steps == [] || (
      && (steps[0].0.Checked() || PendingFor(w, steps[0].0) <= Cushion(w.m.funds))
      && RewardsCovered(Step(w, steps[0].0, steps[0].1), steps[1..]))
  }

  /** The vault stays solvent over any such run; only a reward claim can outrun it. */
  lemma {:induction false} RunSolvent(w: World, steps: seq<(Instruction, Env)>)
    requires WorldOk(w) && Solvent(w) && RewardsCovered(w, steps)
    ensures Solvent(Run(w, steps))
    decreases |steps|
  {
    hide WorldOk;
    hide Solvent;
    hide Step;
    hide PendingFor;
    if steps != [] {
      StepKeeps(w, steps[0].0, steps[0].1);
      StepSolvent(w, steps[0].0, steps[0].1);
      RunSolvent(Step(w, steps[0].0, steps[0].1), steps[1..]);
    }
  }
}
