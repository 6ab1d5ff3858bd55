/**
 How the indices of a side move: by price changes, funding, charged deficits,
 size cuts and resets, and by nothing else.  A trace lists these causes, each
 with the book it acted on; between two of them only bookkeeping changes.
 */
module Traces {
  import opened Numbers
  import opened State
  import opened Risk
  import FixedPoint

  /** Why an index moved. */
  datatype Cause =
    | Marked(delta: int)                                       // the price moved by `delta`, as this side sees it
    | PaidFunding(other: Book, price: u64, absRate: u128, dt: u64)
    | GotFunding(other: Book, price: u64, absRate: u128, dt: u64)
    | Charged(deficit: u128)                                   // a deficit left over by the insurance fund
    | Deleveraged(cut: u128)                                   // open interest given up to a liquidation
    | Wound                                                    // a reset

  datatype Entry = Entry(before: Book, cause: Cause, after: Book)

  /** The engine call behind an entry. */
  ghost predicate Performs(e: Entry) {
    e.before.a > 0 && e.after.a > 0 &&
    match e.cause
    case Marked(delta) => e.before.oi != 0 && e.after == e.before.(k := e.after.k)
      && e.after.k == e.before.k + e.before.a * delta
    case PaidFunding(other, price, absRate, dt) =>
      other.a > 0 && FundingStep(e.before, other, price, absRate, dt).Done?
      && FundingStep(e.before, other, price, absRate, dt).value.0 == e.after
    case GotFunding(other, price, absRate, dt) =>
      other.a > 0 && FundingStep(other, e.before, price, absRate, dt).Done?
      && FundingStep(other, e.before, price, absRate, dt).value.1 == e.after
    case Charged(deficit) => e.before.oi != 0 && ChargeDeficit(e.before, deficit) == Done(e.after)
    case Deleveraged(cut) => cut < e.before.oi && e.after == CutBook(e.before, cut)
    case Wound => ResetBook(e.before) == Done(e.after)
  }

  ghost predicate SameIndices(b: Book, c: Book) {
    b.a == c.a && b.k == c.k && b.epoch == c.epoch && b.epochStartK == c.epochStartK
  }

  /** `trace` leads from the indices of `b` to those of `c`. */
  ghost predicate Leads(b: Book, trace: seq<Entry>, c: Book)
    decreases |trace|
  {
    if trace == [] then SameIndices(b, c)
    else SameIndices(b, trace[0].before) && Performs(trace[0]) && Leads(trace[0].after, trace[1..], c)
  }

  /** How much of each cause there is: marks, slots of funding, charged deficits and size cuts. */
  datatype Budget = Budget(marks: nat, slots: nat, charges: nat, cuts: nat)

  function Plus(x: Budget, y: Budget): Budget {
    Budget(x.marks + y.marks, x.slots + y.slots, x.charges + y.charges, x.cuts + y.cuts)
  }

  predicate AtMost(x: Budget, y: Budget) {
    x.marks <= y.marks && x.slots <= y.slots && x.charges <= y.charges && x.cuts <= y.cuts
  }

  function Cost(e: Entry): Budget {
    match e.cause
    case Marked(_) => Budget(1, 0, 0, 0)
    case PaidFunding(_, _, _, dt) => Budget(0, dt, 0, 0)
    case GotFunding(_, _, _, dt) => Budget(0, dt, 0, 0)
    case Charged(_) => Budget(0, 0, 1, 0)
    case Deleveraged(_) => Budget(0, 0, 0, 1)
    case Wound => Budget(0, 0, 0, 0)
  }

  ghost function Spent(trace: seq<Entry>): Budget {
    if trace == [] then Budget(0, 0, 0, 0) else Plus(Cost(trace[0]), Spent(trace[1..]))
  }

  /** What a liquidation asks of the other side: the deficit that insurance leaves, and the size that is closed. */
  datatype Strike = Strike(uncovered: u128, closed: u128)

  /**
   What drives the indices of a side during an instruction or a part of it: nothing, so that only
   resets remain; deleveraging; or an accrual that marks a price move and pays funding, at a price, at
   a rate that this side pays if it is positive, and at the size indices of this side and the other,
   with deleveraging as far as the budget goes.
   */
  datatype Drive =
    | Quiet
    | Blow(budget: Budget, strike: Strike)
    | Tick(move: int, price: u64, rate: int, own: nat, other: nat, budget: Budget, strike: Strike)

  /** All the deleveraging that one liquidation does. */
  function Full(strike: Strike): Drive {
    Blow(Budget(0, 0, 1, 1), strike)
  }

  function BudgetOf(d: Drive): Budget {
    if d.Quiet? then Budget(0, 0, 0, 0) else d.budget
  }

  /** An accrual and then all the deleveraging of a liquidation. */
  function Struck(d: Drive, strike: Strike): Drive
    requires d.Tick?
  {
    Tick(d.move, d.price, d.rate, d.own, d.other, d.budget.(charges := 1, cuts := 1), strike)
  }

  /** The same accrual with another budget. */
  function Spending(d: Drive, budget: Budget): Drive
    requires d.Tick?
  {
    Tick(d.move, d.price, d.rate, d.own, d.other, budget, d.strike)
  }

  predicate SameQuote(d: Drive, e: Drive)
    requires d.Tick? && e.Tick?
  {
    d.move == e.move && d.price == e.price && d.rate == e.rate && d.own == e.own && d.other == e.other
  }

  /** The same drive as the other side of the market sees it. */
  function Mirror(d: Drive): Drive {
    if d.Tick? then d.(move := 0 - d.move, rate := 0 - d.rate, own := d.other, other := d.own) else d
  }

  /** An entry that `d` accounts for, on a side with open interest `oi`. */
  ghost predicate Fitting(e: Entry, oi: int, d: Drive) {
    match e.cause
    case Marked(delta) => d.Tick? && delta == d.move && e.before.oi == oi
    case PaidFunding(other, price, absRate, _) =>
      d.Tick? && price == d.price && absRate == d.rate && other.a == d.other && e.before.oi == oi
    case GotFunding(other, price, absRate, _) =>
      d.Tick? && price == d.price && absRate == 0 - d.rate && other.a == d.other && e.before.oi == oi
    case Charged(deficit) => BudgetOf(d).charges > 0 && deficit == d.strike.uncovered && e.before.oi == oi
    case Deleveraged(cut) => BudgetOf(d).cuts > 0 && cut == d.strike.closed && e.before.oi == oi
    case Wound => true
  }

  /** The marks `d` must leave on a side with open interest `oi`: all of its if the price moves and the side is live. */
  function MarksDue(d: Drive, oi: int): nat {
    if d.Tick? && d.move != 0 && oi != 0 then d.budget.marks else 0
  }

  ghost predicate AllFit(trace: seq<Entry>, oi: int, d: Drive) {
    && (forall e :: e in trace ==> Fitting(e, oi, d))
    && AtMost(Spent(trace), BudgetOf(d)) && Spent(trace).marks == MarksDue(d, oi)
  }

  /**
   Within one instruction: a trace from the indices of `b` to those of `c`, every entry at the open
   interest of `b`.
   */
  ghost predicate Evolves(b: Book, c: Book, d: Drive) {
    exists trace: seq<Entry> :: Leads(b, trace, c) && AllFit(trace, b.oi, d)
  }

  /** Both sides of a market; `d` is what the long side sees. */
  ghost predicate Flow(m: MarketV, n: MarketV, d: Drive) {
    Evolves(m.long, n.long, d) && Evolves(m.short, n.short, Mirror(d))
  }

  ghost predicate SameOi(m: MarketV, n: MarketV) {
    m.long.oi == n.long.oi && m.short.oi == n.short.oi
  }

  /** Whatever fits `d` fits `e` as well, as far as the budget goes. */
  ghost predicate Within(d: Drive, e: Drive) {
    d.Quiet? || (
      && !e.Quiet? && (d.Tick? ==> e.Tick? && SameQuote(d, e))
      && (d.budget.charges > 0 ==> e.budget.charges > 0 && d.strike.uncovered == e.strike.uncovered)
      && (d.budget.cuts > 0 ==> e.budget.cuts > 0 && d.strike.closed == e.strike.closed))
  }

  function Marks(d: Drive): nat {
    if d.Tick? then d.budget.marks else 0
  }

  /** Two parts of `z`, with all its marks. */
  ghost predicate Parts(x: Drive, y: Drive, z: Drive) {
    && Within(x, z) && Within(y, z) && AtMost(Plus(BudgetOf(x), BudgetOf(y)), BudgetOf(z))
    && Marks(x) + Marks(y) == Marks(z)
  }

  lemma MarksAdd(x: Drive, y: Drive, z: Drive, oi: int, later: int)
    requires Parts(x, y, z) && (y.Quiet? || later == oi)
    ensures MarksDue(x, oi) + MarksDue(y, later) == MarksDue(z, oi)
  {
    hide AtMost;
    hide Plus;
    hide BudgetOf;
  }

  // ---------------------------------------------------------------------------
  // Traces compose
  // ---------------------------------------------------------------------------

  lemma {:induction false} TracesAppend(b: Book, first: seq<Entry>, c: Book, second: seq<Entry>, d: Book)
    requires Leads(b, first, c) && Leads(c, second, d)
    ensures Leads(b, first + second, d)
    decreases |first|
  {
    hide Performs;
    if first == [] {
      assert first + second == second;
      TracesFrom(b, c, second, d);
    } else {
      TracesAppend(first[0].after, first[1..], c, second, d);
      assert (first + second)[0] == first[0] && (first + second)[1..] == first[1..] + second;
    }
  }

  lemma TracesFrom(b: Book, c: Book, trace: seq<Entry>, d: Book)
    requires SameIndices(b, c) && Leads(c, trace, d)
    ensures Leads(b, trace, d)
  {
    hide Performs;
  }

  lemma FitsWithin(trace: seq<Entry>, oi: int, d: Drive, e: Drive)
    requires AllFit(trace, oi, d) && Within(d, e)
    ensures forall x :: x in trace ==> Fitting(x, oi, e)
  {
  }

  lemma {:induction false} SpentAppend(first: seq<Entry>, second: seq<Entry>)
    ensures Spent(first + second) == Plus(Spent(first), Spent(second))
  {
    if first == [] {
      assert first + second == second;
    } else {
      assert (first + second)[0] == first[0] && (first + second)[1..] == first[1..] + second;
      SpentAppend(first[1..], second);
    }
  }

  lemma AtMostChain(a: Budget, b: Budget, x: Budget, y: Budget, z: Budget)
    requires AtMost(a, x) && AtMost(b, y) && AtMost(Plus(x, y), z)
    ensures AtMost(Plus(a, b), z)
  {
  }

  lemma PlusMarks(x: Budget, y: Budget)
    ensures Plus(x, y).marks == x.marks + y.marks
  {
  }

  lemma FitsQuietly(trace: seq<Entry>, oi: int, other: int)
    requires AllFit(trace, oi, Quiet)
    ensures AllFit(trace, other, Quiet)
  {
    hide Spent;
    forall e | e in trace ensures Fitting(e, other, Quiet) {
      assert Fitting(e, oi, Quiet);
    }
  }

  /** Two parts of an instruction; the second resets only or finds the open interest unchanged. */
  lemma EvolvesChain(b: Book, c: Book, d: Book, x: Drive, y: Drive, z: Drive)
    requires Evolves(b, c, x) && Evolves(c, d, y) && Parts(x, y, z) && (y.Quiet? || c.oi == b.oi)
    ensures Evolves(b, d, z)
  {
    hide Leads;
    hide Fitting;
    hide Spent;
    hide BudgetOf;
    hide AtMost;
    hide Plus;
    hide Within;
    MarksAdd(x, y, z, b.oi, c.oi);
    hide MarksDue;
    hide Marks;
    var first: seq<Entry> :| Leads(b, first, c) && AllFit(first, b.oi, x);
    var second: seq<Entry> :| Leads(c, second, d) && AllFit(second, c.oi, y);
    TracesAppend(b, first, c, second, d);
    if y.Quiet? {
      FitsQuietly(second, c.oi, b.oi);
    }
    FitsWithin(first, b.oi, x, z);
    FitsWithin(second, b.oi, y, z);
    SpentAppend(first, second);
    PlusMarks(Spent(first), Spent(second));
    AtMostChain(Spent(first), Spent(second), BudgetOf(x), BudgetOf(y), BudgetOf(z));
    assert AllFit(first + second, b.oi, z);
  }

  lemma EvolvesSame(b: Book, c: Book, d: Drive)
    requires SameIndices(b, c) && MarksDue(d, b.oi) == 0
    ensures Evolves(b, c, d)
  {
    assert Leads(b, [], c) && AllFit([], b.oi, d);
  }

  lemma EvolvesOnce(b: Book, e: Entry, c: Book, d: Drive)
    requires SameIndices(b, e.before) && Performs(e) && SameIndices(e.after, c) && Fitting(e, b.oi, d)
    requires AtMost(Cost(e), BudgetOf(d)) && Cost(e).marks == MarksDue(d, b.oi)
    ensures Evolves(b, c, d)
  {
    hide Performs;
    hide SameIndices;
    hide Fitting;
    assert Leads(e.after, [], c);
    assert [e][1..] == [] && Spent([e]) == Cost(e);
    assert Leads(b, [e], c) && AllFit([e], b.oi, d);
  }

  lemma NothingMore(x: Budget)
    ensures AtMost(Plus(x, Budget(0, 0, 0, 0)), x) && AtMost(Plus(Budget(0, 0, 0, 0), x), x)
  {
  }

  lemma QuietPart(d: Drive)
    ensures Parts(d, Quiet, d)
  {
    hide AtMost;
    hide Plus;
    NothingMore(BudgetOf(d));
  }

  lemma MirrorBudget(d: Drive)
    ensures BudgetOf(Mirror(d)) == BudgetOf(d) && (Mirror(d).Quiet? <==> d.Quiet?) && Marks(Mirror(d)) == Marks(d)
  {
  }

  lemma MirrorWithin(x: Drive, z: Drive)
    requires Within(x, z)
    ensures Within(Mirror(x), Mirror(z))
  {
  }

  lemma MirrorParts(x: Drive, y: Drive, z: Drive)
    requires Parts(x, y, z)
    ensures Parts(Mirror(x), Mirror(y), Mirror(z)) && (y.Quiet? ==> Mirror(y).Quiet?)
  {
    hide AtMost;
    hide Plus;
    hide Within;
    hide BudgetOf;
    hide Mirror;
    hide Marks;
    MirrorWithin(x, z);
    MirrorWithin(y, z);
    MirrorBudget(x);
    MirrorBudget(y);
    MirrorBudget(z);
  }

  lemma FlowChain(m: MarketV, n: MarketV, o: MarketV, x: Drive, y: Drive, z: Drive)
    requires Flow(m, n, x) && Flow(n, o, y) && Parts(x, y, z) && (y.Quiet? || SameOi(m, n))
    ensures Flow(m, o, z)
  {
    hide Evolves;
    MirrorParts(x, y, z);
    hide Parts;
    EvolvesChain(m.long, n.long, o.long, x, y, z);
    EvolvesChain(m.short, n.short, o.short, Mirror(x), Mirror(y), Mirror(z));
  }

  /** Resets come on top of anything. */
  lemma FlowStage(m: MarketV, n: MarketV, o: MarketV, d: Drive)
    requires Flow(m, n, d) && Stage(n, o)
    ensures Flow(m, o, d)
  {
    hide Flow;
    hide Parts;
    QuietPart(d);
    FlowChain(m, n, o, d, Quiet, d);
  }

  lemma FlowSame(m: MarketV, n: MarketV, d: Drive)
    requires SameIndices(m.long, n.long) && SameIndices(m.short, n.short)
    requires !d.Tick? || d.move == 0 || Marks(d) == 0
    ensures Flow(m, n, d)
  {
    EvolvesSame(m.long, n.long, d);
    EvolvesSame(m.short, n.short, Mirror(d));
    hide Evolves;
  }

  // -- stages of an instruction -------------------------------------------------------

  /** Nothing before a drive, and a strike after an accrual. */
  lemma QuietFirst(d: Drive)
    ensures Parts(Quiet, d, d)
  {
    hide AtMost;
    hide Plus;
    NothingMore(BudgetOf(d));
  }

  /** A part of an instruction that neither accrues nor deleverages. */
  ghost predicate Stage(m: MarketV, n: MarketV) {
    Flow(m, n, Quiet)
  }

  lemma StageSame(m: MarketV, n: MarketV)
    requires SameIndices(m.long, n.long) && SameIndices(m.short, n.short)
    ensures Stage(m, n)
  {
    FlowSame(m, n, Quiet);
    hide Flow;
  }

  // ---------------------------------------------------------------------------
  // Accrual
  // ---------------------------------------------------------------------------

  /** What an accrual at `slot` and `price` drives the indices by. */
  function Quote(m: MarketV, slot: u64, price: u64): (d: Drive)
    ensures d.Tick?
  {
    Tick(price - (if m.feed.lastPrice == 0 then price else m.feed.lastPrice),
         if m.feed.sample == 0 then price else m.feed.sample, m.feed.rate, m.long.a, m.short.a,
         Budget(1, Min(SatSub(slot, m.feed.lastMarketSlot), MAX_ACCRUE_DT), 0, 0), Strike(0, 0))
  }

  lemma QuoteThenStrike(m: MarketV, slot: u64, price: u64, strike: Strike)
    ensures Parts(Quote(m, slot, price), Full(strike), Struck(Quote(m, slot, price), strike))
  {
  }

  lemma MarkEntry(b: Book, c: Book, d: Drive)
    requires b.a > 0 && c == b.(k := c.k) && d.Tick? && d.budget.marks == 1
    requires c.k == if d.move != 0 && b.oi != 0 then b.k + b.a * d.move else b.k
    ensures Evolves(b, c, d)
  {
    if d.move != 0 && b.oi != 0 {
      EvolvesOnce(b, Entry(b, Marked(d.move), c), c, d);
    } else {
      EvolvesSame(b, c, d);
    }
    hide Evolves;
  }

  lemma MarkEvolves(long: Book, short: Book, delta: i128, l: Book, s: Book, d: Drive)
    requires Mark(long, short, delta) == Done((l, s)) && long.a > 0 && short.a > 0
    requires d.Tick? && d.move == delta && d.budget.marks == 1
    ensures Evolves(long, l, d) && Evolves(short, s, Mirror(d))
    ensures l == long.(k := l.k) && s == short.(k := s.k)
  {
    hide Evolves;
    MarkForm(long, short, delta, l, s);
    hide Mark;
    MarkEntry(long, l, d);
    MarkEntry(short, s, Mirror(d));
  }

  lemma MarkForm(long: Book, short: Book, delta: i128, l: Book, s: Book)
    requires Mark(long, short, delta) == Done((l, s))
    ensures l == long.(k := l.k) && s == short.(k := s.k)
    ensures l.k == if delta != 0 && long.oi != 0 then long.k + long.a * delta else long.k
    ensures s.k == if delta != 0 && short.oi != 0 then short.k + short.a * (0 - delta) else short.k
  {
    assert short.a * (0 - delta) == 0 - short.a * delta;
  }

  /** Only the PnL index differs. */
  ghost predicate OnlyK(b: Book, c: Book) {
    c == b.(k := c.k)
  }

  lemma FundingStepOnlyK(payer: Book, receiver: Book, price: u64, absRate: u128, dt: u64)
    ensures var r := FundingStep(payer, receiver, price, absRate, dt);
            r.Done? ==> OnlyK(payer, r.value.0) && OnlyK(receiver, r.value.1)
  {
    hide FixedPoint.MulDivCeil;
    hide FixedPoint.MulDivFloor;
  }

  /** A drive under which `payer` pays funding to `receiver`, at this price and rate and for `slots`. */
  ghost predicate Pays(d: Drive, payer: Book, receiver: Book, price: u64, absRate: u128, slots: nat) {
    && d.Tick? && d.price == price && d.rate == absRate && d.budget.slots == slots && d.budget.marks == 0
    && payer.a == d.own > 0 && receiver.a == d.other > 0
  }

  lemma FundingStepEvolves(payer: Book, receiver: Book, price: u64, absRate: u128, dt: u64, payer': Book,
                           receiver': Book, d: Drive)
    requires Pays(d, payer, receiver, price, absRate, dt)
    requires FundingStep(payer, receiver, price, absRate, dt) == Done((payer', receiver'))
    ensures Evolves(payer, payer', d) && Evolves(receiver, receiver', Mirror(d))
    ensures payer' == payer.(k := payer'.k) && receiver' == receiver.(k := receiver'.k)
  {
    FundingStepOnlyK(payer, receiver, price, absRate, dt);
    hide FundingStep;
    EvolvesOnce(payer, Entry(payer, PaidFunding(receiver, price, absRate, dt), payer'), payer', d);
    EvolvesOnce(receiver, Entry(receiver, GotFunding(payer, price, absRate, dt), receiver'), receiver', Mirror(d));
    hide Evolves;
  }

  lemma {:induction false} FundingEvolves(payer: Book, receiver: Book, price: u64, absRate: u128, remaining: u64,
                                          iterations: nat, d: Drive)
    requires Pays(d, payer, receiver, price, absRate, remaining)
    ensures var r := FundingSteps(payer, receiver, price, absRate, remaining, iterations);
            r.Done? ==> Evolves(payer, r.value.0, d) && Evolves(receiver, r.value.1, Mirror(d))
    decreases iterations
  {
    hide FundingStep;
    hide Evolves;
    var r := FundingSteps(payer, receiver, price, absRate, remaining, iterations);
    if remaining == 0 || iterations == 0 {
      EvolvesSame(payer, payer, d);
      EvolvesSame(receiver, receiver, Mirror(d));
    } else if r.Done? {
      var dt: u64 := Min(remaining, MAX_FUNDING_DT);
      var (p, q) := FundingStep(payer, receiver, price, absRate, dt).value;
      var now := Spending(d, Budget(0, dt, 0, 0));
      var later := Spending(d, d.budget.(slots := remaining - dt));
      FundingStepEvolves(payer, receiver, price, absRate, dt, p, q, now);
      FundingEvolves(p, q, price, absRate, remaining - dt, iterations - 1, later);
      EvolvesChain(payer, p, r.value.0, now, later, d);
      EvolvesChain(receiver, q, r.value.1, Mirror(now), Mirror(later), Mirror(d));
    }
  }

  /** Accrual moves the indices by the price change and by funding. */
  lemma AccrueFlow(m: MarketV, slot: u64, price: u64, n: MarketV)
    requires m.long.a > 0 && m.short.a > 0 && Accrue(m, slot, price) == Done(n)
    ensures Flow(m, n, Quote(m, slot, price))
  {
    hide Mark;
    hide Funding;
    hide Evolves;
    var d := Quote(m, slot, price);
    var mark, funding := Spending(d, Budget(1, 0, 0, 0)), Spending(d, d.budget.(marks := 0));
    var dt := Min(slot - m.feed.lastMarketSlot, MAX_ACCRUE_DT);
    if dt == 0 && m.feed.lastPrice == price {
      FlowSame(m, n, d);
    } else {
      var (l, s) := Mark(m.long, m.short, d.move).value;
      MarkEvolves(m.long, m.short, d.move, l, s, if dt != 0 then mark else d);
      if dt != 0 {
        FundingFlow(l, s, m.feed.rate, d.price, dt, n.long, n.short, funding);
        EvolvesChain(m.long, l, n.long, mark, funding, d);
        EvolvesChain(m.short, s, n.short, Mirror(mark), Mirror(funding), Mirror(d));
      }
    }
  }

  lemma FundingFlow(long: Book, short: Book, rate: i64, price: u64, dt: u64, l: Book, s: Book, d: Drive)
    requires d.Tick? && d.price == price && d.rate == rate && d.budget.slots == dt && d.budget.marks == 0
    requires long.a == d.own > 0 && short.a == d.other > 0
    requires Funding(long, short, rate, price, dt).Done?
    requires Funding(long, short, rate, price, dt).value.0 == l && Funding(long, short, rate, price, dt).value.1 == s
    ensures Evolves(long, l, d) && Evolves(short, s, Mirror(d))
  {
    hide FundingSteps;
    hide Evolves;
    assert Mirror(Mirror(d)) == d;
    if rate != 0 && long.oi != 0 && short.oi != 0 {
      if rate > 0 {
        FundingEvolves(long, short, price, Abs(rate), dt, MAX_FUNDING_ITERATIONS, d);
      } else {
        FundingEvolves(short, long, price, Abs(rate), dt, MAX_FUNDING_ITERATIONS, Mirror(d));
      }
    } else {
      EvolvesSame(long, l, d);
      EvolvesSame(short, s, Mirror(d));
    }
  }

  // ---------------------------------------------------------------------------
  // Auto-deleveraging and resets
  // ---------------------------------------------------------------------------

  lemma ChargeForm(b: Book, deficit: u128, c: Book)
    requires ChargeDeficit(b, deficit) == Done(c)
    ensures c == b.(k := c.k)
  {
    hide FixedPoint.CeilOrOver;
  }

  /** The side that pays for a liquidation: first the deficit, then the size. */
  lemma DeleveragedEvolves(b: Book, deficit: u128, charged: Book, cut: u128)
    requires b.a > 0 && b.oi != 0 && ChargeDeficit(b, deficit) == Done(charged)
    ensures Evolves(b, charged, Full(Strike(deficit, cut)))
    ensures cut < charged.oi && CutBook(charged, cut).a > 0 ==>
              Evolves(b, CutBook(charged, cut), Full(Strike(deficit, cut)))
  {
    hide Evolves;
    hide CutBook;
    ChargeForm(b, deficit, charged);
    hide ChargeDeficit;
    var strike := Strike(deficit, cut);
    var charge, shrink := Blow(Budget(0, 0, 1, 0), strike), Blow(Budget(0, 0, 0, 1), strike);
    EvolvesOnce(b, Entry(b, Charged(deficit), charged), charged, Full(strike));
    EvolvesOnce(b, Entry(b, Charged(deficit), charged), charged, charge);
    if cut < charged.oi && CutBook(charged, cut).a > 0 {
      var c := CutBook(charged, cut);
      EvolvesOnce(charged, Entry(charged, Deleveraged(cut), c), c, shrink);
      EvolvesChain(b, charged, c, charge, shrink, Full(strike));
    }
  }

  /** What deleveraging leaves of the two sides, as far as their indices go. */
  lemma EnqueueSides(m: MarketV, liqSide: Side, close: u128, deficit: u128, n: MarketV)
    requires m.long.a > 0 && m.short.a > 0 && EnqueueAdl(m, liqSide, close, deficit) == Done(n)
    ensures SameIndices(m.Side(liqSide), n.Side(liqSide))
    ensures var b, c := m.Side(liqSide.Opposite()), n.Side(liqSide.Opposite());
            var charged := ChargeDeficit(b, Uncovered(m.funds, deficit));
            if b.oi == 0 || b.stored == 0 then SameIndices(b, c)
            else charged.Done? && (c == charged.value.(oi := 0, pending := true)
                                   || (close < charged.value.oi && charged.value.a > 0 && c.a > 0
                                       && c == CutBook(charged.value, close)))
  {
    hide CutBook;
    hide ChargeDeficit;
    hide UseInsurance;
    hide Uncovered;
    var b := m.Side(liqSide.Opposite());
    var uncovered := Uncovered(m.funds, deficit);
    if b.oi != 0 && b.stored != 0 {
      ChargeForm(b, uncovered, ChargeDeficit(b, uncovered).value);
    }
  }

  lemma EnqueueEvolves(m: MarketV, liqSide: Side, close: u128, deficit: u128, n: MarketV)
    requires m.long.a > 0 && m.short.a > 0 && EnqueueAdl(m, liqSide, close, deficit) == Done(n)
    ensures var d := Full(Strike(Uncovered(m.funds, deficit), close));
            && Evolves(m.Side(liqSide), n.Side(liqSide), d)
            && Evolves(m.Side(liqSide.Opposite()), n.Side(liqSide.Opposite()), d)
  {
    hide Evolves;
    hide CutBook;
    hide ChargeDeficit;
    hide EnqueueAdl;
    hide Uncovered;
    EnqueueSides(m, liqSide, close, deficit, n);
    var b, c := m.Side(liqSide.Opposite()), n.Side(liqSide.Opposite());
    var uncovered := Uncovered(m.funds, deficit);
    var d := Full(Strike(uncovered, close));
    EvolvesSame(m.Side(liqSide), n.Side(liqSide), d);
    if b.oi == 0 || b.stored == 0 {
      EvolvesSame(b, c, d);
    } else {
      var charged := ChargeDeficit(b, uncovered).value;
      DeleveragedEvolves(b, uncovered, charged, close);
      EvolvesSame(charged, charged.(oi := 0, pending := true), Quiet);
      QuietPart(d);
      EvolvesChain(b, charged, charged.(oi := 0, pending := true), d, Quiet, d);
    }
  }

  lemma EnqueueFlow(m: MarketV, liqSide: Side, close: u128, deficit: u128, n: MarketV)
    requires m.long.a > 0 && m.short.a > 0 && EnqueueAdl(m, liqSide, close, deficit) == Done(n)
    ensures Flow(m, n, Full(Strike(Uncovered(m.funds, deficit), close)))
  {
    EnqueueEvolves(m, liqSide, close, deficit, n);
    hide Evolves;
    hide EnqueueAdl;
  }
}
