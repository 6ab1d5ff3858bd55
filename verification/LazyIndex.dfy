/**
 The lazy A/K indices refine eager accounting.

 In the eager model every account is updated at every event: a move credits
 each unit of size with the same amount, a shrink scales every size, and a
 wind-up ends every position.  The engine instead records the events in two
 numbers per side and settles an account whenever it is touched.
 */
module LazyIndex {
  import opened Numbers
  import opened FixedPoint
  import opened State
  import opened Risk
  import opened Invariants
  import opened AccountSteps
  import opened AdlSteps
  import opened Traces
  import Vamm

  // ---------------------------------------------------------------------------
  // The eager model
  // ---------------------------------------------------------------------------

  datatype Event =
    | Move(perUnit: real)   // profit per unit of size
    | Shrink(ratio: real)   // every size is multiplied
    | WindUp                // every position ends

  datatype Holding = Holding(size: real, pnl: real)

  ghost function Eager(h: Holding, e: Event): Holding {
    match e
    case Move(perUnit) => h.(pnl := h.pnl + h.size * perUnit)
    case Shrink(ratio) => h.(size := h.size * ratio)
    case WindUp => h.(size := 0.0)
  }

  ghost function EagerRun(h: Holding, events: seq<Event>): Holding
    decreases |events|
  {
    if events == [] then h else EagerRun(Eager(h, events[0]), events[1..])
  }

  function WindUps(events: seq<Event>): nat {
    if events == [] then 0 else (if events[0].WindUp? then 1 else 0) + WindUps(events[1..])
  }

  // ---------------------------------------------------------------------------
  // The lazy model
  // ---------------------------------------------------------------------------

  /** What a unit of size gains, as a shift of the PnL index. */
  ghost predicate ShiftedBy(b: Book, c: Book, perUnit: real) {
    ((c.k - b.k) as real) == perUnit * ((b.a as real) * (POS_SCALE as real))
  }

  /** How one event moves the indices of a side. */
  ghost predicate Records(b: Book, e: Event, c: Book) {
    b.a > 0 && c.a > 0 &&
    match e
    case Move(perUnit) => c.a == b.a && c.epoch == b.epoch && c.epochStartK == b.epochStartK && ShiftedBy(b, c, perUnit)
    case Shrink(ratio) =>
      c.k == b.k && c.epoch == b.epoch && c.epochStartK == b.epochStartK && (c.a as real) == ratio * (b.a as real)
    case WindUp => c.epoch == b.epoch + 1 && c.epochStartK == b.k && c.k == b.k
  }

  /** The indices `path` that a side goes through while it records `events`. */
  ghost predicate Recorded(path: seq<Book>, events: seq<Event>) {
    && |path| == |events| + 1
    && forall i :: 0 <= i < |events| ==> Records(path[i], events[i], path[i + 1])
  }

  /** Real-valued profit of `basis` between two values of the PnL index. */
  ghost function Profit(basis: nat, from: int, to: int, snap: nat): real
    requires snap > 0
  {
    (basis as real) / (snap as real) * ((to - from) as real) / (POS_SCALE as real)
  }

  /** What settling the account now would give it: the floor of this, and this size. */
  ghost function Lazy(p: PositionV, b: Book): Holding
    requires p.aSnap > 0
  {
    var weight := (Abs(p.basis) as real) / (p.aSnap as real);
    if p.epochSnap == b.epoch then
      Holding(weight * (b.a as real), Profit(Abs(p.basis), p.kSnap, b.k, p.aSnap))
    else
      Holding(0.0, if p.epochSnap + 1 == b.epoch then Profit(Abs(p.basis), p.kSnap, b.epochStartK, p.aSnap) else 0.0)
  }

  // ---------------------------------------------------------------------------
  // Refinement
  // ---------------------------------------------------------------------------

  lemma MoveGain(weight: real, a: real, scale: real, from: real, k: real, k': real, perUnit: real)
    requires a > 0.0 && scale > 0.0 && k' - k == perUnit * (a * scale)
    ensures weight * (k' - from) / scale == weight * (k - from) / scale + (weight * a) * perUnit
  {
    assert weight * (k' - from) == weight * (k - from) + weight * (perUnit * (a * scale));
    assert weight * (perUnit * (a * scale)) == ((weight * a) * perUnit) * scale;
    QuotientSum(weight * (k - from), (weight * a) * perUnit, scale);
  }

  lemma QuotientSum(x: real, y: real, z: real)
    requires z > 0.0
    ensures (x + y * z) / z == x / z + y
  {
  }

  lemma ShrinkSize(weight: real, a: real, a': real, ratio: real)
    requires a' == ratio * a
    ensures weight * a' == (weight * a) * ratio
  {
  }

  /** One event on a live position: the lazy holding is the eager one. */
  lemma LazyStep(p: PositionV, b: Book, e: Event, c: Book)
    requires p.aSnap > 0 && p.epochSnap == b.epoch && Records(b, e, c)
    ensures Lazy(p, c) == Eager(Lazy(p, b), e)
  {
    var weight := (Abs(p.basis) as real) / (p.aSnap as real);
    match e
    case Move(perUnit) =>
      MoveGain(weight, b.a as real, POS_SCALE as real, p.kSnap as real, b.k as real, c.k as real, perUnit);
      ProfitIs(p, b.k);
      ProfitIs(p, c.k);
      hide Profit;
    case Shrink(ratio) =>
      ShrinkSize(weight, b.a as real, c.a as real, ratio);
    case WindUp =>
  }

  lemma ProfitIs(p: PositionV, k: int)
    requires p.aSnap > 0
    ensures Profit(Abs(p.basis), p.kSnap, k, p.aSnap)
         == ((Abs(p.basis) as real) / (p.aSnap as real)) * ((k as real) - (p.kSnap as real)) / (POS_SCALE as real)
  {
  }

  /** An ended position no longer takes part, and its profit stays what it was at the wind-up. */
  lemma EndedStep(p: PositionV, b: Book, e: Event, c: Book)
    requires p.aSnap > 0 && p.epochSnap + 1 == b.epoch && Records(b, e, c) && !e.WindUp?
    ensures Lazy(p, c) == Eager(Lazy(p, b), e)
  {
    hide Profit;
  }

  /** Over any sequence of events with at most one wind-up, the lazy holding is the eager one. */
  lemma {:induction false} LazyRefinesEager(p: PositionV, path: seq<Book>, events: seq<Event>)
    requires p.aSnap > 0 && Recorded(path, events)
    requires || (p.epochSnap == path[0].epoch && WindUps(events) <= 1)
             || (p.epochSnap + 1 == path[0].epoch && WindUps(events) == 0)
    ensures Lazy(p, path[|events|]) == EagerRun(Lazy(p, path[0]), events)
    decreases |events|
  {
    hide Lazy;
    hide Eager;
    if events != [] {
      assert Records(path[0], events[0], path[1]);
      if p.epochSnap == path[0].epoch {
        LazyStep(p, path[0], events[0], path[1]);
      } else {
        EndedStep(p, path[0], events[0], path[1]);
      }
      RecordedTail(path, events);
      LazyRefinesEager(p, path[1..], events[1..]);
    }
  }

  lemma RecordedTail(path: seq<Book>, events: seq<Event>)
    requires Recorded(path, events) && events != []
    ensures Recorded(path[1..], events[1..])
  {
    hide Records;
    forall i | 0 <= i < |events| - 1 ensures Records(path[1..][i], events[1..][i], path[1..][i + 1]) {
      assert Records(path[i + 1], events[i + 1], path[i + 2]);
    }
  }

  lemma {:induction false} EpochsCount(path: seq<Book>, events: seq<Event>)
    requires Recorded(path, events)
    ensures path[|events|].epoch == path[0].epoch + WindUps(events)
    decreases |events|
  {
    if events != [] {
      assert Records(path[0], events[0], path[1]);
      RecordedTail(path, events);
      EpochsCount(path[1..], events[1..]);
    }
  }

  lemma {:induction false} EndedEager(h: Holding, events: seq<Event>)
    requires h.size == 0.0
    ensures EagerRun(h, events) == h
    decreases |events|
  {
    if events != [] {
      EndedEager(Eager(h, events[0]), events[1..]);
    }
  }

  /**
   After a second wind-up the engine no longer knows the index at the first one and settles nothing.
   So lazy and eager accounting agree for all events if and only if the position was ended at most
   once or the eager profit at its end was zero.
   */
  lemma RefinementExactly(p: PositionV, path: seq<Book>, events: seq<Event>)
    requires p.aSnap > 0 && Recorded(path, events) && p.epochSnap == path[0].epoch
    ensures Lazy(p, path[|events|]) == EagerRun(Lazy(p, path[0]), events)
       <==> WindUps(events) <= 1 || EagerRun(Lazy(p, path[0]), events).pnl == 0.0
    ensures WindUps(events) >= 1 ==> EagerRun(Lazy(p, path[0]), events).size == 0.0
  {
    hide Profit;
    EpochsCount(path, events);
    if WindUps(events) <= 1 {
      LazyRefinesEager(p, path, events);
    } else {
      WoundUp(Lazy(p, path[0]), events);
    }
  }

  lemma {:induction false} WoundUp(h: Holding, events: seq<Event>)
    requires WindUps(events) >= 1
    ensures EagerRun(h, events).size == 0.0
    decreases |events|
  {
    if events[0].WindUp? {
      EndedEager(Eager(h, events[0]), events[1..]);
    } else {
      WoundUp(Eager(h, events[0]), events[1..]);
    }
  }

  // ---------------------------------------------------------------------------
  // What the engine records
  // ---------------------------------------------------------------------------

  lemma ShiftUnit(a: real, scale: real, d: real)
    requires a > 0.0 && scale > 0.0
    ensures (d / scale) * (a * scale) == a * d
  {
    assert (d / scale) * (a * scale) == ((d / scale) * scale) * a;
  }

  /** A price change moves a live side by exactly the price difference per unit, up for longs and down for shorts. */
  lemma MarkRecords(long: Book, short: Book, delta: i128, l: Book, sh: Book)
    requires Mark(long, short, delta) == Done((l, sh)) && long.a > 0 && short.a > 0
    ensures Records(long, Move(if long.oi != 0 then (delta as real) / (POS_SCALE as real) else 0.0), l)
    ensures Records(short, Move(if short.oi != 0 then ((0 - delta) as real) / (POS_SCALE as real) else 0.0), sh)
  {
    ShiftUnit(long.a as real, POS_SCALE as real, delta as real);
    ShiftUnit(short.a as real, POS_SCALE as real, (0 - delta) as real);
    MarkShifts(long, short, delta, l, sh);
    hide Mark;
  }

  lemma MarkShifts(long: Book, short: Book, delta: i128, l: Book, sh: Book)
    requires Mark(long, short, delta) == Done((l, sh))
    ensures OnlyK(long, l) && OnlyK(short, sh)
    ensures l.k - long.k == (if long.oi != 0 then long.a * delta else 0)
    ensures ((l.k - long.k) as real) == (if long.oi != 0 then (long.a as real) * (delta as real) else 0.0)
    ensures sh.k - short.k == (if short.oi != 0 then 0 - short.a * delta else 0)
    ensures ((sh.k - short.k) as real) == (if short.oi != 0 then (short.a as real) * ((0 - delta) as real) else 0.0)
  {
    assert (long.a * delta) as real == (long.a as real) * (delta as real);
    assert (0 - short.a * delta) as real == (short.a as real) * ((0 - delta) as real);
  }

  /** Moving the PnL index down by `d` costs every unit `d / (a * POS_SCALE)`. */
  ghost function PerUnit(b: Book, d: int): real
    requires b.a > 0
  {
    (d as real) / ((b.a as real) * (POS_SCALE as real))
  }

  lemma ShiftRecords(b: Book, c: Book)
    requires b.a > 0 && OnlyK(b, c)
    ensures Records(b, Move(PerUnit(b, c.k - b.k)), c)
  {
    var unit := (b.a as real) * (POS_SCALE as real);
    assert unit > 0.0;
    var d := (c.k - b.k) as real;
    assert (d / unit) * unit == d;
  }

  /** A charged deficit costs every unit its share of the deficit, rounded up by less than one step of the index. */
  lemma ChargeRecords(b: Book, deficit: u128, c: Book)
    requires b.a > 0 && b.oi > 0 && ChargeDeficit(b, deficit) == Done(c)
    ensures OnlyK(b, c) && Records(b, Move(PerUnit(b, c.k - b.k)), c)
    ensures c.k == b.k || (
              && 0.0 - PerUnit(b, c.k - b.k) >= (deficit as real) / (b.oi as real)
              && 0.0 - PerUnit(b, c.k - b.k) < (deficit as real) / (b.oi as real) + PerUnit(b, 1))
  {
    ChargeForm(b, deficit, c);
    ShiftRecords(b, c);
    if c.k != b.k {
      ChargeShift(b, deficit, c);
      ChargePerUnit(deficit as real, b.oi as real, (b.a as real) * (POS_SCALE as real), (b.k - c.k) as real);
    }
    hide ChargeDeficit;
    hide Records;
  }

  lemma ChargeShift(b: Book, deficit: u128, c: Book)
    requires b.a > 0 && b.oi > 0 && ChargeDeficit(b, deficit) == Done(c) && c.k != b.k
    ensures b.k - c.k == CeilDiv(deficit * (b.a * POS_SCALE), b.oi) > 0
    ensures var d, unit := deficit as real, (b.a as real) * (POS_SCALE as real);
            ((b.k - c.k) as real) * (b.oi as real) >= d * unit
            && ((b.k - c.k) as real - 1.0) * (b.oi as real) < d * unit
  {
    var n := deficit * (b.a * POS_SCALE);
    MulPos(deficit, b.a * POS_SCALE);
    CeilDivBounds(n, b.oi);
    CeilPositive(n, b.oi);
    var shift := CeilDiv(n, b.oi);
    assert b.k - c.k == shift;
    hide CeilDiv;
    hide ChargeDeficit;
    assert (shift * b.oi) as real == (shift as real) * (b.oi as real);
    assert ((shift - 1) * b.oi) as real == ((shift as real) - 1.0) * (b.oi as real);
    assert n as real == (deficit as real) * ((b.a * POS_SCALE) as real);
    assert (b.a * POS_SCALE) as real == (b.a as real) * (POS_SCALE as real);
  }

  lemma CeilPositive(n: nat, d: nat)
    requires d > 0
    ensures CeilDiv(n, d) >= 0
  {
    DivAtLeast(n, d, 0);
  }

  lemma ChargePerUnit(d: real, oi: real, unit: real, shift: real)
    requires oi > 0.0 && unit > 0.0 && shift * oi >= d * unit && (shift - 1.0) * oi < d * unit
    ensures shift / unit >= d / oi && shift / unit < d / oi + 1.0 / unit
  {
    RatioAtLeast(shift, unit, d, oi);
    RatioBelow(shift - 1.0, unit, d, oi);
    assert (shift - 1.0) / unit == shift / unit - 1.0 / unit;
  }

  lemma RatioAtLeast(x: real, y: real, z: real, w: real)
    requires y > 0.0 && w > 0.0 && x * w >= z * y
    ensures x / y >= z / w
  {
    var q, r := x / y, z / w;
    assert x == q * y && z == r * w;
    assert (q * y) * w == (y * w) * q && (r * w) * y == (y * w) * r;
    RealProductPositive(y, w);
    RealCancel(r, q, y * w);
  }

  lemma RealProductPositive(x: real, y: real)
    requires x > 0.0 && y > 0.0
    ensures x * y > 0.0
  {
  }

  lemma RatioBelow(x: real, y: real, z: real, w: real)
    requires y > 0.0 && w > 0.0 && x * w < z * y
    ensures x / y < z / w
  {
    var q, r := x / y, z / w;
    assert x == q * y && z == r * w;
    assert (q * y) * w == (y * w) * q && (r * w) * y == (y * w) * r;
    RealProductPositive(y, w);
    RealCancelStrict(q, r, y * w);
  }

  lemma RealCancelStrict(x: real, y: real, z: real)
    requires z > 0.0 && z * x < z * y
    ensures x < y
  {
    if y <= x {
      RealMono(y, x, z);
    }
  }

  /**
   Cutting the size index shrinks every position by the share of open interest that remains, rounded
   down to an index step.
   */
  lemma CutRecords(b: Book, cut: u128)
    requires b.a > 0 && cut < b.oi && CutBook(b, cut).a > 0
    ensures var c := CutBook(b, cut);
            && Records(b, Shrink((c.a as real) / (b.a as real)), c)
            && c.oi == b.oi - cut
            && c.a * b.oi <= b.a * (b.oi - cut) < (c.a + 1) * b.oi
  {
    CutForm(b, cut);
    hide CutBook;
    var c := CutBook(b, cut);
    assert ((c.a as real) / (b.a as real)) * (b.a as real) == c.a as real;
    DivMod(b.a * (b.oi - cut), b.oi);
    Distribute(c.a, 1, b.oi);
  }

  /** A reset winds every position up. */
  lemma ResetRecords(b: Book, c: Book)
    requires b.a > 0 && ResetBook(b) == Done(c)
    ensures Records(b, WindUp, c)
  {
  }

  // ---------------------------------------------------------------------------
  // Traces
  // ---------------------------------------------------------------------------

  /** What an index movement means for the holders of the side. */
  ghost function EventOf(e: Entry): Event
    requires e.before.a > 0
  {
    match e.cause
    case Marked(delta) => Move((delta as real) / (POS_SCALE as real))
    case PaidFunding(_, _, _, _) => Move(PerUnit(e.before, e.after.k - e.before.k))
    case GotFunding(_, _, _, _) => Move(PerUnit(e.before, e.after.k - e.before.k))
    case Charged(_) => Move(PerUnit(e.before, e.after.k - e.before.k))
    case Deleveraged(_) => Shrink((e.after.a as real) / (e.before.a as real))
    case Wound => WindUp
  }

  lemma EntryRecords(e: Entry)
    requires Performs(e)
    ensures Records(e.before, EventOf(e), e.after)
  {
    hide FundingStep;
    hide ChargeDeficit;
    hide CutBook;
    match e.cause
    case Marked(delta) =>
      ProductAsReal(e.before.a, delta);
      ShiftUnit(e.before.a as real, POS_SCALE as real, delta as real);
    case PaidFunding(other, price, absRate, dt) =>
      FundingStepOnlyK(e.before, other, price, absRate, dt);
      ShiftRecords(e.before, e.after);
    case GotFunding(other, price, absRate, dt) =>
      FundingStepOnlyK(other, e.before, price, absRate, dt);
      ShiftRecords(e.before, e.after);
    case Charged(deficit) =>
      ChargeForm(e.before, deficit, e.after);
      ShiftRecords(e.before, e.after);
    case Deleveraged(cut) => CutRecords(e.before, cut);
    case Wound => ResetRecords(e.before, e.after);
  }

  ghost predicate Sound(trace: seq<Entry>) {
    forall e :: e in trace ==> Performs(e)
  }

  ghost function EventsOf(trace: seq<Entry>): (events: seq<Event>)
    requires Sound(trace)
    ensures |events| == |trace|
  {
    if trace == [] then []
    else
      assert trace[0] in trace && forall e :: e in trace[1..] ==> e in trace;
      [EventOf(trace[0])] + EventsOf(trace[1..])
  }

  lemma {:induction false} TracesSound(b: Book, trace: seq<Entry>, c: Book)
    requires Leads(b, trace, c)
    ensures Sound(trace)
    decreases |trace|
  {
    hide Performs;
    if trace != [] {
      TracesSound(trace[0].after, trace[1..], c);
    }
  }

  ghost function PathOf(b: Book, trace: seq<Entry>): (path: seq<Book>)
    ensures |path| == |trace| + 1 && path[0] == b
    decreases |trace|
  {
    if trace == [] then [b] else [b] + PathOf(trace[0].after, trace[1..])
  }

  lemma RecordsFrom(b: Book, c: Book, e: Event, d: Book)
    requires SameIndices(b, c) && Records(c, e, d)
    ensures Records(b, e, d)
  {
  }

  /** A trace is a recorded path of the lazy model. */
  lemma {:induction false} TraceIsRecorded(b: Book, trace: seq<Entry>, c: Book)
    requires Leads(b, trace, c) && Sound(trace)
    ensures Recorded(PathOf(b, trace), EventsOf(trace))
    ensures SameIndices(PathOf(b, trace)[|trace|], c)
    decreases |trace|
  {
    hide Performs;
    hide EventOf;
    hide SameIndices;
    if trace != [] {
      var e := trace[0];
      assert e in trace;
      TraceIsRecorded(e.after, trace[1..], c);
      EntryRecords(e);
      RecordsFrom(b, e.before, EventOf(e), e.after);
      RecordedHead(b, EventOf(e), PathOf(e.after, trace[1..]), EventsOf(trace[1..]));
    }
  }

  lemma RecordedHead(b: Book, e: Event, path: seq<Book>, events: seq<Event>)
    requires Recorded(path, events) && Records(b, e, path[0])
    ensures Recorded([b] + path, [e] + events)
  {
    hide Records;
    forall i | 0 <= i < |events| + 1 ensures Records(([b] + path)[i], ([e] + events)[i], ([b] + path)[i + 1]) {
      if i > 0 {
        assert Records(path[i - 1], events[i - 1], path[i]);
      }
    }
  }

  lemma SameLazy(p: PositionV, b: Book, c: Book)
    requires p.aSnap > 0 && SameIndices(b, c)
    ensures Lazy(p, b) == Lazy(p, c)
  {
    hide Profit;
  }

  /** Along any trace of the engine, the lazy holding is the eager one, with the one exception of lost epochs. */
  lemma TraceRefinesEager(p: PositionV, b: Book, trace: seq<Entry>, c: Book)
    requires p.aSnap > 0 && p.epochSnap == b.epoch && Leads(b, trace, c) && Sound(trace)
    ensures var eager := EagerRun(Lazy(p, b), EventsOf(trace));
            Lazy(p, c) == eager <==> WindUps(EventsOf(trace)) <= 1 || eager.pnl == 0.0
    ensures c.epoch == b.epoch + WindUps(EventsOf(trace))
  {
    hide Lazy;
    hide EventsOf;
    hide Recorded;
    hide Leads;
    hide Sound;
    TraceIsRecorded(b, trace, c);
    RefinementExactly(p, PathOf(b, trace), EventsOf(trace));
    EpochsCount(PathOf(b, trace), EventsOf(trace));
    SameLazy(p, PathOf(b, trace)[|trace|], c);
  }

  // ---------------------------------------------------------------------------
  // Two resets in one instruction
  // ---------------------------------------------------------------------------

  /** A drain-only side that a liquidation has emptied is reset by the dust check and once more by its pending flag. */
  lemma DrainOnlyResetsTwice(m: MarketV, side: Side, n1: MarketV, n: MarketV)
    requires m.Side(side).mode == DrainOnly && m.Side(side).oi == 0 && m.Side(side).pending
    requires m.Side(side.Opposite()).mode != ResetPending
    requires CheckDust(m, side) == Done(n1) && FinalizePending(n1) == Done(n)
    ensures n.Side(side).epoch == m.Side(side).epoch + 2
    ensures n.Side(side).k == n.Side(side).epochStartK == m.Side(side).k
  {
    hide Vamm.Normalize;
    CheckDrained(m, side, n1);
    hide CheckDust;
    ClearedTwice(n1, side, n);
  }

  lemma CheckDrained(m: MarketV, side: Side, n: MarketV)
    requires m.Side(side).mode == DrainOnly && m.Side(side).oi == 0 && m.Side(side.Opposite()).mode != ResetPending
    requires CheckDust(m, side) == Done(n)
    ensures n.Side(side).epoch == m.Side(side).epoch + 1 && n.Side(side).k == m.Side(side).k
    ensures n.Side(side).oi == 0 && n.Side(side).mode == Normal && n.Side(side).pending == m.Side(side).pending
    ensures n.Side(side.Opposite()) == m.Side(side.Opposite())
  {
    hide Vamm.Normalize;
  }

  lemma ClearedTwice(m: MarketV, side: Side, n: MarketV)
    requires m.Side(side).mode == Normal && m.Side(side).oi == 0 && m.Side(side).pending
    requires m.Side(side.Opposite()).mode != ResetPending && FinalizePending(m) == Done(n)
    ensures n.Side(side).epoch == m.Side(side).epoch + 1
    ensures n.Side(side).k == n.Side(side).epochStartK == m.Side(side).k
  {
    FinalizePendingForm(m, n);
    hide FinalizePending;
  }

  /**
   So an account that was current before it loses all its profit: the engine settles nothing, eager
   accounting all of it.
   */
  lemma TwoResetsLoseProfit(p: PositionV, m: MarketV, side: Side, n1: MarketV, n: MarketV)
    requires Holds(p, side) && p.aSnap > 0 && p.epochSnap == m.Side(side).epoch
    requires m.Side(side).mode == DrainOnly && m.Side(side).oi == 0 && m.Side(side).pending
    requires m.Side(side.Opposite()).mode != ResetPending
    requires CheckDust(m, side) == Done(n1) && FinalizePending(n1) == Done(n)
    ensures StaleDelta(p, n.Side(side)) == Done(0) && Lazy(p, n.Side(side)) == Holding(0.0, 0.0)
    ensures EagerRun(Lazy(p, m.Side(side)), [WindUp, WindUp])
         == Holding(0.0, Profit(Abs(p.basis), p.kSnap, m.Side(side).k, p.aSnap))
  {
    DrainOnlyResetsTwice(m, side, n1, n);
    hide CheckDust;
    hide FinalizePending;
    hide Profit;
    var h := Lazy(p, m.Side(side));
    assert [WindUp, WindUp][1..] == [WindUp];
    assert EagerRun(h, [WindUp, WindUp]) == EagerRun(h.(size := 0.0), [WindUp]);
    EndedEager(h.(size := 0.0), [WindUp]);
  }

  /** Deleveraging away the whole of a drain-only side leaves it as the two resets need it. */
  lemma DrainedByLiquidation(m: MarketV, liqSide: Side, close: u128, deficit: u128, n: MarketV)
    requires EnqueueAdl(m, liqSide, close, deficit) == Done(n)
    requires var b := m.Side(liqSide.Opposite()); b.oi != 0 && b.stored != 0 && b.oi <= close && b.mode == DrainOnly
    ensures var b, c := m.Side(liqSide.Opposite()), n.Side(liqSide.Opposite());
            c.oi == 0 && c.pending && c.mode == DrainOnly && c.epoch == b.epoch && c.a == b.a
    ensures deficit == 0 ==> n.Side(liqSide.Opposite()).k == m.Side(liqSide.Opposite()).k
    ensures n.Side(liqSide).mode == m.Side(liqSide).mode
  {
    hide UseInsurance;
    hide CutBook;
    var b := m.Side(liqSide.Opposite());
    var uncovered: u128 := deficit - InsurancePay(m.funds, deficit);
    var charged := ChargeDeficit(b, uncovered).value;
    ChargeForm(b, uncovered, charged);
  }

  // ---------------------------------------------------------------------------
  // What settlement books
  // ---------------------------------------------------------------------------

  lemma FloorOfGain(basis: nat, from: int, to: int, snap: nat, q: int)
    requires snap > 0 && q == (basis * (to - from)) / (snap * POS_SCALE)
    ensures q as real <= Profit(basis, from, to, snap) < q as real + 1.0
  {
    hide Profit;
    ProfitQuotient(basis, from, to, snap);
    FloorQuotient(basis * (to - from), snap * POS_SCALE);
  }

  lemma ProfitQuotient(basis: nat, from: int, to: int, snap: nat)
    requires snap > 0
    ensures Profit(basis, from, to, snap) == ((basis * (to - from)) as real) / ((snap * POS_SCALE) as real)
  {
    ProductAsReal(basis, to - from);
    ProductAsReal(snap, POS_SCALE);
    GainQuotient(basis as real, (to - from) as real, snap as real, POS_SCALE as real);
  }

  lemma ProductAsReal(x: int, y: int)
    ensures (x * y) as real == (x as real) * (y as real)
  {
  }

  /** The floor of an integer quotient as a real number. */
  lemma FloorQuotient(n: int, d: nat)
    requires d > 0
    ensures (n / d) as real <= (n as real) / (d as real) < (n / d) as real + 1.0
  {
    DivMod(n, d);
    ProductAsReal(n / d, d);
    FloorReal(n as real, (n / d) as real, d as real, (n % d) as real);
  }

  lemma FloorReal(n: real, q: real, d: real, r: real)
    requires n == q * d + r && 0.0 <= r < d
    ensures q <= n / d < q + 1.0
  {
    QuotientSum(r, q, d);
    Fraction(r, d);
  }

  lemma Fraction(r: real, d: real)
    requires 0.0 <= r < d
    ensures 0.0 <= r / d < 1.0
  {
  }

  lemma GainQuotient(basis: real, delta: real, snap: real, scale: real)
    requires snap > 0.0 && scale > 0.0
    ensures (basis * delta) / (snap * scale) == basis / snap * delta / scale
  {
    var w := basis / snap;
    assert basis == w * snap;
    assert basis * delta == (w * delta) * snap;
    var v := w * delta / scale;
    assert w * delta == v * scale;
    assert basis * delta == v * (snap * scale);
    RealProductPositive(snap, scale);
  }

  /** Settling a live position books the floor of the eager profit and keeps basis and size snapshot. */
  lemma SettlesFloor(s: Pair, side: Side, t: Pair)
    requires Holds(s.p, side) && s.p.aSnap > 0 && s.p.epochSnap == s.m.Side(side).epoch
    requires SettleCurrent(s, side) == Done(t)
    ensures var eager := Lazy(s.p, s.m.Side(side)).pnl;
            ((t.p.pnl - s.p.pnl) as real) <= eager < ((t.p.pnl - s.p.pnl) as real) + 1.0
    ensures t.p.basis != 0 ==> t.p.basis == s.p.basis && t.p.aSnap == s.p.aSnap && t.p.kSnap == s.m.Side(side).k
    ensures t.p.basis == 0 <==> Lazy(s.p, s.m.Side(side)).size < 1.0
  {
    SettlesDelta(s, side, t);
    OwnedFloor(side, s.p, s.m.Side(side));
    FloorOfGain(Abs(s.p.basis), s.p.kSnap, s.m.Side(side).k, s.p.aSnap, t.p.pnl - s.p.pnl);
    hide SettleCurrent;
    hide Profit;
    ShareIsSize(s.p, side, s.m.Side(side));
    hide Share;
  }

  lemma ShareIsSize(p: PositionV, side: Side, b: Book)
    requires Holds(p, side) && p.aSnap > 0 && p.epochSnap == b.epoch
    ensures Share(side, p, b) == Lazy(p, b).size
  {
    hide Profit;
  }

  lemma SettlesDelta(s: Pair, side: Side, t: Pair)
    requires Holds(s.p, side) && s.p.aSnap > 0 && s.p.epochSnap == s.m.Side(side).epoch
    requires SettleCurrent(s, side) == Done(t)
    ensures t.p.pnl - s.p.pnl == (Abs(s.p.basis) * (s.m.Side(side).k - s.p.kSnap)) / (s.p.aSnap * POS_SCALE)
    ensures t.p.basis == (if (Abs(s.p.basis) * s.m.Side(side).a) / s.p.aSnap == 0 then 0 else s.p.basis)
    ensures t.p.basis != 0 ==> t.p.aSnap == s.p.aSnap && t.p.kSnap == s.m.Side(side).k && t.p.epochSnap == s.p.epochSnap
    ensures t.p.basis != 0 ==> t.m.Side(side) == s.m.Side(side)
  {
    hide RestartWarmup;
    var book := s.m.Side(side);
    var delta := KPairFloor(Abs(s.p.basis), book.k, s.p.kSnap, s.p.aSnap * POS_SCALE).value;
    var s1 := AddPnl(s, delta).value;
    assert s1.p == s.p.(pnl := s.p.pnl + delta, reserved := s1.p.reserved) && s1.m == s.m.(funds := s1.m.funds);
    hide AddPnl;
    SettleSize(s, s1, side, t);
  }

  lemma RestartForm(s: Pair, oldReserved: u128, t: Pair)
    requires RestartIfRaised(s, oldReserved) == Done(t)
    ensures t.p == s.p.(reserved := t.p.reserved, warmupSlope := t.p.warmupSlope, warmupStart := t.p.warmupStart)
    ensures t.m == s.m.(funds := t.m.funds)
  {
  }

  lemma SettleSize(s: Pair, s1: Pair, side: Side, t: Pair)
    requires Holds(s.p, side) && s.p.aSnap > 0 && s.p.epochSnap == s.m.Side(side).epoch
    requires SettleCurrent(s, side) == Done(t)
    requires s1.p == s.p.(pnl := s1.p.pnl, reserved := s1.p.reserved) && s1.m == s.m.(funds := s1.m.funds)
    requires AddPnl(s, KPairFloor(Abs(s.p.basis), s.m.Side(side).k, s.p.kSnap, s.p.aSnap * POS_SCALE).value) == Done(s1)
    ensures t.p.pnl == s1.p.pnl
    ensures t.p.basis == (if (Abs(s.p.basis) * s.m.Side(side).a) / s.p.aSnap == 0 then 0 else s.p.basis)
    ensures t.p.basis != 0 ==> t.p.aSnap == s.p.aSnap && t.p.kSnap == s.m.Side(side).k && t.p.epochSnap == s.p.epochSnap
    ensures t.p.basis != 0 ==> t.m.Side(side) == s.m.Side(side)
  {
    hide AddPnl;
    hide KPairFloor;
    hide RestartWarmup;
    hide RestartIfRaised;
    hide SetBasis;
    var book := s.m.Side(side);
    var size := MulDivFloor(Abs(s.p.basis), book.a, s.p.aSnap).value;
    if size == 0 {
      var u := SetBasis(s1.(m := s1.m.With(side, AddDust(book, 1))), 0).value;
      RestartForm(Detached(ClearBase(u), book.epoch), s.p.reserved, t);
      ClearedBasis(s1.(m := s1.m.With(side, AddDust(book, 1))), u);
    } else {
      RestartForm(s1.(p := s1.p.(kSnap := book.k, epochSnap := book.epoch)), s.p.reserved, t);
    }
  }

  lemma ClearedBasis(s: Pair, t: Pair)
    requires SetBasis(s, 0) == Done(t)
    ensures t.p == s.p.(basis := 0)
  {
  }

  /** Settling a position of an earlier epoch books the floor of the profit up to the end of its epoch, and ends it. */
  lemma SettlesStaleFloor(s: Pair, side: Side, t: Pair)
    requires Holds(s.p, side) && s.p.aSnap > 0 && s.p.epochSnap != s.m.Side(side).epoch
    requires SettleStale(s, side) == Done(t)
    ensures var eager := Lazy(s.p, s.m.Side(side)).pnl;
            ((t.p.pnl - s.p.pnl) as real) <= eager < ((t.p.pnl - s.p.pnl) as real) + 1.0
    ensures s.p.epochSnap + 1 != s.m.Side(side).epoch ==> t.p.pnl == s.p.pnl
    ensures t.p.basis == 0
  {
    hide KPairFloor;
    hide RestartIfRaised;
    hide SetPnl;
    hide LeaveStale;
    var book := s.m.Side(side);
    var delta := StaleDelta(s.p, book).value;
    var s1 := AddPnl(s, delta).value;
    PnlForm(s, s.p.pnl + delta, s1);
    var s2 := LeaveStale(s1, side).value;
    LeftStale(s1, side, s2);
    RestartForm(s2, s.p.reserved, t);
    StaleDeltaFloor(s.p, book, delta);
    hide StaleDelta;
    hide Lazy;
  }

  lemma PnlForm(s: Pair, pnl: i128, t: Pair)
    requires SetPnl(s, pnl) == Done(t)
    ensures t.p == s.p.(pnl := pnl, reserved := t.p.reserved) && t.m == s.m.(funds := t.m.funds)
  {
  }

  lemma LeftStale(s: Pair, side: Side, t: Pair)
    requires LeaveStale(s, side) == Done(t)
    ensures t.p.basis == 0 && t.p.pnl == s.p.pnl && t.p.reserved == s.p.reserved
  {
  }

  lemma StaleDeltaFloor(p: PositionV, book: Book, delta: i128)
    requires p.aSnap > 0 && p.epochSnap != book.epoch && StaleDelta(p, book) == Done(delta)
    ensures delta as real <= Lazy(p, book).pnl < delta as real + 1.0
    ensures p.epochSnap + 1 != book.epoch ==> delta == 0
  {
    if p.epochSnap + 1 == book.epoch {
      FloorOfGain(Abs(p.basis), p.kSnap, book.epochStartK, p.aSnap, delta);
    }
    hide Profit;
  }

  /** Settlement of a position, in the current epoch of its side or after it. */
  function SettleNow(s: Pair, side: Side): Outcome<Pair> {
    if s.p.epochSnap == s.m.Side(side).epoch then SettleCurrent(s, side) else SettleStale(s, side)
  }

  /** The whole units that a position gains from its snapshot to the index `k`. */
  function UnitsTo(p: PositionV, k: int): int
    requires p.aSnap > 0
  {
    (Abs(p.basis) * (k - p.kSnap)) / (p.aSnap * POS_SCALE)
  }

  /** What settlement books: up to the index in the current epoch, up to its end just after it, nothing later. */
  function Books(p: PositionV, b: Book): int
    requires p.aSnap > 0
  {
    if p.epochSnap == b.epoch then UnitsTo(p, b.k)
    else if p.epochSnap + 1 == b.epoch then UnitsTo(p, b.epochStartK)
    else 0
  }

  lemma SettlesBooks(s: Pair, side: Side, t: Pair)
    requires Holds(s.p, side) && s.p.aSnap > 0 && SettleNow(s, side) == Done(t)
    ensures t.p.pnl - s.p.pnl == Books(s.p, s.m.Side(side))
  {
    hide SettleCurrent;
    hide SettleStale;
    if s.p.epochSnap == s.m.Side(side).epoch {
      SettlesDelta(s, side, t);
    } else {
      StaleBooks(s, side, t);
    }
  }

  lemma StaleBooks(s: Pair, side: Side, t: Pair)
    requires Holds(s.p, side) && s.p.aSnap > 0 && s.p.epochSnap != s.m.Side(side).epoch
    requires SettleStale(s, side) == Done(t)
    ensures t.p.pnl - s.p.pnl == Books(s.p, s.m.Side(side))
  {
    hide RestartIfRaised;
    hide SetPnl;
    hide LeaveStale;
    var delta := StaleDelta(s.p, s.m.Side(side)).value;
    var s1 := AddPnl(s, delta).value;
    PnlForm(s, s.p.pnl + delta, s1);
    var s2 := LeaveStale(s1, side).value;
    LeftStale(s1, side, s2);
    RestartForm(s2, s.p.reserved, t);
  }

  // ---------------------------------------------------------------------------
  // Settling often
  // ---------------------------------------------------------------------------

  /**
   Settling on each of a series of books of the side, which other accounts and the market have moved on
   in between: the PnL index either way, the size index down.
   */
  function SettleThrough(s: Pair, side: Side, books: seq<Book>): Outcome<Pair>
    decreases |books|
  {
    if books == [] then Done(s)
    else
      var t :- SettleCurrent(s.(m := s.m.With(side, books[0])), side);
      SettleThrough(t, side, books[1..])
  }

  lemma FloorSum(x: int, y: int, d: nat)
    requires d > 0
    ensures (x + y) / d - 1 <= x / d + y / d <= (x + y) / d
  {
    DivMod(x, d);
    DivMod(y, d);
    Distribute(x / d, y / d, d);
    DivAtLeast(x + y, d, x / d + y / d);
    Distribute(x / d + y / d, 1, d);
    var q := x / d + y / d;
    assert (q + 2) * d == q * d + 2 * d;
    DivLess(x + y, d, q + 2);
  }

  lemma DivLess(n: int, d: nat, q: int)
    requires d > 0 && n < q * d
    ensures n / d < q
  {
    DivMod(n, d);
    CancelLess(n / d, q, d);
  }

  /** The account stays open: it holds a whole unit at the current size index. */
  ghost predicate Open(p: PositionV, side: Side, b: Book) {
    Holds(p, side) && p.aSnap > 0 && p.epochSnap == b.epoch && (Abs(p.basis) * b.a) / p.aSnap != 0
  }

  /** It does on all of these books. */
  ghost predicate OpenOn(p: PositionV, side: Side, books: seq<Book>) {
    forall b :: b in books ==> Open(p, side, b)
  }

  lemma SettledOpen(s: Pair, side: Side, b: Book, t: Pair)
    requires Open(s.p, side, b) && SettleCurrent(s.(m := s.m.With(side, b)), side) == Done(t)
    ensures t.p.basis == s.p.basis && t.p.aSnap == s.p.aSnap && t.p.kSnap == b.k && t.p.epochSnap == s.p.epochSnap
    ensures t.p.pnl - s.p.pnl == (Abs(s.p.basis) * (b.k - s.p.kSnap)) / (s.p.aSnap * POS_SCALE)
  {
    SettlesDelta(s.(m := s.m.With(side, b)), side, t);
    hide SettleCurrent;
  }

  lemma StillOpen(p: PositionV, q: PositionV, side: Side, b: Book)
    requires Open(p, side, b) && q.basis == p.basis && q.aSnap == p.aSnap && q.epochSnap == p.epochSnap
    ensures Open(q, side, b)
  {
  }

  lemma {:induction false} SettleThroughFloors(s: Pair, side: Side, books: seq<Book>, t: Pair)
    requires books != [] && OpenOn(s.p, side, books) && SettleThrough(s, side, books) == Done(t)
    ensures s.p.aSnap > 0
    ensures var once := (Abs(s.p.basis) * (books[|books| - 1].k - s.p.kSnap)) / (s.p.aSnap * POS_SCALE);
            once - (|books| - 1) <= t.p.pnl - s.p.pnl <= once
    decreases |books|
  {
    hide SettleCurrent;
    hide Open;
    assert books[0] in books;
    var s1 := SettleCurrent(s.(m := s.m.With(side, books[0])), side).value;
    SettledOpen(s, side, books[0], s1);
    OpenScale(s.p, side, books[0]);
    if |books| > 1 {
      var last := books[|books| - 1];
      assert books[1..][|books| - 2] == last;
      forall b | b in books[1..] ensures Open(s1.p, side, b) {
        assert b in books;
        StillOpen(s.p, s1.p, side, b);
      }
      SettleThroughFloors(s1, side, books[1..], t);
      hide SettleThrough;
      KChain(Abs(s.p.basis), s.p.kSnap, books[0].k, last.k, s.p.aSnap * POS_SCALE);
    } else {
      assert SettleThrough(s1, side, books[1..]) == Done(s1);
    }
  }

  lemma OpenScale(p: PositionV, side: Side, b: Book)
    requires Open(p, side, b)
    ensures p.aSnap * POS_SCALE > 0 && p.aSnap > 0
  {
  }

  lemma KChain(basis: nat, from: int, mid: int, to: int, den: nat)
    requires den > 0
    ensures (basis * (to - from)) / den - 1
         <= (basis * (mid - from)) / den + (basis * (to - mid)) / den
         <= (basis * (to - from)) / den
  {
    assert basis * (to - from) == basis * (mid - from) + basis * (to - mid);
    FloorSum(basis * (mid - from), basis * (to - mid), den);
  }

  /**
   Settling an account `n` times instead of once, with price changes, funding, deficits and size cuts in
   between that leave it open, costs it at most `n - 1` units and never pays it more.
   */
  lemma OftenVersusOnce(s: Pair, side: Side, books: seq<Book>, often: Pair, once: Pair)
    requires books != [] && OpenOn(s.p, side, books)
    requires SettleThrough(s, side, books) == Done(often)
    requires SettleThrough(s, side, [books[|books| - 1]]) == Done(once)
    ensures once.p.pnl - (|books| - 1) <= often.p.pnl <= once.p.pnl
  {
    hide SettleThrough;
    hide Open;
    SettleThroughFloors(s, side, books, often);
    assert OpenOn(s.p, side, [books[|books| - 1]]);
    SettleThroughFloors(s, side, [books[|books| - 1]], once);
  }
}
