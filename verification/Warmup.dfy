/**
 The warmup releases reserved profit on a schedule of its own: how often it is
 advanced does not matter, everything is released after at most two periods
 and nothing large before one, and nothing else ever makes profit mature.
 */
module Warmup {
  import opened Numbers
  import opened FixedPoint
  import opened State
  import opened Risk
  import opened Runs

  // ---------------------------------------------------------------------------
  // Advancing in steps
  // ---------------------------------------------------------------------------

  lemma ReleaseForm(p: PositionV, slot: u64)
    requires p.warmupStart <= slot
    ensures WarmupRelease(p, slot) == Min(p.reserved, p.warmupSlope * (slot - p.warmupStart)) >= 0
  {
    MulPos(p.warmupSlope, slot - p.warmupStart);
  }

  /** What two intervals release one after the other, they release together. */
  lemma ReleaseSplit(p: PositionV, q: PositionV, first: u64, second: u64)
    requires p.warmupStart <= first <= second
    requires q.reserved == p.reserved - WarmupRelease(p, first)
    requires q.warmupSlope == p.warmupSlope && q.warmupStart == first
    ensures WarmupRelease(p, first) + WarmupRelease(q, second) == WarmupRelease(p, second) <= p.reserved
  {
    ReleaseForm(p, first);
    ReleaseForm(q, second);
    ReleaseForm(p, second);
    var slope, e1, e2 := p.warmupSlope, first - p.warmupStart, second - first;
    assert second - p.warmupStart == e1 + e2;
    assert slope * (e1 + e2) == slope * e1 + slope * e2;
    MulPos(slope, e1);
    MulPos(slope, e2);
    hide WarmupRelease;
  }

  /**
   Advancing at `first` and then at `second` is the same as advancing once at `second`, in every field
   and every refusal.
   */
  lemma AdvanceTwice(s: Pair, first: u64, second: u64)
    requires s.p.warmupStart <= first <= second
    ensures match AdvanceWarmup(s, first)
            case Done(t) => t.p.warmupStart == first && AdvanceWarmup(t, second) == AdvanceWarmup(s, second)
            case Abort => AdvanceWarmup(s, second).Abort?
  {
    hide WarmupRelease;
    var p := s.p;
    ReleaseForm(p, first);
    ReleaseForm(p, second);
    var q := p.(reserved := p.reserved - WarmupRelease(p, first), warmupStart := first);
    ReleaseSplit(p, q, first, second);
    ReleaseOf(q, second);
  }

  /** The release looks at the reserve, the slope and the start only. */
  lemma ReleaseOf(p: PositionV, slot: u64)
    ensures forall q: PositionV ::
              q.reserved == p.reserved && q.warmupSlope == p.warmupSlope && q.warmupStart == p.warmupStart
              ==> WarmupRelease(q, slot) == WarmupRelease(p, slot)
  {
  }

  function AdvanceAll(s: Pair, slots: seq<u64>): Outcome<Pair>
    decreases |slots|
  {
    if slots == [] then Done(s)
    else
      var t :- AdvanceWarmup(s, slots[0]);
      AdvanceAll(t, slots[1..])
  }

  predicate Ordered(from: u64, slots: seq<u64>)
    decreases |slots|
  {
    slots == [] || (from <= slots[0] && Ordered(slots[0], slots[1..]))
  }

  lemma {:induction false} OrderedLast(from: u64, slots: seq<u64>)
    requires slots != [] && Ordered(from, slots)
    ensures from <= slots[0] <= slots[|slots| - 1]
    decreases |slots|
  {
    if |slots| > 1 {
      OrderedLast(slots[0], slots[1..]);
    }
  }

  /** However often the warmup is advanced on the way, only the last slot counts. */
  lemma {:induction false} AdvanceOften(s: Pair, slots: seq<u64>)
    requires slots != [] && Ordered(s.p.warmupStart, slots)
    ensures AdvanceAll(s, slots) == AdvanceWarmup(s, slots[|slots| - 1])
    decreases |slots|
  {
    hide AdvanceWarmup;
    OrderedLast(s.p.warmupStart, slots);
    if |slots| > 1 {
      var last := slots[|slots| - 1];
      assert slots[1..][|slots| - 2] == last;
      AdvanceTwice(s, slots[0], last);
      if AdvanceWarmup(s, slots[0]).Done? {
        AdvanceOften(AdvanceWarmup(s, slots[0]).value, slots[1..]);
      }
    } else {
      var t := AdvanceWarmup(s, slots[0]);
      assert t.Done? ==> AdvanceAll(t.value, slots[1..]) == t;
    }
  }

  /** In every reachable world the warmup of every account has started in the past, so slots are always in order. */
  lemma WarmupStartedInThePast(w: World, p: PositionV)
    requires Reachable(w) && p in w.accounts
    ensures p.warmupStart <= w.m.feed.currentSlot
  {
    ReachableOk(w);
    hide Reachable;
  }

  // ---------------------------------------------------------------------------
  // How long it takes
  // ---------------------------------------------------------------------------

  /** The slope of a restarted warmup. */
  function Slope(reserved: nat, period: nat): nat
    requires period > 0
  {
    QuotientAtMost(reserved, period);
    if reserved / period == 0 then 1 else reserved / period
  }

  lemma SlopeBounds(reserved: nat, period: nat)
    requires period > 0
    ensures Slope(reserved, period) * (2 * period) >= reserved
    ensures reserved >= period ==> Slope(reserved, period) * period <= reserved
  {
    DivMod(reserved, period);
    var q := reserved / period;
    assert q * (2 * period) == 2 * (q * period);
    if q >= 1 {
      MulMono(1, q, period);
    }
  }

  lemma RestartForm(s: Pair, t: Pair)
    requires RestartWarmup(s) == Done(t) && s.m.params.warmupPeriod > 0 && s.p.reserved > 0
    ensures t == s.(p := s.p.(warmupSlope := Slope(s.p.reserved, s.m.params.warmupPeriod),
            warmupStart := s.m.feed.currentSlot))
  {
    QuotientAtMost(s.p.reserved, s.m.params.warmupPeriod);
  }

  /** After a restart the reserve is gone exactly when the slope has run long enough. */
  lemma ReleasedExactly(s: Pair, t: Pair, slot: u64, u: Pair)
    requires RestartWarmup(s) == Done(t) && AdvanceWarmup(t, slot) == Done(u) && s.m.feed.currentSlot <= slot
    ensures u.p.reserved == 0
       <==> s.m.params.warmupPeriod == 0
            || Slope(s.p.reserved, s.m.params.warmupPeriod) * (slot - s.m.feed.currentSlot) >= s.p.reserved
  {
    var period := s.m.params.warmupPeriod;
    if period > 0 {
      MulPos(Slope(s.p.reserved, period), slot - s.m.feed.currentSlot);
      if s.p.reserved > 0 {
        RestartForm(s, t);
        ReleaseForm(t.p, slot);
        hide Slope;
        hide WarmupRelease;
        hide RestartWarmup;
      }
    }
  }

  /** A restarted warmup is over after two periods, and a reserve of at least one unit per slot lasts a whole period. */
  lemma WarmupTakesOneToTwoPeriods(s: Pair, t: Pair, slot: u64, u: Pair)
    requires RestartWarmup(s) == Done(t) && AdvanceWarmup(t, slot) == Done(u) && s.m.feed.currentSlot <= slot
    ensures slot >= s.m.feed.currentSlot + 2 * s.m.params.warmupPeriod ==> u.p.reserved == 0
    ensures s.p.reserved >= s.m.params.warmupPeriod > slot - s.m.feed.currentSlot ==> u.p.reserved > 0
  {
    ReleasedExactly(s, t, slot, u);
    hide AdvanceWarmup;
    hide RestartWarmup;
    var period, elapsed := s.m.params.warmupPeriod, slot - s.m.feed.currentSlot;
    if period > 0 {
      SlopeBounds(s.p.reserved, period);
      var slope := Slope(s.p.reserved, period);
      assert slope >= 1;
      hide Slope;
      if elapsed >= 2 * period {
        MulMono(2 * period, elapsed, slope);
      }
      if elapsed < period {
        MulMono(elapsed + 1, period, slope);
        Distribute(elapsed, 1, slope);
      }
    }
  }

  /** Less than two periods may not be enough: the slope is rounded down. */
  lemma TwoPeriodsAreNeeded(s: Pair, t: Pair, slot: u64, u: Pair)
    requires RestartWarmup(s) == Done(t) && AdvanceWarmup(t, slot) == Done(u) && s.m.feed.currentSlot <= slot
    requires s.m.params.warmupPeriod > 1 && s.p.reserved == 2 * s.m.params.warmupPeriod - 1
    ensures u.p.reserved == 0 <==> slot - s.m.feed.currentSlot >= 2 * s.m.params.warmupPeriod - 1
  {
    ReleasedExactly(s, t, slot, u);
    hide AdvanceWarmup;
    hide RestartWarmup;
    DivUnique(s.p.reserved, s.m.params.warmupPeriod, 1);
  }

  // ---------------------------------------------------------------------------
  // Profit matures only through release
  // ---------------------------------------------------------------------------

  /**
   A PnL update leaves exactly as much released profit as there is positive PnL left for it: a gain
   matures nothing and takes nothing, and a loss takes released profit only once it has used up the
   reserve.  The matured total of the market falls by what the account's released profit does.
   */
  lemma PnlUpdateNeverMatures(s: Pair, newPnl: i128, t: Pair)
    requires SetPnl(s, newPnl) == Done(t)
    ensures t.p.pnl == newPnl && ReleasedPos(t.p) == Min(ReleasedPos(s.p), PosPart(newPnl))
    ensures ReleasedPos(t.p) + t.p.reserved == PosPart(newPnl)
    ensures s.m.funds.matured - t.m.funds.matured == ReleasedPos(s.p) - ReleasedPos(t.p) >= 0
  {
  }

  /** An advance matures exactly what it releases: slope times slots since the start, as far as the reserve goes. */
  lemma AdvanceMatures(s: Pair, slot: u64, t: Pair)
    requires AdvanceWarmup(s, slot) == Done(t) && s.p.warmupStart <= slot
    ensures t.m.funds.matured - s.m.funds.matured == s.p.reserved - t.p.reserved >= 0
    ensures t.p.reserved == if s.m.params.warmupPeriod == 0 then 0
                            else Max(s.p.reserved - s.p.warmupSlope * (slot - s.p.warmupStart), 0)
    ensures t.p.pnl == s.p.pnl && t.p.warmupStart == slot
  {
    ReleaseForm(s.p, slot);
    hide WarmupRelease;
  }

  // ---------------------------------------------------------------------------
  // When a warmup starts again
  // ---------------------------------------------------------------------------

  lemma RestartsIfRaised(s: Pair, oldReserved: u128, t: Pair)
    requires RestartIfRaised(s, oldReserved) == Done(t)
    ensures s.p.reserved <= oldReserved ==> t == s
    ensures s.p.reserved > oldReserved ==>
              t.p.warmupStart == s.m.feed.currentSlot
              && if s.m.params.warmupPeriod == 0 then t.p.reserved == 0 && t.p.warmupSlope == 0
                 else t.p.reserved == s.p.reserved && t.p.warmupSlope == Slope(t.p.reserved, s.m.params.warmupPeriod)
  {
    if s.p.reserved > oldReserved && s.m.params.warmupPeriod > 0 {
      RestartForm(s, t);
    }
    hide Slope;
  }

  lemma PnlThenRest(s: Pair, delta: int, s1: Pair, s2: Pair, t: Pair)
    requires CheckI128(s.p.pnl + delta).Done? && SetPnl(s, s.p.pnl + delta) == Done(s1)
    requires s2.p.reserved == s1.p.reserved && s2.p.pnl == s1.p.pnl && s2.m.params == s1.m.params
    requires s2.p.warmupStart == s1.p.warmupStart && s2.p.warmupSlope == s1.p.warmupSlope && s2.m.feed == s1.m.feed
    requires RestartIfRaised(s2, s.p.reserved) == Done(t)
    ensures WarmedUp(s, t)
  {
    RestartsIfRaised(s2, s.p.reserved, t);
    hide RestartIfRaised;
    hide Slope;
  }

  /**
   What settlement does to the warmup: if the positive PnL has grown, all of the growth is reserved and
   the warmup of the whole reserve starts anew at the current slot; otherwise it goes on as before.
   */
  ghost predicate WarmedUp(s: Pair, t: Pair) {
    var gain, period := PosPart(t.p.pnl) - PosPart(s.p.pnl), s.m.params.warmupPeriod;
    if gain <= 0 then t.p.warmupStart == s.p.warmupStart && t.p.warmupSlope == s.p.warmupSlope
    else
      && t.p.warmupStart == s.m.feed.currentSlot
      && if period == 0 then t.p.reserved == 0 && t.p.warmupSlope == 0
         else t.p.reserved == s.p.reserved + gain && t.p.warmupSlope == Slope(t.p.reserved, period)
  }

  lemma GainRestarts(s: Pair, side: Side, t: Pair)
    requires SettleCurrent(s, side) == Done(t)
    ensures WarmedUp(s, t)
  {
    hide SetPnl;
    hide KPairFloor;
    hide MulDivFloor;
    hide SetBasis;
    hide RestartIfRaised;
    hide WarmedUp;
    var book := s.m.Side(side);
    var delta := KPairFloor(Abs(s.p.basis), book.k, s.p.kSnap, s.p.aSnap * POS_SCALE).value;
    var s1 := AddPnl(s, delta).value;
    var s2 := Resnapshot(s1, side).value;
    SnapshotOnly(s1, side, s2);
    PnlThenRest(s, delta, s1, s2, t);
  }

  lemma BasisOnly(s: Pair, basis: i128, t: Pair)
    requires SetBasis(s, basis) == Done(t)
    ensures t.p == s.p.(basis := basis) && t.m.params == s.m.params && t.m.feed == s.m.feed
  {
  }

  lemma SnapshotOnly(s: Pair, side: Side, t: Pair)
    requires Resnapshot(s, side) == Done(t)
    ensures t.p.reserved == s.p.reserved && t.p.pnl == s.p.pnl && t.m.params == s.m.params && t.m.feed == s.m.feed
    ensures t.p.warmupStart == s.p.warmupStart && t.p.warmupSlope == s.p.warmupSlope
  {
    hide MulDivFloor;
    hide SetBasis;
    var book := s.m.Side(side);
    var left := s.(m := s.m.With(side, AddDust(book, 1)));
    if MulDivFloor(Abs(s.p.basis), book.a, s.p.aSnap) == Done(0) {
      BasisOnly(left, 0, SetBasis(left, 0).value);
    }
  }

  lemma StaleGainRestarts(s: Pair, side: Side, t: Pair)
    requires Risk.SettleStale(s, side) == Done(t)
    ensures WarmedUp(s, t)
  {
    hide SetPnl;
    hide StaleDelta;
    hide SetBasis;
    hide RestartIfRaised;
    hide WarmedUp;
    var delta := StaleDelta(s.p, s.m.Side(side)).value;
    var s1 := AddPnl(s, delta).value;
    BasisOnly(s1, 0, SetBasis(s1, 0).value);
    PnlThenRest(s, delta, s1, LeaveStale(s1, side).value, t);
  }
}
