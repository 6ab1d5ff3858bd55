/**
 Auto-deleveraging and resets keep the invariant.  Truncating the size index
 orphans open interest of every account of the side at once; the amount added
 to the phantom dust bound covers it for any number of accounts.  Starting a new
 epoch makes every stored position stale at once, so the empty side starts again
 with nothing owned, no dust and a full size index; the curve is re-balanced
 without changing its constant.
 */
module AdlSteps {
  import opened Numbers
  import opened State
  import opened Risk
  import opened Invariants
  import opened Traces
  import opened AccountSteps
  import opened PositionSteps
  import opened Handlers
  import Vamm

  // ---------------------------------------------------------------------------
  // Cutting the size index
  // ---------------------------------------------------------------------------

  /** With weight `x` on the side, the gap after the cut is a fraction of the gap before plus what truncation drops. */
  lemma CutGap(a: real, a': real, oi: real, oi': real, r: real, x: real)
    requires a' * oi + r == a * oi'
    ensures oi * (oi' - a' * x) == oi' * (oi - a * x) + r * x
  {
    assert oi * (a' * x) == (a' * oi) * x;
    assert (a' * oi) * x == (a * oi' - r) * x == (a * oi') * x - r * x;
    assert (a * oi') * x == oi' * (a * x);
    assert oi * (oi' - a' * x) == oi * oi' - oi * (a' * x);
  }

  lemma RealMono(x: real, y: real, z: real)
    requires x <= y && 0.0 <= z
    ensures x * z <= y * z && z * x <= z * y
  {
  }

  lemma RealCancel(x: real, y: real, z: real)
    requires z > 0.0 && z * x <= z * y
    ensures x <= y
  {
    if y < x {
      RealStrict(y, x, z);
    }
  }

  lemma RealStrict(x: real, y: real, z: real)
    requires x < y && z > 0.0
    ensures z * x < z * y
  {
  }

  lemma CutSandwich(a: real, a': real, oi: real, oi': real, r: real, x: real, dust: real)
    requires a > 0.0 && oi > 0.0 && 0.0 <= oi' <= oi && 0.0 <= r < oi && 0.0 <= x
    requires a' * oi + r == a * oi'
    requires 0.0 <= oi - a * x <= dust
    ensures 0.0 <= oi' - a' * x
    ensures r == 0.0 ==> oi' - a' * x <= dust
    ensures oi' - a' * x <= dust + x
  {
    var gap := oi - a * x;
    var gap' := oi' - a' * x;
    CutGap(a, a', oi, oi', r, x);
    RealProduct(oi', gap);
    RealProduct(r, x);
    assert oi * gap' == oi' * gap + r * x;
    RealCancel(0.0, gap', oi);
    RealMono(oi', oi, gap);
    RealMono(gap, dust, oi);
    RealMono(r, oi, x);
    assert oi * (dust + x) == oi * dust + oi * x;
    RealCancel(gap', dust + x, oi);
    if r == 0.0 {
      assert r * x == 0.0;
      RealCancel(gap', dust, oi);
    }
  }

  /** The size that weight `x` owns at size index `a`. */
  ghost function Times(a: nat, x: real): real {
    (a as real) * x
  }

  lemma TimesNonNegative(a: nat, x: real)
    requires 0.0 <= x
    ensures 0.0 <= Times(a, x)
  {
    RealProduct(a as real, x);
  }

  lemma CutFloor(a: nat, rest: nat, oi: nat)
    requires oi > 0
    ensures var q := (a * rest) / oi; var r := (a * rest) % oi;
            0 <= q && 0 <= r < oi && (q as real) * (oi as real) + (r as real) == (a as real) * (rest as real)
  {
    MulPos(a, rest);
    DivMod(a * rest, oi);
    DivAtLeast(a * rest, oi, 0);
    var q, r := (a * rest) / oi, (a * rest) % oi;
    assert (q * oi) as real == (q as real) * (oi as real);
    assert (a * rest) as real == (a as real) * (rest as real);
  }

  lemma CutTimes(a: nat, rest: nat, oi: nat, x: real, dust: nat)
    requires a > 0 && rest <= oi && oi > 0 && 0.0 <= x
    requires 0.0 <= (oi as real) - Times(a, x) <= dust as real
    ensures (a * rest) / oi >= 0
    ensures var gap := (rest as real) - Times((a * rest) / oi, x);
            0.0 <= gap <= (dust as real) + x && ((a * rest) % oi == 0 ==> gap <= dust as real)
  {
    CutFloor(a, rest, oi);
    CutSandwich(a as real, ((a * rest) / oi) as real, oi as real, rest as real, ((a * rest) % oi) as real, x,
                dust as real);
  }

  /** The weight of a side is covered by the rounded-up quotient in the truncation bound. */
  lemma WeightCovered(a: nat, oi: nat, n: nat, x: real)
    requires a > 0 && Times(a, x) <= oi as real
    ensures x <= CeilDiv(oi + n, a) as real
  {
    var c := CeilDiv(oi + n, a);
    CeilDivBounds(oi + n, a);
    assert (c * a) as real == (c as real) * (a as real);
    RealCancel(x, c as real, a as real);
  }

  ghost function TotalWeight(side: Side, rest: seq<PositionV>, p: PositionV, b: Book): real {
    Weight(side, b.epoch, p) + SumWeight(side, b.epoch, rest)
  }

  lemma OwnedIsWeight(side: Side, rest: seq<PositionV>, p: PositionV, b: Book)
    ensures Owned(side, rest, p, b) == Times(b.a, TotalWeight(side, rest, p, b))
    ensures TotalWeight(side, rest, p, b) >= 0.0
  {
    WeightNonNegative(side, b.epoch, p);
    SumWeightNonNegative(side, b.epoch, rest);
  }

  lemma CutForm(b: Book, cut: u128)
    requires cut < b.oi && b.a > 0
    ensures var c := CutBook(b, cut);
            && c == b.(a := c.a, oi := b.oi - cut, dust := c.dust, mode := c.mode)
            && c.a == (b.a * (b.oi - cut)) / b.oi <= b.a
            && (b.mode != ResetPending ==> c.mode != ResetPending)
            && c.dust == (if (b.a * (b.oi - cut)) % b.oi == 0 then b.dust else SatAddU128(b.dust, TruncationDust(b)))
  {
    CutAtMost(b.a, b.oi - cut, b.oi);
  }

  /** A side whose size index falls below a thousand only drains from then on. */
  lemma CutDrains(b: Book, cut: u128)
    requires cut < b.oi && b.a > 0
    ensures CutBook(b, cut).mode == if CutBook(b, cut).a < 1_000 then DrainOnly else b.mode
  {
  }

  /** The bound added for a truncated index: one unit per position, and open interest and positions over the index. */
  lemma TruncationDustIs(b: Book)
    requires b.a > 0 && TruncationDust(b) < U128_MAX
    ensures var added := TruncationDust(b) - b.stored;
            (added - 1) * b.a < b.oi + b.stored <= added * b.a
  {
    var n := b.oi + b.stored;
    DivMod(n, b.a);
    Distribute(n / b.a, 1, b.a);
    Distribute(n / b.a, 0 - 1, b.a);
  }

  /** The gap of a side before and after a cut, for any weight: the truncation bound covers it. */
  lemma CutWeight(b: Book, cut: u128, x: real)
    requires 0 < b.a && cut < b.oi && 0.0 <= x
    requires 0.0 <= (b.oi as real) - Times(b.a, x) <= b.dust as real
    ensures var c := CutBook(b, cut); 0.0 <= (c.oi as real) - Times(c.a, x) <= c.dust as real
  {
    var c := CutBook(b, cut);
    CutForm(b, cut);
    CutTimes(b.a, b.oi - cut, b.oi, x, b.dust);
    TimesNonNegative(c.a, x);
    WeightCovered(b.a, b.oi, b.stored, x);
    hide CutBook;
    hide Times;
  }

  lemma CutCovered(side: Side, rest: seq<PositionV>, p: PositionV, b: Book, cut: u128)
    requires Sandwich(side, rest, p, b) && 0 < b.a && cut < b.oi
    ensures Sandwich(side, rest, p, CutBook(b, cut))
  {
    var c := CutBook(b, cut);
    CutForm(b, cut);
    hide CutBook;
    hide Owned;
    hide Times;
    OwnedIsWeight(side, rest, p, b);
    OwnedIsWeight(side, rest, p, c);
    assert TotalWeight(side, rest, p, c) == TotalWeight(side, rest, p, b);
    hide TotalWeight;
    CutWeight(b, cut, TotalWeight(side, rest, p, b));
  }

  lemma CutKeeps(side: Side, rest: seq<PositionV>, p: PositionV, b: Book, cut: u128)
    requires BookOk(side, rest, p, b) && cut < b.oi && CutBook(b, cut).a > 0
    ensures BookOk(side, rest, p, CutBook(b, cut))
  {
    CutForm(b, cut);
    hide CutBook;
    if Sandwich(side, rest, p, b) {
      CutCovered(side, rest, p, b, cut);
    }
    hide Sandwich;
  }

  // ---------------------------------------------------------------------------
  // What enqueue_adl does to the two sides
  // ---------------------------------------------------------------------------

  /** The liquidated side loses the closed size, or everything in a terminal drain, which schedules a reset. */
  ghost predicate LiquidatedBook(b: Book, close: int, c: Book) {
    && c == b.(oi := c.oi, pending := c.pending)
    && ((c.oi == b.oi - close && (c.pending ==> b.pending || c.oi == 0)) || (c.pending && c.oi == 0))
  }

  /** The other side is charged, cut, drained or left alone. */
  ghost predicate DeleveragedBook(b: Book, close: u128, c: Book) {
    || (c == b.(k := c.k, oi := 0, pending := true))
    || (c == b && b.oi == 0)
    || (b.stored == 0 && close <= b.oi && c == b.(oi := b.oi - close))
    || (close < b.oi && b.a > 0 && c.a > 0 && c == CutBook(b.(k := c.k), close))
  }

  lemma ChargedForm(b: Book, deficit: u128, close: u128)
    ensures var charged := ChargeDeficit(b, deficit);
            charged.Done? ==>
              && charged.value == b.(k := charged.value.k)
              && (b.a > 0 && close < b.oi ==> CutBook(charged.value, close).k == charged.value.k)
  {
    hide ChargeDeficit;
    hide CutBook;
    if ChargeDeficit(b, deficit).Done? {
      ChargeForm(b, deficit, ChargeDeficit(b, deficit).value);
      if b.a > 0 && close < b.oi {
        CutForm(ChargeDeficit(b, deficit).value, close);
      }
    }
  }

  lemma EnqueueForm(m: MarketV, side: Side, close: u128, deficit: u128, n: MarketV)
    requires EnqueueAdl(m, side, close, deficit) == Done(n)
    ensures LiquidatedBook(m.Side(side), close, n.Side(side))
    ensures DeleveragedBook(m.Side(side.Opposite()), close, n.Side(side.Opposite()))
    ensures n == m.(long := n.long, short := n.short, funds := UseInsurance(m.funds, deficit))
  {
    hide CutBook;
    hide ChargeDeficit;
    hide UseInsurance;
    hide Uncovered;
    InsuranceDraw(m.funds, deficit);
    ChargedForm(m.Side(side.Opposite()), Uncovered(m.funds, deficit), close);
  }

  /**
   What deleveraging leaves due for a reset: the liquidated side if both are left without open interest,
   the other one also if it has just lost its own.  The liquidated side loses its closed size, or all it
   has if the other one's size index is rounded away.
   */
  lemma EnqueueFlags(m: MarketV, side: Side, close: u128, deficit: u128, n: MarketV)
    requires EnqueueAdl(m, side, close, deficit) == Done(n)
    ensures var opp := side.Opposite();
            var b, c := m.Side(opp), n.Side(opp);
            && (n.Side(side).pending <==> m.Side(side).pending || (n.Side(side).oi == 0 && c.oi == 0))
            && (c.pending <==> b.pending || (c.oi == 0 && (b.oi > 0 || n.Side(side).oi == 0)))
            && n.Side(side).oi == if b.stored > 0 && close < b.oi && (b.a * (b.oi - close)) / b.oi == 0 then 0
                                  else m.Side(side).oi - close
  {
    hide ChargeDeficit;
    hide UseInsurance;
    hide InsurancePay;
    var b := m.Side(side.Opposite());
    InsuranceDraw(m.funds, deficit);
    var uncovered := deficit - InsurancePay(m.funds, deficit);
    if ChargeDeficit(b, uncovered).Done? {
      ChargeForm(b, uncovered, ChargeDeficit(b, uncovered).value);
      if b.a > 0 && close < b.oi {
        CutForm(ChargeDeficit(b, uncovered).value, close);
      } else if b.a == 0 && b.oi > 0 {
        DivUnique(b.a * (b.oi - close), b.oi, 0);
      }
    }
    hide CutBook;
  }

  lemma NothingOwned(side: Side, rest: seq<PositionV>, p: PositionV, b: Book)
    requires Counted(side, rest, p, b) && b.stored == 0
    ensures Owned(side, rest, p, b) == 0.0
  {
    SumNonNegative(StoredOn(side), rest);
    NoneStored(side, b.epoch, rest);
    assert Weight(side, b.epoch, p) == 0.0;
  }

  /** The deleveraged side stays covered, in every branch. */
  lemma DeleveragedKeeps(side: Side, rest: seq<PositionV>, p: PositionV, b: Book, close: u128, c: Book)
    requires BookOk(side, rest, p, b) && DeleveragedBook(b, close, c)
    ensures BookOk(side, rest, p, c) && BookAdvances(b, c)
  {
    var b' := b.(k := c.k);
    OnlyKBook(side, rest, p, b, b');
    if b.stored == 0 {
      NothingOwned(side, rest, p, b);
    }
    if close < b.oi && b.a > 0 && c.a > 0 && c == CutBook(b', close) {
      CutForm(b', close);
      CutKeeps(side, rest, p, b', close);
    } else {
      SameShares(side, rest, p, b, c);
    }
    hide CutBook;
    hide Share;
    hide RestShare;
  }

  lemma OnlyKBook(side: Side, rest: seq<PositionV>, p: PositionV, b: Book, c: Book)
    requires OnlyK(b, c) && BookOk(side, rest, p, b)
    ensures BookOk(side, rest, p, c)
  {
    SameShares(side, rest, p, b, c);
    hide Share;
    hide RestShare;
  }

  /** Wiping the position out completes the liquidated side's book. */
  ghost predicate WipedBook(p: PositionV, side: Side, b: Book, c1: Book, c: Book) {
    && b.stored > 0
    && c == c1.(stored := b.stored - 1, total := SatSub(b.total, BaseSizeOn(p, side)),
                dust := if LeavesRemainder(p, b) then SatAddU128(b.dust, 1) else b.dust)
  }

  lemma LiquidatedKeeps(side: Side, rest: seq<PositionV>, s: Pair, q: PositionV, c1: Book, c: Book)
    requires Inv(rest, s) && AtRest(s.m) && Current(s.p, s.m) && Holds(s.p, side)
    requires LiquidatedBook(s.m.Side(side), OldSize(s.p, s.m.Side(side)), c1)
    requires WipedBook(s.p, side, s.m.Side(side), c1, c) && Gone(q) && q.aSnap == ADL_ONE
    ensures BookOk(side, rest, q, c) && BookAdvances(s.m.Side(side), c)
  {
    var p, b := s.p, s.m.Side(side);
    CurrentOnSide(rest, s, side);
    OpenInterestCovers(rest, s, side);
    RawTotal(rest, s, side);
    assert SideOk(side, rest, s);
    hide OnSide;
    hide Inv;
    var mid := b.(stored := b.stored - 1, oi := b.oi - OldSize(p, b), dust := c.dust);
    var d := mid.(total := c.total);
    assert RebasedBook(p, b, 0, mid);
    GoneMeasures(q, side, b.epoch, b.acc);
    ResizeBook(side, rest, p, b, q, mid, d, 0);
    SameShares(side, rest, q, d, c);
    hide OldSize;
    hide LeavesRemainder;
    hide Share;
    hide RestShare;
    hide RebasedBook;
  }

  /** The wiped account and the money totals without it. */
  lemma WipeForm(s: Pair, side: Side, t: Pair)
    requires Shape(s.p) && Holds(s.p, side) && OnSide(s.p, side, s.m.Side(side)) && Wipe(s) == Done(t)
    ensures Gone(t.p) && t.p.aSnap == ADL_ONE && t.p.pnl == 0 && t.p.reserved == 0 && t.p.collateral == 0
    ensures t.p.warmupStart == 0
    ensures t.m == s.m.With(side, t.m.Side(side)).(funds := t.m.funds)
    ensures WipedBook(s.p, side, s.m.Side(side), s.m.Side(side), t.m.Side(side))
    ensures t.m.funds == s.m.funds.(cTot := s.m.funds.cTot - s.p.collateral,
            pnlPos := s.m.funds.pnlPos - PosPart(s.p.pnl),
                                    matured := s.m.funds.matured - (PosPart(s.p.pnl) - s.p.reserved))
  {
    var book := s.m.Side(side);
    var m1 := s.m.With(side, book.(total := SatSub(book.total, Abs(s.p.baseSize))));
    var s1 := s.(m := m1.(funds := m1.funds.(cTot := m1.funds.cTot - s.p.collateral)));
    var s2 := ResetWarmup(s1).value;
    var s3 := SetPnl(s2.(p := s2.p.(baseSize := 0, quoteEntry := 0)), 0).value;
    var s4 := s3.(p := s3.p.(collateral := 0));
    assert s2.p.reserved == 0 && s2.p.pnl == s.p.pnl && s2.m == s1.m.(funds := s2.m.funds);
    assert s3.m == s1.m.(funds := s3.m.funds) && s4.p.pnl == 0 && s4.p.reserved == 0;
    var b := s4.m.Side(side);
    assert b == book.(total := b.total);
    assert LeavesRemainder(s4.p, b) == LeavesRemainder(s.p, book);
    assert OnSide(s4.p, side, b);
    hide ResetWarmup;
    hide SetPnl;
    hide OnSide;
    hide LeavesRemainder;
    hide Attach;
    AttachForm(s4, side, 0, t);
  }

  // ---------------------------------------------------------------------------
  // Surplus rewards
  // ---------------------------------------------------------------------------

  /** Every raw unit gets the rounded-down share of the surplus. */
  lemma ShareOut(scaled: nat, total: nat, delta: nat)
    requires total > 0 && delta == scaled / total
    ensures delta * total <= scaled
  {
    DivMod(scaled, total);
  }

  /** What a distribution may add to a side: `delta` per unit of raw size against `amount` distributed. */
  ghost predicate Backed(delta: int, total: nat, amount: int) {
    delta * total <= REWARD_PRECISION * amount
  }

  lemma DistributeForm(m: MarketV, opp: Side, surplus: u128, n: MarketV)
    requires DistributeSurplus(m, opp, surplus) == Done(n)
    ensures n == m.With(opp, n.Side(opp)).(funds := n.funds, history := n.history)
    ensures n.Side(opp) == m.Side(opp).(acc := n.Side(opp).acc) && m.Side(opp).acc <= n.Side(opp).acc
    ensures n.funds == m.funds.(insurance := n.funds.insurance) && Cushion(n.funds) >= Cushion(m.funds) - surplus
    ensures n.history.Paid(Long) == m.history.Paid(Long) && n.history.Paid(Short) == m.history.Paid(Short)
    ensures n.history.Distributed(opp.Opposite()) == m.history.Distributed(opp.Opposite())
    ensures Backed(n.Side(opp).acc - m.Side(opp).acc, m.Side(opp).total,
                   n.history.Distributed(opp) - m.history.Distributed(opp))
  {
    InsuranceCredit(m.funds, surplus);
    var book := m.Side(opp);
    assert Backed(0, book.total, 0);
    if surplus > 0 && book.total > 0 {
      var scaled := surplus * REWARD_PRECISION;
      var delta := scaled / book.total;
      DivAtLeast(scaled, book.total, 0);
      ShareOut(scaled, book.total, delta);
      assert Backed(delta, book.total, surplus);
    }
    hide Backed;
    hide CreditInsurance;
  }

  /** Distributing a surplus owes the side no more than the surplus. */
  lemma DistributeReward(opp: Side, rest: seq<PositionV>, p: PositionV, b: Book, h: History, c: Book, h': History)
    requires RewardOk(opp, rest, p, b, h) && Counted(opp, rest, p, b) && BaseSizeOn(p, opp) == 0
    requires b.acc <= c.acc && h'.Paid(opp) == h.Paid(opp)
    requires Backed(c.acc - b.acc, b.total, h'.Distributed(opp) - h.Distributed(opp))
    ensures RewardOk(opp, rest, p, c, h')
  {
    OwedGrows(opp, b.acc, c.acc - b.acc, rest);
    assert b.total == Sum(BaseOn(opp), rest);
    assert Of(OwedOn(opp, b.acc), p) == Of(OwedOn(opp, c.acc), p) == 0;
    hide Of;
  }

  lemma AccBook(side: Side, rest: seq<PositionV>, p: PositionV, b: Book, c: Book)
    requires BookOk(side, rest, p, b) && c == b.(acc := c.acc)
    ensures BookOk(side, rest, p, c)
  {
    SameShares(side, rest, p, b, c);
    hide Share;
    hide RestShare;
  }

  // ---------------------------------------------------------------------------
  // The core of a liquidation
  // ---------------------------------------------------------------------------

  lemma SwapKeepsCurve(m: MarketV, buy: bool, size: u128, swap: Vamm.Swap)
    requires Vamm.OnCurve(m.amm) && SwapFor(m, buy, size) == Done(swap)
    ensures Vamm.OnCurve(Swapped(m, swap).amm) && Swapped(m, swap) == m.(amm := Swapped(m, swap).amm)
    ensures Swapped(m, swap).amm.k == m.amm.k
  {
    if buy {
      Vamm.LongOnCurve(m.amm, size);
    } else {
      Vamm.ShortOnCurve(m.amm, size);
    }
  }

  lemma SocializeForm(s: Pair, side: Side, eff: i128, bill: Bill, t: Pair)
    requires Vamm.OnCurve(s.m.amm) && Socialize(s, side, eff, bill) == Done(t)
    ensures t.p == s.p && Vamm.OnCurve(t.m.amm) && t.m.amm.k == s.m.amm.k
    ensures t.m == s.m.(long := t.m.long, short := t.m.short, amm := t.m.amm, funds := t.m.funds,
            history := t.m.history)
    ensures LiquidatedBook(s.m.Side(side), Abs(eff), t.m.Side(side))
    ensures exists mid: Book ::
              DeleveragedBook(s.m.Side(side.Opposite()), Abs(eff), mid)
              && t.m.Side(side.Opposite()) == mid.(acc := t.m.Side(side.Opposite()).acc)
    ensures var opp := side.Opposite();
            && s.m.Side(opp).acc <= t.m.Side(opp).acc
            && Backed(t.m.Side(opp).acc - s.m.Side(opp).acc, s.m.Side(opp).total,
                      t.m.history.Distributed(opp) - s.m.history.Distributed(opp))
            && t.m.history.Paid(Long) == s.m.history.Paid(Long) && t.m.history.Paid(Short) == s.m.history.Paid(Short)
            && t.m.history.Distributed(side) == s.m.history.Distributed(side)
    ensures t.m.funds.cTot == s.m.funds.cTot && t.m.funds.pnlPos == s.m.funds.pnlPos
    ensures t.m.funds.matured == s.m.funds.matured && t.m.funds.vault == s.m.funds.vault
    ensures Cushion(t.m.funds) >= Cushion(s.m.funds) - bill.insuranceFee - bill.surplus
  {
    hide Backed;
    hide EnqueueAdl;
    hide DistributeSurplus;
    hide SwapFor;
    hide Vamm.OnCurve;
    hide CutBook;
    var opp := side.Opposite();
    var swap := SwapFor(s.m, side == Short, Abs(eff)).value;
    SwapKeepsCurve(s.m, side == Short, Abs(eff), swap);
    var m0 := Swapped(s.m, swap);
    var m1 := EnqueueAdl(m0, side, Abs(eff), bill.deficit).value;
    EnqueueForm(m0, side, Abs(eff), bill.deficit, m1);
    InsuranceDraw(m0.funds, bill.deficit);
    hide UseInsurance;
    var m2 := m1.(funds := CreditInsurance(m1.funds, bill.insuranceFee));
    InsuranceCredit(m1.funds, bill.insuranceFee);
    hide CreditInsurance;
    var m3 := DistributeSurplus(m2, opp, bill.surplus).value;
    DistributeForm(m2, opp, bill.surplus, m3);
    assert t.m == m3;
    DeleveragedAcc(s.m.Side(opp), Abs(eff), m1.Side(opp));
    hide DeleveragedBook;
    hide LiquidatedBook;
    assert DeleveragedBook(s.m.Side(opp), Abs(eff), m1.Side(opp))
      && t.m.Side(opp) == m1.Side(opp).(acc := t.m.Side(opp).acc);
  }

  lemma DistributeStage(m: MarketV, opp: Side, surplus: u128, n: MarketV)
    requires DistributeSurplus(m, opp, surplus) == Done(n)
    ensures Stage(m, n)
  {
    DistributeForm(m, opp, surplus, n);
    hide DistributeSurplus;
    hide Backed;
    StageSame(m, n);
    hide Stage;
  }

  /** What a liquidation does to the indices: a charge and a cut. */
  lemma SocializeFlow(s: Pair, side: Side, eff: i128, bill: Bill, t: Pair)
    requires s.m.long.a > 0 && s.m.short.a > 0 && Socialize(s, side, eff, bill) == Done(t)
    ensures Flow(s.m, t.m, Full(Strike(Uncovered(s.m.funds, bill.deficit), Abs(eff))))
  {
    hide Flow;
    hide Parts;
    hide EnqueueAdl;
    hide Uncovered;
    hide DistributeSurplus;
    hide SwapFor;
    hide CreditInsurance;
    var m0 := Swapped(s.m, SwapFor(s.m, side == Short, Abs(eff)).value);
    StageSame(s.m, m0);
    var m1 := EnqueueAdl(m0, side, Abs(eff), bill.deficit).value;
    EnqueueFlow(m0, side, Abs(eff), bill.deficit, m1);
    var m2 := m1.(funds := CreditInsurance(m1.funds, bill.insuranceFee));
    StageSame(m1, m2);
    DistributeStage(m2, side.Opposite(), bill.surplus, t.m);
    var d := Full(Strike(Uncovered(s.m.funds, bill.deficit), Abs(eff)));
    QuietFirst(d);
    FlowChain(s.m, m0, m1, Quiet, d, d);
    FlowStage(s.m, m1, m2, d);
    FlowStage(s.m, m2, t.m, d);
  }

  lemma DeleveragedAcc(b: Book, close: u128, c: Book)
    requires DeleveragedBook(b, close, c)
    ensures c.acc == b.acc && c.total == b.total
  {
    if close < b.oi && b.a > 0 && c.a > 0 && c == CutBook(b.(k := c.k), close) {
      CutForm(b.(k := c.k), close);
    }
    hide CutBook;
  }

  /** The deleveraged side after the surplus has been distributed to it. */
  lemma OppositeKeeps(side: Side, rest: seq<PositionV>, s: Pair, q: PositionV, n: MarketV, close: u128)
    requires Inv(rest, s) && Holds(s.p, side.Opposite()) && Gone(q)
    requires exists mid: Book ::
               DeleveragedBook(s.m.Side(side), close, mid) && n.Side(side) == mid.(acc := n.Side(side).acc)
    requires s.m.Side(side).acc <= n.Side(side).acc && n.history.Paid(side) == s.m.history.Paid(side)
    requires Backed(n.Side(side).acc - s.m.Side(side).acc, s.m.Side(side).total,
                    n.history.Distributed(side) - s.m.history.Distributed(side))
    ensures BookOk(side, rest, q, n.Side(side)) && RewardOk(side, rest, q, n.Side(side), n.history)
    ensures BookAdvances(s.m.Side(side), n.Side(side))
  {
    var b, c := s.m.Side(side), n.Side(side);
    var mid: Book :| DeleveragedBook(b, close, mid) && c == mid.(acc := c.acc);
    assert SideOk(side, rest, s) && Shape(s.p);
    SideParts(side, rest, s);
    OtherSide(side, rest, s.p, b, q, s.m.history);
    DeleveragedKeeps(side, rest, q, b, close, mid);
    DeleveragedAcc(b, close, mid);
    assert BaseSizeOn(q, side) == 0;
    hide DeleveragedBook;
    hide Backed;
    hide Inv;
    AccBook(side, rest, q, mid, c);
    DistributeReward(side, rest, q, b, s.m.history, c, n.history);
  }

  /** From the settled account to the wiped one: the whole invariant, and what it costs the cushion. */
  lemma LiquidationCoreKeeps(rest: seq<PositionV>, s: Pair, side: Side, eff: i128, bill: Bill, s2: Pair, t: Pair)
    requires Inv(rest, s) && AtRest(s.m) && Current(s.p, s.m) && Holds(s.p, side)
    requires EffectiveQ(s.p, s.m) == Done(eff)
    requires Socialize(s, side, eff, bill) == Done(s2) && Wipe(s2) == Done(t)
    ensures Inv(rest, t) && t.m.amm.k == s.m.amm.k
    ensures Flow(s.m, t.m, Full(Strike(Uncovered(s.m.funds, bill.deficit), Abs(eff))))
    ensures t.m == s.m.(long := t.m.long, short := t.m.short, amm := t.m.amm, funds := t.m.funds,
            history := t.m.history)
    ensures Cushion(t.m.funds) >= Cushion(s.m.funds) - bill.insuranceFee - bill.surplus + s.p.collateral
  {
    hide Socialize;
    hide Wipe;
    hide EffectiveQ;
    hide Inv;
    hide OnSide;
    hide OldSize;
    hide LiquidatedBook;
    hide DeleveragedBook;
    hide WipedBook;
    hide Backed;
    hide BookOk;
    hide RewardOk;
    hide SideOk;
    hide Vamm.OnCurve;
    hide Stage;
    hide Flow;
    var opp := side.Opposite();
    InvShape(rest, s);
    InvMoney(rest, s);
    InvIndices(rest, s);
    CurrentOnSide(rest, s, side);
    EffectiveIsSize(s.p, s.m, side, eff);
    SocializeForm(s, side, eff, bill, s2);
    OnSideFrame(s.p, side, OldSize(s.p, s.m.Side(side)), s.m.Side(side), s2.m.Side(side));
    WipeForm(s2, side, t);
    SocializeFlow(s, side, eff, bill, s2);
    WipeStage(s2, side, t);
    FlowStage(s.m, s2.m, t.m, Full(Strike(Uncovered(s.m.funds, bill.deficit), Abs(eff))));
    WipedAfter(s.p, side, s.m.Side(side), s2.m.Side(side), OldSize(s.p, s.m.Side(side)), t.m.Side(side));
    LiquidatedKeeps(side, rest, s, t.p, s2.m.Side(side), t.m.Side(side));
    OppositeKeeps(opp, rest, s, t.p, t.m, Abs(eff));
    WipedAcc(s.p, side, s.m.Side(side), s2.m.Side(side), OldSize(s.p, s.m.Side(side)), t.m.Side(side));
    LiquidatedReward(side, rest, s, t);
    SideWhole(side, rest, t);
    SideWhole(opp, rest, t);
    Assemble(rest, s, side, t);
  }

  lemma InvIndices(rest: seq<PositionV>, s: Pair)
    requires Inv(rest, s)
    ensures 1 <= s.m.long.a <= ADL_ONE && 1 <= s.m.short.a <= ADL_ONE
  {
    SideParts(Long, rest, s);
    SideParts(Short, rest, s);
  }

  lemma WipeStage(s: Pair, side: Side, t: Pair)
    requires t.m == s.m.With(side, t.m.Side(side)).(funds := t.m.funds)
    requires WipedBook(s.p, side, s.m.Side(side), s.m.Side(side), t.m.Side(side))
    ensures Stage(s.m, t.m)
  {
    StageSame(s.m, t.m);
    hide Stage;
  }

  lemma InvMoney(rest: seq<PositionV>, s: Pair)
    requires Inv(rest, s)
    ensures FundsOk(rest, s.p, s.m.funds) && Vamm.OnCurve(s.m.amm)
  {
  }

  lemma OnSideFrame(p: PositionV, side: Side, close: int, b: Book, c: Book)
    requires OnSide(p, side, b) && LiquidatedBook(b, close, c)
    ensures OnSide(p, side, c)
  {
  }

  lemma WipedAcc(p: PositionV, side: Side, b: Book, c1: Book, close: int, c: Book)
    requires LiquidatedBook(b, close, c1) && WipedBook(p, side, b, c1, c)
    ensures c.acc == b.acc
  {
  }

  lemma WipedAfter(p: PositionV, side: Side, b: Book, c1: Book, close: int, c: Book)
    requires LiquidatedBook(b, close, c1) && WipedBook(p, side, c1, c1, c)
    ensures WipedBook(p, side, b, c1, c)
  {
  }

  lemma LiquidatedReward(side: Side, rest: seq<PositionV>, s: Pair, t: Pair)
    requires Inv(rest, s) && Current(s.p, s.m) && Holds(s.p, side) && Gone(t.p)
    requires t.m.Side(side).acc == s.m.Side(side).acc && t.m.history.Paid(side) == s.m.history.Paid(side)
    requires t.m.history.Distributed(side) == s.m.history.Distributed(side)
    ensures RewardOk(side, rest, t.p, t.m.Side(side), t.m.history)
  {
    assert SideOk(side, rest, s);
    CurrentOnSide(rest, s, side);
    GoneMeasures(t.p, side, 0, s.m.Side(side).acc);
    hide Of;
  }

  /** No account of the side is ahead of its epoch. */
  ghost predicate Behind(side: Side, rest: seq<PositionV>, p: PositionV, epoch: int) {
    (forall q :: q in rest && Holds(q, side) ==> q.epochSnap <= epoch) && (Holds(p, side) ==> p.epochSnap <= epoch)
  }

  lemma AllBehind(side: Side, rest: seq<PositionV>, s: Pair)
    requires AllOk(rest, s.m) && AccountOk(s.p, s.m)
    ensures Behind(side, rest, s.p, s.m.Side(side).epoch)
  {
  }

  /** A side after a reset that has already been finalised. */
  ghost predicate RestartedBook(b: Book, c: Book) {
    && c.epoch == b.epoch + 1 && c.a == ADL_ONE && c.oi == 0 && c.mode == Normal
    && c == b.(epoch := c.epoch, a := c.a, oi := 0, mode := Normal, stale := b.stored, dust := 0, pending := c.pending,
               epochStartK := b.k)
  }

  /** A restarted side has recorded one reset. */
  lemma RestartEvolves(b: Book, c: Book)
    requires b.a > 0 && RestartedBook(b, c)
    ensures Evolves(b, c, Quiet)
  {
    var drained := b.(oi := 0);
    var reset := ResetBook(drained).value;
    EvolvesOnce(b, Entry(drained, Wound, reset), c, Quiet);
    hide Evolves;
  }

  lemma ResetOrKeptEvolves(b: Book, c: Book)
    requires b.a > 0 && ResetOrKept(b, c)
    ensures Evolves(b, c, Quiet)
  {
    if c == b {
      EvolvesSame(b, c, Quiet);
    } else {
      RestartEvolves(b, c);
    }
    hide Evolves;
  }

  lemma FinalizedEvolves(b: Book, c: Book)
    requires b.a > 0 && FinalizedBook(b, c)
    ensures Evolves(b, c, Quiet)
  {
    if RestartedBook(b, c) {
      RestartEvolves(b, c);
    } else {
      EvolvesSame(b, c, Quiet);
    }
    hide Evolves;
  }

  lemma AfterResetsStage(m: MarketV, n: MarketV)
    requires m.long.a > 0 && m.short.a > 0 && AfterResets(m, n)
    ensures Stage(m, n)
  {
    hide Evolves;
    hide ResetOrKept;
    ResetOrKeptEvolves(m.long, n.long);
    ResetOrKeptEvolves(m.short, n.short);
  }

  lemma FinalizedStage(m: MarketV, n: MarketV)
    requires m.long.a > 0 && m.short.a > 0 && FinalizedBook(m.long, n.long) && FinalizedBook(m.short, n.short)
    requires n.funds == m.funds
    ensures Stage(m, n)
  {
    hide Evolves;
    hide FinalizedBook;
    FinalizedEvolves(m.long, n.long);
    FinalizedEvolves(m.short, n.short);
  }

  lemma RestartKeeps(side: Side, rest: seq<PositionV>, p: PositionV, b: Book, c: Book)
    requires Counted(side, rest, p, b) && Behind(side, rest, p, b.epoch) && RestartedBook(b, c)
    ensures BookOk(side, rest, p, c) && BookAdvances(b, c)
  {
    AllStale(side, c.epoch, rest);
    assert Weight(side, c.epoch, p) == 0.0;
    assert Of(StaleOn(side, c.epoch), p) == Of(StoredOn(side), p);
  }

  /** A side that is untouched, or drained and restarted. */
  ghost predicate ResetOrKept(b: Book, c: Book) {
    c == b || RestartedBook(b, c)
  }

  lemma ResetOrKeptKeeps(side: Side, rest: seq<PositionV>, p: PositionV, b: Book, c: Book, h: History)
    requires BookOk(side, rest, p, b) && RewardOk(side, rest, p, b, h) && Behind(side, rest, p, b.epoch)
    requires ResetOrKept(b, c)
    ensures BookOk(side, rest, p, c) && RewardOk(side, rest, p, c, h) && BookAdvances(b, c)
  {
    if c != b {
      RestartKeeps(side, rest, p, b, c);
    }
    hide BookOk;
  }

  // ---------------------------------------------------------------------------
  // Phantom dust
  // ---------------------------------------------------------------------------

  /** Where a reset may leave the market: each side as it was or restarted, the curve as it was or re-balanced. */
  ghost predicate AfterResets(m: MarketV, n: MarketV) {
    && ResetOrKept(m.long, n.long) && ResetOrKept(m.short, n.short)
    && n == m.(long := n.long, short := n.short, amm := n.amm)
    && (Vamm.OnCurve(m.amm) ==> Vamm.OnCurve(n.amm) && n.amm.k == m.amm.k)
  }

  lemma AfterResetsKeeps(rest: seq<PositionV>, s: Pair, n: MarketV)
    requires Inv(rest, s) && AfterResets(s.m, n)
    ensures Inv(rest, s.(m := n)) && n.amm.k == s.m.amm.k
  {
    AllBehind(Long, rest, s);
    AllBehind(Short, rest, s);
    SideParts(Long, rest, s);
    SideParts(Short, rest, s);
    ResetOrKeptKeeps(Long, rest, s.p, s.m.long, n.long, s.m.history);
    ResetOrKeptKeeps(Short, rest, s.p, s.m.short, n.short, s.m.history);
    hide BookOk;
    hide RewardOk;
    hide Vamm.OnCurve;
    hide ResetOrKept;
    hide Behind;
    SideWhole(Long, rest, s.(m := n));
    SideWhole(Short, rest, s.(m := n));
    hide SideOk;
    hide FundsOk;
    Assemble(rest, s, Long, s.(m := n));
  }

  lemma BeginResetForm(m: MarketV, side: Side, n: MarketV)
    requires BeginReset(m, side) == Done(n)
    ensures n == m.With(side, n.Side(side)).(amm := n.amm)
    ensures RestartedBook(m.Side(side), FinalizeBook(n.Side(side))) && n.Side(side).pending == m.Side(side).pending
    ensures n.Side(side).mode == ResetPending && n.Side(side).oi == 0
    ensures Vamm.OnCurve(m.amm) ==> Vamm.OnCurve(n.amm) && n.amm.k == m.amm.k
  {
    if Vamm.OnCurve(m.amm) {
      Vamm.NormalizeKeepsCurve(m.amm);
    }
    hide Vamm.Normalize;
  }

  lemma RestartedDrop(b: Book, c: Book)
    requires RestartedBook(b.(oi := 0), c)
    ensures RestartedBook(b, c)
  {
  }

  lemma RestartedPending(b: Book, c: Book)
    requires RestartedBook(b.(pending := false), c)
    ensures RestartedBook(b, c)
  {
  }

  lemma KeptByFinalize(b: Book)
    requires b.mode != ResetPending
    ensures FinalizeBook(b) == b
  {
  }

  ghost predicate Running(m: MarketV) {
    m.long.mode != ResetPending && m.short.mode != ResetPending
  }

  lemma CheckDustForm(m: MarketV, side: Side, n: MarketV)
    requires Running(m) && CheckDust(m, side) == Done(n)
    ensures AfterResets(m, n)
    ensures n.long.pending == m.long.pending && n.short.pending == m.short.pending
  {
    hide Vamm.OnCurve;
    hide ResetBook;
    hide BeginReset;
    var opp, b := side.Opposite(), m.Side(side);
    if b.oi == 0 && b.mode == DrainOnly {
      var m1 := BeginReset(m, side).value;
      BeginResetForm(m, side, m1);
      KeptByFinalize(m.Side(opp));
    } else if b.oi != 0 && b.stored == 0 && b.oi <= b.dust {
      var d := DropOi(m, side);
      var m1 := BeginReset(d, side).value;
      BeginResetForm(d, side, m1);
      RestartedDrop(b, FinalizeBook(m1.Side(side)));
      var ob := m1.Side(opp);
      assert ob == m.Side(opp);
      if ob.stored == 0 && ob.oi <= ob.dust {
        var d1 := DropOi(m1, opp);
        var m2 := BeginReset(d1, opp).value;
        BeginResetForm(d1, opp, m2);
        RestartedDrop(ob, FinalizeBook(m2.Side(opp)));
      } else {
        KeptByFinalize(ob);
      }
    } else {
      KeptByFinalize(b);
    }
  }

  lemma CheckDustKeeps(rest: seq<PositionV>, s: Pair, side: Side, t: Pair)
    requires Inv(rest, s) && CheckSide(s, side) == Done(t)
    ensures Inv(rest, t) && t.p == s.p && t.m.amm.k == s.m.amm.k && Stage(s.m, t.m)
    ensures t.m == s.m.(long := t.m.long, short := t.m.short, amm := t.m.amm)
  {
    assert Running(s.m) && s.m.long.a > 0 && s.m.short.a > 0 by {
      SideParts(Long, rest, s);
      SideParts(Short, rest, s);
    }
    hide CheckDust;
    hide Inv;
    hide Stage;
    CheckDustForm(s.m, side, t.m);
    AfterResetsKeeps(rest, s, t.m);
    AfterResetsStage(s.m, t.m);
  }

  /** A side without stored positions holds only dust: its open interest is within the bound. */
  lemma EmptySideIsDust(rest: seq<PositionV>, s: Pair, side: Side)
    requires Inv(rest, s) && s.m.Side(side).stored == 0
    ensures s.m.Side(side).oi <= s.m.Side(side).dust
  {
    SideParts(side, rest, s);
    NothingOwned(side, rest, s.p, s.m.Side(side));
    hide Owned;
  }

  /** So the dust check always clears such a side. */
  lemma EmptySideIsCleared(rest: seq<PositionV>, s: Pair, side: Side, t: Pair)
    requires Inv(rest, s) && s.m.Side(side).stored == 0
    requires CheckSide(s, side) == Done(t)
    ensures t.m.Side(side).oi == 0
  {
    EmptySideIsDust(rest, s, side);
    SideParts(Long, rest, s);
    SideParts(Short, rest, s);
    hide CheckDust;
    hide Inv;
    hide Vamm.OnCurve;
    CheckDustForm(s.m, side, t.m);
    ClearedForm(s.m, side, t.m);
  }

  /** Clearing a side that still had open interest clears the other one with it, if no position is left there either. */
  lemma ClearedForm(m: MarketV, side: Side, n: MarketV)
    requires Running(m) && CheckDust(m, side) == Done(n)
    requires m.Side(side).stored == 0 && m.Side(side).oi <= m.Side(side).dust
    ensures n.Side(side).oi == 0
    ensures m.Side(side).oi > 0 ==> n.Side(side).epoch == m.Side(side).epoch + 1
    ensures var opp := side.Opposite();
            m.Side(side).oi > 0 && m.Side(opp).stored == 0 && m.Side(opp).oi <= m.Side(opp).dust ==>
              n.Side(opp).oi == 0 && n.Side(opp).epoch == m.Side(opp).epoch + 1
  {
    hide Vamm.Normalize;
  }

  // ---------------------------------------------------------------------------
  // Deferred resets
  // ---------------------------------------------------------------------------

  ghost predicate FinalizedBook(b: Book, c: Book) {
    && !c.pending
    && (RestartedBook(b, c) || (c == b.(pending := false) && (b.pending ==> b.oi != 0)))
  }

  lemma FinalizedKeeps(side: Side, rest: seq<PositionV>, p: PositionV, b: Book, c: Book, h: History)
    requires BookOk(side, rest, p, b) && RewardOk(side, rest, p, b, h) && Behind(side, rest, p, b.epoch)
    requires FinalizedBook(b, c)
    ensures BookOk(side, rest, p, c) && RewardOk(side, rest, p, c, h) && BookAdvances(b, c)
  {
    if RestartedBook(b, c) {
      RestartKeeps(side, rest, p, b, c);
    } else {
      SameShares(side, rest, p, b, c);
    }
    hide Share;
    hide RestShare;
  }

  lemma ClearPendingForm(m: MarketV, side: Side, n: MarketV)
    requires m.Side(side).mode != ResetPending && ClearPending(m, side) == Done(n)
    ensures n == m.With(side, n.Side(side)).(amm := n.amm)
    ensures FinalizedBook(m.Side(side), FinalizeBook(n.Side(side)))
    ensures Vamm.OnCurve(m.amm) ==> Vamm.OnCurve(n.amm) && n.amm.k == m.amm.k
  {
    hide Vamm.OnCurve;
    hide BeginReset;
    var b := m.Side(side);
    if b.pending {
      var m1 := m.With(side, b.(pending := false));
      if b.oi == 0 {
        BeginResetForm(m1, side, n);
        RestartedPending(b, FinalizeBook(n.Side(side)));
      }
    }
  }

  lemma FinalizePendingForm(m: MarketV, n: MarketV)
    requires Running(m) && FinalizePending(m) == Done(n)
    ensures n == m.(long := n.long, short := n.short, amm := n.amm)
    ensures FinalizedBook(m.long, n.long) && FinalizedBook(m.short, n.short)
    ensures Vamm.OnCurve(m.amm) ==> Vamm.OnCurve(n.amm) && n.amm.k == m.amm.k
  {
    hide Vamm.OnCurve;
    hide ClearPending;
    var m1 := ClearPending(m, Long).value;
    ClearPendingForm(m, Long, m1);
    var m2 := ClearPending(m1, Short).value;
    ClearPendingForm(m1, Short, m2);
    hide FinalizedBook;
  }

  lemma FinalizeKeeps(rest: seq<PositionV>, s: Pair, t: Pair)
    requires Inv(rest, s) && Finalize(s) == Done(t)
    ensures Inv(rest, t) && AtRest(t.m) && t.p == s.p && t.m.amm.k == s.m.amm.k && Stage(s.m, t.m)
    ensures t.m == s.m.(long := t.m.long, short := t.m.short, amm := t.m.amm)
  {
    SideParts(Long, rest, s);
    SideParts(Short, rest, s);
    AllBehind(Long, rest, s);
    AllBehind(Short, rest, s);
    FinalizePendingForm(s.m, t.m);
    FinalizedStage(s.m, t.m);
    hide Stage;
    FinalizedKeeps(Long, rest, s.p, s.m.long, t.m.long, s.m.history);
    FinalizedKeeps(Short, rest, s.p, s.m.short, t.m.short, s.m.history);
    hide FinalizePending;
    hide BookOk;
    hide RewardOk;
    hide Vamm.OnCurve;
    hide Behind;
    SideWhole(Long, rest, t);
    SideWhole(Short, rest, t);
    hide SideOk;
    hide FundsOk;
    Assemble(rest, s, Long, t);
  }

  lemma SidesRun(rest: seq<PositionV>, s: Pair)
    requires Inv(rest, s)
    ensures Running(s.m)
  {
    SideParts(Long, rest, s);
    SideParts(Short, rest, s);
  }

  lemma CheckRuns(m: MarketV, side: Side, n: MarketV)
    requires Running(m) && CheckDust(m, side) == Done(n)
    ensures Running(n)
  {
    CheckDustForm(m, side, n);
    hide CheckDust;
    hide Vamm.OnCurve;
  }

  /** With no reset due and none under way, finalizing changes nothing. */
  lemma FinalizeAtRest(m: MarketV, n: MarketV)
    requires AtRest(m) && Running(m) && FinalizePending(m) == Done(n)
    ensures n == m
  {
  }
}
