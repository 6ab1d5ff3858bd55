/**
 Profit conversion is fair whatever its order: it costs the converting account
 nothing it could count on, never lowers the share of those who come later,
 and never pays out more than the vault has left over.
 */
module Haircut {
  import opened Numbers
  import opened State
  import opened Risk
  import opened Invariants
  import opened AccountSteps
  import opened Runs

  // ---------------------------------------------------------------------------
  // One conversion
  // ---------------------------------------------------------------------------

  /** What the haircut leaves of a released profit: the part of it that the residual covers of the matured total. */
  function HaircutShare(f: Funds, released: nat): nat {
    if f.matured == 0 then released
    else
      ShareNonNegative(released, Min(Residual(f), f.matured), f.matured);
      (released * Min(Residual(f), f.matured)) / f.matured
  }

  lemma ShareNonNegative(x: nat, num: nat, den: nat)
    requires den > 0
    ensures 0 <= x * num && 0 <= (x * num) / den
  {
    MulPos(x, num);
    DivAtLeast(x * num, den, 0);
  }

  /** The account is paid exactly its haircut share; the matured total falls by all of its released profit. */
  lemma ConversionPays(rest: seq<PositionV>, s: Pair, t: Pair)
    requires Inv(rest, s) && ConvertProfit(s) == Done(t)
    ensures ReleasedPos(t.p) == 0 && t.p.feeCredits == s.p.feeCredits
    ensures t.p.collateral == s.p.collateral + HaircutShare(s.m.funds, ReleasedPos(s.p))
    ensures t.p.pnl == s.p.pnl - ReleasedPos(s.p) && t.p.reserved == s.p.reserved
    ensures t.m == s.m.(funds := s.m.funds.(cTot := t.m.funds.cTot, pnlPos := t.m.funds.pnlPos,
            matured := t.m.funds.matured))
    ensures t.m.funds.cTot == s.m.funds.cTot + HaircutShare(s.m.funds, ReleasedPos(s.p))
    ensures t.m.funds.matured == s.m.funds.matured - ReleasedPos(s.p)
  {
    InvShape(rest, s);
    hide Inv;
    hide Residual;
    NothingToShare(s.m.funds);
  }

  lemma NothingToShare(f: Funds)
    ensures HaircutShare(f, 0) == 0
  {
    if f.matured > 0 {
      DivUnique(0, f.matured, 0);
    }
  }

  /** Converting leaves the account's initial-margin equity exactly where it was. */
  lemma EquityUnchanged(rest: seq<PositionV>, s: Pair, t: Pair)
    requires Inv(rest, s) && ConvertProfit(s) == Done(t)
    ensures EquityInitRaw(s.m.funds, s.p).Done? && EquityInitRaw(t.m.funds, t.p) == EquityInitRaw(s.m.funds, s.p)
  {
    ConversionPays(rest, s, t);
    var x := ReleasedPos(s.p);
    MaturedIsShare(s);
    NothingToShare(t.m.funds);
    assert EffectiveMatured(t.m.funds, t.p) == Done(0);
    PositiveWhenReleased(s.p);
    hide ConvertProfit;
    hide HaircutShare;
    hide EffectiveMatured;
    hide Inv;
    hide ReleasedPos;
  }

  lemma PositiveWhenReleased(p: PositionV)
    ensures ReleasedPos(p) > 0 ==> p.pnl >= ReleasedPos(p)
  {
  }

  lemma MaturedIsShare(s: Pair)
    requires ConvertProfit(s).Done?
    ensures EffectiveMatured(s.m.funds, s.p) == Done(HaircutShare(s.m.funds, ReleasedPos(s.p)))
  {
    NothingToShare(s.m.funds);
    hide ReleasedPos;
    hide Residual;
    hide ConsumeReleased;
    hide SetCapital;
  }

  // ---------------------------------------------------------------------------
  // The ratio for the others
  // ---------------------------------------------------------------------------

  /** A claim on `x` of `matured` against `residual`. */
  lemma RatioKept(residual: nat, matured: nat, x: nat, paid: nat)
    requires 0 < matured && x <= matured && paid == (x * Min(residual, matured)) / matured
    ensures 0 <= paid <= residual
    ensures (residual - paid) * matured >= residual * (matured - x)
  {
    var num := Min(residual, matured);
    ShareBound(x, num, matured);
    ShareNonNegative(x, num, matured);
    DivMod(x * num, matured);
    assert paid * matured <= x * num;
    MulMono(num, residual, x);
    assert (residual - paid) * matured == residual * matured - paid * matured;
    assert residual * (matured - x) == residual * matured - x * residual;
  }

  lemma ResidualAfter(rest: seq<PositionV>, s: Pair, t: Pair)
    requires Inv(rest, s) && ConvertProfit(s) == Done(t)
    ensures HaircutShare(s.m.funds, ReleasedPos(s.p)) <= Residual(s.m.funds)
    ensures Residual(t.m.funds) == Residual(s.m.funds) - HaircutShare(s.m.funds, ReleasedPos(s.p))
    ensures ReleasedPos(s.p) <= s.m.funds.matured
  {
    ConversionPays(rest, s, t);
    NothingToShare(s.m.funds);
    RestBounds(rest, s.m);
    assert ReleasedPos(s.p) <= s.m.funds.matured;
    if s.m.funds.matured > 0 {
      RatioKept(Residual(s.m.funds), s.m.funds.matured, ReleasedPos(s.p), HaircutShare(s.m.funds, ReleasedPos(s.p)));
    }
    ResidualIsCushion(s.m.funds);
    ResidualIsCushion(t.m.funds);
    hide Inv;
    hide ConvertProfit;
    hide Residual;
    hide HaircutShare;
  }

  /** What is left per unit of matured profit never falls. */
  lemma RatioNeverFalls(rest: seq<PositionV>, s: Pair, t: Pair)
    requires Inv(rest, s) && ConvertProfit(s) == Done(t)
    ensures Residual(t.m.funds) * s.m.funds.matured >= Residual(s.m.funds) * t.m.funds.matured
  {
    ConversionPays(rest, s, t);
    ResidualAfter(rest, s, t);
    var f := s.m.funds;
    if f.matured > 0 {
      RatioKept(Residual(f), f.matured, ReleasedPos(s.p), HaircutShare(f, ReleasedPos(s.p)));
    }
    hide Inv;
    hide ConvertProfit;
    hide Residual;
    hide ReleasedPos;
  }

  /** With a ratio that has not fallen, no claim is worth less than before. */
  lemma ShareKept(residual: nat, matured: nat, residual': nat, matured': nat, x: nat)
    requires 0 < matured' && 0 < matured && residual' * matured >= residual * matured'
    ensures (x * Min(residual', matured')) / matured' >= (x * Min(residual, matured)) / matured
  {
    var num, num' := Min(residual, matured), Min(residual', matured');
    assert num' * matured >= num * matured' by {
      MulMono(num, residual, matured');
      MulMono(num, matured, matured');
    }
    var q := (x * num) / matured;
    DivMod(x * num, matured);
    // q * matured' <= x * num'
    MulMono(num * matured', num' * matured, x);
    CrossShare(x, num, num', matured, matured', q);
    DivAtLeast(x * num', matured', q);
  }

  lemma CrossShare(x: nat, num: nat, num': nat, m: nat, m': nat, q: int)
    requires 0 < m && q * m <= x * num && x * (num * m') <= x * (num' * m)
    ensures q * m' <= x * num'
  {
    MulMono(q * m, x * num, m');
    assert (q * m) * m' == (q * m') * m;
    assert (x * num) * m' == x * (num * m');
    assert x * (num' * m) == (x * num') * m;
    if q * m' > x * num' {
      MulMono(x * num' + 1, q * m', m);
    }
  }

  lemma OthersShare(rest: seq<PositionV>, s: Pair, t: Pair, x: nat)
    requires Inv(rest, s) && ConvertProfit(s) == Done(t) && x <= t.m.funds.matured
    ensures HaircutShare(t.m.funds, x) >= HaircutShare(s.m.funds, x)
  {
    ConversionPays(rest, s, t);
    RatioNeverFalls(rest, s, t);
    NothingToShare(s.m.funds);
    NothingToShare(t.m.funds);
    if x > 0 {
      ShareKept(Residual(s.m.funds), s.m.funds.matured, Residual(t.m.funds), t.m.funds.matured, x);
    }
    hide Inv;
    hide ConvertProfit;
    hide Residual;
  }

  // ---------------------------------------------------------------------------
  // Any order of conversions
  // ---------------------------------------------------------------------------

  /** One account after another converts its released profit. */
  function ConvertAll(w: World, order: seq<nat>): Outcome<World>
    requires forall i :: i in order ==> i < |w.accounts|
    decreases |order|
  {
    if order == [] then Done(w)
    else
      assert order[0] in order;
      var t :- ConvertProfit(Pair(w.accounts[order[0]], w.m));
      var v := World(t.m, w.accounts[order[0] := t.p]);
      assert forall i :: i in order[1..] ==> i in order;
      ConvertAll(v, order[1..])
  }

  lemma ConvertStep(w: World, i: nat, t: Pair)
    requires Inv(w.accounts, Pair(NOBODY, w.m)) && i < |w.accounts|
    requires ConvertProfit(Pair(w.accounts[i], w.m)) == Done(t)
    ensures Inv(Without(w.accounts, i), Pair(w.accounts[i], w.m))
    ensures Inv(w.accounts[i := t.p], Pair(NOBODY, t.m))
  {
    SingleOut(w.accounts, i, w.m);
    ConvertKeeps(Without(w.accounts, i), Pair(w.accounts[i], w.m), t);
    AfterKeeps(w.accounts, i, t, false);
    hide Inv;
    hide Without;
    hide ConvertProfit;
  }

  /** The released profit of every account is part of the matured total. */
  lemma ReleasedWithinMatured(accounts: seq<PositionV>, m: MarketV, i: nat)
    requires Inv(accounts, Pair(NOBODY, m)) && i < |accounts|
    ensures ReleasedPos(accounts[i]) <= m.funds.matured
  {
    SingleOut(accounts, i, m);
    RestBounds(Without(accounts, i), m);
    hide Without;
  }

  /**
   Whatever the order, everyone who converts gets at least the share the opening ratio promised,
   nobody loses collateral, and all payments together fit into the opening residual.
   */
  lemma {:induction false} ConvertInAnyOrder(w: World, order: seq<nat>, w': World)
    requires Inv(w.accounts, Pair(NOBODY, w.m))
    requires forall i :: i in order ==> i < |w.accounts|
    requires ConvertAll(w, order) == Done(w')
    ensures |w'.accounts| == |w.accounts|
    ensures forall i :: 0 <= i < |w.accounts| ==> w'.accounts[i].collateral >= w.accounts[i].collateral
    ensures forall i :: i in order ==>
              w'.accounts[i].collateral
              >= w.accounts[i].collateral + HaircutShare(w.m.funds, ReleasedPos(w.accounts[i]))
    ensures w'.m.funds.cTot - w.m.funds.cTot == Residual(w.m.funds) - Residual(w'.m.funds) >= 0
    decreases |order|
  {
    hide Inv;
    hide Residual;
    hide HaircutShare;
    hide ReleasedPos;
    hide ConvertProfit;
    hide Without;
    if order != [] {
      var j := order[0];
      assert j in order;
      var s := Pair(w.accounts[j], w.m);
      var t := ConvertProfit(s).value;
      var v := World(t.m, w.accounts[j := t.p]);
      ConvertStep(w, j, t);
      ConversionPays(Without(w.accounts, j), s, t);
      ResidualAfter(Without(w.accounts, j), s, t);
      assert forall i :: i in order[1..] ==> i in order;
      ConvertInAnyOrder(v, order[1..], w');
      forall i | i in order
        ensures w'.accounts[i].collateral
             >= w.accounts[i].collateral + HaircutShare(w.m.funds, ReleasedPos(w.accounts[i]))
      {
        if i != j {
          assert i in order[1..];
          ReleasedWithinMatured(v.accounts, v.m, i);
          OthersShare(Without(w.accounts, j), s, t, ReleasedPos(w.accounts[i]));
        }
      }
    }
  }

  /** The payments of any order of conversions never exceed the opening residual. */
  lemma TotalPaidWithinResidual(w: World, order: seq<nat>, w': World)
    requires WorldOk(w) && (forall i :: i in order ==> i < |w.accounts|)
    requires ConvertAll(w, order) == Done(w')
    ensures Sum(Collateral, w'.accounts) - Sum(Collateral, w.accounts) <= Residual(w.m.funds)
  {
    ConvertInAnyOrder(w, order, w');
    ConvertAllKeeps(w, order, w');
    InvCTot(w);
    InvCTot(w');
    hide *;
    assert Residual(w'.m.funds) >= 0;
  }

  lemma InvCTot(w: World)
    requires Inv(w.accounts, Pair(NOBODY, w.m))
    ensures w.m.funds.cTot == Sum(Collateral, w.accounts)
  {
  }

  lemma {:induction false} ConvertAllKeeps(w: World, order: seq<nat>, w': World)
    requires Inv(w.accounts, Pair(NOBODY, w.m)) && (forall i :: i in order ==> i < |w.accounts|)
    requires ConvertAll(w, order) == Done(w')
    ensures Inv(w'.accounts, Pair(NOBODY, w'.m))
    decreases |order|
  {
    hide Inv;
    hide ConvertProfit;
    hide Without;
    if order != [] {
      var j := order[0];
      assert j in order;
      var t := ConvertProfit(Pair(w.accounts[j], w.m)).value;
      ConvertStep(w, j, t);
      assert forall i :: i in order[1..] ==> i in order;
      ConvertAllKeeps(World(t.m, w.accounts[j := t.p]), order[1..], w');
    }
  }
}
