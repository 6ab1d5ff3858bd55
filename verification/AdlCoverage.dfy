/**
 A deficit that the insurance fund does not pay is charged to the accounts of
 the opposite side by lowering its PnL index.  The first part is about that
 index: the losses that lowering it means for the holders add up to the share of
 the deficit that falls on the size they own, short of it by less than one unit
 for each account that had not just been settled, and above it by rounding only.

 The second part is about what the holders settle once the liquidation is over.
 The handler may reset the side after lowering its index.  One reset lets them
 settle up to the lowered index; but a drain-only side that the liquidation
 empties is reset twice, and then they settle nothing: neither their share of the
 deficit nor anything else since they last settled.
 */
module AdlCoverage {
  import opened Numbers
  import opened State
  import opened Risk
  import opened Invariants
  import opened PositionSteps
  import opened AdlSteps
  import opened InstructionSteps
  import opened Handlers
  import opened LazyIndex
  import opened AccountSteps
  import Vamm
  import Traces

  /** What an account would settle at index `k`. */
  function SettledAt(side: Side, epoch: int, p: PositionV, k: int): int {
    if Holds(p, side) && p.epochSnap == epoch && p.aSnap > 0 then UnitsTo(p, k) else 0
  }

  /** The loss that lowering the index from `k` to `k - shift` means for one account. */
  function Loss(side: Side, b: Book, p: PositionV, shift: nat): int {
    SettledAt(side, b.epoch, p, b.k) - SettledAt(side, b.epoch, p, b.k - shift)
  }

  function SumLoss(side: Side, b: Book, accounts: seq<PositionV>, shift: nat): int {
    if accounts == [] then 0 else Loss(side, b, accounts[0], shift) + SumLoss(side, b, accounts[1..], shift)
  }

  predicate OnBook(side: Side, b: Book, p: PositionV) {
    Holds(p, side) && p.epochSnap == b.epoch
  }

  /** Accounts with a position of the current epoch. */
  function Holders(side: Side, b: Book, accounts: seq<PositionV>): nat {
    if accounts == [] then 0 else (if OnBook(side, b, accounts[0]) then 1 else 0) + Holders(side, b, accounts[1..])
  }

  /** Those of them that have not settled at the current index. */
  function Unsettled(side: Side, b: Book, accounts: seq<PositionV>): nat {
    if accounts == [] then 0
    else (if OnBook(side, b, accounts[0]) && accounts[0].kSnap != b.k then 1 else 0) + Unsettled(side, b, accounts[1..])
  }

  // ---------------------------------------------------------------------------
  // One account
  // ---------------------------------------------------------------------------

  /** The exact loss: weight times shift, in quote units. */
  ghost function ExactLoss(weight: real, shift: nat): real {
    weight * (shift as real) / (POS_SCALE as real)
  }

  lemma GainSplit(basis: nat, from: int, k: int, shift: nat, snap: nat)
    requires snap > 0
    ensures Profit(basis, from, k, snap) - Profit(basis, from, k - shift, snap)
         == ExactLoss((basis as real) / (snap as real), shift)
  {
    var w := (basis as real) / (snap as real);
    assert w * ((k - from) as real) - w * ((k - shift - from) as real) == w * (shift as real);
    DivideDifference(w * ((k - from) as real), w * ((k - shift - from) as real), POS_SCALE as real);
  }

  lemma DivideDifference(x: real, y: real, z: real)
    requires z > 0.0
    ensures x / z - y / z == (x - y) / z
  {
  }

  lemma NoGain(basis: nat, k: int, snap: nat)
    requires snap > 0
    ensures Profit(basis, k, k, snap) == 0.0
    ensures (basis * (k - k)) / (snap * POS_SCALE) == 0
  {
    DivUnique(0, snap * POS_SCALE, 0);
  }

  /** One account loses its exact share up to one unit; nothing less if it had just been settled. */
  lemma OneLoss(side: Side, b: Book, p: PositionV, shift: nat)
    ensures var exact := ExactLoss(Weight(side, b.epoch, p), shift);
            && exact - 1.0 <= Loss(side, b, p, shift) as real <= exact + 1.0
            && (p.kSnap == b.k ==> Loss(side, b, p, shift) as real >= exact)
  {
    if Holds(p, side) && p.epochSnap == b.epoch && p.aSnap > 0 {
      var basis := Abs(p.basis);
      FloorOfGain(basis, p.kSnap, b.k, p.aSnap, SettledAt(side, b.epoch, p, b.k));
      FloorOfGain(basis, p.kSnap, b.k - shift, p.aSnap, SettledAt(side, b.epoch, p, b.k - shift));
      GainSplit(basis, p.kSnap, b.k, shift, p.aSnap);
      NoGain(basis, b.k, p.aSnap);
      assert Weight(side, b.epoch, p) == (basis as real) / (p.aSnap as real);
      hide Profit;
      hide ExactLoss;
    }
  }

  /** The fraction of a unit that settling at index `k` leaves out, in parts of `aSnap * POS_SCALE`. */
  function Fraction(p: PositionV, k: int): nat
    requires p.aSnap > 0
  {
    (Abs(p.basis) * (k - p.kSnap)) % (p.aSnap * POS_SCALE)
  }

  /**
   The loss exactly: the account falls short of its share if and only if the charge leaves out less of a
   unit than before.
   */
  lemma LossExactly(side: Side, b: Book, p: PositionV, shift: nat)
    requires OnBook(side, b, p) && p.aSnap > 0
    ensures Loss(side, b, p, shift) * (p.aSnap * POS_SCALE)
         == Abs(p.basis) * shift + Fraction(p, b.k - shift) - Fraction(p, b.k)
    ensures Loss(side, b, p, shift) * (p.aSnap * POS_SCALE) < Abs(p.basis) * shift
       <==> Fraction(p, b.k - shift) < Fraction(p, b.k)
  {
    var basis, den := Abs(p.basis), p.aSnap * POS_SCALE;
    var x, y := basis * (b.k - p.kSnap), basis * (b.k - shift - p.kSnap);
    Split(basis, b.k - p.kSnap, shift);
    DivMod(x, den);
    DivMod(y, den);
    Difference(x / den, y / den, den);
    hide Abs;
  }

  lemma Split(basis: int, gap: int, shift: int)
    ensures basis * gap - basis * (gap - shift) == basis * shift
  {
  }

  lemma Difference(x: int, y: int, d: int)
    ensures (x - y) * d == x * d - y * d
  {
  }

  // ---------------------------------------------------------------------------
  // All accounts
  // ---------------------------------------------------------------------------

  lemma ExactAdds(x: real, y: real, shift: nat)
    ensures ExactLoss(x + y, shift) == ExactLoss(x, shift) + ExactLoss(y, shift)
    ensures ExactLoss(0.0, shift) == 0.0
  {
    assert (x + y) * (shift as real) == x * (shift as real) + y * (shift as real);
  }

  lemma {:induction false} LossesOfAll(side: Side, b: Book, accounts: seq<PositionV>, shift: nat)
    ensures var exact := ExactLoss(SumWeight(side, b.epoch, accounts), shift);
            exact - (Unsettled(side, b, accounts) as real) <= SumLoss(side, b, accounts, shift) as real
            <= exact + (Holders(side, b, accounts) as real)
  {
    hide ExactLoss;
    hide Loss;
    ExactAdds(0.0, 0.0, shift);
    if accounts != [] {
      var p, others := accounts[0], accounts[1..];
      LossesOfAll(side, b, others, shift);
      OneLoss(side, b, p, shift);
      ExactAdds(Weight(side, b.epoch, p), SumWeight(side, b.epoch, others), shift);
      NotOnSide(side, b, p, shift);
    }
  }

  lemma NotOnSide(side: Side, b: Book, p: PositionV, shift: nat)
    ensures OnBook(side, b, p)
         || (Loss(side, b, p, shift) == 0 && ExactLoss(Weight(side, b.epoch, p), shift) == 0.0)
  {
  }

  // ---------------------------------------------------------------------------
  // The charged deficit
  // ---------------------------------------------------------------------------

  /** Whether the index can take the charge. */
  predicate Representable(b: Book, deficit: u128)
    requires b.oi > 0
  {
    MulPos(deficit, b.a * POS_SCALE);
    0 < CeilDiv(deficit * (b.a * POS_SCALE), b.oi) <= Min(I128_MAX, b.k + TWO127)
  }

  /** The deficit is charged exactly when the shift is representable; otherwise the side is left as it was. */
  lemma ChargedExactly(b: Book, deficit: u128, c: Book)
    requires b.oi > 0 && ChargeDeficit(b, deficit) == Done(c)
    ensures c == b.(k := if Representable(b, deficit)
                         then b.k - CeilDiv(deficit * (b.a * POS_SCALE), b.oi) else b.k)
  {
    MulPos(deficit, b.a * POS_SCALE);
    CeilPositive(deficit * (b.a * POS_SCALE), b.oi);
    if deficit == 0 {
      DivUnique(0, b.oi, 0);
    }
    hide CeilDiv;
  }

  lemma ExactAtLeast(w: real, a: real, shift: real, oi: real, d: real, scale: real)
    requires w >= 0.0 && scale > 0.0 && shift * oi >= d * (a * scale)
    ensures (w * shift / scale) * oi >= d * (a * w)
  {
    var e := w * shift / scale;
    assert e * scale == w * shift;
    assert (e * oi) * scale == (e * scale) * oi == (w * shift) * oi == w * (shift * oi);
    RealMono(d * (a * scale), shift * oi, w);
    assert w * (d * (a * scale)) == (d * (a * w)) * scale;
    RealCancel(d * (a * w), e * oi, scale);
  }

  lemma ExactAtMost(w: real, a: real, shift: real, oi: real, d: real, scale: real)
    requires w >= 0.0 && scale > 0.0 && oi > 0.0 && d >= 0.0 && a * w <= oi
    requires (shift - 1.0) * oi < d * (a * scale)
    ensures w * shift / scale <= d + w / scale
  {
    var e := w * (shift - 1.0) / scale;
    assert e * scale == w * (shift - 1.0);
    assert (e * oi) * scale == (e * scale) * oi == (w * (shift - 1.0)) * oi == w * ((shift - 1.0) * oi);
    RealMono((shift - 1.0) * oi, d * (a * scale), w);
    assert w * (d * (a * scale)) == (d * (a * w)) * scale;
    RealCancel(e * oi, d * (a * w), scale);
    RealMono(a * w, oi, d);
    assert e * oi == oi * e && d * oi == oi * d;
    RealCancel(e, d, oi);
    SplitOne(w, shift, scale);
  }

  lemma SplitOne(w: real, shift: real, scale: real)
    requires scale > 0.0
    ensures w * shift / scale == w * (shift - 1.0) / scale + w / scale
  {
    assert w * shift == w * (shift - 1.0) + w;
  }

  /** `shift` is the smallest index step that makes up for the deficit. */
  ghost predicate ShiftFor(b: Book, deficit: u128, shift: nat) {
    var d, unit := deficit as real, (b.a as real) * (POS_SCALE as real);
    (shift as real) * (b.oi as real) >= d * unit && (shift as real - 1.0) * (b.oi as real) < d * unit
  }

  lemma ShiftIs(b: Book, deficit: u128, c: Book)
    requires b.a > 0 && b.oi > 0 && ChargeDeficit(b, deficit) == Done(c) && c.k != b.k
    ensures c.k < b.k && ShiftFor(b, deficit, b.k - c.k)
  {
    ChargeShift(b, deficit, c);
    hide ChargeDeficit;
    hide CeilDiv;
  }

  lemma CoveredReals(weight: real, b: Book, deficit: u128, shift: nat)
    requires 0.0 <= weight && b.a > 0 && b.oi > 0 && (b.a as real) * weight <= b.oi as real
    requires ShiftFor(b, deficit, shift)
    ensures ExactLoss(weight, shift) * (b.oi as real) >= (deficit as real) * ((b.a as real) * weight)
    ensures ExactLoss(weight, shift) <= (deficit as real) + weight / (POS_SCALE as real)
  {
    ExactAtLeast(weight, b.a as real, shift as real, b.oi as real, deficit as real, POS_SCALE as real);
    ExactAtMost(weight, b.a as real, shift as real, b.oi as real, deficit as real, POS_SCALE as real);
  }

  /**
   How the losses of the accounts of a side make up for a deficit: at least the share of the deficit
   that falls on what they own, but for less than one unit per account that has not just been settled;
   and no more than the deficit, one index step per unit that they own, and one unit per holder.
   */
  ghost predicate SharedOut(side: Side, rest: seq<PositionV>, p: PositionV, b: Book, deficit: u128, losses: int) {
    var accounts := [p] + rest;
    && ((losses + Unsettled(side, b, accounts)) as real) * (b.oi as real)
         >= (deficit as real) * Owned(side, rest, p, b)
    && (losses + Unsettled(side, b, accounts)) * b.oi >= deficit * (b.oi - b.dust)
    && ((losses - deficit - Holders(side, b, accounts)) as real) * ((b.a * POS_SCALE) as real)
         <= Owned(side, rest, p, b)
    && (losses - deficit - Holders(side, b, accounts)) * (b.a * POS_SCALE) <= b.oi
  }

  lemma OwnedBy(side: Side, rest: seq<PositionV>, p: PositionV, b: Book)
    ensures Owned(side, rest, p, b) == Times(b.a, SumWeight(side, b.epoch, [p] + rest))
  {
    var accounts := [p] + rest;
    assert accounts[0] == p && accounts[1..] == rest;
    hide Weight;
    assert SumWeight(side, b.epoch, accounts) == Weight(side, b.epoch, p) + SumWeight(side, b.epoch, rest);
    Spread(b.a as real, Weight(side, b.epoch, p), SumWeight(side, b.epoch, rest));
  }

  lemma Spread(a: real, x: real, y: real)
    ensures a * (x + y) == a * x + a * y
  {
  }

  /** While the invariant holds, also in the middle of an instruction, a charged deficit is shared out. */
  lemma DeficitIsCovered(rest: seq<PositionV>, s: Pair, side: Side, deficit: u128, c: Book)
    requires Inv(rest, s) && s.m.Side(side).oi > 0
    requires ChargeDeficit(s.m.Side(side), deficit) == Done(c) && c.k != s.m.Side(side).k
    ensures var b := s.m.Side(side);
            c.k < b.k && SharedOut(side, rest, s.p, b, deficit, SumLoss(side, b, [s.p] + rest, b.k - c.k))
  {
    hide *;
    var b := s.m.Side(side);
    SandwichHere(rest, s, side);
    ShiftIs(b, deficit, c);
    SharesOut(side, rest, s.p, b, deficit, b.k - c.k);
  }

  lemma SandwichHere(rest: seq<PositionV>, s: Pair, side: Side)
    requires Inv(rest, s) && s.m.Side(side).oi > 0
    ensures var b := s.m.Side(side);
            1 <= b.a <= ADL_ONE && (b.oi as real) - (b.dust as real) <= Owned(side, rest, s.p, b) <= b.oi as real
  {
    assert SideOk(side, rest, s);
    SideParts(side, rest, s);
    hide Inv;
    hide SideOk;
    hide RewardOk;
    hide Counted;
    hide Owned;
  }

  lemma SharesOut(side: Side, rest: seq<PositionV>, p: PositionV, b: Book, deficit: u128, shift: nat)
    requires 1 <= b.a && b.oi > 0 && ShiftFor(b, deficit, shift)
    requires (b.oi as real) - (b.dust as real) <= Owned(side, rest, p, b) <= b.oi as real
    ensures SharedOut(side, rest, p, b, deficit, SumLoss(side, b, [p] + rest, shift))
  {
    hide *;
    var accounts := [p] + rest;
    var weight := SumWeight(side, b.epoch, accounts);
    OwnedBy(side, rest, p, b);
    SumWeightNonNegative(side, b.epoch, accounts);
    LossesOfAll(side, b, accounts, shift);
    ShareNumbers(SumLoss(side, b, accounts, shift), Unsettled(side, b, accounts), Holders(side, b, accounts),
                 weight, shift, b, deficit, Owned(side, rest, p, b));
    SharedOutIs(side, rest, p, b, deficit, SumLoss(side, b, accounts, shift));
  }

  lemma ShareNumbers(losses: int, open: nat, held: nat, weight: real, shift: nat, b: Book, deficit: u128,
                     owned: real)
    requires ExactLoss(weight, shift) - (open as real) <= losses as real <= ExactLoss(weight, shift) + (held as real)
    requires 0.0 <= weight && owned == Times(b.a, weight) && 1 <= b.a && b.oi > 0 && ShiftFor(b, deficit, shift)
    requires (b.oi as real) - (b.dust as real) <= owned <= b.oi as real
    ensures ((losses + open) as real) * (b.oi as real) >= (deficit as real) * owned
    ensures (losses + open) * b.oi >= deficit * (b.oi - b.dust)
    ensures ((losses - deficit - held) as real) * ((b.a * POS_SCALE) as real) <= owned
    ensures (losses - deficit - held) * (b.a * POS_SCALE) <= b.oi
  {
    hide ShiftFor;
    hide ExactLoss;
    CoveredReals(weight, b, deficit, shift);
    var exact := ExactLoss(weight, shift);
    CoversDue((losses + open) as real, exact, b.oi as real, deficit as real, owned, (b.oi - b.dust) as real);
    AsIntegers(losses + open, b.oi, deficit, b.oi - b.dust);
    ExcessSteps(losses - deficit - held, weight, b.a, b.oi);
  }

  lemma SharedOutIs(side: Side, rest: seq<PositionV>, p: PositionV, b: Book, deficit: u128, losses: int)
    requires var accounts := [p] + rest;
             && ((losses + Unsettled(side, b, accounts)) as real) * (b.oi as real)
                  >= (deficit as real) * Owned(side, rest, p, b)
             && (losses + Unsettled(side, b, accounts)) * b.oi >= deficit * (b.oi - b.dust)
             && ((losses - deficit - Holders(side, b, accounts)) as real) * ((b.a * POS_SCALE) as real)
                  <= Owned(side, rest, p, b)
             && (losses - deficit - Holders(side, b, accounts)) * (b.a * POS_SCALE) <= b.oi
    ensures SharedOut(side, rest, p, b, deficit, losses)
  {
  }

  lemma CoversDue(paid: real, exact: real, oi: real, d: real, owned: real, least: real)
    requires paid >= exact && exact * oi >= d * owned && owned >= least && oi >= 0.0 && d >= 0.0
    ensures paid * oi >= d * owned && paid * oi >= d * least
  {
    RealMono(exact, paid, oi);
    RealMono(least, owned, d);
  }

  lemma AsIntegers(x: int, y: int, z: int, u: int)
    requires (x as real) * (y as real) >= (z as real) * (u as real)
    ensures x * y >= z * u
  {
    ProductAsReal(x, y);
    ProductAsReal(z, u);
  }

  lemma ExcessSteps(excess: int, weight: real, a: nat, oi: nat)
    requires excess as real <= weight / (POS_SCALE as real) && (a as real) * weight <= oi as real && a > 0
    ensures (excess as real) * ((a * POS_SCALE) as real) <= (a as real) * weight
    ensures excess * (a * POS_SCALE) <= oi
  {
    var scale := POS_SCALE as real;
    var step := weight / scale;
    assert step * scale == weight;
    RealMono(excess as real, step, (a as real) * scale);
    assert step * ((a as real) * scale) == (a as real) * (step * scale);
    ProductAsReal(a, POS_SCALE);
    ProductAsReal(excess, a * POS_SCALE);
  }

  // ---------------------------------------------------------------------------
  // Deleveraging
  // ---------------------------------------------------------------------------

  /** Whether a side takes any of a deficit. */
  predicate Takes(b: Book, deficit: u128) {
    b.oi != 0 && b.stored != 0 && Representable(b, deficit)
  }

  /** By how much the index of the side is lowered for a deficit. */
  function ShiftOf(b: Book, deficit: u128): nat {
    if Takes(b, deficit) then
      MulPos(deficit, b.a * POS_SCALE);
      CeilDiv(deficit * (b.a * POS_SCALE), b.oi)
    else 0
  }

  /** What the insurance fund and the opposite side do about a deficit; `c` is the side afterwards. */
  ghost predicate DeficitTaken(rest: seq<PositionV>, s: Pair, opp: Side, deficit: u128, c: Book) {
    var b, uncovered := s.m.Side(opp), Uncovered(s.m.funds, deficit);
    var shift := ShiftOf(b, uncovered);
    && c.k == b.k - shift
    && (Takes(b, uncovered) ==> SharedOut(opp, rest, s.p, b, uncovered, SumLoss(opp, b, [s.p] + rest, shift)))
  }

  lemma EnqueueCharges(m: MarketV, liqSide: Side, close: u128, deficit: u128, n: MarketV)
    requires EnqueueAdl(m, liqSide, close, deficit) == Done(n)
    ensures var b, c := m.Side(liqSide.Opposite()), n.Side(liqSide.Opposite());
            if b.oi != 0 && b.stored != 0
            then ChargeDeficit(b, Uncovered(m.funds, deficit)).Done?
                 && c.k == ChargeDeficit(b, Uncovered(m.funds, deficit)).value.k
            else c.k == b.k
  {
    hide UseInsurance;
    hide ChargeDeficit;
    hide InsurancePay;
  }

  /**
   However deleveraging goes on with the opposite side, its index is lowered for exactly what the
   insurance fund leaves of the deficit, if it can take that.
   */
  lemma EnqueueIsCovered(rest: seq<PositionV>, s: Pair, liqSide: Side, close: u128, deficit: u128, n: MarketV)
    requires Inv(rest, s) && EnqueueAdl(s.m, liqSide, close, deficit) == Done(n)
    ensures DeficitTaken(rest, s, liqSide.Opposite(), deficit, n.Side(liqSide.Opposite()))
    ensures n.funds.insurance == s.m.funds.insurance - (deficit - Uncovered(s.m.funds, deficit))
  {
    EnqueueForm(s.m, liqSide, close, deficit, n);
    EnqueueCharges(s.m, liqSide, close, deficit, n);
    hide Inv;
    hide EnqueueAdl;
    hide InsurancePay;
    hide SharedOut;
    hide DeleveragedBook;
    hide LiquidatedBook;
    var b, uncovered := s.m.Side(liqSide.Opposite()), Uncovered(s.m.funds, deficit);
    if b.oi != 0 && b.stored != 0 {
      var charged := ChargeDeficit(b, uncovered).value;
      ChargedExactly(b, uncovered, charged);
      hide ChargeDeficit;
      if Takes(b, uncovered) {
        hide Representable;
        ChargedDown(b, uncovered, charged);
        DeficitIsCovered(rest, s, liqSide.Opposite(), uncovered, charged);
      }
    }
  }

  lemma ChargedDown(b: Book, deficit: u128, c: Book)
    requires b.oi > 0 && ChargeDeficit(b, deficit) == Done(c)
    ensures c.k < b.k <==> Representable(b, deficit)
    ensures c.k <= b.k
  {
    ChargedExactly(b, deficit, c);
    hide ChargeDeficit;
    hide CeilDiv;
  }

  /** Without phantom dust the whole deficit is made up for, up to the units that unsettled holders may be short of. */
  lemma CoveredInFull(side: Side, rest: seq<PositionV>, p: PositionV, b: Book, deficit: u128, losses: int)
    requires SharedOut(side, rest, p, b, deficit, losses) && b.oi > 0 && b.dust == 0
    ensures losses + Unsettled(side, b, [p] + rest) >= deficit
  {
    hide Unsettled;
    hide Holders;
    hide Owned;
    CancelLeast(deficit, losses + Unsettled(side, b, [p] + rest), b.oi);
  }

  lemma CancelLeast(x: int, y: int, z: nat)
    requires z > 0 && y * z >= x * z
    ensures y >= x
  {
    if y < x {
      MulMono(y + 1, x, z);
    }
  }

  // ---------------------------------------------------------------------------
  // The market part of a liquidation
  // ---------------------------------------------------------------------------

  lemma SwappedKeeps(rest: seq<PositionV>, s: Pair, side: Side, eff: i128)
    requires Inv(rest, s) && SwapFor(s.m, side == Short, Abs(eff)).Done?
    ensures Inv(rest, s.(m := Swapped(s.m, SwapFor(s.m, side == Short, Abs(eff)).value)))
  {
    InvMoney(rest, s);
    var swap := SwapFor(s.m, side == Short, Abs(eff)).value;
    SwapKeepsCurve(s.m, side == Short, Abs(eff), swap);
    hide Inv;
    hide SwapFor;
    hide Vamm.OnCurve;
    MarketKeeps(rest, s, Swapped(s.m, swap));
  }

  lemma SocializeIsCovered(rest: seq<PositionV>, s: Pair, side: Side, eff: i128, bill: Bill, t: Pair)
    requires Inv(rest, s) && Socialize(s, side, eff, bill) == Done(t)
    ensures DeficitTaken(rest, s, side.Opposite(), bill.deficit, t.m.Side(side.Opposite()))
  {
    hide Inv;
    hide SwapFor;
    hide EnqueueAdl;
    hide DistributeSurplus;
    hide InsurancePay;
    hide Backed;
    hide SharedOut;
    SwappedKeeps(rest, s, side, eff);
    var m0 := Swapped(s.m, SwapFor(s.m, side == Short, Abs(eff)).value);
    var m1 := EnqueueAdl(m0, side, Abs(eff), bill.deficit).value;
    EnqueueIsCovered(rest, s.(m := m0), side, Abs(eff), bill.deficit, m1);
    var m2 := m1.(funds := CreditInsurance(m1.funds, bill.insuranceFee));
    DistributeForm(m2, side.Opposite(), bill.surplus, t.m);
    assert m0.Side(side.Opposite()) == s.m.Side(side.Opposite()) && m0.funds == s.m.funds;
  }

  // ---------------------------------------------------------------------------
  // A deficit that nobody pays
  // ---------------------------------------------------------------------------

  /** A holder of one unit whose profit of nine tenths is not settled yet. */
  const SMALL := FreshPosition(0).(baseSize := 1, basis := 1)

  /** The side that two of them have to themselves. */
  const SHARED := EMPTY_BOOK.(k := 900_000_000_000, oi := 2, stored := 2, total := 2)

  lemma SmallFits()
    ensures Shape(SMALL) && Fits(SMALL, SHARED) && OnBook(Long, SHARED, SMALL)
    ensures Loss(Long, SHARED, SMALL, 500_000_000_000) == 0
  {
  }

  lemma SmallShare()
    ensures Weight(Long, 0, SMALL) == 1.0 / 1_000_000.0
  {
  }

  /** It owes half a unit. */
  lemma SmallOwes()
    ensures ExactLoss(Weight(Long, 0, SMALL), 500_000_000_000) == 0.5
  {
    SmallShare();
    hide Weight;
  }

  lemma SumOne(measure: Measure, p: PositionV)
    ensures Sum(measure, [p]) == Of(measure, p)
  {
    assert [p][1..] == [] && Sum(measure, []) == 0;
  }

  lemma TwoCounted()
    ensures Counted(Long, [SMALL], SMALL, SHARED)
  {
    assert [SMALL][1..] == [];
    assert Of(StoredOn(Long), SMALL) == 1 && Of(StaleOn(Long, 0), SMALL) == 0 && Of(BaseOn(Long), SMALL) == 1;
    hide Of;
    SumOne(StoredOn(Long), SMALL);
    SumOne(StaleOn(Long, 0), SMALL);
    SumOne(BaseOn(Long), SMALL);
  }

  lemma TwoOwn()
    ensures Sandwich(Long, [SMALL], SMALL, SHARED)
  {
    assert [SMALL][1..] == [];
    SmallShare();
    hide Weight;
    assert SumWeight(Long, 0, [SMALL]) == 1.0 / 1_000_000.0;
    hide SumWeight;
    assert 1_000_000.0 * (1.0 / 1_000_000.0) == 1.0;
  }

  lemma OneForTwo()
    ensures ChargeDeficit(SHARED, 1) == Done(SHARED.(k := 400_000_000_000))
  {
  }

  /** Each owes half of a deficit of one unit, but loses only profit that it would not have been paid anyway. */
  lemma NobodyPays()
    ensures BookOk(Long, [SMALL], SMALL, SHARED)
    ensures ChargeDeficit(SHARED, 1) == Done(SHARED.(k := 400_000_000_000))
    ensures ExactLoss(Weight(Long, 0, SMALL), 500_000_000_000) == 0.5
    ensures SumLoss(Long, SHARED, [SMALL, SMALL], 500_000_000_000) == 0
    ensures Unsettled(Long, SHARED, [SMALL, SMALL]) == 2
  {
    hide Counted;
    hide Sandwich;
    hide ChargeDeficit;
    hide Loss;
    hide OnBook;
    hide ExactLoss;
    SmallOwes();
    TwoCounted();
    TwoOwn();
    OneForTwo();
    SmallFits();
    var two, one := [SMALL, SMALL], [SMALL];
    assert two[1..] == one && one[1..] == [];
    assert SumLoss(Long, SHARED, one, 500_000_000_000) == 0 && Unsettled(Long, SHARED, one) == 1;
  }

  // ---------------------------------------------------------------------------
  // The other side after deleveraging
  // ---------------------------------------------------------------------------

  /** Closing `closed` units takes all that is left of the side. */
  predicate Empties(b: Book, closed: u128)
    requires b.oi > 0
  {
    b.oi <= closed || (b.a * (b.oi - closed)) / b.oi == 0
  }

  /** The side is drain-only and closing `closed` units empties it. */
  predicate DrainedAway(b: Book, closed: u128) {
    b.mode == DrainOnly && b.oi > 0 && Empties(b, closed)
  }

  /** A side with holders after deleveraging, on which the handler then checks for resets. */
  ghost predicate Deleveraging(b: Book, closed: u128, c: Book) {
    && c.epoch == b.epoch && c.stored == b.stored && c.mode != ResetPending
    && (c.pending <==> c.oi == 0)
    && (c.oi == 0 ==> c.mode == b.mode)
    && b.oi > 0 && (c.oi == 0 <==> Empties(b, closed))
  }

  lemma CutOi(b: Book, closed: u128)
    requires closed < b.oi && b.a > 0
    ensures var c := CutBook(b, closed);
            && c.oi == b.oi - closed && c.epoch == b.epoch && c.stored == b.stored && c.pending == b.pending
            && c.k == b.k && c.a == (b.a * (b.oi - closed)) / b.oi && (c.mode == b.mode || c.mode == DrainOnly)
  {
  }

  lemma EnqueueDeleverages(m: MarketV, liqSide: Side, closed: u128, deficit: u128, n: MarketV)
    requires m.long.a > 0 && m.short.a > 0 && EnqueueAdl(m, liqSide, closed, deficit) == Done(n)
    requires var b := m.Side(liqSide.Opposite()); b.oi > 0 && b.stored > 0 && !b.pending && b.mode != ResetPending
    ensures Deleveraging(m.Side(liqSide.Opposite()), closed, n.Side(liqSide.Opposite()))
  {
    var b, c := m.Side(liqSide.Opposite()), n.Side(liqSide.Opposite());
    var charged := ChargeDeficit(b, Uncovered(m.funds, deficit)).value;
    DeleverageCases(m, liqSide, closed, deficit, n);
    hide EnqueueAdl;
    Traces.ChargeForm(b, Uncovered(m.funds, deficit), charged);
    hide ChargeDeficit;
    hide Uncovered;
    if closed < b.oi {
      CutOi(charged, closed);
    }
    hide CutBook;
  }

  lemma DeleverageCases(m: MarketV, liqSide: Side, closed: u128, deficit: u128, n: MarketV)
    requires m.long.a > 0 && m.short.a > 0 && EnqueueAdl(m, liqSide, closed, deficit) == Done(n)
    requires var b := m.Side(liqSide.Opposite()); b.oi > 0 && b.stored > 0
    ensures var b, c := m.Side(liqSide.Opposite()), n.Side(liqSide.Opposite());
            var charged := ChargeDeficit(b, Uncovered(m.funds, deficit));
            && charged.Done? && charged.value.oi == b.oi && charged.value.a == b.a
            && c == if closed >= b.oi || CutBook(charged.value, closed).a == 0
                    then charged.value.(oi := 0, pending := true) else CutBook(charged.value, closed)
  {
    hide CutBook;
    hide ChargeDeficit;
    hide UseInsurance;
    hide Uncovered;
    var b := m.Side(liqSide.Opposite());
    Traces.ChargeForm(b, Uncovered(m.funds, deficit), ChargeDeficit(b, Uncovered(m.funds, deficit)).value);
  }

  // ---------------------------------------------------------------------------
  // The resets of the same liquidation
  // ---------------------------------------------------------------------------

  /** How a side comes out of the resets: as it was, or at the end of its epoch, or beyond the one after it. */
  ghost predicate Reset(b: Book, c: Book) {
    if b.oi != 0 then Traces.SameIndices(b, c)
    else c.epochStartK == b.k && c.epoch == b.epoch + if b.mode == DrainOnly then 2 else 1
  }

  lemma OtherCheckKeeps(m: MarketV, side: Side, n: MarketV)
    requires CheckDust(m, side) == Done(n)
    requires var b := m.Side(side.Opposite()); b.stored > 0 && b.mode != ResetPending
    ensures n.Side(side.Opposite()) == m.Side(side.Opposite())
  {
    hide Vamm.Normalize;
    hide ResetBook;
  }

  lemma OwnCheck(m: MarketV, side: Side, n: MarketV)
    requires CheckDust(m, side) == Done(n) && m.Side(side).stored > 0 && m.Side(side).mode != ResetPending
    ensures var b, c := m.Side(side), n.Side(side);
            if b.oi == 0 && b.mode == DrainOnly
            then c.epoch == b.epoch + 1 && c.k == b.k && c.epochStartK == b.k && c.oi == 0 && c.mode == Normal
                 && c.pending == b.pending
            else c == b
  {
    hide Vamm.Normalize;
  }

  lemma PendingReset(m: MarketV, side: Side, n: MarketV)
    requires FinalizePending(m) == Done(n) && m.Side(side).mode != ResetPending
    requires m.Side(side.Opposite()).mode != ResetPending
    ensures var b, c := m.Side(side), n.Side(side);
            if b.pending && b.oi == 0 then c.epoch == b.epoch + 1 && c.epochStartK == b.k
            else Traces.SameIndices(b, c)
  {
    FinalizePendingForm(m, n);
    FinalizedWhen(m, side, n);
    hide FinalizePending;
  }

  lemma FinalizedWhen(m: MarketV, side: Side, n: MarketV)
    requires FinalizePending(m) == Done(n) && m.Side(side).mode != ResetPending
    requires m.Side(side.Opposite()).mode != ResetPending
    ensures n.Side(side).epoch == m.Side(side).epoch + if m.Side(side).pending && m.Side(side).oi == 0 then 1 else 0
  {
    hide Vamm.Normalize;
  }

  lemma ResetsOf(m: MarketV, liqSide: Side, m4: MarketV, m5: MarketV, n: MarketV)
    requires CheckDust(m, liqSide) == Done(m4) && CheckDust(m4, liqSide.Opposite()) == Done(m5)
    requires FinalizePending(m5) == Done(n) && m.Side(liqSide).mode != ResetPending
    requires var b := m.Side(liqSide.Opposite());
             b.stored > 0 && b.mode != ResetPending && (b.pending <==> b.oi == 0)
    ensures Reset(m.Side(liqSide.Opposite()), n.Side(liqSide.Opposite()))
  {
    hide CheckDust;
    hide FinalizePending;
    var opp := liqSide.Opposite();
    OtherCheckKeeps(m, liqSide, m4);
    OwnCheck(m4, opp, m5);
    CheckRuns(m, liqSide, m4);
    CheckRuns(m4, opp, m5);
    PendingReset(m5, opp, n);
  }

  // ---------------------------------------------------------------------------
  // From deleveraging to the end of the handler
  // ---------------------------------------------------------------------------

  lemma SocializeDeleverages(rest: seq<PositionV>, s: Pair, side: Side, eff: i128, bill: Bill, t: Pair)
    requires Inv(rest, s) && AtRest(s.m) && Socialize(s, side, eff, bill) == Done(t)
    requires s.m.Side(side.Opposite()).oi > 0 && s.m.Side(side.Opposite()).stored > 0
    ensures Deleveraging(s.m.Side(side.Opposite()), Abs(eff), t.m.Side(side.Opposite()))
  {
    InvIndices(rest, s);
    SideParts(side.Opposite(), rest, s);
    hide Inv;
    hide SwapFor;
    hide EnqueueAdl;
    hide DistributeSurplus;
    hide Empties;
    hide Backed;
    var opp := side.Opposite();
    var m0 := Swapped(s.m, SwapFor(s.m, side == Short, Abs(eff)).value);
    var m1 := EnqueueAdl(m0, side, Abs(eff), bill.deficit).value;
    EnqueueDeleverages(m0, side, Abs(eff), bill.deficit, m1);
    var m2 := m1.(funds := CreditInsurance(m1.funds, bill.insuranceFee));
    DistributeForm(m2, opp, bill.surplus, t.m);
  }

  lemma WipeKeepsOther(rest: seq<PositionV>, s: Pair, side: Side, eff: i128, bill: Bill, s2: Pair, s3: Pair)
    requires Inv(rest, s) && Current(s.p, s.m) && Holds(s.p, side) && EffectiveQ(s.p, s.m) == Done(eff)
    requires Socialize(s, side, eff, bill) == Done(s2) && Wipe(s2) == Done(s3)
    ensures s3.m.Side(side.Opposite()) == s2.m.Side(side.Opposite())
  {
    InvShape(rest, s);
    InvMoney(rest, s);
    CurrentOnSide(rest, s, side);
    hide Inv;
    hide Socialize;
    hide Wipe;
    hide OnSide;
    hide OldSize;
    hide EffectiveQ;
    hide LiquidatedBook;
    hide DeleveragedBook;
    hide WipedBook;
    hide Backed;
    EffectiveIsSize(s.p, s.m, side, eff);
    SocializeForm(s, side, eff, bill, s2);
    OnSideFrame(s.p, side, OldSize(s.p, s.m.Side(side)), s.m.Side(side), s2.m.Side(side));
    WipeForm(s2, side, s3);
  }

  /** From the touched account to the end of the handler, for a side with holders. */
  lemma LiquidationResets(rest: seq<PositionV>, s1: Pair, side: Side, eff: i128, bill: Bill, s2: Pair, s3: Pair,
                          s4: Pair, s5: Pair, slot: u64, t: Pair)
    requires Inv(rest, s1) && AtRest(s1.m) && Current(s1.p, s1.m) && Holds(s1.p, side)
    requires EffectiveQ(s1.p, s1.m) == Done(eff) && Socialize(s1, side, eff, bill) == Done(s2) && Wipe(s2) == Done(s3)
    requires CheckSide(s3.(m := PayReward(s3.m, bill.reward)), side) == Done(s4)
    requires CheckSide(s4, side.Opposite()) == Done(s5) && Finalize(Stamp(s5, slot)) == Done(t)
    requires s1.m.Side(side.Opposite()).oi > 0 && s1.m.Side(side.Opposite()).stored > 0
    ensures var opp := side.Opposite();
            Deleveraging(s1.m.Side(opp), Abs(eff), s2.m.Side(opp)) && Reset(s2.m.Side(opp), t.m.Side(opp))
  {
    hide Inv;
    hide Current;
    hide EffectiveQ;
    hide Socialize;
    hide Wipe;
    hide CheckDust;
    hide FinalizePending;
    hide Empties;
    hide Reset;
    hide Traces.Flow;
    SocializeDeleverages(rest, s1, side, eff, bill, s2);
    WipeKeepsOther(rest, s1, side, eff, bill, s2, s3);
    LiquidationCoreKeeps(rest, s1, side, eff, bill, s2, s3);
    SidesRun(rest, s3);
    ResetsOf(PayReward(s3.m, bill.reward), side, s4.m, s5.m, t.m);
  }

  // ---------------------------------------------------------------------------
  // Holders
  // ---------------------------------------------------------------------------

  lemma {:induction false} StoredHas(side: Side, accounts: seq<PositionV>, q: PositionV)
    requires q in accounts && Holds(q, side)
    ensures Sum(StoredOn(side), accounts) >= 1
  {
    SumNonNegative(StoredOn(side), accounts[1..]);
    if q != accounts[0] {
      StoredHas(side, accounts[1..], q);
    }
  }

  lemma {:induction false} WeightHas(side: Side, epoch: int, accounts: seq<PositionV>, q: PositionV)
    requires q in accounts
    ensures SumWeight(side, epoch, accounts) >= Weight(side, epoch, q)
  {
    WeightNonNegative(side, epoch, accounts[0]);
    SumWeightNonNegative(side, epoch, accounts[1..]);
    hide Weight;
    if q != accounts[0] {
      WeightHas(side, epoch, accounts[1..], q);
    }
  }

  lemma OwnedPositive(a: nat, weight: real, sum: real)
    requires a >= 1 && 0.0 < weight <= sum
    ensures (a as real) * sum > 0.0
  {
  }

  /** A side with a current holder has open interest and stored positions. */
  lemma HolderFacts(rest: seq<PositionV>, s: Pair, side: Side, q: PositionV)
    requires Inv(rest, s) && AtRest(s.m) && q in rest && OnBook(side, s.m.Side(side), q)
    ensures q.aSnap > 0 && s.m.Side(side).oi > 0 && s.m.Side(side).stored > 0
  {
    var b := s.m.Side(side);
    assert AccountOk(q, s.m);
    SideParts(side, rest, s);
    StoredHas(side, rest, q);
    SumNonNegative(StoredOn(side), []);
    WeightNonNegative(side, b.epoch, q);
    WeightHas(side, b.epoch, rest, q);
    OwnedNonNegative(side, rest, s.p, b);
    OwnedPositive(b.a, Weight(side, b.epoch, q), SumWeight(side, b.epoch, rest));
    hide Weight;
    hide SumWeight;
    hide Share;
    hide Inv;
    hide Sum;
  }

  lemma BooksAfter(side: Side, b: Book, closed: u128, mid: Book, c: Book, q: PositionV)
    requires Deleveraging(b, closed, mid) && Reset(mid, c) && OnBook(side, b, q) && q.aSnap > 0
    ensures Books(q, c) == if DrainedAway(b, closed) then 0 else UnitsTo(q, mid.k)
  {
    hide UnitsTo;
    hide Empties;
  }

  // ---------------------------------------------------------------------------
  // What a liquidation leaves to the holders of the other side
  // ---------------------------------------------------------------------------

  /** The side that pays for the liquidation of `s.p`, and its book as the liquidation finds it. */
  function Payers(s: Pair): Side {
    SideOf(s.p.baseSize).Opposite()
  }

  lemma LiquidatedSide(rest: seq<PositionV>, s: Pair, env: Env, t: Pair) returns (mid: Book)
    requires Inv(rest, s) && AtRest(s.m) && LiquidateBody(s, env) == Done(t)
    ensures Touched(s, env).Done?
    ensures var s1, strike := Touched(s, env).value, StrikeOf(s, env);
            var b := s1.m.Side(Payers(s1));
            && Inv(rest, s1) && AtRest(s1.m)
            && mid.k == b.k - ShiftOf(b, strike.uncovered)
            && (Takes(b, strike.uncovered) ==>
                  SharedOut(Payers(s1), rest, s1.p, b, strike.uncovered,
                            SumLoss(Payers(s1), b, [s1.p] + rest, ShiftOf(b, strike.uncovered))))
            && (b.oi > 0 && b.stored > 0 ==>
                  Deleveraging(b, strike.closed, mid) && Reset(mid, t.m.Side(Payers(s1))))
            && Holds(s1.p, Payers(s1).Opposite())
  {
    hide Inv;
    hide RollInsuranceEpoch;
    hide Touch;
    hide IsAboveMaintenance;
    hide EffectiveQ;
    hide MakeBill;
    hide Socialize;
    hide Wipe;
    hide PayReward;
    hide CheckSide;
    hide Finalize;
    hide PendingReward;
    hide Current;
    hide SharedOut;
    hide ShiftOf;
    hide Takes;
    hide StrikeOf;
    hide Traces.Flow;
    hide Deleveraging;
    hide Reset;
    RollKeeps(rest, s, env.time);
    var s1 := Touched(s, env).value;
    TouchKeeps(rest, s.(m := RollInsuranceEpoch(s.m, env.time)), env, s1);
    var eff := EffectiveQ(s1.p, s1.m).value;
    var bill := MakeBill(s1.p, s1.m, env.price).value;
    StrikeIs(s, env, s1, eff, bill);
    ExposedHolds(rest, s1, eff);
    var side := SideOf(s1.p.baseSize);
    var s2 := Socialize(s1, side, eff, bill).value;
    SocializeIsCovered(rest, s1, side, eff, bill, s2);
    mid := s2.m.Side(side.Opposite());
    var b := s1.m.Side(side.Opposite());
    if b.oi > 0 && b.stored > 0 {
      var s3 := Wipe(s2).value;
      var s4 := CheckSide(s3.(m := PayReward(s3.m, bill.reward)), side).value;
      var s5 := CheckSide(s4, side.Opposite()).value;
      LiquidationResets(rest, s1, side, eff, bill, s2, s3, s4, s5, env.slot, t);
    }
  }

  /**
   What a holder of the other side settles when the liquidation is over: its gain up to the lowered
   index, and so its share of the deficit, if and only if the liquidation has not drained a drain-only
   side away or there is nothing to settle.  Of a side that is drained away it settles nothing.
   */
  lemma HolderSettles(rest: seq<PositionV>, s: Pair, env: Env, t: Pair, q: PositionV)
    requires Inv(rest, s) && AtRest(s.m) && LiquidateBody(s, env) == Done(t) && q in rest
    requires Touched(s, env).Done? && OnBook(Payers(Touched(s, env).value), Found(s, env), q)
    ensures q.aSnap > 0
    ensures var b, strike, c := Found(s, env), StrikeOf(s, env), t.m.Side(Payers(Touched(s, env).value));
            var due := UnitsTo(q, b.k - ShiftOf(b, strike.uncovered));
            && Books(q, c) == (if DrainedAway(b, strike.closed) then 0 else due)
            && (Books(q, c) == due <==> !DrainedAway(b, strike.closed) || due == 0)
  {
    hide Inv;
    hide LiquidateBody;
    hide Touched;
    hide OnBook;
    hide Books;
    hide UnitsTo;
    hide ShiftOf;
    hide Takes;
    hide StrikeOf;
    hide SharedOut;
    hide Deleveraging;
    hide DrainedAway;
    hide Reset;
    var mid := LiquidatedSide(rest, s, env, t);
    var s1 := Touched(s, env).value;
    HolderFacts(rest, s1, Payers(s1), q);
    BooksAfter(Payers(s1), Found(s, env), StrikeOf(s, env).closed, mid, t.m.Side(Payers(s1)), q);
  }

  /** The book of the other side after accrual, before it is charged. */
  function Found(s: Pair, env: Env): Book
    requires Touched(s, env).Done?
  {
    Touched(s, env).value.m.Side(Payers(Touched(s, env).value))
  }

  /** What settling now gives a holder less than settling on book `b` would have given it. */
  function Lost(side: Side, b: Book, c: Book, q: PositionV): int {
    if OnBook(side, b, q) && q.aSnap > 0 then Books(q, b) - Books(q, c) else 0
  }

  function SumLost(side: Side, b: Book, c: Book, accounts: seq<PositionV>): int {
    if accounts == [] then 0 else Lost(side, b, c, accounts[0]) + SumLost(side, b, c, accounts[1..])
  }

  lemma {:induction false} LostIsLoss(side: Side, b: Book, c: Book, accounts: seq<PositionV>, shift: nat)
    requires forall q :: q in accounts && OnBook(side, b, q) && q.aSnap > 0 ==> Books(q, c) == UnitsTo(q, b.k - shift)
    ensures SumLost(side, b, c, accounts) == SumLoss(side, b, accounts, shift)
  {
    hide UnitsTo;
    if accounts != [] {
      var q := accounts[0];
      assert q in accounts && forall p :: p in accounts[1..] ==> p in accounts;
      LostIsLoss(side, b, c, accounts[1..], shift);
      assert Lost(side, b, c, q) == Loss(side, b, q, shift);
    }
  }

  lemma NoLossOther(side: Side, b: Book, p: PositionV, rest: seq<PositionV>, shift: nat)
    requires Holds(p, side.Opposite())
    ensures SumLoss(side, b, [p] + rest, shift) == SumLoss(side, b, rest, shift)
  {
    assert ([p] + rest)[0] == p && ([p] + rest)[1..] == rest;
    assert Loss(side, b, p, shift) == 0;
  }

  /**
   Whatever a liquidation does to the other side, unless it drains a drain-only side away: what all
   holders settle afterwards is less than before by what makes up for the uncovered deficit, if the
   side takes it, and otherwise the same.
   */
  lemma LiquidationIsCovered(rest: seq<PositionV>, s: Pair, env: Env, t: Pair)
    requires Inv(rest, s) && AtRest(s.m) && LiquidateBody(s, env) == Done(t)
    requires Touched(s, env).Done? && !DrainedAway(Found(s, env), StrikeOf(s, env).closed)
    ensures var s1, b, uncovered := Touched(s, env).value, Found(s, env), StrikeOf(s, env).uncovered;
            var losses := SumLost(Payers(s1), b, t.m.Side(Payers(s1)), rest);
            if Takes(b, uncovered) then SharedOut(Payers(s1), rest, s1.p, b, uncovered, losses) else losses == 0
  {
    hide Inv;
    hide LiquidateBody;
    hide Touched;
    hide OnBook;
    hide Books;
    hide UnitsTo;
    hide ShiftOf;
    hide Takes;
    hide StrikeOf;
    hide SharedOut;
    hide SumLoss;
    hide SumLost;
    hide Deleveraging;
    hide DrainedAway;
    hide Reset;
    var s1, b, strike := Touched(s, env).value, Found(s, env), StrikeOf(s, env);
    var side, c := Payers(s1), t.m.Side(Payers(s1));
    var shift := ShiftOf(b, strike.uncovered);
    forall q | q in rest && OnBook(side, b, q) && q.aSnap > 0 ensures Books(q, c) == UnitsTo(q, b.k - shift) {
      HolderSettles(rest, s, env, t, q);
    }
    LostIsLoss(side, b, c, rest, shift);
    var mid := LiquidatedSide(rest, s, env, t);
    NoLossOther(side, b, s1.p, rest, shift);
    if !Takes(b, strike.uncovered) {
      NoShift(b, strike.uncovered);
      NothingLost(side, b, rest);
    }
  }

  lemma NoShift(b: Book, deficit: u128)
    requires !Takes(b, deficit)
    ensures ShiftOf(b, deficit) == 0
  {
    hide Takes;
  }

  lemma {:induction false} NothingLost(side: Side, b: Book, accounts: seq<PositionV>)
    ensures SumLoss(side, b, accounts, 0) == 0
  {
    hide UnitsTo;
    if accounts != [] {
      NothingLost(side, b, accounts[1..]);
      assert Loss(side, b, accounts[0], 0) == 0;
    }
  }
}
