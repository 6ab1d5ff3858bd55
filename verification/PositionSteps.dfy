/**
 Changing the size of a position keeps the invariant.  Re-basing an account at
 the floor of what it owns orphans a fraction of a unit of open interest, and
 the phantom dust bound grows by one exactly when it does.
 */
module PositionSteps {
  import opened Numbers
  import opened State
  import opened Risk
  import opened Invariants
  import opened AccountSteps
  import opened Handlers
  import Vamm

  /** The effective size of a position that holds something. */
  ghost function Size(p: PositionV, b: Book): int
    requires p.aSnap > 0
  {
    (Abs(p.basis) * b.a) / p.aSnap
  }

  ghost predicate Flat(p: PositionV) {
    p.basis == 0
  }

  /** A flat account, or one of the current epoch on `side`. */
  ghost predicate OnSide(p: PositionV, side: Side, b: Book) {
    Flat(p) || (Holds(p, side) && p.epochSnap == b.epoch && p.aSnap > 0 && Size(p, b) > 0)
  }

  ghost function OldSize(p: PositionV, b: Book): int {
    if Flat(p) || p.aSnap == 0 then 0 else Size(p, b)
  }

  lemma EffectiveIsSize(p: PositionV, m: MarketV, side: Side, eff: i128)
    requires OnSide(p, side, m.Side(side)) && EffectiveQ(p, m) == Done(eff)
    ensures Abs(eff) == OldSize(p, m.Side(side)) && (eff == 0 <==> Flat(p)) && (eff != 0 ==> SideOf(eff) == side)
  {
  }

  /** The book after an account has been re-based from `p` to a position of `target` units. */
  ghost predicate RebasedBook(p: PositionV, b: Book, target: int, c: Book) {
    && c == b.(stored := c.stored, dust := if LeavesRemainder(p, b) then SatAddU128(b.dust, 1) else b.dust, oi := c.oi)
    && c.stored == b.stored - (if Flat(p) then 0 else 1) + (if target == 0 then 0 else 1)
    && c.oi == b.oi - OldSize(p, b) + Abs(target)
  }

  ghost predicate RebasedPosition(p: PositionV, b: Book, target: int, q: PositionV) {
    && q == p.(basis := q.basis, aSnap := q.aSnap, kSnap := q.kSnap, epochSnap := q.epochSnap)
    && q.basis == target
    && (target == 0 ==> q.aSnap == ADL_ONE)
    && (target != 0 ==> q.aSnap == b.a && q.epochSnap == b.epoch && q.kSnap == b.k)
  }

  lemma AttachForm(s: Pair, side: Side, target: i128, t: Pair)
    requires OnSide(s.p, side, s.m.Side(side)) && (target != 0 ==> SideOf(target) == side)
    requires Attach(s, target) == Done(t)
    ensures RebasedPosition(s.p, s.m.Side(side), target, t.p)
    ensures t.m == s.m.With(side, t.m.Side(side))
    ensures var b, c := s.m.Side(side), t.m.Side(side);
            && c == b.(stored := c.stored, dust := if LeavesRemainder(s.p, b) then SatAddU128(b.dust, 1) else b.dust)
            && c.stored == b.stored - (if Flat(s.p) then 0 else 1) + (if target == 0 then 0 else 1)
  {
    assert Flat(s.p) ==> !LeavesRemainder(s.p, s.m.long) && !LeavesRemainder(s.p, s.m.short);
    hide LeavesRemainder;
  }

  lemma FullSize(n: nat, a: u128)
    requires a > 0
    ensures (n * a) / a == n
  {
    DivUnique(n * a, a, n);
  }

  lemma RebaseForm(s: Pair, side: Side, oldEff: i128, delta: int, t: Pair)
    requires OnSide(s.p, side, s.m.Side(side)) && EffectiveQ(s.p, s.m) == Done(oldEff) && s.m.Side(side).a > 0
    requires oldEff + delta != 0 ==> SideOf(oldEff + delta) == side
    requires Rebase(s, oldEff, delta) == Done(t)
    ensures t.m == s.m.With(side, t.m.Side(side))
    ensures RebasedBook(s.p, s.m.Side(side), oldEff + delta, t.m.Side(side))
    ensures RebasedPosition(s.p, s.m.Side(side), oldEff + delta, t.p)
  {
    EffectiveIsSize(s.p, s.m, side, oldEff);
    var target := oldEff + delta;
    var s1 := Attach(s, target).value;
    AttachForm(s, side, target, s1);
    FullSize(Abs(target), s.m.Side(side).a);
    hide Attach;
    hide LeavesRemainder;
    hide OldSize;
    hide OnSide;
    assert EffectiveQ(s1.p, s1.m) == Done(target);
    hide EffectiveQ;
    hide RebasedPosition;
  }

  // -- what re-basing does to a side ------------------------------------------------

  /** An exactly represented position owns exactly its size. */
  lemma OwnsExactly(side: Side, p: PositionV, b: Book)
    requires p.basis != 0 ==> Holds(p, side) && p.epochSnap == b.epoch && p.aSnap == b.a > 0
    ensures Share(side, p, b) == Abs(p.basis) as real
  {
    if p.basis != 0 {
      OwnedFloor(side, p, b);
      DivUnique(Abs(p.basis) * b.a, b.a, Abs(p.basis));
    }
  }

  lemma RebaseCover(oi: u128, oi': u128, dust: u128, remainder: bool, owned: real, share: real, size: nat, target: nat)
    requires 0.0 <= (oi as real) - owned <= dust as real
    requires size as real <= share < size as real + 1.0 && (!remainder ==> share == size as real)
    requires oi' == oi - size + target && share <= owned
    ensures 0.0 <= (oi' as real) - (owned - share + target as real)
                <= (if remainder then SatAddU128(dust, 1) else dust) as real
  {
  }

  /** What an account owns is its size and less than one unit more, exactly its size if nothing remains. */
  lemma ShareOfSize(side: Side, p: PositionV, b: Book)
    requires OnSide(p, side, b)
    ensures OldSize(p, b) >= 0 && OldSize(p, b) as real <= Share(side, p, b) < OldSize(p, b) as real + 1.0
    ensures !LeavesRemainder(p, b) ==> Share(side, p, b) == OldSize(p, b) as real
  {
    if !Flat(p) {
      OwnedFloor(side, p, b);
    }
  }

  lemma RebaseCovered(side: Side, rest: seq<PositionV>, p: PositionV, b: Book, q: PositionV, c: Book, target: int)
    requires Sandwich(side, rest, p, b) && b.a > 0
    requires OnSide(p, side, b) && (target != 0 ==> SideOf(target) == side)
    requires RebasedBook(p, b, target, c) && q.basis == target
    requires target != 0 ==> q.aSnap == b.a && q.epochSnap == b.epoch
    ensures Sandwich(side, rest, q, c)
  {
    hide Share;
    hide RestShare;
    hide LeavesRemainder;
    hide OldSize;
    hide OnSide;
    ShareOfSize(side, p, b);
    assert Share(side, q, b) == Abs(target) as real by { NewShare(side, q, b, target); }
    SameShares(side, rest, q, b, c);
    OwnedNonNegative(side, rest, p, b);
    RebaseCover(b.oi, c.oi, b.dust, LeavesRemainder(p, b), Owned(side, rest, p, b),
                Share(side, p, b), OldSize(p, b), Abs(target));
  }

  lemma NewShare(side: Side, q: PositionV, b: Book, target: int)
    requires b.a > 0 && q.basis == target && (target != 0 ==> SideOf(target) == side)
    requires target != 0 ==> q.aSnap == b.a && q.epochSnap == b.epoch
    ensures Share(side, q, b) == Abs(target) as real
  {
    OwnsExactly(side, q, b);
  }

  lemma RebaseCounted(side: Side, rest: seq<PositionV>, p: PositionV, b: Book, q: PositionV, c: Book, target: int)
    requires Counted(side, rest, p, b) && OnSide(p, side, b) && (target != 0 ==> SideOf(target) == side)
    requires c.stored == b.stored - (if Flat(p) then 0 else 1) + (if target == 0 then 0 else 1)
    requires c == b.(stored := c.stored, dust := c.dust, oi := c.oi, total := c.total)
    requires c.total == b.total - BaseSizeOn(p, side) + BaseSizeOn(q, side)
    requires q.basis == target && (target != 0 ==> q.epochSnap == b.epoch)
    ensures Counted(side, rest, q, c)
  {
  }

  /** A resized account keeps the book of its side. */
  lemma ResizeBook(side: Side, rest: seq<PositionV>, p: PositionV, b: Book, q: PositionV, mid: Book, c: Book,
                   target: int)
    requires BookOk(side, rest, p, b) && !b.pending
    requires OnSide(p, side, b) && (target != 0 ==> SideOf(target) == side)
    requires RebasedBook(p, b, target, mid) && c == mid.(total := c.total)
    requires c.total == b.total - BaseSizeOn(p, side) + BaseSizeOn(q, side)
    requires q.basis == target && (if target == 0 then q.aSnap == ADL_ONE else q.aSnap == b.a && q.epochSnap == b.epoch)
    ensures BookOk(side, rest, q, c)
  {
    hide Share;
    hide RestShare;
    hide Counted;
    hide OnSide;
    hide OldSize;
    hide LeavesRemainder;
    RebaseCounted(side, rest, p, b, q, c, target);
    RebaseCovered(side, rest, p, b, q, mid, target);
    SameShares(side, rest, q, mid, c);
  }

  /** An account that is on neither side before or after leaves the other side's book alone. */
  lemma ResizeOther(side: Side, rest: seq<PositionV>, p: PositionV, q: PositionV, b: Book, h: History)
    requires BookOk(side, rest, p, b) && RewardOk(side, rest, p, b, h)
    requires (p.basis != 0 ==> SideOf(p.basis) != side) && (q.basis != 0 ==> SideOf(q.basis) != side)
    requires BaseSizeOn(p, side) == BaseSizeOn(q, side) == 0
    ensures BookOk(side, rest, q, b) && RewardOk(side, rest, q, b, h)
  {
    assert Of(StoredOn(side), p) == Of(StoredOn(side), q) == 0;
    assert Of(StaleOn(side, b.epoch), p) == Of(StaleOn(side, b.epoch), q) == 0;
    assert Of(BaseOn(side), p) == Of(BaseOn(side), q) == 0;
    assert Of(OwedOn(side, b.acc), p) == Of(OwedOn(side, b.acc), q) == 0;
    assert Weight(side, b.epoch, p) == Weight(side, b.epoch, q) == 0.0;
    assert Share(side, p, b) == Share(side, q, b);
    hide Of;
    hide Share;
    hide RestShare;
  }

  /** Effective sizes never exceed what the side's open interest covers, so subtracting one cannot fail. */
  lemma OpenInterestCovers(rest: seq<PositionV>, s: Pair, side: Side)
    requires Inv(rest, s) && !s.m.Side(side).pending && OnSide(s.p, side, s.m.Side(side))
    ensures OldSize(s.p, s.m.Side(side)) <= s.m.Side(side).oi
  {
    var b := s.m.Side(side);
    assert SideOk(side, rest, s);
    ShareOfSize(side, s.p, b);
    OwnedNonNegative(side, rest, s.p, b);
    hide Share;
    hide RestShare;
  }

  // ---------------------------------------------------------------------------
  // Opening and closing
  // ---------------------------------------------------------------------------

  lemma SizeAtMostBasis(p: PositionV, b: Book)
    requires p.aSnap > 0 && b.a <= p.aSnap
    ensures 0 <= Size(p, b) <= Abs(p.basis)
  {
    MulMono(b.a, p.aSnap, Abs(p.basis));
    MulPos(Abs(p.basis), b.a);
    DivAtMost(Abs(p.basis) * b.a, p.aSnap, Abs(p.basis));
    DivAtLeast(Abs(p.basis) * b.a, p.aSnap, 0);
  }

  lemma CurrentOnSide(rest: seq<PositionV>, s: Pair, side: Side)
    requires Inv(rest, s) && Current(s.p, s.m) && (s.p.basis != 0 ==> SideOf(s.p.basis) == side)
    ensures OnSide(s.p, side, s.m.Side(side)) && 0 <= OldSize(s.p, s.m.Side(side)) <= Abs(s.p.basis)
    ensures s.p.basis != 0 ==> Of(OwedOn(side, s.m.Side(side).acc), s.p) == 0
    ensures s.p.basis == 0 ==> Gone(s.p)
  {
    if s.p.basis != 0 {
      SizeAtMostBasis(s.p, s.m.Side(side));
    }
  }

  /** What resizing leaves of the market outside the side's own book. */
  ghost predicate OnlyBook(s: Pair, side: Side, t: Pair) {
    var b, c := s.m.Side(side), t.m.Side(side);
    && t.m == s.m.With(side, c)
    && c == b.(stored := c.stored, dust := c.dust, oi := c.oi, total := c.total)
  }

  /** The account and its side after re-basing to `target`, with raw size and entry changed as well. */
  ghost predicate Resized(s: Pair, side: Side, target: i128, mid: Book, t: Pair) {
    var b, c := s.m.Side(side), t.m.Side(side);
    && (target != 0 ==> SideOf(target) == side)
    && RebasedBook(s.p, b, target, mid)
    && t.m == s.m.With(side, c) && c == mid.(total := c.total)
    && t.p == s.p.(basis := target, baseSize := t.p.baseSize, quoteEntry := t.p.quoteEntry, aSnap := t.p.aSnap,
                   kSnap := t.p.kSnap, epochSnap := t.p.epochSnap, rewardSnap := t.p.rewardSnap)
    && (target == 0 ==> t.p.aSnap == ADL_ONE)
    && (target != 0 ==> t.p.aSnap == b.a && t.p.epochSnap == b.epoch)
  }

  /** The raw size that goes with a new effective size. */
  ghost predicate RawFits(s: Pair, side: Side, target: i128, t: Pair) {
    && t.m.Side(side).total == s.m.Side(side).total - BaseSizeOn(s.p, side) + BaseSizeOn(t.p, side)
    && (target == 0 ==> t.p.baseSize == 0)
    && (target != 0 ==> t.p.rewardSnap == s.m.Side(side).acc && (target > 0 <==> t.p.baseSize > 0)
                        && t.p.baseSize != 0 && Abs(target) <= Abs(t.p.baseSize))
  }

  lemma NothingOwed(side: Side, rest: seq<PositionV>, p: PositionV, b: Book, q: PositionV, c: Book, h: History)
    requires RewardOk(side, rest, p, b, h) && c.acc == b.acc
    requires Of(OwedOn(side, b.acc), p) == 0 == Of(OwedOn(side, b.acc), q)
    ensures RewardOk(side, rest, q, c, h)
  {
    hide Of;
    hide Sum;
  }

  lemma OwesNothing(p: PositionV, side: Side, target: i128, b: Book)
    requires target == 0 ==> p.baseSize == 0
    requires target != 0 ==> p.rewardSnap == b.acc
    ensures Of(OwedOn(side, b.acc), p) == 0
  {
  }

  lemma ResizeOwnSide(rest: seq<PositionV>, s: Pair, side: Side, target: i128, mid: Book, t: Pair)
    requires Inv(rest, s) && !s.m.Side(side).pending && Current(s.p, s.m)
    requires s.p.basis != 0 ==> SideOf(s.p.basis) == side
    requires Resized(s, side, target, mid, t) && RawFits(s, side, target, t)
    ensures SideOk(side, rest, t)
  {
    var b, c := s.m.Side(side), t.m.Side(side);
    CurrentOnSide(rest, s, side);
    assert SideOk(side, rest, s);
    hide Inv;
    hide Current;
    hide Of;
    hide OnSide;
    hide OldSize;
    hide BookOk;
    hide RewardOk;
    SideParts(side, rest, s);
    ResizeBook(side, rest, s.p, b, t.p, mid, c, target);
    OwesNothing(t.p, side, target, b);
    GoneOwesNothing(s.p, side, b);
    NothingOwed(side, rest, s.p, b, t.p, c, s.m.history);
    hide RebasedBook;
    SideWhole(side, rest, t);
  }

  lemma GoneOwesNothing(p: PositionV, side: Side, b: Book)
    ensures Gone(p) ==> Of(OwedOn(side, b.acc), p) == 0
  {
  }

  lemma ResizeOtherSide(rest: seq<PositionV>, s: Pair, side: Side, target: i128, mid: Book, t: Pair)
    requires Inv(rest, s) && (s.p.basis != 0 ==> SideOf(s.p.basis) == side)
    requires Resized(s, side, target, mid, t) && RawFits(s, side, target, t)
    ensures SideOk(side.Opposite(), rest, t)
  {
    var opp := side.Opposite();
    assert SideOk(opp, rest, s) && Shape(s.p);
    assert t.m.Side(opp) == s.m.Side(opp);
    hide SideOk;
    hide RebasedBook;
    assert BaseSizeOn(s.p, opp) == BaseSizeOn(t.p, opp) == 0;
    SideParts(opp, rest, s);
    ResizeOther(opp, rest, s.p, t.p, s.m.Side(opp), s.m.history);
    SideWhole(opp, rest, t);
  }

  lemma SideParts(side: Side, rest: seq<PositionV>, s: Pair)
    requires SideOk(side, rest, s)
    ensures BookOk(side, rest, s.p, s.m.Side(side)) && RewardOk(side, rest, s.p, s.m.Side(side), s.m.history)
  {
  }

  lemma SideWhole(side: Side, rest: seq<PositionV>, s: Pair)
    requires BookOk(side, rest, s.p, s.m.Side(side)) && RewardOk(side, rest, s.p, s.m.Side(side), s.m.history)
    ensures SideOk(side, rest, s)
  {
  }

  /** A resized account, on the same side as before or newly on it, keeps the whole invariant. */
  lemma ResizeKeeps(rest: seq<PositionV>, s: Pair, side: Side, target: i128, mid: Book, t: Pair)
    requires Inv(rest, s) && !s.m.Side(side).pending && Current(s.p, s.m)
    requires s.p.basis != 0 ==> SideOf(s.p.basis) == side
    requires Resized(s, side, target, mid, t) && RawFits(s, side, target, t)
    ensures Inv(rest, t)
  {
    ResizeOwnSide(rest, s, side, target, mid, t);
    ResizeOtherSide(rest, s, side, target, mid, t);
    SideParts(side, rest, s);
    hide SideOk;
    hide Vamm.OnCurve;
    hide Covered;
    hide Counted;
    Assemble(rest, s, side, t);
  }

  /** Re-basing does not look at the raw size. */
  lemma RebaseResized(s: Pair, s0: Pair, side: Side, oldEff: i128, delta: int, s1: Pair)
    requires s0 == s.(p := s.p.(baseSize := s0.p.baseSize, quoteEntry := s0.p.quoteEntry))
    requires OnSide(s.p, side, s.m.Side(side)) && EffectiveQ(s.p, s.m) == Done(oldEff) && s.m.Side(side).a > 0
    requires oldEff + delta != 0 ==> SideOf(oldEff + delta) == side
    requires Rebase(s0, oldEff, delta) == Done(s1)
    ensures Resized(s, side, oldEff + delta, s1.m.Side(side), s1)
    ensures s1.p.baseSize == s0.p.baseSize && s1.p.rewardSnap == s.p.rewardSnap
    ensures s1.m.Side(side).total == s.m.Side(side).total
  {
    assert EffectiveQ(s0.p, s0.m) == EffectiveQ(s.p, s.m);
    assert LeavesRemainder(s0.p, s.m.Side(side)) == LeavesRemainder(s.p, s.m.Side(side));
    assert OldSize(s0.p, s.m.Side(side)) == OldSize(s.p, s.m.Side(side));
    assert OnSide(s0.p, side, s.m.Side(side));
    hide EffectiveQ;
    hide LeavesRemainder;
    hide OldSize;
    hide OnSide;
    hide Rebase;
    RebaseForm(s0, side, oldEff, delta, s1);
  }

  lemma RebaseInRange(s: Pair, oldEff: i128, delta: int)
    requires Rebase(s, oldEff, delta).Done?
    ensures -TWO127 <= oldEff + delta <= I128_MAX
  {
  }

  lemma EnlargeForm(s: Pair, side: Side, size: u64, quote: u128, t: Pair) returns (target: i128, mid: Book)
    requires OnSide(s.p, side, s.m.Side(side)) && s.m.Side(side).a > 0 && 0 < size
    requires Enlarge(s, side, size, quote) == Done(t)
    ensures Resized(s, side, target, mid, t)
    ensures target != 0 && Abs(target) == OldSize(s.p, s.m.Side(side)) + size
    ensures mid.total == s.m.Side(side).total && t.m.Side(side).total == mid.total + size
    ensures t.p.baseSize == s.p.baseSize + SignedSize(side, size) && t.p.rewardSnap == s.p.rewardSnap
  {
    hide Rebase;
    hide EffectiveQ;
    hide OldSize;
    hide OnSide;
    hide RebasedBook;
    var oldEff := EffectiveQ(s.p, s.m).value;
    EffectiveIsSize(s.p, s.m, side, oldEff);
    var s0 := s.(p := s.p.(baseSize := s.p.baseSize + SignedSize(side, size), quoteEntry := s.p.quoteEntry + quote));
    var s1 := Rebase(s0, oldEff, SignedSize(side, size)).value;
    RebaseInRange(s0, oldEff, SignedSize(side, size));
    target := oldEff + SignedSize(side, size);
    RebaseResized(s, s0, side, oldEff, SignedSize(side, size), s1);
    mid := s1.m.Side(side);
  }

  /** Opening or increasing keeps the invariant once the reward snapshot is the side's accumulator. */
  lemma EnlargeKeeps(rest: seq<PositionV>, s: Pair, side: Side, size: u64, quote: u128, t: Pair)
    requires Inv(rest, s) && AtRest(s.m) && Current(s.p, s.m) && 0 < size
    requires s.p.baseSize != 0 ==> SideOf(s.p.baseSize) == side
    requires Enlarge(s, side, size, quote) == Done(t)
    ensures Inv(rest, t.(p := t.p.(rewardSnap := s.m.Side(side).acc)))
    ensures OnlyBook(s, side, t) && AtRest(t.m)
    ensures s.p.baseSize != 0 ==> t.p.rewardSnap == s.m.Side(side).acc
  {
    InvShape(rest, s);
    CurrentOnSide(rest, s, side);
    assert SideOk(side, rest, s);
    var target, mid := EnlargeForm(s, side, size, quote, t);
    hide Enlarge;
    hide Inv;
    ResizeKeeps(rest, s, side, target, mid, t.(p := t.p.(rewardSnap := s.m.Side(side).acc)));
  }

  // -- closing ------------------------------------------------------------------------

  /** A partial close leaves at least one effective unit and no more than the raw size that remains. */
  lemma PartialClose(eff: nat, size: nat, raw: nat)
    requires 0 < eff <= raw && 0 < size < raw
    ensures 0 <= (eff * size) / raw < eff
    ensures eff - (eff * size) / raw <= raw - size
  {
    MulPos(eff, size);
    MulMono(size + 1, raw, eff);
    Distribute(size, 1, eff);
    DivAtLeast(eff * size, raw, 0);
    DivMod(eff * size, raw);
    CancelLess((eff * size) / raw, eff, raw);
    // eff * size >= (size - (raw - eff)) * raw
    MulPos(raw - eff, raw - size);
    assert (raw - eff) * (raw - size) == raw * raw - raw * size - eff * raw + eff * size by { Cross(raw, eff, size); }
    DivAtLeast(eff * size, raw, size - (raw - eff));
  }

  lemma Cross(raw: int, eff: int, size: int)
    ensures (raw - eff) * (raw - size) == raw * raw - raw * size - eff * raw + eff * size
    ensures (size - (raw - eff)) * raw == raw * size - raw * raw + eff * raw
  {
  }

  /** Which part of the effective size a close takes, and that what remains fits the remaining raw size. */
  lemma EffectiveCloseBounds(p: PositionV, oldEff: i128, size: u64, effClose: u128)
    requires 0 < Abs(oldEff) <= Abs(p.baseSize) && 0 < size <= Abs(p.baseSize)
    requires EffectiveClose(p, oldEff, size) == Done(effClose)
    ensures size == Abs(p.baseSize) ==> effClose == Abs(oldEff)
    ensures size < Abs(p.baseSize) ==> 0 <= effClose < Abs(oldEff) && Abs(oldEff) - effClose <= Abs(p.baseSize) - size
  {
    if size < Abs(p.baseSize) {
      PartialClose(Abs(oldEff), size, Abs(p.baseSize));
    }
  }

  lemma ReduceForm(s: Pair, side: Side, oldEff: i128, size: u64, effClose: u128, t: Pair)
    returns (target: i128, mid: Book)
    requires OnSide(s.p, side, s.m.Side(side)) && s.m.Side(side).a > 0
    requires s.p.baseSize != 0 && side == SideOf(s.p.baseSize) && s.p.basis != 0
    requires 0 < Abs(oldEff) <= Abs(s.p.baseSize) && 0 < size <= Abs(s.p.baseSize)
    requires EffectiveQ(s.p, s.m) == Done(oldEff) && EffectiveClose(s.p, oldEff, size) == Done(effClose)
    requires Reduce(s, oldEff, size, effClose) == Done(t)
    ensures Resized(s, side, target, mid, t)
    ensures Abs(target) <= Abs(t.p.baseSize) && (target == 0 <==> t.p.baseSize == 0)
    ensures target > 0 <==> t.p.baseSize > 0
    ensures t.p.baseSize == s.p.baseSize - SignedSize(side, size) && t.p.rewardSnap == s.p.rewardSnap
    ensures mid.total == s.m.Side(side).total && t.m.Side(side).total == SatSub(mid.total, size)
  {
    hide Rebase;
    hide EffectiveClose;
    hide EntryShare;
    hide EffectiveQ;
    hide OldSize;
    hide OnSide;
    hide RebasedBook;
    EffectiveCloseBounds(s.p, oldEff, size, effClose);
    EffectiveIsSize(s.p, s.m, side, oldEff);
    target := oldEff - SignedSize(side, effClose);
    var share := EntryShare(s.p, size).value;
    assert size <= I64_MAX;
    var s0 := s.(p := s.p.(baseSize := s.p.baseSize - SignedSize(side, size),
                         quoteEntry := SatSub(s.p.quoteEntry, share)));
    var s1 := Rebase(s0, oldEff, 0 - SignedSize(side, effClose)).value;
    RebaseResized(s, s0, side, oldEff, 0 - SignedSize(side, effClose), s1);
    mid := s1.m.Side(side);
  }

  lemma ReduceKeeps(rest: seq<PositionV>, s: Pair, side: Side, oldEff: i128, size: u64, effClose: u128, t: Pair)
    requires Inv(rest, s) && AtRest(s.m) && Current(s.p, s.m) && s.p.baseSize != 0 && side == SideOf(s.p.baseSize)
    requires 0 < size <= Abs(s.p.baseSize)
    requires EffectiveQ(s.p, s.m) == Done(oldEff) && EffectiveClose(s.p, oldEff, size) == Done(effClose)
    requires Reduce(s, oldEff, size, effClose) == Done(t)
    ensures Inv(rest, t) && OnlyBook(s, side, t) && AtRest(t.m)
  {
    InvShape(rest, s);
    CurrentOnSide(rest, s, side);
    RawTotal(rest, s, side);
    assert SideOk(side, rest, s);
    EffectiveIsSize(s.p, s.m, side, oldEff);
    hide EffectiveQ;
    hide EffectiveClose;
    hide Inv;
    var target, mid := ReduceForm(s, side, oldEff, size, effClose, t);
    hide Reduce;
    ResizeKeeps(rest, s, side, target, mid, t);
  }

  /** An account's raw size is part of its side's raw total, so taking it off never saturates. */
  lemma RawTotal(rest: seq<PositionV>, s: Pair, side: Side)
    requires Inv(rest, s)
    ensures BaseSizeOn(s.p, side) <= s.m.Side(side).total
  {
    assert SideOk(side, rest, s);
    SumNonNegative(BaseOn(side), rest);
  }
}
