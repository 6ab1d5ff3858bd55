/**
 The PerkOracle price account: a moving average, a band around the last price,
 a circuit breaker around the average and a sliding window, with part of the
 state packed into a reserved byte array.
 */
module PerkOracle {
  import opened Numbers
  import opened State

  type u8 = x: int | 0 <= x < 0x100

  const CIRCUIT_BREAKER_WINDOW_SLOTS: int := 50
  const WINDOW_BAND_MULTIPLIER: int := 3
  const BPS: int := 10_000

  // ---------------------------------------------------------------------------
  // What the handlers compute
  // ---------------------------------------------------------------------------

  datatype OracleV = OracleV(
    price: u64, confidence: u64, timestamp: i64, numSources: u8, minSources: u8, lastSlot: u64, ema: u64,
    maxStaleness: u32, frozen: bool, updates: u64,
    unfreezePending: bool, maxChangeBps: u16, preFreezePrice: u64, windowPrice: u64, windowSlot: u64, breakerBps: u16)

  datatype Report = Report(price: u64, confidence: u64, numSources: u8, slot: u64, time: i64)

  /** The deviation from a reference price in basis points, rounded down. */
  function DeviationBps(price: u64, reference: u64): Outcome<u64>
    requires reference > 0
  {
    var scaled :- CheckU64(Abs(price - reference) * BPS);
    QuotientAtMost(scaled, reference);
    Done(scaled / reference)
  }

  function Within(price: u64, reference: u64, limit: int): Outcome<()> {
    if reference == 0 then Done(())
    else
      var bps :- DeviationBps(price, reference);
      Require(bps <= limit)
  }

  /** No update after a gap of more than twice the staleness limit, except the first one after an unfreeze. */
  predicate GapAllowed(o: OracleV, time: i64) {
    o.timestamp <= 0 || o.unfreezePending || Min(time - o.timestamp, I64_MAX) <= 2 * o.maxStaleness
  }

  function BandReference(o: OracleV): u64 {
    if o.price > 0 then o.price else o.preFreezePrice
  }

  function NextEma(ema: u64, price: u64): u64 {
    if ema == 0 then price else Min(SatAddU64(price, Min(ema * 9, U64_MAX)) / 10, MAX_ORACLE_PRICE)
  }

  /** The running window is checked; an expired or unset one starts again at this update. */
  function InWindow(o: OracleV, slot: u64): bool {
    o.windowPrice > 0 && SatSub(slot, o.windowSlot) <= CIRCUIT_BREAKER_WINDOW_SLOTS
  }

  function UpdateWindow(o: OracleV, r: Report): OracleV {
    if o.maxChangeBps > 0 && !InWindow(o, r.slot) then o.(windowPrice := r.price, windowSlot := r.slot) else o
  }

  predicate Admissible(o: OracleV, r: Report) {
    && !o.frozen && 0 < r.price <= MAX_ORACLE_PRICE && r.numSources >= o.minSources && r.slot > o.lastSlot
    && GapAllowed(o, r.time)
  }

  function BandCheck(o: OracleV, price: u64): Outcome<()> {
    if o.maxChangeBps > 0 then Within(price, BandReference(o), o.maxChangeBps) else Done(())
  }

  function BreakerCheck(o: OracleV, price: u64): Outcome<()> {
    if o.breakerBps > 0 then Within(price, o.ema, o.breakerBps) else Done(())
  }

  function WindowCheck(o: OracleV, r: Report): Outcome<()> {
    if o.maxChangeBps > 0 && InWindow(o, r.slot)
    then Within(r.price, o.windowPrice, o.maxChangeBps * WINDOW_BAND_MULTIPLIER) else Done(())
  }

  function Update(o: OracleV, r: Report): Outcome<OracleV> {
    var _ :- Require(Admissible(o, r));
    var _ :- BandCheck(o, r.price);
    var _ :- BreakerCheck(o, r.price);
    var _ :- WindowCheck(o, r);
    Done(UpdateWindow(o, r).(
           unfreezePending := false, ema := NextEma(o.ema, r.price), price := r.price, confidence := r.confidence,
           timestamp := r.time, numSources := r.numSources, lastSlot := r.slot, updates := SatAddU64(o.updates, 1)))
  }

  /** Freezing only sets the flag; unfreezing withdraws the price and anchors average, band and window to it. */
  function SetFrozen(o: OracleV, frozen: bool, slot: u64): OracleV {
    if frozen then o.(frozen := true)
    else o.(frozen := false, preFreezePrice := o.price, ema := o.price, windowPrice := o.price, windowSlot := slot,
            price := 0, unfreezePending := true)
  }

  // ---------------------------------------------------------------------------
  // What is accepted
  // ---------------------------------------------------------------------------

  /** Every stored price is a price the oracle could have accepted. */
  predicate Sane(o: OracleV) {
    && o.price <= MAX_ORACLE_PRICE && o.ema <= MAX_ORACLE_PRICE
    && o.preFreezePrice <= MAX_ORACLE_PRICE && o.windowPrice <= MAX_ORACLE_PRICE
  }

  /** `price` deviates from `reference` by less than `limit + 1` basis points. */
  predicate Near(price: int, reference: int, limit: int) {
    Abs(price - reference) * BPS < (limit + 1) * reference
  }

  lemma WithinExactly(price: u64, reference: u64, limit: int)
    requires price <= MAX_ORACLE_PRICE && reference <= MAX_ORACLE_PRICE
    ensures Within(price, reference, limit).Done? <==> reference == 0 || Near(price, reference, limit)
  {
    if reference > 0 {
      var n := Abs(price - reference) * BPS;
      DivMod(n, reference);
      Distribute(limit, 1, reference);
      if n / reference <= limit {
        MulMono(n / reference, limit, reference);
      } else {
        MulMono(limit + 1, n / reference, reference);
      }
    }
  }

  lemma StaysSane(o: OracleV, r: Report, frozen: bool, slot: u64)
    requires Sane(o)
    ensures Update(o, r).Done? ==> Sane(Update(o, r).value)
    ensures Sane(SetFrozen(o, frozen, slot))
  {
    hide Within;
  }

  /** An update is accepted exactly under these conditions, in exact arithmetic. */
  lemma AcceptedExactly(o: OracleV, r: Report)
    requires Sane(o)
    ensures Update(o, r).Done?
       <==> && !o.frozen && 0 < r.price <= MAX_ORACLE_PRICE && r.numSources >= o.minSources && r.slot > o.lastSlot
            && (o.timestamp > 0 && !o.unfreezePending ==> r.time - o.timestamp <= 2 * o.maxStaleness)
            && (o.maxChangeBps > 0 && BandReference(o) > 0 ==> Near(r.price, BandReference(o), o.maxChangeBps))
            && (o.breakerBps > 0 && o.ema > 0 ==> Near(r.price, o.ema, o.breakerBps))
            && (o.maxChangeBps > 0 && InWindow(o, r.slot) ==> Near(r.price, o.windowPrice, 3 * o.maxChangeBps))
  {
    if 0 < r.price <= MAX_ORACLE_PRICE {
      WithinExactly(r.price, BandReference(o), o.maxChangeBps);
      WithinExactly(r.price, o.ema, o.breakerBps);
      WithinExactly(r.price, o.windowPrice, 3 * o.maxChangeBps);
    }
    hide Within;
    hide Near;
  }

  // ---------------------------------------------------------------------------
  // Freezing and unfreezing
  // ---------------------------------------------------------------------------

  /** What an update has to meet whatever the prices were before. */
  predicate WellFormed(o: OracleV, r: Report) {
    0 < r.price <= MAX_ORACLE_PRICE && r.numSources >= o.minSources && r.slot > o.lastSlot
  }

  /** `price` is within the band and the breaker of the oracle, as far as they are set, around `anchor`. */
  predicate HeldTo(o: OracleV, anchor: u64, price: u64) {
    && (o.maxChangeBps > 0 ==> Near(price, anchor, o.maxChangeBps))
    && (o.breakerBps > 0 ==> Near(price, anchor, o.breakerBps))
  }

  lemma NearWidens(price: int, anchor: nat, limit: nat, wider: nat)
    requires Near(price, anchor, limit) && limit <= wider
    ensures Near(price, anchor, wider)
  {
    MulMono(limit + 1, wider + 1, anchor);
  }

  /**
   After an unfreeze the next price is held to the price that was stored before it, if there was one,
   however long the gap; without one it is not held to anything.
   */
  lemma AcceptedAfterUnfreeze(o: OracleV, slot: u64, r: Report)
    requires Sane(o)
    ensures Update(SetFrozen(o, false, slot), r).Done?
       <==> WellFormed(o, r) && (o.price == 0 || HeldTo(o, o.price, r.price))
    ensures var n := Update(SetFrozen(o, false, slot), r);
            n.Done? ==> !n.value.unfreezePending && n.value.ema == NextEma(o.price, r.price)
  {
    StaysSane(o, r, false, slot);
    AcceptedExactly(SetFrozen(o, false, slot), r);
    hide Within;
    if o.maxChangeBps > 0 && Near(r.price, o.price, o.maxChangeBps) {
      NearWidens(r.price, o.price, o.maxChangeBps, 3 * o.maxChangeBps);
    }
    hide Near;
  }

  /** A series of freezes and unfreezes, with the slot of each. */
  function Switched(o: OracleV, switches: seq<(bool, u64)>): OracleV
    decreases |switches|
  {
    if switches == [] then o else Switched(SetFrozen(o, switches[0].0, switches[0].1), switches[1..])
  }

  function Unfreezes(switches: seq<(bool, u64)>): nat {
    if switches == [] then 0 else (if switches[0].0 then 0 else 1) + Unfreezes(switches[1..])
  }

  lemma {:induction false} SwitchedForm(o: OracleV, switches: seq<(bool, u64)>)
    requires Sane(o)
    ensures var n := Switched(o, switches);
            && Sane(n) && n.price == (if Unfreezes(switches) == 0 then o.price else 0)
            && n.minSources == o.minSources && n.lastSlot == o.lastSlot
            && n.maxChangeBps == o.maxChangeBps && n.breakerBps == o.breakerBps
    decreases |switches|
  {
    if switches != [] {
      SwitchedForm(SetFrozen(o, switches[0].0, switches[0].1), switches[1..]);
    }
  }

  lemma {:induction false} SwitchedLast(o: OracleV, switches: seq<(bool, u64)>, last: (bool, u64))
    ensures Switched(o, switches + [last]) == SetFrozen(Switched(o, switches), last.0, last.1)
    ensures Unfreezes(switches + [last]) == Unfreezes(switches) + if last.0 then 0 else 1
    decreases |switches|
  {
    var more := switches + [last];
    if switches == [] {
      assert more[0] == last && more[1..] == [];
      assert Switched(SetFrozen(o, last.0, last.1), []) == SetFrozen(o, last.0, last.1);
    } else {
      assert more[0] == switches[0] && more[1..] == switches[1..] + [last];
      SwitchedLast(SetFrozen(o, switches[0].0, switches[0].1), switches[1..], last);
    }
  }

  /** After any series that ends with an unfreeze: held to the last accepted price if that was the only one. */
  lemma AcceptedAfterSwitches(o: OracleV, switches: seq<(bool, u64)>, slot: u64, r: Report)
    requires Sane(o) && o.price > 0
    ensures Update(Switched(o, switches + [(false, slot)]), r).Done?
       <==> WellFormed(o, r) && (Unfreezes(switches) > 0 || HeldTo(o, o.price, r.price))
  {
    SwitchedForm(o, switches);
    SwitchedLast(o, switches, (false, slot));
    AcceptedAfterUnfreeze(Switched(o, switches), slot, r);
    hide Update;
    hide Near;
  }

  /** Every price that the oracle accepts next is held to `o.price`. */
  ghost predicate Anchored(o: OracleV, n: OracleV) {
    forall r: Report :: Update(n, r).Done? ==> HeldTo(o, o.price, r.price)
  }

  /**
   So the band and the breaker survive a series of freezes and unfreezes if and only if it unfroze the
   oracle once, that is with a price still stored.  A second unfreeze in a row, which the handler does
   not refuse, lets any price pass that is in range, such as one outside the band.
   */
  lemma AnchoredExactly(o: OracleV, switches: seq<(bool, u64)>, slot: u64, outlier: u64)
    requires Sane(o) && o.price > 0 && o.lastSlot < U64_MAX
    requires 0 < outlier <= MAX_ORACLE_PRICE && !HeldTo(o, o.price, outlier)
    ensures Anchored(o, Switched(o, switches + [(false, slot)])) <==> Unfreezes(switches) == 0
  {
    var n := Switched(o, switches + [(false, slot)]);
    hide Switched;
    hide Update;
    hide HeldTo;
    if Unfreezes(switches) == 0 {
      forall r: Report | Update(n, r).Done? ensures HeldTo(o, o.price, r.price) {
        AcceptedAfterSwitches(o, switches, slot, r);
      }
    } else {
      var r := Report(outlier, 0, 255, o.lastSlot + 1, 0);
      AcceptedAfterSwitches(o, switches, slot, r);
      assert Update(n, r).Done?;
    }
  }

  // ---------------------------------------------------------------------------
  // The moving average
  // ---------------------------------------------------------------------------

  /** The average lies between the old average and the new price, and never returns to zero. */
  lemma EmaInHull(ema: u64, price: u64)
    requires 0 < price <= MAX_ORACLE_PRICE && 0 < ema <= MAX_ORACLE_PRICE
    ensures Min(ema, price) <= NextEma(ema, price) <= Max(ema, price)
    ensures NextEma(ema, price) > 0
  {
  }

  /** It is nine parts of the old average and one of the new price, rounded down; the first price starts it. */
  lemma EmaWeights(ema: u64, price: u64)
    requires price <= MAX_ORACLE_PRICE && ema <= MAX_ORACLE_PRICE
    ensures if ema == 0 then NextEma(ema, price) == price
            else 10 * NextEma(ema, price) <= 9 * ema + price < 10 * NextEma(ema, price) + 10
  {
  }

  /** A series of accepted updates, with no freeze in between. */
  function Updates(o: OracleV, reports: seq<Report>): Outcome<OracleV>
    decreases |reports|
  {
    if reports == [] then Done(o)
    else
      var n :- Update(o, reports[0]);
      Updates(n, reports[1..])
  }

  lemma UpdateForm(o: OracleV, r: Report, n: OracleV)
    requires Sane(o) && Update(o, r) == Done(n)
    ensures Sane(n) && n.price == r.price && n.ema == NextEma(o.ema, r.price) && 0 < r.price <= MAX_ORACLE_PRICE
    ensures n.breakerBps == o.breakerBps && n.maxChangeBps == o.maxChangeBps && n.lastSlot == r.slot > o.lastSlot
    ensures o.breakerBps > 0 && o.ema > 0 ==> Near(r.price, o.ema, o.breakerBps)
    ensures n.windowPrice == (if o.maxChangeBps > 0 && !InWindow(o, r.slot) then r.price else o.windowPrice)
    ensures n.windowSlot == (if o.maxChangeBps > 0 && !InWindow(o, r.slot) then r.slot else o.windowSlot)
    ensures o.maxChangeBps > 0 && InWindow(o, r.slot) ==> Near(r.price, o.windowPrice, 3 * o.maxChangeBps)
  {
    AcceptedExactly(o, r);
    StaysSane(o, r, false, 0);
    hide Within;
    hide Near;
  }

  /** Over any series of updates the average stays within the hull of where it started and the accepted prices. */
  lemma {:induction false} EmaStaysInHull(o: OracleV, reports: seq<Report>, n: OracleV, lo: nat, hi: nat)
    requires Sane(o) && o.ema > 0 && Updates(o, reports) == Done(n)
    requires lo <= o.ema <= hi && forall r :: r in reports ==> lo <= r.price <= hi
    ensures lo <= n.ema <= hi && n.ema > 0
    decreases |reports|
  {
    hide Update;
    if reports != [] {
      var m := Update(o, reports[0]).value;
      UpdateForm(o, reports[0], m);
      EmaInHull(o.ema, reports[0].price);
      assert reports[0] in reports && forall r :: r in reports[1..] ==> r in reports;
      EmaStaysInHull(m, reports[1..], n, lo, hi);
    }
  }

  // ---------------------------------------------------------------------------
  // Drift
  // ---------------------------------------------------------------------------

  ghost function Power(x: real, n: nat): real {
    if n == 0 then 1.0 else x * Power(x, n - 1)
  }

  /** How much one update can raise the average, and how much a price can exceed it, with breaker `cb`. */
  ghost function EmaGrowth(cb: nat): real {
    1.0 + ((cb + 1) as real) / 100_000.0
  }

  ghost function PriceMargin(cb: nat): real {
    1.0 + ((cb + 1) as real) / 10_000.0
  }

  lemma PriceBelowMargin(price: int, ema: nat, cb: nat)
    requires Near(price, ema, cb)
    ensures price as real <= (ema as real) * PriceMargin(cb)
  {
    assert price * BPS <= ema * BPS + (cb + 1) * ema;
    assert ((cb + 1) * ema) as real == ((cb + 1) as real) * (ema as real);
  }

  lemma EmaBelowGrowth(price: u64, ema: u64, cb: nat)
    requires 0 < ema <= MAX_ORACLE_PRICE && price <= MAX_ORACLE_PRICE && Near(price, ema, cb)
    ensures NextEma(ema, price) as real <= (ema as real) * EmaGrowth(cb)
  {
    assert 10 * NextEma(ema, price) <= price + 9 * ema;
    PriceBelowMargin(price, ema, cb);
    assert (ema as real) * PriceMargin(cb) == ema as real + (ema as real) * (((cb + 1) as real) / 10_000.0);
    assert (ema as real) * EmaGrowth(cb) == ema as real + (ema as real) * (((cb + 1) as real) / 100_000.0);
    hide Near;
    hide NextEma;
  }

  lemma PowerPositive(x: real, n: nat)
    requires x >= 1.0
    ensures Power(x, n) >= 1.0
  {
    if n > 0 {
      PowerPositive(x, n - 1);
      assert x * Power(x, n - 1) >= 1.0 * Power(x, n - 1);
    }
  }

  lemma GrowthStep(ema: real, ema': real, growth: real, power: real)
    requires ema' <= ema * growth && power >= 0.0
    ensures ema' * power <= ema * (growth * power)
  {
    assert (ema * growth - ema') * power >= 0.0;
  }

  lemma {:induction false} EmaDrift(o: OracleV, reports: seq<Report>, n: OracleV)
    requires Sane(o) && o.ema > 0 && o.breakerBps > 0 && Updates(o, reports) == Done(n)
    ensures Sane(n) && n.ema > 0 && n.breakerBps == o.breakerBps
    ensures n.ema as real <= (o.ema as real) * Power(EmaGrowth(o.breakerBps), |reports|)
    decreases |reports|
  {
    hide Update;
    hide EmaGrowth;
    hide NextEma;
    hide Near;
    if reports != [] {
      var m := Update(o, reports[0]).value;
      UpdateForm(o, reports[0], m);
      EmaInHull(o.ema, reports[0].price);
      EmaBelowGrowth(reports[0].price, o.ema, o.breakerBps);
      EmaDrift(m, reports[1..], n);
      var growth := EmaGrowth(o.breakerBps);
      assert growth >= 1.0 by { GrowthAboveOne(o.breakerBps); }
      PowerPositive(growth, |reports| - 1);
      GrowthStep(o.ema as real, m.ema as real, growth, Power(growth, |reports| - 1));
    }
  }

  lemma GrowthAboveOne(cb: nat)
    ensures EmaGrowth(cb) >= 1.0 && PriceMargin(cb) >= 1.0
  {
  }

  lemma {:induction false} UpdatesSplit(o: OracleV, reports: seq<Report>, n: OracleV) returns (m: OracleV)
    requires reports != [] && Updates(o, reports) == Done(n)
    ensures Updates(o, reports[..|reports| - 1]) == Done(m) && Update(m, reports[|reports| - 1]) == Done(n)
    decreases |reports|
  {
    hide Update;
    if |reports| == 1 {
      m := o;
      assert Updates(n, reports[1..]) == Done(n);
    } else {
      var k := Update(o, reports[0]).value;
      m := UpdatesSplit(k, reports[1..], n);
      var init := reports[..|reports| - 1];
      assert init[0] == reports[0] && init[1..] == reports[1..][..|reports| - 2];
    }
  }

  /** After any number of updates the price is bounded by the starting average, the growth per update and one margin. */
  lemma PriceDrift(o: OracleV, reports: seq<Report>, n: OracleV)
    requires Sane(o) && o.ema > 0 && o.breakerBps > 0 && reports != [] && Updates(o, reports) == Done(n)
    ensures n.price as real
         <= (o.ema as real) * (Power(EmaGrowth(o.breakerBps), |reports| - 1) * PriceMargin(o.breakerBps))
  {
    hide Update;
    hide Updates;
    hide Near;
    hide EmaGrowth;
    hide PriceMargin;
    hide Power;
    hide NextEma;
    var m := UpdatesSplit(o, reports, n);
    EmaDrift(o, reports[..|reports| - 1], m);
    UpdateForm(m, reports[|reports| - 1], n);
    PriceBelowMargin(n.price, m.ema, o.breakerBps);
    GrowthAboveOne(o.breakerBps);
    var margin, power := PriceMargin(o.breakerBps), Power(EmaGrowth(o.breakerBps), |reports| - 1);
    MarginStep(m.ema as real, o.ema as real, power, margin);
  }

  lemma MarginStep(ema: real, ema0: real, power: real, margin: real)
    requires ema <= ema0 * power && margin >= 0.0
    ensures ema * margin <= ema0 * (power * margin)
  {
    assert (ema0 * power - ema) * margin >= 0.0;
  }

  // ---------------------------------------------------------------------------
  // The window
  // ---------------------------------------------------------------------------

  /** As long as a window runs, every accepted price is within three bands of the price it started from. */
  lemma {:induction false} WindowBand(o: OracleV, reports: seq<Report>, n: OracleV, i: nat)
    requires Sane(o) && o.maxChangeBps > 0 && o.windowPrice > 0 && Updates(o, reports) == Done(n)
    requires i < |reports|
    requires forall j :: 0 <= j <= i ==> SatSub(reports[j].slot, o.windowSlot) <= CIRCUIT_BREAKER_WINDOW_SLOTS
    ensures Near(reports[i].price, o.windowPrice, 3 * o.maxChangeBps)
    decreases |reports|
  {
    hide Update;
    hide Near;
    hide NextEma;
    assert SatSub(reports[0].slot, o.windowSlot) <= CIRCUIT_BREAKER_WINDOW_SLOTS;
    var m := Update(o, reports[0]).value;
    UpdateForm(o, reports[0], m);
    if i > 0 {
      assert forall j :: 0 <= j < |reports| - 1 ==> reports[1..][j] == reports[j + 1];
      WindowBand(m, reports[1..], n, i - 1);
    }
  }

  // ---------------------------------------------------------------------------
  // The reserved bytes
  // ---------------------------------------------------------------------------

  const RESERVED_BYTES: int := 64
  const UNFREEZE_PENDING: int := 0
  const MAX_PRICE_CHANGE: int := 1
  const PRE_FREEZE_PRICE: int := 3
  const WINDOW_REF_PRICE: int := 11
  const WINDOW_REF_SLOT: int := 19
  const CIRCUIT_BREAKER: int := 27
  const UNTOUCHED: int := 29

  /** The lowest `n` bytes of `v`, least significant first. */
  function LittleEndian(v: nat, n: nat): (s: seq<u8>)
    ensures |s| == n
  {
    if n == 0 then [] else [v % 0x100] + LittleEndian(v / 0x100, n - 1)
  }

  function FromLittleEndian(s: seq<u8>): nat {
    if s == [] then 0 else s[0] + 0x100 * FromLittleEndian(s[1..])
  }

  function Bytes(n: nat): nat {
    if n == 0 then 1 else 0x100 * Bytes(n - 1)
  }

  lemma {:induction false} DecodeEncode(v: nat, n: nat)
    requires v < Bytes(n)
    ensures FromLittleEndian(LittleEndian(v, n)) == v
  {
    if n > 0 {
      DecodeEncode(v / 0x100, n - 1);
      assert LittleEndian(v, n)[1..] == LittleEndian(v / 0x100, n - 1);
    }
  }

  lemma {:induction false} DecodeBound(s: seq<u8>)
    ensures FromLittleEndian(s) < Bytes(|s|)
  {
    if s != [] {
      DecodeBound(s[1..]);
    }
  }

  lemma {:induction false} EncodeDecode(s: seq<u8>)
    ensures LittleEndian(FromLittleEndian(s), |s|) == s
  {
    if s != [] {
      EncodeDecode(s[1..]);
      LowByte(s[0], FromLittleEndian(s[1..]));
      assert s == [s[0]] + s[1..];
    }
  }

  lemma LowByte(low: u8, high: nat)
    ensures (low + 0x100 * high) % 0x100 == low && (low + 0x100 * high) / 0x100 == high
  {
  }

  lemma WordSizes()
    ensures Bytes(2) == 0x1_0000 && Bytes(8) == TWO64
  {
  }

  function GetU16(s: seq<u8>, offset: nat): u16
    requires offset + 2 <= |s|
  {
    DecodeBound(s[offset..offset + 2]);
    WordSizes();
    FromLittleEndian(s[offset..offset + 2])
  }

  function GetU64(s: seq<u8>, offset: nat): u64
    requires offset + 8 <= |s|
  {
    DecodeBound(s[offset..offset + 8]);
    WordSizes();
    FromLittleEndian(s[offset..offset + 8])
  }

  /** Writing a word changes its own bytes only. */
  method PutU64(a: array<u8>, offset: nat, v: u64)
    requires offset + 8 <= a.Length
    modifies a
    ensures GetU64(a[..], offset) == v
    ensures forall i :: 0 <= i < a.Length && !(offset <= i < offset + 8) ==> a[i] == old(a[i])
  {
    var word := LittleEndian(v, 8);
    forall i | 0 <= i < 8 {
      a[offset + i] := word[i];
    }
    assert a[..][offset..offset + 8] == word;
    WordSizes();
    DecodeEncode(v, 8);
  }

  method PutU16(a: array<u8>, offset: nat, v: u16)
    requires offset + 2 <= a.Length
    modifies a
    ensures GetU16(a[..], offset) == v
    ensures forall i :: 0 <= i < a.Length && !(offset <= i < offset + 2) ==> a[i] == old(a[i])
  {
    var word := LittleEndian(v, 2);
    forall i | 0 <= i < 2 {
      a[offset + i] := word[i];
    }
    assert a[..][offset..offset + 2] == word;
    WordSizes();
    DecodeEncode(v, 2);
  }

  // ---------------------------------------------------------------------------
  // The account
  // ---------------------------------------------------------------------------

  class Oracle {
    var price: u64
    var confidence: u64
    var timestamp: i64
    var numSources: u8
    var minSources: u8
    var lastSlot: u64
    var ema: u64
    var maxStaleness: u32
    var frozen: bool
    var updates: u64
    const reserved: array<u8>

    predicate Valid()
      reads this
    {
      reserved.Length == RESERVED_BYTES
    }

    function View(): OracleV
      requires Valid()
      reads this, reserved
    {
      var r := reserved[..];
      OracleV(price, confidence, timestamp, numSources, minSources, lastSlot, ema, maxStaleness, frozen, updates,
              r[UNFREEZE_PENDING] == 1, GetU16(r, MAX_PRICE_CHANGE), GetU64(r, PRE_FREEZE_PRICE),
              GetU64(r, WINDOW_REF_PRICE), GetU64(r, WINDOW_REF_SLOT), GetU16(r, CIRCUIT_BREAKER))
    }

    constructor (minSources: u8, maxStaleness: u32, maxChangeBps: u16, breakerBps: u16)
      ensures Valid() && fresh(reserved)
      ensures View() == OracleV(0, 0, 0, 0, minSources, 0, 0, maxStaleness, false, 0,
                                false, maxChangeBps, 0, 0, 0, breakerBps)
    {
      price, confidence, timestamp, numSources, lastSlot, ema, updates := 0, 0, 0, 0, 0, 0, 0;
      this.minSources, this.maxStaleness, frozen := minSources, maxStaleness, false;
      reserved := new u8[RESERVED_BYTES](_ => 0);
      new;
      PutU16(reserved, MAX_PRICE_CHANGE, maxChangeBps);
      ghost var mid := reserved[..];
      ZeroAt(mid, PRE_FREEZE_PRICE);
      ZeroAt(mid, WINDOW_REF_PRICE);
      ZeroAt(mid, WINDOW_REF_SLOT);
      PutU16(reserved, CIRCUIT_BREAKER, breakerBps);
      SameBytes(mid, reserved[..], CIRCUIT_BREAKER, 2);
    }

    /** The checks on the report itself; the first update after an unfreeze uses up its flag. */
    method Admit(r: Report) returns (status: Outcome<()>)
      requires Valid()
      modifies reserved
      ensures status.Done? <==> Admissible(old(View()), r)
      ensures status.Done? ==> View() == old(View()).(unfreezePending := false)
      ensures reserved[UNTOUCHED..] == old(reserved[UNTOUCHED..])
    {
      if frozen || r.price == 0 || r.price > MAX_ORACLE_PRICE || r.numSources < minSources || r.slot <= lastSlot {
        return Abort;
      }
      var pending := reserved[UNFREEZE_PENDING] == 1;
      if timestamp > 0 && !pending {
        var gap := Min(r.time - timestamp, I64_MAX);
        if gap > 2 * maxStaleness {
          return Abort;
        }
      }
      if pending {
        ClearFlag();
      }
      return Done(());
    }

    method CheckBand(newPrice: u64) returns (status: Outcome<()>)
      requires Valid()
      ensures status.Done? <==> BandCheck(View(), newPrice).Done?
    {
      var maxChange := GetU16(reserved[..], MAX_PRICE_CHANGE);
      if maxChange > 0 {
        var reference := if price > 0 then price else GetU64(reserved[..], PRE_FREEZE_PRICE);
        if Within(newPrice, reference, maxChange).Abort? {
          return Abort;
        }
      }
      return Done(());
    }

    method CheckBreaker(newPrice: u64, oldEma: u64) returns (status: Outcome<()>)
      requires Valid()
      ensures status.Done? <==> BreakerCheck(View().(ema := oldEma), newPrice).Done?
    {
      var breaker := GetU16(reserved[..], CIRCUIT_BREAKER);
      if breaker > 0 && Within(newPrice, oldEma, breaker).Abort? {
        return Abort;
      }
      return Done(());
    }

    method SlideWindow(r: Report) returns (status: Outcome<()>)
      requires Valid()
      modifies reserved
      ensures status.Done? <==> WindowCheck(old(View()), r).Done?
      ensures status.Done? ==> View() == UpdateWindow(old(View()), r)
      ensures reserved[UNTOUCHED..] == old(reserved[UNTOUCHED..])
    {
      var maxChange := GetU16(reserved[..], MAX_PRICE_CHANGE);
      if maxChange > 0 {
        var windowPrice := GetU64(reserved[..], WINDOW_REF_PRICE);
        var windowSlot := GetU64(reserved[..], WINDOW_REF_SLOT);
        if windowPrice > 0 && SatSub(r.slot, windowSlot) <= CIRCUIT_BREAKER_WINDOW_SLOTS {
          if Within(r.price, windowPrice, maxChange * WINDOW_BAND_MULTIPLIER).Abort? {
            return Abort;
          }
        } else {
          StartWindow(r.price, r.slot);
        }
      }
      return Done(());
    }

    /** The cranker's update.  On abort the platform restores the account. */
    method UpdatePrice(r: Report) returns (status: Outcome<()>)
      requires Valid()
      modifies this, reserved
      ensures Valid()
      ensures status.Done? <==> Update(old(View()), r).Done?
      ensures status.Done? ==> View() == Update(old(View()), r).value
      ensures reserved[UNTOUCHED..] == old(reserved[UNTOUCHED..])
    {
      hide Admissible;
      hide Within;
      hide NextEma;
      hide GetU16;
      hide GetU64;
      var _ :- Admit(r);
      var _ :- CheckBand(r.price);
      var oldEma := ema;
      ema := NextEma(oldEma, r.price);
      var _ :- CheckBreaker(r.price, oldEma);
      var _ :- SlideWindow(r);
      price, confidence, timestamp, numSources, lastSlot := r.price, r.confidence, r.time, r.numSources, r.slot;
      updates := SatAddU64(updates, 1);
      return Done(());
    }

    method ClearFlag()
      requires Valid()
      modifies reserved
      ensures View() == old(View()).(unfreezePending := false)
      ensures reserved[UNTOUCHED..] == old(reserved[UNTOUCHED..])
    {
      ghost var before := reserved[..];
      reserved[UNFREEZE_PENDING] := 0;
      SameBytes(before, reserved[..], UNFREEZE_PENDING, 1);
    }

    method StartWindow(price: u64, slot: u64)
      requires Valid()
      modifies reserved
      ensures View() == old(View()).(windowPrice := price, windowSlot := slot)
      ensures reserved[UNTOUCHED..] == old(reserved[UNTOUCHED..])
    {
      ghost var before := reserved[..];
      PutU64(reserved, WINDOW_REF_PRICE, price);
      ghost var mid := reserved[..];
      SameBytes(before, mid, WINDOW_REF_PRICE, 8);
      PutU64(reserved, WINDOW_REF_SLOT, slot);
      SameBytes(mid, reserved[..], WINDOW_REF_SLOT, 8);
    }

    /** The admin's emergency switch. */
    method SetFreeze(frozen: bool, slot: u64)
      requires Valid()
      modifies this, reserved
      ensures Valid() && View() == SetFrozen(old(View()), frozen, slot)
      ensures reserved[UNTOUCHED..] == old(reserved[UNTOUCHED..])
    {
      this.frozen := frozen;
      if !frozen {
        ghost var before := reserved[..];
        PutU64(reserved, PRE_FREEZE_PRICE, price);
        SameBytes(before, reserved[..], PRE_FREEZE_PRICE, 8);
        var last := price;
        ema := last;
        StartWindow(last, slot);
        price := 0;
        ghost var mid := reserved[..];
        reserved[UNFREEZE_PENDING] := 1;
        SameBytes(mid, reserved[..], UNFREEZE_PENDING, 1);
      }
    }
  }

  /** Changing `n` bytes at `offset` leaves every word elsewhere as it was. */
  lemma SameBytes(s: seq<u8>, t: seq<u8>, offset: nat, n: nat)
    requires |s| == |t| == RESERVED_BYTES && offset + n <= UNTOUCHED
    requires forall i :: 0 <= i < RESERVED_BYTES && !(offset <= i < offset + n) ==> t[i] == s[i]
    ensures s[UNTOUCHED..] == t[UNTOUCHED..]
    ensures forall i :: 0 <= i && i + 2 <= RESERVED_BYTES && (i + 2 <= offset || offset + n <= i) ==>
              GetU16(t, i) == GetU16(s, i)
    ensures forall i :: 0 <= i && i + 8 <= RESERVED_BYTES && (i + 8 <= offset || offset + n <= i) ==>
              GetU64(t, i) == GetU64(s, i)
  {
    forall i | 0 <= i && i + 2 <= RESERVED_BYTES && (i + 2 <= offset || offset + n <= i)
      ensures GetU16(t, i) == GetU16(s, i)
    {
      assert t[i..i + 2] == s[i..i + 2];
    }
    forall i | 0 <= i && i + 8 <= RESERVED_BYTES && (i + 8 <= offset || offset + n <= i)
      ensures GetU64(t, i) == GetU64(s, i)
    {
      assert t[i..i + 8] == s[i..i + 8];
    }
  }

  lemma {:induction false} ZeroDecodes(s: seq<u8>)
    requires forall i :: 0 <= i < |s| ==> s[i] == 0
    ensures FromLittleEndian(s) == 0
  {
    if s != [] {
      ZeroDecodes(s[1..]);
    }
  }

  lemma ZeroAt(s: seq<u8>, offset: nat)
    requires offset + 8 <= |s| && forall i :: offset <= i < offset + 8 ==> s[i] == 0
    ensures GetU64(s, offset) == 0
  {
    ZeroDecodes(s[offset..offset + 8]);
  }
}
