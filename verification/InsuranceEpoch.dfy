/**
 The insurance fund over an epoch: whatever losses it is asked to pay and
 whatever flows in, it pays at most 30% of its highest balance, never below
 its floor, and exactly what it reports as paid.
 */
module InsuranceEpoch {
  import opened Numbers
  import opened State
  import opened Risk

  datatype Event = Draw(loss: u128) | Inflow(amount: u128)

  function Apply(f: Funds, e: Event): Funds {
    match e
    case Draw(loss) => UseInsurance(f, loss)
    case Inflow(amount) => CreditInsurance(f, amount)
  }

  function Epoch(f: Funds, events: seq<Event>): Funds
    decreases |events|
  {
    if events == [] then f else Epoch(Apply(f, events[0]), events[1..])
  }

  /** The highest balance of the epoch. */
  function Peak(f: Funds, events: seq<Event>): nat
    decreases |events|
  {
    if events == [] then f.insurance else Max(f.insurance, Peak(Apply(f, events[0]), events[1..]))
  }

  /** Everything paid towards losses in the epoch. */
  function Paid(f: Funds, events: seq<Event>): nat
    decreases |events|
  {
    if events == [] then 0
    else (if events[0].Draw? then InsurancePay(f, events[0].loss) else 0) + Paid(Apply(f, events[0]), events[1..])
  }

  function Cap(balance: nat): nat {
    (balance * INSURANCE_EPOCH_CAP_BPS) / 10_000
  }

  /**
   One draw: it never takes the balance below the floor and stays within the epoch's cap, and it pays
   all of the loss unless it has reached one of these two limits.
   */
  lemma DrawLimits(f: Funds, loss: u128)
    ensures var g := UseInsurance(f, loss);
            && g.insurance == f.insurance - InsurancePay(f, loss)
            && 0 <= InsurancePay(f, loss) <= loss
            && g.insurance >= Min(f.insurance, f.insuranceFloor)
            && g.insurance >= f.insurance / 5
            && (InsurancePay(f, loss) > 0 ==> g.insurance >= f.insuranceFloor)
            && (InsurancePay(f, loss) > 0 ==> f.epochPayout + InsurancePay(f, loss) <= Cap(f.insurance))
            && g.epochPayout == f.epochPayout + InsurancePay(f, loss)
            && (InsurancePay(f, loss) < loss ==>
                  g.insurance <= Max(f.insuranceFloor, f.insurance / 5) || g.epochPayout >= Cap(f.insurance))
  {
    assert Cap(f.insurance) <= f.insurance;
  }

  lemma CapMono(x: nat, y: nat)
    requires x <= y
    ensures Cap(x) <= Cap(y)
  {
  }

  /** Within an epoch the counter is exactly what has been paid, and it never exceeds 30% of the peak balance. */
  lemma {:induction false} EpochLimits(f: Funds, events: seq<Event>)
    ensures Epoch(f, events).epochPayout == f.epochPayout + Paid(f, events)
    ensures Epoch(f, events).epochPayout <= Max(f.epochPayout, Cap(Peak(f, events)))
    decreases |events|
  {
    if events != [] {
      var g := Apply(f, events[0]);
      EpochLimits(g, events[1..]);
      CapMono(f.insurance, Peak(f, events));
      CapMono(Peak(g, events[1..]), Peak(f, events));
      if events[0].Draw? {
        DrawLimits(f, events[0].loss);
      }
      hide Cap;
      hide InsurancePay;
    }
  }

  /** From the start of an epoch, everything paid out is within 30% of the peak balance. */
  lemma PaidWithinThirtyPercent(f: Funds, events: seq<Event>)
    requires f.epochPayout == 0
    ensures Paid(f, events) * 10_000 <= INSURANCE_EPOCH_CAP_BPS * Peak(f, events)
  {
    EpochLimits(f, events);
  }

  function Inflows(events: seq<Event>): nat {
    if events == [] then 0 else (if events[0].Inflow? then events[0].amount else 0) + Inflows(events[1..])
  }

  /** The fund never falls below its floor, and nothing is paid that was not there or did not flow in. */
  lemma {:induction false} FloorAndBalance(f: Funds, events: seq<Event>)
    ensures Epoch(f, events).insurance >= Min(f.insurance, f.insuranceFloor)
    ensures Epoch(f, events).insurance + Paid(f, events) <= f.insurance + Inflows(events)
    decreases |events|
  {
    if events != [] {
      var g := Apply(f, events[0]);
      FloorAndBalance(g, events[1..]);
      if events[0].Draw? {
        DrawLimits(f, events[0].loss);
      }
      hide InsurancePay;
    }
  }

  // ---------------------------------------------------------------------------
  // Composing epochs
  // ---------------------------------------------------------------------------

  /** The fields that a draw looks at and changes. */
  predicate SameInsurance(f: Funds, g: Funds) {
    f.insurance == g.insurance && f.insuranceFloor == g.insuranceFloor && f.epochPayout == g.epochPayout
  }

  lemma {:induction false} EpochDependsOn(f: Funds, g: Funds, events: seq<Event>)
    requires SameInsurance(f, g)
    ensures SameInsurance(Epoch(f, events), Epoch(g, events))
    ensures Paid(f, events) == Paid(g, events) && Peak(f, events) == Peak(g, events)
    decreases |events|
  {
    if events != [] {
      EpochDependsOn(Apply(f, events[0]), Apply(g, events[0]), events[1..]);
    }
  }

  lemma {:induction false} EpochAppend(f: Funds, first: seq<Event>, second: seq<Event>)
    ensures Epoch(f, first + second) == Epoch(Epoch(f, first), second)
    decreases |first|
  {
    hide Apply;
    if first == [] {
      assert first + second == second;
    } else {
      EpochAppend(Apply(f, first[0]), first[1..], second);
      assert (first + second)[0] == first[0] && (first + second)[1..] == first[1..] + second;
    }
  }

  /** From `f` to `g` the insurance fund goes through exactly these events. */
  predicate Insures(f: Funds, events: seq<Event>, g: Funds) {
    SameInsurance(Epoch(f, events), g)
  }

  lemma InsuresSame(f: Funds, g: Funds)
    requires SameInsurance(f, g)
    ensures Insures(f, [], g)
  {
  }

  lemma InsuresOnce(f: Funds, e: Event, g: Funds)
    requires SameInsurance(Apply(f, e), g)
    ensures Insures(f, [e], g)
  {
    hide Apply;
    assert [e][1..] == [];
    assert Epoch(f, [e]) == Apply(f, e);
  }

  lemma InsuresChain(f: Funds, first: seq<Event>, g: Funds, second: seq<Event>, h: Funds)
    requires Insures(f, first, g) && Insures(g, second, h)
    ensures Insures(f, first + second, h)
  {
    EpochAppend(f, first, second);
    EpochDependsOn(Epoch(f, first), g, second);
    hide Epoch;
  }

  /** Untouched before or after. */
  lemma InsuresAround(f: Funds, g: Funds, events: seq<Event>, h: Funds, k: Funds)
    requires SameInsurance(f, g) && Insures(g, events, h) && SameInsurance(h, k)
    ensures Insures(f, events, k)
  {
    EpochDependsOn(f, g, events);
    hide Epoch;
  }
}
