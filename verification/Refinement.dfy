/**
 The refinement over runs.  Whatever other accounts do, an account that is
 left alone is not touched by the engine: it stays the value it was while only
 the indices of its side move.  What settling it at the end of any run would
 book is what eager accounting of every price change, funding sub-step,
 charged deficit, size cut and reset of that run gives it.
 */
module Refinement {
  import opened Numbers
  import opened State
  import opened Risk
  import opened Invariants
  import opened Traces
  import opened Runs
  import opened Handlers
  import LazyIndex

  type Script = seq<(Instruction, Env)>

  // ---------------------------------------------------------------------------
  // An account that is left alone
  // ---------------------------------------------------------------------------

  /** Where the account at `who` is after a step on another one: a reclaim moves it up in the list. */
  function Moved(before: World, i: Instruction, after: World, who: nat): nat {
    if i.OnAccount() && |after.accounts| < |before.accounts| && i.who < who then who - 1 else who
  }

  /** No instruction of the run succeeds on the account. */
  predicate Spared(w: World, steps: Script, who: nat)
    decreases |steps|
  {
    steps == [] ||
    var v := Step(w, steps[0].0, steps[0].1);
    && (steps[0].0.OnAccount() && steps[0].0.who == who ==> v == w)
    && Spared(v, steps[1..], Moved(w, steps[0].0, v, who))
  }

  function Place(w: World, steps: Script, who: nat): nat
    decreases |steps|
  {
    if steps == [] then who
    else
      var v := Step(w, steps[0].0, steps[0].1);
      Place(v, steps[1..], Moved(w, steps[0].0, v, who))
  }

  lemma OthersStay(w: World, i: Instruction, env: Env, who: nat)
    requires who < |w.accounts| && (i.OnAccount() && i.who == who ==> Step(w, i, env) == w)
    ensures var v := Step(w, i, env);
            Moved(w, i, v, who) < |v.accounts| && v.accounts[Moved(w, i, v, who)] == w.accounts[who]
  {
    hide AccountStep;
    hide MarketStep;
  }

  /** It is still there at the end of the run, and still the same. */
  lemma {:induction false} SparedStays(w: World, steps: Script, who: nat)
    requires who < |w.accounts| && Spared(w, steps, who)
    ensures Place(w, steps, who) < |Run(w, steps).accounts|
    ensures Run(w, steps).accounts[Place(w, steps, who)] == w.accounts[who]
    decreases |steps|
  {
    hide Step;
    hide Moved;
    if steps != [] {
      OthersStay(w, steps[0].0, steps[0].1, who);
      var v := Step(w, steps[0].0, steps[0].1);
      SparedStays(v, steps[1..], Moved(w, steps[0].0, v, who));
    }
  }

  // ---------------------------------------------------------------------------
  // What the indices of a side go through in a run
  // ---------------------------------------------------------------------------

  /** What drives the indices of `side` in a step. */
  function DriveOn(side: Side, w: World, i: Instruction, env: Env): Drive {
    if side == Long then StepDrive(w, i, env) else Mirror(StepDrive(w, i, env))
  }

  /**
   One trace for every step, from the indices before it to those after it, with entries that the
   prices, rates and open interest of that step account for.
   */
  ghost predicate Follows(w: World, steps: Script, side: Side, traces: seq<seq<Entry>>)
    decreases |steps|
  {
    if steps == [] then traces == []
    else
      && traces != []
      && StepFollows(w, steps[0].0, steps[0].1, side, traces[0])
      && Follows(Step(w, steps[0].0, steps[0].1), steps[1..], side, traces[1..])
  }

  ghost predicate StepFollows(w: World, i: Instruction, env: Env, side: Side, trace: seq<Entry>) {
    && Leads(w.m.Side(side), trace, Step(w, i, env).m.Side(side))
    && AllFit(trace, w.m.Side(side).oi, DriveOn(side, w, i, env))
  }

  lemma StepTraced(w: World, i: Instruction, env: Env, side: Side)
    requires WorldOk(w)
    ensures exists trace: seq<Entry> :: StepFollows(w, i, env, side, trace)
  {
    hide WorldOk;
    hide Step;
    hide StepDrive;
    hide Leads;
    hide AllFit;
    StepFlow(w, i, env);
    var b, c, d := w.m.Side(side), Step(w, i, env).m.Side(side), DriveOn(side, w, i, env);
    assert Evolves(b, c, d);
    var trace: seq<Entry> :| Leads(b, trace, c) && AllFit(trace, b.oi, d);
    assert StepFollows(w, i, env, side, trace);
  }

  /** Every run has such traces. */
  lemma {:induction false} RunTraced(w: World, steps: Script, side: Side)
    requires WorldOk(w)
    ensures exists traces: seq<seq<Entry>> :: Follows(w, steps, side, traces)
    decreases |steps|
  {
    hide WorldOk;
    hide Step;
    hide StepFollows;
    if steps == [] {
      assert Follows(w, steps, side, []);
    } else {
      var v := Step(w, steps[0].0, steps[0].1);
      StepKeeps(w, steps[0].0, steps[0].1);
      StepTraced(w, steps[0].0, steps[0].1, side);
      var trace: seq<Entry> :| StepFollows(w, steps[0].0, steps[0].1, side, trace);
      RunTraced(v, steps[1..], side);
      var traces: seq<seq<Entry>> :| Follows(v, steps[1..], side, traces);
      assert ([trace] + traces)[1..] == traces;
      assert Follows(w, steps, side, [trace] + traces);
    }
  }

  ghost function Flatten(traces: seq<seq<Entry>>): seq<Entry> {
    if traces == [] then [] else traces[0] + Flatten(traces[1..])
  }

  lemma {:induction false} FollowsLeads(w: World, steps: Script, side: Side, traces: seq<seq<Entry>>)
    requires Follows(w, steps, side, traces)
    ensures Leads(w.m.Side(side), Flatten(traces), Run(w, steps).m.Side(side))
    decreases |steps|
  {
    hide Step;
    hide Leads;
    hide AllFit;
    if steps == [] {
      assert Leads(w.m.Side(side), [], w.m.Side(side)) by {
        LeadsNowhere(w.m.Side(side));
      }
    } else {
      var v := Step(w, steps[0].0, steps[0].1);
      FollowsLeads(v, steps[1..], side, traces[1..]);
      TracesAppend(w.m.Side(side), traces[0], v.m.Side(side), Flatten(traces[1..]), Run(w, steps).m.Side(side));
    }
  }

  lemma LeadsNowhere(b: Book)
    ensures Leads(b, [], b)
  {
  }

  // ---------------------------------------------------------------------------
  // The refinement
  // ---------------------------------------------------------------------------

  /** An account that could be settled at the current epoch of its side. */
  ghost predicate Live(w: World, side: Side, who: nat) {
    && who < |w.accounts| && Holds(w.accounts[who], side)
    && w.accounts[who].epochSnap == w.m.Side(side).epoch && w.accounts[who].aSnap > 0
  }

  /** The account's holding by eager accounting of everything its side went through. */
  ghost function EagerOver(p: PositionV, b: Book, traces: seq<seq<Entry>>): LazyIndex.Holding
    requires p.aSnap > 0 && LazyIndex.Sound(Flatten(traces))
  {
    LazyIndex.EagerRun(LazyIndex.Lazy(p, b), LazyIndex.EventsOf(Flatten(traces)))
  }

  ghost function Resets(traces: seq<seq<Entry>>): nat
    requires LazyIndex.Sound(Flatten(traces))
  {
    LazyIndex.WindUps(LazyIndex.EventsOf(Flatten(traces)))
  }

  /**
   Over any run that leaves an account alone, whatever the others do, the two indices of its side say
   exactly what eager accounting of the run gives the account, if and only if the side was reset at
   most once or there was no profit to lose; and the epoch counts the resets.
   */
  lemma RunRefinesEager(w: World, steps: Script, side: Side, who: nat, traces: seq<seq<Entry>>)
    requires WorldOk(w) && Live(w, side, who) && Spared(w, steps, who) && Follows(w, steps, side, traces)
    ensures LazyIndex.Sound(Flatten(traces))
    ensures var p, b, c := w.accounts[who], w.m.Side(side), Run(w, steps).m.Side(side);
            var eager := EagerOver(p, b, traces);
            && Place(w, steps, who) < |Run(w, steps).accounts| && Run(w, steps).accounts[Place(w, steps, who)] == p
            && c.epoch == b.epoch + Resets(traces)
            && (LazyIndex.Lazy(p, c) == eager <==> Resets(traces) <= 1 || eager.pnl == 0.0)
  {
    hide WorldOk;
    hide Step;
    hide Run;
    hide Place;
    hide Spared;
    hide Follows;
    hide Leads;
    hide LazyIndex.Lazy;
    hide LazyIndex.EventsOf;
    hide LazyIndex.EagerRun;
    hide LazyIndex.Sound;
    SparedStays(w, steps, who);
    FollowsLeads(w, steps, side, traces);
    LazyIndex.TracesSound(w.m.Side(side), Flatten(traces), Run(w, steps).m.Side(side));
    LazyIndex.TraceRefinesEager(w.accounts[who], w.m.Side(side), Flatten(traces), Run(w, steps).m.Side(side));
  }

  /**
   So settling the account at the end of the run books the whole units of its eager profit, and it
   has a position left exactly when its eager size is at least one unit.
   */
  lemma RunSettlesEager(w: World, steps: Script, side: Side, who: nat, traces: seq<seq<Entry>>, t: Pair)
    requires WorldOk(w) && Live(w, side, who) && Spared(w, steps, who) && Follows(w, steps, side, traces)
    requires LazyIndex.SettleNow(Pair(w.accounts[who], Run(w, steps).m), side) == Done(t)
    ensures LazyIndex.Sound(Flatten(traces))
    ensures var eager, booked := EagerOver(w.accounts[who], w.m.Side(side), traces), t.p.pnl - w.accounts[who].pnl;
            && (Resets(traces) <= 1 ==> booked as real <= eager.pnl < booked as real + 1.0)
            && (Resets(traces) > 1 ==> booked == 0)
            && (t.p.basis == 0 <==> eager.size < 1.0)
  {
    RunRefinesEager(w, steps, side, who, traces);
    hide WorldOk;
    hide Run;
    hide Spared;
    hide Follows;
    hide SettleCurrent;
    hide Risk.SettleStale;
    hide EagerOver;
    hide Resets;
    var s := Pair(w.accounts[who], Run(w, steps).m);
    if s.p.epochSnap == s.m.Side(side).epoch {
      LazyIndex.SettlesFloor(s, side, t);
    } else {
      LazyIndex.SettlesStaleFloor(s, side, t);
      EagerEnds(s.p, w.m.Side(side), traces);
    }
    hide LazyIndex.Lazy;
  }

  lemma EagerEnds(p: PositionV, b: Book, traces: seq<seq<Entry>>)
    requires p.aSnap > 0 && LazyIndex.Sound(Flatten(traces)) && Resets(traces) >= 1
    ensures EagerOver(p, b, traces).size == 0.0
  {
    hide LazyIndex.EagerRun;
    hide LazyIndex.EventsOf;
    hide LazyIndex.Lazy;
    LazyIndex.WoundUp(LazyIndex.Lazy(p, b), LazyIndex.EventsOf(Flatten(traces)));
  }
}
