/** What a full collection keeps from its start to its end. */
module LuaFullCycle {
  import opened LuaHeap
  import opened LuaGcState
  import opened LuaMutator
  import opened LuaCycle
  import opened LuaEmpties
  import opened LuaRun

  /** Nothing but steps of the collector: the program does not run. */
  ghost predicate CollectorRun(run: seq<State>) {
    forall i :: 0 <= i < |run| - 1 ==> Collects(run[i], run[i + 1]) || Abandons(run[i], run[i + 1])
  }

  lemma ExtendCollector(run: seq<State>, t: State)
    requires CollectorRun(run) && |run| > 0 && (Collects(run[|run| - 1], t) || Abandons(run[|run| - 1], t))
    ensures CollectorRun(run + [t])
  {
    hide Collects, Abandons;
    var r := run + [t];
    forall i | 0 <= i < |r| - 1 ensures Collects(r[i], r[i + 1]) || Abandons(r[i], r[i + 1]) {
      if i < |run| - 1 { assert r[i] == run[i] && r[i + 1] == run[i + 1]; }
    }
  }

  /** A full collection that began with `reach` reachable and the objects of `body0`
      has got to `s`, by the steps of `run`. */
  ghost predicate Cycling(s: State, reach: set<Ref>, body0: map<Ref, Body>, done: bool, run: seq<State>) {
    && Inv(s) && Surviving(s, reach, done) && AllSince(body0, s, done) && (done ==> Rank(s.phase) < 6)
    && Run(run) && run[|run| - 1] == s && CollectorRun(run)
  }

  lemma RunStart(s: State)
    requires Inv(s)
    ensures Run([s]) && CollectorRun([s])
  {
    hide Inv;
  }

  lemma CyclingInv(s: State, reach: set<Ref>, body0: map<Ref, Body>, done: bool, run: seq<State>)
    requires Cycling(s, reach, body0, done, run)
    ensures Inv(s) && Spared(s) && (done ==> Rank(s.phase) < 6) && !s.phase.InsideAtomic? && Run(run) && |run| > 0
  {
    hide Inv, Run, AllSince, Spared, Closed, CollectorRun;
    PhaseIsSettled(s);
    RunLength(run);
  }

  lemma CyclingStart(s: State, t: State, reach: set<Ref>, run: seq<State>)
    requires Inv(s) && reach == Reach(Graph(s), Roots(s)) && ((t == s && !Keeps(s.phase)) || Abandons(s, t))
    requires Run(run) && run[|run| - 1] == t && CollectorRun(run)
    ensures Cycling(t, reach, s.body, false, run) && Rank(t.phase) < 6
  {
    hide Inv, Run, AllSince, Surviving, Reach, EnterSweepOf, CollectorRun;
    StartSurviving(s, t, reach);
    SinceStart(s, t);
    PhaseIsSettled(t);
    if Abandons(s, t) { AbandonStep(s, t); }
  }

  lemma AbandonRun(s: State, t: State)
    requires Inv(s) && Keeps(s.phase) && t == EnterSweepOf(s)
    ensures Abandons(s, t) && Run([s] + [t]) && CollectorRun([s] + [t])
  {
    hide Inv, EnterSweepOf, Collects, Followable, CollectorRun;
    RunStart(s);
    ExtendRun([s], t);
    ExtendCollector([s], t);
  }

  lemma CyclingStep(s: State, t: State, reach: set<Ref>, body0: map<Ref, Body>, done: bool, run: seq<State>)
    requires Cycling(s, reach, body0, done, run) && Collects(s, t) && (done ==> !s.phase.Pause?)
    ensures Cycling(t, reach, body0, done || s.phase.EnterAtomic?, run + [t])
  {
    hide Inv, Run, AllSince, Surviving, Collects, Followable, CollectorRun;
    CyclingInv(s, reach, body0, done, run);
    SurvivingStep(s, t, reach, done);
    SinceStep(body0, s, t, done);
    SparedFollowable(s);
    CollectIsStep(s, t);
    ExtendRun(run, t);
    ExtendCollector(run, t);
    if done || s.phase.EnterAtomic? { AfterAtomic(s, t); }
  }

  lemma CollectIsStep(s: State, t: State)
    requires Collects(s, t) && Followable(s)
    ensures Step(s, t)
  {
    hide Collects, Followable;
  }

  lemma AfterAtomic(s: State, t: State)
    requires Inv(s) && Collects(s, t) && Inv(t) && !s.phase.Propagate? && !s.phase.Pause?
    ensures Rank(t.phase) < 6
  {
    hide Inv, Kept, Flipped, ParkedMetas, ParkedStrong, LiveOk, Reach, SweepTurnOf;
    PhaseIsSettled(t);
    if s.phase.EnterAtomic? { AtomicExact(s, t); } else { DoneStays(s, t); }
  }

  lemma CyclingEnd(s: State, reach: set<Ref>, body0: map<Ref, Body>, run: seq<State>)
    requires Cycling(s, reach, body0, true, run) && s.phase.Pause?
    ensures Inv(s) && s.body.Keys == reach && Run(run) && run[|run| - 1] == s && CollectorRun(run)
    ensures AllCollected(body0, s.body, reach)
    ensures s.mainthread in s.body && s.running in s.body && In(s.registry, s.body.Keys) && AllIn(s.mt, s.body.Keys)
    ensures EmptiesLive(s) ==> forall r, i: nat :: HoldsFreed(s.body, r, i) <==> KeyLost(body0, r, i, reach)
  {
    hide Inv, Run, AllSince, EmptiesLive, HoldsFreed, KeyLost, CollectorRun, LiveOk, AllCollected;
    PauseKeys(s, reach);
    InvLive(s);
    CycleCollected(body0, s, reach);
    RootsStay(s, reach);
    if EmptiesLive(s) { FreedKeys(body0, s, reach); }
  }

  lemma RootsStay(s: State, reach: set<Ref>)
    requires LiveOk(s) && Live(s) == reach
    ensures s.mainthread in reach && s.running in reach && In(s.registry, reach) && AllIn(s.mt, reach)
  {
    hide ClosedAll;
    assert In(Roots(s)[0], reach) && In(Roots(s)[1], reach) && Roots(s)[2] == s.registry;
    assert forall i :: 0 <= i < |s.mt| ==> s.mt[i] == Roots(s)[i + 3];
  }

  lemma TidyEmpties(s: State)
    requires Tidy(s)
    ensures EmptiesLive(s)
  {
  }
}
