/** The collector's methods and the program's steps, in any order. */
module LuaSchedule {
  import opened LuaHeap
  import opened LuaMutator
  import opened LuaBarrier
  import opened LuaCycle
  import opened LuaRun
  import opened LuaFullCycle
  import opened LuaCollector

  /** The program may do a step of its own, let the collector do one, or ask for a
      full collection. */
  datatype Action = Act(e: Event) | Collect | Full

  ghost predicate Allowed(s: State, a: Action) {
    match a
    case Act(e) => Enabled(s, e)
    case Collect => Followable(s)
    case Full => true
  }

  /** Two runs, the second of which goes on where the first ends. */
  lemma JoinRuns(run: seq<State>, more: seq<State>)
    requires Run(run) && Run(more) && more[0] == run[|run| - 1]
    ensures Run(run + more[1..])
    ensures var r := run + more[1..]; r[0] == run[0] && r[|r| - 1] == more[|more| - 1]
  {
    hide Inv, Step;
    var r := run + more[1..];
    forall i | 0 <= i < |r| - 1 ensures Step(r[i], r[i + 1]) {
      if i < |run| - 1 {
        assert r[i] == run[i] && r[i + 1] == run[i + 1];
      } else {
        var j := i - (|run| - 1);
        assert r[i] == more[j] && r[i + 1] == more[j + 1];
      }
    }
  }

  lemma MutateIsStep(s: State, e: Event, t: State)
    requires Mutates(s, e, t)
    ensures Step(s, t)
  {
    hide Mutates, Collects, Followable, Abandons;
  }

  lemma AllowedAct(s: State, e: Event)
    requires Allowed(s, Act(e))
    ensures Enabled(s, e)
  {
  }

  lemma AllowedCollect(s: State)
    requires Allowed(s, Collect)
    ensures Followable(s)
  {
  }

  /** The collector driven by any program at all, one that may choose each action by
      all that has happened: what it goes through is a run, and at its end nothing the
      program can follow dangles. */
  method Drive(c: Collector, program: (nat, State) -> Action, n: nat) returns (ghost run: seq<State>)
    requires Inv(c.View())
    requires forall k: nat, s: State :: Inv(s) ==> Allowed(s, program(k, s))
    modifies c
    ensures Run(run) && run[0] == old(c.View()) && run[|run| - 1] == c.View()
    ensures Inv(c.View()) && forall r :: Accessible(Graph(c.View()), Roots(c.View()), r) ==> r in c.body
  {
    hide Inv, Allowed, Run, Step, Collects, Followable, Accessible, Mutates, Enabled;
    run := [c.View()];
    RunStart(c.View());
    for i := 0 to n
      invariant Inv(c.View()) && Run(run) && |run| > 0 && run[0] == old(c.View()) && run[|run| - 1] == c.View()
    {
      ghost var s := c.View();
      var a := program(i, c.View());
      match a {
        case Act(e) =>
          AllowedAct(s, e);
          c.Perform(e);
          MutateIsStep(s, e, c.View());
          ExtendRun(run, c.View());
          run := run + [c.View()];
        case Collect =>
          AllowedCollect(s);
          c.SingleStep();
          CollectIsStep(s, c.View());
          CollectKeeps(s, c.View());
          ExtendRun(run, c.View());
          run := run + [c.View()];
        case Full =>
          ghost var more := c.FullGc();
          RunLength(more);
          JoinRuns(run, more);
          run := run + more[1..];
      }
    }
    forall r | Accessible(Graph(c.View()), Roots(c.View()), r) ensures r in c.body {
      AccessibleLive(c.View(), r);
    }
  }
}
