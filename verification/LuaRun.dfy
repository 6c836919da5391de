/** Safety over whole runs: every interleaving of program steps and collector steps. */
module LuaRun {
  import opened LuaHeap
  import LuaReach
  import opened LuaGcState
  import opened LuaAtomic
  import opened LuaClear
  import opened LuaMutator
  import opened LuaBarrier
  import opened LuaCycle

  /** What `LuaCycle.AtomicExact` shows the atomic step to need. */
  ghost predicate Followable(s: State) {
    s.phase.EnterAtomic? ==> ParkedMetas(s) && ParkedStrong(s)
  }

  /** A step of the program; a step of the collector, where the atomic step finds what
      parked tables hold among what it keeps; or the start of a full collection that
      gives up a mark phase. */
  ghost predicate Step(s: State, t: State) {
    (exists e: Event :: Mutates(s, e, t)) || (Collects(s, t) && Followable(s)) || Abandons(s, t)
  }

  /** Any steps in any order. */
  ghost predicate Run(run: seq<State>) {
    |run| > 0 && Inv(run[0]) && forall i :: 0 <= i < |run| - 1 ==> Step(run[i], run[i + 1])
  }

  lemma BarriersKeys(s: State, o: Ref, vs: seq<Value>, barrier: Barrier, s': State)
    requires Barriers(s, o, vs, barrier, s')
    ensures s'.body == s.body && s'.up == s.up && Roots(s') == Roots(s) && s'.phase == s.phase
    decreases |vs|
  {
    hide MarksMore;
    if !barrier.NoBarrier? && vs != [] {
      var m: State :| (if barrier.Forward? then ForwardStep(s, o, vs[0], m) else BackStep(s, o, vs[0], m))
                      && Barriers(m, o, vs[1..], barrier, s');
      BarriersKeys(m, o, vs[1..], barrier, s');
    }
  }

  /** The program never frees anything, nor changes what kind of object it is. */
  lemma MutateAllocated(s: State, e: Event, t: State)
    requires Mutates(s, e, t)
    ensures forall r :: r in s.body ==> r in t.body && SameKind(s.body[r], t.body[r])
  {
    hide HeldIn, MarksMore, Accessible;
    if e.Store? { BarriersKeys(Write(s, e), e.o, e.added, e.barrier, t); }
  }

  lemma CollectAllocated(s: State, t: State, r: Ref)
    requires Inv(s) && Collects(s, t) && Followable(s) && r in Reach(Graph(s), Roots(s))
    ensures r in t.body && SameKind(s.body[r], t.body[r])
  {
    hide Inv, Collects, Reach, Kept, ParkedMetas, ParkedStrong, Lighter, Trimmed;
    StepFacts(s, t);
    StepReach(s, t);
    if s.phase.EnterAtomic? {
      TrimmedKind(s.body[r], t.body[r], r in s.lists.all, s.body, Live(t));
    } else {
      LighterTrimmed(s.body[r], t.body[r], false, s.body, Live(t));
      TrimmedKind(s.body[r], t.body[r], false, s.body, Live(t));
    }
  }

  /** No step frees or changes the kind of anything strongly reachable, and every
      step keeps the invariant. */
  lemma StepSafe(s: State, t: State)
    requires Inv(s) && Step(s, t)
    ensures Inv(t)
    ensures forall r :: r in Reach(Graph(s), Roots(s)) ==> r in t.body && SameKind(s.body[r], t.body[r])
  {
    hide Inv, Mutates, Collects, Abandons, Reach, Followable, Kept;
    ReachAllocated(s);
    if Collects(s, t) && Followable(s) {
      CollectKeeps(s, t);
      forall r | r in Reach(Graph(s), Roots(s)) ensures r in t.body && SameKind(s.body[r], t.body[r]) {
        CollectAllocated(s, t, r);
      }
    } else if Abandons(s, t) {
      AbandonStep(s, t);
    } else {
      var e: Event :| Mutates(s, e, t);
      MutateKeeps(s, e, t);
      MutateAllocated(s, e, t);
    }
  }

  lemma CollectKeeps(s: State, t: State)
    requires Inv(s) && Collects(s, t) && Followable(s)
    ensures Inv(t)
  {
    hide Inv, Collects, ParkedMetas, ParkedStrong;
    StepInv(s, t);
  }

  lemma RunLength(run: seq<State>)
    requires Run(run)
    ensures |run| > 0
  {
    hide Inv, Step;
  }

  lemma RunStep(run: seq<State>, k: nat)
    requires Run(run) && k + 1 < |run|
    ensures Step(run[k], run[k + 1])
  {
    hide Inv, Step, Collects, Followable;
  }

  /** The invariant holds in every state of every run. */
  lemma {:induction false} RunInv(run: seq<State>, k: nat)
    requires Run(run) && k < |run|
    ensures Inv(run[k])
  {
    hide Inv, Step, Collects, Followable;
    if k > 0 {
      RunInv(run, k - 1);
      RunStep(run, k - 1);
      StepSafe(run[k - 1], run[k]);
    }
  }

  /** No reference the program can follow, strong or weak, ever dangles. */
  lemma NothingDangles(run: seq<State>, k: nat, r: Ref)
    requires Run(run) && k < |run| && Accessible(Graph(run[k]), Roots(run[k]), r)
    ensures r in run[k].body && r in Live(run[k])
  {
    hide Inv, Step, Accessible, Collects;
    RunInv(run, k);
    AccessibleLive(run[k], r);
  }

  /** What a reference must lead to: an object that is allocated and not dead. */
  predicate Sound(s: State, v: Value) {
    v.Obj? ==> v.ref in s.body && v.ref in s.color && s.color[v.ref] != White(!s.white)
  }

  predicate AllSound(s: State, vs: seq<Value>) {
    forall i :: 0 <= i < |vs| ==> Sound(s, vs[i])
  }

  /** In every state of every run: the main thread, the running coroutine, the registry
      and the metatables of the basic types are there ... */
  lemma RootsSound(run: seq<State>, k: nat)
    requires Run(run) && k < |run|
    ensures var s := run[k];
      Sound(s, Obj(s.mainthread)) && Sound(s, Obj(s.running)) && Sound(s, s.registry) && AllSound(s, s.mt)
  {
    hide Run;
    RunInv(run, k);
    var s := run[k];
    hide PhaseOk, ClosedAll, CellsOk, KindsOk, NoDup;
    assert Roots(s)[0] == Obj(s.mainthread) && Roots(s)[1] == Obj(s.running) && Roots(s)[2] == s.registry;
    assert forall i :: 0 <= i < |s.mt| ==> s.mt[i] == Roots(s)[i + 3];
  }

  /** ... and whatever an object that is not dead refers to, in any field, is there. */
  lemma FieldsSound(run: seq<State>, k: nat, o: Ref)
    requires Run(run) && k < |run| && Sound(run[k], Obj(o))
    ensures var s := run[k];
      match s.body[o]
      case Str(_) => true
      case Udata(meta, user) => Sound(s, meta) && Sound(s, user)
      case Table(meta, _, arr, node) =>
        && Sound(s, meta) && AllSound(s, arr)
        && forall i :: 0 <= i < |node| && node[i].val != Nil ==> Sound(s, node[i].key) && Sound(s, node[i].val)
      case LClosure(proto, cells) =>
        Sound(s, proto) && forall i :: 0 <= i < |cells| ==> cells[i] in s.up && Sound(s, s.up[cells[i]])
      case CClosure(upvalues) => AllSound(s, upvalues)
      case Proto(consts, cache) => AllSound(s, consts) && Sound(s, cache)
      case Thread(stack) => AllSound(s, stack)
  {
    hide Run;
    RunInv(run, k);
    var s := run[k];
    hide PhaseOk, KindsOk, NoDup;
    assert o in Live(s) && HeldIn(s.body[o], s.up, Live(s));
  }

  /** What is strongly reachable in a run is what chains of references lead to. */
  lemma ReachedByChains(run: seq<State>, k: nat)
    requires Run(run) && k < |run|
    ensures var s := run[k]; Reach(Graph(s), Roots(s)) == LuaReach.Layer(Graph(s), Roots(s), |s.body.Keys|)
  {
    hide Run, PhaseOk, Reach, ClosedAll, AllIn, CellsOk, KindsOk, NoDup;
    RunInv(run, k);
    LuaReach.ReachByChains(Graph(run[k]), Roots(run[k]), Live(run[k]));
  }

  /** An object that stays strongly reachable is never freed, however program and
      collector steps interleave, and it stays the kind of object it was. */
  lemma {:induction false} NeverFreed(run: seq<State>, r: Ref, k: nat)
    requires Run(run) && k < |run|
    requires forall i :: 0 <= i < k ==> r in Reach(Graph(run[i]), Roots(run[i]))
    requires r in run[0].body
    ensures r in run[k].body && SameKind(run[0].body[r], run[k].body[r])
  {
    hide Inv, Step, Reach, Collects, Followable;
    if k > 0 {
      NeverFreed(run, r, k - 1);
      RunInv(run, k - 1);
      RunStep(run, k - 1);
      StepSafe(run[k - 1], run[k]);
    }
  }

  /** The tri-colour invariant, at every boundary of the marking phases of every run. */
  lemma TriColour(run: seq<State>, k: nat)
    requires Run(run) && k < |run| && Keeps(run[k].phase)
    ensures var s := run[k];
      && (forall o :: o in s.body && o in s.color && s.color[o].Black? ==> HeldIn(s.body[o], s.up, Marked(s.color)))
      && (forall o :: o in s.body && o in s.color && s.body[o].Thread? ==> !s.color[o].Black?)
      && (forall o :: o in s.body && o in s.color && s.color[o].Gray? ==>
            multiset(s.gray)[o] + multiset(s.lists.again)[o] + multiset(s.lists.all)[o] == 1)
      && (forall o :: o in s.gray || o in s.lists.again || o in s.lists.all ==>
            o in s.body && o in s.color && s.color[o].Gray?)
  {
    RunInv(run, k);
    var s := run[k];
    hide LiveOk, CursorOk, HeldIn, CellsOk, NoDup, Step, Collects;
    forall o | o in s.gray || o in s.lists.again || o in s.lists.all ensures o in s.body && o in s.color && s.color[o].Gray? {
      assert o in multiset(s.gray) || o in multiset(s.lists.again) || o in multiset(s.lists.all);
      assert GrayCount(s, o) == if IsGray(s.color, o) then 1 else 0;
    }
    forall o | o in s.body && o in s.color && s.color[o].Gray?
      ensures multiset(s.gray)[o] + multiset(s.lists.again)[o] + multiset(s.lists.all)[o] == 1
    {
      assert GrayCount(s, o) == if IsGray(s.color, o) then 1 else 0;
    }
  }

  // ----- runs whose program spares parked tables -----

  /** Program steps that leave parked tables all-weak and their metatables marked. */
  ghost predicate SparingStep(s: State, t: State) {
    (exists e: Event :: Mutates(s, e, t) && ParkedSafe(s, e)) || Collects(s, t) || Abandons(s, t)
  }

  ghost predicate SparingRun(run: seq<State>) {
    |run| > 0 && Inv(run[0]) && Spared(run[0]) && forall i :: 0 <= i < |run| - 1 ==> SparingStep(run[i], run[i + 1])
  }

  lemma SparedFollowable(s: State)
    requires Inv(s) && Spared(s)
    ensures Followable(s)
  {
    hide Inv, ParkedMetas, ParkedStrong, ParkedOk;
    if s.phase.EnterAtomic? { SparedSuffices(s); }
  }

  lemma SparingStepSpares(s: State, t: State)
    requires Inv(s) && Spared(s) && SparingStep(s, t)
    ensures Inv(t) && Spared(t)
  {
    hide Inv, Mutates, Collects, Abandons, Followable, ParkedOk, ParkedSafe;
    SparedFollowable(s);
    if Collects(s, t) {
      CollectKeeps(s, t);
      StepSpared(s, t);
    } else if Abandons(s, t) {
      AbandonStep(s, t);
    } else {
      var e: Event :| Mutates(s, e, t) && ParkedSafe(s, e);
      MutateKeeps(s, e, t);
      if Keeps(t.phase) { MutatePhase(s, e, t); MutateSpares(s, e, t); }
    }
  }

  lemma MutatePhase(s: State, e: Event, t: State)
    requires Mutates(s, e, t)
    ensures t.phase == s.phase
  {
    hide HeldIn, MarksMore, Accessible;
    if e.Store? { BarriersKeys(Write(s, e), e.o, e.added, e.barrier, t); }
  }

  /** If each store spares the tables parked at that time, every atomic step finds
      what it needs: such a run is a run. */
  lemma {:induction false} SparingIsRun(run: seq<State>, k: nat)
    requires SparingRun(run) && k < |run|
    ensures Run(run[..k + 1]) && Inv(run[k]) && Spared(run[k])
  {
    hide Inv, Spared, SparingStep, Step, Collects, Followable, Abandons, Mutates, ParkedSafe;
    if k == 0 {
      assert run[..1][0] == run[0];
    } else {
      SparingIsRun(run, k - 1);
      assert SparingStep(run[k - 1], run[k - 1 + 1]);
      SparedFollowable(run[k - 1]);
      SparingStepSpares(run[k - 1], run[k]);
      SparingIsStep(run[k - 1], run[k]);
      ExtendRun(run[..k], run[k]);
      assert run[..k] + [run[k]] == run[..k + 1];
    }
  }

  lemma SparingIsStep(s: State, t: State)
    requires SparingStep(s, t) && Followable(s)
    ensures Step(s, t)
  {
    hide Mutates, Collects, Abandons, ParkedSafe, Followable;
  }

  /** A run goes on with any step. */
  lemma ExtendRun(run: seq<State>, t: State)
    requires Run(run) && Step(run[|run| - 1], t)
    ensures Run(run + [t])
  {
    hide Inv, Step, Collects, Followable;
    var r := run + [t];
    forall i | 0 <= i < |r| - 1 ensures Step(r[i], r[i + 1]) {
      if i < |run| - 1 { assert r[i] == run[i] && r[i + 1] == run[i + 1]; }
    }
  }
}
