/** The keys of empty entries, which the collector neither marks nor, in all-weak
    tables, looks at. */
module LuaEmpties {
  import opened LuaHeap
  import opened LuaGcState
  import opened LuaAtomic
  import opened LuaClear
  import opened LuaMutator
  import opened LuaCycle

  ghost predicate EmptyIn(node: seq<Entry>, s: set<Ref>) {
    forall i :: 0 <= i < |node| && node[i].val == Nil ==> In(node[i].key, s)
  }

  ghost predicate Traversed(b: Body) {
    b.Table? && !b.mode.AllWeak?
  }

  /** Outside all-weak tables, what is live has live keys in its empty entries. */
  ghost predicate EmptiesLive(s: State) {
    forall r :: r in Live(s) && r in s.body && Traversed(s.body[r]) ==> EmptyIn(s.body[r].node, Live(s))
  }

  ghost predicate BlackEmpties(s: State) {
    forall r :: r in s.color && s.color[r].Black? && r in s.body && Traversed(s.body[r]) ==>
      EmptyIn(s.body[r].node, Marked(s.color))
  }

  /** ... and, while the collector marks, black tables have marked keys there. */
  ghost predicate Tidy(s: State) {
    EmptiesLive(s) && (Keeps(s.phase) ==> BlackEmpties(s))
  }

  /** While no sweep is under way it is enough that these keys are allocated. */
  lemma AllocatedSuffices(s: State)
    requires Inv(s) && !Sweeps(s.phase)
    requires forall r :: r in s.body && Traversed(s.body[r]) ==> EmptyIn(s.body[r].node, s.body.Keys)
    ensures EmptiesLive(s)
  {
    hide HeldIn, BlackOk, GrayListed, CellsOk, KindsOk, NoDup, EmptyIn;
    assert Live(s) == s.body.Keys;
  }

  lemma EmptyTidied(b: Body, b': Body, s: set<Ref>)
    requires b.Table? && b'.Table? && |b.node| == |b'.node| && Tidied(b, b', s) && EmptyIn(b.node, s)
    ensures EmptyIn(b'.node, s)
  {
  }

  lemma EmptyLighter(b: Body, b': Body, s: set<Ref>)
    requires Lighter(b, b') && b'.Table? && EmptyIn(b.node, s)
    ensures b.Table? && b.mode == b'.mode && EmptyIn(b'.node, s)
  {
  }

  lemma EmptyScrubbed(node: seq<Entry>, keys: set<Ref>, s: set<Ref>)
    requires EmptyIn(node, keys) && Scrubbed(node, keys, s)
    ensures EmptyIn(node, s)
  {
  }

  lemma EmptyMono(node: seq<Entry>, s: set<Ref>, t: set<Ref>)
    requires EmptyIn(node, s) && s <= t
    ensures EmptyIn(node, t)
  {
  }

  // ----- each step keeps it -----

  lemma LighterTraversed(b: Body, b': Body)
    requires Lighter(b, b')
    ensures Traversed(b') <==> Traversed(b)
  {
  }

  /** Outside the atomic step nothing live dies and bodies only get lighter. */
  lemma EmptiesStay(s: State, t: State)
    requires EmptiesLive(s) && Live(t) == Live(s) && t.body.Keys <= s.body.Keys
    requires forall r :: r in t.body ==> Lighter(s.body[r], t.body[r])
    ensures EmptiesLive(t)
  {
    hide EmptyIn, Lighter;
    forall r | r in Live(t) && r in t.body && Traversed(t.body[r]) ensures EmptyIn(t.body[r].node, Live(t)) {
      LighterTraversed(s.body[r], t.body[r]);
      EmptyLighter(s.body[r], t.body[r], Live(t));
    }
  }

  lemma RestartTidy(s: State, t: State)
    requires Inv(s) && s.phase.Pause? && Restarted(s, t)
    ensures BlackEmpties(t)
  {
    hide EmptyIn, LiveOk, NewHeld, HeldIn, NoDup, CellsOk, Kept;
    assert forall r :: r in t.color && t.color[r].Black? && r in t.body ==> Leaf(t.body[r]);
  }

  lemma PropagateTidy(s: State, t: State)
    requires Inv(s) && s.phase.Propagate? && Propagated(s, t) && Tidy(s) && EmptiesLive(t)
    ensures BlackEmpties(t)
  {
    hide EmptyIn, LiveOk, NewHeld, HeldIn, NoDup, CellsOk, Kept, BlackOk, GrayListed, Scrubbed, Lighter;
    var o, v := s.gray[0], t.(phase := s.phase);
    GrayFront(s);
    PropagateKinds(s, v);
    PropagatedStep(s, t);
    forall r | r in t.color && t.color[r].Black? && r in t.body && Traversed(t.body[r]) ensures EmptyIn(t.body[r].node, Marked(t.color)) {
      if r == o {
        assert Scrubbed(t.body[o].node, t.body.Keys, Marked(t.color));
        assert EmptyIn(t.body[o].node, Live(t));
        EmptyScrubbed(t.body[o].node, t.body.Keys, Marked(t.color));
      } else {
        assert s.color[r].Black? by { if s.color[r].White? { assert !Leaf(s.body[r]); } }
        EmptyMono(t.body[r].node, Marked(s.color), Marked(t.color));
      }
    }
  }

  lemma AtomicTidy(s: State, t: State)
    requires Inv(s) && s.phase.EnterAtomic? && Collects(s, t) && Spared(s) && Tidy(s)
    ensures EmptiesLive(t)
  {
    hide Inv, Flipped, Kept, EnterSweepOf, SweptFrom, Sweeping, LiveOk, EmptyIn, EmptiesLive, BlackEmpties, ParkedOk, LiveOk;
    AtomicExact(s, t);
    var u: State :| Flipped(s, u) && t == EnterSweepOf(u);
    FlippedKept(s, u);
    FlippedSweeping(s, u);
    EnterSweepFacts(u);
    SweptFromLive(u, t);
    AllLive(s);
    FlippedTidy(s, u);
    SweptEmpties(u, t);
  }

  lemma AllLive(s: State)
    requires Inv(s) && Keeps(s.phase)
    ensures Live(s) == s.body.Keys == s.color.Keys
  {
    hide HeldIn, BlackOk, GrayListed, CellsOk, KindsOk, NoDup;
    LiveIsAll(s);
  }

  lemma FlippedTidy(s: State, u: State)
    requires Flipped(s, u) && Live(u) == Marked(u.color) && Live(s) == s.body.Keys == s.color.Keys
    requires EmptiesLive(s) && BlackEmpties(s) && ParkedOk(s)
    ensures EmptiesLive(u)
  {
    hide EmptyIn, Scrubbed, Trimmed, HeldIn, KindsOk, Kept;
    forall r | r in Live(u) && r in u.body && Traversed(u.body[r]) ensures EmptyIn(u.body[r].node, Live(u)) {
      var p := r in Elems(s.lists.all);
      assert Trimmed(s.body[r], u.body[r], p, s.body, Marked(u.color));
      TrimmedTable(s.body[r], u.body[r], p, s.body, Marked(u.color));
      assert p ==> IsTable(s.body, r, AllWeak);
      if r in s.color && s.color[r].Black? {
        EmptyMono(s.body[r].node, Marked(s.color), Marked(u.color));
        EmptyTidied(s.body[r], u.body[r], Marked(u.color));
      } else {
        assert Marked(u.color) <= u.body.Keys;
        EmptyKeys(s.body[r], u.body[r], u.body.Keys, Marked(u.color));
        EmptyScrubbed(u.body[r].node, u.body.Keys, Marked(u.color));
      }
    }
  }

  lemma EmptyKeys(b: Body, b': Body, keys: set<Ref>, s: set<Ref>)
    requires b.Table? && b'.Table? && |b.node| == |b'.node| && Tidied(b, b', s) && EmptyIn(b.node, keys) && s <= keys
    ensures EmptyIn(b'.node, keys)
  {
  }

  lemma TrimmedTable(b: Body, b': Body, parked: bool, body: map<Ref, Body>, s: set<Ref>)
    requires Trimmed(b, b', parked, body, s) && b'.Table?
    ensures b.Table? && b.mode == b'.mode && |b.node| == |b'.node| && Tidied(b, b', s)
  {
  }

  lemma SweptEmpties(u: State, t: State)
    requires EmptiesLive(u) && SweptFrom(u.(phase := t.phase, cursor := t.cursor), t)
    ensures EmptiesLive(t)
  {
    hide EmptyIn;
    SweptFromLive(u, t);
  }

  lemma TidyStep(s: State, t: State)
    requires Inv(s) && Collects(s, t) && Spared(s) && Tidy(s)
    ensures Tidy(t)
  {
    hide Inv, EmptiesLive, BlackEmpties, Spared, BodiesTrimmed, Kept, Reach, Restarted, Propagated, AtomicDone;
    StepFacts(s, t);
    if s.phase.EnterAtomic? {
      AtomicTidy(s, t);
    } else {
      BodiesLighter(s, t);
      EmptiesStay(s, t);
      if s.phase.Pause? { RestartTidy(s, t); }
      else if s.phase.Propagate? { PropagateTidy(s, t); }
      else { DoneStays(s, t); }
    }
  }

  lemma BodiesLighter(s: State, t: State)
    requires BodiesTrimmed(s, t) && !s.phase.EnterAtomic?
    ensures t.body.Keys <= s.body.Keys && forall r :: r in t.body ==> Lighter(s.body[r], t.body[r])
  {
  }

  lemma AbandonTidy(s: State, t: State)
    requires Inv(s) && EmptiesLive(s) && ((t == s && !Keeps(s.phase)) || Abandons(s, t))
    ensures Tidy(t)
  {
    hide Inv, EmptyIn, EnterSweepOf, BlackEmpties;
    if Abandons(s, t) { AbandonStep(s, t); }
  }

  // ----- what becomes of an entry -----

  /** Since `b0`: an array element stays or, once the atomic step is `done`, is given
      up because it is not live. */
  ghost predicate SinceElement(v0: Value, v: Value, live: set<Ref>, done: bool) {
    v == v0 || (v == Nil && done && !In(v0, live))
  }

  /** An empty entry stays empty, and its key stays or dies; in an all-weak table it
      stays as it is. An occupied entry stays as it is or, once the atomic step is
      `done`, is emptied because its key or its value is not live, and then a key
      that stays is live. */
  ghost predicate SinceEntry(mode: Mode, e0: Entry, e: Entry, live: set<Ref>, done: bool) {
    if e0.val == Nil then e == e0 || (!mode.AllWeak? && e == Entry(DeadKey, Nil)) else
      || e == e0
      || (done && e.val == Nil && !(In(e0.key, live) && In(e0.val, live))
          && (e.key == DeadKey || (e.key == e0.key && In(e.key, live))))
  }

  ghost predicate Since(b0: Body, b: Body, live: set<Ref>, done: bool) {
    if !b0.Table? then b == b0 || (b0.Proto? && b == b0.(cache := Nil)) else
      && b.Table? && b.meta == b0.meta && b.mode == b0.mode && |b.arr| == |b0.arr| && |b.node| == |b0.node|
      && (forall i :: 0 <= i < |b.arr| ==> SinceElement(b0.arr[i], b.arr[i], live, done))
      && (forall i :: 0 <= i < |b.node| ==> SinceEntry(b0.mode, b0.node[i], b.node[i], live, done))
  }

  ghost predicate AllSince(body0: map<Ref, Body>, s: State, done: bool) {
    forall r :: r in s.body ==> r in body0 && Since(body0[r], s.body[r], Live(s), done)
  }

  lemma SinceLighter(b0: Body, b: Body, b': Body, live: set<Ref>, done: bool)
    requires Since(b0, b, live, done) && Lighter(b, b')
    ensures Since(b0, b', live, done)
  {
  }

  lemma SinceTrimmed(b0: Body, b: Body, b': Body, live0: set<Ref>, parked: bool, body: map<Ref, Body>, live: set<Ref>)
    requires Since(b0, b, live0, false) && Trimmed(b, b', parked, body, live)
    ensures Since(b0, b', live, true)
  {
  }

  lemma SinceStep(body0: map<Ref, Body>, s: State, t: State, done: bool)
    requires Inv(s) && Collects(s, t) && AllSince(body0, s, done) && (done ==> !s.phase.EnterAtomic?)
    ensures AllSince(body0, t, done || s.phase.EnterAtomic?)
  {
    hide Inv, Kept, Reach, Collects, Since, Lighter, Trimmed;
    StepFacts(s, t);
    forall r | r in t.body ensures r in body0 && Since(body0[r], t.body[r], Live(t), done || s.phase.EnterAtomic?) {
      if s.phase.EnterAtomic? {
        SinceTrimmed(body0[r], s.body[r], t.body[r], Live(s), r in s.lists.all, s.body, Live(t));
      } else {
        SinceLighter(body0[r], s.body[r], t.body[r], Live(t), done);
      }
    }
  }

  lemma SinceStart(s: State, t: State)
    requires Inv(s) && (t == s || Abandons(s, t))
    ensures AllSince(s.body, t, false)
  {
    hide Inv, EnterSweepOf;
    if Abandons(s, t) { AbandonStep(s, t); }
  }

  /** What a full collection that keeps exactly `reach` makes of an object it keeps.
      An array element stays if it is kept and becomes nil if it is not; an occupied
      entry stays if both its key and its value are kept and is emptied if one of
      them is not. Nothing else changes, but for the keys of empty entries and the
      closure a prototype caches. */
  ghost predicate Collected(b0: Body, b: Body, reach: set<Ref>) {
    if b0.Proto? then b == b0 || b == b0.(cache := Nil)
    else if !b0.Table? then b == b0 else
      && b.Table? && b.meta == b0.meta && b.mode == b0.mode && |b.arr| == |b0.arr| && |b.node| == |b0.node|
      && (forall i :: 0 <= i < |b0.arr| ==> b.arr[i] == if In(b0.arr[i], reach) then b0.arr[i] else Nil)
      && (forall i :: 0 <= i < |b0.node| && b0.node[i].val != Nil ==>
            if In(b0.node[i].key, reach) && In(b0.node[i].val, reach) then b.node[i] == b0.node[i]
            else b.node[i] == Entry(DeadKey, Nil) || (b.node[i] == Entry(b0.node[i].key, Nil) && In(b0.node[i].key, reach)))
      && (forall i :: 0 <= i < |b0.node| && b0.node[i].val == Nil ==>
            b.node[i] == b0.node[i] || (!b0.mode.AllWeak? && b.node[i] == Entry(DeadKey, Nil)))
  }

  /** What is left holds nothing that is not live, so whatever is not live is gone. */
  lemma SinceCollected(b0: Body, b: Body, up: map<Cell, Value>, reach: set<Ref>)
    requires Since(b0, b, reach, true) && HeldIn(b, up, reach)
    ensures Collected(b0, b, reach)
  {
  }

  ghost predicate AllCollected(body0: map<Ref, Body>, body: map<Ref, Body>, reach: set<Ref>) {
    body.Keys == reach && forall r :: r in body ==> r in body0 && Collected(body0[r], body[r], reach)
  }

  lemma CycleCollected(body0: map<Ref, Body>, s: State, reach: set<Ref>)
    requires AllSince(body0, s, true) && LiveOk(s) && Live(s) == reach == s.body.Keys
    ensures AllCollected(body0, s.body, reach)
  {
    hide Since, HeldIn, Collected;
    forall r | r in s.body ensures r in body0 && Collected(body0[r], s.body[r], reach) {
      SinceCollected(body0[r], s.body[r], s.up, reach);
    }
  }

  /** What each mode of table keeps whatever else is reachable: a strong one its
      array part and every occupied entry, an ephemeron table its array part and the
      entries whose keys are kept, one with weak values the entries whose values are. */
  ghost predicate KeptByMode(b0: Body, b: Body, reach: set<Ref>) {
    if !b0.Table? then true else
      && b.Table? && |b.node| == |b0.node|
      && (b0.mode.Strong? || b0.mode.Ephemeron? ==> b.arr == b0.arr)
      && forall i :: 0 <= i < |b0.node| && b0.node[i].val != Nil ==>
           match b0.mode
           case Strong => b.node[i] == b0.node[i]
           case Ephemeron => if In(b0.node[i].key, reach) then b.node[i] == b0.node[i] else b.node[i] == Entry(DeadKey, Nil)
           case WeakValues => if In(b0.node[i].val, reach) then b.node[i] == b0.node[i] else b.node[i].val == Nil
           case AllWeak => true
  }

  lemma CollectedKept(h: Heap, b0: Body, b: Body, reach: set<Ref>)
    requires Collected(b0, b, reach) && StrongIn(b0, h, reach)
    ensures KeptByMode(b0, b, reach)
  {
  }

  lemma ModesKept(s: State, body: map<Ref, Body>, reach: set<Ref>)
    requires Inv(s) && reach == Reach(Graph(s), Roots(s)) && AllCollected(s.body, body, reach)
    ensures forall r :: r in body ==> r in s.body && KeptByMode(s.body[r], body[r], reach)
  {
    hide Inv, Reach, StrongIn, Collected, KeptByMode;
    StartReach(s, reach);
    forall r | r in body ensures r in s.body && KeptByMode(s.body[r], body[r], reach) {
      CollectedKept(Graph(s), s.body[r], body[r], reach);
    }
  }

  /** The empty entry `i` of table `r` holds a key that has been freed. */
  ghost predicate HoldsFreed(body: map<Ref, Body>, r: Ref, i: nat) {
    r in body && body[r].Table? && i < |body[r].node|
    && body[r].node[i].val == Nil && body[r].node[i].key.Obj? && body[r].node[i].key.ref !in body
  }

  /** It was an empty entry of an all-weak table and its key is not in `reach`. */
  ghost predicate KeyLost(body0: map<Ref, Body>, r: Ref, i: nat, reach: set<Ref>) {
    r in body0 && r in reach && body0[r].Table? && body0[r].mode.AllWeak? && i < |body0[r].node|
    && body0[r].node[i].val == Nil && body0[r].node[i].key.Obj? && body0[r].node[i].key.ref !in reach
  }

  lemma FreedKeys(body0: map<Ref, Body>, t: State, reach: set<Ref>)
    requires AllSince(body0, t, true) && EmptiesLive(t) && t.body.Keys == reach == Live(t)
    ensures forall r, i: nat :: HoldsFreed(t.body, r, i) <==> KeyLost(body0, r, i, reach)
  {
    forall r, i: nat ensures HoldsFreed(t.body, r, i) <==> KeyLost(body0, r, i, reach) {
      if r in t.body {
        assert Since(body0[r], t.body[r], Live(t), true);
      }
    }
  }
}
