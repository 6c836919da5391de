/** Three short programs and what the collector's own methods make of them: a live
    table left with a dead metatable, an empty entry that keeps a freed key, and
    lists that the atomic step asserts to be empty and that are not. */
module LuaWitnesses {
  import opened LuaHeap
  import opened LuaGcState
  import opened LuaAtomic
  import opened LuaClear
  import opened LuaMutator
  import opened LuaBarrier
  import opened LuaCycle
  import opened LuaEmpties
  import opened LuaRun
  import opened LuaCollector

  /** Object 4 is the string `__mode`, object 5 a mode, and this a metatable with it. */
  const META := Table(Nil, Strong, [], [Entry(Obj(4), Obj(5))])

  ghost function Bodies(stack: seq<Value>, t: Body, two: Body, mode: string): map<Ref, Body> {
    map[0 := Thread(stack), 1 := t, 2 := two, 3 := META, 4 := Str("__mode"), 5 := Str(mode)]
  }

  lemma BodiesAre(stack: seq<Value>, t: Body, two: Body, mode: string)
    ensures var b := Bodies(stack, t, two, mode);
      && b.Keys == {0, 1, 2, 3, 4, 5} && b[0] == Thread(stack) && b[1] == t && b[2] == two && b[3] == META
      && b[4] == Str("__mode") && b[5] == Str(mode)
  {
  }

  lemma BodiesHeld(stack: seq<Value>, t: Body, two: Body, mode: string, up: map<Cell, Value>, x: set<Ref>)
    requires 4 in x && 5 in x
    requires 0 in x ==> AllIn(stack, x)
    requires 1 in x ==> HeldIn(t, up, x)
    requires 2 in x ==> HeldIn(two, up, x)
    ensures ClosedAll(Heap(Bodies(stack, t, two, mode), up), x)
  {
    BodiesAre(stack, t, two, mode);
    hide Bodies;
    MetaHeld(up, x);
  }

  lemma MetaHeld(up: map<Cell, Value>, x: set<Ref>)
    requires 4 in x && 5 in x
    ensures HeldIn(META, up, x)
  {
  }

  lemma BodiesReal(stack: seq<Value>, t: Body, two: Body, mode: string)
    requires t.Table? && t.mode == ModeOf(mode) && (t.meta == Obj(3) || (t.meta == Obj(2) && two == META))
    requires two.Table? && two.meta == Nil && two.mode.Strong?
    ensures RealModes(Bodies(stack, t, two, mode))
  {
    var body := Bodies(stack, t, two, mode);
    var m := t.meta.ref;
    assert body[m] == META && IsText(body[m].node[0].key, body, "__mode") && IsText(body[m].node[0].val, body, mode);
    assert GivesMode(t.meta, body, mode);
  }

  lemma Held(s: State, r: Ref, vs: seq<Value>)
    requires 0 in s.body && s.body[0] == Thread(vs) && (r == 0 || Obj(r) in vs) && s.mainthread == 0
    ensures Accessible(Graph(s), Roots(s), r)
  {
    forall x: set<Ref> | ClosedAll(Graph(s), x) && AllIn(Roots(s), x) ensures r in x {
      assert In(Roots(s)[0], x);
      assert HeldIn(s.body[0], s.up, x);
      if r != 0 { var i :| 0 <= i < |vs| && vs[i] == Obj(r); assert In(vs[i], x); }
    }
  }

  lemma Once(r: Ref, q: Ref)
    ensures multiset([q])[r] == (if r == q then 1 else 0)
  {
  }

  /** Popping the stack of the main thread. */
  lemma PopEnabled(s: State, vs: seq<Value>, v: Value)
    requires 0 in s.body && s.body[0] == Thread(vs + [v]) && s.mainthread == 0
    ensures Enabled(s, Store(0, Thread(vs), [], NoBarrier))
  {
    Held(s, 0, vs + [v]);
    hide Accessible;
    forall x: set<Ref> | HeldIn(Thread(vs + [v]), s.up, x) ensures HeldIn(Thread(vs), s.up, x) {
      forall i | 0 <= i < |vs| ensures In(vs[i], x) { assert (vs + [v])[i] == vs[i]; }
    }
  }

  // ----- a dead metatable -----

  /** All-weak table 1, visited already and so parked, with metatable 3, and a fresh,
      unmarked metatable 2. */
  ghost function Before(): State {
    State(Bodies([Obj(1), Obj(2)], Table(Obj(3), AllWeak, [], []), META, "kv"), map[],
          map[0 := Gray, 1 := Gray, 2 := White(false), 3 := Black, 4 := Black, 5 := Black],
          [], Lists([0], [], [], [1]), [2, 1, 3, 4, 5], NoCursor, EnterAtomic, false, 0, 0, Nil, [])
  }

  /** Table 2 becomes the metatable of table 1 ... */
  ghost function Stored(): State {
    Before().(body := Bodies([Obj(1), Obj(2)], Table(Obj(2), AllWeak, [], []), META, "kv"))
  }

  /** ... and leaves the stack. */
  ghost function Dropped(): State {
    Before().(body := Bodies([Obj(1)], Table(Obj(2), AllWeak, [], []), META, "kv"))
  }

  ghost const STORE: Event := Store(1, Table(Obj(2), AllWeak, [], []), [Obj(2)], Forward)
  ghost const DROP: Event := Store(0, Thread([Obj(1)]), [], NoBarrier)

  lemma BeforeInv()
    ensures Inv(Before()) && RealModes(Before().body) && ParkedOk(Before())
  {
    hide Bodies, Shape, LiveOk, MarkOk, RealModes, ParkedOk;
    BodiesReal([Obj(1), Obj(2)], Table(Obj(3), AllWeak, [], []), META, "kv");
    BeforeShape();
    BeforeLive();
    BeforeMarks();
  }

  lemma BeforeShape()
    ensures Shape(Before())
  {
  }

  lemma BeforeLive()
    ensures LiveOk(Before())
  {
    var s := Before();
    assert Roots(s) == [Obj(0), Obj(0), Nil];
    assert Live(s) == {0, 1, 2, 3, 4, 5};
    MetaHeld(map[], Live(s));
    BodiesHeld([Obj(1), Obj(2)], Table(Obj(3), AllWeak, [], []), META, "kv", map[], Live(s));
    hide Bodies, ClosedAll;
  }

  lemma BeforeMarks()
    ensures MarkOk(Before()) && ParkedOk(Before())
  {
    var s := Before();
    assert Marked(s.color) == {0, 1, 3, 4, 5};
    BodiesAre([Obj(1), Obj(2)], Table(Obj(3), AllWeak, [], []), META, "kv");
    MetaHeld(map[], Marked(s.color));
    BeforeGray();
    hide Bodies, GrayListed, HeldIn;
    assert HeldIn(Str("__mode"), map[], Marked(s.color)) && HeldIn(Str("kv"), map[], Marked(s.color)) by { StrHeld(map[], Marked(s.color)); }
  }

  lemma StrHeld(up: map<Cell, Value>, x: set<Ref>)
    ensures forall text :: HeldIn(Str(text), up, x)
  {
  }

  lemma BeforeGray()
    ensures GrayListed(Before())
  {
    var s := Before();
    forall r ensures GrayCount(s, r) == if IsGray(s.color, r) then 1 else 0 {
      Once(r, 0);
      Once(r, 1);
    }
  }

  /** Both writes are ordinary program steps, the first one from a state in order, in
      which every table has the mode its metatable gives it. */
  lemma Reached()
    ensures Inv(Before()) && Spared(Before()) && RealModes(Before().body)
    ensures Mutates(Before(), STORE, Stored()) && RealModes(Stored().body)
    ensures Mutates(Stored(), DROP, Dropped()) && RealModes(Dropped().body)
    ensures Inv(Dropped())
  {
    hide Inv, Mutates, RealModes, ParkedOk, Bodies;
    BeforeInv();
    BodiesReal([Obj(1), Obj(2)], Table(Obj(2), AllWeak, [], []), META, "kv");
    BodiesReal([Obj(1)], Table(Obj(2), AllWeak, [], []), META, "kv");
    StoreMutates();
    DropMutates();
    MutateKeeps(Before(), STORE, Stored());
    MutateKeeps(Stored(), DROP, Dropped());
  }

  lemma StoreMutates()
    ensures Mutates(Before(), STORE, Stored())
  {
    hide Bodies, Enabled, ForwardStep;
    StoreEnabled();
    StoredBody();
    StoreNeedsNoBarrier();
    assert [Obj(2)][1..] == [];
    assert Barriers(Stored(), 1, [Obj(2)][1..], Forward, Stored());
    assert Barriers(Stored(), 1, [Obj(2)], Forward, Stored());
  }

  lemma DropMutates()
    ensures Mutates(Stored(), DROP, Dropped())
  {
    hide Bodies, Enabled;
    StoredBody();
    assert [Obj(1)] + [Obj(2)] == [Obj(1), Obj(2)];
    PopEnabled(Stored(), [Obj(1)], Obj(2));
  }

  lemma StoredBody()
    ensures Stored().body == Before().body[1 := Table(Obj(2), AllWeak, [], [])]
    ensures Dropped().body == Stored().body[0 := Thread([Obj(1)])]
    ensures 0 in Stored().body && Stored().body[0] == Thread([Obj(1), Obj(2)])
  {
  }

  lemma StoreEnabled()
    ensures Enabled(Before(), STORE)
  {
    Held(Before(), 1, [Obj(1), Obj(2)]);
    Held(Before(), 2, [Obj(1), Obj(2)]);
    hide Accessible;
    assert Usable(Before(), Obj(2));
    forall x: set<Ref> | AllIn([Obj(2)], x) ensures HeldIn(Table(Obj(2), AllWeak, [], []), map[], x) {
      assert In([Obj(2)][0], x);
    }
  }

  lemma StoreNeedsNoBarrier()
    ensures ForwardStep(Stored(), 1, Obj(2), Stored())
  {
  }

  /** After the first write alone nothing is lost: the stack still leads to table 2. */
  lemma StoredHarmless()
    ensures Inv(Stored()) && !ParkedOk(Stored()) && Followable(Stored())
  {
    hide Inv, Kept, RealModes, Mutates, Bodies, ParkedStrong, Bounded, Before, Stored, Dropped, LiveOk;
    Reached();
    var s := Stored();
    MutateKeeps(Before(), STORE, s);
    StoredFacts();
    assert 1 in s.lists.all;
    KeptBounded(s);
    KeptStack(s, [Obj(1), Obj(2)], 2);
    assert ParkedMetas(s);
    MetasSuffice(s);
  }

  lemma StoredFacts()
    ensures var s := Stored();
      && s.phase.EnterAtomic? && s.lists.all == [1] && s.mainthread == 0 && 2 !in Marked(s.color)
      && 0 in s.body && s.body[0] == Thread([Obj(1), Obj(2)]) && IsTable(s.body, 1, AllWeak) && s.body[1].meta == Obj(2)
  {
  }

  lemma DroppedFacts()
    ensures var s := Dropped();
      && s.phase.EnterAtomic? && s.lists.all == [1] && 1 in Marked(s.color)
      && IsTable(s.body, 1, AllWeak) && s.body[1].meta == Obj(2)
  {
  }

  lemma KeptStack(s: State, vs: seq<Value>, r: Ref)
    requires Bounded(s, Kept(s)) && s.mainthread == 0 && 0 in s.body && s.body[0] == Thread(vs) && Obj(r) in vs
    ensures r in Kept(s)
  {
    hide Least;
    assert In(Roots(s)[0], Kept(s));
    assert StrongIn(Unparked(s.body[0], 0 in Parked(s)), Graph(s), Kept(s));
    var i :| 0 <= i < |vs| && vs[i] == Obj(r);
    assert In(vs[i], Kept(s));
  }

  /** After both the condition fails: nothing the collector follows leads to table 2. */
  lemma DroppedUnsafe()
    ensures Inv(Dropped()) && Kept(Dropped()) <= {0, 1, 3, 4, 5} && 1 in Kept(Dropped()) && !ParkedMetas(Dropped())
  {
    hide Inv, RealModes, Mutates, Bodies, Bound, Kept, Before, Stored, Dropped;
    Reached();
    var s := Dropped();
    DroppedFacts();
    DroppedBound();
    KeptLeast(s, {0, 1, 3, 4, 5});
    KeptBounded(s);
    assert 1 in s.lists.all;
  }

  lemma DroppedBound()
    ensures Bounded(Dropped(), {0, 1, 3, 4, 5})
  {
    var s := Dropped();
    assert Marked(s.color) == {0, 1, 3, 4, 5};
    assert Roots(s) == [Obj(0), Obj(0), Nil];
    var x := {0, 1, 3, 4, 5};
    assert Elems(s.lists.all) == {1};
    BodiesAre([Obj(1)], Table(Obj(2), AllWeak, [], []), META, "kv");
    hide Bodies, HeldIn, StrongIn;
    forall o | o in x ensures StrongIn(Unparked(s.body[o], o in {1}), Graph(s), x) {
      DroppedHeld(x, o);
      HeldStrong(Unparked(s.body[o], o in {1}), Graph(s), x);
    }
  }

  lemma DroppedHeld(x: set<Ref>, o: Ref)
    requires x == {0, 1, 3, 4, 5} && o in x
    ensures HeldIn(Unparked(Dropped().body[o], o in {1}), map[], x)
  {
    BodiesAre([Obj(1)], Table(Obj(2), AllWeak, [], []), META, "kv");
    hide Bodies;
    MetaHeld(map[], x);
  }

  /** The atomic step from there leaves table 1 live and table 2, still its
      metatable, dead: the next sweep frees it. */
  method LoseMetatable(c: Collector)
    requires c.View() == Dropped()
    modifies c
    ensures 1 in Live(c.View()) && 1 in c.body && c.body[1].Table? && c.body[1].meta == Obj(2)
    ensures 2 !in Live(c.View())
    ensures !LiveOk(c.View())
  {
    hide Inv, Kept, LiveOk, Flipped, Trimmed, ParkedStrong, Reach;
    ghost var s := c.View();
    DroppedUnsafe();
    c.AtomicStep();
    AtomicBodies(s, c.View());
    assert Trimmed(s.body[1], c.body[1], 1 in s.lists.all, s.body, Live(c.View()));
    TrimmedMeta(s.body[1], c.body[1], true, s.body, Live(c.View()));
  }

  lemma TrimmedMeta(b: Body, b': Body, parked: bool, body: map<Ref, Body>, s: set<Ref>)
    requires Trimmed(b, b', parked, body, s) && b.Table?
    ensures b'.Table? && b'.meta == b.meta
  {
  }

  // ----- a freed key -----

  ghost const KEY := Table(Nil, Strong, [], [])

  ghost function Paused(stack: seq<Value>, t: Body): State {
    State(Bodies(stack, t, KEY, "kv"), map[],
          map[0 := White(false), 1 := White(false), 2 := White(false), 3 := White(false), 4 := White(false), 5 := White(false)],
          [], Lists([], [], [], []), [2, 1, 3, 4, 5], NoCursor, Pause, false, 0, 0, Nil, [])
  }

  /** All-weak table 1 has an entry with key 2, which the stack holds too. */
  ghost function Filled(): State {
    Paused([Obj(1), Obj(2)], Table(Obj(3), AllWeak, [], [Entry(Obj(2), Scalar(1))]))
  }

  /** The entry is emptied ... */
  ghost function Emptied(): State {
    Paused([Obj(1), Obj(2)], Table(Obj(3), AllWeak, [], [Entry(Obj(2), Nil)]))
  }

  /** ... and the key leaves the stack. */
  ghost function Forgotten(): State {
    Paused([Obj(1)], Table(Obj(3), AllWeak, [], [Entry(Obj(2), Nil)]))
  }

  ghost const CLEAR: Event := Store(1, Table(Obj(3), AllWeak, [], [Entry(Obj(2), Nil)]), [], Back)

  lemma FilledInv()
    ensures Inv(Filled()) && RealModes(Filled().body)
  {
    hide Bodies, Shape, LiveOk, PhaseOk, RealModes;
    BodiesReal([Obj(1), Obj(2)], Table(Obj(3), AllWeak, [], [Entry(Obj(2), Scalar(1))]), KEY, "kv");
    FilledShape();
    FilledLive();
    FilledPhase();
  }

  lemma FilledPhase()
    ensures PhaseOk(Filled())
  {
  }

  lemma FilledShape()
    ensures Shape(Filled())
  {
  }

  lemma FilledLive()
    ensures LiveOk(Filled())
  {
    var s := Filled();
    assert Roots(s) == [Obj(0), Obj(0), Nil];
    assert Live(s) == {0, 1, 2, 3, 4, 5};
    BodiesHeld([Obj(1), Obj(2)], Table(Obj(3), AllWeak, [], [Entry(Obj(2), Scalar(1))]), KEY, "kv", map[], Live(s));
    hide Bodies, ClosedAll;
  }

  /** Ordinary program steps, from a state in order. */
  lemma Forgets()
    ensures Inv(Filled()) && RealModes(Filled().body)
    ensures Mutates(Filled(), CLEAR, Emptied()) && Mutates(Emptied(), DROP, Forgotten())
    ensures Inv(Forgotten()) && RealModes(Forgotten().body)
  {
    hide Inv, Enabled, RealModes, Bodies;
    FilledInv();
    BodiesReal([Obj(1)], Table(Obj(3), AllWeak, [], [Entry(Obj(2), Nil)]), KEY, "kv");
    ClearEnabled();
    EmptiedBody();
    assert [Obj(1)] + [Obj(2)] == [Obj(1), Obj(2)];
    PopEnabled(Emptied(), [Obj(1)], Obj(2));
    assert Barriers(Emptied(), 1, [], Back, Emptied());
    MutateKeeps(Filled(), CLEAR, Emptied());
    MutateKeeps(Emptied(), DROP, Forgotten());
  }

  lemma EmptiedBody()
    ensures Emptied().body == Filled().body[1 := Table(Obj(3), AllWeak, [], [Entry(Obj(2), Nil)])]
    ensures Forgotten().body == Emptied().body[0 := Thread([Obj(1)])]
    ensures 0 in Emptied().body && Emptied().body[0] == Thread([Obj(1), Obj(2)])
  {
  }

  lemma ClearEnabled()
    ensures Enabled(Filled(), CLEAR)
  {
    hide Accessible, Bodies;
    BodiesAre([Obj(1), Obj(2)], Table(Obj(3), AllWeak, [], [Entry(Obj(2), Scalar(1))]), KEY, "kv");
    Held(Filled(), 1, [Obj(1), Obj(2)]);
    ClearAdds();
    hide AddsOnly;
  }

  lemma ClearAdds()
    ensures AddsOnly(Table(Obj(3), AllWeak, [], [Entry(Obj(2), Scalar(1))]), Table(Obj(3), AllWeak, [], [Entry(Obj(2), Nil)]), map[], [])
  {
  }

  /** Table 1 is reachable, its old key is not. */
  lemma ForgottenReach()
    ensures var reach := Reach(Graph(Forgotten()), Roots(Forgotten())); KeyLost(Forgotten().body, 1, 0, reach) && 0 in reach
    ensures EmptiesLive(Forgotten())
  {
    hide Inv, RealModes, Mutates, Reach, HeldIn, ClosedAll, Forgotten;
    var s := Forgotten();
    Forgets();
    ForgottenFacts();
    ForgottenEmpties();
    var reach, x := Reach(Graph(s), Roots(s)), {0, 1, 3, 4, 5};
    ClosedAllClosed(Graph(s), x);
    StartReach(s, reach);
    ReachLeast(Graph(s), Roots(s), x);
    assert In(Roots(s)[0], reach);
    assert StrongIn(s.body[0], Graph(s), reach);
    assert In([Obj(1)][0], reach);
  }

  lemma ForgottenFacts()
    ensures var s := Forgotten();
      && Roots(s) == [Obj(0), Obj(0), Nil] && ClosedAll(Graph(s), {0, 1, 3, 4, 5}) && s.mainthread == 0
      && 0 in s.body && s.body[0] == Thread([Obj(1)])
      && 1 in s.body && s.body[1] == Table(Obj(3), AllWeak, [], [Entry(Obj(2), Nil)])
  {
    BodiesAre([Obj(1)], Table(Obj(3), AllWeak, [], [Entry(Obj(2), Nil)]), KEY, "kv");
    BodiesHeld([Obj(1)], Table(Obj(3), AllWeak, [], [Entry(Obj(2), Nil)]), KEY, "kv", map[], {0, 1, 3, 4, 5});
    hide Bodies, HeldIn, ClosedAll;
  }

  lemma ForgottenEmpties()
    ensures EmptiesLive(Forgotten())
  {
    BodiesAre([Obj(1)], Table(Obj(3), AllWeak, [], [Entry(Obj(2), Nil)]), KEY, "kv");
    hide Bodies, Live, EmptyIn;
    NoEmpties(Live(Forgotten()));
  }

  lemma NoEmpties(s: set<Ref>)
    ensures EmptyIn(META.node, s) && EmptyIn(KEY.node, s)
  {
  }

  /** A full collection frees the key but leaves it in the empty entry. When the table
      then loses its metatable, it is a strong table with a freed key, and its next
      traversal reads the mark of that key. */
  method LoseKey(c: Collector)
    requires c.View() == Forgotten()
    modifies c
    ensures Inv(c.View()) && HoldsFreed(c.body, 1, 0) && c.body[1].mode.Strong?
    ensures !EmptiesLive(c.View())
  {
    hide Inv, EmptiesLive, Reach, Accessible, Run, RealModes, Mutates, AllCollected;
    ghost var s := c.View();
    Forgets();
    ForgottenReach();
    ghost var _ := c.FullGc();
    AfterFull(s, c.View(), Reach(Graph(s), Roots(s)));
    ghost var t := c.View();
    Held(t, 1, [Obj(1)]);
    c.SetMetatable(1, Nil, Strong);
    Stripped(t, c.View());
  }

  lemma AfterFull(s: State, t: State, reach: set<Ref>)
    requires s == Forgotten() && AllCollected(s.body, t.body, reach) && 0 in t.body && HoldsFreed(t.body, 1, 0)
    ensures t.body[0] == Thread([Obj(1)]) && t.body[1].Table?
  {
    BodiesAre([Obj(1)], Table(Obj(3), AllWeak, [], [Entry(Obj(2), Nil)]), KEY, "kv");
    hide Bodies;
    assert Collected(s.body[0], t.body[0], reach);
  }

  lemma Stripped(s: State, t: State)
    requires HoldsFreed(s.body, 1, 0) && Mutates(s, Store(1, WithMeta(s.body[1], Nil, Strong), [Nil], Forward), t) && Inv(t)
    requires 0 in s.body && s.body[0] == Thread([Obj(1)]) && s.mainthread == 0
    ensures HoldsFreed(t.body, 1, 0) && t.body[1].mode.Strong? && !EmptiesLive(t)
  {
    hide Accessible, PhaseOk, AddsOnly;
    var e := Store(1, WithMeta(s.body[1], Nil, Strong), [Nil], Forward);
    BarriersKeys(Write(s, e), 1, [Nil], Forward, t);
    assert In(Roots(t)[0], Live(t));
    assert HeldIn(t.body[0], t.up, Live(t));
    assert In([Obj(1)][0], Live(t));
    assert Traversed(t.body[1]);
    assert !In(t.body[1].node[0].key, Live(t));
  }

  // ----- a list that is not empty -----

  /** The atomic step is due. Table 1, with weak values and an array part, is fresh;
      closure 6 has a closed upvalue. */
  ghost function Fresh(): State {
    State(Bodies([Obj(1), Obj(6)], Table(Obj(3), WeakValues, [Scalar(1)], []), KEY, "v")[6 := LClosure(Obj(7), [0])][7 := Proto([], Nil)],
          map[0 := Nil],
          map[0 := Gray, 1 := White(false), 2 := Black, 3 := Black, 4 := Black, 5 := Black, 6 := Black, 7 := Black],
          [], Lists([0], [], [], []), [1, 2, 3, 4, 5, 6, 7], NoCursor, EnterAtomic, false, 0, 0, Nil, [])
  }

  lemma FreshInv()
    ensures Inv(Fresh()) && RealModes(Fresh().body) && ParkedOk(Fresh())
  {
    hide Bodies, Shape, LiveOk, MarkOk, RealModes, ParkedOk;
    FreshShape();
    FreshLive();
    FreshMarks();
    FreshModes();
  }

  lemma FreshShape()
    ensures Shape(Fresh())
  {
  }

  lemma FreshHeld(x: set<Ref>)
    requires {2, 3, 4, 5, 6, 7} <= x && (0 in x ==> 1 in x)
    ensures ClosedAll(Graph(Fresh()), x)
  {
    var b := Bodies([Obj(1), Obj(6)], Table(Obj(3), WeakValues, [Scalar(1)], []), KEY, "v");
    BodiesHeld([Obj(1), Obj(6)], Table(Obj(3), WeakValues, [Scalar(1)], []), KEY, "v", map[0 := Nil], x);
    BodiesAre([Obj(1), Obj(6)], Table(Obj(3), WeakValues, [Scalar(1)], []), KEY, "v");
    assert HeldIn(LClosure(Obj(7), [0]), map[0 := Nil], x) && HeldIn(Proto([], Nil), map[0 := Nil], x);
    hide Bodies, HeldIn;
    assert forall o :: o in x && o in b ==> HeldIn(b[o], map[0 := Nil], x);
  }

  lemma FreshLive()
    ensures LiveOk(Fresh())
  {
    hide Bodies, ClosedAll, HeldIn, Fresh, Live;
    FreshAll();
    FreshHeld(Live(Fresh()));
  }

  lemma FreshAll()
    ensures var s := Fresh(); Roots(s) == [Obj(0), Obj(0), Nil] && Live(s) == {0, 1, 2, 3, 4, 5, 6, 7}
  {
  }

  lemma FreshMarks()
    ensures MarkOk(Fresh()) && ParkedOk(Fresh())
  {
    var s := Fresh();
    var m := Marked(s.color);
    assert m == {0, 2, 3, 4, 5, 6, 7};
    FreshHeld(m - {0});
    FreshGray();
    hide Bodies, GrayListed, HeldIn;
    forall o | o in s.color && o in s.body && s.color[o].Black? ensures HeldIn(s.body[o], s.up, m) {
      HeldMono(s.body[o], s.up, m - {0}, m);
    }
  }

  lemma FreshGray()
    ensures GrayListed(Fresh())
  {
    var s := Fresh();
    forall r ensures GrayCount(s, r) == if IsGray(s.color, r) then 1 else 0 {
      Once(r, 0);
    }
  }

  lemma FreshModes()
    ensures RealModes(Fresh().body)
  {
    var body := Fresh().body;
    FreshBodies();
    hide Bodies, Fresh;
    assert IsText(body[3].node[0].key, body, "__mode") && IsText(body[3].node[0].val, body, "v");
    assert GivesMode(Obj(3), body, "v");
    assert forall text: string :: !GivesMode(Nil, body, text);
    hide GivesMode;
  }

  lemma FreshBodies()
    ensures var b := Fresh().body;
      && b.Keys == {0, 1, 2, 3, 4, 5, 6, 7} && b[0].Thread? && b[1] == Table(Obj(3), WeakValues, [Scalar(1)], [])
      && b[2] == KEY && b[3] == META && b[4] == Str("__mode") && b[5] == Str("v") && b[6].LClosure? && b[7].Proto?
  {
    BodiesAre([Obj(1), Obj(6)], Table(Obj(3), WeakValues, [Scalar(1)], []), KEY, "v");
    hide Bodies;
  }

  /** Storing table 1 in the upvalue marks it, so it is gray when the atomic step begins,
      and the `propagateall` in front of `atomic` links it into a list that `atomic`
      asserts to be empty. */
  method FailAssertion(c: Collector)
    requires c.View() == Fresh()
    modifies c
    ensures c.weak != [] || c.ephemeron != []
  {
    hide Inv, Accessible, AtomicInv, Advanced, Kept, MarkedForward, ParkedOk, RealModes, Bounded;
    ghost var s := c.View();
    FreshInv();
    FreshFacts();
    Held(s, 1, [Obj(1), Obj(6)]);
    c.SetUpvalue(0, Obj(1));
    ghost var t := c.View();
    UpvalueGray(s, t);
    KeptBounded(t);
    MarkToAtomic(t, Kept(t));
    ListsEmpty(t);
    c.PropagateLate(Kept(t), Elems(c.allweak));
  }

  lemma FreshFacts()
    ensures var s := Fresh();
      && s.phase.EnterAtomic? && s.mainthread == 0 && s.gray == [] && 0 in s.up && 1 in s.color && s.color[1] == White(false)
      && 0 in s.body && s.body[0] == Thread([Obj(1), Obj(6)])
      && 1 in s.body && s.body[1] == Table(Obj(3), WeakValues, [Scalar(1)], [])
  {
  }

  lemma UpvalueGray(s: State, t: State)
    requires s.phase.EnterAtomic? && s.gray == [] && 1 in s.color && s.color[1].White?
    requires 1 in s.body && s.body[1] == Table(Obj(3), WeakValues, [Scalar(1)], []) && Mutates(s, SetCell(0, Obj(1)), t)
    ensures t.phase.EnterAtomic? && 1 in t.gray && forall x :: MustClear(1, t.body, x)
  {
    hide Accessible, HeldIn;
    assert t.color[1].Gray?;
    assert multiset(t.gray)[1] == multiset([])[1] + NewlyGray(s.color, t.color, 1);
    assert 1 in multiset(t.gray);
  }
}
