/** The write barriers keep the collector's invariant, whatever the program stores. */
module LuaBarrier {
  import opened LuaHeap
  import opened LuaGcState
  import opened LuaAtomic
  import opened LuaMutator

  /** `o` may hold `pending` values that are not marked yet; apart from them, if
      black, it holds marked objects only. */
  ghost predicate Owes(s: State, o: Ref, pending: seq<Value>) {
    o in s.color && s.color[o].Black? ==>
      o in s.body && forall x: set<Ref> :: Marked(s.color) <= x && AllIn(pending, x) ==> HeldIn(s.body[o], s.up, x)
  }

  ghost predicate MarkOkBut(s: State, o: Ref, pending: seq<Value>) {
    && NoneDead(s) && BlackOk(s.body, s.up, s.color, {o}) && Owes(s, o, pending) && GrayListed(s) && ParkedTables(s)
    && s.mainthread in Marked(s.color) && (s.phase.Propagate? ==> s.gray != [])
  }

  /** The invariant in the middle of a store to `o`. */
  ghost predicate InvBut(s: State, o: Ref, pending: seq<Value>) {
    && Shape(s) && LiveOk(s) && CursorOk(s) && o in Live(s) && AllIn(pending, Live(s))
    && (Keeps(s.phase) ==> MarkOkBut(s, o, pending))
    && (s.phase.CallFin? || s.phase.Pause? ==> forall r :: r in s.color ==> s.color[r] == White(s.white))
    && !s.phase.InsideAtomic?
  }

  /** The step leaves a table that the collector has parked all-weak and gives it no
      unmarked metatable. */
  ghost predicate ParkedSafe(s: State, e: Event) {
    Keeps(s.phase) && e.Store? && e.o in s.lists.all ==>
      e.b.Table? && e.b.mode.AllWeak? && In(e.b.meta, Marked(s.color))
  }

  lemma StoreLive(s: State, e: Event)
    requires Inv(s) && Enabled(s, e) && e.Store?
    ensures e.o in Live(s) && AllIn(e.added, Live(s)) && LiveOk(Write(s, e)) && Shape(Write(s, e))
  {
    hide MarkOk, Accessible;
    AccessibleLive(s, e.o);
    forall i | 0 <= i < |e.added| ensures In(e.added[i], Live(s)) {
      if e.added[i].Obj? { assert Usable(s, e.added[i]); AccessibleLive(s, e.added[i].ref); }
    }
    assert HeldIn(s.body[e.o], s.up, Live(s));
    assert HeldIn(e.b, s.up, Live(s));
  }

  lemma StoreOwes(s: State, e: Event)
    requires Inv(s) && Enabled(s, e) && e.Store? && Keeps(s.phase)
    ensures Owes(Write(s, e), e.o, e.added) && BlackOk(Write(s, e).body, s.up, s.color, {e.o})
  {
    hide Accessible, LiveOk, CursorOk, GrayListed, ParkedTables, KindsOk, CellsOk;
    if e.o in s.color && s.color[e.o].Black? {
      forall x: set<Ref> | Marked(s.color) <= x && AllIn(e.added, x) ensures HeldIn(e.b, s.up, x) {
        HeldMono(s.body[e.o], s.up, Marked(s.color), x);
      }
    }
  }

  lemma StoreWrites(s: State, e: Event)
    requires Inv(s) && Enabled(s, e) && e.Store?
    ensures InvBut(Write(s, e), e.o, e.added)
  {
    hide Accessible, AddsOnly, LiveOk, BlackOk, Owes;
    StoreLive(s, e);
    if Keeps(s.phase) {
      StoreOwes(s, e);
      StoreParked(s, e);
    }
  }

  /** A store does not change what kind of object a parked table is. */
  lemma StoreParked(s: State, e: Event)
    requires ParkedTables(s) && Enabled(s, e) && e.Store?
    ensures ParkedTables(Write(s, e))
  {
    hide HeldIn, Accessible;
  }

  // ----- one barrier -----

  lemma ForwardMarks(s: State, o: Ref, v: Value, rest: seq<Value>, m: State)
    requires InvBut(s, o, [v] + rest) && Keeps(s.phase) && MarkedForward(s, v, m)
    ensures InvBut(m, o, rest)
  {
    MarkedShape(s, v, m);
    MarkedGray(s, v, m);
    MarkedBlack(s, v, m, {o});
    hide MarkedForward, Shape, BlackOk, GrayListed, CursorOk;
    assert Live(m) == Live(s);
    MarkedOwes(s, o, v, rest, m);
    assert forall i :: 0 <= i < |rest| ==> rest[i] == ([v] + rest)[i + 1];
  }

  lemma MarkedShape(s: State, v: Value, m: State)
    requires Shape(s) && NoneDead(s) && MarkedForward(s, v, m) && CursorOk(s) && LiveOk(s) && Keeps(s.phase)
    ensures Shape(m) && NoneDead(m) && CursorOk(m) && LiveOk(m) && Live(m) == Live(s) == s.body.Keys
    ensures Marked(s.color) <= Marked(m.color) && m == s.(color := m.color, gray := m.gray)
  {
    assert Live(s) == s.body.Keys && Live(m) == m.body.Keys;
  }

  lemma MarkedGray(s: State, v: Value, m: State)
    requires GrayListed(s) && ParkedTables(s) && MarkedForward(s, v, m) && (s.phase.Propagate? ==> s.gray != [])
    requires s.color.Keys == s.body.Keys
    ensures GrayListed(m) && ParkedTables(m) && (m.phase.Propagate? ==> m.gray != [])
  {
    forall r ensures GrayCount(m, r) == if IsGray(m.color, r) then 1 else 0 {
      assert GrayCount(s, r) == if IsGray(s.color, r) then 1 else 0;
    }
    if s.gray != [] {
      assert s.gray[0] in multiset(s.gray) && s.gray[0] in multiset(m.gray);
    }
  }

  lemma MarkedBlack(s: State, v: Value, m: State, e: set<Ref>)
    requires s.color.Keys == s.body.Keys && BlackOk(s.body, s.up, s.color, e) && MarkedForward(s, v, m)
    ensures BlackOk(m.body, m.up, m.color, e)
  {
    hide HeldIn;
    BlackOkGrows(s.body, s.up, s.color, m.color, e);
  }

  lemma MarkedOwes(s: State, o: Ref, v: Value, rest: seq<Value>, m: State)
    requires Owes(s, o, [v] + rest) && MarkedForward(s, v, m) && o in s.body && s.color.Keys == s.body.Keys
    ensures Owes(m, o, rest)
  {
    if m.color[o].Black? {
      forall x: set<Ref> | Marked(m.color) <= x && AllIn(rest, x) ensures HeldIn(m.body[o], m.up, x) {
        if s.color[o].Black? {
          assert AllIn([v] + rest, x);
        } else {
          HeldMono(m.body[o], m.up, Marked(m.color), x);
        }
      }
    }
  }

  /** Dropping a value that is marked already, or whose holder is not black. */
  lemma NoBarrierNeeded(s: State, o: Ref, v: Value, rest: seq<Value>)
    requires InvBut(s, o, [v] + rest) && !NeedsBarrier(s, o, v)
    ensures InvBut(s, o, rest)
  {
    hide Shape, LiveOk, CursorOk, BlackOk, GrayListed, ParkedTables, HeldIn;
    assert In(([v] + rest)[0], Live(s));
    assert forall i :: 0 <= i < |rest| ==> rest[i] == ([v] + rest)[i + 1];
    if Keeps(s.phase) && s.color[o].Black? {
      forall x: set<Ref> | Marked(s.color) <= x && AllIn(rest, x) ensures HeldIn(s.body[o], s.up, x) {
        assert AllIn([v] + rest, x);
      }
    }
  }

  /** In the sweep phase the black holder is swept ahead of time. */
  lemma SweepsHolder(s: State, o: Ref, v: Value, rest: seq<Value>)
    requires InvBut(s, o, [v] + rest) && !Keeps(s.phase) && NeedsBarrier(s, o, v)
    ensures Sweeps(s.phase) && InvBut(s.(color := s.color[o := White(s.white)]), o, rest)
  {
    var m := s.(color := s.color[o := White(s.white)]);
    hide BlackOk, GrayListed, ParkedTables, HeldIn, Owes, LiveOk, CellsOk, NoDup;
    assert Live(m) == Live(s);
    SameLive(s, m);
    assert In(([v] + rest)[0], Live(s));
    assert forall i :: 0 <= i < |rest| ==> rest[i] == ([v] + rest)[i + 1];
  }

  lemma BackLinks(s: State, o: Ref, v: Value, rest: seq<Value>)
    requires InvBut(s, o, [v] + rest) && NeedsBarrier(s, o, v) && s.body[o].Table?
    ensures InvBut(s.(color := s.color[o := Gray], lists := s.lists.(again := [o] + s.lists.again)), o, rest)
  {
    var m := s.(color := s.color[o := Gray], lists := s.lists.(again := [o] + s.lists.again));
    hide HeldIn, BlackOk, GrayListed, ParkedTables, LiveOk;
    assert Live(m) == Live(s) && Marked(m.color) == Marked(s.color);
    assert LiveOk(m) by { SameLive(s, m); }
    assert forall i :: 0 <= i < |rest| ==> rest[i] == ([v] + rest)[i + 1];
    if Keeps(s.phase) { BackGray(s, o, m); }
  }

  lemma SameLive(s: State, m: State)
    requires LiveOk(s) && m.body == s.body && m.up == s.up && Roots(m) == Roots(s) && Live(m) == Live(s)
    ensures LiveOk(m)
  {
  }

  lemma BackGray(s: State, o: Ref, m: State)
    requires m == s.(color := s.color[o := Gray], lists := s.lists.(again := [o] + s.lists.again))
    requires o in s.color && s.color[o].Black? && Marked(m.color) == Marked(s.color)
    requires BlackOk(s.body, s.up, s.color, {o}) && GrayListed(s) && ParkedTables(s)
    ensures BlackOk(m.body, m.up, m.color, {o}) && GrayListed(m) && ParkedTables(m)
  {
    hide HeldIn;
    forall r ensures GrayCount(m, r) == if IsGray(m.color, r) then 1 else 0 {
      assert GrayCount(s, r) == if IsGray(s.color, r) then 1 else 0;
      assert multiset([o] + s.lists.again) == multiset{o} + multiset(s.lists.again);
    }
  }

  lemma BarriersKeep(s: State, o: Ref, vs: seq<Value>, barrier: Barrier, s': State)
    requires InvBut(s, o, vs) && Barriers(s, o, vs, barrier, s') && !barrier.NoBarrier?
    requires barrier.Back? ==> o in s.body && s.body[o].Table?
    ensures InvBut(s', o, [])
    decreases |vs|
  {
    hide InvBut, MarkedForward;
    if vs != [] {
      assert vs == [vs[0]] + vs[1..];
      var m: State :| (if barrier.Forward? then ForwardStep(s, o, vs[0], m) else BackStep(s, o, vs[0], m))
                      && Barriers(m, o, vs[1..], barrier, s');
      if !NeedsBarrier(s, o, vs[0]) {
        NoBarrierNeeded(s, o, vs[0], vs[1..]);
      } else if barrier.Back? {
        BackLinks(s, o, vs[0], vs[1..]);
      } else if Keeps(s.phase) {
        ForwardMarks(s, o, vs[0], vs[1..], m);
      } else {
        SweepsHolder(s, o, vs[0], vs[1..]);
      }
      assert m.body == s.body by { if barrier.Forward? { ForwardBody(s, o, vs[0], m); } }
      BarriersKeep(m, o, vs[1..], barrier, s');
    } else {
      assert vs == [];
    }
  }

  lemma ForwardBody(s: State, o: Ref, v: Value, m: State)
    requires ForwardStep(s, o, v, m)
    ensures m.body == s.body
  {
  }

  lemma InvButDone(s: State, o: Ref)
    requires InvBut(s, o, []) && o in s.body
    ensures Inv(s)
  {
    if Keeps(s.phase) && s.color[o].Black? {
      assert HeldIn(s.body[o], s.up, Marked(s.color));
    }
  }

  // ----- the other steps -----

  lemma StoreKeeps(s: State, e: Event, s': State)
    requires Inv(s) && e.Store? && Mutates(s, e, s')
    ensures Inv(s')
  {
    assert e.barrier.NoBarrier? && e.o in s.color ==> !s.color[e.o].Black?;
    hide InvBut, Inv;
    StoreWrites(s, e);
    var w := Write(s, e);
    if e.barrier.NoBarrier? {
      NoBarrierStore(w, e.o, e.added);
    } else {
      BarriersKeep(w, e.o, e.added, e.barrier, s');
      BarriersBody(w, e.o, e.added, e.barrier, s');
      InvButDone(s', e.o);
    }
  }

  lemma NoBarrierStore(s: State, o: Ref, vs: seq<Value>)
    requires InvBut(s, o, vs) && o in s.body && (o in s.color ==> !s.color[o].Black?)
    ensures Inv(s)
  {
  }

  lemma BarriersBody(s: State, o: Ref, vs: seq<Value>, barrier: Barrier, s': State)
    requires Barriers(s, o, vs, barrier, s')
    ensures s'.body == s.body
    decreases |vs|
  {
    if !barrier.NoBarrier? && vs != [] {
      var m: State :| (if barrier.Forward? then ForwardStep(s, o, vs[0], m) else BackStep(s, o, vs[0], m))
                      && Barriers(m, o, vs[1..], barrier, s');
      if barrier.Forward? { ForwardBody(s, o, vs[0], m); }
      BarriersBody(m, o, vs[1..], barrier, s');
    }
  }

  lemma CellHeld(b: Body, up: map<Cell, Value>, c: Cell, v: Value, s: set<Ref>)
    requires HeldIn(b, up, s) && In(v, s)
    ensures HeldIn(b, up[c := v], s)
  {
  }

  /** A new value in an upvalue leaves everything in order but for the black
      closures that share it. */
  lemma CellWrites(s: State, c: Cell, v: Value)
    requires Inv(s) && In(v, Live(s))
    ensures var w := s.(up := s.up[c := v]); Shape(w) && LiveOk(w) && CursorOk(w) && Live(w) == Live(s)
  {
    var w := s.(up := s.up[c := v]);
    hide HeldIn, MarkOk;
    forall o | o in Live(w) && o in w.body ensures HeldIn(w.body[o], w.up, Live(w)) {
      CellHeld(s.body[o], s.up, c, v, Live(s));
    }
  }

  lemma CellBlack(s: State, c: Cell, v: Value, m: State)
    requires s.color.Keys == s.body.Keys && BlackOk(s.body, s.up, s.color, {})
    requires var w := s.(up := s.up[c := v]); (MarkedForward(w, v, m) || (m == w && !v.Obj?))
    ensures BlackOk(m.body, m.up, m.color, {})
  {
    hide HeldIn;
    forall o | o in m.color && o in m.body && m.color[o].Black? ensures HeldIn(m.body[o], m.up, Marked(m.color)) {
      if s.color[o].Black? {
        HeldMono(s.body[o], s.up, Marked(s.color), Marked(m.color));
        CellHeld(s.body[o], s.up, c, v, Marked(m.color));
      }
    }
  }

  lemma CellKeeps(s: State, e: Event, s': State)
    requires Inv(s) && e.SetCell? && Mutates(s, e, s')
    ensures Inv(s')
  {
    hide Accessible, BlackOk, GrayListed, ParkedTables, LiveOk, Shape, MarkedForward, CursorOk;
    if e.v.Obj? { assert Usable(s, e.v); AccessibleLive(s, e.v.ref); }
    CellWrites(s, e.c, e.v);
    var w := Write(s, e);
    if Keeps(s.phase) {
      assert s.color.Keys == s.body.Keys by { ShapeKeys(s); }
      CellBlack(s, e.c, e.v, s');
      CellGray(s, w);
      if e.v.Obj? {
        MarkedShape(w, e.v, s');
        MarkedGray(w, e.v, s');
      }
    }
  }

  lemma ShapeKeys(s: State)
    requires Shape(s)
    ensures s.color.Keys == s.body.Keys
  {
  }

  lemma CellGray(s: State, w: State)
    requires w == s.(up := w.up)
    ensures GrayListed(w) == GrayListed(s) && ParkedTables(w) == ParkedTables(s) && NoneDead(w) == NoneDead(s)
  {
  }

  lemma RootKeeps(s: State, e: Event, s': State)
    requires Inv(s) && (e.SetRegistry? || e.SetTypeMeta? || e.Resume?) && Mutates(s, e, s')
    ensures Inv(s')
  {
    hide Accessible, HeldIn, MarkedForward, BlackOk, ParkedTables, GrayListed;
    var v := if e.Resume? then Obj(e.thread) else e.v;
    if v.Obj? {
      assert Usable(s, v);
      AccessibleLive(s, v.ref);
    }
    assert Live(s') == Live(s);
    forall i | 0 <= i < |Roots(s')| ensures In(Roots(s')[i], Live(s)) {
      assert In(Roots(s)[i], Live(s));
    }
    if Keeps(s.phase) {
      assert GrayListed(s') && ParkedTables(s') by { hide LiveOk, Shape; RootGray(s, s'); }
    }
  }

  lemma RootGray(s: State, w: State)
    requires w.gray == s.gray && w.lists == s.lists && w.color == s.color && w.body == s.body
    ensures GrayListed(w) == GrayListed(s) && ParkedTables(w) == ParkedTables(s)
  {
  }

  lemma NewCellKeeps(s: State, e: Event, s': State)
    requires Inv(s) && e.NewCell? && Mutates(s, e, s')
    ensures Inv(s')
  {
    hide GrayListed, ParkedTables;
    forall o, x: set<Ref> | o in s.body && HeldIn(s.body[o], s.up, x) ensures HeldIn(s.body[o], s'.up, x) {
      FreshCell(s.body[o], s.up, e.c, e.v, x);
    }
    if Keeps(s.phase) { CellGray(s, s'); }
  }

  lemma FreshCell(b: Body, up: map<Cell, Value>, c: Cell, v: Value, s: set<Ref>)
    requires HeldIn(b, up, s) && c !in up && (b.LClosure? ==> forall i :: 0 <= i < |b.cells| ==> b.cells[i] in up)
    ensures HeldIn(b, up[c := v], s)
  {
  }

  lemma PushHeld(b: Body, v: Value, up: map<Cell, Value>, s: set<Ref>)
    requires b.Thread? && HeldIn(b, up, s) && In(v, s)
    ensures HeldIn(Push(b, v), up, s)
  {
  }

  /** The new object is live, and so is everything it and the stack hold. */
  lemma NewLive(s: State, e: Event)
    requires Inv(s) && Enabled(s, e) && e.New?
    ensures LiveOk(Write(s, e)) && Live(Write(s, e)) == Live(s) + {e.r} && e.thread in Live(s)
  {
    hide MarkOk, Accessible, CursorOk, KindsOk;
    var w := Write(s, e);
    AccessibleLive(s, e.thread);
    assert Live(w) == Live(s) + {e.r};
    assert HeldIn(e.b, s.up, Live(s));
    forall o | o in Live(w) && o in w.body ensures HeldIn(w.body[o], w.up, Live(w)) {
      if o == e.r {
        HeldMono(e.b, s.up, Live(s), Live(w));
      } else {
        HeldMono(s.body[o], s.up, Live(s), Live(w));
        if o == e.thread { PushHeld(s.body[o], Obj(e.r), s.up, Live(w)); }
      }
    }
    assert Roots(w) == Roots(s);
  }

  lemma NewShape(s: State, e: Event)
    requires Shape(s) && Enabled(s, e) && e.New?
    ensures Shape(Write(s, e))
  {
    hide Accessible, HeldIn, NoDup, KindsOk, CellsOk;
    var w := Write(s, e);
    PushKinds(s.body, s.up, s.color, e.thread, Obj(e.r));
    AddKinds(s.body[e.thread := Push(s.body[e.thread], Obj(e.r))], s.up, s.color, e.r, e.b, s.white);
    assert s.body[e.r := e.b][e.thread := Push(s.body[e.thread], Obj(e.r))]
        == s.body[e.thread := Push(s.body[e.thread], Obj(e.r))][e.r := e.b];
    assert w.body.Keys == s.body.Keys + {e.r} && w.color.Keys == s.color.Keys + {e.r};
    NewList(e.r, s.allgc);
  }

  lemma PushKinds(body: map<Ref, Body>, up: map<Cell, Value>, color: map<Ref, Color>, t: Ref, v: Value)
    requires KindsOk(body, color) && CellsOk(body, up) && t in body && body[t].Thread?
    ensures KindsOk(body[t := Push(body[t], v)], color) && CellsOk(body[t := Push(body[t], v)], up)
  {
  }

  lemma AddKinds(body: map<Ref, Body>, up: map<Cell, Value>, color: map<Ref, Color>, r: Ref, b: Body, white: bool)
    requires KindsOk(body, color) && CellsOk(body, up)
    requires b.LClosure? ==> forall i :: 0 <= i < |b.cells| ==> b.cells[i] in up
    ensures KindsOk(body[r := b], color[r := White(white)]) && CellsOk(body[r := b], up)
  {
  }

  lemma NewList(r: Ref, l: seq<Ref>)
    requires NoDup(l) && r !in l
    ensures NoDup([r] + l) && forall q :: q in [r] + l <==> q == r || q in l
  {
  }

  lemma NewCursor(s: State, e: Event)
    requires CursorOk(s) && Enabled(s, e) && e.New?
    ensures CursorOk(Write(s, e))
  {
    hide Accessible, HeldIn, Swept;
    var w := Write(s, e);
    NewSwept(s, e.r, w);
  }

  lemma NewSwept(s: State, r: Ref, w: State)
    requires w.allgc == [r] + s.allgc && w.white == s.white && w.color == s.color[r := White(s.white)]
    ensures forall n: nat :: Swept(s, n) ==> Swept(w, n + 1)
    ensures Swept(w, 0)
  {
  }

  lemma NewMarks(s: State, e: Event)
    requires Inv(s) && Enabled(s, e) && e.New? && Keeps(s.phase)
    ensures MarkOk(Write(s, e))
  {
    hide LiveOk, Accessible, HeldIn, CursorOk, CellsOk, NoDup;
    var w := Write(s, e);
    assert Marked(w.color) == Marked(s.color);
    assert e.r !in s.color && !s.color[e.thread].Black?;
    forall r ensures GrayCount(w, r) == if IsGray(w.color, r) then 1 else 0 {
      assert GrayCount(s, r) == if IsGray(s.color, r) then 1 else 0;
    }
    forall r | r in w.lists.all ensures r in w.body && w.body[r].Table? {
      assert r in s.body && s.body[r].Table?;
    }
  }

  lemma NewKeeps(s: State, e: Event, s': State)
    requires Inv(s) && e.New? && Mutates(s, e, s')
    ensures Inv(s')
  {
    hide MarkOk, LiveOk, Shape, CursorOk, Enabled;
    NewLive(s, e);
    NewShape(s, e);
    NewCursor(s, e);
    if Keeps(s.phase) { NewMarks(s, e); }
    assert s'.phase.CallFin? || s'.phase.Pause? ==> forall r :: r in s'.color ==> s'.color[r] == White(s'.white);
  }

  /** A dead string that has not been swept yet is brought back to life. */
  lemma InternKeeps(s: State, e: Event, s': State)
    requires Inv(s) && e.Intern? && Mutates(s, e, s')
    ensures Inv(s')
  {
    hide MarkOk, Shape, CursorOk, Accessible;
    AccessibleLive(s, e.thread);
    assert Live(s') == Live(s) + {e.r} by { InternShape(s, e); }
    InternShape(s, e);
    forall o | o in Live(s') && o in s'.body ensures HeldIn(s'.body[o], s'.up, Live(s')) {
      if o in Live(s) {
        HeldMono(s.body[o], s.up, Live(s), Live(s'));
        if o == e.thread { PushHeld(s.body[o], Obj(e.r), s.up, Live(s')); }
      }
    }
    assert Roots(s') == Roots(s);
    if Keeps(s.phase) { InternMarks(s, e); }
  }

  lemma InternShape(s: State, e: Event)
    requires Shape(s) && CursorOk(s) && Enabled(s, e) && e.Intern?
    ensures Shape(Write(s, e)) && CursorOk(Write(s, e)) && s.color.Keys == s.body.Keys
  {
    hide Accessible, HeldIn, Swept, NoDup, KindsOk, CellsOk;
    PushKinds(s.body, s.up, s.color, e.thread, Obj(e.r));
    var b := s.body[e.thread := Push(s.body[e.thread], Obj(e.r))];
    InternKinds(b, s.up, s.color, e.r, s.white);
    InternSwept(s, Write(s, e), e.r);
  }

  lemma InternKinds(body: map<Ref, Body>, up: map<Cell, Value>, color: map<Ref, Color>, r: Ref, white: bool)
    requires KindsOk(body, color)
    ensures KindsOk(body, color[r := White(white)])
  {
  }

  lemma InternSwept(s: State, w: State, r: Ref)
    requires w.allgc == s.allgc && w.white == s.white
    requires w.color == s.color || (r in s.color && s.color[r] != White(s.white) && w.color == s.color[r := White(s.white)])
    ensures forall n: nat :: Swept(s, n) ==> Swept(w, n)
  {
  }

  lemma InternMarks(s: State, e: Event)
    requires Inv(s) && Enabled(s, e) && e.Intern? && Keeps(s.phase)
    ensures MarkOk(Write(s, e))
  {
    hide LiveOk, Accessible, HeldIn, CursorOk, ClosedAll;
    var w := Write(s, e);
    assert w.color == s.color;
    forall r ensures GrayCount(w, r) == if IsGray(w.color, r) then 1 else 0 {
      assert GrayCount(s, r) == if IsGray(s.color, r) then 1 else 0;
    }
    forall r | r in w.lists.all ensures r in w.body && w.body[r].Table? {
      assert r in s.body && s.body[r].Table?;
    }
  }

  /** Every step of the program keeps the invariant, in every phase of the collector. */
  lemma MutateKeeps(s: State, e: Event, s': State)
    requires Inv(s) && Mutates(s, e, s')
    ensures Inv(s')
  {
    hide Inv, Mutates;
    match e
    case Store(_, _, _, _) => StoreKeeps(s, e, s');
    case SetCell(_, _) => CellKeeps(s, e, s');
    case NewCell(_, _) => NewCellKeeps(s, e, s');
    case SetRegistry(_) => RootKeeps(s, e, s');
    case SetTypeMeta(_, _) => RootKeeps(s, e, s');
    case Resume(_) => RootKeeps(s, e, s');
    case New(_, _, _) => NewKeeps(s, e, s');
    case Intern(_, _) => InternKeeps(s, e, s');
  }

  /** Parked tables stay as the collector left them if each step spares them. */
  lemma MutateSpares(s: State, e: Event, s': State)
    requires Inv(s) && Mutates(s, e, s') && ParkedSafe(s, e) && Keeps(s.phase) && ParkedOk(s)
    ensures ParkedOk(s') && s'.phase == s.phase
  {
    hide LiveOk, CursorOk, Accessible, AddsOnly, BlackOk, GrayListed, HeldIn, CellsOk, NoDup, MarksMore;
    if e.Store? { BarriersSpare(Write(s, e), e.o, e.added, e.barrier, s'); }
    assert Marked(s.color) <= Marked(s'.color) && s'.lists.all == s.lists.all;
    forall r | r in s'.lists.all ensures IsTable(s'.body, r, AllWeak) && In(s'.body[r].meta, Marked(s'.color)) {
      assert IsTable(s.body, r, AllWeak) && In(s.body[r].meta, Marked(s.color));
    }
  }

  lemma BarriersSpare(s: State, o: Ref, vs: seq<Value>, barrier: Barrier, s': State)
    requires Barriers(s, o, vs, barrier, s') && Keeps(s.phase)
    ensures s'.body == s.body && s'.lists.all == s.lists.all && s'.phase == s.phase && Marked(s.color) <= Marked(s'.color)
    decreases |vs|
  {
    hide MarksMore;
    if !barrier.NoBarrier? && vs != [] {
      var m: State :| (if barrier.Forward? then ForwardStep(s, o, vs[0], m) else BackStep(s, o, vs[0], m))
                      && Barriers(m, o, vs[1..], barrier, s');
      BarriersSpare(m, o, vs[1..], barrier, s');
    }
  }

  // ----- what the barrier code relies on -----

  ghost function Blacks(color: map<Ref, Color>): set<Ref> {
    set r | r in color && color[r].Black?
  }

  /** In the middle of a store everything is in order for marking, with all black
      objects excepted. */
  lemma ForwardReady(s: State, o: Ref, v: Value, rest: seq<Value>)
    requires InvBut(s, o, [v] + rest) && Keeps(s.phase)
    ensures Marking(s.body, s.up, s.color, s.body.Keys, {}, Blacks(s.color)) && In(v, s.body.Keys)
  {
    hide CursorOk, GrayListed, ParkedTables, Owes, KindsOk, NoDup, HeldIn;
    assert Live(s) == s.body.Keys;
    assert In(([v] + rest)[0], Live(s));
    KeysBound(s);
  }

  lemma KeysBound(s: State)
    requires ClosedAll(Graph(s), s.body.Keys)
    ensures Bound(Graph(s), s.body.Keys, {})
  {
    ClosedAllClosed(Graph(s), s.body.Keys);
  }

  lemma ForwardMarked(s: State, v: Value, color: map<Ref, Color>, gray: seq<Ref>)
    requires s.color.Keys == s.body.Keys && MarksMore(s.body, s.color, s.gray, color, gray)
    requires In(v, Marked(color)) && Marked(s.color) <= Marked(color)
    requires BlackOk(s.body, s.up, color, Blacks(s.color))
    ensures MarkedForward(s, v, s.(color := color, gray := gray))
  {
  }

  /** The operands of a barrier are never dead, and a black object outside the
      marking phases is waiting to be swept. */
  lemma BarrierAsserts(s: State, o: Ref, v: Value, rest: seq<Value>)
    requires InvBut(s, o, [v] + rest) && NeedsBarrier(s, o, v)
    ensures s.color[o] != White(!s.white) && s.color[v.ref] != White(!s.white)
    ensures Keeps(s.phase) || Sweeps(s.phase)
  {
    hide Shape, LiveOk, MarkOkBut, CursorOk;
    assert In(([v] + rest)[0], Live(s));
  }

  lemma InvButKeys(s: State, o: Ref, pending: seq<Value>)
    requires InvBut(s, o, pending)
    ensures s.color.Keys == s.body.Keys && o in s.body && AllIn(pending, s.body.Keys)
  {
    hide LiveOk, MarkOkBut, CursorOk;
  }

  lemma CellReady(s: State, c: Cell, v: Value)
    requires Inv(s) && Keeps(s.phase) && In(v, Live(s))
    ensures var w := s.(up := s.up[c := v]);
      Marking(w.body, w.up, w.color, w.body.Keys, {}, Blacks(w.color)) && In(v, w.body.Keys) && w.color.Keys == w.body.Keys
  {
    CellWrites(s, c, v);
    var w := s.(up := s.up[c := v]);
    hide CursorOk, GrayListed, ParkedTables, KindsOk, NoDup, HeldIn;
    assert Live(w) == w.body.Keys;
    KeysBound(w);
  }

  lemma EnabledStore(s: State, e: Event)
    requires Enabled(s, e) && e.Store?
    ensures e.o in s.body && (e.barrier.Back? ==> e.b.Table?)
  {
  }

  lemma NoBarriers(s: State, o: Ref, vs: seq<Value>)
    ensures Barriers(s, o, vs, NoBarrier, s)
  {
  }

  /** The states a store passes through witness its barriers. */
  lemma BarrierTrail(trail: seq<State>, o: Ref, vs: seq<Value>, barrier: Barrier)
    requires |trail| == |vs| + 1 && !barrier.NoBarrier?
    requires forall j :: 0 <= j < |vs| ==>
      if barrier.Forward? then ForwardStep(trail[j], o, vs[j], trail[j + 1]) else BackStep(trail[j], o, vs[j], trail[j + 1])
    ensures Barriers(trail[0], o, vs, barrier, trail[|vs|])
    decreases |vs|
  {
    hide ForwardStep, BackStep;
    if vs != [] {
      BarrierTrail(trail[1..], o, vs[1..], barrier);
      assert trail[1..][0] == trail[1];
    }
  }

  /** What the program pushes on a stack it can get at, it can get at. */
  lemma PushAccessible(s: State, e: Event, t: State)
    requires Mutates(s, e, t) && (e.New? || e.Intern?)
    ensures Accessible(Graph(t), Roots(t), e.r)
  {
    var th := e.thread;
    assert t.body[th] == Thread(s.body[th].stack + [Obj(e.r)]);
    forall x: set<Ref> | ClosedAll(Graph(t), x) && AllIn(Roots(t), x) ensures e.r in x {
      forall o | o in x && o in s.body ensures HeldIn(s.body[o], s.up, x) {
        assert HeldIn(t.body[o], t.up, x);
        if o == th { StackPrefix(s.body[th].stack, [Obj(e.r)], x); }
      }
      assert ClosedAll(Graph(s), x) && AllIn(Roots(s), x);
      assert th in x;
      StackPrefix(s.body[th].stack, [Obj(e.r)], x);
      assert In([Obj(e.r)][0], x);
    }
  }

  lemma EnabledNew(s: State, e: Event)
    requires Enabled(s, e) && e.New?
    ensures e.r !in s.body && e.thread in s.body && s.body[e.thread].Thread?
  {
  }

  lemma NewWritten(s: State, r: Ref, b: Body, th: Ref, t: State)
    requires Enabled(s, New(r, b, th)) && th in s.body && s.body[th].Thread?
    requires t == s.(body := s.body[r := b][th := Push(s.body[th], Obj(r))], color := s.color[r := White(s.white)],
                     allgc := [r] + s.allgc, cursor := t.cursor)
    requires t.cursor == if s.cursor.InAllGc? && s.cursor.pos > 0 then InAllGc(s.cursor.pos + 1) else s.cursor
    ensures Mutates(s, New(r, b, th), t)
  {
    hide Accessible, HeldIn, ClosedAll, AllIn;
  }

  lemma StackPrefix(vs: seq<Value>, ws: seq<Value>, x: set<Ref>)
    requires AllIn(vs + ws, x)
    ensures AllIn(vs, x) && AllIn(ws, x)
  {
    forall i | 0 <= i < |vs| ensures In(vs[i], x) { assert (vs + ws)[i] == vs[i]; }
    forall i | 0 <= i < |ws| ensures In(ws[i], x) { assert (vs + ws)[|vs| + i] == ws[i]; }
  }

  function WithMeta(b: Body, meta: Value, mode: Mode): Body {
    match b
    case Table(_, _, arr, node) => Table(meta, mode, arr, node)
    case Udata(_, user) => Udata(meta, user)
    case _ => b
  }

  lemma MetaEnabled(s: State, o: Ref, meta: Value, mode: Mode)
    requires o in s.body && (s.body[o].Table? || s.body[o].Udata?) && Accessible(Graph(s), Roots(s), o) && Usable(s, meta)
    ensures Enabled(s, Store(o, WithMeta(s.body[o], meta, mode), [meta], Forward))
  {
    hide Accessible;
    forall x: set<Ref> | HeldIn(s.body[o], s.up, x) && AllIn([meta], x)
      ensures HeldIn(WithMeta(s.body[o], meta, mode), s.up, x)
    {
      assert In([meta][0], x);
    }
  }
}
