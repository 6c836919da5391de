/** The whole state shared by the program and the collector, its invariant, and
    the steps of the program with their write barriers. */
module LuaMutator {
  import opened LuaHeap
  import opened LuaGcState
  import opened LuaAtomic

  datatype State = State(body: map<Ref, Body>, up: map<Cell, Value>, color: map<Ref, Color>,
                         gray: seq<Ref>, lists: Lists, allgc: seq<Ref>, cursor: Cursor, phase: Phase, white: bool,
                         mainthread: Ref, running: Ref, registry: Value, mt: seq<Value>)

  ghost function Roots(s: State): seq<Value> {
    [Obj(s.mainthread), Obj(s.running), s.registry] + s.mt
  }

  ghost function Graph(s: State): Heap {
    Heap(s.body, s.up)
  }

  /** The objects that are not about to be swept away. */
  ghost function Live(s: State): set<Ref> {
    NonDead(s.color, s.white)
  }

  /** `keepinvariant` */
  predicate Keeps(p: Phase) {
    p.Propagate? || p.EnterAtomic?
  }

  /** `issweepphase` */
  predicate Sweeps(p: Phase) {
    p.SweepAllGc? || p.SweepFinObj? || p.SweepToBeFnz? || p.SweepEnd?
  }

  // ----- the invariant -----

  ghost predicate NoDup(l: seq<Ref>) {
    forall i, j :: 0 <= i < j < |l| ==> l[i] != l[j]
  }

  /** The main thread is not in `allgc`; every other object is, once. */
  ghost predicate Shape(s: State) {
    && s.color.Keys == s.body.Keys && CellsOk(s.body, s.up) && KindsOk(s.body, s.color)
    && s.mainthread in s.body && s.body[s.mainthread].Thread?
    && s.running in s.body && s.body[s.running].Thread?
    && NoDup(s.allgc) && s.mainthread !in s.allgc
    && (forall r :: r in s.body <==> r == s.mainthread || r in s.allgc)
  }

  /** Whatever the program can reach from an object that is not dead is not dead. */
  ghost predicate LiveOk(s: State) {
    ClosedAll(Graph(s), Live(s)) && AllIn(Roots(s), Live(s))
  }

  ghost predicate NoneDead(s: State) {
    forall r :: r in s.color ==> s.color[r] != White(!s.white)
  }

  ghost function GrayCount(s: State, r: Ref): nat {
    multiset(s.gray)[r] + multiset(s.lists.again)[r] + multiset(s.lists.all)[r]
  }

  /** Every gray object is in exactly one gray list, exactly once. */
  ghost predicate GrayListed(s: State) {
    && s.lists.weak == [] && s.lists.ephemeron == []
    && forall r :: GrayCount(s, r) == if IsGray(s.color, r) then 1 else 0
  }

  /** `allweak` holds tables, parked there until the end of the cycle. */
  ghost predicate ParkedTables(s: State) {
    forall r :: r in s.lists.all ==> r in s.body && s.body[r].Table?
  }

  /** As the collector parked them: all-weak, with a marked metatable. The program
      may change both while it runs between the steps of the collector. */
  ghost predicate ParkedOk(s: State) {
    forall r :: r in s.lists.all ==> IsTable(s.body, r, AllWeak) && In(s.body[r].meta, Marked(s.color))
  }

  /** The tables parked in the mark phase under way. */
  ghost function Parked(s: State): set<Ref> {
    if Keeps(s.phase) then Elems(s.lists.all) else {}
  }

  /** The collector's main invariant while it marks. */
  ghost predicate MarkOk(s: State) {
    && NoneDead(s) && BlackOk(s.body, s.up, s.color, {}) && GrayListed(s) && ParkedTables(s)
    && s.mainthread in Marked(s.color) && (s.phase.Propagate? ==> s.gray != [])
  }

  /** The first `n` objects of `allgc` carry the current white. */
  ghost predicate Swept(s: State, n: nat) {
    n <= |s.allgc| && forall i :: 0 <= i < n ==> s.allgc[i] in s.color && s.color[s.allgc[i]] == White(s.white)
  }

  ghost predicate CursorOk(s: State) {
    match s.phase
    case SweepAllGc => (s.cursor.InAllGc? && Swept(s, s.cursor.pos)) || (s.cursor.NoCursor? && Swept(s, |s.allgc|))
    case SweepFinObj => s.cursor.AtFinObj? && Swept(s, |s.allgc|)
    case SweepToBeFnz => s.cursor.AtToBeFnz? && Swept(s, |s.allgc|)
    case SweepEnd => s.cursor.NoCursor? && Swept(s, |s.allgc|)
    case _ => s.cursor.NoCursor?
  }

  ghost predicate PhaseOk(s: State) {
    && CursorOk(s)
    && (Keeps(s.phase) ==> MarkOk(s))
    && (s.phase.CallFin? || s.phase.Pause? ==> forall r :: r in s.color ==> s.color[r] == White(s.white))
    && !s.phase.InsideAtomic?
  }

  ghost predicate Inv(s: State) {
    Shape(s) && LiveOk(s) && PhaseOk(s)
  }

  // ----- what the program can reach is live -----

  lemma AccessibleLive(s: State, r: Ref)
    requires Inv(s) && Accessible(Graph(s), Roots(s), r)
    ensures r in Live(s) && r in s.body
  {
  }

  lemma ReachLive(s: State)
    requires Inv(s)
    ensures Reach(Graph(s), Roots(s)) <= Live(s)
  {
    ClosedAllClosed(Graph(s), Live(s));
    ReachLeast(Graph(s), Roots(s), Live(s));
  }

  // ----- steps of the program -----

  datatype Barrier = Forward | Back | NoBarrier

  /** A program step. `Store` writes `b` over object `o`; `added` are the values it
      puts there. The other steps write upvalues and roots, create objects, intern
      a string, and switch coroutines. */
  datatype Event =
    | Store(o: Ref, b: Body, added: seq<Value>, barrier: Barrier)
    | SetCell(c: Cell, v: Value)
    | NewCell(c: Cell, v: Value)
    | SetRegistry(v: Value)
    | SetTypeMeta(i: nat, v: Value)
    | Resume(thread: Ref)
    | New(r: Ref, b: Body, thread: Ref)
    | Intern(r: Ref, thread: Ref)

  ghost predicate Usable(s: State, v: Value) {
    v.Obj? ==> Accessible(Graph(s), Roots(s), v.ref)
  }

  ghost predicate AllUsable(s: State, vs: seq<Value>) {
    forall i :: 0 <= i < |vs| ==> Usable(s, vs[i])
  }

  /** `b'` holds nothing but what `b` held and `vs`. */
  ghost predicate AddsOnly(b: Body, b': Body, up: map<Cell, Value>, vs: seq<Value>) {
    && SameKind(b, b') && (b.LClosure? <==> b'.LClosure?) && (b.LClosure? ==> b'.cells == b.cells)
    && forall s: set<Ref> :: HeldIn(b, up, s) && AllIn(vs, s) ==> HeldIn(b', up, s)
  }

  /** The barrier each kind of store uses. Stacks need none; a closure cache is
      written without one, but only in a prototype that is not black. */
  ghost predicate BarrierFits(s: State, o: Ref, b: Body, barrier: Barrier) {
    match barrier
    case Back => b.Table?
    case Forward => !b.Thread?
    case NoBarrier => b.Thread? || (b.Proto? && o in s.color && !s.color[o].Black?)
  }

  /** What the program guarantees: it only uses objects it can get at, and fresh addresses. */
  ghost predicate Enabled(s: State, e: Event) {
    match e
    case Store(o, b, added, barrier) =>
      && Accessible(Graph(s), Roots(s), o) && o in s.body && AddsOnly(s.body[o], b, s.up, added)
      && AllUsable(s, added) && BarrierFits(s, o, b, barrier)
    case SetCell(c, v) => c in s.up && Usable(s, v)
    case NewCell(c, v) => c !in s.up
    case SetRegistry(v) => Usable(s, v)
    case SetTypeMeta(i, v) => i < |s.mt| && Usable(s, v)
    case Resume(t) => Accessible(Graph(s), Roots(s), t) && t in s.body && s.body[t].Thread?
    case New(r, b, t) =>
      && r !in s.body && Accessible(Graph(s), Roots(s), t) && t in s.body && s.body[t].Thread?
      && (b.LClosure? ==> forall i :: 0 <= i < |b.cells| ==> b.cells[i] in s.up)
      && (forall x: set<Ref> :: ClosedAll(Graph(s), x) && AllIn(Roots(s), x) ==> HeldIn(b, s.up, x))
    case Intern(r, t) =>
      && r in s.body && s.body[r].Str?
      && Accessible(Graph(s), Roots(s), t) && t in s.body && s.body[t].Thread?
  }

  /** The write itself, before any barrier. */
  ghost function Write(s: State, e: Event): State
    requires Enabled(s, e)
  {
    match e
    case Store(o, b, _, _) => s.(body := s.body[o := b])
    case SetCell(c, v) => s.(up := s.up[c := v])
    case NewCell(c, v) => s.(up := s.up[c := v])
    case SetRegistry(v) => s.(registry := v)
    case SetTypeMeta(i, v) => s.(mt := s.mt[i := v])
    case Resume(t) => s.(running := t)
    case New(r, b, t) =>
      s.(body := s.body[r := b][t := Push(s.body[t], Obj(r))], color := s.color[r := White(s.white)], allgc := [r] + s.allgc,
         cursor := if s.cursor.InAllGc? && s.cursor.pos > 0 then InAllGc(s.cursor.pos + 1) else s.cursor)
    case Intern(r, t) =>
      s.(body := s.body[t := Push(s.body[t], Obj(r))],
         color := if r in s.color && s.color[r] == White(!s.white) then s.color[r := White(s.white)] else s.color)
  }

  function Push(b: Body, v: Value): Body
    requires b.Thread?
  {
    Thread(b.stack + [v])
  }

  /** `reallymarkobject(v)`: some white objects get marked, `v` among them, and a
      newly black object holds marked objects only. */
  ghost predicate MarkedForward(s: State, v: Value, s': State) {
    && s' == s.(color := s'.color, gray := s'.gray)
    && MarksMore(s.body, s.color, s.gray, s'.color, s'.gray)
    && In(v, Marked(s'.color)) && Marked(s.color) <= Marked(s'.color)
    && forall r :: r in s.color && s.color[r].White? && r in s'.color && s'.color[r].Black? && r in s.body ==>
        HeldIn(s.body[r], s.up, Marked(s'.color))
  }

  ghost predicate NeedsBarrier(s: State, o: Ref, v: Value) {
    o in s.color && s.color[o].Black? && v.Obj? && v.ref in s.color && s.color[v.ref].White?
  }

  /** luaC_barrier on one stored value */
  ghost predicate ForwardStep(s: State, o: Ref, v: Value, s': State) {
    if !NeedsBarrier(s, o, v) then s' == s
    else if Keeps(s.phase) then MarkedForward(s, v, s')
    else s' == s.(color := s.color[o := White(s.white)])
  }

  /** luaC_barrierback on one stored value */
  ghost predicate BackStep(s: State, o: Ref, v: Value, s': State) {
    if !NeedsBarrier(s, o, v) then s' == s
    else s' == s.(color := s.color[o := Gray], lists := s.lists.(again := [o] + s.lists.again))
  }

  /** The barriers for all stored values, one after the other. */
  ghost predicate Barriers(s: State, o: Ref, vs: seq<Value>, barrier: Barrier, s': State)
    decreases |vs|
  {
    if barrier.NoBarrier? || vs == [] then s' == s
    else exists m: State ::
      && (if barrier.Forward? then ForwardStep(s, o, vs[0], m) else BackStep(s, o, vs[0], m))
      && Barriers(m, o, vs[1..], barrier, s')
  }

  /** luaC_upvalbarrier: a value stored in a closed upvalue is marked. */
  ghost predicate UpvalStep(s: State, v: Value, s': State) {
    if Keeps(s.phase) && v.Obj? then MarkedForward(s, v, s') else s' == s
  }

  ghost predicate Mutates(s: State, e: Event, s': State) {
    Enabled(s, e) &&
    match e
    case Store(o, _, added, barrier) => Barriers(Write(s, e), o, added, barrier, s')
    case SetCell(c, v) => UpvalStep(Write(s, e), v, s')
    case _ => s' == Write(s, e)
  }
}
