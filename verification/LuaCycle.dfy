/** The collector's own steps, as relations on the state, what they keep, and
    exactly when the atomic step keeps it. */
module LuaCycle {
  import opened LuaHeap
  import opened LuaGcState
  import opened LuaAtomic
  import opened LuaClear
  import opened LuaMutator

  /** How many objects one sweep step visits, for 16-byte string headers. */
  const GCSWEEPMAX: nat := 80

  // ----- sweeping -----

  ghost predicate ThreadsLive(s: State) {
    s.mainthread in Live(s) && s.running in Live(s)
  }

  /** The invariant while `allgc` is swept: its first `n` objects are done. */
  ghost predicate Sweeping(s: State, n: nat) {
    Shape(s) && ThreadsLive(s) && Swept(s, n)
  }

  function Without(l: seq<Ref>, i: nat): seq<Ref>
    requires i < |l|
  {
    l[..i] + l[i+1..]
  }

  /** Freeing the dead object at the cursor. */
  function FreeAt(s: State, i: nat): State
    requires i < |s.allgc|
  {
    s.(allgc := Without(s.allgc, i), body := s.body - {s.allgc[i]}, color := s.color - {s.allgc[i]})
  }

  lemma WithoutElems(l: seq<Ref>, i: nat)
    requires NoDup(l) && i < |l|
    ensures NoDup(Without(l, i))
    ensures forall r :: r in Without(l, i) <==> r in l && r != l[i]
  {
    forall r | r in l && r != l[i] ensures r in Without(l, i) {
      var j :| 0 <= j < |l| && l[j] == r;
      assert Without(l, i)[if j < i then j else j - 1] == r;
    }
  }

  predicate IsDead(s: State, r: Ref) {
    r in s.color && s.color[r] == White(!s.white)
  }

  lemma FreeDead(s: State, i: nat)
    requires Sweeping(s, i) && i < |s.allgc| && IsDead(s, s.allgc[i])
    ensures Sweeping(FreeAt(s, i), i) && Live(FreeAt(s, i)) == Live(s)
  {
    var d, t := s.allgc[i], FreeAt(s, i);
    WithoutElems(s.allgc, i);
    assert Live(t) == Live(s);
    assert d !in Live(s);
    FreeShape(s, t, d);
    assert Swept(t, i);
  }

  lemma FreeShape(s: State, t: State, d: Ref)
    requires Shape(s) && ThreadsLive(s) && d !in Live(s) && t.body == s.body - {d} && t.color == s.color - {d}
    requires t.up == s.up && t.mainthread == s.mainthread && t.running == s.running
    requires NoDup(t.allgc) && forall r :: r in t.allgc <==> r in s.allgc && r != d
    ensures Shape(t)
  {
    hide HeldIn, NoDup;
  }

  /** Turning the object at the cursor back to white. */
  function WhiteAt(s: State, i: nat): State
    requires i < |s.allgc|
  {
    s.(color := s.color[s.allgc[i] := White(s.white)])
  }

  lemma WhitenLive(s: State, i: nat)
    requires Sweeping(s, i) && i < |s.allgc| && s.allgc[i] in s.color && !IsDead(s, s.allgc[i])
    ensures Sweeping(WhiteAt(s, i), i + 1) && Live(WhiteAt(s, i)) == Live(s)
  {
    hide HeldIn;
    assert Live(WhiteAt(s, i)) == Live(s);
  }

  /** What sweeping part of the list may do: free dead objects, whiten others. */
  ghost predicate SweptFrom(s: State, t: State) {
    && t == s.(allgc := t.allgc, body := t.body, color := t.color)
    && Live(t) == Live(s)
    && (forall r :: r in t.body ==> r in s.body && t.body[r] == s.body[r])
    && (forall r :: r in s.body && r !in t.body ==> r !in Live(s))
    && (forall r :: r in t.color ==> r in s.color && (t.color[r] == s.color[r] || t.color[r] == White(s.white)))
  }

  lemma FreedFrom(s: State, i: nat)
    requires Sweeping(s, i) && i < |s.allgc| && IsDead(s, s.allgc[i])
    ensures SweptFrom(s, FreeAt(s, i))
  {
    hide Shape, Swept;
    assert Live(FreeAt(s, i)) == Live(s);
  }

  lemma WhitenedFrom(s: State, i: nat)
    requires Sweeping(s, i) && i < |s.allgc| && s.allgc[i] in s.color && !IsDead(s, s.allgc[i])
    ensures SweptFrom(s, WhiteAt(s, i))
  {
    hide Swept;
    assert Live(WhiteAt(s, i)) == Live(s);
  }

  lemma AtCursor(s: State, i: nat)
    requires Sweeping(s, i) && i < |s.allgc|
    ensures s.allgc[i] in s.color
  {
    hide Swept;
    assert s.allgc[i] in s.allgc;
  }

  lemma SweptFromRefl(s: State)
    ensures SweptFrom(s, s)
  {
  }

  lemma SweptFromTrans(s: State, t: State, u: State)
    requires SweptFrom(s, t) && SweptFrom(t, u)
    ensures SweptFrom(s, u)
  {
  }

  /** The state after sweeping at most `n` objects from position `p`, and the
      position reached. */
  function SweepRun(s: State, p: nat, n: nat): (r: (State, nat))
    requires p <= |s.allgc|
    ensures r.1 <= |r.0.allgc|
    decreases n
  {
    if n == 0 || p == |s.allgc| then (s, p)
    else if IsDead(s, s.allgc[p]) then SweepRun(FreeAt(s, p), p, n - 1)
    else SweepRun(WhiteAt(s, p), p + 1, n - 1)
  }

  lemma {:induction false} SweepRunKeeps(s: State, p: nat, n: nat)
    requires Sweeping(s, p) && p <= |s.allgc|
    ensures var r := SweepRun(s, p, n);
      && Sweeping(r.0, r.1) && SweptFrom(s, r.0)
      && |r.0.allgc| - r.1 <= |s.allgc| - p
      && (n > 0 && p < |s.allgc| ==> |r.0.allgc| - r.1 < |s.allgc| - p)
    decreases n
  {
    hide Sweeping, SweptFrom;
    SweptFromRefl(s);
    if n > 0 && p < |s.allgc| {
      AtCursor(s, p);
      if IsDead(s, s.allgc[p]) {
        FreeDead(s, p);
        FreedFrom(s, p);
        SweepRunKeeps(FreeAt(s, p), p, n - 1);
        SweptFromTrans(s, FreeAt(s, p), SweepRun(s, p, n).0);
      } else {
        WhitenLive(s, p);
        WhitenedFrom(s, p);
        SweepRunKeeps(WhiteAt(s, p), p + 1, n - 1);
        SweptFromTrans(s, WhiteAt(s, p), SweepRun(s, p, n).0);
      }
    }
  }

  /** It visits `n` objects, or all that are left. */
  lemma {:induction false} SweepRunCount(s: State, p: nat, n: nat)
    requires p <= |s.allgc|
    ensures var r := SweepRun(s, p, n);
      && r.0.phase == s.phase
      && |s.allgc| - |r.0.allgc| + r.1 - p == if n < |s.allgc| - p then n else |s.allgc| - p
    decreases n
  {
    if n > 0 && p < |s.allgc| {
      if IsDead(s, s.allgc[p]) { SweepRunCount(FreeAt(s, p), p, n - 1); } else { SweepRunCount(WhiteAt(s, p), p + 1, n - 1); }
    }
  }

  /** A turn on `allgc` visits 80 objects, unless no more than 80 are left: then it
      visits these, and the sweep goes on with the next list. */
  lemma TurnCount(s: State)
    requires s.phase.SweepAllGc? && s.cursor.InAllGc? && s.cursor.pos <= |s.allgc|
    ensures var t := SweepTurnOf(s);
      if |s.allgc| - s.cursor.pos > 80
      then t.phase.SweepAllGc? && t.cursor.InAllGc? && (|s.allgc| - |t.allgc|) + (t.cursor.pos - s.cursor.pos) == 80
      else t.phase.SweepFinObj?
  {
    hide SweepRun;
    SweepRunCount(s, s.cursor.pos, GCSWEEPMAX);
  }

  /** Sweeping does not look at the phase or the cursor. */
  lemma SweepingCursor(s: State, t: State, n: nat)
    requires Sweeping(s, n) && t == s.(phase := t.phase, cursor := t.cursor)
    ensures Sweeping(t, n) && Live(t) == Live(s)
  {
    hide HeldIn, NoDup, CellsOk, KindsOk;
  }

  lemma SweptFromCursor(s: State, t: State, u: State)
    requires SweptFrom(s, t) && u == t.(phase := u.phase, cursor := u.cursor)
    ensures SweptFrom(s.(phase := u.phase, cursor := u.cursor), u)
  {
    assert Live(u) == Live(t) && Live(s.(phase := u.phase, cursor := u.cursor)) == Live(s);
  }

  /** Sweeping neither creates nor removes dangling references of live objects. */
  lemma SweptLive(s: State, t: State)
    requires SweptFrom(s.(phase := t.phase, cursor := t.cursor), t)
    ensures LiveOk(t) <==> LiveOk(s)
  {
    hide HeldIn;
    assert Live(s.(phase := t.phase, cursor := t.cursor)) == Live(s);
    assert Roots(t) == Roots(s);
    if LiveOk(t) {
      forall o | o in Live(s) && o in s.body ensures HeldIn(s.body[o], s.up, Live(s)) {
        assert o in t.body;
      }
    }
  }

  lemma SweepingBound(s: State, n: nat)
    requires Sweeping(s, n)
    ensures n <= |s.allgc|
  {
  }

  /** entersweep: the first object of the list is swept at once. */
  function EnterSweepOf(s: State): State {
    var r := SweepRun(s.(phase := SweepAllGc), 0, 1);
    r.0.(cursor := CursorAt(r.0, r.1))
  }

  function CursorAt(s: State, p: nat): Cursor {
    if p == |s.allgc| then NoCursor else InAllGc(p)
  }

  /** A turn of the sweep: up to `GCSWEEPMAX` objects of `allgc`, then the two (empty)
      finalizer lists, the main thread, and the end of the cycle. */
  function SweepTurnOf(s: State): State {
    match s.phase
    case SweepAllGc =>
      if s.cursor.InAllGc? && s.cursor.pos <= |s.allgc| then
        var r := SweepRun(s, s.cursor.pos, GCSWEEPMAX);
        if r.1 < |r.0.allgc| then r.0.(cursor := InAllGc(r.1)) else r.0.(phase := SweepFinObj, cursor := AtFinObj)
      else s.(phase := SweepFinObj, cursor := AtFinObj)
    case SweepFinObj => s.(phase := SweepToBeFnz, cursor := AtToBeFnz)
    case SweepToBeFnz => s.(phase := SweepEnd, cursor := NoCursor)
    case SweepEnd => s.(color := s.color[s.mainthread := White(s.white)], phase := CallFin)
    case CallFin => s.(phase := Pause)
    case _ => s
  }

  lemma InvSweeping(s: State)
    requires Inv(s) && Sweeps(s.phase)
    ensures if s.cursor.InAllGc? then Sweeping(s, s.cursor.pos) else Sweeping(s, |s.allgc|)
  {
    hide Shape, ClosedAll, MarkOk, Swept;
    assert In(Roots(s)[0], Live(s)) && In(Roots(s)[1], Live(s));
  }

  lemma SweepingInv'(s: State, n: nat)
    requires Sweeping(s, n) && Sweeps(s.phase)
    requires match s.phase
      case SweepAllGc => s.cursor == InAllGc(n) || (s.cursor.NoCursor? && n == |s.allgc|)
      case SweepFinObj => s.cursor.AtFinObj? && n == |s.allgc|
      case SweepToBeFnz => s.cursor.AtToBeFnz? && n == |s.allgc|
      case SweepEnd => s.cursor.NoCursor? && n == |s.allgc|
      case _ => false
    ensures Inv(s) <==> LiveOk(s)
  {
    hide Shape, LiveOk, Swept;
  }

  /** Entering the sweep: in order, if what is live is. */
  lemma EnterSweepFacts(s: State)
    requires Sweeping(s, 0)
    ensures var t := EnterSweepOf(s);
      && t.phase.SweepAllGc? && SweptFrom(s.(phase := t.phase, cursor := t.cursor), t)
      && (Inv(t) <==> LiveOk(s))
  {
    hide Sweeping, SweptFrom, LiveOk, Inv;
    var s1 := s.(phase := SweepAllGc);
    var r, t := SweepRun(s1, 0, 1), EnterSweepOf(s);
    SweepingCursor(s, s1, 0);
    SweepRunKeeps(s1, 0, 1);
    assert s1.(phase := t.phase, cursor := t.cursor) == s.(phase := t.phase, cursor := t.cursor);
    assert t.phase == SweepAllGc by { SweptPhase(s1, r.0); }
    SweptFromCursor(s1, r.0, t);
    SweepingCursor(r.0, t, r.1);
    SweepingInv'(t, r.1);
    SweptLive(s, t);
  }

  lemma SweptPhase(s: State, t: State)
    requires SweptFrom(s, t)
    ensures t.phase == s.phase && t.cursor == s.cursor
  {
  }

  /** The main thread, which is in no list, is whitened last. */
  lemma SweepEndInv(s: State, t: State)
    requires Inv(s) && s.phase.SweepEnd?
    requires t == s.(color := s.color[s.mainthread := White(s.white)], phase := CallFin)
    ensures Inv(t) && SweptFrom(s.(phase := t.phase, cursor := t.cursor), t) && Live(t) == Live(s)
  {
    hide HeldIn, NoDup, CellsOk, MarkOk;
    assert In(Roots(s)[0], Live(s));
    assert Live(t) == Live(s);
    forall r | r in t.color ensures t.color[r] == White(t.white) {
      if r != s.mainthread { assert r in s.allgc; }
    }
    assert Live(s.(phase := t.phase, cursor := t.cursor)) == Live(s);
  }

  lemma CallFinInv(s: State)
    requires Inv(s) && s.phase.CallFin?
    ensures Inv(s.(phase := Pause)) && Live(s.(phase := Pause)) == Live(s)
    ensures SweptFrom(s.(phase := Pause), s.(phase := Pause))
  {
    hide HeldIn, NoDup, CellsOk, KindsOk, MarkOk;
    assert Live(s.(phase := Pause)) == Live(s);
  }

  /** A turn on `allgc`. */
  lemma AllGcTurn(s: State)
    requires Inv(s) && s.phase.SweepAllGc? && s.cursor.InAllGc?
    ensures var t := SweepTurnOf(s);
      && Inv(t) && !Keeps(t.phase) && SweptFrom(s.(phase := t.phase, cursor := t.cursor), t)
      && (t.phase.SweepFinObj? || (t.phase.SweepAllGc? && t.cursor.InAllGc?
          && s.cursor.pos <= |s.allgc| && 0 <= |t.allgc| - t.cursor.pos < |s.allgc| - s.cursor.pos))
  {
    hide Inv, Sweeping, SweptFrom, LiveOk;
    var t := SweepTurnOf(s);
    InvSweeping(s);
    InvLive(s);
    SweepingBound(s, s.cursor.pos);
    var r := SweepRun(s, s.cursor.pos, GCSWEEPMAX);
    SweepRunKeeps(s, s.cursor.pos, GCSWEEPMAX);
    SweptPhase(s, r.0);
    SweptFromCursor(s, r.0, t);
    SweepingCursor(r.0, t, r.1);
    SweepingInv'(t, r.1);
    SweptLive(s, t);
  }

  /** Every other turn frees nothing. */
  lemma RestTurn(s: State)
    requires Inv(s) && Sweeps(s.phase) && !s.cursor.InAllGc? && !s.phase.SweepEnd?
    ensures var t := SweepTurnOf(s);
      && Inv(t) && !Keeps(t.phase) && SweptFrom(s.(phase := t.phase, cursor := t.cursor), t)
  {
    hide Inv, Sweeping, SweptFrom, LiveOk;
    var t := SweepTurnOf(s);
    InvSweeping(s);
    InvLive(s);
    SweptFromRefl(s);
    SweptFromCursor(s, s, t);
    SweepingCursor(s, t, |s.allgc|);
    SweepingInv'(t, |s.allgc|);
    SweptLive(s, t);
  }

  lemma SweepTurnFacts(s: State)
    requires Inv(s) && (Sweeps(s.phase) || s.phase.CallFin?)
    ensures var t := SweepTurnOf(s);
      && Inv(t) && !Keeps(t.phase) && SweptFrom(s.(phase := t.phase, cursor := t.cursor), t)
  {
    hide Inv, SweptFrom, SweepRun;
    var t := SweepTurnOf(s);
    InvCursor(s);
    if s.phase.CallFin? {
      CallFinInv(s);
      SweptFromRefl(t);
    } else if s.phase.SweepEnd? {
      SweepEndInv(s, t);
    } else if s.cursor.InAllGc? {
      AllGcTurn(s);
    } else {
      RestTurn(s);
    }
  }

  lemma InvLive(s: State)
    requires Inv(s)
    ensures LiveOk(s)
  {
  }

  lemma InvCursor(s: State)
    requires Inv(s)
    ensures !s.phase.SweepAllGc? ==> !s.cursor.InAllGc?
  {
  }

  // ----- what the collector follows -----

  ghost function MarkedNow(s: State): set<Ref> {
    if Keeps(s.phase) then Marked(s.color) else {}
  }

  /** `x` holds the roots and what is marked, and is closed under the references
      that the collector still follows in this cycle. */
  ghost predicate Bounded(s: State, x: set<Ref>) {
    Bound(Graph(s), x, Parked(s)) && AllIn(Roots(s), x) && MarkedNow(s) <= x
  }

  /** The least such set: all that the cycle under way can still keep. */
  ghost function Kept(s: State): set<Ref> {
    Least(Graph(s), Roots(s), MarkedNow(s), Parked(s))
  }

  lemma KeptLeast(s: State, x: set<Ref>)
    requires Bounded(s, x)
    ensures Kept(s) <= x
  {
  }

  lemma LiveBounded(s: State)
    requires LiveOk(s)
    ensures Bounded(s, Live(s))
  {
    hide HeldIn, StrongIn;
    forall o | o in Live(s) && o in s.body ensures StrongIn(Unparked(s.body[o], o in Parked(s)), Graph(s), Live(s)) {
      UnparkedHeld(s.body[o], s.up, Live(s), o in Parked(s));
      HeldStrong(Unparked(s.body[o], o in Parked(s)), Graph(s), Live(s));
    }
  }

  /** It is itself such a set. */
  lemma KeptBounded(s: State)
    requires Inv(s)
    ensures Bounded(s, Kept(s)) && Kept(s) <= s.body.Keys
  {
    hide CursorOk, MarkOk, KindsOk, CellsOk, NoDup, HeldIn, Bound, Least;
    assert Live(s) <= s.body.Keys;
    assert MarkedNow(s) <= Live(s);
    LeastBound(Graph(s), Roots(s), MarkedNow(s), Parked(s), Live(s));
  }

  lemma LiveIsAll(s: State)
    requires Shape(s) && LiveOk(s) && NoneDead(s)
    ensures Live(s) == s.body.Keys && Sane(s.body, s.up, s.color)
  {
    assert Live(s) == s.body.Keys;
  }

  /** Marking from a step boundary of the mark phase, within any bound. */
  lemma MarkOkMarking(s: State, x: set<Ref>)
    requires Inv(s) && Keeps(s.phase) && Bounded(s, x)
    ensures Marking(s.body, s.up, s.color, x, Parked(s), {}) && Live(s) == s.body.Keys
  {
    hide CursorOk, KindsOk, HeldIn, Bound;
    LiveIsAll(s);
    ParkedGray(s);
  }

  lemma ParkedGray(s: State)
    requires GrayListed(s)
    ensures forall r :: r in s.lists.all ==> IsGray(s.color, r)
  {
    forall r | r in s.lists.all ensures IsGray(s.color, r) {
      assert r in multiset(s.lists.all);
      assert GrayCount(s, r) == if IsGray(s.color, r) then 1 else 0;
    }
  }

  // ----- the propagate phase -----

  lemma GrayFront(s: State)
    requires Inv(s) && Keeps(s.phase) && s.gray != []
    ensures IsGray(s.color, s.gray[0]) && s.gray[0] in s.body && !Leaf(s.body[s.gray[0]]) && s.gray[0] !in Parked(s)
  {
    hide LiveOk, CursorOk, BlackOk, ParkedTables, CellsOk;
    assert s.gray[0] in multiset(s.gray);
    assert GrayCount(s, s.gray[0]) == if IsGray(s.color, s.gray[0]) then 1 else 0;
  }

  /** What an object that turned black holds is marked. */
  ghost predicate NewHeld(s: State, t: State) {
    forall r :: r in t.color && t.color[r].Black? && r in t.body && !(r in s.color && s.color[r].Black?) ==>
      HeldIn(t.body[r], t.up, Marked(t.color))
  }

  /** One visit of the propagate phase. */
  ghost predicate PropagateVisit(s: State, t: State) {
    && s.gray != []
    && t == s.(body := t.body, color := t.color, gray := t.gray, lists := t.lists)
    && var o := s.gray[0];
      && o in s.body && o in t.body && o in t.color && t.body == s.body[o := t.body[o]] && Lighter(s.body[o], t.body[o])
      && MarksMore(s.body, s.color[o := t.color[o]], s.gray[1..], t.color, t.gray)
      && Outcome(o, t.body, t.color, true, s.lists, t.lists)
      && NewHeld(s, t)
  }

  /** A step of the propagate phase: the front of the gray list is visited, nothing
      is marked that need not be, and the phase ends with the list. */
  ghost predicate Propagated(s: State, t: State) {
    && PropagateVisit(s, t.(phase := s.phase)) && Marked(t.color) <= Kept(s)
    && t.phase == if t.gray == [] then EnterAtomic else Propagate
  }

  lemma PropagateGray(s: State, t: State)
    requires GrayListed(s) && PropagateVisit(s, t) && IsGray(s.color, s.gray[0])
    ensures GrayListed(t)
  {
    var o := s.gray[0];
    assert s.gray == [o] + s.gray[1..];
    hide Lighter, Visited, NewHeld;
    assert t.lists.weak == [] && t.lists.ephemeron == [] by { VisitedFlags(s, t); }
    VisitedFlags(s, t);
    forall r ensures GrayCount(t, r) == if IsGray(t.color, r) then 1 else 0 {
      assert GrayCount(s, r) == if IsGray(s.color, r) then 1 else 0;
      assert multiset(t.gray)[r] == multiset(s.gray[1..])[r] + NewlyGray(s.color[o := t.color[o]], t.color, r);
      assert multiset(s.gray) == multiset{o} + multiset(s.gray[1..]);
      assert multiset([o] + s.lists.again) == multiset{o} + multiset(s.lists.again);
      assert multiset([o] + s.lists.all) == multiset{o} + multiset(s.lists.all);
    }
  }

  /** A visit of the propagate phase links a gray object into one list, a black one into none. */
  lemma VisitedFlags(s: State, t: State)
    requires PropagateVisit(s, t)
    ensures t.lists.weak == s.lists.weak && t.lists.ephemeron == s.lists.ephemeron
    ensures var o := s.gray[0];
      && (t.color[o].Black? ==> t.lists.again == s.lists.again && t.lists.all == s.lists.all)
      && (t.color[o].Black? || t.color[o].Gray?)
      && (t.color[o].Gray? ==>
            || (t.lists.again == [o] + s.lists.again && t.lists.all == s.lists.all)
            || (t.lists.again == s.lists.again && t.lists.all == [o] + s.lists.all))
  {
    hide MarksMore, Lighter, NewHeld, Scrubbed;
  }

  /** A table gets parked all-weak, with its metatable marked. */
  lemma PropagateParked(s: State, t: State)
    requires PropagateVisit(s, t) && Marked(s.color) <= Marked(t.color)
    ensures ParkedOk(s) ==> ParkedOk(t)
    ensures ParkedTables(s) ==> ParkedTables(t)
  {
    var o := s.gray[0];
    hide MarksMore, NewHeld;
    LighterKinds(s.body, t.body, o);
    forall r | r in t.lists.all && r !in s.lists.all ensures IsTable(t.body, r, AllWeak) && In(t.body[r].meta, Marked(t.color)) {
      assert r == o;
    }
    if ParkedOk(s) {
      forall r | r in s.lists.all ensures IsTable(t.body, r, AllWeak) && In(t.body[r].meta, Marked(t.color)) {
        assert IsTable(s.body, r, AllWeak);
        assert t.body[r].meta == s.body[r].meta;
      }
    }
  }

  lemma PropagateKinds(s: State, t: State)
    requires KindsOk(s.body, s.color) && PropagateVisit(s, t) && IsGray(s.color, s.gray[0])
    ensures KindsOk(t.body, t.color) && t.color.Keys == s.color.Keys && Marked(s.color) <= Marked(t.color)
    ensures BlackStays(s.color, t.color) && (NoneDead(s) ==> NoneDead(t))
  {
    var o := s.gray[0];
    hide NewHeld;
    LighterKinds(s.body, t.body, o);
    assert forall r :: r in s.color && r != o ==> s.color[o := t.color[o]][r] == s.color[r];
  }

  /** Black objects go on holding marked objects only. */
  lemma PropagateBlack(s: State, t: State)
    requires BlackOk(s.body, s.up, s.color, {}) && PropagateVisit(s, t) && Marked(s.color) <= Marked(t.color)
    requires IsGray(s.color, s.gray[0])
    ensures BlackOk(t.body, t.up, t.color, {})
  {
    hide MarksMore, Outcome, HeldIn, Lighter;
    forall r | r in t.color && r in t.body && t.color[r].Black? ensures HeldIn(t.body[r], t.up, Marked(t.color)) {
      if r in s.color && s.color[r].Black? {
        HeldMono(s.body[r], s.up, Marked(s.color), Marked(t.color));
      }
    }
  }

  lemma PropagateSane(s: State, t: State)
    requires PropagateVisit(s, t) && Sane(s.body, s.up, s.color) && t.color.Keys == s.color.Keys
    ensures Sane(t.body, t.up, t.color)
  {
    var o := s.gray[0];
    hide MarksMore, Outcome, NewHeld;
    forall r | r in t.body ensures HeldIn(t.body[r], t.up, t.body.Keys) {
      assert HeldIn(s.body[r], s.up, s.body.Keys);
      if r == o { LighterHeld(s.body[o], t.body[o], s.up, s.body.Keys); }
    }
  }

  lemma LighterHeld(b: Body, b': Body, up: map<Cell, Value>, x: set<Ref>)
    requires Lighter(b, b') && HeldIn(b, up, x)
    ensures HeldIn(b', up, x)
  {
    if SameContents(b, b') { SameContentsHeld(b, b', up, x); }
  }

  lemma PropagateKeeps(s: State, t: State)
    requires Inv(s) && s.phase.Propagate? && Propagated(s, t)
    ensures Inv(t) && (ParkedOk(s) ==> ParkedOk(t))
  {
    hide Lighter, MarksMore, Outcome, BlackOk, HeldIn, NoDup, NewHeld, Kept;
    var v := t.(phase := s.phase);
    GrayFront(s);
    PropagateKinds(s, v);
    PropagateGray(s, v);
    PropagateParked(s, v);
    PropagateBlack(s, v);
    LiveIsAll(s);
    PropagateSane(s, v);
    LighterKinds(s.body, t.body, s.gray[0]);
    assert Live(t) == t.body.Keys;
    assert ClosedAll(Graph(t), Live(t));
    assert Roots(t) == Roots(s);
    SameGray(v, t);
  }

  lemma SameGray(t: State, u: State)
    requires u == t.(phase := u.phase)
    ensures GrayListed(t) ==> GrayListed(u)
    ensures ParkedOk(t) ==> ParkedOk(u)
  {
    assert forall r :: GrayCount(u, r) == GrayCount(t, r);
  }

  /** A visit either marks something or shortens the gray list. */
  lemma PropagateShrinks(s: State, t: State)
    requires Inv(s) && s.phase.Propagate? && Propagated(s, t)
    ensures Whites(t.color) <= Whites(s.color)
    ensures Whites(t.color) == Whites(s.color) ==> |t.gray| < |s.gray|
  {
    var o := s.gray[0];
    hide Inv, Lighter, MarksMore, NewHeld, Kept, Visited;
    GrayFront(s);
    VisitedFlags(s, t.(phase := s.phase));
    assert Whites(s.color[o := t.color[o]]) == Whites(s.color);
    MarksMoreGrows(s.body, s.color[o := t.color[o]], s.gray[1..], t.color, t.gray);
  }

  // ----- lightening bodies changes nothing about reachability -----

  lemma LighterReach(h: Heap, h': Heap, roots: seq<Value>)
    requires h.up == h'.up && AllLighter(h.body, h'.body)
    ensures Reach(h, roots) == Reach(h', roots)
  {
    AllLighterTrimmed(h.body, h'.body, {}, {});
    forall x: set<Ref> ensures Closed(h, x) <==> Closed(h', x) {
      forall o | o in x && o in h.body ensures StrongIn(h.body[o], h, x) <==> StrongIn(h'.body[o], h', x) {
        LighterStrong(h.body[o], h'.body[o], false, h, h', x);
      }
    }
  }

  // ----- starting a cycle -----

  /** The start of a cycle: empty gray lists, and then the roots are marked, but for
      the running thread, which the atomic step marks. */
  ghost predicate Restarted(s: State, t: State) {
    && t == s.(color := t.color, gray := t.gray, lists := Lists([], [], [], []), phase := Propagate)
    && MarksMore(s.body, s.color, [], t.color, t.gray) && NewHeld(s, t)
    && s.mainthread in Marked(t.color) && In(s.registry, Marked(t.color)) && AllIn(s.mt, Marked(t.color))
    && Marked(t.color) <= Kept(s)
  }

  lemma RestartKeeps(s: State, t: State)
    requires Inv(s) && s.phase.Pause? && Restarted(s, t)
    ensures Inv(t) && ParkedOk(t) && Live(t) == Live(s)
  {
    hide HeldIn, CellsOk, NoDup, Kept;
    assert Live(s) == s.body.Keys && Live(t) == s.body.Keys;
    assert Graph(t) == Graph(s) && Roots(t) == Roots(s);
    RestartGray(s, t);
  }

  lemma RestartGray(s: State, t: State)
    requires Shape(s) && Restarted(s, t) && forall r :: r in s.color ==> s.color[r] == White(s.white)
    ensures GrayListed(t) && t.gray != [] && KindsOk(t.body, t.color) && NoneDead(t)
  {
    hide HeldIn, CellsOk, NoDup, NewHeld, Kept;
    forall r ensures GrayCount(t, r) == if IsGray(t.color, r) then 1 else 0 {
      assert multiset(t.gray)[r] == multiset([])[r] + NewlyGray(s.color, t.color, r);
    }
    assert IsGray(t.color, s.mainthread);
    assert GrayCount(t, s.mainthread) == 1;
  }

  // ----- the atomic step -----

  /** At the start of the atomic step the tables in `allweak` are parked and the
      objects in `grayagain` are pending. */
  lemma MarkToAtomic(s: State, x: set<Ref>)
    requires Inv(s) && s.phase.EnterAtomic? && Bounded(s, x)
    ensures AtomicInv(s.body, s.up, s.color, s.gray, s.lists.again, s.lists, x, Elems(s.lists.all))
    ensures AllIn(Roots(s), s.body.Keys) && AllIn(Roots(s), x) && s.mainthread in Marked(s.color)
  {
    hide CursorOk, HeldIn, BlackOk, Sane, Bound;
    var skip := Elems(s.lists.all);
    LiveIsAll(s);
    ParkedGray(s);
    forall r ensures Count(r, s.gray, s.lists.again, s.lists) <= if IsGray(s.color, r) then 1 else 0 {
      assert GrayCount(s, r) == if IsGray(s.color, r) then 1 else 0;
    }
    forall r | IsGray(s.color, r) ensures r in s.gray || r in s.lists.again || SettledIn(r, s.body, Marked(s.color), s.lists, skip) {
      assert GrayCount(s, r) == 1;
      if r !in multiset(s.gray) && r !in multiset(s.lists.again) {
        assert r in multiset(s.lists.all);
      }
    }
  }

  /** Tables the atomic step traversed have no unmarked key in an empty entry. */
  ghost predicate FlippedScrubbed(s: State, u: State) {
    forall r :: (r in Marked(u.color) && r in u.body && u.body[r].Table? && !u.body[r].mode.AllWeak?
                 && r !in s.lists.all && !(r in s.color && s.color[r].Black?)) ==>
      Scrubbed(u.body[r].node, u.body.Keys, Marked(u.color))
  }

  /** The state when the atomic step has cleared the weak tables and flipped the white. */
  ghost predicate Flipped(s: State, u: State) {
    && u == s.(body := u.body, color := u.color, gray := u.gray, lists := u.lists, phase := SweepAllGc, white := !s.white)
    && AllTrimmed(s.body, u.body, Marked(u.color), Elems(s.lists.all)) && FlippedScrubbed(s, u)
    && BlackStays(s.color, u.color) && KindsOk(u.body, u.color) && u.color.Keys == s.color.Keys
    && Marked(s.color) <= Marked(u.color) <= Kept(s)
    && AllHeld(u.body, u.up, Marked(u.color), Elems(s.lists.all))
    && AllIn(Roots(s), Marked(u.color))
  }

  /** Exactly what the collector had to follow is live afterwards. */
  lemma FlippedKept(s: State, u: State)
    requires Inv(s) && s.phase.EnterAtomic? && Flipped(s, u)
    ensures Live(u) == Marked(u.color) == Kept(s)
  {
    hide CursorOk, BlackOk, GrayListed, KindsOk, CellsOk, HeldIn, Trimmed, StrongIn, LiveOk, NoDup, Kept;
    assert Live(u) == Marked(u.color);
    var m := Marked(u.color);
    forall o | o in m && o in s.body ensures StrongIn(Unparked(s.body[o], o in Parked(s)), Graph(s), m) {
      assert Parked(s) == Elems(s.lists.all);
      TrimmedStrong(s.body[o], u.body[o], o in Parked(s), Graph(s), m);
    }
    KeptLeast(s, m);
  }

  lemma FlippedShape(s: State, u: State)
    requires Inv(s) && s.phase.EnterAtomic? && Flipped(s, u)
    ensures Shape(u) && ThreadsLive(u)
  {
    hide HeldIn, NoDup, KindsOk, MarkOk, LiveOk, CursorOk, Trimmed, BlackStays, FlippedScrubbed, AllHeld, Kept;
    FlippedKept(s, u);
    assert u.body.Keys == s.body.Keys;
    forall r | r in s.body ensures !s.body[r].Table? && !s.body[r].Proto? ==> u.body[r] == s.body[r]
                           ensures s.body[r].Table? || s.body[r].Proto? ==> !u.body[r].LClosure?
    {
      TrimmedPlain(s.body[r], u.body[r], r in Elems(s.lists.all), s.body, Marked(u.color));
    }
    assert In(Roots(s)[0], Live(u)) && In(Roots(s)[1], Live(u));
  }

  lemma TrimmedPlain(b: Body, b': Body, parked: bool, body: map<Ref, Body>, s: set<Ref>)
    requires Trimmed(b, b', parked, body, s)
    ensures if b.Table? then b'.Table? else if b.Proto? then b'.Proto? else b' == b
  {
  }

  /** Every parked table's metatable is kept. */
  ghost predicate ParkedMetas(s: State) {
    forall r :: r in s.lists.all && r in s.body && s.body[r].Table? ==> In(s.body[r].meta, Kept(s))
  }

  /** What a reachable parked table holds strongly by its present mode is kept. */
  ghost predicate ParkedStrong(s: State) {
    forall r :: r in s.lists.all && r in Reach(Graph(s), Roots(s)) ==>
      StrongIn(s.body[r], Graph(s), Reach(Graph(s), Roots(s)) * Kept(s))
  }

  /** No live object is left with a dangling reference if and only if the metatables
      of all parked tables are kept. */
  lemma FlippedLive(s: State, u: State)
    requires Inv(s) && s.phase.EnterAtomic? && Flipped(s, u)
    ensures LiveOk(u) <==> ParkedMetas(s)
  {
    hide CursorOk, BlackOk, KindsOk, CellsOk, HeldIn, Trimmed, Kept, NoDup, FlippedScrubbed;
    FlippedKept(s, u);
    ParkedGray(s);
    assert Roots(u) == Roots(s);
    forall o | o in s.lists.all
      ensures o in Live(u) && o in s.body && o in u.body && s.body[o].Table?
      ensures HeldIn(u.body[o], u.up, Live(u)) <==> In(s.body[o].meta, Kept(s))
    {
      assert Trimmed(s.body[o], u.body[o], true, s.body, Marked(u.color));
      assert HeldIn(Unparked(u.body[o], true), u.up, Marked(u.color));
      ParkedHeld(s.body[o], u.body[o], s.body, u.up, Marked(u.color));
    }
    forall o | o in Live(u) && o in u.body && o !in s.lists.all ensures HeldIn(u.body[o], u.up, Live(u)) {
      assert HeldIn(Unparked(u.body[o], o in Elems(s.lists.all)), u.up, Marked(u.color));
    }
  }

  lemma ParkedHeld(b: Body, b': Body, body: map<Ref, Body>, up: map<Cell, Value>, s: set<Ref>)
    requires b.Table? && Trimmed(b, b', true, body, s) && HeldIn(Unparked(b', true), up, s)
    ensures HeldIn(b', up, s) <==> In(b.meta, s)
  {
  }

  /** Nothing strongly reachable is lost if and only if what reachable parked tables
      hold is kept. */
  lemma KeptReach(s: State)
    requires Inv(s) && s.phase.EnterAtomic?
    ensures Reach(Graph(s), Roots(s)) <= Kept(s) <==> ParkedStrong(s)
  {
    hide CursorOk, MarkOk, Shape, StrongIn, HeldIn, Kept, Reach;
    var reach := Reach(Graph(s), Roots(s));
    StartReach(s, reach);
    KeptBounded(s);
    if reach <= Kept(s) {
      assert reach * Kept(s) == reach;
      ReachAllocated(s);
    } else if ParkedStrong(s) {
      var m := reach * Kept(s);
      forall o | o in m && o in s.body ensures StrongIn(s.body[o], Graph(s), m) {
        if o !in s.lists.all {
          assert StrongIn(Unparked(s.body[o], false), Graph(s), Kept(s));
          StrongMeet(s.body[o], Graph(s), reach, Kept(s));
        }
      }
      ReachLeast(Graph(s), Roots(s), m);
      assert false;
    }
  }

  lemma ReachAllocated(s: State)
    ensures Reach(Graph(s), Roots(s)) <= s.body.Keys
  {
  }

  lemma StartReach(s: State, reach: set<Ref>)
    requires Inv(s) && reach == Reach(Graph(s), Roots(s))
    ensures Closed(Graph(s), reach) && AllIn(Roots(s), reach) && reach <= Live(s)
  {
    hide CursorOk, MarkOk, HeldIn, StrongIn;
    ReachClosed(Graph(s), Roots(s), Live(s));
  }

  // ----- sufficient conditions -----

  /** If the least set the collector follows has what every parked table holds, both conditions hold. */
  lemma StrongSuffices(s: State)
    requires Inv(s) && s.phase.EnterAtomic?
    requires forall r :: r in s.lists.all ==> StrongIn(s.body[r], Graph(s), Kept(s))
    ensures ParkedMetas(s) && ParkedStrong(s)
  {
    hide CursorOk, Kept, Reach, HeldIn, ContentsIn, GrayListed, BlackOk, NoDup;
    var reach := Reach(Graph(s), Roots(s));
    StartReach(s, reach);
    forall r | r in s.lists.all && r in reach ensures StrongIn(s.body[r], Graph(s), reach * Kept(s)) {
      StrongMeet(s.body[r], Graph(s), reach, Kept(s));
    }
  }

  /** For tables that are still all-weak, the metatable alone decides. */
  lemma MetasSuffice(s: State)
    requires Inv(s) && s.phase.EnterAtomic?
    requires forall r :: r in s.lists.all ==> IsTable(s.body, r, AllWeak)
    ensures ParkedMetas(s) ==> ParkedStrong(s)
  {
    hide CursorOk, Kept, Reach, HeldIn, GrayListed, BlackOk, NoDup;
    if ParkedMetas(s) {
      KeptBounded(s);
      ParkedGray(s);
      forall r | r in s.lists.all ensures StrongIn(s.body[r], Graph(s), Kept(s)) {
        assert IsTable(s.body, r, AllWeak);
        assert r in Kept(s);
        assert StrongIn(Unparked(s.body[r], true), Graph(s), Kept(s));
      }
      StrongSuffices(s);
    }
  }

  /** Tables left as the collector parked them meet both. */
  lemma SparedSuffices(s: State)
    requires Inv(s) && s.phase.EnterAtomic? && ParkedOk(s)
    ensures ParkedMetas(s) && ParkedStrong(s)
  {
    hide CursorOk, Kept, Reach, HeldIn, GrayListed, BlackOk, NoDup;
    KeptBounded(s);
    forall r | r in s.lists.all ensures In(s.body[r].meta, Kept(s)) {
      assert IsTable(s.body, r, AllWeak) && In(s.body[r].meta, Marked(s.color));
    }
    MetasSuffice(s);
  }

  // ----- one step of the collector -----

  ghost predicate AtomicDone(s: State, t: State) {
    exists u: State :: Flipped(s, u) && t == EnterSweepOf(u)
  }

  /** What one step of the collector does in each phase. */
  ghost predicate Collects(s: State, t: State) {
    match s.phase
    case Pause => Restarted(s, t)
    case Propagate => Propagated(s, t)
    case EnterAtomic => AtomicDone(s, t)
    case InsideAtomic => false
    case _ => t == SweepTurnOf(s)
  }

  /** A full collection gives up the mark phase under way: the sweep starts
      without a flip. */
  ghost predicate Abandons(s: State, t: State) {
    Keeps(s.phase) && t == EnterSweepOf(s)
  }

  ghost predicate SameRoots(s: State, t: State) {
    t.up == s.up && t.mainthread == s.mainthread && t.running == s.running && t.registry == s.registry && t.mt == s.mt
  }

  ghost predicate BodiesTrimmed(s: State, t: State) {
    && t.body.Keys <= s.body.Keys
    && forall r :: r in t.body ==>
         if s.phase.EnterAtomic? then Trimmed(s.body[r], t.body[r], r in s.lists.all, s.body, Live(t))
         else Lighter(s.body[r], t.body[r])
  }

  /** What follows for every step of the collector: the roots stay, only dead
      objects are freed, bodies are at most trimmed. */
  ghost predicate CollectStep(s: State, t: State) {
    && SameRoots(s, t) && BodiesTrimmed(s, t)
    && Live(t) <= Live(s) && Live(t) <= t.body.Keys
    && (s.phase.EnterAtomic? ==> Live(t) == Kept(s) && !Keeps(t.phase))
    && (!s.phase.EnterAtomic? ==> Reach(Graph(s), Roots(s)) <= Reach(Graph(t), Roots(t)) && Live(t) == Live(s))
    && (Keeps(t.phase) ==> Marked(t.color) <= Kept(s))
  }

  lemma SweptStep(s: State, t: State)
    requires Inv(s) && SweptFrom(s.(phase := t.phase, cursor := t.cursor), t)
    ensures SameRoots(s, t) && Live(t) == Live(s) <= t.body.Keys <= s.body.Keys
    ensures forall r :: r in t.body ==> Lighter(s.body[r], t.body[r])
    ensures Reach(Graph(s), Roots(s)) <= Reach(Graph(t), Roots(t))
  {
    hide CursorOk, MarkOk, HeldIn;
    assert Live(t) == Live(s);
    assert Live(s) <= t.body.Keys;
    ReachFrame(Graph(s), Graph(t), Roots(s), Live(s));
    assert Roots(t) == Roots(s);
  }

  /** The atomic step, exactly: what is live afterwards is what the collector had to
      follow; no live object dangles if and only if the metatables of the parked
      tables are among it; nothing reachable is lost if and only if what the
      reachable parked tables hold is among it. */
  lemma AtomicExact(s: State, t: State)
    requires Inv(s) && s.phase.EnterAtomic? && Collects(s, t)
    ensures Live(t) == Kept(s) && t.phase.SweepAllGc?
    ensures LiveOk(t) <==> ParkedMetas(s)
    ensures Inv(t) <==> ParkedMetas(s)
    ensures Reach(Graph(s), Roots(s)) <= Live(t) <==> ParkedStrong(s)
  {
    hide Inv, LiveOk, Flipped, Kept, Reach, SweptFrom, Sweeping, ParkedMetas, ParkedStrong;
    var u: State :| Flipped(s, u) && t == EnterSweepOf(u);
    FlippedKept(s, u);
    FlippedLive(s, u);
    FlippedSweeping(s, u);
    EnterSweepFacts(u);
    SweptLive(u, t);
    SweptFromLive(u, t);
    KeptReach(s);
  }

  lemma FlippedSweeping(s: State, u: State)
    requires Inv(s) && s.phase.EnterAtomic? && Flipped(s, u)
    ensures Sweeping(u, 0)
  {
    hide Inv, Flipped, Shape, ThreadsLive;
    FlippedShape(s, u);
  }

  lemma SweptFromLive(u: State, t: State)
    requires SweptFrom(u.(phase := t.phase, cursor := t.cursor), t)
    ensures Live(t) == Live(u)
  {
    assert Live(u.(phase := t.phase, cursor := t.cursor)) == Live(u);
  }

  lemma AtomicBodies(s: State, t: State)
    requires Inv(s) && s.phase.EnterAtomic? && Collects(s, t)
    ensures SameRoots(s, t) && BodiesTrimmed(s, t) && Live(t) <= Live(s) && Live(t) <= t.body.Keys
  {
    hide Inv, Flipped, Kept, EnterSweepOf, SweptFrom, BodiesTrimmed, Sweeping, LiveOk;
    AtomicExact(s, t);
    var u: State :| Flipped(s, u) && t == EnterSweepOf(u);
    FlippedKept(s, u);
    FlippedSweeping(s, u);
    EnterSweepFacts(u);
    SweptFromLive(u, t);
    FlippedNonDead(s, u);
    InvKeys(s);
    FlippedBodies(s, u, t);
  }

  lemma InvKeys(s: State)
    requires Inv(s)
    ensures s.color.Keys == s.body.Keys
  {
  }

  lemma FlippedBodies(s: State, u: State, t: State)
    requires s.phase.EnterAtomic? && s.color.Keys == s.body.Keys && Flipped(s, u) && Live(u) == Marked(u.color) == Live(t)
    requires SweptFrom(u.(phase := t.phase, cursor := t.cursor), t)
    ensures SameRoots(s, t) && BodiesTrimmed(s, t) && Live(t) <= t.body.Keys
  {
    hide KindsOk, HeldIn, Trimmed, Kept, BlackStays, FlippedScrubbed, AllHeld;
    assert Live(u.(phase := t.phase, cursor := t.cursor)) == Live(u);
    forall r | r in t.body ensures Trimmed(s.body[r], t.body[r], r in s.lists.all, s.body, Live(t)) {
      assert Trimmed(s.body[r], u.body[r], r in Elems(s.lists.all), s.body, Marked(u.color));
    }
  }

  lemma FlippedNonDead(s: State, u: State)
    requires Inv(s) && s.phase.EnterAtomic? && Flipped(s, u) && Live(u) == Kept(s)
    ensures Live(u) <= Live(s)
  {
    hide CursorOk, BlackOk, GrayListed, KindsOk, CellsOk, HeldIn, Trimmed, NoDup, Bounded, Flipped;
    LiveBounded(s);
    KeptLeast(s, Live(s));
  }

  lemma PropagatedStep(s: State, t: State)
    requires Inv(s) && s.phase.Propagate? && Propagated(s, t)
    ensures SameRoots(s, t) && Live(t) == Live(s) == t.body.Keys == s.body.Keys
    ensures AllLighter(s.body, t.body)
    ensures Reach(Graph(s), Roots(s)) == Reach(Graph(t), Roots(t))
  {
    hide CursorOk, BlackOk, GrayListed, ParkedTables, HeldIn, KindsOk, CellsOk, MarksMore, Outcome, Lighter, Reach, NewHeld, Kept;
    PropagateKeeps(s, t);
    LiveIsAll(s);
    LiveIsAll(t);
    VisitAllLighter(s.body, t.body, s.gray[0]);
    LighterReach(Graph(s), Graph(t), Roots(s));
    assert Roots(t) == Roots(s);
  }

  lemma VisitAllLighter(body: map<Ref, Body>, body': map<Ref, Body>, o: Ref)
    requires o in body && o in body' && body' == body[o := body'[o]] && Lighter(body[o], body'[o])
    ensures AllLighter(body, body')
  {
  }

  /** Every step of the collector is one of these. */
  lemma StepFacts(s: State, t: State)
    requires Inv(s) && Collects(s, t)
    ensures CollectStep(s, t)
  {
    hide Inv, Kept, Reach, Lighter, Trimmed, Flipped, MarksMore, PropagateVisit, NewHeld, SweptFrom, EnterSweepOf;
    if s.phase.Pause? {
      RestartKeeps(s, t);
      KeysLive(s);
      assert Roots(t) == Roots(s);
      forall r | r in t.body ensures Lighter(s.body[r], t.body[r]) { LighterRefl(s.body[r]); }
    } else if s.phase.Propagate? {
      PropagatedStep(s, t);
    } else if s.phase.EnterAtomic? {
      AtomicExact(s, t);
      AtomicBodies(s, t);
    } else {
      SweepTurnFacts(s);
      SweptStep(s, t);
    }
  }

  lemma LighterRefl(b: Body)
    ensures Lighter(b, b)
  {
  }

  lemma KeysLive(s: State)
    requires Inv(s)
    ensures Live(s) <= s.body.Keys
  {
  }

  /** A step keeps the invariant, the atomic step exactly when the metatables of all
      parked tables are kept. */
  lemma StepInv(s: State, t: State)
    requires Inv(s) && Collects(s, t)
    ensures Inv(t) <==> (s.phase.EnterAtomic? ==> ParkedMetas(s))
  {
    hide Inv, Kept, Lighter, Flipped, MarksMore, NewHeld, SweptFrom, EnterSweepOf, ParkedMetas;
    if s.phase.Pause? {
      RestartKeeps(s, t);
    } else if s.phase.Propagate? {
      PropagateKeeps(s, t);
    } else if s.phase.EnterAtomic? {
      AtomicExact(s, t);
    } else {
      SweepTurnFacts(s);
    }
  }

  /** A step loses nothing strongly reachable, the atomic step exactly when what
      reachable parked tables hold is kept. */
  lemma StepReach(s: State, t: State)
    requires Inv(s) && Collects(s, t)
    ensures Reach(Graph(s), Roots(s)) <= Live(t) <==> (s.phase.EnterAtomic? ==> ParkedStrong(s))
  {
    hide Inv, Kept, Reach, Collects, ParkedStrong, BodiesTrimmed;
    if s.phase.EnterAtomic? {
      AtomicExact(s, t);
    } else {
      StepFacts(s, t);
      ReachLive(s);
    }
  }

  lemma AbandonStep(s: State, t: State)
    requires Inv(s) && Abandons(s, t)
    ensures Inv(t) && !Keeps(t.phase) && SameRoots(s, t) && Live(t) == Live(s)
    ensures t.body == s.body
    ensures Reach(Graph(s), Roots(s)) <= Reach(Graph(t), Roots(t))
  {
    hide Inv, Reach, Lighter, SweptFrom, EnterSweepOf, Sweeping, LiveOk;
    KeepsSweeping(s);
    EnterSweepFacts(s);
    SweptStep(s, t);
    AbandonFreesNothing(s, t);
  }

  lemma KeepsSweeping(s: State)
    requires Inv(s)
    ensures Sweeping(s, 0) && LiveOk(s)
  {
    hide HeldIn, MarkOk, NoDup, CellsOk, KindsOk;
    assert In(Roots(s)[0], Live(s)) && In(Roots(s)[1], Live(s));
  }

  /** Abandoning a mark phase frees nothing. */
  lemma AbandonFreesNothing(s: State, t: State)
    requires Inv(s) && Keeps(s.phase) && SweptFrom(s.(phase := t.phase, cursor := t.cursor), t)
    ensures t.body == s.body
  {
    hide LiveOk, CursorOk, NoDup;
    assert forall r :: r in s.body ==> r in Live(s.(phase := t.phase, cursor := t.cursor));
  }

  // ----- progress -----

  /** How far a phase is from the end of the cycle. */
  function Rank(p: Phase): nat {
    match p
    case Propagate => 7
    case EnterAtomic => 6
    case InsideAtomic => 6
    case SweepAllGc => 5
    case SweepFinObj => 4
    case SweepToBeFnz => 3
    case SweepEnd => 2
    case CallFin => 1
    case Pause => 0
  }

  ghost function Unmarked(s: State): set<Ref> {
    if s.phase.Propagate? then Whites(s.color) else {}
  }

  ghost function Remaining(s: State): int {
    if s.phase.Propagate? then |s.gray|
    else if s.phase.SweepAllGc? && s.cursor.InAllGc? then |s.allgc| - s.cursor.pos else 0
  }

  /** A step brings the cycle closer to its end. */
  ghost predicate Progress(s: State, t: State) {
    || Rank(t.phase) == Rank(s.phase) - 1
    || (t.phase == s.phase && Unmarked(t) < Unmarked(s))
    || (t.phase == s.phase && Unmarked(t) == Unmarked(s) && 0 <= Remaining(t) < Remaining(s))
  }

  lemma StepProgress(s: State, t: State)
    requires Inv(s) && Collects(s, t)
    ensures if s.phase.Pause? then t.phase.Propagate? else Progress(s, t)
  {
    hide Inv, Kept, Lighter, Flipped, MarksMore, PropagateVisit, NewHeld, SweptFrom, EnterSweepOf, SweepRun;
    if s.phase.Propagate? {
      PropagateShrinks(s, t);
    } else if s.phase.EnterAtomic? {
      AtomicExact(s, t);
    } else if s.phase.SweepAllGc? && s.cursor.InAllGc? {
      AllGcTurn(s);
    }
  }

  lemma ProgressDecreases(s: State, t: State)
    requires Progress(s, t)
    ensures Rank(t.phase) < Rank(s.phase)
      || (Rank(t.phase) == Rank(s.phase) && Unmarked(t) < Unmarked(s))
      || (Rank(t.phase) == Rank(s.phase) && Unmarked(t) == Unmarked(s) && 0 <= Remaining(t) < Remaining(s))
  {
  }

  lemma PhaseIsSettled(s: State)
    requires Inv(s)
    ensures !s.phase.InsideAtomic?
  {
  }

  // ----- a whole cycle -----

  /** What the collector parked in this mark phase is as it left it. */
  ghost predicate Spared(s: State) {
    Keeps(s.phase) ==> ParkedOk(s)
  }

  /** `reach` was strongly reachable when a full collection began with nothing
      marked. Until the atomic step of that collection it still is; once that is
      `done`, it is exactly what is live. */
  ghost predicate Surviving(s: State, reach: set<Ref>, done: bool) {
    && Closed(Graph(s), reach) && AllIn(Roots(s), reach) && (Keeps(s.phase) ==> Marked(s.color) <= reach) && Spared(s)
    && (if done then Live(s) == reach && !Keeps(s.phase) else reach <= Reach(Graph(s), Roots(s)))
  }

  lemma SurvivingBounded(s: State, reach: set<Ref>, done: bool)
    requires Surviving(s, reach, done)
    ensures Bounded(s, reach)
  {
    hide HeldIn, Reach;
    forall o | o in reach && o in s.body ensures StrongIn(Unparked(s.body[o], o in Parked(s)), Graph(s), reach) {
      assert StrongIn(s.body[o], Graph(s), reach);
      if o in Parked(s) { assert IsTable(s.body, o, AllWeak); }
    }
  }

  /** Nothing that is dropped or trimmed makes a closed set less closed. */
  lemma ClosedShrinks(s: State, t: State, x: set<Ref>)
    requires Closed(Graph(s), x) && t.up == s.up && BodiesTrimmed(s, t)
    ensures Closed(Graph(t), x)
  {
    hide StrongIn, Trimmed, Lighter;
    forall r | r in t.body ensures Trimmed(s.body[r], t.body[r], r in s.lists.all, s.body, Live(t)) {
      if !s.phase.EnterAtomic? { LighterTrimmed(s.body[r], t.body[r], r in s.lists.all, s.body, Live(t)); }
    }
    forall v | IsStr(v, t.body) ensures IsStr(v, s.body) {
      TrimmedKind(s.body[v.ref], t.body[v.ref], v.ref in s.lists.all, s.body, Live(t));
    }
    forall o | o in x && o in t.body ensures StrongIn(t.body[o], Graph(t), x) {
      TrimmedShrinks(s.body[o], t.body[o], o in s.lists.all, Graph(s), Graph(t), x, Live(t));
    }
  }

  lemma LighterTrimmed(b: Body, b': Body, parked: bool, body: map<Ref, Body>, m: set<Ref>)
    requires Lighter(b, b')
    ensures Trimmed(b, b', parked, body, m)
  {
  }

  lemma TrimmedKind(b: Body, b': Body, parked: bool, body: map<Ref, Body>, m: set<Ref>)
    requires Trimmed(b, b', parked, body, m)
    ensures SameKind(b, b')
  {
  }

  lemma TrimmedShrinks(b: Body, b': Body, parked: bool, h: Heap, h': Heap, x: set<Ref>, m: set<Ref>)
    requires StrongIn(b, h, x) && Trimmed(b, b', parked, h.body, m) && h'.up == h.up
    requires forall v :: IsStr(v, h'.body) ==> IsStr(v, h.body)
    ensures StrongIn(b', h', x)
  {
  }

  lemma StepSpared(s: State, t: State)
    requires Inv(s) && Collects(s, t) && Spared(s)
    ensures Spared(t)
  {
    hide Inv, Kept, Lighter, Flipped, MarksMore, NewHeld, SweptFrom, EnterSweepOf, SweepTurnOf, ParkedOk, PropagateVisit;
    if s.phase.Pause? {
      RestartKeeps(s, t);
    } else if s.phase.Propagate? {
      PropagateKeeps(s, t);
    } else if s.phase.EnterAtomic? {
      AtomicExact(s, t);
    } else {
      SweepTurnFacts(s);
    }
  }

  lemma SurvivingStep(s: State, t: State, reach: set<Ref>, done: bool)
    requires Inv(s) && Surviving(s, reach, done) && Collects(s, t) && (done ==> !s.phase.Pause?)
    ensures Inv(t) && Surviving(t, reach, done || s.phase.EnterAtomic?)
  {
    hide Inv, Closed, StrongIn, BodiesTrimmed, Kept, Reach, Collects, Spared, Progress;
    SurvivingBounded(s, reach, done);
    KeptLeast(s, reach);
    if s.phase.EnterAtomic? { SparedAtomic(s); }
    StepInv(s, t);
    StepFacts(s, t);
    StepSpared(s, t);
    StepReach(s, t);
    assert Roots(t) == Roots(s);
    ClosedShrinks(s, t, reach);
    if done { DoneStays(s, t); }
  }

  lemma SparedAtomic(s: State)
    requires Inv(s) && s.phase.EnterAtomic? && Spared(s)
    ensures ParkedMetas(s) && ParkedStrong(s)
  {
    hide Inv, ParkedMetas, ParkedStrong;
    SparedSuffices(s);
  }

  lemma DoneStays(s: State, t: State)
    requires Inv(s) && Collects(s, t) && !Keeps(s.phase) && !s.phase.Pause?
    ensures !Keeps(t.phase)
  {
    hide Inv, SweptFrom;
    SweepTurnFacts(s);
  }

  lemma ProgressRank(s: State, t: State, p: Phase)
    requires Progress(s, t) && s.phase != p && Rank(p) <= Rank(s.phase) && (p.CallFin? || p.Pause?)
    ensures Rank(p) <= Rank(t.phase) <= Rank(s.phase)
    ensures (s.phase.EnterAtomic? ==> Rank(t.phase) < 6) && (s.phase.Propagate? ==> Rank(t.phase) >= 6)
  {
  }

  lemma NotAtTarget(s: State, p: Phase)
    requires s.phase != p && Rank(p) <= Rank(s.phase) && (p.CallFin? || p.Pause?)
    ensures !s.phase.Pause?
  {
  }

  /** With no mark phase under way, what is reachable survives. */
  lemma StartSurviving(s: State, t: State, reach: set<Ref>)
    requires Inv(s) && reach == Reach(Graph(s), Roots(s)) && ((t == s && !Keeps(s.phase)) || Abandons(s, t))
    ensures Inv(t) && Surviving(t, reach, false)
  {
    hide Inv, StrongIn, Reach, AllIn, EnterSweepOf, Closed, ParkedOk;
    StartReach(s, reach);
    if Abandons(s, t) {
      AbandonStep(s, t);
      assert Roots(t) == Roots(s) && Graph(t) == Graph(s);
      assert reach <= Reach(Graph(t), Roots(t));
    } else {
      assert Keeps(s.phase) == Keeps(t.phase) == false;
    }
  }

  lemma PauseKeys(s: State, reach: set<Ref>)
    requires Inv(s) && s.phase.Pause? && Surviving(s, reach, true)
    ensures s.body.Keys == reach
  {
    hide LiveOk, CursorOk, MarkOk, Closed;
    assert Live(s) == s.body.Keys;
  }

  // ----- what the collector's methods rely on -----

  lemma GrayNonempty(s: State)
    requires Inv(s) && s.phase.Propagate?
    ensures s.gray != []
  {
  }

  /** In the pause nothing is marked. */
  lemma PauseMarking(s: State)
    requires Inv(s) && s.phase.Pause?
    ensures var x := Kept(s);
      && Marking(s.body, s.up, s.color, x, {}, {})
      && In(Obj(s.mainthread), x) && In(Obj(s.mainthread), s.body.Keys)
      && In(s.registry, x) && In(s.registry, s.body.Keys) && AllIn(s.mt, x) && AllIn(s.mt, s.body.Keys)
  {
    hide HeldIn, NoDup, KindsOk, MarkOk, Least;
    LiveIsAll(s);
    KeptBounded(s);
    assert Roots(s)[0] == Obj(s.mainthread) && Roots(s)[2] == s.registry;
    assert forall i :: 0 <= i < |s.mt| ==> s.mt[i] == Roots(s)[i + 3];
  }

  lemma MarkingBlack(body: map<Ref, Body>, up: map<Cell, Value>, color: map<Ref, Color>, x: set<Ref>, skip: set<Ref>, e: set<Ref>)
    requires Marking(body, up, color, x, skip, e)
    ensures BlackOk(body, up, color, e)
  {
  }

  lemma BlackNew(s: State, t: State)
    requires BlackOk(t.body, t.up, t.color, {})
    ensures NewHeld(s, t)
  {
  }

  lemma LighterKeys(body0: map<Ref, Body>, body: map<Ref, Body>)
    requires AllLighter(body0, body)
    ensures body.Keys == body0.Keys
  {
  }

  lemma KeptNow(s: State)
    requires s.phase.EnterAtomic? && Bounded(s, Kept(s))
    ensures Kept(s) == Least(Heap(s.body, s.up), Roots(s), Marked(s.color), Elems(s.lists.all)) && AllIn(Roots(s), Kept(s))
  {
  }

  lemma ListsEmpty(s: State)
    requires Inv(s) && Keeps(s.phase)
    ensures s.lists.weak == [] && s.lists.ephemeron == []
  {
  }

  ghost function FlippedAs(s: State, body: map<Ref, Body>, color: map<Ref, Color>, gray: seq<Ref>, l: Lists): State {
    s.(body := body, color := color, gray := gray, lists := l, phase := SweepAllGc, white := !s.white)
  }

  lemma FlippedDone(s: State, body2: map<Ref, Body>, c2: map<Ref, Color>, body: map<Ref, Body>, color: map<Ref, Color>,
                    gray: seq<Ref>, l: Lists)
    requires var skip := Elems(s.lists.all);
      && Advanced(s.body, s.color, body2, c2) && Cleaned(body2, c2, body, color, skip) && KindsOk(body, color)
      && AllHeld(body, s.up, Marked(color), skip) && GrayScrubbed(body, color, skip)
    requires AllIn(Roots(s), Marked(c2)) && Marked(color) <= Kept(s)
    ensures Flipped(s, FlippedAs(s, body, color, gray, l))
  {
    hide AllTrimmed, AllHeld, KindsOk, BlackStays, Kept, FlippedScrubbed, GrayScrubbed, OnlyStrings;
    var skip, u := Elems(s.lists.all), FlippedAs(s, body, color, gray, l);
    AdvancedThenCleaned(s.body, s.color, body2, c2, body, color, skip);
    CleanedMarked(body2, c2, body, color, skip);
    DoneScrubbed(s, body2, c2, u);
  }

  lemma DoneScrubbed(s: State, body2: map<Ref, Body>, c2: map<Ref, Color>, u: State)
    requires var skip := Elems(s.lists.all);
      && Advanced(s.body, s.color, body2, c2) && Cleaned(body2, c2, u.body, u.color, skip) && GrayScrubbed(u.body, u.color, skip)
    ensures FlippedScrubbed(s, u)
  {
    hide BlackStays, Kept, OnlyStrings, Scrubbed, AllLighter;
    forall r | r in Marked(u.color) && r in u.body && u.body[r].Table? && !u.body[r].mode.AllWeak? && r !in s.lists.all
                 && !(r in s.color && s.color[r].Black?)
      ensures Scrubbed(u.body[r].node, u.body.Keys, Marked(u.color))
    {
      if u.color[r].Black? && c2[r].Black? {
        assert Trimmed(body2[r], u.body[r], r in Elems(s.lists.all), body2, Marked(u.color));
        CleanedScrubbed(body2, c2, u.body, u.color, Elems(s.lists.all), r);
      } else if u.color[r].Gray? {
        assert IsGray(u.color, r);
      }
    }
  }

  lemma SweptCursor(s: State, p: nat, n: nat)
    requires Sweeping(s, p) && p <= |s.allgc|
    ensures SweepRun(s, p, n).0.phase == s.phase && SweepRun(s, p, n).0.cursor == s.cursor
  {
    hide Sweeping, SweptFrom;
    SweepRunKeeps(s, p, n);
    SweptPhase(s, SweepRun(s, p, n).0);
  }

  lemma CallFinTurn(s: State)
    requires s.phase.CallFin?
    ensures Collects(s, s.(phase := Pause))
  {
  }
}
