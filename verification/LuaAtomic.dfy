/** The invariant of the atomic step: every gray object is either still to be
    visited or settled, whatever order the visits come in. */
module LuaAtomic {
  import opened LuaHeap
  import opened LuaGcState

  /** Strings and userdata are never gray, threads never black. */
  ghost predicate KindsOk(body: map<Ref, Body>, color: map<Ref, Color>) {
    forall r :: r in color && r in body ==> (color[r].Gray? ==> !Leaf(body[r])) && (color[r].Black? ==> !body[r].Thread?)
  }

  /** How often `r` occurs in the lists. */
  ghost function Count(r: Ref, gray: seq<Ref>, pend: seq<Ref>, l: Lists): nat {
    multiset(gray)[r] + multiset(pend)[r] + multiset(l.weak)[r] + multiset(l.ephemeron)[r] + multiset(l.all)[r]
  }

  ghost predicate IsGray(color: map<Ref, Color>, r: Ref) {
    r in color && color[r].Gray?
  }

  /** No list entry is duplicated, and only gray objects are linked. */
  ghost predicate OnceOk(color: map<Ref, Color>, gray: seq<Ref>, pend: seq<Ref>, l: Lists) {
    forall r :: Count(r, gray, pend, l) <= if IsGray(color, r) then 1 else 0
  }

  ghost predicate SettledIn(r: Ref, body: map<Ref, Body>, s: set<Ref>, l: Lists, skip: set<Ref>) {
    r in body && Settled(Unparked(body[r], r in skip), body, s, r in l.weak, r in l.ephemeron, r in l.all)
  }

  ghost predicate SettledOk(body: map<Ref, Body>, color: map<Ref, Color>, gray: seq<Ref>, pend: seq<Ref>, l: Lists,
                            skip: set<Ref>)
  {
    forall r :: IsGray(color, r) ==> r in gray || r in pend || SettledIn(r, body, Marked(color), l, skip)
  }

  ghost predicate IsTable(body: map<Ref, Body>, r: Ref, m: Mode) {
    r in body && body[r].Table? && body[r].mode == m
  }

  /** Each list holds tables of the modes it is for; parked tables sit in `all`,
      whatever mode the program has given them since. */
  ghost predicate ListKinds(body: map<Ref, Body>, l: Lists, skip: set<Ref>) {
    && (forall r :: r in l.weak ==> IsTable(body, r, WeakValues))
    && (forall r :: r in l.ephemeron ==> IsTable(body, r, Ephemeron))
    && (forall r :: r in l.all && r !in skip ==> IsTable(body, r, AllWeak) || IsTable(body, r, Ephemeron))
    && (forall r :: r in skip ==> r in l.all && r in body && body[r].Table?)
  }

  ghost predicate AtomicInv(body: map<Ref, Body>, up: map<Cell, Value>, color: map<Ref, Color>,
                            gray: seq<Ref>, pend: seq<Ref>, l: Lists, x: set<Ref>, skip: set<Ref>)
  {
    && Marking(body, up, color, x, skip, {})
    && KindsOk(body, color)
    && OnceOk(color, gray, pend, l)
    && SettledOk(body, color, gray, pend, l, skip)
    && ListKinds(body, l, skip)
  }

  /** Black objects stay black, and what is white has not changed its white. */
  ghost predicate BlackStays(c0: map<Ref, Color>, c: map<Ref, Color>) {
    && (forall r :: r in c0 && c0[r].Black? ==> r in c && c[r].Black?)
    && (forall r :: r in c && c[r].White? ==> r in c0 && c[r] == c0[r])
  }

  // ----- a visit keeps the invariant -----

  /** The effect of visiting `o`, taken from the front of `gray0`. */
  ghost predicate Visit(o: Ref, body0: map<Ref, Body>, c0: map<Ref, Color>, gray0: seq<Ref>, l0: Lists,
                        body: map<Ref, Body>, c: map<Ref, Color>, gray: seq<Ref>, l: Lists)
  {
    && o in body0 && o in body && o in c && body == body0[o := body[o]] && Lighter(body0[o], body[o])
    && MarksMore(body0, c0[o := c[o]], gray0, c, gray)
    && Outcome(o, body, c, false, l0, l)
  }

  /** Threads alone join `grayagain` outside the propagate phase; whether that list
      still counts as pending depends on how far the atomic step has got. */
  ghost predicate PendStep(o: Ref, pend0: seq<Ref>, pend: seq<Ref>, l0: Lists, l: Lists) {
    pend == pend0 || (pend0 == l0.again && pend == l.again)
  }

  lemma LighterKinds(body0: map<Ref, Body>, body: map<Ref, Body>, o: Ref)
    requires o in body0 && o in body && body == body0[o := body[o]] && Lighter(body0[o], body[o])
    ensures body.Keys == body0.Keys && SameKinds(body0, body)
    ensures forall v :: IsStr(v, body) == IsStr(v, body0)
    ensures forall r, m :: IsTable(body, r, m) == IsTable(body0, r, m)
  {
  }

  lemma VisitKinds(o: Ref, body0: map<Ref, Body>, c0: map<Ref, Color>, gray0: seq<Ref>, l0: Lists,
                   body: map<Ref, Body>, c: map<Ref, Color>, gray: seq<Ref>, l: Lists)
    requires Visit(o, body0, c0, gray0, l0, body, c, gray, l)
    requires KindsOk(body0, c0) && IsGray(c0, o)
    ensures KindsOk(body, c) && c.Keys == c0.Keys && Marked(c0) <= Marked(c) && BlackStays(c0, c)
  {
    LighterKinds(body0, body, o);
    assert forall r :: r in c0 && r != o ==> c0[o := c[o]][r] == c0[r];
  }

  lemma VisitOnce(o: Ref, body0: map<Ref, Body>, c0: map<Ref, Color>, gray0: seq<Ref>, pend0: seq<Ref>, l0: Lists,
                  body: map<Ref, Body>, c: map<Ref, Color>, gray: seq<Ref>, pend: seq<Ref>, l: Lists)
    requires Visit(o, body0, c0, gray0, l0, body, c, gray, l) && PendStep(o, pend0, pend, l0, l)
    requires OnceOk(c0, [o] + gray0, pend0, l0) && IsGray(c0, o)
    ensures OnceOk(c, gray, pend, l)
  {
    forall r ensures Count(r, gray, pend, l) <= if IsGray(c, r) then 1 else 0 {
      assert Count(r, [o] + gray0, pend0, l0) <= if IsGray(c0, r) then 1 else 0;
      assert multiset(gray)[r] == multiset(gray0)[r] + NewlyGray(c0[o := c[o]], c, r);
      assert multiset([o] + gray0) == multiset{o} + multiset(gray0);
      assert multiset([o] + pend0) == multiset{o} + multiset(pend0);
      assert multiset([o] + l0.weak) == multiset{o} + multiset(l0.weak);
      assert multiset([o] + l0.ephemeron) == multiset{o} + multiset(l0.ephemeron);
      assert multiset([o] + l0.all) == multiset{o} + multiset(l0.all);
    }
  }

  /** An entry emptied since has a dead key or one that is marked. */
  ghost predicate Tidied(b: Body, b': Body, s: set<Ref>) {
    b.Table? && b'.Table? && |b.node| == |b'.node| ==>
      forall i :: 0 <= i < |b.node| && b'.node[i].val == Nil ==> b'.node[i] == b.node[i] || In(b'.node[i].key, s)
  }

  /** Settled objects stay settled while other objects are marked and linked. */
  lemma SettledKeeps(b: Body, b': Body, body: map<Ref, Body>, body': map<Ref, Body>, s: set<Ref>, t: set<Ref>,
                     w: bool, e: bool, a: bool, w': bool, e': bool, a': bool)
    requires Settled(b, body, s, w, e, a) && Reduced(b, b') && Tidied(b, b', t) && s <= t
    requires forall v :: IsStr(v, body') == IsStr(v, body)
    requires body'.Keys == body.Keys
    requires (w ==> w') && (e ==> e') && (a ==> a')
    ensures Settled(b', body', t, w', e', a')
  {
  }

  lemma VisitSettled(o: Ref, body0: map<Ref, Body>, c0: map<Ref, Color>, gray0: seq<Ref>, pend0: seq<Ref>, l0: Lists,
                     body: map<Ref, Body>, c: map<Ref, Color>, gray: seq<Ref>, pend: seq<Ref>, l: Lists, skip: set<Ref>)
    requires Visit(o, body0, c0, gray0, l0, body, c, gray, l) && PendStep(o, pend0, pend, l0, l)
    requires SettledOk(body0, c0, [o] + gray0, pend0, l0, skip) && IsGray(c0, o) && o !in skip
    requires Marked(c0) <= Marked(c)
    ensures SettledOk(body, c, gray, pend, l, skip)
  {
    hide Lighter;
    LighterKinds(body0, body, o);
    forall r | IsGray(c, r) ensures r in gray || r in pend || SettledIn(r, body, Marked(c), l, skip) {
      assert multiset(gray)[r] == multiset(gray0)[r] + NewlyGray(c0[o := c[o]], c, r);
      if r == o {
        assert Unparked(body[o], false) == body[o];
      } else if IsGray(c0, r) {
        assert r in [o] + gray0 <==> r in gray0;
        if r in gray0 {
          assert r in multiset(gray0) && r in multiset(gray);
        } else if r !in pend0 {
          assert SettledIn(r, body0, Marked(c0), l0, skip);
          SameContentsReduced(body0[r], body[r]);
          SettledKeeps(Unparked(body0[r], r in skip), Unparked(body[r], r in skip), body0, body, Marked(c0), Marked(c),
                       r in l0.weak, r in l0.ephemeron, r in l0.all, r in l.weak, r in l.ephemeron, r in l.all);
        }
      } else {
        assert r in multiset(gray);
      }
    }
  }

  lemma VisitListKinds(o: Ref, body0: map<Ref, Body>, c0: map<Ref, Color>, gray0: seq<Ref>, l0: Lists,
                       body: map<Ref, Body>, c: map<Ref, Color>, gray: seq<Ref>, l: Lists, skip: set<Ref>)
    requires Visit(o, body0, c0, gray0, l0, body, c, gray, l) && ListKinds(body0, l0, skip)
    ensures ListKinds(body, l, skip)
  {
    LighterKinds(body0, body, o);
    forall r ensures r in l.weak ==> IsTable(body, r, WeakValues) { if r in l.weak && r != o { assert r in l0.weak; } }
    forall r ensures r in l.ephemeron ==> IsTable(body, r, Ephemeron) { if r in l.ephemeron && r != o { assert r in l0.ephemeron; } }
    forall r ensures r in l.all && r !in skip ==> IsTable(body, r, AllWeak) || IsTable(body, r, Ephemeron) {
      if r in l.all && r != o { assert r in l0.all; }
    }
    forall r | r in skip ensures r in l.all && r in body && body[r].Table? { assert r in l0.all; }
  }

  /** One visit inside the atomic step keeps the invariant. */
  lemma VisitKeeps(o: Ref, body0: map<Ref, Body>, c0: map<Ref, Color>, gray0: seq<Ref>, pend0: seq<Ref>, l0: Lists,
                   body: map<Ref, Body>, up: map<Cell, Value>, c: map<Ref, Color>, gray: seq<Ref>, pend: seq<Ref>, l: Lists,
                   x: set<Ref>, skip: set<Ref>)
    requires AtomicInv(body0, up, c0, [o] + gray0, pend0, l0, x, skip)
    requires Visit(o, body0, c0, gray0, l0, body, c, gray, l) && PendStep(o, pend0, pend, l0, l)
    requires Marking(body, up, c, x, skip, {}) && o !in skip
    ensures AtomicInv(body, up, c, gray, pend, l, x, skip)
    ensures Advanced(body0, c0, body, c) && (Whites(c) == Whites(c0) ==> |gray| == |gray0|)
  {
    VisitLighter(o, body0, c0, gray0, l0, body, c, gray, l);
    hide Marking, AllLighter, Visit, PendStep, KindsOk, SettledOk, ListKinds, Lighter, Outcome, NewBlack;
    FrontIsGray(c0, o, gray0, pend0, l0);
    VisitBlack(o, body0, c0, gray0, l0, body, c, gray, l);
    VisitKinds(o, body0, c0, gray0, l0, body, c, gray, l);
    VisitOnce(o, body0, c0, gray0, pend0, l0, body, c, gray, pend, l);
    VisitSettled(o, body0, c0, gray0, pend0, l0, body, c, gray, pend, l, skip);
    VisitListKinds(o, body0, c0, gray0, l0, body, c, gray, l, skip);
    VisitShrinks(o, body0, c0, gray0, l0, body, c, gray, l);
  }

  lemma VisitBlack(o: Ref, body0: map<Ref, Body>, c0: map<Ref, Color>, gray0: seq<Ref>, l0: Lists,
                   body: map<Ref, Body>, c: map<Ref, Color>, gray: seq<Ref>, l: Lists)
    requires Visit(o, body0, c0, gray0, l0, body, c, gray, l)
    ensures NewBlack(c0, body, c)
  {
    hide Lighter, Scrubbed, Settled;
  }

  lemma VisitLighter(o: Ref, body0: map<Ref, Body>, c0: map<Ref, Color>, gray0: seq<Ref>, l0: Lists,
                     body: map<Ref, Body>, c: map<Ref, Color>, gray: seq<Ref>, l: Lists)
    requires Visit(o, body0, c0, gray0, l0, body, c, gray, l)
    ensures AllLighter(body0, body)
  {
    hide MarksMore, Outcome;
  }

  lemma FrontIsGray(c0: map<Ref, Color>, o: Ref, gray0: seq<Ref>, pend0: seq<Ref>, l0: Lists)
    requires OnceOk(c0, [o] + gray0, pend0, l0)
    ensures IsGray(c0, o) && o !in gray0 && o !in pend0 && o !in l0.weak && o !in l0.ephemeron && o !in l0.all
  {
    assert multiset([o] + gray0) == multiset{o} + multiset(gray0);
    assert Count(o, [o] + gray0, pend0, l0) <= if IsGray(c0, o) then 1 else 0;
  }

  lemma VisitShrinks(o: Ref, body0: map<Ref, Body>, c0: map<Ref, Color>, gray0: seq<Ref>, l0: Lists,
                     body: map<Ref, Body>, c: map<Ref, Color>, gray: seq<Ref>, l: Lists)
    requires Visit(o, body0, c0, gray0, l0, body, c, gray, l) && IsGray(c0, o)
    ensures Whites(c) <= Whites(c0) && (Whites(c) == Whites(c0) ==> |gray| == |gray0|)
  {
    hide MarksMore, Lighter, Linked;
    assert Whites(c0[o := c[o]]) == Whites(c0);
    MarksMoreGrows(body0, c0[o := c[o]], gray0, c, gray);
  }

  /** What the next visit needs to know about the object it takes. */
  lemma AtomicFront(o: Ref, body: map<Ref, Body>, up: map<Cell, Value>, c: map<Ref, Color>, gray0: seq<Ref>, pend: seq<Ref>,
                    l: Lists, x: set<Ref>, skip: set<Ref>)
    requires AtomicInv(body, up, c, [o] + gray0, pend, l, x, skip)
    ensures Marking(body, up, c, x, skip, {}) && IsGray(c, o) && o in body && !Leaf(body[o]) && o !in skip
  {
    hide SettledOk, BlackOk, Bound, ClosedAll;
    FrontIsGray(c, o, gray0, pend, l);
  }

  lemma AtomicMarking(body: map<Ref, Body>, up: map<Cell, Value>, c: map<Ref, Color>, l: Lists, x: set<Ref>, skip: set<Ref>)
    requires AtomicInv(body, up, c, [], [], l, x, skip)
    ensures Marking(body, up, c, x, skip, {})
  {
  }

  lemma AtomicMarks(body: map<Ref, Body>, up: map<Cell, Value>, c: map<Ref, Color>, g: seq<Ref>, pend: seq<Ref>, l: Lists,
                    x: set<Ref>, skip: set<Ref>)
    requires AtomicInv(body, up, c, g, pend, l, x, skip)
    ensures Marking(body, up, c, x, skip, {}) && Marked(c) <= x && c.Keys == body.Keys && KindsOk(body, c)
  {
  }

  // ----- bodies -----

  ghost predicate AllLighter(body0: map<Ref, Body>, body: map<Ref, Body>) {
    body0.Keys == body.Keys && forall r :: r in body0 ==> Lighter(body0[r], body[r])
  }

  lemma AllLighterTrans(body0: map<Ref, Body>, body1: map<Ref, Body>, body2: map<Ref, Body>)
    requires AllLighter(body0, body1) && AllLighter(body1, body2)
    ensures AllLighter(body0, body2)
  {
  }

  /** A table that turned black was traversed as a strong one: its empty entries are
      scrubbed. */
  ghost predicate NewBlack(c0: map<Ref, Color>, body: map<Ref, Body>, c: map<Ref, Color>) {
    forall r :: r in c && c[r].Black? && r in c0 && !c0[r].Black? && r in body && body[r].Table? ==>
      body[r].mode.Strong? && Scrubbed(body[r].node, body.Keys, Marked(c))
  }

  /** Marking went on: bodies only got lighter and no colour was taken back. */
  ghost predicate Advanced(body0: map<Ref, Body>, c0: map<Ref, Color>, body: map<Ref, Body>, c: map<Ref, Color>) {
    && AllLighter(body0, body) && c.Keys == c0.Keys && Marked(c0) <= Marked(c) && Whites(c) <= Whites(c0) && BlackStays(c0, c)
    && NewBlack(c0, body, c)
  }

  /** Only threads are linked into `grayagain` outside the propagate phase. */
  ghost predicate AgainThreads(again0: seq<Ref>, again: seq<Ref>, body: map<Ref, Body>) {
    forall r :: r in again ==> r in again0 || (r in body && body[r].Thread?)
  }

  lemma AgainThreadsRefl(again: seq<Ref>, body: map<Ref, Body>)
    ensures AgainThreads(again, again, body)
  {
  }

  lemma AgainThreadsTrans(again0: seq<Ref>, again1: seq<Ref>, again2: seq<Ref>, body1: map<Ref, Body>, body2: map<Ref, Body>)
    requires AgainThreads(again0, again1, body1) && AgainThreads(again1, again2, body2) && AllLighter(body1, body2)
    ensures AgainThreads(again0, again2, body2)
  {
    forall r | r in again2 && r !in again0 ensures r in body2 && body2[r].Thread? {
      if r in again1 { assert Lighter(body1[r], body2[r]); }
    }
  }

  lemma VisitAgain(o: Ref, body0: map<Ref, Body>, c0: map<Ref, Color>, gray0: seq<Ref>, l0: Lists,
                   body: map<Ref, Body>, c: map<Ref, Color>, gray: seq<Ref>, l: Lists)
    requires Visit(o, body0, c0, gray0, l0, body, c, gray, l)
    ensures AgainThreads(l0.again, l.again, body)
  {
    hide MarksMore, Lighter, Scrubbed, Settled;
  }

  lemma AdvancedRefl(body: map<Ref, Body>, c: map<Ref, Color>)
    ensures Advanced(body, c, body, c)
  {
  }

  lemma AdvancedTrans(body0: map<Ref, Body>, c0: map<Ref, Color>, body1: map<Ref, Body>, c1: map<Ref, Color>,
                      body2: map<Ref, Body>, c2: map<Ref, Color>)
    requires Advanced(body0, c0, body1, c1) && Advanced(body1, c1, body2, c2)
    ensures Advanced(body0, c0, body2, c2)
  {
    AllLighterTrans(body0, body1, body2);
    forall r | r in c2 && c2[r].Black? && r in c0 && !c0[r].Black? && r in body2 && body2[r].Table?
      ensures body2[r].mode.Strong? && Scrubbed(body2[r].node, body2.Keys, Marked(c2))
    {
      if c1[r].Black? {
        assert Lighter(body1[r], body2[r]);
        assert Scrubbed(body1[r].node, body1.Keys, Marked(c1));
      }
    }
  }

  lemma AdvancedFacts(body0: map<Ref, Body>, c0: map<Ref, Color>, body: map<Ref, Body>, c: map<Ref, Color>)
    requires Advanced(body0, c0, body, c)
    ensures AllLighter(body0, body) && c.Keys == c0.Keys && Marked(c0) <= Marked(c) && Whites(c) <= Whites(c0) && BlackStays(c0, c)
  {
  }

  lemma AdvancedMarks(body: map<Ref, Body>, c0: map<Ref, Color>, g0: seq<Ref>, c: map<Ref, Color>, g: seq<Ref>)
    requires MarksMore(body, c0, g0, c, g)
    ensures Advanced(body, c0, body, c)
  {
    MarksMoreGrows(body, c0, g0, c, g);
  }

  // ----- ephemeron convergence -----

  /** An ephemeron table waiting to be traversed again. */
  ghost predicate Waiting(r: Ref, body: map<Ref, Body>, s: set<Ref>) {
    IsTable(body, r, Ephemeron) && In(body[r].meta, s)
  }

  ghost predicate AllWaiting(next: seq<Ref>, body: map<Ref, Body>, s: set<Ref>) {
    forall r :: r in next ==> Waiting(r, body, s)
  }

  /** No listed ephemeron has an entry whose key is marked and whose value is not. */
  ghost predicate Converged(eph: seq<Ref>, body: map<Ref, Body>, s: set<Ref>) {
    forall r :: r in eph ==> IsTable(body, r, Ephemeron) && EphemeronIn(body[r].node, s)
  }

  lemma ListedIsGray(r: Ref, c: map<Ref, Color>, gray: seq<Ref>, pend: seq<Ref>, l: Lists)
    requires OnceOk(c, gray, pend, l) && (r in gray || r in pend || r in l.weak || r in l.ephemeron || r in l.all)
    ensures IsGray(c, r)
  {
    assert Count(r, gray, pend, l) <= if IsGray(c, r) then 1 else 0;
  }

  /** A round takes the whole list to be traversed again. */
  lemma RoundStart(body: map<Ref, Body>, up: map<Cell, Value>, c: map<Ref, Color>, l: Lists, x: set<Ref>, skip: set<Ref>)
    requires AtomicInv(body, up, c, [], [], l, x, skip)
    ensures AtomicInv(body, up, c, [], l.ephemeron, l.(ephemeron := []), x, skip)
    ensures AllWaiting(l.ephemeron, body, Marked(c))
  {
    hide Marking, KindsOk;
    var l' := l.(ephemeron := []);
    forall r ensures Count(r, [], l.ephemeron, l') <= if IsGray(c, r) then 1 else 0 {
      assert Count(r, [], [], l) <= if IsGray(c, r) then 1 else 0;
    }
    forall r | r in l.ephemeron ensures Waiting(r, body, Marked(c)) {
      ListedIsGray(r, c, [], [], l);
      assert SettledIn(r, body, Marked(c), l, skip);
      assert Count(r, [], [], l) <= 1;
      assert r !in l.all;
    }
    forall r | IsGray(c, r) ensures r in l.ephemeron || SettledIn(r, body, Marked(c), l', skip) {
      assert SettledIn(r, body, Marked(c), l, skip);
    }
  }

  /** The next table of a round is visited like the front of the gray list. */
  lemma TakeWaiting(w: Ref, next: seq<Ref>, body: map<Ref, Body>, up: map<Cell, Value>, c: map<Ref, Color>, l: Lists,
                    x: set<Ref>, skip: set<Ref>)
    requires AtomicInv(body, up, c, [], [w] + next, l, x, skip)
    ensures AtomicInv(body, up, c, [w] + [], next, l, x, skip)
  {
    hide Marking, KindsOk, ListKinds;
    assert multiset([w] + next) == multiset{w} + multiset(next);
    assert [w] + [] == [w];
    forall r ensures Count(r, [w], next, l) <= if IsGray(c, r) then 1 else 0 {
      assert Count(r, [], [w] + next, l) <= if IsGray(c, r) then 1 else 0;
    }
    forall r | IsGray(c, r) ensures r in [w] || r in next || SettledIn(r, body, Marked(c), l, skip) {
      assert r in [w] + next ==> r == w || r in next;
    }
  }

  lemma WaitingKeeps(next: seq<Ref>, body: map<Ref, Body>, body': map<Ref, Body>, s: set<Ref>, t: set<Ref>)
    requires AllWaiting(next, body, s) && AllLighter(body, body') && s <= t
    ensures AllWaiting(next, body', t)
  {
    forall r | r in next ensures Waiting(r, body', t) {
      assert Waiting(r, body, s);
    }
  }

  /** Marking strings cannot break convergence: string keys are marked already. */
  lemma ConvergedStrings(eph: seq<Ref>, body: map<Ref, Body>, up: map<Cell, Value>, c: map<Ref, Color>, c': map<Ref, Color>,
                         pend: seq<Ref>, l: Lists, x: set<Ref>, skip: set<Ref>)
    requires AtomicInv(body, up, c, [], pend, l, x, skip) && Converged(eph, body, Marked(c))
    requires eph == l.ephemeron
    requires OnlyStrings(body, c, c') && c'.Keys == c.Keys && Marked(c) <= Marked(c')
    ensures Converged(eph, body, Marked(c'))
  {
    hide Marking, KindsOk;
    OnlyStringsMarked(body, c, c');
    forall r | r in eph ensures EphemeronIn(body[r].node, Marked(c')) {
      ListedIsGray(r, c, [], pend, l);
      assert Count(r, [], pend, l) <= 1;
      assert r !in pend && r !in l.all;
      assert SettledIn(r, body, Marked(c), l, skip);
      assert EphemeronIn(body[r].node, Marked(c));
      forall i | 0 <= i < |body[r].node| && body[r].node[i].val != Nil && In(body[r].node[i].key, Marked(c'))
        ensures In(body[r].node[i].val, Marked(c'))
      {
        assert In(body[r].node[i].key, Marked(c));
      }
    }
  }

  /** A table that marked nothing but strings leaves the round converged so far. */
  lemma ConvergedStep(w: Ref, eph: seq<Ref>, eph': seq<Ref>, body0: map<Ref, Body>, body: map<Ref, Body>, s: set<Ref>)
    requires w in body0 && w in body && body == body0[w := body[w]] && Lighter(body0[w], body[w])
    requires Converged(eph, body0, s) && (eph' == eph || eph' == [w] + eph)
    requires IsTable(body0, w, Ephemeron) && EphemeronIn(body[w].node, s)
    ensures Converged(eph', body, s)
  {
    LighterKinds(body0, body, w);
    forall r | r in eph' ensures IsTable(body, r, Ephemeron) && EphemeronIn(body[r].node, s) {
      if r != w { assert r in eph; }
    }
  }

  lemma WaitingFront(w: Ref, next: seq<Ref>, body: map<Ref, Body>, s: set<Ref>)
    requires AllWaiting([w] + next, body, s)
    ensures Waiting(w, body, s) && AllWaiting(next, body, s)
  {
    assert w in [w] + next;
    forall r | r in next ensures Waiting(r, body, s) { assert r in [w] + next; }
  }

  /** Traversing a waiting table is a visit. */
  lemma TraversingVisit(w: Ref, body0: map<Ref, Body>, c0: map<Ref, Color>, g0: seq<Ref>, l0: Lists,
                        body: map<Ref, Body>, c: map<Ref, Color>, g: seq<Ref>, l: Lists, ww: bool, a: bool)
    requires IsGray(c0, w) && IsTable(body0, w, Ephemeron)
    requires Traversing(w, body0, c0, g0, body, c, g)
    requires l.again == l0.again && l.weak == l0.weak && !(ww && a)
    requires Linked(l0.ephemeron, l.ephemeron, w, ww) && Linked(l0.all, l.all, w, a)
    requires w in body && Settled(body[w], body, Marked(c), false, ww, a)
    ensures Visit(w, body0, c0, g0, l0, body, c, g, l) && IsTable(body, w, Ephemeron)
    ensures Lighter(body0[w], body[w]) && body == body0[w := body[w]]
  {
    assert c[w] == c0[w];
    assert c0[w := c[w]] == c0;
    assert ww == Joined(l0.ephemeron, l.ephemeron) && a == Joined(l0.all, l.all);
  }

  lemma ConvergedNone(body: map<Ref, Body>, s: set<Ref>)
    ensures Converged([], body, s)
  {
  }

  // ----- moves between steps of the atomic phase -----

  /** Marking a root. */
  lemma MarkKeeps(body: map<Ref, Body>, up: map<Cell, Value>, c0: map<Ref, Color>, g0: seq<Ref>, c: map<Ref, Color>, g: seq<Ref>,
                  pend: seq<Ref>, l: Lists, x: set<Ref>, skip: set<Ref>)
    requires AtomicInv(body, up, c0, g0, pend, l, x, skip)
    requires Marking(body, up, c, x, skip, {}) && MarksMore(body, c0, g0, c, g) && Marked(c0) <= Marked(c)
    ensures AtomicInv(body, up, c, g, pend, l, x, skip)
  {
    hide Marking, Settled;
    forall r ensures Count(r, g, pend, l) <= if IsGray(c, r) then 1 else 0 {
      assert Count(r, g0, pend, l) <= if IsGray(c0, r) then 1 else 0;
    }
    forall r | IsGray(c, r) ensures r in g || r in pend || SettledIn(r, body, Marked(c), l, skip) {
      assert multiset(g)[r] == multiset(g0)[r] + NewlyGray(c0, c, r);
      if IsGray(c0, r) {
        if r in g0 { assert r in multiset(g0) && r in multiset(g); }
        else if r !in pend {
          assert SettledIn(r, body, Marked(c0), l, skip);
          SettledKeeps(Unparked(body[r], r in skip), Unparked(body[r], r in skip), body, body, Marked(c0), Marked(c),
                       r in l.weak, r in l.ephemeron, r in l.all, r in l.weak, r in l.ephemeron, r in l.all);
        }
      } else {
        assert r in multiset(g);
      }
    }
  }

  /** The saved `grayagain` list becomes the gray list. */
  lemma SwapPend(body: map<Ref, Body>, up: map<Cell, Value>, c: map<Ref, Color>, pend: seq<Ref>, l: Lists, x: set<Ref>, skip: set<Ref>)
    requires AtomicInv(body, up, c, [], pend, l, x, skip)
    ensures AtomicInv(body, up, c, pend, [], l, x, skip)
  {
    hide Marking, KindsOk, Settled, ListKinds;
    forall r ensures Count(r, pend, [], l) <= if IsGray(c, r) then 1 else 0 {
      assert Count(r, [], pend, l) <= if IsGray(c, r) then 1 else 0;
    }
  }

}
