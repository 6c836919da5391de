/** Clearing weak tables: what may be dropped, and what dropping preserves. */
module LuaClear {
  import opened LuaHeap
  import opened LuaGcState
  import opened LuaAtomic

  /** `v` refers to an object that is about to be collected. */
  ghost predicate Gone(v: Value, body: map<Ref, Body>, s: set<Ref>) {
    v.Obj? && v.ref !in s && !IsStr(v, body)
  }

  /** Which array elements and which entries each weak mode gives up. An entry with
      a marked key and a marked value is never given up. */
  ghost predicate DropsElement(mode: Mode, v: Value, body: map<Ref, Body>, s: set<Ref>) {
    (mode.WeakValues? || mode.AllWeak?) && Gone(v, body, s)
  }

  ghost predicate DropsEntry(mode: Mode, e: Entry, body: map<Ref, Body>, s: set<Ref>) {
    match mode
    case Strong => false
    case WeakValues => Gone(e.val, body, s) && In(e.key, s)
    case Ephemeron => Gone(e.key, body, s)
    case AllWeak => Gone(e.val, body, s) || (Gone(e.key, body, s) && In(e.val, s))
  }

  ghost predicate TrimmedElement(mode: Mode, v: Value, v': Value, body: map<Ref, Body>, s: set<Ref>) {
    v' == v || (v' == Nil && DropsElement(mode, v, body, s))
  }

  /** An occupied entry is kept as it is, or emptied for a reason, and then its key
      stays only if it is marked; an empty entry stays as it is or gets a dead key. */
  ghost predicate TrimmedEntry(mode: Mode, e: Entry, e': Entry, body: map<Ref, Body>, s: set<Ref>) {
    || e' == e
    || (e.val == Nil && e' == Entry(DeadKey, Nil))
    || (e.val != Nil && e'.val == Nil && DropsEntry(mode, e, body, s) && (e'.key == DeadKey || (e'.key == e.key && In(e.key, s))))
  }

  /** The collector clears a parked table as all-weak. */
  function SeenMode(b: Body, parked: bool): Mode
    requires b.Table?
  {
    if parked then AllWeak else b.mode
  }

  /** All that a collection may change in an object. Empty entries of all-weak
      tables are never touched. */
  ghost predicate Trimmed(b: Body, b': Body, parked: bool, body: map<Ref, Body>, s: set<Ref>) {
    || b' == b
    || (b.Proto? && b' == b.(cache := Nil))
    || (b.Table? && b'.Table? && b'.meta == b.meta && b'.mode == b.mode
        && |b'.arr| == |b.arr| && |b'.node| == |b.node|
        && (forall i :: 0 <= i < |b.arr| ==> TrimmedElement(SeenMode(b, parked), b.arr[i], b'.arr[i], body, s))
        && (forall i :: 0 <= i < |b.node| ==> TrimmedEntry(SeenMode(b, parked), b.node[i], b'.node[i], body, s))
        && (b.mode.AllWeak? ==> forall i :: 0 <= i < |b.node| && b.node[i].val == Nil ==> b'.node[i] == b.node[i]))
  }

  /** Nothing that keeps an object alive is ever dropped: if what is left of `b` is
      marked, then so was everything `b` held strongly. */
  lemma TrimmedStrong(b: Body, b': Body, parked: bool, h: Heap, s: set<Ref>)
    requires Trimmed(b, b', parked, h.body, s) && HeldIn(Unparked(b', parked), h.up, s)
    ensures StrongIn(Unparked(b, parked), h, s)
  {
  }

  ghost predicate AllTrimmed(body0: map<Ref, Body>, body: map<Ref, Body>, s: set<Ref>, skip: set<Ref>) {
    body0.Keys == body.Keys && forall r :: r in body0 ==> Trimmed(body0[r], body[r], r in skip, body0, s)
  }

  /** Since clearing table `h` began: it was trimmed and some strings were marked. */
  ghost predicate Clearing(h: Ref, body0: map<Ref, Body>, c0: map<Ref, Color>, g: seq<Ref>, body: map<Ref, Body>, c: map<Ref, Color>, skip: set<Ref>) {
    && h in body0 && body0[h].Table? && h in body && body[h].Table? && body == body0[h := body[h]]
    && Trimmed(body0[h], body[h], h in skip, body0, Marked(c))
    && MarksMore(body0, c0, g, c, g) && OnlyStrings(body0, c0, c) && Marked(c0) <= Marked(c)
  }

  lemma TrimmedReduced(b: Body, b': Body, parked: bool, body: map<Ref, Body>, s: set<Ref>)
    requires Trimmed(b, b', parked, body, s) && !b.Proto?
    ensures Reduced(b, b') && Tidied(b, b', s)
  {
  }

  /** Marking strings invalidates no reason for dropping something. */
  lemma TrimmedStrings(b: Body, b': Body, parked: bool, body: map<Ref, Body>, s: set<Ref>, t: set<Ref>)
    requires Trimmed(b, b', parked, body, s) && s <= t
    requires forall r :: r in t && r !in s ==> r in body && body[r].Str?
    ensures Trimmed(b, b', parked, body, t)
  {
    assert forall v :: Gone(v, body, s) ==> Gone(v, body, t);
    assert forall m, e :: DropsEntry(m, e, body, s) ==> DropsEntry(m, e, body, t);
  }

  lemma TrimmedTrans(b0: Body, b1: Body, b2: Body, parked: bool, body0: map<Ref, Body>, body1: map<Ref, Body>, s: set<Ref>)
    requires Trimmed(b0, b1, parked, body0, s) && Trimmed(b1, b2, parked, body1, s)
    requires forall v :: IsStr(v, body1) == IsStr(v, body0)
    ensures Trimmed(b0, b2, parked, body0, s)
  {
    assert forall v :: Gone(v, body0, s) == Gone(v, body1, s);
    assert forall m, e :: DropsEntry(m, e, body1, s) == DropsEntry(m, e, body0, s);
  }

  lemma TrimOne(b: Body, i: nat, e: Entry, parked: bool, body: map<Ref, Body>, s: set<Ref>)
    requires b.Table? && i < |b.node| && b.node[i].val != Nil && TrimmedEntry(SeenMode(b, parked), b.node[i], e, body, s)
    ensures Trimmed(b, b.(node := b.node[i := e]), parked, body, s)
  {
  }

  lemma TrimElement(b: Body, i: nat, parked: bool, body: map<Ref, Body>, s: set<Ref>)
    requires b.Table? && i < |b.arr| && DropsElement(SeenMode(b, parked), b.arr[i], body, s)
    ensures Trimmed(b, b.(arr := b.arr[i := Nil]), parked, body, s)
  {
  }

  /** What marking has done for a table before its values (keys) are cleared. */
  ghost predicate ReadyVals(b: Body, parked: bool, s: set<Ref>) {
    b.Table? &&
    match SeenMode(b, parked)
    case Strong => false
    case WeakValues => KeysIn(b.node, s)
    case Ephemeron => AllIn(b.arr, s) && ValsIn(b.node, s)
    case AllWeak => true
  }

  ghost predicate ReadyKeys(b: Body, parked: bool, s: set<Ref>) {
    b.Table? && var m := SeenMode(b, parked); m.Ephemeron? || (m.AllWeak? && ValsIn(b.node, s))
  }

  lemma ReadyKeeps(b: Body, b': Body, parked: bool, s: set<Ref>, t: set<Ref>)
    requires Reduced(b, b') && s <= t
    ensures ReadyVals(b, parked, s) ==> ReadyVals(b', parked, t)
    ensures ReadyKeys(b, parked, s) ==> ReadyKeys(b', parked, t)
  {
  }

  /** Why an occupied entry is emptied: its key (in `clearkeys`) or its value is gone. */
  lemma EntryDrops(b: Body, i: nat, parked: bool, keys: bool, body: map<Ref, Body>, s: set<Ref>)
    requires b.Table? && i < |b.node| && b.node[i].val != Nil
    requires if keys then ReadyKeys(b, parked, s) else ReadyVals(b, parked, s)
    requires Gone(if keys then b.node[i].key else b.node[i].val, body, s)
    ensures DropsEntry(SeenMode(b, parked), b.node[i], body, s)
  {
  }

  lemma ClearingStart(h: Ref, body: map<Ref, Body>, c: map<Ref, Color>, g: seq<Ref>, skip: set<Ref>)
    requires h in body && body[h].Table?
    ensures Clearing(h, body, c, g, body, c, skip)
  {
  }

  lemma ClearingFacts(h: Ref, body0: map<Ref, Body>, c0: map<Ref, Color>, g: seq<Ref>, body: map<Ref, Body>, c: map<Ref, Color>, skip: set<Ref>)
    requires Clearing(h, body0, c0, g, body, c, skip)
    ensures h in body0 && body0[h].Table? && h in body && body[h].Table? && body == body0[h := body[h]]
    ensures forall v :: IsStr(v, body) == IsStr(v, body0)
    ensures |body[h].node| == |body0[h].node| && |body[h].arr| == |body0[h].arr| && Marked(c0) <= Marked(c)
    ensures body[h].meta == body0[h].meta && body[h].mode == body0[h].mode
  {
  }

  lemma ClearingMark(h: Ref, body0: map<Ref, Body>, c0: map<Ref, Color>, g: seq<Ref>, body: map<Ref, Body>,
                     c1: map<Ref, Color>, c2: map<Ref, Color>, skip: set<Ref>)
    requires Clearing(h, body0, c0, g, body, c1, skip)
    requires MarksMore(body, c1, g, c2, g) && OnlyStrings(body, c1, c2) && Marked(c1) <= Marked(c2)
    ensures Clearing(h, body0, c0, g, body, c2, skip)
  {
    hide MarksMore, Trimmed;
    assert SameKinds(body0, body);
    assert forall r :: r in body ==> body[r].Str? == body0[r].Str?;
    assert c1.Keys == c0.Keys && c2.Keys == c1.Keys by { MarksMoreKeys(body0, c0, g, c1, g); MarksMoreKeys(body, c1, g, c2, g); }
    MarksMoreTrans(body0, body, c0, g, c1, g, c2, g);
    OnlyStringsMarked(body, c1, c2);
    TrimmedStrings(body0[h], body[h], h in skip, body0, Marked(c1), Marked(c2));
  }

  lemma MarksMoreKeys(body: map<Ref, Body>, c0: map<Ref, Color>, g0: seq<Ref>, c1: map<Ref, Color>, g1: seq<Ref>)
    requires MarksMore(body, c0, g0, c1, g1)
    ensures c1.Keys == c0.Keys
  {
  }

  lemma ClearingTrim(h: Ref, body0: map<Ref, Body>, c0: map<Ref, Color>, g: seq<Ref>, body: map<Ref, Body>,
                     b: Body, c: map<Ref, Color>, skip: set<Ref>)
    requires Clearing(h, body0, c0, g, body, c, skip)
    requires h in body && b.Table? && Trimmed(body[h], b, h in skip, body, Marked(c))
    ensures Clearing(h, body0, c0, g, body[h := b], c, skip)
  {
    hide MarksMore;
    TrimmedTrans(body0[h], body[h], b, h in skip, body0, body, Marked(c));
  }

  // ----- clearing keeps what the atomic step has established -----

  lemma ClearedSettled(h: Ref, body0: map<Ref, Body>, c0: map<Ref, Color>, body: map<Ref, Body>, c: map<Ref, Color>,
                       l: Lists, skip: set<Ref>)
    requires Clearing(h, body0, c0, [], body, c, skip) && SettledOk(body0, c0, [], [], l, skip)
    ensures SettledOk(body, c, [], [], l, skip)
  {
    hide Settled, Trimmed;
    ClearingFacts(h, body0, c0, [], body, c, skip);
    forall r | IsGray(c, r) ensures SettledIn(r, body, Marked(c), l, skip) {
      assert c0[r] == c[r];
      assert SettledIn(r, body0, Marked(c0), l, skip);
      TrimmedReduced(body0[h], body[h], h in skip, body0, Marked(c));
      SettledKeeps(Unparked(body0[r], r in skip), Unparked(body[r], r in skip), body0, body, Marked(c0), Marked(c),
                   r in l.weak, r in l.ephemeron, r in l.all, r in l.weak, r in l.ephemeron, r in l.all);
    }
  }

  lemma ClearedColors(h: Ref, body0: map<Ref, Body>, c0: map<Ref, Color>, body: map<Ref, Body>, c: map<Ref, Color>, l: Lists, skip: set<Ref>)
    requires Clearing(h, body0, c0, [], body, c, skip) && KindsOk(body0, c0) && OnceOk(c0, [], [], l)
    ensures KindsOk(body, c) && OnceOk(c, [], [], l) && c.Keys == c0.Keys
  {
    forall r ensures Count(r, [], [], l) <= if IsGray(c, r) then 1 else 0 {
      assert Count(r, [], [], l) <= if IsGray(c0, r) then 1 else 0;
    }
  }

  lemma ClearedConverged(h: Ref, body0: map<Ref, Body>, c0: map<Ref, Color>, body: map<Ref, Body>, c: map<Ref, Color>,
                         up: map<Cell, Value>, l: Lists, x: set<Ref>, skip: set<Ref>)
    requires Clearing(h, body0, c0, [], body, c, skip) && AtomicInv(body0, up, c0, [], [], l, x, skip)
    requires Converged(l.ephemeron, body0, Marked(c0))
    ensures Converged(l.ephemeron, body, Marked(c)) && ListKinds(body, l, skip)
  {
    hide AtomicInv, MarksMore, OnlyStrings;
    assert c.Keys == c0.Keys by { MarksMoreKeys(body0, c0, [], c, []); }
    ConvergedStrings(l.ephemeron, body0, up, c0, c, [], l, x, skip);
    TrimmedReduced(body0[h], body[h], h in skip, body0, Marked(c));
    ClearedKinds(body0, body, up, c0, l, x, skip, h);
    forall r | r in l.ephemeron ensures IsTable(body, r, Ephemeron) && EphemeronIn(body[r].node, Marked(c)) {
      assert IsTable(body0, r, Ephemeron) && EphemeronIn(body0[r].node, Marked(c));
      if r == h {
        forall i | 0 <= i < |body[h].node| && body[h].node[i].val != Nil && In(body[h].node[i].key, Marked(c))
          ensures In(body[h].node[i].val, Marked(c))
        {
          assert body[h].node[i] == body0[h].node[i];
        }
      }
    }
  }

  lemma ClearedKinds(body0: map<Ref, Body>, body: map<Ref, Body>, up: map<Cell, Value>, c0: map<Ref, Color>,
                     l: Lists, x: set<Ref>, skip: set<Ref>, h: Ref)
    requires AtomicInv(body0, up, c0, [], [], l, x, skip) && h in body0 && h in body && body == body0[h := body[h]]
    requires body0[h].Table? && body[h].Table? && body[h].mode == body0[h].mode
    ensures ListKinds(body, l, skip)
  {
    hide Marking, KindsOk, OnceOk, SettledOk;
    assert forall r, m :: IsTable(body, r, m) == IsTable(body0, r, m);
  }

  lemma ClearKeeps(h: Ref, body0: map<Ref, Body>, c0: map<Ref, Color>, body: map<Ref, Body>, c: map<Ref, Color>,
                   up: map<Cell, Value>, l: Lists, x: set<Ref>, skip: set<Ref>)
    requires Clearing(h, body0, c0, [], body, c, skip) && AtomicInv(body0, up, c0, [], [], l, x, skip)
    requires Converged(l.ephemeron, body0, Marked(c0)) && Marking(body, up, c, x, skip, {})
    ensures AtomicInv(body, up, c, [], [], l, x, skip) && Converged(l.ephemeron, body, Marked(c))
  {
    hide Marking, Clearing, KindsOk, OnceOk, SettledOk, ListKinds, Converged;
    ClearedSettled(h, body0, c0, body, c, l, skip);
    ClearedColors(h, body0, c0, body, c, l, skip);
    ClearedConverged(h, body0, c0, body, c, up, l, x, skip);
  }

  // ----- the effect of clearing whole lists -----

  ghost predicate Cleaned(body0: map<Ref, Body>, c0: map<Ref, Color>, body: map<Ref, Body>, c: map<Ref, Color>, skip: set<Ref>) {
    && AllTrimmed(body0, body, Marked(c), skip) && OnlyStrings(body0, c0, c)
    && c.Keys == c0.Keys && Marked(c0) <= Marked(c) && BlackStays(c0, c) && NewBlack(c0, body, c)
    && (forall v :: IsStr(v, body) == IsStr(v, body0))
  }

  lemma CleanedRefl(body: map<Ref, Body>, c: map<Ref, Color>, skip: set<Ref>)
    ensures Cleaned(body, c, body, c, skip)
  {
  }

  lemma CleanedTrans(body0: map<Ref, Body>, c0: map<Ref, Color>, body1: map<Ref, Body>, c1: map<Ref, Color>,
                     body2: map<Ref, Body>, c2: map<Ref, Color>, skip: set<Ref>)
    requires Cleaned(body0, c0, body1, c1, skip) && Cleaned(body1, c1, body2, c2, skip)
    ensures Cleaned(body0, c0, body2, c2, skip)
  {
    hide Trimmed;
    assert forall r :: r in body1 ==> (body1[r].Str? <==> IsStr(Obj(r), body1)) && IsStr(Obj(r), body1) == IsStr(Obj(r), body0);
    OnlyStringsMarked(body1, c1, c2);
    forall r | r in Marked(c2) && r !in Marked(c1) ensures r in body0 && body0[r].Str? {
      assert IsStr(Obj(r), body1) == IsStr(Obj(r), body0);
    }
    assert forall v :: IsStr(v, body2) == IsStr(v, body1) == IsStr(v, body0);
    CleanedBlack(body0, c0, body1, c1, body2, c2, skip);
    forall r | r in body0 ensures Trimmed(body0[r], body2[r], r in skip, body0, Marked(c2)) {
      TrimmedStrings(body0[r], body1[r], r in skip, body0, Marked(c1), Marked(c2));
      TrimmedTrans(body0[r], body1[r], body2[r], r in skip, body0, body1, Marked(c2));
    }
  }

  lemma CleanedBlack(body0: map<Ref, Body>, c0: map<Ref, Color>, body1: map<Ref, Body>, c1: map<Ref, Color>,
                     body2: map<Ref, Body>, c2: map<Ref, Color>, skip: set<Ref>)
    requires Cleaned(body0, c0, body1, c1, skip) && Cleaned(body1, c1, body2, c2, skip)
    ensures NewBlack(c0, body2, c2)
  {
    hide OnlyStrings, BlackStays;
    forall r | r in c2 && c2[r].Black? && r in c0 && !c0[r].Black? && r in body2 && body2[r].Table?
      ensures body2[r].mode.Strong? && Scrubbed(body2[r].node, body2.Keys, Marked(c2))
    {
      if c1[r].Black? {
        assert Trimmed(body1[r], body2[r], r in skip, body1, Marked(c2));
        CleanedScrubbed(body1, c1, body2, c2, skip, r);
      }
    }
  }

  lemma ClearingCleaned(h: Ref, body0: map<Ref, Body>, c0: map<Ref, Color>, body: map<Ref, Body>, c: map<Ref, Color>, skip: set<Ref>)
    requires Clearing(h, body0, c0, [], body, c, skip)
    ensures Cleaned(body0, c0, body, c, skip)
  {
  }

  /** Tables whose elements and values (keys) are all marked. */
  ghost predicate ValsDone(done: set<Ref>, body: map<Ref, Body>, s: set<Ref>) {
    forall r :: r in done ==> r in body && body[r].Table? && AllIn(body[r].arr, s) && ValsIn(body[r].node, s)
  }

  ghost predicate KeysDone(done: set<Ref>, body: map<Ref, Body>, s: set<Ref>) {
    forall r :: r in done ==> r in body && body[r].Table? && KeysIn(body[r].node, s)
  }

  /** Every listed all-weak table has had its values cleared. */
  ghost predicate AllWeakDone(all: seq<Ref>, body: map<Ref, Body>, done: set<Ref>, skip: set<Ref>) {
    forall r :: r in all && (r in skip || IsTable(body, r, AllWeak)) ==> r in done
  }

  lemma DoneKeeps(vals: set<Ref>, keys: set<Ref>, body0: map<Ref, Body>, c0: map<Ref, Color>, body: map<Ref, Body>, c: map<Ref, Color>, skip: set<Ref>)
    requires ValsDone(vals, body0, Marked(c0)) && KeysDone(keys, body0, Marked(c0)) && Cleaned(body0, c0, body, c, skip)
    ensures ValsDone(vals, body, Marked(c)) && KeysDone(keys, body, Marked(c))
  {
    forall r | r in vals ensures r in body && body[r].Table? && AllIn(body[r].arr, Marked(c)) && ValsIn(body[r].node, Marked(c)) {
      TrimmedReduced(body0[r], body[r], r in skip, body0, Marked(c));
    }
    forall r | r in keys ensures r in body && body[r].Table? && KeysIn(body[r].node, Marked(c)) {
      TrimmedReduced(body0[r], body[r], r in skip, body0, Marked(c));
    }
  }

  /** Strings a listed table holds may be marked: they lie within the bound. */
  lemma ListedStrings(r: Ref, body: map<Ref, Body>, up: map<Cell, Value>, c: map<Ref, Color>, l: Lists, x: set<Ref>, skip: set<Ref>,
                      done: set<Ref>)
    requires AtomicInv(body, up, c, [], [], l, x, skip) && (r in l.weak || r in l.ephemeron || r in l.all)
    requires ValsDone(done, body, Marked(c))
    ensures r in body && body[r].Table?
    ensures r in l.weak || r in l.all ==> StrArrIn(body[r].arr, body, x) && StrValsIn(body[r].node, body, x)
    ensures r in l.ephemeron || (r in l.all && AllWeakDone(l.all, body, done, skip)) ==> StrKeysIn(body[r].node, body, x)
    ensures r in l.weak || r in l.all ==> ReadyVals(body[r], r in skip, Marked(c))
    ensures r in l.ephemeron || (r in l.all && AllWeakDone(l.all, body, done, skip)) ==> ReadyKeys(body[r], r in skip, Marked(c))
  {
    hide KindsOk, ClosedAll, BlackOk, CellsOk;
    ListedIsGray(r, c, [], [], l);
    assert Count(r, [], [], l) <= 1;
    assert SettledIn(r, body, Marked(c), l, skip);
    assert r in x;
    assert StrongIn(Unparked(body[r], r in skip), Heap(body, up), x);
  }

  // ----- the second pass marks nothing but strings -----

  ghost function Strings(body: map<Ref, Body>): set<Ref> {
    set r | r in body && body[r].Str?
  }

  lemma BoundMeet(h: Heap, x: set<Ref>, y: set<Ref>, skip: set<Ref>)
    requires Bound(h, x, skip) && Bound(h, y, skip)
    ensures Bound(h, x * y, skip)
  {
    forall o | o in x * y && o in h.body ensures StrongIn(Unparked(h.body[o], o in skip), h, x * y) {
      StrongMeet(Unparked(h.body[o], o in skip), h, x, y);
    }
  }

  lemma StrongMeet(b: Body, h: Heap, x: set<Ref>, y: set<Ref>)
    requires StrongIn(b, h, x) && StrongIn(b, h, y)
    ensures StrongIn(b, h, x * y)
  {
  }

  /** At the end of convergence, in every marked ephemeron table that is not parked a
      marked key has a marked value, whether or not the table is still listed. */
  lemma ConvergedEphemerons(body: map<Ref, Body>, up: map<Cell, Value>, c: map<Ref, Color>, l: Lists, x: set<Ref>, skip: set<Ref>)
    requires AtomicInv(body, up, c, [], [], l, x, skip) && Converged(l.ephemeron, body, Marked(c))
    ensures forall r :: r in Marked(c) && IsTable(body, r, Ephemeron) && r !in skip ==> EphemeronIn(body[r].node, Marked(c))
  {
    hide OnceOk, Bound, ClosedAll;
    forall r | r in Marked(c) && IsTable(body, r, Ephemeron) && r !in skip ensures EphemeronIn(body[r].node, Marked(c)) {
      if c[r].Gray? { assert SettledIn(r, body, Marked(c), l, skip); }
    }
  }

  /** ... and nothing is marked outside the bound. */
  lemma ConvergedFacts(body: map<Ref, Body>, up: map<Cell, Value>, c: map<Ref, Color>, l: Lists, x: set<Ref>, skip: set<Ref>)
    requires AtomicInv(body, up, c, [], [], l, x, skip) && Converged(l.ephemeron, body, Marked(c))
    ensures forall r :: r in Marked(c) && IsTable(body, r, Ephemeron) && r !in skip ==> EphemeronIn(body[r].node, Marked(c))
    ensures Marked(c) <= x && Bound(Heap(body, up), Marked(c) + Strings(body), skip)
  {
    hide AtomicInv, Converged, Bound, EphemeronIn;
    ConvergedEphemerons(body, up, c, l, x, skip);
    ConvergedBound(body, up, c, l, x, skip);
    AtomicMarks(body, up, c, [], [], l, x, skip);
  }

  /** From there on the marked objects and the strings are closed under the
      references the collector follows: nothing but strings can still be marked. */
  lemma ConvergedBound(body: map<Ref, Body>, up: map<Cell, Value>, c: map<Ref, Color>, l: Lists, x: set<Ref>, skip: set<Ref>)
    requires AtomicInv(body, up, c, [], [], l, x, skip) && Converged(l.ephemeron, body, Marked(c))
    ensures Bound(Heap(body, up), Marked(c) + Strings(body), skip)
  {
    hide Settled, OnceOk, KindsOk, ListKinds, StrongIn;
    var y := Marked(c) + Strings(body);
    forall o | o in y && o in body ensures StrongIn(Unparked(body[o], o in skip), Heap(body, up), y) {
      if body[o].Str? {
        StringStrong(body[o], Heap(body, up), y);
      } else if c[o].Black? {
        HeldMono(body[o], up, Marked(c), y);
        UnparkedHeld(body[o], up, y, o in skip);
        HeldStrong(Unparked(body[o], o in skip), Heap(body, up), y);
      } else {
        assert SettledIn(o, body, Marked(c), l, skip);
        SettledStrong(Unparked(body[o], o in skip), body, up, Marked(c), o in l.weak, o in l.ephemeron, o in l.all);
      }
    }
  }

  lemma StringStrong(b: Body, h: Heap, s: set<Ref>)
    requires b.Str?
    ensures StrongIn(b, h, s)
  {
  }

  lemma UnparkedHeld(b: Body, up: map<Cell, Value>, s: set<Ref>, parked: bool)
    requires HeldIn(b, up, s)
    ensures HeldIn(Unparked(b, parked), up, s)
  {
  }

  lemma SettledStrong(b: Body, body: map<Ref, Body>, up: map<Cell, Value>, s: set<Ref>, w: bool, e: bool, a: bool)
    requires Settled(b, body, s, w, e, a)
    requires b.Table? && e ==> EphemeronIn(b.node, s)
    ensures StrongIn(b, Heap(body, up), s + Strings(body))
  {
    if b.Table? && b.mode.Ephemeron? {
      var y := s + Strings(body);
      forall i | 0 <= i < |b.node| && b.node[i].val != Nil && In(b.node[i].key, y) ensures In(b.node[i].val, y) {
        assert In(b.node[i].key, s) by { if IsStr(b.node[i].key, body) {} }
      }
    }
  }

  // ----- the least set the collector must follow -----

  ghost predicate Needed(h: Heap, roots: seq<Value>, base: set<Ref>, skip: set<Ref>, r: Ref) {
    forall y: set<Ref> :: Bound(h, y, skip) && AllIn(roots, y) && base <= y ==> r in y
  }

  /** What lies in every set over `roots` and `base` that is closed under the
      references the collector follows. */
  ghost function Least(h: Heap, roots: seq<Value>, base: set<Ref>, skip: set<Ref>): set<Ref> {
    set r | r in h.body && Needed(h, roots, base, skip, r)
  }

  lemma LeastIn(h: Heap, roots: seq<Value>, base: set<Ref>, skip: set<Ref>, y: set<Ref>)
    requires Bound(h, y, skip) && AllIn(roots, y) && base <= y
    ensures Least(h, roots, base, skip) <= y
  {
  }

  /** It is itself such a set, and the least one. */
  lemma LeastBound(h: Heap, roots: seq<Value>, base: set<Ref>, skip: set<Ref>, n: set<Ref>)
    requires n <= h.body.Keys && ClosedAll(h, n) && AllIn(roots, n) && base <= n
    ensures var k := Least(h, roots, base, skip);
      Bound(h, k, skip) && AllIn(roots, k) && base <= k <= n
  {
    hide HeldIn, StrongIn;
    var k := Least(h, roots, base, skip);
    forall o | o in n ensures StrongIn(Unparked(h.body[o], o in skip), h, n) {
      UnparkedHeld(h.body[o], h.up, n, o in skip);
      HeldStrong(Unparked(h.body[o], o in skip), h, n);
    }
    LeastIn(h, roots, base, skip, n);
    forall o | o in k ensures StrongIn(Unparked(h.body[o], o in skip), h, k) {
      UnparkedHeld(h.body[o], h.up, n, o in skip);
      forall y: set<Ref> | Bound(h, y, skip) && AllIn(roots, y) && base <= y ensures StrongIn(Unparked(h.body[o], o in skip), h, y) {
        assert o in y;
      }
      LeastMeet(Unparked(h.body[o], o in skip), h, roots, base, skip, n);
    }
    forall i | 0 <= i < |roots| ensures In(roots[i], k) {
      assert In(roots[i], n);
    }
  }

  /** What holds of every such set holds of the least one. */
  lemma LeastMeet(b: Body, h: Heap, roots: seq<Value>, base: set<Ref>, skip: set<Ref>, n: set<Ref>)
    requires HeldIn(b, h.up, n) && n <= h.body.Keys
    requires forall y: set<Ref> :: Bound(h, y, skip) && AllIn(roots, y) && base <= y ==> StrongIn(b, h, y)
    ensures StrongIn(b, h, Least(h, roots, base, skip))
  {
    hide Bound;
  }

  lemma LighterBound(body0: map<Ref, Body>, body: map<Ref, Body>, up: map<Cell, Value>, y: set<Ref>, skip: set<Ref>)
    requires AllLighter(body0, body)
    ensures Bound(Heap(body0, up), y, skip) <==> Bound(Heap(body, up), y, skip)
  {
    hide StrongIn, Lighter;
    AllLighterTrimmed(body0, body, {}, {});
    forall o | o in y && o in body0
      ensures StrongIn(Unparked(body0[o], o in skip), Heap(body0, up), y) <==> StrongIn(Unparked(body[o], o in skip), Heap(body, up), y)
    {
      LighterStrong(body0[o], body[o], o in skip, Heap(body0, up), Heap(body, up), y);
    }
  }

  lemma LighterStrong(b: Body, b': Body, parked: bool, h: Heap, h': Heap, x: set<Ref>)
    requires Lighter(b, b') && h.up == h'.up
    requires forall v :: IsStr(v, h'.body) == IsStr(v, h.body)
    ensures StrongIn(Unparked(b, parked), h, x) <==> StrongIn(Unparked(b', parked), h', x)
  {
  }

  /** When marking has converged, all that had to be followed is marked, strings
      apart, which only weak tables may still hold. */
  lemma LeastMarked(body0: map<Ref, Body>, c0: map<Ref, Color>, body: map<Ref, Body>, up: map<Cell, Value>, c: map<Ref, Color>,
                    roots: seq<Value>, l: Lists, x: set<Ref>, skip: set<Ref>)
    requires AtomicInv(body, up, c, [], [], l, x, skip) && Converged(l.ephemeron, body, Marked(c))
    requires Advanced(body0, c0, body, c) && AllIn(roots, Marked(c))
    ensures Least(Heap(body0, up), roots, Marked(c0), skip) <= Marked(c) + Strings(body)
  {
    hide AtomicInv, Converged, AllLighter, NewBlack, BlackStays, Bound;
    ConvergedBound(body, up, c, l, x, skip);
    LighterBound(body0, body, up, Marked(c) + Strings(body), skip);
    assert forall i :: 0 <= i < |roots| ==> In(roots[i], Marked(c)) ==> In(roots[i], Marked(c) + Strings(body));
    LeastIn(Heap(body0, up), roots, Marked(c0), skip, Marked(c) + Strings(body));
  }

  lemma AdvancedCleaned(body0: map<Ref, Body>, c0: map<Ref, Color>, body: map<Ref, Body>, c: map<Ref, Color>, skip: set<Ref>)
    requires Advanced(body0, c0, body, c) && Marked(c) <= Marked(c0) + Strings(body0)
    ensures Cleaned(body0, c0, body, c, skip)
  {
    AllLighterTrimmed(body0, body, Marked(c), skip);
    forall r | r in c0 && c0[r].White? && !c[r].White? ensures r in body0 && body0[r].Str? {
      assert r in Marked(c) && r !in Marked(c0);
    }
  }

  lemma AllLighterTrimmed(body0: map<Ref, Body>, body: map<Ref, Body>, s: set<Ref>, skip: set<Ref>)
    requires AllLighter(body0, body)
    ensures AllTrimmed(body0, body, s, skip) && forall v :: IsStr(v, body) == IsStr(v, body0)
  {
  }

  /** A table listed after the second pass was gray and settled before it. */
  lemma SecondPassListed(r: Ref, body0: map<Ref, Body>, up: map<Cell, Value>, c0: map<Ref, Color>, l0: Lists,
                         body: map<Ref, Body>, c: map<Ref, Color>, l: Lists, x: set<Ref>, y: set<Ref>, skip: set<Ref>)
    requires AtomicInv(body0, up, c0, [], [], l0, x, skip) && AtomicInv(body, up, c, [], [], l, y, skip)
    requires Advanced(body0, c0, body, c) && Cleaned(body0, c0, body, c, skip)
    requires r in l.weak || r in l.all
    ensures SettledIn(r, body0, Marked(c0), l0, skip) && r in body && body[r].Table? && body0[r].Table?
    ensures body[r].mode == body0[r].mode
  {
    hide Settled, Marking, AllLighter;
    ListedIsGray(r, c, [], [], l);
    assert IsGray(c, r) && r in body && body[r].Table?;
    assert Trimmed(body0[r], body[r], r in skip, body0, Marked(c));
    assert IsGray(c0, r);
  }

  lemma SecondPass(body0: map<Ref, Body>, up: map<Cell, Value>, c0: map<Ref, Color>, l0: Lists,
                   body: map<Ref, Body>, c: map<Ref, Color>, l: Lists, x: set<Ref>, y: set<Ref>, skip: set<Ref>, vals: set<Ref>)
    requires AtomicInv(body0, up, c0, [], [], l0, x, skip) && AtomicInv(body, up, c, [], [], l, y, skip)
    requires Advanced(body0, c0, body, c) && Cleaned(body0, c0, body, c, skip)
    requires ValsDone(vals, body0, Marked(c0)) && Elems(l0.weak) <= vals && Elems(l0.all) <= vals
    ensures ValsDone(vals + Elems(l.weak), body, Marked(c)) && AllWeakDone(l.all, body, vals, skip)
  {
    hide AtomicInv, Advanced, Cleaned;
    DoneKeeps(vals, {}, body0, c0, body, c, skip);
    forall r | r in l.weak ensures r in body && body[r].Table? && AllIn(body[r].arr, Marked(c)) && ValsIn(body[r].node, Marked(c)) {
      SecondPassListed(r, body0, up, c0, l0, body, c, l, x, y, skip);
      WeakKind(r, body, up, c, l, y, skip);
      if r !in vals { DoneKeeps({r}, {}, body0, c0, body, c, skip); }
    }
    forall r | r in l.all && (r in skip || IsTable(body, r, AllWeak)) ensures r in vals {
      SecondPassListed(r, body0, up, c0, l0, body, c, l, x, y, skip);
    }
  }

  lemma WeakKind(r: Ref, body: map<Ref, Body>, up: map<Cell, Value>, c: map<Ref, Color>, l: Lists, x: set<Ref>, skip: set<Ref>)
    requires AtomicInv(body, up, c, [], [], l, x, skip) && r in l.weak
    ensures IsTable(body, r, WeakValues)
  {
  }

  // ----- what holds when clearing is over -----

  /** Every marked object holds marked objects only, through references of any kind. */
  ghost predicate AllHeld(body: map<Ref, Body>, up: map<Cell, Value>, s: set<Ref>, skip: set<Ref>) {
    forall o :: o in s && o in body ==> HeldIn(Unparked(body[o], o in skip), up, s)
  }

  lemma FinalHeld(body: map<Ref, Body>, up: map<Cell, Value>, c: map<Ref, Color>, l: Lists, x: set<Ref>, skip: set<Ref>,
                  vals: set<Ref>, keys: set<Ref>)
    requires AtomicInv(body, up, c, [], [], l, x, skip) && Converged(l.ephemeron, body, Marked(c))
    requires ValsDone(vals, body, Marked(c)) && KeysDone(keys, body, Marked(c))
    requires Elems(l.weak) <= vals && AllWeakDone(l.all, body, vals, skip) && Elems(l.ephemeron) + Elems(l.all) <= keys
    ensures AllHeld(body, up, Marked(c), skip)
  {
    hide OnceOk, KindsOk, ClosedAll, Bound;
    forall o | o in Marked(c) && o in body ensures HeldIn(Unparked(body[o], o in skip), up, Marked(c)) {
      if c[o].Black? {
        UnparkedHeld(body[o], up, Marked(c), o in skip);
      } else {
        assert SettledIn(o, body, Marked(c), l, skip);
        SettledHeld(Unparked(body[o], o in skip), body, up, Marked(c), o in l.weak, o in l.ephemeron, o in l.all);
      }
    }
  }

  lemma SettledHeld(b: Body, body: map<Ref, Body>, up: map<Cell, Value>, s: set<Ref>, w: bool, e: bool, a: bool)
    requires Settled(b, body, s, w, e, a)
    requires b.Table? && (w || (a && b.mode.AllWeak?)) ==> AllIn(b.arr, s) && ValsIn(b.node, s)
    requires b.Table? && e ==> EphemeronIn(b.node, s)
    requires b.Table? && (e || a) ==> KeysIn(b.node, s)
    ensures HeldIn(b, up, s)
  {
  }

  /** Gray tables that the collector traverses have scrubbed entries. */
  ghost predicate GrayScrubbed(body: map<Ref, Body>, c: map<Ref, Color>, skip: set<Ref>) {
    forall r :: IsGray(c, r) && r in body && body[r].Table? && !body[r].mode.AllWeak? && r !in skip ==>
      Scrubbed(body[r].node, body.Keys, Marked(c))
  }

  lemma SettledScrubbed(body: map<Ref, Body>, up: map<Cell, Value>, c: map<Ref, Color>, l: Lists, x: set<Ref>, skip: set<Ref>)
    requires AtomicInv(body, up, c, [], [], l, x, skip)
    ensures GrayScrubbed(body, c, skip)
  {
    hide Marking, OnceOk, ListKinds, KindsOk, Scrubbed;
    forall r | IsGray(c, r) && r in body && body[r].Table? && !body[r].mode.AllWeak? && r !in skip
      ensures Scrubbed(body[r].node, body.Keys, Marked(c))
    {
      assert SettledIn(r, body, Marked(c), l, skip);
    }
  }

  /** Clearing a table that was black all along, or turned black, leaves it scrubbed. */
  lemma CleanedScrubbed(body0: map<Ref, Body>, c0: map<Ref, Color>, body: map<Ref, Body>, c: map<Ref, Color>, skip: set<Ref>, r: Ref)
    requires Cleaned(body0, c0, body, c, skip) && r in body0 && body0[r].Table? && Scrubbed(body0[r].node, body0.Keys, Marked(c0))
    ensures r in body && body[r].Table? && Scrubbed(body[r].node, body.Keys, Marked(c))
  {
    TrimmedReduced(body0[r], body[r], r in skip, body0, Marked(c));
  }

  /** The elements of `l` in front of the list that `f` was: a clearing loop that
      stops at the head of `f`. */
  function Before(l: seq<Ref>, f: seq<Ref>): seq<Ref> {
    if l == [] || (f != [] && l[0] == f[0]) then [] else [l[0]] + Before(l[1..], f)
  }

  lemma BeforeIn(l: seq<Ref>, f: seq<Ref>)
    ensures forall r :: r in Before(l, f) ==> r in l
  {
  }

  /** A gray table with something that needs clearing whatever else gets marked within `x`. */
  ghost predicate MustClear(r: Ref, body: map<Ref, Body>, x: set<Ref>) {
    r in body && body[r].Table? &&
    match body[r].mode
    case WeakValues => body[r].arr != [] || !ValsIn(body[r].node, x)
    case Ephemeron => !ValsIn(body[r].node, x)
    case _ => false
  }

  /** A table that is in neither `weak` nor `ephemeron` for good reason. */
  ghost predicate NeedsNoClearing(r: Ref, body: map<Ref, Body>, s: set<Ref>) {
    r in body && body[r].Table? ==>
    match body[r].mode
    case WeakValues => body[r].arr == [] && ValsIn(body[r].node, s)
    case Ephemeron => ValsIn(body[r].node, s)
    case _ => true
  }

  lemma LateSettled(body: map<Ref, Body>, up: map<Cell, Value>, c: map<Ref, Color>, pend: seq<Ref>, l: Lists, x: set<Ref>, skip: set<Ref>)
    requires AtomicInv(body, up, c, [], pend, l, x, skip) && l.weak == [] && l.ephemeron == []
    ensures forall r :: IsGray(c, r) && r !in pend && r !in skip ==> NeedsNoClearing(r, body, Marked(c))
  {
    hide Marking, OnceOk, ListKinds, KindsOk, Scrubbed;
    forall r | IsGray(c, r) && r !in pend && r !in skip ensures NeedsNoClearing(r, body, Marked(c)) {
      assert SettledIn(r, body, Marked(c), l, skip);
    }
  }

  /** A gray table that must be cleared ends up in `weak` or in `ephemeron`. */
  lemma LateListed(r: Ref, body0: map<Ref, Body>, c0: map<Ref, Color>, gray0: seq<Ref>, again0: seq<Ref>, l0: Lists,
                   body: map<Ref, Body>, up: map<Cell, Value>, c: map<Ref, Color>, again: seq<Ref>, l: Lists,
                   x: set<Ref>, skip: set<Ref>)
    requires AtomicInv(body0, up, c0, gray0, again0, l0, x, skip) && r in gray0 && MustClear(r, body0, x)
    requires AtomicInv(body, up, c, [], again, l, x, skip) && Advanced(body0, c0, body, c) && AgainThreads(again0, again, body)
    ensures r in l.weak || r in l.ephemeron
  {
    hide Sane, BlackOk, Bound, KindsOk, Scrubbed;
    ListedIsGray(r, c0, gray0, again0, l0);
    assert Count(r, gray0, again0, l0) <= 1;
    assert r in multiset(gray0);
    assert r !in again0 && r !in skip;
    assert Lighter(body0[r], body[r]);
    assert c[r].Gray?;
    assert SettledIn(r, body, Marked(c), l, skip);
    if r !in l.weak && r !in l.ephemeron {
      assert ValsIn(body[r].node, Marked(c));
      forall i | 0 <= i < |body0[r].node| && body0[r].node[i].val != Nil ensures In(body0[r].node[i].val, x) {
        assert body[r].node[i] == body0[r].node[i];
      }
      assert false;
    }
  }

  /** The atomic step's effect on bodies: visits lighten them, clearing trims them. */
  lemma AdvancedThenCleaned(body0: map<Ref, Body>, c0: map<Ref, Color>, body1: map<Ref, Body>, c1: map<Ref, Color>,
                            body: map<Ref, Body>, c: map<Ref, Color>, skip: set<Ref>)
    requires Advanced(body0, c0, body1, c1) && Cleaned(body1, c1, body, c, skip)
    ensures AllTrimmed(body0, body, Marked(c), skip) && c.Keys == c0.Keys && Marked(c0) <= Marked(c) && BlackStays(c0, c)
  {
    hide Trimmed, AllLighter, OnlyStrings;
    AllLighterTrimmed(body0, body1, Marked(c), skip);
    forall r | r in body0 ensures Trimmed(body0[r], body[r], r in skip, body0, Marked(c)) {
      TrimmedTrans(body0[r], body1[r], body[r], r in skip, body0, body1, Marked(c));
    }
  }

  lemma CleanedKinds(body0: map<Ref, Body>, c0: map<Ref, Color>, body: map<Ref, Body>, c: map<Ref, Color>, skip: set<Ref>)
    requires Cleaned(body0, c0, body, c, skip)
    ensures forall r, m :: IsTable(body, r, m) == IsTable(body0, r, m)
  {
    forall r, m ensures IsTable(body, r, m) == IsTable(body0, r, m) {
      assert r in body0 ==> Trimmed(body0[r], body[r], r in skip, body0, Marked(c));
    }
  }

  lemma DoneNone(body: map<Ref, Body>, s: set<Ref>)
    ensures ValsDone({}, body, s) && KeysDone({}, body, s)
  {
  }

  /** A tighter bound for the second pass. */
  lemma SecondBound(body: map<Ref, Body>, up: map<Cell, Value>, c: map<Ref, Color>, l: Lists, x: set<Ref>, skip: set<Ref>)
    returns (y: set<Ref>)
    requires AtomicInv(body, up, c, [], [], l, x, skip) && Converged(l.ephemeron, body, Marked(c))
    ensures AtomicInv(body, up, c, [], [], l, y, skip) && y <= x && y <= Marked(c) + Strings(body)
  {
    hide Bound, OnceOk, KindsOk, SettledOk, ListKinds, BlackOk, Sane;
    var z := Marked(c) + Strings(body);
    ConvergedBound(body, up, c, l, x, skip);
    BoundMeet(Heap(body, up), x, z, skip);
    y := x * z;
  }

  lemma CleanedMarked(body0: map<Ref, Body>, c0: map<Ref, Color>, body: map<Ref, Body>, c: map<Ref, Color>, skip: set<Ref>)
    requires Cleaned(body0, c0, body, c, skip)
    ensures Marked(c0) <= Marked(c) && c.Keys == c0.Keys
  {
  }
}
