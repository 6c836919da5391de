/** The collector's state and the relations its marking steps keep. */
module LuaGcState {
  import opened LuaHeap

  datatype Color = White(id: bool) | Gray | Black

  /** `InsideAtomic` is only ever seen while the atomic step runs. */
  datatype Phase =
    | Propagate | EnterAtomic
    | SweepAllGc | SweepFinObj | SweepToBeFnz | SweepEnd
    | CallFin | Pause
    | InsideAtomic

  /** Where sweeping continues: before element `pos` of `allgc`, at the head of
      one of the two finalizer lists, or nowhere. */
  datatype Cursor = NoCursor | InAllGc(pos: nat) | AtFinObj | AtToBeFnz

  ghost function Marked(color: map<Ref, Color>): set<Ref> {
    set r | r in color && !color[r].White?
  }

  ghost function Whites(color: map<Ref, Color>): set<Ref> {
    set r | r in color && color[r].White?
  }

  /** Everything but the objects that carry the other white. */
  ghost function NonDead(color: map<Ref, Color>, white: bool): set<Ref> {
    set r | r in color && color[r] != White(!white)
  }

  ghost function Elems(l: seq<Ref>): set<Ref> {
    set r | r in l
  }

  function FirstColor(b: Body): Color {
    if Leaf(b) then Black else Gray
  }

  // ----- what marking does to colours and to the gray list -----

  /** Marking turns some white objects gray or black, changes nothing else, and
      links exactly the newly gray ones into the gray list. */
  ghost predicate MarksMore(body: map<Ref, Body>, c0: map<Ref, Color>, g0: seq<Ref>,
                            c1: map<Ref, Color>, g1: seq<Ref>)
  {
    && c1.Keys == c0.Keys
    && (forall r :: r in c0 && !c0[r].White? ==> c1[r] == c0[r])
    && (forall r :: r in c0 && c0[r].White? && c1[r] != c0[r] ==> r in body && c1[r] == FirstColor(body[r]))
    && (forall r :: multiset(g1)[r] == multiset(g0)[r] + NewlyGray(c0, c1, r))
  }

  ghost function NewlyGray(c0: map<Ref, Color>, c1: map<Ref, Color>, r: Ref): nat {
    if r in c0 && c0[r].White? && r in c1 && c1[r].Gray? then 1 else 0
  }

  lemma MarksMoreRefl(body: map<Ref, Body>, c: map<Ref, Color>, g: seq<Ref>)
    ensures MarksMore(body, c, g, c, g)
  {
  }

  lemma MarksMoreTrans(body: map<Ref, Body>, body': map<Ref, Body>, c0: map<Ref, Color>, g0: seq<Ref>,
                       c1: map<Ref, Color>, g1: seq<Ref>, c2: map<Ref, Color>, g2: seq<Ref>)
    requires MarksMore(body, c0, g0, c1, g1) && MarksMore(body', c1, g1, c2, g2)
    requires SameKinds(body, body')
    ensures MarksMore(body, c0, g0, c2, g2)
  {
  }

  /** A userdata is gray while its metatable is marked and black from then on. */
  lemma MarksUserdata(body: map<Ref, Body>, o: Ref, c0: map<Ref, Color>, g0: seq<Ref>,
                      c1: map<Ref, Color>, g1: seq<Ref>, c2: map<Ref, Color>, g2: seq<Ref>)
    requires o in body && Leaf(body[o]) && o in c0 && c0[o].White?
    requires MarksMore(body, c0[o := Gray], g0, c1, g1) && MarksMore(body, c1[o := Black], g1, c2, g2)
    ensures MarksMore(body, c0, g0, c2, g2) && c2[o].Black?
  {
    assert c1[o].Gray? && c2[o].Black?;
    forall r ensures multiset(g2)[r] == multiset(g0)[r] + NewlyGray(c0, c2, r) {
      assert multiset(g1)[r] == multiset(g0)[r] + NewlyGray(c0[o := Gray], c1, r);
    }
  }

  lemma MarksBlack(body: map<Ref, Body>, o: Ref, c0: map<Ref, Color>, g0: seq<Ref>)
    requires o in body && Leaf(body[o]) && o in c0 && c0[o].White?
    ensures MarksMore(body, c0, g0, c0[o := Black], g0)
  {
  }

  /** Any other object is linked into the gray list. */
  lemma MarksLink(body: map<Ref, Body>, o: Ref, c0: map<Ref, Color>, g0: seq<Ref>)
    requires o in body && !Leaf(body[o]) && o in c0 && c0[o].White?
    ensures MarksMore(body, c0, g0, c0[o := Gray], [o] + g0)
  {
  }

  ghost predicate SameKinds(body: map<Ref, Body>, body': map<Ref, Body>) {
    body.Keys == body'.Keys && forall r :: r in body ==> SameKind(body[r], body'[r])
  }

  predicate SameKind(b: Body, b': Body) {
    b.Str? == b'.Str? && b.Udata? == b'.Udata? && b.Thread? == b'.Thread? && b.Table? == b'.Table?
  }

  lemma MarksMoreGrows(body: map<Ref, Body>, c0: map<Ref, Color>, g0: seq<Ref>, c1: map<Ref, Color>, g1: seq<Ref>)
    requires MarksMore(body, c0, g0, c1, g1)
    ensures Marked(c0) <= Marked(c1) && Whites(c1) <= Whites(c0)
    ensures Whites(c1) == Whites(c0) ==> c1 == c0 && |g1| == |g0|
  {
    if Whites(c1) == Whites(c0) {
      assert forall r :: r in c0 ==> (r in Whites(c0) <==> c0[r].White?) && (r in Whites(c1) <==> c1[r].White?);
      assert c1 == c0;
      assert multiset(g1) == multiset(g0);
      assert |multiset(g1)| == |multiset(g0)|;
    }
  }

  lemma MarksMoreKeeps(body: map<Ref, Body>, c0: map<Ref, Color>, g0: seq<Ref>, c1: map<Ref, Color>, g1: seq<Ref>, o: Ref)
    requires MarksMore(body, c0, g0, c1, g1) && o in c0 && !c0[o].White?
    ensures o in c1 && c1[o] == c0[o]
  {
  }

  // ----- invariants of marking -----

  /** Black objects (but those in `e`, still being visited) hold no white one. */
  ghost predicate BlackOk(body: map<Ref, Body>, up: map<Cell, Value>, color: map<Ref, Color>, e: set<Ref>) {
    forall o :: o in color && o in body && color[o].Black? && o !in e ==> HeldIn(body[o], up, Marked(color))
  }

  ghost predicate CellsOk(body: map<Ref, Body>, up: map<Cell, Value>) {
    forall o, i :: o in body && body[o].LClosure? && 0 <= i < |body[o].cells| ==> body[o].cells[i] in up
  }

  /** A table parked in the `allweak` list is not visited again: the collector reads
      neither its metatable nor its mode any more, and clears it as all-weak. */
  function Unparked(b: Body, parked: bool): Body {
    if parked && b.Table? then Table(Nil, AllWeak, b.arr, b.node) else b
  }

  /** The keys of empty entries, where they are allocated at all, are marked. */
  ghost predicate Scrubbed(node: seq<Entry>, keys: set<Ref>, s: set<Ref>) {
    forall i :: 0 <= i < |node| && node[i].val == Nil && In(node[i].key, keys) ==> In(node[i].key, s)
  }

  /** ... the first `n` entries. */
  ghost predicate ScrubbedTo(node: seq<Entry>, n: nat, keys: set<Ref>, s: set<Ref>) {
    forall i :: 0 <= i < n && i < |node| && node[i].val == Nil && In(node[i].key, keys) ==> In(node[i].key, s)
  }

  /** `x` is closed under the references the collector follows. */
  ghost predicate Bound(h: Heap, x: set<Ref>, skip: set<Ref>) {
    forall o :: o in x && o in h.body ==> StrongIn(Unparked(h.body[o], o in skip), h, x)
  }

  ghost predicate Sane(body: map<Ref, Body>, up: map<Cell, Value>, color: map<Ref, Color>) {
    && color.Keys == body.Keys
    && CellsOk(body, up)
    && ClosedAll(Heap(body, up), body.Keys)
  }

  /** What every marking routine needs and keeps; `x` bounds what gets marked. */
  ghost predicate Marking(body: map<Ref, Body>, up: map<Cell, Value>, color: map<Ref, Color>,
                          x: set<Ref>, skip: set<Ref>, e: set<Ref>)
  {
    && Sane(body, up, color)
    && BlackOk(body, up, color, e)
    && Bound(Heap(body, up), x, skip)
    && Marked(color) <= x
    && skip !! Whites(color)
  }

  lemma BlackOkGrows(body: map<Ref, Body>, up: map<Cell, Value>, c0: map<Ref, Color>, c1: map<Ref, Color>, e: set<Ref>)
    requires BlackOk(body, up, c0, e) && c0.Keys == c1.Keys && Marked(c0) <= Marked(c1)
    requires forall o :: o in c1 && c1[o].Black? && o in body && o !in e ==> c0[o].Black? || HeldIn(body[o], up, Marked(c1))
    ensures BlackOk(body, up, c1, e)
  {
    forall o | o in c1 && o in body && c1[o].Black? && o !in e ensures HeldIn(body[o], up, Marked(c1)) {
      if c0[o].Black? { HeldMono(body[o], up, Marked(c0), Marked(c1)); }
    }
  }

  /** What a marking routine may rely on about an object within the bound. */
  lemma MarkingFacts(body: map<Ref, Body>, up: map<Cell, Value>, color: map<Ref, Color>, o: Ref,
                     x: set<Ref>, skip: set<Ref>, e: set<Ref>)
    requires Marking(body, up, color, x, skip, e)
    ensures color.Keys == body.Keys && Marked(color) <= x
    ensures o in body ==> HeldIn(body[o], up, body.Keys)
    ensures o in body && o in x ==> StrongIn(Unparked(body[o], o in skip), Heap(body, up), x)
    ensures o in body && body[o].LClosure? ==> forall i :: 0 <= i < |body[o].cells| ==> body[o].cells[i] in up
  {
  }

  /** Colouring one object gray or black; black only when its references are marked. */
  lemma Paint(body: map<Ref, Body>, up: map<Cell, Value>, c0: map<Ref, Color>, o: Ref, k: Color,
              x: set<Ref>, skip: set<Ref>, e: set<Ref>)
    requires Marking(body, up, c0, x, skip, e) && o in c0 && o in x && !k.White?
    requires k.Black? ==> o in e || HeldIn(body[o], up, Marked(c0) + {o})
    ensures Marking(body, up, c0[o := k], x, skip, e)
    ensures Marked(c0[o := k]) == Marked(c0) + {o} && Whites(c0[o := k]) == Whites(c0) - {o}
  {
    var c1 := c0[o := k];
    assert Marked(c1) == Marked(c0) + {o};
    assert Whites(c1) == Whites(c0) - {o};
    BlackOkGrows(body, up, c0, c1, e);
  }

  lemma MarkingWeaken(body: map<Ref, Body>, up: map<Cell, Value>, color: map<Ref, Color>, o: Ref,
                      x: set<Ref>, skip: set<Ref>, e: set<Ref>)
    requires Marking(body, up, color, x, skip, e)
    ensures Marking(body, up, color, x, skip, e + {o})
  {
  }

  /** An object whose references are all marked no longer needs an exception. */
  lemma Unexcept(body: map<Ref, Body>, up: map<Cell, Value>, color: map<Ref, Color>, o: Ref,
                 x: set<Ref>, skip: set<Ref>, e: set<Ref>)
    requires Marking(body, up, color, x, skip, e + {o}) && o in body
    requires o in color && color[o].Black? ==> HeldIn(body[o], up, Marked(color))
    ensures Marking(body, up, color, x, skip, e)
  {
  }

  /** Emptied entries and dropped elements lose nothing the collector relies on. */
  lemma ReduceMarking(body: map<Ref, Body>, up: map<Cell, Value>, color: map<Ref, Color>, h: Ref, b': Body,
                      x: set<Ref>, skip: set<Ref>, e: set<Ref>)
    requires Marking(body, up, color, x, skip, e) && h in body && Reduced(body[h], b')
    ensures Marking(body[h := b'], up, color, x, skip, e)
  {
    var body' := body[h := b'];
    assert body'.Keys == body.Keys;
    forall o | o in body' ensures HeldIn(body'[o], up, body'.Keys) {
      assert HeldIn(body[o], up, body.Keys);
      if o == h { ReducedHeld(body[h], b', up, body.Keys); }
    }
    forall o | o in x && o in body' ensures StrongIn(Unparked(body'[o], o in skip), Heap(body', up), x) {
      assert StrongIn(Unparked(body[o], o in skip), Heap(body, up), x);
      ReducedStrong(Unparked(body[o], o in skip), Unparked(body'[o], o in skip), Heap(body, up), Heap(body', up), x);
    }
    forall o | o in color && o in body' && color[o].Black? && o !in e ensures HeldIn(body'[o], up, Marked(color)) {
      if o == h { ReducedHeld(body[h], b', up, Marked(color)); }
    }
  }

  // ----- traversing a table -----

  /** Since a traversal of table `h` began: the table lost at most empty entries,
      and some objects were marked. */
  ghost predicate Traversing(h: Ref, body0: map<Ref, Body>, c0: map<Ref, Color>, g0: seq<Ref>,
                             body: map<Ref, Body>, c: map<Ref, Color>, g: seq<Ref>)
  {
    && h in body0 && h in body && body == body0[h := body[h]]
    && SameContents(body0[h], body[h])
    && MarksMore(body0, c0, g0, c, g) && Marked(c0) <= Marked(c)
  }

  lemma TraversingStart(h: Ref, body: map<Ref, Body>, c: map<Ref, Color>, g: seq<Ref>)
    requires h in body
    ensures Traversing(h, body, c, g, body, c, g)
  {
  }

  lemma TraversingMark(h: Ref, body0: map<Ref, Body>, c0: map<Ref, Color>, g0: seq<Ref>,
                       body: map<Ref, Body>, c1: map<Ref, Color>, g1: seq<Ref>, c2: map<Ref, Color>, g2: seq<Ref>)
    requires Traversing(h, body0, c0, g0, body, c1, g1) && MarksMore(body, c1, g1, c2, g2)
    ensures Traversing(h, body0, c0, g0, body, c2, g2)
  {
    hide MarksMore;
    MarksMoreTrans(body0, body, c0, g0, c1, g1, c2, g2);
    MarksMoreGrows(body, c1, g1, c2, g2);
  }

  lemma TraversingScrub(h: Ref, body0: map<Ref, Body>, c0: map<Ref, Color>, g0: seq<Ref>,
                        body1: map<Ref, Body>, body2: map<Ref, Body>, c: map<Ref, Color>, g: seq<Ref>)
    requires Traversing(h, body0, c0, g0, body1, c, g)
    requires h in body2 && body2 == body1[h := body2[h]] && SameContents(body1[h], body2[h])
    ensures Traversing(h, body0, c0, g0, body2, c, g)
  {
    hide MarksMore;
  }

  lemma TraversingFacts(h: Ref, body0: map<Ref, Body>, c0: map<Ref, Color>, g0: seq<Ref>,
                        body: map<Ref, Body>, c: map<Ref, Color>, g: seq<Ref>)
    requires Traversing(h, body0, c0, g0, body, c, g)
    ensures h in body && h in body0 && SameContents(body0[h], body[h]) && body == body0[h := body[h]]
    ensures Marked(c0) <= Marked(c) && MarksMore(body0, c0, g0, c, g) && SameKinds(body0, body)
    ensures body0[h].Table? ==> forall v :: IsStr(v, body) == IsStr(v, body0)
    ensures body0[h].Table? ==> body[h].Table? && body[h].mode == body0[h].mode && body[h].meta == body0[h].meta
    ensures body0[h].Table? ==> body[h].Table? && |body[h].node| == |body0[h].node| && body[h].arr == body0[h].arr
    ensures body0[h].Table? ==> forall i :: 0 <= i < |body0[h].node| ==>
      && (body[h].node[i].val == Nil <==> body0[h].node[i].val == Nil)
      && (body0[h].node[i].val != Nil ==> body[h].node[i] == body0[h].node[i])
  {
    hide MarksMore;
  }

  lemma TraversingAfterMark(h: Ref, body0: map<Ref, Body>, c0: map<Ref, Color>, g0: seq<Ref>,
                            c1: map<Ref, Color>, g1: seq<Ref>, body: map<Ref, Body>, c: map<Ref, Color>, g: seq<Ref>)
    requires MarksMore(body0, c0, g0, c1, g1) && Traversing(h, body0, c1, g1, body, c, g)
    ensures Traversing(h, body0, c0, g0, body, c, g)
  {
    hide MarksMore;
    MarksMoreTrans(body0, body0, c0, g0, c1, g1, c, g);
    MarksMoreGrows(body0, c0, g0, c1, g1);
  }

  /** Recolouring an object that was marked all along. */
  lemma MarksRecolor(body: map<Ref, Body>, o: Ref, k: Color, c0: map<Ref, Color>, g0: seq<Ref>,
                     c1: map<Ref, Color>, g1: seq<Ref>)
    requires MarksMore(body, c0, g0, c1, g1) && o in c0 && !c0[o].White? && !k.White?
    ensures MarksMore(body, c0[o := k], g0, c1[o := k], g1)
    ensures Marked(c0[o := k]) == Marked(c0) && Marked(c1[o := k]) == Marked(c1)
  {
    assert forall r :: multiset(g1)[r] == multiset(g0)[r] + NewlyGray(c0, c1, r);
    assert forall r :: NewlyGray(c0[o := k], c1[o := k], r) == NewlyGray(c0, c1, r);
  }

  /** The first `n` entries of a table: keys, values, string keys. */
  ghost predicate Keys(node: seq<Entry>, n: nat, s: set<Ref>) {
    forall i :: 0 <= i < n && i < |node| && node[i].val != Nil ==> In(node[i].key, s)
  }

  ghost predicate Vals(node: seq<Entry>, n: nat, s: set<Ref>) {
    forall i :: 0 <= i < n && i < |node| && node[i].val != Nil ==> In(node[i].val, s)
  }

  ghost predicate StrKeys(node: seq<Entry>, n: nat, body: map<Ref, Body>, s: set<Ref>) {
    forall i :: 0 <= i < n && i < |node| && node[i].val != Nil && IsStr(node[i].key, body) ==> In(node[i].key, s)
  }

  ghost predicate Pairs(node: seq<Entry>, n: nat, s: set<Ref>) {
    forall i :: 0 <= i < n && i < |node| && node[i].val != Nil && In(node[i].key, s) ==> In(node[i].val, s)
  }

  /** One more entry whose key (value) is marked. */
  lemma KeysNext(node: seq<Entry>, n: nat, s: set<Ref>, t: set<Ref>)
    requires Keys(node, n, s) && s <= t && n < |node| && (node[n].val != Nil ==> In(node[n].key, t))
    ensures Keys(node, n + 1, t)
  {
  }

  lemma ValsNext(node: seq<Entry>, n: nat, s: set<Ref>, t: set<Ref>)
    requires Vals(node, n, s) && s <= t && n < |node| && (node[n].val != Nil ==> In(node[n].val, t))
    ensures Vals(node, n + 1, t)
  {
  }

  /** Only strings changed colour. */
  ghost predicate OnlyStrings(body: map<Ref, Body>, c0: map<Ref, Color>, c1: map<Ref, Color>) {
    forall r :: r in c0 && c0[r].White? && r in c1 && !c1[r].White? ==> r in body && body[r].Str?
  }

  lemma OnlyStringsMarked(body: map<Ref, Body>, c0: map<Ref, Color>, c1: map<Ref, Color>)
    requires OnlyStrings(body, c0, c1) && c0.Keys == c1.Keys
    ensures forall r :: r in Marked(c1) && r !in Marked(c0) ==> r in body && body[r].Str?
  {
  }

  lemma PairsNext(node: seq<Entry>, n: nat, body: map<Ref, Body>, s: set<Ref>, t: set<Ref>)
    requires Pairs(node, n, s) && StrKeys(node, n, body, s) && s <= t && n < |node|
    requires forall r :: r in t && r !in s ==> r in body && body[r].Str?
    requires node[n].val != Nil && In(node[n].key, t) ==> In(node[n].val, t)
    ensures Pairs(node, n + 1, t)
  {
    forall i | 0 <= i < n && node[i].val != Nil && In(node[i].key, t) ensures In(node[i].val, t) {
      assert In(node[i].key, s);
    }
  }

  lemma StrKeysNext(node: seq<Entry>, n: nat, body: map<Ref, Body>, s: set<Ref>, t: set<Ref>)
    requires StrKeys(node, n, body, s) && s <= t && n < |node|
    requires node[n].val != Nil && IsStr(node[n].key, body) ==> In(node[n].key, t)
    ensures StrKeys(node, n + 1, body, t)
  {
  }

  /** A gray object that will not be visited again in this cycle: what it holds
      is marked, or the list it sits in will see to it. */
  ghost predicate Settled(b: Body, body: map<Ref, Body>, s: set<Ref>, inWeak: bool, inEph: bool, inAll: bool) {
    match b
    case Thread(vs) => AllIn(vs, s)
    case Table(meta, mode, arr, node) =>
      && In(meta, s)
      && (match mode
          case Strong => false
          case WeakValues => KeysIn(node, s) && Scrubbed(node, body.Keys, s) && (inWeak || (arr == [] && ValsIn(node, s)))
          case Ephemeron =>
            && AllIn(arr, s) && StrKeysIn(node, body, s) && Scrubbed(node, body.Keys, s)
            && (inEph || (ValsIn(node, s) && (inAll || KeysIn(node, s))))
          case AllWeak => inAll)
    case _ => false
  }

  /** An ephemeron table scanned up to entry `n`: what the three flags record. */
  ghost predicate Scanned(node: seq<Entry>, n: nat, body: map<Ref, Body>, c0: map<Ref, Color>, c: map<Ref, Color>,
                          hasclears: bool, hasww: bool, marked: bool)
  {
    && StrKeys(node, n, body, Marked(c))
    && (hasww || Vals(node, n, Marked(c)))
    && (hasclears || Keys(node, n, Marked(c)))
    && Whites(c) <= Whites(c0)
    && (marked ==> Whites(c) < Whites(c0))
    && (!marked ==> OnlyStrings(body, c0, c) && Pairs(node, n, Marked(c)))
  }

  lemma ScannedStart(node: seq<Entry>, body: map<Ref, Body>, c0: map<Ref, Color>, c: map<Ref, Color>, marked: bool)
    requires if marked then Whites(c) < Whites(c0) else c == c0
    ensures Scanned(node, 0, body, c0, c, false, false, marked)
  {
  }

  lemma ScannedNext(node: seq<Entry>, n: nat, body: map<Ref, Body>, body': map<Ref, Body>,
                    c0: map<Ref, Color>, c1: map<Ref, Color>, c2: map<Ref, Color>,
                    hasclears: bool, hasww: bool, marked: bool, cleared: bool, ww: bool, m: bool)
    requires Scanned(node, n, body, c0, c1, hasclears, hasww, marked)
    requires n < |node| && c1.Keys == c2.Keys && Marked(c1) <= Marked(c2) && Whites(c2) <= Whites(c1)
    requires forall v :: IsStr(v, body') == IsStr(v, body)
    requires m ==> Whites(c2) < Whites(c1)
    requires !m ==> OnlyStrings(body', c1, c2)
    requires var e := node[n];
      e.val != Nil ==>
        && (IsStr(e.key, body) ==> In(e.key, Marked(c2)))
        && (ww || In(e.val, Marked(c2))) && (cleared || In(e.key, Marked(c2)))
        && (!m && In(e.key, Marked(c2)) ==> In(e.val, Marked(c2)))
    ensures Scanned(node, n + 1, body, c0, c2, hasclears || cleared, hasww || ww, marked || m)
  {
    forall r | r in c1 && c1[r].White? && r in c2 && !c2[r].White? && !m ensures r in body && body[r].Str? {
      assert IsStr(Obj(r), body') == IsStr(Obj(r), body);
    }
    StrKeysNext(node, n, body, Marked(c1), Marked(c2));
    if !(hasclears || cleared) { KeysNext(node, n, Marked(c1), Marked(c2)); }
    if !(hasww || ww) { ValsNext(node, n, Marked(c1), Marked(c2)); }
    if !(marked || m) { PairsNext(node, n, body, Marked(c1), Marked(c2)); }
  }

  /** A scan of all entries tells which list the table belongs in. */
  lemma ScannedSettled(b0: Body, b: Body, body0: map<Ref, Body>, body: map<Ref, Body>, c0: map<Ref, Color>, c: map<Ref, Color>,
                       hasclears: bool, hasww: bool, marked: bool)
    requires b0.Table? && b0.mode.Ephemeron? && SameContents(b0, b)
    requires Scanned(b0.node, |b0.node|, body0, c0, c, hasclears, hasww, marked)
    requires forall v :: IsStr(v, body) == IsStr(v, body0)
    requires In(b0.meta, Marked(c)) && AllIn(b0.arr, Marked(c)) && b.Table? && Scrubbed(b.node, body.Keys, Marked(c))
    ensures Settled(b, body, Marked(c), false, hasww, !hasww && hasclears)
    ensures Whites(c) <= Whites(c0) && (marked ==> Whites(c) < Whites(c0))
    ensures !marked ==> OnlyStrings(body0, c0, c) && EphemeronIn(b.node, Marked(c))
  {
  }

  // ----- gray objects inside the atomic step -----

  /** `l'` is `l`, with `o` linked in front if `linked`. */
  ghost predicate Linked(l: seq<Ref>, l': seq<Ref>, o: Ref, linked: bool) {
    l' == if linked then [o] + l else l
  }

  /** The lists a visited object may be linked into. */
  datatype Lists = Lists(again: seq<Ref>, weak: seq<Ref>, ephemeron: seq<Ref>, all: seq<Ref>)

  ghost predicate Joined(l: seq<Ref>, l': seq<Ref>) {
    |l'| > |l|
  }

  /** A body the collector may have lightened while visiting its object: empty
      entries got dead keys, or an unmarked closure cache was dropped. */
  ghost predicate Lighter(b: Body, b': Body) {
    SameContents(b, b') || (b.Proto? && b' == b.(cache := Nil))
  }

  /** How a visit leaves an object: black, or gray and in the list its kind asks for. */
  ghost predicate Visited(b: Body, body: map<Ref, Body>, s: set<Ref>, k: Color, propagating: bool,
                          inAgain: bool, inWeak: bool, inEph: bool, inAll: bool)
  {
    if k.Black? then
      && !b.Thread? && (b.Table? ==> b.mode.Strong? && Scrubbed(b.node, body.Keys, s))
      && !inAgain && !inWeak && !inEph && !inAll
    else
      && k.Gray?
      && (if b.Thread? then AllIn(b.stack, s) && inAgain && !inWeak && !inEph && !inAll
          else if propagating then
            b.Table? && !b.mode.Strong? && !inWeak && !inEph
            && inAll == b.mode.AllWeak? && inAgain == !b.mode.AllWeak? && In(b.meta, s)
          else
            Settled(b, body, s, inWeak, inEph, inAll) && !inAgain
            && (b.Table? ==> (inWeak ==> b.mode.WeakValues?) && (inEph ==> b.mode.Ephemeron?)
                             && (inAll ==> b.mode.AllWeak? || b.mode.Ephemeron?))
            && (!b.Table? ==> !inWeak && !inEph && !inAll)
            && !(inWeak && inEph) && !(inWeak && inAll) && !(inEph && inAll))
  }

  /** Visiting `o` linked it into the lists its visit calls for, and nothing else. */
  ghost predicate Outcome(o: Ref, body: map<Ref, Body>, color: map<Ref, Color>, propagating: bool, l: Lists, l': Lists) {
    && o in body && o in color
    && Linked(l.again, l'.again, o, Joined(l.again, l'.again))
    && Linked(l.weak, l'.weak, o, Joined(l.weak, l'.weak))
    && Linked(l.ephemeron, l'.ephemeron, o, Joined(l.ephemeron, l'.ephemeron))
    && Linked(l.all, l'.all, o, Joined(l.all, l'.all))
    && Visited(body[o], body, Marked(color), color[o], propagating, Joined(l.again, l'.again),
               Joined(l.weak, l'.weak), Joined(l.ephemeron, l'.ephemeron), Joined(l.all, l'.all))
  }

  /** Forgetting a closure cache loses nothing the collector relies on. */
  lemma DropCacheMarking(body: map<Ref, Body>, up: map<Cell, Value>, color: map<Ref, Color>, o: Ref,
                         x: set<Ref>, skip: set<Ref>, e: set<Ref>)
    requires Marking(body, up, color, x, skip, e) && o in body && body[o].Proto?
    ensures Marking(body[o := body[o].(cache := Nil)], up, color, x, skip, e)
  {
    var body' := body[o := body[o].(cache := Nil)];
    assert body'.Keys == body.Keys;
    forall r | r in x && r in body' ensures StrongIn(Unparked(body'[r], r in skip), Heap(body', up), x) {
      assert StrongIn(Unparked(body[r], r in skip), Heap(body, up), x);
      assert forall v :: IsStr(v, body') == IsStr(v, body);
    }
  }
}
