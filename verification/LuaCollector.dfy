/** The collector itself: its lists, colours and phases as fields, its functions as
    methods, and the steps of the program that run between its steps. */
module LuaCollector {
  import opened LuaHeap
  import opened LuaGcState
  import opened LuaAtomic
  import opened LuaClear
  import opened LuaMutator
  import opened LuaBarrier
  import opened LuaCycle
  import opened LuaEmpties
  import opened LuaRun
  import opened LuaFullCycle

  class Collector {
    var body: map<Ref, Body>
    var up: map<Cell, Value>
    var color: map<Ref, Color>
    var gray: seq<Ref>
    var grayagain: seq<Ref>
    var weak: seq<Ref>
    var ephemeron: seq<Ref>
    var allweak: seq<Ref>
    var allgc: seq<Ref>
    var cursor: Cursor
    var phase: Phase
    var white: bool
    var mainthread: Ref
    var registry: Value
    var mt: seq<Value>
    var running: Ref

    /** reallymarkobject */
    method ReallyMark(o: Ref, ghost x: set<Ref>, ghost skip: set<Ref>, ghost e: set<Ref>)
      requires Marking(body, up, color, x, skip, e)
      requires o in color && color[o].White? && o in x
      modifies this`color, this`gray
      ensures Marking(body, up, color, x, skip, e)
      ensures MarksMore(body, old(color), old(gray), color, gray)
      ensures Marked(old(color)) + {o} <= Marked(color) && Whites(color) < Whites(old(color))
      ensures body[o].Str? ==> color == old(color)[o := Black] && gray == old(gray)
      decreases Whites(color), 0
    {
      hide Marking, MarksMore;
      MarkingFacts(body, up, color, o, x, skip, e);
      Paint(body, up, color, o, Gray, x, skip, e);
      color := color[o := Gray];
      match body[o] {
        case Str(_) =>
          Paint(body, up, color, o, Black, x, skip, e);
          color := color[o := Black];
          assert color == old(color)[o := Black];
          MarksBlack(body, o, old(color), gray);
        case Udata(meta, user) =>
          MarkUserdata(o, meta, user, old(color), x, skip, e);
        case LClosure(_, _) | CClosure(_) | Table(_, _, _, _) | Thread(_) | Proto(_, _) =>
          MarksLink(body, o, old(color), gray);
          gray := [o] + gray;
      }
    }

    /** The userdata case: metatable, then the object itself, then its user value. */
    method MarkUserdata(o: Ref, meta: Value, user: Value, ghost c0: map<Ref, Color>,
                        ghost x: set<Ref>, ghost skip: set<Ref>, ghost e: set<Ref>)
      requires Marking(body, up, color, x, skip, e)
      requires o in c0 && c0[o].White? && color == c0[o := Gray] && o in x && o in body && body[o] == Udata(meta, user)
      modifies this`color, this`gray
      ensures Marking(body, up, color, x, skip, e)
      ensures MarksMore(body, c0, old(gray), color, gray)
      ensures color[o].Black?
      ensures Marked(c0) + {o} <= Marked(color) && Whites(color) < Whites(c0)
      decreases Whites(color), 2
    {
      hide Marking, MarksMore;
      MarkingFacts(body, up, color, o, x, skip, e);
      MarkValue(meta, x, skip, e);
      MarkingWeaken(body, up, color, o, x, skip, e);
      ghost var c1, g1 := color, gray;
      MarksMoreGrows(body, c0[o := Gray], old(gray), color, gray);
      MarkingFacts(body, up, color, o, x, skip, e);
      Paint(body, up, color, o, Black, x, skip, e + {o});
      color := color[o := Black];
      MarkValue(user, x, skip, e + {o});
      MarksUserdata(body, o, c0, old(gray), c1, g1, color, gray);
      MarksMoreGrows(body, c1[o := Black], g1, color, gray);
      Unexcept(body, up, color, o, x, skip, e);
    }

    /** markvalue, markobject and markobjectN */
    method MarkValue(v: Value, ghost x: set<Ref>, ghost skip: set<Ref>, ghost e: set<Ref>)
      requires Marking(body, up, color, x, skip, e)
      requires In(v, body.Keys) && In(v, x)
      modifies this`color, this`gray
      ensures Marking(body, up, color, x, skip, e)
      ensures MarksMore(body, old(color), old(gray), color, gray)
      ensures In(v, Marked(color)) && Marked(old(color)) <= Marked(color)
      ensures !In(v, Marked(old(color))) ==> Whites(color) < Whites(old(color))
      ensures In(v, Marked(old(color))) ==> color == old(color) && gray == old(gray)
      ensures IsStr(v, body) ==> color == old(color)[v.ref := color[v.ref]] && gray == old(gray)
      decreases Whites(color), 1
    {
      hide Marking, MarksMore;
      MarkingFacts(body, up, color, 0, x, skip, e);
      MarksMoreRefl(body, color, gray);
      if v.Obj? && color[v.ref].White? {
        ReallyMark(v.ref, x, skip, e);
      }
    }

    /** The loops that mark an array of values: stacks, array parts, upvalues, constants. */
    method MarkValues(vs: seq<Value>, ghost x: set<Ref>, ghost skip: set<Ref>, ghost e: set<Ref>)
      requires Marking(body, up, color, x, skip, e)
      requires AllIn(vs, body.Keys) && AllIn(vs, x)
      modifies this`color, this`gray
      ensures Marking(body, up, color, x, skip, e)
      ensures MarksMore(body, old(color), old(gray), color, gray)
      ensures AllIn(vs, Marked(color)) && Marked(old(color)) <= Marked(color)
    {
      hide Marking, MarksMore;
      MarksMoreRefl(body, color, gray);
      for i := 0 to |vs|
        invariant Marking(body, up, color, x, skip, e)
        invariant MarksMore(body, old(color), old(gray), color, gray)
        invariant AllIn(vs[..i], Marked(color)) && Marked(old(color)) <= Marked(color)
      {
        ghost var c1, g1 := color, gray;
        MarkValue(vs[i], x, skip, e);
        assert vs[..i+1] == vs[..i] + [vs[i]];
        MarksMoreTrans(body, body, old(color), old(gray), c1, g1, color, gray);
      }
    }

    /** removeentry: an empty entry with an unmarked key gets a dead key. When the
        key has been freed already, what reading its mark yields is left open: the
        key stays or dies. */
    method RemoveEntry(h: Ref, i: nat, ghost x: set<Ref>, ghost skip: set<Ref>, ghost e: set<Ref>)
      requires Marking(body, up, color, x, skip, e)
      requires h in body && body[h].Table? && i < |body[h].node| && body[h].node[i].val == Nil
      modifies this`body
      ensures Marking(body, up, color, x, skip, e)
      ensures h in body && body == old(body)[h := body[h]] && body[h].Table? && |body[h].node| == |old(body[h].node)|
      ensures body[h] == old(body[h]).(node := old(body[h].node)[i := body[h].node[i]])
      ensures body[h].node[i] == old(body[h].node[i]) || body[h].node[i] == Entry(DeadKey, Nil)
      ensures var k := old(body[h].node)[i].key;
        k.Obj? && k.ref in color ==> body[h].node[i].key == if color[k.ref].White? then DeadKey else k
      ensures In(old(body[h].node)[i].key, body.Keys) ==> In(body[h].node[i].key, Marked(color))
      ensures !old(body[h]).mode.AllWeak? ==> SameContents(old(body)[h], body[h])
    {
      hide Marking;
      MarkingFacts(body, up, color, h, x, skip, e);
      var k := body[h].node[i].key;
      var unmarked := *;
      if k.Obj? && k.ref in color { unmarked := color[k.ref].White?; }
      if k.Obj? && unmarked {
        var b := body[h].(node := body[h].node[i := Entry(DeadKey, Nil)]);
        ReduceMarking(body, up, color, h, b, x, skip, e);
        body := body[h := b];
      }
    }

    /** The key and the value of an occupied entry of a strong table. */
    method MarkEntry(h: Ref, i: nat, ghost body0: map<Ref, Body>, ghost c0: map<Ref, Color>, ghost g0: seq<Ref>,
                     ghost x: set<Ref>, ghost skip: set<Ref>, ghost e: set<Ref>)
      requires Marking(body, up, color, x, skip, e)
      requires Traversing(h, body0, c0, g0, body, color, gray)
      requires h in body && body[h].Table? && i < |body[h].node| && body[h].node[i].val != Nil
      requires In(body[h].node[i].key, x) && In(body[h].node[i].val, x)
      modifies this`color, this`gray
      ensures Marking(body, up, color, x, skip, e)
      ensures Traversing(h, body0, c0, g0, body, color, gray)
      ensures Marked(old(color)) <= Marked(color)
      ensures In(body[h].node[i].key, Marked(color)) && In(body[h].node[i].val, Marked(color))
    {
      hide Marking, Traversing, MarksMore;
      MarkingFacts(body, up, color, h, x, skip, e);
      MarkValue(body[h].node[i].key, x, skip, e);
      TraversingMark(h, body0, c0, g0, body, old(color), old(gray), color, gray);
      ghost var c1, g1 := color, gray;
      MarkValue(body[h].node[i].val, x, skip, e);
      TraversingMark(h, body0, c0, g0, body, c1, g1, color, gray);
    }

    /** traversestrongtable */
    method TraverseStrong(h: Ref, ghost x: set<Ref>, ghost skip: set<Ref>, ghost e: set<Ref>)
      requires Marking(body, up, color, x, skip, e)
      requires h in body && body[h].Table? && body[h].mode.Strong? && h in x && h !in skip
      requires In(body[h].meta, Marked(color))
      modifies this`color, this`gray, this`body
      ensures Marking(body, up, color, x, skip, e)
      ensures Traversing(h, old(body), old(color), old(gray), body, color, gray)
      ensures h in body && HeldIn(body[h], up, Marked(color))
      ensures body[h].Table? && Scrubbed(body[h].node, body.Keys, Marked(color))
    {
      hide Marking, Traversing, MarksMore, SameContents;
      MarkingFacts(body, up, color, h, x, skip, e);
      TraversingStart(h, body, color, gray);
      ghost var b0 := body[h];
      MarkValues(body[h].arr, x, skip, e);
      TraversingMark(h, old(body), old(color), old(gray), body, old(color), old(gray), color, gray);
      ghost var s := Marked(color);
      TraversingFacts(h, old(body), old(color), old(gray), body, color, gray);
      for i := 0 to |body[h].node|
        invariant Marking(body, up, color, x, skip, e)
        invariant Traversing(h, old(body), old(color), old(gray), body, color, gray)
        invariant s <= Marked(color)
        invariant Keys(b0.node, i, Marked(color)) && Vals(b0.node, i, Marked(color))
        invariant h in body && body[h].Table? && |body[h].node| == |b0.node| && ScrubbedTo(body[h].node, i, body.Keys, Marked(color))
      {
        TraversingFacts(h, old(body), old(color), old(gray), body, color, gray);
        ghost var s0 := Marked(color);
        if body[h].node[i].val == Nil {
          ghost var body1 := body;
          RemoveEntry(h, i, x, skip, e);
          TraversingScrub(h, old(body), old(color), old(gray), body1, body, color, gray);
        } else {
          MarkEntry(h, i, old(body), old(color), old(gray), x, skip, e);
        }
        KeysNext(b0.node, i, s0, Marked(color));
        ValsNext(b0.node, i, s0, Marked(color));
      }
      TraversingFacts(h, old(body), old(color), old(gray), body, color, gray);
      assert HeldIn(b0, up, Marked(color));
      SameContentsHeld(b0, body[h], up, Marked(color));
    }
  
    /** iscleared: strings count as values, so they are marked rather than cleared. */
    method IsCleared(v: Value, ghost x: set<Ref>, ghost skip: set<Ref>, ghost e: set<Ref>) returns (r: bool)
      requires Marking(body, up, color, x, skip, e)
      requires In(v, body.Keys) && (IsStr(v, body) ==> In(v, x))
      modifies this`color, this`gray
      ensures Marking(body, up, color, x, skip, e)
      ensures MarksMore(body, old(color), old(gray), color, gray) && Marked(old(color)) <= Marked(color)
      ensures OnlyStrings(body, old(color), color) && gray == old(gray)
      ensures r <==> !In(v, Marked(color))
      ensures IsStr(v, body) ==> !r
    {
      hide Marking, MarksMore;
      MarkingFacts(body, up, color, 0, x, skip, e);
      MarksMoreRefl(body, color, gray);
      if !v.Obj? {
        r := false;
      } else if body[v.ref].Str? {
        MarkValue(v, x, skip, e);
        r := false;
      } else {
        r := color[v.ref].White?;
      }
    }

    /** traverseweakvalue */
    method TraverseWeakValue(h: Ref, ghost x: set<Ref>, ghost skip: set<Ref>, ghost e: set<Ref>)
      requires Marking(body, up, color, x, skip, e)
      requires h in body && body[h].Table? && body[h].mode.WeakValues? && h in x && h !in skip
      requires In(body[h].meta, Marked(color))
      modifies this`color, this`gray, this`body, this`grayagain, this`weak
      ensures Marking(body, up, color, x, skip, e)
      ensures Traversing(h, old(body), old(color), old(gray), body, color, gray)
      ensures h in body && body[h].Table? && Scrubbed(body[h].node, body.Keys, Marked(color))
      ensures phase.Propagate? ==> grayagain == [h] + old(grayagain) && weak == old(weak)
      ensures !phase.Propagate? ==>
        && grayagain == old(grayagain) && h in body
        && (exists w :: Linked(old(weak), weak, h, w) && Settled(body[h], body, Marked(color), w, false, false))
    {
      hide Marking, Traversing, MarksMore, SameContents, OnlyStrings;
      MarkingFacts(body, up, color, h, x, skip, e);
      TraversingStart(h, body, color, gray);
      ghost var b0 := body[h];
      var hasclears := |body[h].arr| > 0;
      TraversingFacts(h, old(body), old(color), old(gray), body, color, gray);
      for i := 0 to |body[h].node|
        invariant Marking(body, up, color, x, skip, e)
        invariant Traversing(h, old(body), old(color), old(gray), body, color, gray)
        invariant Keys(b0.node, i, Marked(color))
        invariant h in body && body[h].Table? && |body[h].node| == |b0.node| && ScrubbedTo(body[h].node, i, body.Keys, Marked(color))
        invariant grayagain == old(grayagain) && weak == old(weak)
        invariant hasclears || (|b0.arr| == 0 && Vals(b0.node, i, Marked(color)))
      {
        TraversingFacts(h, old(body), old(color), old(gray), body, color, gray);
        MarkingFacts(body, up, color, h, x, skip, e);
        ghost var s0 := Marked(color);
        if body[h].node[i].val == Nil {
          ghost var body1 := body;
          RemoveEntry(h, i, x, skip, e);
          TraversingScrub(h, old(body), old(color), old(gray), body1, body, color, gray);
        } else {
          ghost var c1, g1 := color, gray;
          MarkValue(body[h].node[i].key, x, skip, e);
          TraversingMark(h, old(body), old(color), old(gray), body, c1, g1, color, gray);
          if !hasclears {
            c1, g1 := color, gray;
            hasclears := IsCleared(body[h].node[i].val, x, skip, e);
            TraversingMark(h, old(body), old(color), old(gray), body, c1, g1, color, gray);
          }
        }
        KeysNext(b0.node, i, s0, Marked(color));
        if !hasclears { ValsNext(b0.node, i, s0, Marked(color)); }
      }
      TraversingFacts(h, old(body), old(color), old(gray), body, color, gray);
      if phase == Propagate {
        grayagain := [h] + grayagain;
      } else if hasclears {
        weak := [h] + weak;
        assert Linked(old(weak), weak, h, true);
      } else {
        assert Linked(old(weak), weak, h, false);
      }
    }
  
    /** One occupied entry of an ephemeron table: an unmarked key leaves the entry
        for later, a marked key (or one that is a string) gets its value marked. */
    method VisitEphemeronEntry(h: Ref, i: nat, ghost body0: map<Ref, Body>, ghost c0: map<Ref, Color>, ghost g0: seq<Ref>,
                               ghost x: set<Ref>, ghost skip: set<Ref>, ghost e: set<Ref>)
      returns (cleared: bool, ww: bool, marked: bool)
      requires Marking(body, up, color, x, skip, e)
      requires Traversing(h, body0, c0, g0, body, color, gray)
      requires h in body && h in x && h !in skip && body[h].Table? && body[h].mode.Ephemeron?
      requires i < |body[h].node| && body[h].node[i].val != Nil
      modifies this`color, this`gray
      ensures Marking(body, up, color, x, skip, e)
      ensures Traversing(h, body0, c0, g0, body, color, gray)
      ensures Marked(old(color)) <= Marked(color) && Whites(color) <= Whites(old(color))
      ensures IsStr(body[h].node[i].key, body) ==> In(body[h].node[i].key, Marked(color))
      ensures ww || In(body[h].node[i].val, Marked(color))
      ensures cleared || In(body[h].node[i].key, Marked(color))
      ensures marked ==> Whites(color) < Whites(old(color))
      ensures !marked ==> OnlyStrings(body, old(color), color) && gray == old(gray)
      ensures !marked && In(body[h].node[i].key, Marked(color)) ==> In(body[h].node[i].val, Marked(color))
    {
      hide Marking, Traversing, MarksMore;
      ww, marked := false, false;
      MarkingFacts(body, up, color, h, x, skip, e);
      cleared := IsCleared(body[h].node[i].key, x, skip, e);
      TraversingMark(h, body0, c0, g0, body, old(color), old(gray), color, gray);
      MarksMoreGrows(body, old(color), old(gray), color, gray);
      MarkingFacts(body, up, color, h, x, skip, e);
      var v := body[h].node[i].val;
      if cleared {
        if v.Obj? && color[v.ref].White? { ww := true; }
      } else if v.Obj? && color[v.ref].White? {
        marked := true;
        ghost var c1, g1 := color, gray;
        ReallyMark(v.ref, x, skip, e);
        TraversingMark(h, body0, c0, g0, body, c1, g1, color, gray);
      }
    }

    /** The array part of an ephemeron table is strong. */
    method MarkEphemeronArray(h: Ref, ghost x: set<Ref>, ghost skip: set<Ref>, ghost e: set<Ref>) returns (marked: bool)
      requires Marking(body, up, color, x, skip, e)
      requires h in body && body[h].Table? && AllIn(body[h].arr, x)
      modifies this`color, this`gray
      ensures Marking(body, up, color, x, skip, e)
      ensures MarksMore(body, old(color), old(gray), color, gray)
      ensures AllIn(body[h].arr, Marked(color))
      ensures marked ==> Whites(color) < Whites(old(color))
      ensures !marked ==> color == old(color) && gray == old(gray)
    {
      hide Marking, MarksMore;
      MarkingFacts(body, up, color, h, x, skip, e);
      MarksMoreRefl(body, color, gray);
      marked := false;
      for i := 0 to |body[h].arr|
        invariant Marking(body, up, color, x, skip, e)
        invariant MarksMore(body, old(color), old(gray), color, gray)
        invariant forall j :: 0 <= j < i ==> In(body[h].arr[j], Marked(color))
        invariant marked ==> Whites(color) < Whites(old(color))
        invariant !marked ==> color == old(color) && gray == old(gray)
      {
        var v := body[h].arr[i];
        MarkingFacts(body, up, color, h, x, skip, e);
        if v.Obj? && color[v.ref].White? {
          marked := true;
          ghost var c1, g1 := color, gray;
          ReallyMark(v.ref, x, skip, e);
          MarksMoreTrans(body, body, old(color), old(gray), c1, g1, color, gray);
        }
      }
    }

    /** The hash part of an ephemeron table. `marked` already tells whether the
        array part marked anything since `c0`. */
    method ScanEphemeron(h: Ref, started: bool, ghost c0: map<Ref, Color>, ghost g0: seq<Ref>,
                         ghost x: set<Ref>, ghost skip: set<Ref>, ghost e: set<Ref>)
      returns (hasclears: bool, hasww: bool, marked: bool)
      requires Marking(body, up, color, x, skip, e)
      requires h in body && body[h].Table? && body[h].mode.Ephemeron? && h in x && h !in skip
      requires MarksMore(body, c0, g0, color, gray)
      requires if started then Whites(color) < Whites(c0) else color == c0 && gray == g0
      modifies this`color, this`gray, this`body
      ensures Marking(body, up, color, x, skip, e)
      ensures Traversing(h, old(body), c0, g0, body, color, gray)
      ensures h in old(body) && old(body)[h].Table?
      ensures Scanned(old(body)[h].node, |old(body)[h].node|, old(body), c0, color, hasclears, hasww, marked)
      ensures Marked(old(color)) <= Marked(color)
      ensures h in body && body[h].Table? && Scrubbed(body[h].node, body.Keys, Marked(color))
      ensures !marked ==> gray == g0
    {
      hide Marking, Traversing, MarksMore, Scanned, SameContents;
      MarkingFacts(body, up, color, h, x, skip, e);
      ghost var node, body0 := body[h].node, body;
      hasclears, hasww, marked := false, false, started;
      TraversingStart(h, body, c0, g0);
      TraversingMark(h, body, c0, g0, body, c0, g0, color, gray);
      ScannedStart(node, body, c0, color, marked);
      ghost var s := Marked(color);
      for i := 0 to |body[h].node|
        invariant Marking(body, up, color, x, skip, e)
        invariant Traversing(h, body0, c0, g0, body, color, gray)
        invariant Scanned(node, i, body0, c0, color, hasclears, hasww, marked)
        invariant s <= Marked(color)
        invariant h in body && body[h].Table? && |body[h].node| == |node| && ScrubbedTo(body[h].node, i, body.Keys, Marked(color))
        invariant !marked ==> gray == g0
      {
        TraversingFacts(h, body0, c0, g0, body, color, gray);
        MarkingFacts(body, up, color, h, x, skip, e);
        ghost var c1 := color;
        var cleared, ww, m := false, false, false;
        if body[h].node[i].val == Nil {
          ghost var body1 := body;
          RemoveEntry(h, i, x, skip, e);
          TraversingScrub(h, body0, c0, g0, body1, body, color, gray);
          TraversingFacts(h, body0, c0, g0, body, color, gray);
        } else {
          cleared, ww, m := VisitEphemeronEntry(h, i, body0, c0, g0, x, skip, e);
        }
        MarkingFacts(body, up, color, h, x, skip, e);
        ScannedNext(node, i, body0, body, c0, c1, color, hasclears, hasww, marked, cleared, ww, m);
        hasclears, hasww, marked := hasclears || cleared, hasww || ww, marked || m;
      }
      TraversingFacts(h, body0, c0, g0, body, color, gray);
    }

    /** traverseephemeron */
    method TraverseEphemeron(h: Ref, ghost x: set<Ref>, ghost skip: set<Ref>, ghost e: set<Ref>) returns (marked: bool)
      requires Marking(body, up, color, x, skip, e)
      requires h in body && body[h].Table? && body[h].mode.Ephemeron? && h in x && h !in skip
      requires In(body[h].meta, Marked(color))
      modifies this`color, this`gray, this`body, this`grayagain, this`ephemeron, this`allweak
      ensures Marking(body, up, color, x, skip, e)
      ensures Traversing(h, old(body), old(color), old(gray), body, color, gray)
      ensures phase.Propagate? ==> grayagain == [h] + old(grayagain) && ephemeron == old(ephemeron) && allweak == old(allweak)
      ensures !phase.Propagate? ==>
        && grayagain == old(grayagain) && h in body
        && exists ww, w :: !(ww && w) && Linked(old(ephemeron), ephemeron, h, ww) && Linked(old(allweak), allweak, h, w)
                           && Settled(body[h], body, Marked(color), false, ww, w)
      ensures Whites(color) <= Whites(old(color)) && (marked ==> Whites(color) < Whites(old(color)))
      ensures !marked ==> OnlyStrings(old(body), old(color), color) && gray == old(gray)
      ensures !marked ==> h in body && body[h].Table? && EphemeronIn(body[h].node, Marked(color))
    {
      hide Marking, Traversing, MarksMore, Scanned, Settled, OnlyStrings;
      MarkingFacts(body, up, color, h, x, skip, e);
      ghost var body0 := body;
      marked := MarkEphemeronArray(h, x, skip, e);
      var hasclears, hasww;
      hasclears, hasww, marked := ScanEphemeron(h, marked, old(color), old(gray), x, skip, e);
      TraversingFacts(h, body0, old(color), old(gray), body, color, gray);
      ScannedSettled(body0[h], body[h], body0, body, old(color), color, hasclears, hasww, marked);
      if phase == Propagate {
        grayagain := [h] + grayagain;
      } else if hasww {
        ephemeron := [h] + ephemeron;
        assert Linked(old(ephemeron), ephemeron, h, true) && Linked(old(allweak), allweak, h, false);
      } else if hasclears {
        allweak := [h] + allweak;
        assert Linked(old(ephemeron), ephemeron, h, false) && Linked(old(allweak), allweak, h, true);
      } else {
        assert Linked(old(ephemeron), ephemeron, h, false) && Linked(old(allweak), allweak, h, false);
      }
    }
  
    function ListsNow(): Lists
      reads this`grayagain, this`weak, this`ephemeron, this`allweak
    {
      Lists(grayagain, weak, ephemeron, allweak)
    }

    /** traversetable, for a table just turned black */
    method TraverseTable(h: Ref, ghost x: set<Ref>, ghost skip: set<Ref>, ghost e: set<Ref>)
      requires Marking(body, up, color, x, skip, e)
      requires h in e && h in x && h !in skip && h in body && body[h].Table? && h in color && color[h].Black?
      modifies this`color, this`gray, this`body, this`grayagain, this`weak, this`ephemeron, this`allweak
      ensures Marking(body, up, color, x, skip, e)
      ensures h in color && Traversing(h, old(body), old(color)[h := color[h]], old(gray), body, color, gray)
      ensures Outcome(h, body, color, phase.Propagate?, old(ListsNow()), ListsNow())
      ensures h in body && color[h].Black? ==> HeldIn(body[h], up, Marked(color))
    {
      hide Marking, Traversing, MarksMore, Settled, HeldIn;
      MarkTableMeta(h, x, skip, e);
      if body[h].mode.Strong? {
        ghost var c1, g1 := color, gray;
        TraverseStrong(h, x, skip, e);
        TraversingFacts(h, old(body), c1, g1, body, color, gray);
        MarksMoreKeeps(old(body), c1, g1, color, gray, h);
        TraversingAfterMark(h, old(body), old(color), old(gray), c1, g1, body, color, gray);
        assert old(color)[h := color[h]] == old(color);
      } else {
        ghost var c1, g1 := color, gray;
        KeepGray(h, x, skip, e);
        TraversingFacts(h, old(body), c1[h := Gray], g1, body, color, gray);
        MarksRecolor(old(body), h, Gray, old(color), old(gray), c1, g1);
        TraversingAfterMark(h, old(body), old(color)[h := Gray], old(gray), c1[h := Gray], g1, body, color, gray);
      }
    }

    /** The weak modes: the table stays gray and is linked where its mode says. */
    method KeepGray(h: Ref, ghost x: set<Ref>, ghost skip: set<Ref>, ghost e: set<Ref>)
      requires Marking(body, up, color, x, skip, e)
      requires h in x && h !in skip && h in body && body[h].Table? && !body[h].mode.Strong?
      requires h in color && color[h].Black? && In(body[h].meta, Marked(color))
      modifies this`color, this`gray, this`body, this`grayagain, this`weak, this`ephemeron, this`allweak
      ensures Marking(body, up, color, x, skip, e)
      ensures h in color && color[h].Gray?
      ensures Traversing(h, old(body), old(color)[h := Gray], old(gray), body, color, gray)
      ensures Outcome(h, body, color, phase.Propagate?, old(ListsNow()), ListsNow())
    {
      hide Marking, Traversing, MarksMore;
      Paint(body, up, color, h, Gray, x, skip, e);
      color := color[h := Gray];
      ghost var c1, l := color, ListsNow();
      assert l == old(ListsNow());
      TraversingStart(h, body, color, gray);
      if body[h].mode.WeakValues? {
        TraverseWeakValue(h, x, skip, e);
      } else if body[h].mode.Ephemeron? {
        var _ := TraverseEphemeron(h, x, skip, e);
      } else {
        allweak := [h] + allweak;
      }
      TraversingFacts(h, old(body), c1, old(gray), body, color, gray);
      MarksMoreKeeps(old(body), c1, old(gray), color, gray, h);
    }

    method MarkTableMeta(h: Ref, ghost x: set<Ref>, ghost skip: set<Ref>, ghost e: set<Ref>)
      requires Marking(body, up, color, x, skip, e)
      requires h in x && h !in skip && h in body && body[h].Table? && h in color && color[h].Black?
      modifies this`color, this`gray
      ensures Marking(body, up, color, x, skip, e)
      ensures MarksMore(body, old(color), old(gray), color, gray)
      ensures In(body[h].meta, Marked(color)) && h in color && color[h].Black?
    {
      hide Marking, MarksMore;
      MarkingFacts(body, up, color, h, x, skip, e);
      MarkValue(body[h].meta, x, skip, e);
      MarksMoreKeeps(body, old(color), old(gray), color, gray, h);
    }
  
    /** The upvalues of a Lua closure. */
    method MarkCells(cells: seq<Cell>, ghost x: set<Ref>, ghost skip: set<Ref>, ghost e: set<Ref>)
      requires Marking(body, up, color, x, skip, e)
      requires forall i :: 0 <= i < |cells| ==> cells[i] in up && In(up[cells[i]], body.Keys) && In(up[cells[i]], x)
      modifies this`color, this`gray
      ensures Marking(body, up, color, x, skip, e)
      ensures MarksMore(body, old(color), old(gray), color, gray) && Marked(old(color)) <= Marked(color)
      ensures forall i :: 0 <= i < |cells| ==> In(up[cells[i]], Marked(color))
    {
      hide Marking, MarksMore;
      MarksMoreRefl(body, color, gray);
      for i := 0 to |cells|
        invariant Marking(body, up, color, x, skip, e)
        invariant MarksMore(body, old(color), old(gray), color, gray) && Marked(old(color)) <= Marked(color)
        invariant forall j :: 0 <= j < i ==> In(up[cells[j]], Marked(color))
      {
        ghost var c1, g1 := color, gray;
        MarkValue(up[cells[i]], x, skip, e);
        MarksMoreTrans(body, body, old(color), old(gray), c1, g1, color, gray);
      }
    }

    /** traverseLclosure, traverseCclosure, traverseproto: the references of an
        object just turned black. */
    method TraversePlain(o: Ref, ghost x: set<Ref>, ghost skip: set<Ref>, ghost e: set<Ref>)
      requires Marking(body, up, color, x, skip, e)
      requires o in e && o in x && o in body && (body[o].LClosure? || body[o].CClosure? || body[o].Proto?)
      modifies this`color, this`gray, this`body
      ensures Marking(body, up, color, x, skip, e)
      ensures o in body && body == old(body)[o := body[o]] && Lighter(old(body)[o], body[o])
      ensures MarksMore(old(body), old(color), old(gray), color, gray) && Marked(old(color)) <= Marked(color)
      ensures HeldIn(body[o], up, Marked(color))
    {
      hide Marking, MarksMore;
      MarkingFacts(body, up, color, o, x, skip, e);
      match body[o] {
        case LClosure(proto, cells) =>
          MarkValue(proto, x, skip, e);
          ghost var c1, g1 := color, gray;
          MarkCells(cells, x, skip, e);
          MarksMoreTrans(body, body, old(color), old(gray), c1, g1, color, gray);
        case CClosure(vs) =>
          MarkValues(vs, x, skip, e);
        case Proto(vs, cache) =>
          if cache.Obj? && color[cache.ref].White? {
            DropCacheMarking(body, up, color, o, x, skip, e);
            body := body[o := body[o].(cache := Nil)];
          }
          MarkValues(vs, x, skip, e);
          MarksMoreRefl(old(body), old(color), old(gray));
          MarksMoreTrans(old(body), body, old(color), old(gray), old(color), old(gray), color, gray);
      }
    }
  
    /** traversethread: the live part of the stack; the thread stays gray and goes
        to `grayagain`. */
    method TraverseThread(o: Ref, ghost x: set<Ref>, ghost skip: set<Ref>, ghost e: set<Ref>)
      requires Marking(body, up, color, x, skip, e)
      requires o in x && o in body && body[o].Thread? && o in color && color[o].Black?
      modifies this`color, this`gray, this`grayagain
      ensures Marking(body, up, color, x, skip, e)
      ensures o in color && color[o].Gray?
      ensures MarksMore(body, old(color)[o := Gray], old(gray), color, gray)
      ensures Outcome(o, body, color, phase.Propagate?, old(ListsNow()), ListsNow())
    {
      hide Marking, MarksMore;
      MarkingFacts(body, up, color, o, x, skip, e);
      grayagain := [o] + grayagain;
      Paint(body, up, color, o, Gray, x, skip, e);
      color := color[o := Gray];
      MarkValues(body[o].stack, x, skip, e);
      MarksMoreKeeps(body, old(color)[o := Gray], old(gray), color, gray, o);
    }

    /** propagatemark */
    method PropagateMark(ghost x: set<Ref>, ghost skip: set<Ref>)
      requires Marking(body, up, color, x, skip, {})
      requires gray != [] && gray[0] in body && gray[0] !in skip && !Leaf(body[gray[0]])
      requires gray[0] in color && color[gray[0]].Gray?
      modifies this`color, this`gray, this`body, this`grayagain, this`weak, this`ephemeron, this`allweak
      ensures Marking(body, up, color, x, skip, {})
      ensures var o := old(gray[0]);
        && o in body && o in color && body == old(body)[o := body[o]] && Lighter(old(body)[o], body[o])
        && MarksMore(old(body), old(color)[o := color[o]], old(gray)[1..], color, gray)
        && Outcome(o, body, color, phase.Propagate?, old(ListsNow()), ListsNow())
    {
      hide Marking, MarksMore;
      var o := gray[0];
      MarkingFacts(body, up, color, o, x, skip, {});
      MarkingWeaken(body, up, color, o, x, skip, {});
      Paint(body, up, color, o, Black, x, skip, {} + {o});
      color := color[o := Black];
      gray := gray[1..];
      ghost var c1, g1 := color, gray;
      assert c1[o := Gray] == old(color)[o := Gray] && c1[o := Black] == old(color)[o := Black];
      if body[o].Table? {
        TraverseTable(o, x, skip, {} + {o});
        TraversingFacts(o, old(body), c1[o := color[o]], g1, body, color, gray);
      } else if body[o].Thread? {
        TraverseThread(o, x, skip, {} + {o});
        assert body == old(body)[o := body[o]];
      } else {
        TraversePlain(o, x, skip, {} + {o});
        MarksMoreKeeps(old(body), c1, g1, color, gray, o);
        assert c1 == c1[o := color[o]];
      }
      Unexcept(body, up, color, o, x, skip, {});
    }
  
    /** One turn of `propagateall` outside the propagate phase. While `tracked`, the
        threads it links into `grayagain` are still to be visited again. */
    method PropagateOne(ghost tracked: bool, ghost pend0: seq<Ref>, ghost x: set<Ref>, ghost skip: set<Ref>)
      returns (ghost pend: seq<Ref>)
      requires !phase.Propagate? && gray != []
      requires AtomicInv(body, up, color, gray, pend0, ListsNow(), x, skip)
      requires tracked ==> pend0 == grayagain
      modifies this`color, this`gray, this`body, this`grayagain, this`weak, this`ephemeron, this`allweak
      ensures AtomicInv(body, up, color, gray, pend, ListsNow(), x, skip)
      ensures pend == if tracked then grayagain else pend0
      ensures Advanced(old(body), old(color), body, color) && AgainThreads(old(grayagain), grayagain, body)
      ensures Whites(color) <= Whites(old(color)) && (Whites(color) == Whites(old(color)) ==> |gray| < |old(gray)|)
    {
      hide AtomicInv, Advanced, MarksMore, Marking, Lighter, Outcome;
      ghost var o, body0, c0, gray0, l0 := gray[0], body, color, gray[1..], ListsNow();
      assert gray == [o] + gray0;
      AtomicFront(o, body, up, color, gray0, pend0, l0, x, skip);
      PropagateMark(x, skip);
      pend := if tracked then grayagain else pend0;
      VisitKeeps(o, body0, c0, gray0, pend0, l0, body, up, color, gray, pend, ListsNow(), x, skip);
      VisitAgain(o, body0, c0, gray0, l0, body, color, gray, ListsNow());
      AdvancedFacts(body0, c0, body, color);
    }

    /** propagateall, as called outside the propagate phase. */
    method PropagateAll(ghost tracked: bool, ghost pend0: seq<Ref>, ghost x: set<Ref>, ghost skip: set<Ref>)
      returns (ghost pend: seq<Ref>)
      requires !phase.Propagate?
      requires AtomicInv(body, up, color, gray, pend0, ListsNow(), x, skip)
      requires tracked ==> pend0 == grayagain
      modifies this`color, this`gray, this`body, this`grayagain, this`weak, this`ephemeron, this`allweak
      ensures AtomicInv(body, up, color, [], pend, ListsNow(), x, skip) && gray == []
      ensures pend == if tracked then grayagain else pend0
      ensures Advanced(old(body), old(color), body, color) && AgainThreads(old(grayagain), grayagain, body)
      ensures old(gray) == [] ==> ListsNow() == old(ListsNow())
    {
      hide AtomicInv, Advanced, AgainThreads, AllLighter, BlackStays, NewBlack;
      pend := pend0;
      AdvancedRefl(body, color);
      AgainThreadsRefl(grayagain, body);
      while gray != []
        invariant AtomicInv(body, up, color, gray, pend, ListsNow(), x, skip)
        invariant pend == if tracked then grayagain else pend0
        invariant Advanced(old(body), old(color), body, color) && AgainThreads(old(grayagain), grayagain, body)
        invariant old(gray) == [] ==> gray == [] && ListsNow() == old(ListsNow())
        decreases Whites(color), |gray|
      {
        ghost var body0, c0, again0 := body, color, grayagain;
        pend := PropagateOne(tracked, pend, x, skip);
        AdvancedFacts(body0, c0, body, color);
        AgainThreadsTrans(old(grayagain), again0, grayagain, body0, body);
        AdvancedTrans(old(body), old(color), body0, c0, body, color);
      }
    }

    /** One table of a round of ephemeron convergence. */
    method ConvergeOne(w: Ref, next: seq<Ref>, ghost x: set<Ref>, ghost skip: set<Ref>) returns (marked: bool)
      requires !phase.Propagate? && gray == []
      requires AtomicInv(body, up, color, [], [w] + next, ListsNow(), x, skip)
      requires AllWaiting([w] + next, body, Marked(color))
      modifies this`color, this`gray, this`body, this`grayagain, this`weak, this`ephemeron, this`allweak
      ensures AtomicInv(body, up, color, [], next, ListsNow(), x, skip) && gray == []
      ensures AllWaiting(next, body, Marked(color))
      ensures Advanced(old(body), old(color), body, color)
      ensures marked ==> Whites(color) < Whites(old(color))
      ensures !marked && old(Converged(ephemeron, body, Marked(color))) ==> Converged(ephemeron, body, Marked(color))
    {
      hide AtomicInv, Advanced, AllLighter, AllWaiting, Converged, Visit, Marking, Lighter, OnlyStrings, Settled, BlackStays;
      ghost var body0, c0, l0 := body, color, ListsNow();
      WaitingFront(w, next, body, Marked(color));
      TakeWaiting(w, next, body, up, color, l0, x, skip);
      AtomicFront(w, body, up, color, [], next, l0, x, skip);
      MarkingFacts(body, up, color, w, x, skip, {});
      marked := TraverseEphemeron(w, x, skip, {});
      ghost var ww, a :| !(ww && a) && Linked(l0.ephemeron, ephemeron, w, ww) && Linked(l0.all, allweak, w, a)
                         && Settled(body[w], body, Marked(color), false, ww, a);
      TraversingVisit(w, body0, c0, [], l0, body, color, gray, ListsNow(), ww, a);
      VisitKeeps(w, body0, c0, [], next, l0, body, up, color, gray, next, ListsNow(), x, skip);
      AdvancedFacts(body0, c0, body, color);
      WaitingKeeps(next, body0, body, Marked(c0), Marked(color));
      if !marked && Converged(l0.ephemeron, body0, Marked(c0)) {
        ConvergedStrings(l0.ephemeron, body0, up, c0, color, [w] + next, l0, x, skip);
        ConvergedStep(w, l0.ephemeron, ephemeron, body0, body, Marked(color));
      }
      if marked {
        ghost var body1, c1 := body, color;
        ghost var _ := PropagateAll(false, next, x, skip);
        AdvancedFacts(body1, c1, body, color);
        AdvancedTrans(body0, c0, body1, c1, body, color);
        WaitingKeeps(next, body1, body, Marked(c1), Marked(color));
      }
    }

    /** convergeephemerons */
    method ConvergeEphemerons(ghost x: set<Ref>, ghost skip: set<Ref>)
      requires !phase.Propagate? && gray == []
      requires AtomicInv(body, up, color, [], [], ListsNow(), x, skip)
      modifies this`color, this`gray, this`body, this`grayagain, this`weak, this`ephemeron, this`allweak
      ensures AtomicInv(body, up, color, [], [], ListsNow(), x, skip) && gray == []
      ensures Converged(ephemeron, body, Marked(color))
      ensures Advanced(old(body), old(color), body, color)
    {
      hide AtomicInv, Advanced, AllWaiting, Converged;
      AdvancedRefl(body, color);
      var changed := true;
      while changed
        invariant AtomicInv(body, up, color, [], [], ListsNow(), x, skip) && gray == []
        invariant Advanced(old(body), old(color), body, color)
        invariant !changed ==> Converged(ephemeron, body, Marked(color))
        decreases Whites(color), changed
      {
        RoundStart(body, up, color, ListsNow(), x, skip);
        var next := ephemeron;
        ghost var c0 := color;
        ephemeron := [];
        ConvergedNone(body, Marked(color));
        changed := false;
        while next != []
          invariant AtomicInv(body, up, color, [], next, ListsNow(), x, skip) && gray == []
          invariant AllWaiting(next, body, Marked(color))
          invariant Advanced(old(body), old(color), body, color)
          invariant !changed ==> Converged(ephemeron, body, Marked(color))
          invariant Whites(color) <= Whites(c0) && (changed ==> Whites(color) < Whites(c0))
          decreases |next|
        {
          assert next == [next[0]] + next[1..];
          ghost var body1, c1 := body, color;
          var marked := ConvergeOne(next[0], next[1..], x, skip);
          AdvancedFacts(body1, c1, body, color);
          AdvancedTrans(old(body), old(color), body1, c1, body, color);
          next := next[1..];
          if marked { changed := true; }
        }
      }
    }

    // ----- clearing weak tables -----

    /** An entry whose key or value is about to be collected loses its value, and
        its key too if that was not marked. */
    method EmptyEntry(h: Ref, i: nat, ghost body0: map<Ref, Body>, ghost c0: map<Ref, Color>, ghost x: set<Ref>, ghost skip: set<Ref>)
      requires Marking(body, up, color, x, skip, {}) && Clearing(h, body0, c0, gray, body, color, skip)
      requires h in body && body[h].Table? && i < |body[h].node| && body[h].node[i].val != Nil
      requires In(body[h].node[i].key, body.Keys)
      requires DropsEntry(SeenMode(body[h], h in skip), body[h].node[i], body, Marked(color))
      modifies this`body
      ensures Marking(body, up, color, x, skip, {}) && Clearing(h, body0, c0, gray, body, color, skip)
      ensures h in body && body[h].Table? && body[h].node[i].val == Nil
      ensures body[h] == old(body[h]).(node := old(body[h].node)[i := body[h].node[i]])
    {
      hide Marking, Clearing, Trimmed, SameContents;
      ghost var b0, body1 := body[h], body;
      MarkingFacts(body, up, color, h, x, skip, {});
      var b := body[h].(node := body[h].node[i := body[h].node[i].(val := Nil)]);
      ReduceMarking(body, up, color, h, b, x, skip, {});
      body := body[h := b];
      RemoveEntry(h, i, x, skip, {});
      assert body[h] == b0.(node := b0.node[i := body[h].node[i]]);
      TrimOne(b0, i, body[h].node[i], h in skip, body1, Marked(color));
      ClearingTrim(h, body0, c0, gray, body1, body[h], color, skip);
      assert body == body1[h := body[h]];
    }

    method ClearArray(h: Ref, ghost body0: map<Ref, Body>, ghost c0: map<Ref, Color>, ghost x: set<Ref>, ghost skip: set<Ref>)
      requires Marking(body, up, color, x, skip, {}) && Clearing(h, body0, c0, gray, body, color, skip)
      requires h in body && body[h].Table? && StrArrIn(body[h].arr, body, x) && ReadyVals(body[h], h in skip, Marked(color))
      modifies this`body, this`color, this`gray
      ensures Marking(body, up, color, x, skip, {}) && Clearing(h, body0, c0, gray, body, color, skip) && gray == old(gray)
      ensures h in body && body[h].Table? && body[h] == old(body[h]).(arr := body[h].arr) && AllIn(body[h].arr, Marked(color))
      ensures forall v :: IsStr(v, body) == old(IsStr(v, body))
      ensures ReadyVals(body[h], h in skip, Marked(color))
    {
      hide Marking, Clearing, MarksMore, Trimmed;
      ghost var b0, body1 := body[h], body;
      ClearingFacts(h, body0, c0, gray, body, color, skip);
      for i := 0 to |body[h].arr|
        invariant Marking(body, up, color, x, skip, {}) && Clearing(h, body0, c0, gray, body, color, skip) && gray == old(gray)
        invariant h in body && body[h].Table? && body[h] == b0.(arr := body[h].arr) && |body[h].arr| == |b0.arr|
        invariant forall j :: 0 <= j < i ==> In(body[h].arr[j], Marked(color))
        invariant forall j :: i <= j < |b0.arr| ==> body[h].arr[j] == b0.arr[j]
        invariant ReadyVals(body[h], h in skip, Marked(color))
        invariant forall v :: IsStr(v, body) == IsStr(v, body1)
      {
        ClearingFacts(h, body0, c0, gray, body, color, skip);
        MarkingFacts(body, up, color, h, x, skip, {});
        ghost var c1 := color;
        var cleared := IsCleared(body[h].arr[i], x, skip, {});
        ClearingMark(h, body0, c0, gray, body, c1, color, skip);
        ReadyKeeps(body[h], body[h], h in skip, Marked(c1), Marked(color));
        if cleared {
          var b := body[h].(arr := body[h].arr[i := Nil]);
          TrimElement(body[h], i, h in skip, body, Marked(color));
          TrimmedReduced(body[h], b, h in skip, body, Marked(color));
          ReadyKeeps(body[h], b, h in skip, Marked(color), Marked(color));
          ReduceMarking(body, up, color, h, b, x, skip, {});
          ClearingTrim(h, body0, c0, gray, body, b, color, skip);
          body := body[h := b];
          ClearingFacts(h, body0, c0, gray, body, color, skip);
        }
      }
    }

    /** The hash part of `clearvalues` (on values) and of `clearkeys` (on keys). */
    method ClearNodes(h: Ref, keys: bool, ghost body0: map<Ref, Body>, ghost c0: map<Ref, Color>, ghost x: set<Ref>, ghost skip: set<Ref>)
      requires Marking(body, up, color, x, skip, {}) && Clearing(h, body0, c0, gray, body, color, skip)
      requires h in body && body[h].Table?
      requires if keys then StrKeysIn(body[h].node, body, x) else StrValsIn(body[h].node, body, x)
      requires if keys then ReadyKeys(body[h], h in skip, Marked(color)) else ReadyVals(body[h], h in skip, Marked(color))
      modifies this`body, this`color, this`gray
      ensures Marking(body, up, color, x, skip, {}) && Clearing(h, body0, c0, gray, body, color, skip) && gray == old(gray)
      ensures h in body && body[h].Table? && body[h] == old(body[h]).(node := body[h].node)
      ensures if keys then KeysIn(body[h].node, Marked(color)) else ValsIn(body[h].node, Marked(color))
      ensures Marked(old(color)) <= Marked(color)
    {
      hide Marking, Clearing, MarksMore, Trimmed, ReadyKeys, ReadyVals, DropsEntry, OnlyStrings;
      ghost var b0, body1 := body[h], body;
      ClearingFacts(h, body0, c0, gray, body, color, skip);
      for i := 0 to |body[h].node|
        invariant Marking(body, up, color, x, skip, {}) && Clearing(h, body0, c0, gray, body, color, skip) && gray == old(gray)
        invariant h in body && body[h].Table? && body[h] == b0.(node := body[h].node) && |body[h].node| == |b0.node|
        invariant if keys then Keys(body[h].node, i, Marked(color)) else Vals(body[h].node, i, Marked(color))
        invariant forall j :: i <= j < |b0.node| ==> body[h].node[j] == b0.node[j]
        invariant forall v :: IsStr(v, body) == IsStr(v, body1)
        invariant Marked(old(color)) <= Marked(color)
        invariant if keys then ReadyKeys(body[h], h in skip, Marked(color)) else ReadyVals(body[h], h in skip, Marked(color))
      {
        ClearingFacts(h, body0, c0, gray, body, color, skip);
        MarkingFacts(body, up, color, h, x, skip, {});
        if body[h].node[i].val != Nil {
          ghost var c1 := color;
          var cleared := IsCleared(if keys then body[h].node[i].key else body[h].node[i].val, x, skip, {});
          ClearingMark(h, body0, c0, gray, body, c1, color, skip);
          ReadyKeeps(body[h], body[h], h in skip, Marked(c1), Marked(color));
          if cleared {
            ghost var b := body[h];
            EntryDrops(b, i, h in skip, keys, body, Marked(color));
            EmptyEntry(h, i, body0, c0, x, skip);
            ReadyKeeps(b, body[h], h in skip, Marked(color), Marked(color));
            ClearingFacts(h, body0, c0, gray, body, color, skip);
          }
        }
      }
    }
  
    /** One table of `clearvalues`. */
    method ClearTableValues(h: Ref, ghost vals: set<Ref>, ghost keys: set<Ref>, ghost x: set<Ref>, ghost skip: set<Ref>)
      requires gray == [] && AtomicInv(body, up, color, [], [], ListsNow(), x, skip)
      requires Converged(ephemeron, body, Marked(color)) && (h in weak || h in allweak)
      requires ValsDone(vals, body, Marked(color)) && KeysDone(keys, body, Marked(color))
      modifies this`body, this`color, this`gray
      ensures gray == [] && AtomicInv(body, up, color, [], [], ListsNow(), x, skip)
      ensures Converged(ephemeron, body, Marked(color)) && Cleaned(old(body), old(color), body, color, skip)
      ensures ValsDone(vals + {h}, body, Marked(color)) && KeysDone(keys, body, Marked(color))
    {
      hide Marking, Clearing, AtomicInv, Converged, Cleaned, KeysDone;
      ghost var body0, c0 := body, color;
      ListedStrings(h, body, up, color, ListsNow(), x, skip, vals);
      ClearingStart(h, body, color, gray, skip);
      AtomicMarking(body, up, color, ListsNow(), x, skip);
      ClearArray(h, body0, c0, x, skip);
      assert StrValsIn(body[h].node, body, x);
      ghost var arr := body[h].arr;
      ClearNodes(h, false, body0, c0, x, skip);
      assert body[h].arr == arr;
      ClearKeeps(h, body0, c0, body, color, up, ListsNow(), x, skip);
      ClearingCleaned(h, body0, c0, body, color, skip);
      DoneKeeps(vals, keys, body0, c0, body, color, skip);
    }

    /** clearvalues */
    method ClearValues(l: seq<Ref>, ghost vals: set<Ref>, ghost keys: set<Ref>, ghost x: set<Ref>, ghost skip: set<Ref>)
      requires gray == [] && AtomicInv(body, up, color, [], [], ListsNow(), x, skip)
      requires Converged(ephemeron, body, Marked(color)) && forall r :: r in l ==> r in weak || r in allweak
      requires ValsDone(vals, body, Marked(color)) && KeysDone(keys, body, Marked(color))
      modifies this`body, this`color, this`gray
      ensures gray == [] && AtomicInv(body, up, color, [], [], ListsNow(), x, skip)
      ensures Converged(ephemeron, body, Marked(color)) && Cleaned(old(body), old(color), body, color, skip)
      ensures ValsDone(vals + Elems(l), body, Marked(color)) && KeysDone(keys, body, Marked(color))
    {
      hide AtomicInv, Converged, Cleaned, KeysDone, ValsDone;
      CleanedRefl(body, color, skip);
      assert vals + Elems(l[..0]) == vals;
      for i := 0 to |l|
        invariant gray == [] && AtomicInv(body, up, color, [], [], ListsNow(), x, skip)
        invariant Converged(ephemeron, body, Marked(color)) && Cleaned(old(body), old(color), body, color, skip)
        invariant ValsDone(vals + Elems(l[..i]), body, Marked(color)) && KeysDone(keys, body, Marked(color))
      {
        ghost var body1, c1 := body, color;
        ClearTableValues(l[i], vals + Elems(l[..i]), keys, x, skip);
        CleanedTrans(old(body), old(color), body1, c1, body, color, skip);
        assert vals + Elems(l[..i+1]) == vals + Elems(l[..i]) + {l[i]};
      }
      assert l[..|l|] == l;
    }

    /** One table of `clearkeys`. */
    method ClearTableKeys(h: Ref, ghost vals: set<Ref>, ghost keys: set<Ref>, ghost x: set<Ref>, ghost skip: set<Ref>)
      requires gray == [] && AtomicInv(body, up, color, [], [], ListsNow(), x, skip)
      requires Converged(ephemeron, body, Marked(color)) && (h in ephemeron || h in allweak)
      requires AllWeakDone(allweak, body, vals, skip)
      requires ValsDone(vals, body, Marked(color)) && KeysDone(keys, body, Marked(color))
      modifies this`body, this`color, this`gray
      ensures gray == [] && AtomicInv(body, up, color, [], [], ListsNow(), x, skip)
      ensures Converged(ephemeron, body, Marked(color)) && Cleaned(old(body), old(color), body, color, skip)
      ensures ValsDone(vals, body, Marked(color)) && KeysDone(keys + {h}, body, Marked(color))
      ensures AllWeakDone(allweak, body, vals, skip)
    {
      hide Marking, Clearing, AtomicInv, Converged, Cleaned, ValsDone;
      ghost var body0, c0 := body, color;
      ListedStrings(h, body, up, color, ListsNow(), x, skip, vals);
      ClearingStart(h, body, color, gray, skip);
      AtomicMarking(body, up, color, ListsNow(), x, skip);
      ClearNodes(h, true, body0, c0, x, skip);
      ClearingFacts(h, body0, c0, gray, body, color, skip);
      assert forall r :: IsTable(body, r, AllWeak) == IsTable(body0, r, AllWeak);
      ClearKeeps(h, body0, c0, body, color, up, ListsNow(), x, skip);
      ClearingCleaned(h, body0, c0, body, color, skip);
      DoneKeeps(vals, keys, body0, c0, body, color, skip);
    }

    /** clearkeys */
    method ClearKeys(l: seq<Ref>, ghost vals: set<Ref>, ghost keys: set<Ref>, ghost x: set<Ref>, ghost skip: set<Ref>)
      requires gray == [] && AtomicInv(body, up, color, [], [], ListsNow(), x, skip)
      requires Converged(ephemeron, body, Marked(color))
      requires AllWeakDone(allweak, body, vals, skip) && forall r :: r in l ==> r in ephemeron || r in allweak
      requires ValsDone(vals, body, Marked(color)) && KeysDone(keys, body, Marked(color))
      modifies this`body, this`color, this`gray
      ensures gray == [] && AtomicInv(body, up, color, [], [], ListsNow(), x, skip)
      ensures Converged(ephemeron, body, Marked(color)) && Cleaned(old(body), old(color), body, color, skip)
      ensures ValsDone(vals, body, Marked(color)) && KeysDone(keys + Elems(l), body, Marked(color))
      ensures AllWeakDone(allweak, body, vals, skip)
    {
      hide AtomicInv, Converged, Cleaned, KeysDone, ValsDone;
      CleanedRefl(body, color, skip);
      assert keys + Elems(l[..0]) == keys;
      for i := 0 to |l|
        invariant gray == [] && AtomicInv(body, up, color, [], [], ListsNow(), x, skip)
        invariant Converged(ephemeron, body, Marked(color)) && Cleaned(old(body), old(color), body, color, skip)
        invariant ValsDone(vals, body, Marked(color)) && KeysDone(keys + Elems(l[..i]), body, Marked(color))
        invariant AllWeakDone(allweak, body, vals, skip)
      {
        ghost var body1, c1 := body, color;
        ClearTableKeys(l[i], vals, keys + Elems(l[..i]), x, skip);
        CleanedTrans(old(body), old(color), body1, c1, body, color, skip);
        assert keys + Elems(l[..i+1]) == keys + Elems(l[..i]) + {l[i]};
      }
      assert l[..|l|] == l;
    }
  
    // ----- the atomic step -----

    function RootSet(): seq<Value>
      reads this`mainthread, this`running, this`registry, this`mt
    {
      [Obj(mainthread), Obj(running), registry] + mt
    }

    /** Marking a root while other objects are still pending. */
    method MarkRoot(v: Value, ghost pend: seq<Ref>, ghost x: set<Ref>, ghost skip: set<Ref>)
      requires AtomicInv(body, up, color, gray, pend, ListsNow(), x, skip)
      requires In(v, body.Keys) && In(v, x)
      modifies this`color, this`gray
      ensures AtomicInv(body, up, color, gray, pend, ListsNow(), x, skip)
      ensures In(v, Marked(color)) && Advanced(body, old(color), body, color)
    {
      hide AtomicInv, Marking;
      AtomicMarks(body, up, color, gray, pend, ListsNow(), x, skip);
      MarkValue(v, x, skip, {});
      MarkKeeps(body, up, old(color), old(gray), color, gray, pend, ListsNow(), x, skip);
      MarksMoreGrows(body, old(color), old(gray), color, gray);
      AdvancedMarks(body, old(color), old(gray), color, gray);
    }

    method MarkRoots(vs: seq<Value>, ghost pend: seq<Ref>, ghost x: set<Ref>, ghost skip: set<Ref>)
      requires AtomicInv(body, up, color, gray, pend, ListsNow(), x, skip)
      requires AllIn(vs, body.Keys) && AllIn(vs, x)
      modifies this`color, this`gray
      ensures AtomicInv(body, up, color, gray, pend, ListsNow(), x, skip)
      ensures AllIn(vs, Marked(color)) && Advanced(body, old(color), body, color)
    {
      hide AtomicInv, Advanced;
      AdvancedRefl(body, color);
      for i := 0 to |vs|
        invariant AtomicInv(body, up, color, gray, pend, ListsNow(), x, skip)
        invariant forall j :: 0 <= j < i ==> In(vs[j], Marked(color))
        invariant Advanced(body, old(color), body, color)
      {
        ghost var c1 := color;
        MarkRoot(vs[i], pend, x, skip);
        AdvancedFacts(body, c1, body, color);
        AdvancedTrans(body, old(color), body, c1, body, color);
      }
    }

    /** The roots the program may have changed since the cycle began. */
    method RemarkRoots(ghost pend: seq<Ref>, ghost x: set<Ref>, ghost skip: set<Ref>)
      requires AtomicInv(body, up, color, gray, pend, ListsNow(), x, skip)
      requires AllIn(RootSet(), body.Keys) && AllIn(RootSet(), x) && mainthread in Marked(color)
      modifies this`color, this`gray
      ensures AtomicInv(body, up, color, gray, pend, ListsNow(), x, skip)
      ensures Advanced(body, old(color), body, color) && AllIn(RootSet(), Marked(color))
    {
      hide AtomicInv, Advanced;
      ghost var r := RootSet();
      assert r[1] == Obj(running) && r[2] == registry && forall i :: 0 <= i < |mt| ==> r[i + 3] == mt[i];
      MarkRoots([Obj(running), registry], pend, x, skip);
      ghost var c1 := color;
      MarkRoots(mt, pend, x, skip);
      AdvancedTrans(body, old(color), body, c1, body, color);
      AdvancedFacts(body, old(color), body, c1);
      AdvancedFacts(body, c1, body, color);
      assert forall i :: 0 <= i < |r| ==> r[i] == if i == 0 then Obj(mainthread) else
        if i < 3 then [Obj(running), registry][i - 1] else mt[i - 3];
    }

    /** The `propagateall` in front of `atomic`. Weak tables it visits may be linked
        into `weak` or `ephemeron`, which `atomic` asserts to be empty: they are if
        nothing was gray, they are not if a gray table has to be cleared anyway, and
        if they are, no table visited needs clearing. */
    method PropagateLate(ghost x: set<Ref>, ghost skip: set<Ref>)
      requires phase.EnterAtomic? && weak == [] && ephemeron == []
      requires AtomicInv(body, up, color, gray, grayagain, ListsNow(), x, skip)
      modifies this`color, this`gray, this`body, this`grayagain, this`weak, this`ephemeron, this`allweak
      ensures AtomicInv(body, up, color, [], grayagain, ListsNow(), x, skip) && gray == []
      ensures Advanced(old(body), old(color), body, color)
      ensures old(gray) == [] ==> weak == [] && ephemeron == []
      ensures (exists r :: r in old(gray) && MustClear(r, old(body), x)) ==> weak != [] || ephemeron != []
      ensures weak == [] && ephemeron == [] ==>
        forall r :: IsGray(color, r) && r !in grayagain && r !in skip ==> NeedsNoClearing(r, body, Marked(color))
    {
      hide AtomicInv, Advanced;
      ghost var pend := PropagateAll(true, grayagain, x, skip);
      if exists r :: r in old(gray) && MustClear(r, old(body), x) {
        ghost var r :| r in old(gray) && MustClear(r, old(body), x);
        LateListed(r, old(body), old(color), old(gray), old(grayagain), old(ListsNow()), body, up, color, grayagain, ListsNow(), x, skip);
      }
      if weak == [] && ephemeron == [] {
        LateSettled(body, up, color, grayagain, ListsNow(), x, skip);
      }
    }

    /** The marking half of `atomic`: roots, what they reach, the threads and weak
        tables of `grayagain`, and the ephemerons. Afterwards the roots are marked, no
        ephemeron entry has a marked key and a white value, nothing is marked outside
        the bound `x`, and what is marked is closed under the references that the
        collector follows, strings apart. */
    method AtomicMark(ghost x: set<Ref>, ghost skip: set<Ref>)
      requires phase.InsideAtomic?
      requires AtomicInv(body, up, color, gray, grayagain, ListsNow(), x, skip) && gray == []
      requires AllIn(RootSet(), body.Keys) && AllIn(RootSet(), x) && mainthread in Marked(color)
      modifies this`color, this`gray, this`body, this`grayagain, this`weak, this`ephemeron, this`allweak
      ensures AtomicInv(body, up, color, [], [], ListsNow(), x, skip) && gray == []
      ensures Converged(ephemeron, body, Marked(color))
      ensures Advanced(old(body), old(color), body, color) && AllIn(RootSet(), Marked(color))
      ensures forall r :: r in Marked(color) && IsTable(body, r, Ephemeron) && r !in skip ==> EphemeronIn(body[r].node, Marked(color))
      ensures Marked(color) <= x && Bound(Heap(body, up), Marked(color) + Strings(body), skip)
    {
      hide AtomicInv, Advanced, Converged, Bound, EphemeronIn, AllLighter, BlackStays, NewBlack, IsTable;
      var saved := grayagain;
      RemarkRoots(saved, x, skip);
      ghost var c2 := color;
      ghost var pend := PropagateAll(false, saved, x, skip);
      ghost var body3, c3 := body, color;
      AdvancedTrans(old(body), old(color), old(body), c2, body3, c3);
      SwapPend(body, up, color, saved, ListsNow(), x, skip);
      gray := saved;
      pend := PropagateAll(false, [], x, skip);
      ghost var body4, c4 := body, color;
      AdvancedTrans(old(body), old(color), body3, c3, body4, c4);
      ConvergeEphemerons(x, skip);
      AdvancedTrans(old(body), old(color), body4, c4, body, color);
      assert Marked(c2) <= Marked(color) by {
        AdvancedFacts(old(body), c2, body3, c3);
        AdvancedFacts(body3, c3, body4, c4);
        AdvancedFacts(body4, c4, body, color);
      }
      ConvergedFacts(body, up, color, ListsNow(), x, skip);
    }

    /** The clearing half of `atomic`. */
    method AtomicClear(ghost x: set<Ref>, ghost skip: set<Ref>)
      requires phase.InsideAtomic?
      requires AtomicInv(body, up, color, [], [], ListsNow(), x, skip) && gray == []
      requires Converged(ephemeron, body, Marked(color))
      modifies this`color, this`gray, this`body, this`grayagain, this`weak, this`ephemeron, this`allweak
      ensures AllHeld(body, up, Marked(color), skip) && gray == [] && KindsOk(body, color)
      ensures Cleaned(old(body), old(color), body, color, skip) && Marked(color) <= x
      ensures GrayScrubbed(body, color, skip)
    {
      hide AtomicInv, Advanced, Converged, Cleaned, ValsDone, KeysDone, AllWeakDone, AllHeld, KindsOk, GrayScrubbed;
      DoneNone(body, Marked(color));
      ClearValues(weak, {}, {}, x, skip);
      ghost var body1, c1 := body, color;
      ClearValues(allweak, {} + Elems(weak), {}, x, skip);
      CleanedTrans(old(body), old(color), body1, c1, body, color, skip);
      var origweak, origall := weak, allweak;
      ghost var vals := {} + Elems(weak) + Elems(allweak);
      ghost var y := SecondBound(body, up, color, ListsNow(), x, skip);
      ghost var body2, c2, l2 := body, color, ListsNow();
      ghost var _ := PropagateAll(false, [], y, skip);
      ghost var body2', c2' := body, color;
      ConvergeEphemerons(y, skip);
      AdvancedTrans(body2, c2, body2', c2', body, color);
      AtomicMarks(body, up, color, [], [], ListsNow(), y, skip);
      AdvancedCleaned(body2, c2, body, color, skip);
      SecondPass(body2, up, c2, l2, body, color, ListsNow(), x, y, skip, vals);
      CleanedTrans(old(body), old(color), body2, c2, body, color, skip);
      ghost var body3, c3 := body, color;
      FinishClear(origweak, origall, vals, y, skip);
      CleanedTrans(old(body), old(color), body3, c3, body, color, skip);
    }

    /** `clearkeys` on both lists, and `clearvalues` on the tables listed since. */
    method FinishClear(origweak: seq<Ref>, origall: seq<Ref>, ghost vals: set<Ref>, ghost x: set<Ref>, ghost skip: set<Ref>)
      requires gray == [] && AtomicInv(body, up, color, [], [], ListsNow(), x, skip)
      requires Converged(ephemeron, body, Marked(color))
      requires ValsDone(vals + Elems(weak), body, Marked(color)) && AllWeakDone(allweak, body, vals, skip)
      modifies this`color, this`gray, this`body
      ensures AllHeld(body, up, Marked(color), skip) && gray == [] && KindsOk(body, color)
      ensures Cleaned(old(body), old(color), body, color, skip) && Marked(color) <= x
      ensures GrayScrubbed(body, color, skip)
    {
      hide AtomicInv, Converged, Cleaned, ValsDone, KeysDone, AllHeld, KindsOk, GrayScrubbed;
      ghost var done := vals + Elems(weak);
      DoneNone(body, Marked(color));
      ClearKeys(ephemeron, done, {}, x, skip);
      ghost var body1, c1 := body, color;
      ClearKeys(allweak, done, {} + Elems(ephemeron), x, skip);
      CleanedTrans(old(body), old(color), body1, c1, body, color, skip);
      ghost var keys := {} + Elems(ephemeron) + Elems(allweak);
      ghost var body2, c2 := body, color;
      BeforeIn(weak, origweak);
      ClearValues(Before(weak, origweak), done, keys, x, skip);
      CleanedTrans(old(body), old(color), body2, c2, body, color, skip);
      CleanedKinds(body2, c2, body, color, skip);
      ghost var body3, c3 := body, color;
      BeforeIn(allweak, origall);
      ClearValues(Before(allweak, origall), done + Elems(Before(weak, origweak)), keys, x, skip);
      CleanedTrans(old(body), old(color), body3, c3, body, color, skip);
      CleanedKinds(body3, c3, body, color, skip);
      FinalHeld(body, up, color, ListsNow(), x, skip, done + Elems(Before(weak, origweak)) + Elems(Before(allweak, origall)), keys);
      SettledScrubbed(body, up, color, ListsNow(), x, skip);
      AtomicMarks(body, up, color, [], [], ListsNow(), x, skip);
    }
  
    // ----- sweeping -----

    function View(): State
      reads this
    {
      State(body, up, color, gray, ListsNow(), allgc, cursor, phase, white, mainthread, running, registry, mt)
    }

    /** sweeplist on `allgc`, from position `pos` */
    method SweepList(pos: nat, count: nat) returns (c: Cursor)
      requires Sweeping(View(), pos) && pos <= |allgc|
      modifies this`body, this`color, this`allgc
      ensures var r := SweepRun(old(View()), pos, count); View() == r.0 && c == CursorAt(r.0, r.1)
    {
      hide Sweeping, SweptFrom;
      var p: nat, n: nat := pos, count;
      SweepingBound(View(), p);
      while p < |allgc| && n > 0
        invariant p <= |allgc| && Sweeping(View(), p)
        invariant SweepRun(View(), p, n) == SweepRun(old(View()), pos, count)
        decreases n
      {
        n := n - 1;
        ghost var s := View();
        AtCursor(s, p);
        var curr := allgc[p];
        if color[curr] == White(!white) {
          FreeDead(s, p);
          allgc := allgc[..p] + allgc[p+1..];
          body := body - {curr};
          color := color - {curr};
          assert View() == FreeAt(s, p);
        } else {
          WhitenLive(s, p);
          color := color[curr := White(white)];
          assert View() == WhiteAt(s, p);
          p := p + 1;
        }
        SweepingBound(View(), p);
      }
      c := if p == |allgc| then NoCursor else InAllGc(p);
    }

    /** entersweep */
    method EnterSweep()
      requires Sweeping(View(), 0)
      modifies this`body, this`color, this`allgc, this`phase, this`cursor
      ensures View() == EnterSweepOf(old(View()))
    {
      hide Sweeping, SweepRun;
      phase := SweepAllGc;
      SweepingCursor(old(View()), View(), 0);
      assert View() == old(View()).(phase := SweepAllGc);
      ghost var r := SweepRun(View(), 0, 1);
      cursor := SweepList(0, 1);
      assert View() == r.0.(cursor := CursorAt(r.0, r.1));
    }

    /** sweepstep, in the three sweeping phases, and the end of the sweep. The two
        finalizer lists are empty. */
    method SweepTurn()
      requires Inv(View()) && Sweeps(phase)
      modifies this`body, this`color, this`allgc, this`phase, this`cursor
      ensures View() == SweepTurnOf(old(View()))
      ensures old(phase.SweepAllGc? && cursor.InAllGc?) ==>
        if |old(allgc)| - old(cursor).pos > 80
        then phase.SweepAllGc? && cursor.InAllGc? && (|old(allgc)| - |allgc|) + (cursor.pos - old(cursor).pos) == 80
        else phase.SweepFinObj?
    {
      hide Inv, Sweeping, SweepRun;
      ghost var s := View();
      InvSweeping(s);
      if phase == SweepAllGc {
        if cursor.InAllGc? {
          SweepingBound(s, cursor.pos);
          TurnCount(s);
          ghost var r := SweepRun(s, cursor.pos, GCSWEEPMAX);
          var c := SweepList(cursor.pos, GCSWEEPMAX);
          SweptCursor(s, s.cursor.pos, GCSWEEPMAX);
          if c.InAllGc? {
            cursor := c;
            assert View() == r.0.(cursor := InAllGc(r.1));
          } else {
            phase, cursor := SweepFinObj, AtFinObj;
            assert View() == r.0.(phase := SweepFinObj, cursor := AtFinObj);
          }
        } else {
          phase, cursor := SweepFinObj, AtFinObj;
          assert View() == s.(phase := SweepFinObj, cursor := AtFinObj);
        }
      } else if phase == SweepFinObj {
        phase, cursor := SweepToBeFnz, AtToBeFnz;
        assert View() == s.(phase := SweepToBeFnz, cursor := AtToBeFnz);
      } else if phase == SweepToBeFnz {
        phase, cursor := SweepEnd, NoCursor;
        assert View() == s.(phase := SweepEnd, cursor := NoCursor);
      } else {
        color, phase := color[mainthread := White(white)], CallFin;
        assert View() == s.(color := s.color[s.mainthread := White(s.white)], phase := CallFin);
      }
    }

    // ----- marking steps -----

    /** The gray lists are emptied and the root set is marked. */
    method MarkRootSet(ghost x: set<Ref>)
      requires Marking(body, up, color, x, {}, {})
      requires In(Obj(mainthread), x) && In(Obj(mainthread), body.Keys) && In(registry, x) && In(registry, body.Keys)
      requires AllIn(mt, x) && AllIn(mt, body.Keys)
      modifies this`color, this`gray, this`grayagain, this`weak, this`ephemeron, this`allweak
      ensures Marking(body, up, color, x, {}, {})
      ensures MarksMore(body, old(color), [], color, gray)
      ensures mainthread in Marked(color) && In(registry, Marked(color)) && AllIn(mt, Marked(color))
      ensures ListsNow() == Lists([], [], [], [])
    {
      hide Marking, MarksMore, AllIn;
      gray, grayagain := [], [];
      weak, allweak, ephemeron := [], [], [];
      MarkValue(Obj(mainthread), x, {}, {});
      ghost var c1, g1 := color, gray;
      MarkValue(registry, x, {}, {});
      MarksMoreTrans(body, body, old(color), [], c1, g1, color, gray);
      c1, g1 := color, gray;
      MarkValues(mt, x, {}, {});
      MarksMoreTrans(body, body, old(color), [], c1, g1, color, gray);
    }

    /** restartcollection: the gray lists start empty, the main thread, the registry and
        the metatables of basic types are marked, and what is gray is linked. */
    method RestartCollection()
      requires Inv(View()) && phase.Pause?
      modifies this`color, this`gray, this`grayagain, this`weak, this`ephemeron, this`allweak, this`phase
      ensures Restarted(old(View()), View())
    {
      hide Inv, Marking, MarksMore, BlackOk, AllIn, Kept;
      ghost var s := View();
      PauseMarking(s);
      MarkRootSet(Kept(s));
      phase := Propagate;
      MarkingFacts(body, up, color, 0, Kept(s), {}, {});
      MarkingBlack(body, up, color, Kept(s), {}, {});
      BlackNew(s, View());
    }

    /** One step of the propagate phase. */
    method PropagateStep()
      requires Inv(View()) && phase.Propagate?
      modifies this`color, this`gray, this`body, this`grayagain, this`weak, this`ephemeron, this`allweak, this`phase
      ensures Propagated(old(View()), View())
    {
      hide Inv, Marking, MarksMore, Outcome, Lighter, Kept, BlackOk, NewHeld;
      ghost var s := View();
      GrayNonempty(s);
      GrayFront(s);
      KeptBounded(s);
      MarkOkMarking(s, Kept(s));
      PropagateMark(Kept(s), Parked(s));
      MarkingFacts(body, up, color, 0, Kept(s), Parked(s), {});
      MarkingBlack(body, up, color, Kept(s), Parked(s), {});
      BlackNew(s, View());
      ghost var v := View();
      if gray == [] { phase := EnterAtomic; }
      assert View().(phase := s.phase) == v;
    }

    /** What is gray at the start of the atomic step, and then its marking half. What
        ends up marked is, strings apart, exactly the least set over the roots and the
        objects marked on entry that is closed under the references the collector
        follows: the fixed point of ephemeron convergence. */
    method AtomicMarkAll(ghost skip: set<Ref>)
      requires phase.EnterAtomic? && weak == [] && ephemeron == []
      requires AtomicInv(body, up, color, gray, grayagain, ListsNow(), Least(Heap(body, up), RootSet(), Marked(color), skip), skip)
      requires AllIn(RootSet(), body.Keys) && AllIn(RootSet(), Least(Heap(body, up), RootSet(), Marked(color), skip))
      requires mainthread in Marked(color)
      modifies this`color, this`gray, this`body, this`grayagain, this`weak, this`ephemeron, this`allweak, this`phase
      ensures var x := old(Least(Heap(body, up), RootSet(), Marked(color), skip));
        && AtomicInv(body, up, color, [], [], ListsNow(), x, skip) && gray == [] && phase.InsideAtomic?
        && Marked(color) <= x <= Marked(color) + Strings(body)
      ensures Converged(ephemeron, body, Marked(color))
      ensures Advanced(old(body), old(color), body, color) && AllIn(RootSet(), Marked(color))
      ensures forall r :: r in Marked(color) && IsTable(body, r, Ephemeron) && r !in skip ==> EphemeronIn(body[r].node, Marked(color))
      ensures forall y: set<Ref> :: Bound(old(Heap(body, up)), y, skip) && AllIn(RootSet(), y) && old(Marked(color)) <= y ==>
        Marked(color) <= y
    {
      hide AtomicInv, Advanced, Converged, AllIn, AllLighter, BlackStays, Least, Bound, EphemeronIn, NewBlack;
      ghost var x := Least(Heap(body, up), RootSet(), Marked(color), skip);
      PropagateLate(x, skip);
      ghost var body1, c1 := body, color;
      AdvancedFacts(old(body), old(color), body1, c1);
      assert body.Keys == old(body).Keys by { LighterKeys(old(body), body); }
      phase := InsideAtomic;
      AtomicMark(x, skip);
      AdvancedTrans(old(body), old(color), body1, c1, body, color);
      LeastMarked(old(body), old(color), body, up, color, RootSet(), ListsNow(), x, skip);
      forall y: set<Ref> | Bound(old(Heap(body, up)), y, skip) && AllIn(RootSet(), y) && old(Marked(color)) <= y
        ensures Marked(color) <= y
      {
        LeastIn(old(Heap(body, up)), RootSet(), old(Marked(color)), skip, y);
      }
    }

    /** `propagateall` and `atomic`, up to the flip of the current white. */
    method MarkAndClear()
      requires Inv(View()) && phase.EnterAtomic?
      modifies this`color, this`gray, this`body, this`grayagain, this`weak, this`ephemeron, this`allweak, this`phase
      ensures Flipped(old(View()), FlippedAs(old(View()), body, color, gray, ListsNow()))
    {
      hide Inv, AtomicInv, Advanced, Cleaned, Flipped, AllHeld, KindsOk, Converged, AllIn, Least, Bound, GrayScrubbed,
        EphemeronIn, IsTable, Strings, FlippedAs;
      ghost var s, skip := View(), Elems(allweak);
      assert RootSet() == Roots(s);
      KeptBounded(s);
      KeptNow(s);
      MarkToAtomic(s, Kept(s));
      ListsEmpty(s);
      AtomicMarkAll(skip);
      ghost var body2, c2 := body, color;
      AtomicClear(Kept(s), skip);
      FlippedDone(s, body2, c2, body, color, gray, ListsNow());
    }

    method Atomic()
      requires Inv(View()) && phase.EnterAtomic?
      modifies this`body, this`color, this`gray, this`grayagain, this`weak, this`ephemeron, this`allweak,
        this`allgc, this`cursor, this`phase, this`white
      ensures Flipped(old(View()), View())
    {
      hide Inv, Flipped;
      MarkAndClear();
      white := !white;
      phase := SweepAllGc;
      assert View() == FlippedAs(old(View()), body, color, gray, ListsNow());
    }

    /** The atomic step: `propagateall`, `atomic` and `entersweep`. Afterwards exactly
        what was marked is live: the least set the collector had to follow. */
    method AtomicStep()
      requires Inv(View()) && phase.EnterAtomic?
      modifies this`body, this`color, this`gray, this`grayagain, this`weak, this`ephemeron, this`allweak,
        this`allgc, this`cursor, this`phase, this`white
      ensures AtomicDone(old(View()), View())
      ensures Live(View()) == old(Kept(View())) && phase.SweepAllGc?
      ensures LiveOk(View()) <==> old(ParkedMetas(View()))
      ensures old(Reach(Graph(View()), LuaMutator.Roots(View()))) <= Live(View()) <==> old(ParkedStrong(View()))
    {
      hide Inv, Sweeping, Flipped, Kept, LiveOk, ParkedMetas, ParkedStrong, Reach, EnterSweepOf;
      ghost var s := View();
      Atomic();
      ghost var u := View();
      FlippedSweeping(s, u);
      EnterSweep();
      assert AtomicDone(s, View());
      AtomicExact(s, View());
    }
  
    /** singlestep. Finalizers are not modelled, so the step that calls them only
        ends the cycle. */
    method SingleStep()
      requires Inv(View())
      modifies this`body, this`color, this`gray, this`grayagain, this`weak, this`ephemeron, this`allweak,
        this`allgc, this`cursor, this`phase, this`white
      ensures Collects(old(View()), View())
    {
      hide Inv, Restarted, Propagated, AtomicDone, SweepTurnOf, LiveOk, ParkedMetas, ParkedStrong, Kept, Reach;
      PhaseIsSettled(View());
      if phase == Pause {
        RestartCollection();
      } else if phase == Propagate {
        PropagateStep();
      } else if phase == EnterAtomic {
        AtomicStep();
      } else if phase == CallFin {
        phase := Pause;
        assert View() == old(View()).(phase := Pause);
        CallFinTurn(old(View()));
      } else {
        SweepTurn();
      }
    }
  
    /** luaC_runtilstate, for a phase later in the cycle. `reach` is what was strongly
        reachable and `body0` what was allocated when the full collection began. */
    method RunUntil(p: Phase, ghost reach: set<Ref>, ghost body0: map<Ref, Body>, ghost done0: bool, ghost run0: seq<State>)
      returns (ghost done: bool, ghost run: seq<State>)
      requires Cycling(View(), reach, body0, done0, run0) && Rank(p) <= Rank(phase) && (p.CallFin? || p.Pause?)
      modifies this`body, this`color, this`gray, this`grayagain, this`weak, this`ephemeron, this`allweak,
        this`allgc, this`cursor, this`phase, this`white
      ensures Cycling(View(), reach, body0, done, run) && phase == p && |run| >= |run0| > 0 && run[0] == run0[0]
      ensures done == (done0 || old(Rank(phase)) >= 6)
      ensures old(Tidy(View())) ==> Tidy(View())
    {
      hide Inv, Cycling, Progress, Collects, Tidy;
      done, run := done0, run0;
      CyclingInv(View(), reach, body0, done, run);
      while phase != p
        invariant Cycling(View(), reach, body0, done, run) && Rank(p) <= Rank(phase) <= old(Rank(phase))
        invariant |run| >= |run0| > 0 && run[0] == run0[0]
        invariant done == (done0 || (old(Rank(phase)) >= 6 && Rank(phase) < 6)) && (done ==> Rank(phase) < 6)
        invariant old(Tidy(View())) ==> Tidy(View())
        decreases Rank(phase), Unmarked(View()), Remaining(View())
      {
        ghost var s := View();
        NotAtTarget(s, p);
        CyclingInv(s, reach, body0, done, run);
        SingleStep();
        CyclingStep(s, View(), reach, body0, done, run);
        StepProgress(s, View());
        ProgressRank(s, View(), p);
        ProgressDecreases(s, View());
        if Tidy(s) { TidyStep(s, View()); }
        run := run + [View()];
        if s.phase.EnterAtomic? { done := true; }
      }
    }

    /** The first lines of luaC_fullgc: a mark phase under way is abandoned by sweeping
        without a flip, which frees nothing. */
    method AbandonMark() returns (ghost run: seq<State>)
      requires Inv(View())
      modifies this`body, this`color, this`allgc, this`phase, this`cursor
      ensures var reach := old(Reach(Graph(View()), LuaMutator.Roots(View()))); Cycling(View(), reach, old(body), false, run)
      ensures Rank(phase) < 6 && body == old(body) && |run| > 0 && run[0] == old(View())
      ensures old(EmptiesLive(View())) ==> Tidy(View())
    {
      hide Inv, Cycling, Tidy, Reach, EmptiesLive, Abandons, EnterSweepOf, Sweeping, Run, CollectorRun;
      ghost var s, reach := View(), Reach(Graph(View()), Roots(View()));
      RunStart(s);
      run := [s];
      if Keeps(phase) {
        KeepsSweeping(s);
        EnterSweep();
        AbandonRun(s, View());
        AbandonStep(s, View());
        run := run + [View()];
      }
      CyclingStart(s, View(), reach, run);
      if EmptiesLive(s) { AbandonTidy(s, View()); }
    }

    /** luaC_fullgc, from any state in order: a mark phase under way is abandoned,
        pending sweeps are finished, and then a whole cycle runs. What remains is
        exactly what was strongly reachable. An empty entry then holds a freed key
        exactly where an all-weak table had an unreachable key in an empty entry
        before, if outside all-weak tables the keys of empty entries were live. */
    method FullGc() returns (ghost run: seq<State>)
      requires Inv(View())
      modifies this`body, this`color, this`gray, this`grayagain, this`weak, this`ephemeron, this`allweak,
        this`allgc, this`cursor, this`phase, this`white
      ensures Inv(View()) && phase == Pause
      ensures body.Keys == old(Reach(Graph(View()), LuaMutator.Roots(View())))
      ensures Run(run) && run[0] == old(View()) && run[|run| - 1] == View()
      ensures CollectorRun(run)
      ensures mainthread in body && running in body && In(registry, body.Keys) && AllIn(mt, body.Keys)
      ensures AllCollected(old(body), body, old(Reach(Graph(View()), LuaMutator.Roots(View()))))
      ensures forall r :: r in body ==> KeptByMode(old(body)[r], body[r], old(Reach(Graph(View()), LuaMutator.Roots(View()))))
      ensures old(EmptiesLive(View())) ==>
        forall r, i: nat :: HoldsFreed(body, r, i) <==> KeyLost(old(body), r, i, old(Reach(Graph(View()), LuaMutator.Roots(View()))))
    {
      hide Inv, Cycling, Collects, Tidy, Reach, EmptiesLive, HoldsFreed, KeyLost, Run, AllCollected, KeptByMode, CollectorRun;
      ghost var s, reach := View(), Reach(Graph(View()), Roots(View()));
      run := AbandonMark();
      ghost var done;
      done, run := RunUntil(Pause, reach, s.body, false, run);
      CyclingInv(View(), reach, s.body, false, run);
      ghost var t := View();
      SingleStep();
      CyclingStep(t, View(), reach, s.body, false, run);
      StepProgress(t, View());
      if Tidy(t) { TidyStep(t, View()); }
      run := run + [View()];
      done, run := RunUntil(CallFin, reach, s.body, false, run);
      done, run := RunUntil(Pause, reach, s.body, done, run);
      CyclingEnd(View(), reach, s.body, run);
      ModesKept(s, body, reach);
      if EmptiesLive(s) { TidyEmpties(View()); }
    }
  
    // ----- write barriers -----

    /** luaC_barrier: `v` was stored in `o`. The collector moves forward to the
        value, or, when sweeping, sweeps the holder ahead of time. */
    method ForwardBarrier(o: Ref, v: Value, ghost rest: seq<Value>)
      requires InvBut(View(), o, [v] + rest)
      modifies this`color, this`gray
      ensures ForwardStep(old(View()), o, v, View()) && InvBut(View(), o, rest)
    {
      hide InvBut, MarkedForward, Marking, MarksMore;
      ghost var s := View();
      InvButKeys(s, o, [v] + rest);
      assert In(([v] + rest)[0], body.Keys);
      if v.Obj? && color[o].Black? && color[v.ref].White? {
        BarrierAsserts(s, o, v, rest);
        if Keeps(phase) {
          ForwardReady(s, o, v, rest);
          ReallyMark(v.ref, body.Keys, {}, Blacks(color));
          MarkingBlack(body, up, color, body.Keys, {}, Blacks(s.color));
          ForwardMarked(s, v, color, gray);
          assert View() == s.(color := color, gray := gray);
          ForwardMarks(s, o, v, rest, View());
        } else {
          assert Sweeps(phase);
          SweepsHolder(s, o, v, rest);
          color := color[o := White(white)];
          assert View() == s.(color := color);
        }
      } else {
        NoBarrierNeeded(s, o, v, rest);
      }
    }

    /** luaC_barrierback: the table goes back to gray, to be visited again. */
    method BackBarrier(t: Ref, v: Value, ghost rest: seq<Value>)
      requires InvBut(View(), t, [v] + rest) && t in body && body[t].Table?
      modifies this`color, this`grayagain
      ensures BackStep(old(View()), t, v, View()) && InvBut(View(), t, rest)
    {
      hide InvBut;
      ghost var s := View();
      InvButKeys(s, t, [v] + rest);
      assert In(([v] + rest)[0], body.Keys);
      if v.Obj? && color[t].Black? && color[v.ref].White? {
        BarrierAsserts(s, t, v, rest);
        BackLinks(s, t, v, rest);
        color := color[t := Gray];
        grayagain := [t] + grayagain;
        assert View() == s.(color := color, lists := s.lists.(again := grayagain));
      } else {
        NoBarrierNeeded(s, t, v, rest);
      }
    }

    /** Any write to an object: the new contents `b` hold nothing but the old ones
        and the `added` values, and each added value gets the barrier its kind of
        store uses. */
    method StoreObject(o: Ref, b: Body, added: seq<Value>, barrier: Barrier)
      requires Inv(View()) && Enabled(View(), Store(o, b, added, barrier))
      modifies this`body, this`color, this`gray, this`grayagain
      ensures Mutates(old(View()), Store(o, b, added, barrier), View()) && Inv(View())
      ensures body == old(body)[o := b]
    {
      hide Inv, InvBut, Enabled, ForwardStep, BackStep, Barriers;
      ghost var s, e := View(), Store(o, b, added, barrier);
      EnabledStore(s, e);
      StoreWrites(s, e);
      body := body[o := b];
      assert View() == Write(s, e);
      ghost var trail := [View()];
      if barrier != NoBarrier {
        for i := 0 to |added|
          invariant InvBut(View(), o, added[i..]) && body == old(body)[o := b]
          invariant |trail| == i + 1 && trail[0] == Write(s, e) && trail[i] == View()
          invariant forall j :: 0 <= j < i ==>
            if barrier.Forward? then ForwardStep(trail[j], o, added[j], trail[j + 1]) else BackStep(trail[j], o, added[j], trail[j + 1])
        {
          assert added[i..] == [added[i]] + added[i+1..];
          if barrier == Forward {
            ForwardBarrier(o, added[i], added[i+1..]);
          } else {
            BackBarrier(o, added[i], added[i+1..]);
          }
          trail := trail + [View()];
        }
        BarrierTrail(trail, o, added, barrier);
      } else {
        NoBarriers(View(), o, added);
      }
      MutateKeeps(s, e, View());
    }

    /** OP_SETUPVAL and luaC_upvalbarrier: a closed upvalue is shared by closures of
        any colour, so the value is marked whenever the collector is marking. */
    method SetUpvalue(c: Cell, v: Value)
      requires Inv(View()) && Enabled(View(), SetCell(c, v))
      modifies this`up, this`color, this`gray
      ensures Mutates(old(View()), SetCell(c, v), View()) && Inv(View())
      ensures up == old(up)[c := v]
    {
      hide Inv, MarkedForward, Marking, MarksMore;
      ghost var s, e := View(), SetCell(c, v);
      if v.Obj? { assert Usable(s, v); AccessibleLive(s, v.ref); }
      up := up[c := v];
      ghost var w := View();
      assert w == Write(s, e);
      if Keeps(phase) && v.Obj? {
        CellReady(s, c, v);
        MarkValue(v, body.Keys, {}, Blacks(color));
        MarkingBlack(body, up, color, body.Keys, {}, Blacks(w.color));
        ForwardMarked(w, v, color, gray);
        assert View() == w.(color := color, gray := gray);
      }
      CellKeeps(s, e, View());
    }
  
    /** lua_setmetatable: a forward barrier for the metatable. `mode` is the weak
        mode that the new metatable gives a table. */
    method SetMetatable(o: Ref, meta: Value, mode: Mode)
      requires Inv(View()) && o in body && (body[o].Table? || body[o].Udata?)
      requires Accessible(Graph(View()), LuaMutator.Roots(View()), o) && Usable(View(), meta)
      modifies this`body, this`color, this`gray, this`grayagain
      ensures Inv(View())
      ensures Mutates(old(View()), Store(o, WithMeta(old(body[o]), meta, mode), [meta], Forward), View())
      ensures o in body && body == old(body)[o := body[o]]
      ensures old(body[o].Table?) ==> body[o] == Table(meta, mode, old(body)[o].arr, old(body)[o].node)
      ensures old(body[o].Udata?) ==> body[o] == Udata(meta, old(body)[o].user)
    {
      hide Inv, Enabled, Accessible, Usable;
      MetaEnabled(View(), o, meta, mode);
      StoreObject(o, WithMeta(body[o], meta, mode), [meta], Forward);
    }

    /** luaC_newobj: the object gets the current white and goes to the front of
        `allgc`; its creator leaves it on the stack of `thread`. */
    method NewObject(r: Ref, b: Body, thread: Ref)
      requires Inv(View()) && Enabled(View(), New(r, b, thread))
      modifies this`body, this`color, this`allgc, this`cursor
      ensures Mutates(old(View()), New(r, b, thread), View()) && Inv(View())
      ensures body.Keys == old(body).Keys + {r} && body[r] == b && color[r] == White(white) && allgc == [r] + old(allgc)
      ensures thread in old(body) && old(body)[thread].Thread? && body[thread] == Thread(old(body)[thread].stack + [Obj(r)])
      ensures forall o :: o in old(body) && o != thread ==> body[o] == old(body)[o]
      ensures Accessible(Graph(View()), LuaMutator.Roots(View()), r)
    {
      hide Inv, Accessible, Enabled, Mutates;
      ghost var s, e := View(), New(r, b, thread);
      EnabledNew(s, e);
      body := body[r := b][thread := Push(body[thread], Obj(r))];
      color := color[r := White(white)];
      allgc := [r] + allgc;
      if cursor.InAllGc? && cursor.pos > 0 { cursor := InAllGc(cursor.pos + 1); }
      NewWritten(s, r, b, thread, View());
      NewKeeps(s, e, View());
      PushAccessible(s, e, View());
    }

    /** A short string found in the string table, dead or not, is used again. */
    method InternString(r: Ref, thread: Ref)
      requires Inv(View()) && Enabled(View(), Intern(r, thread))
      modifies this`body, this`color
      ensures Mutates(old(View()), Intern(r, thread), View()) && Inv(View())
      ensures thread in old(body) && old(body)[thread].Thread?
      ensures body == old(body)[thread := Thread(old(body)[thread].stack + [Obj(r)])]
      ensures r in color && color[r] == if old(color)[r] == White(!white) then White(white) else old(color)[r]
      ensures Accessible(Graph(View()), LuaMutator.Roots(View()), r)
    {
      hide Inv, Accessible, HeldIn, ClosedAll, AllIn;
      ghost var s, e := View(), Intern(r, thread);
      InvKeys(s);
      if r in color && color[r] == White(!white) { color := color[r := White(white)]; }
      body := body[thread := Push(body[thread], Obj(r))];
      assert View() == Write(s, e);
      InternKeeps(s, e, View());
      PushAccessible(s, e, View());
    }

    /** Any step of the program. The steps that are a single assignment in the source
        (a new closed upvalue, the registry, the metatable of a basic type, the running
        coroutine) have no barrier. */
    method Perform(e: Event)
      requires Inv(View()) && Enabled(View(), e)
      modifies this
      ensures Mutates(old(View()), e, View()) && Inv(View())
      ensures e.SetCell? || e.NewCell? ==> up == old(up)[e.c := e.v]
      ensures registry == (if e.SetRegistry? then e.v else old(registry)) && running == if e.Resume? then e.thread else old(running)
      ensures e.SetTypeMeta? ==> e.i < |old(mt)| && mt == old(mt)[e.i := e.v]
      ensures !e.SetCell? && !e.NewCell? ==> up == old(up)
      ensures !e.SetTypeMeta? ==> mt == old(mt)
      ensures !e.Store? && !e.New? && !e.Intern? ==> body == old(body)
    {
      hide Inv, Enabled, Barriers, UpvalStep;
      ghost var s := View();
      match e {
        case Store(o, b, added, barrier) => StoreObject(o, b, added, barrier);
        case SetCell(c, v) => SetUpvalue(c, v);
        case New(r, b, t) => NewObject(r, b, t);
        case Intern(r, t) => InternString(r, t);
        case NewCell(c, v) =>
          up := up[c := v];
          assert View() == Write(s, e);
          MutateKeeps(s, e, View());
        case SetRegistry(v) =>
          registry := v;
          assert View() == Write(s, e);
          MutateKeeps(s, e, View());
        case SetTypeMeta(i, v) =>
          MetaIndex(s, i, v);
          mt := mt[i := v];
          assert View() == Write(s, e);
          MutateKeeps(s, e, View());
        case Resume(t) =>
          running := t;
          assert View() == Write(s, e);
          MutateKeeps(s, e, View());
      }
    }
  }

  lemma MetaIndex(s: State, i: nat, v: Value)
    requires Enabled(s, SetTypeMeta(i, v))
    ensures i < |s.mt|
  {
  }
}
