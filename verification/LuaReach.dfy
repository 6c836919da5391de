/** Strong reachability again, by chains of references from the roots. */
module LuaReach {
  import opened LuaHeap

  /** Whether the key of an occupied entry keeps object `r` alive while `s` is alive. */
  ghost predicate KeyKeeps(mode: Mode, e: Entry, body: map<Ref, Body>, s: set<Ref>, r: Ref) {
    && e.val != Nil && e.key == Obj(r)
    && match mode
       case Strong => true
       case WeakValues => true
       case Ephemeron => IsStr(e.key, body)
       case AllWeak => IsStr(e.key, body) && In(e.val, s)
  }

  /** ... and whether its value does: that of an ephemeron table while its key lives. */
  ghost predicate ValueKeeps(mode: Mode, e: Entry, body: map<Ref, Body>, s: set<Ref>, r: Ref) {
    && e.val == Obj(r)
    && match mode
       case Strong => true
       case WeakValues => IsStr(e.val, body)
       case Ephemeron => In(e.key, s)
       case AllWeak => IsStr(e.val, body)
  }

  ghost predicate ElementKeeps(mode: Mode, v: Value, body: map<Ref, Body>, r: Ref) {
    v == Obj(r) && (mode.Strong? || mode.Ephemeron? || IsStr(v, body))
  }

  /** A reference of `b` keeps `r` alive while `s` is alive. */
  ghost predicate Holds(b: Body, h: Heap, s: set<Ref>, r: Ref) {
    match b
    case Str(_) => false
    case Udata(meta, user) => meta == Obj(r) || user == Obj(r)
    case Table(meta, mode, arr, node) =>
      || meta == Obj(r)
      || (exists i :: 0 <= i < |arr| && ElementKeeps(mode, arr[i], h.body, r))
      || (exists i :: 0 <= i < |node| && (KeyKeeps(mode, node[i], h.body, s, r) || ValueKeeps(mode, node[i], h.body, s, r)))
    case LClosure(proto, cells) =>
      proto == Obj(r) || exists i :: 0 <= i < |cells| && cells[i] in h.up && h.up[cells[i]] == Obj(r)
    case CClosure(upvalues) => Obj(r) in upvalues
    case Proto(consts, _) => Obj(r) in consts
    case Thread(stack) => Obj(r) in stack
  }

  /** What chains of at most `n` references lead to. */
  ghost function Layer(h: Heap, roots: seq<Value>, n: nat): set<Ref> {
    if n == 0 then set r | r in h.body && Obj(r) in roots
    else Layer(h, roots, n - 1) + set r | r in h.body && HeldBy(h, Layer(h, roots, n - 1), r)
  }

  ghost predicate HeldBy(h: Heap, s: set<Ref>, r: Ref) {
    exists o :: o in s && o in h.body && Holds(h.body[o], h, s, r)
  }

  /** A set has what `b` keeps alive exactly if it has each such object. */
  lemma StrongIsHolds(b: Body, h: Heap, s: set<Ref>)
    ensures StrongIn(b, h, s) <==> forall r :: Holds(b, h, s, r) ==> r in s
  {
    if StrongIn(b, h, s) {
      forall r | Holds(b, h, s, r) ensures r in s {}
    }
    if forall r :: Holds(b, h, s, r) ==> r in s {
      forall v: Value | v.Obj? && Holds(b, h, s, v.ref) ensures In(v, s) {}
      HoldsStrong(b, h, s);
    }
  }

  lemma HoldsStrong(b: Body, h: Heap, s: set<Ref>)
    requires forall v: Value :: v.Obj? && Holds(b, h, s, v.ref) ==> In(v, s)
    ensures StrongIn(b, h, s)
  {
    match b
    case Table(meta, mode, arr, node) =>
      forall i | 0 <= i < |arr| && arr[i].Obj? && ElementKeeps(mode, arr[i], h.body, arr[i].ref) ensures In(arr[i], s) {
        assert Holds(b, h, s, arr[i].ref);
      }
      forall i | 0 <= i < |node| && node[i].key.Obj? && KeyKeeps(mode, node[i], h.body, s, node[i].key.ref) ensures In(node[i].key, s) {
        assert Holds(b, h, s, node[i].key.ref);
      }
      forall i | 0 <= i < |node| && node[i].val.Obj? && ValueKeeps(mode, node[i], h.body, s, node[i].val.ref) ensures In(node[i].val, s) {
        assert Holds(b, h, s, node[i].val.ref);
      }
    case LClosure(proto, cells) =>
      forall i | 0 <= i < |cells| && cells[i] in h.up && h.up[cells[i]].Obj? ensures In(h.up[cells[i]], s) {
        assert Holds(b, h, s, h.up[cells[i]].ref);
      }
    case _ =>
  }

  lemma HoldsMono(b: Body, h: Heap, s: set<Ref>, t: set<Ref>, r: Ref)
    requires Holds(b, h, s, r) && s <= t
    ensures Holds(b, h, t, r)
  {
  }

  /** Chains stay in every closed set over the roots. */
  lemma {:induction false} LayerIn(h: Heap, roots: seq<Value>, n: nat, s: set<Ref>)
    requires Closed(h, s) && AllIn(roots, s)
    ensures Layer(h, roots, n) <= s
  {
    hide Holds, StrongIn;
    if n > 0 {
      var p := Layer(h, roots, n - 1);
      LayerIn(h, roots, n - 1, s);
      forall r | HeldBy(h, p, r) ensures r in s {
        var o :| o in p && o in h.body && Holds(h.body[o], h, p, r);
        HoldsMono(h.body[o], h, p, s, r);
        StrongIsHolds(h.body[o], h, s);
      }
    }
  }

  /** Each layer adds something, or no later one does. */
  lemma {:induction false} LayerFills(h: Heap, roots: seq<Value>, n: nat)
    ensures Layer(h, roots, n) <= Layer(h, roots, n + 1) <= h.body.Keys
    ensures Layer(h, roots, n) == Layer(h, roots, n + 1) || |Layer(h, roots, n)| >= n
  {
    hide HeldBy;
    if n > 0 {
      LayerFills(h, roots, n - 1);
      if Layer(h, roots, n - 1) != Layer(h, roots, n) {
        Larger(Layer(h, roots, n - 1), Layer(h, roots, n));
      }
    }
  }

  lemma Larger(s: set<Ref>, t: set<Ref>)
    requires s < t
    ensures |s| < |t|
  {
    var d := t - s;
    assert t == s + d && |t| == |s| + |d|;
    assert d != {};
  }

  lemma LayerStops(h: Heap, roots: seq<Value>)
    ensures Layer(h, roots, |h.body.Keys| + 1) == Layer(h, roots, |h.body.Keys|)
  {
    var n := |h.body.Keys|;
    LayerFills(h, roots, n);
    var l := Layer(h, roots, n);
    if l != Layer(h, roots, n + 1) { Larger(l, h.body.Keys); }
  }

  lemma {:induction false} RootsIn(h: Heap, roots: seq<Value>, n: nat)
    ensures Layer(h, roots, 0) <= Layer(h, roots, n)
  {
    hide HeldBy;
    if n > 0 { RootsIn(h, roots, n - 1); }
  }

  /** Where no reference dangles, strong reachability is reachability by chains of
      references, ephemeron entries counting once their key has been reached. */
  lemma ReachByChains(h: Heap, roots: seq<Value>, n: set<Ref>)
    requires n <= h.body.Keys && ClosedAll(h, n) && AllIn(roots, n)
    ensures Reach(h, roots) == Layer(h, roots, |h.body.Keys|)
  {
    hide Holds, StrongIn, HeldIn;
    var l := Layer(h, roots, |h.body.Keys|);
    ReachClosed(h, roots, n);
    LayerIn(h, roots, |h.body.Keys|, Reach(h, roots));
    LayerStops(h, roots);
    RootsIn(h, roots, |h.body.Keys|);
    forall o | o in l && o in h.body ensures StrongIn(h.body[o], h, l) {
      forall r | Holds(h.body[o], h, l, r) ensures r in l {
        assert HeldIn(h.body[o], h.up, n);
        HoldsHeld(h.body[o], h, l, n, r);
        assert HeldBy(h, l, r);
      }
      StrongIsHolds(h.body[o], h, l);
    }
    forall i | 0 <= i < |roots| ensures In(roots[i], l) {
      if roots[i].Obj? { assert Obj(roots[i].ref) in roots && In(roots[i], n); }
    }
    ReachLeast(h, roots, l);
  }

  lemma HoldsHeld(b: Body, h: Heap, s: set<Ref>, n: set<Ref>, r: Ref)
    requires Holds(b, h, s, r) && HeldIn(b, h.up, n)
    ensures r in n
  {
  }
}
