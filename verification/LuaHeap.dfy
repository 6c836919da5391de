/** Lua's collectable objects, the references they hold, and which of those
    references keep their target alive. */
module LuaHeap {

  type Ref = nat    // address of a collectable object
  type Cell = nat   // address of a closed upvalue (shared, not itself collectable)

  /** A tagged value. `DeadKey` marks the key of an emptied hash entry. */
  datatype Value = Nil | Scalar(bits: int) | DeadKey | Obj(ref: Ref)

  /** How a table holds its entries, as its metatable's `__mode` says. */
  datatype Mode = Strong | WeakValues | Ephemeron | AllWeak

  datatype Entry = Entry(key: Value, val: Value)

  datatype Body =
    | Str(text: string)
    | Udata(meta: Value, user: Value)
    | Table(meta: Value, mode: Mode, arr: seq<Value>, node: seq<Entry>)
    | LClosure(proto: Value, cells: seq<Cell>)
    | CClosure(upvalues: seq<Value>)
    | Proto(consts: seq<Value>, cache: Value)
    | Thread(stack: seq<Value>)

  datatype Heap = Heap(body: map<Ref, Body>, up: map<Cell, Value>)

  /** Strings and userdata are blackened as soon as they are marked. */
  predicate Leaf(b: Body) {
    b.Str? || b.Udata?
  }

  /** The mode that the letters of a metatable's `__mode` string give a table. */
  function ModeOf(text: string): Mode {
    if 'k' in text then (if 'v' in text then AllWeak else Ephemeron)
    else if 'v' in text then WeakValues else Strong
  }

  ghost predicate IsText(v: Value, body: map<Ref, Body>, text: string) {
    v.Obj? && v.ref in body && body[v.ref] == Str(text)
  }

  ghost predicate GivesMode(meta: Value, body: map<Ref, Body>, text: string) {
    && meta.Obj? && meta.ref in body && body[meta.ref].Table?
    && exists i :: 0 <= i < |body[meta.ref].node|
         && IsText(body[meta.ref].node[i].key, body, "__mode") && IsText(body[meta.ref].node[i].val, body, text)
  }

  /** Every table has the mode that its metatable gives it. */
  ghost predicate RealModes(body: map<Ref, Body>) {
    forall r :: r in body && body[r].Table? ==>
      || (exists text: string :: GivesMode(body[r].meta, body, text) && body[r].mode == ModeOf(text))
      || (body[r].mode.Strong? && forall text: string :: !GivesMode(body[r].meta, body, text))
  }

  ghost predicate In(v: Value, s: set<Ref>) {
    v.Obj? ==> v.ref in s
  }

  ghost predicate AllIn(vs: seq<Value>, s: set<Ref>) {
    forall i :: 0 <= i < |vs| ==> In(vs[i], s)
  }

  ghost predicate IsStr(v: Value, body: map<Ref, Body>) {
    v.Obj? && v.ref in body && body[v.ref].Str?
  }

  /** References held outside table contents; none of them is weak. */
  ghost predicate SlotsIn(b: Body, up: map<Cell, Value>, s: set<Ref>) {
    match b
    case Str(_) => true
    case Udata(m, u) => In(m, s) && In(u, s)
    case Table(m, _, _, _) => In(m, s)
    case LClosure(p, cells) =>
      In(p, s) && forall i :: 0 <= i < |cells| && cells[i] in up ==> In(up[cells[i]], s)
    case CClosure(vs) => AllIn(vs, s)
    case Proto(vs, _) => AllIn(vs, s)
    case Thread(vs) => AllIn(vs, s)
  }

  /** Keys and values of the occupied entries. */
  ghost predicate KeysIn(node: seq<Entry>, s: set<Ref>) {
    forall i :: 0 <= i < |node| && node[i].val != Nil ==> In(node[i].key, s)
  }

  ghost predicate ValsIn(node: seq<Entry>, s: set<Ref>) {
    forall i :: 0 <= i < |node| && node[i].val != Nil ==> In(node[i].val, s)
  }

  /** Every reference a program can follow out of `b`, weak or not, leads into `s`.
      An entry whose value is nil is empty: its key is no longer a reference. */
  ghost predicate HeldIn(b: Body, up: map<Cell, Value>, s: set<Ref>) {
    && SlotsIn(b, up, s)
    && (b.Table? ==> AllIn(b.arr, s) && KeysIn(b.node, s) && ValsIn(b.node, s))
    && (b.Proto? ==> In(b.cache, s))
  }

  ghost predicate StrArrIn(vs: seq<Value>, body: map<Ref, Body>, s: set<Ref>) {
    forall i :: 0 <= i < |vs| && IsStr(vs[i], body) ==> In(vs[i], s)
  }

  ghost predicate StrKeysIn(node: seq<Entry>, body: map<Ref, Body>, s: set<Ref>) {
    forall i :: 0 <= i < |node| && node[i].val != Nil && IsStr(node[i].key, body) ==> In(node[i].key, s)
  }

  ghost predicate StrValsIn(node: seq<Entry>, body: map<Ref, Body>, s: set<Ref>) {
    forall i :: 0 <= i < |node| && node[i].val != Nil && IsStr(node[i].val, body) ==> In(node[i].val, s)
  }

  /** An ephemeron entry keeps its value alive only while its key is alive. */
  ghost predicate EphemeronIn(node: seq<Entry>, s: set<Ref>) {
    forall i :: 0 <= i < |node| && node[i].val != Nil && In(node[i].key, s) ==> In(node[i].val, s)
  }

  /** A string key of an all-weak table stays while the entry's value stays. */
  ghost predicate AllWeakKeysIn(node: seq<Entry>, body: map<Ref, Body>, s: set<Ref>) {
    forall i :: 0 <= i < |node| && node[i].val != Nil && In(node[i].val, s) && IsStr(node[i].key, body) ==>
      In(node[i].key, s)
  }

  /** The references of table contents that keep their targets alive. Strings
      count as values, so a weak table never drops them. */
  ghost predicate ContentsIn(mode: Mode, arr: seq<Value>, node: seq<Entry>, body: map<Ref, Body>, s: set<Ref>) {
    match mode
    case Strong => AllIn(arr, s) && KeysIn(node, s) && ValsIn(node, s)
    case WeakValues => StrArrIn(arr, body, s) && KeysIn(node, s) && StrValsIn(node, body, s)
    case Ephemeron => AllIn(arr, s) && StrKeysIn(node, body, s) && EphemeronIn(node, s)
    case AllWeak => StrArrIn(arr, body, s) && StrValsIn(node, body, s) && AllWeakKeysIn(node, body, s)
  }

  ghost predicate TableIn(b: Body, body: map<Ref, Body>, s: set<Ref>) {
    b.Table? ==> ContentsIn(b.mode, b.arr, b.node, body, s)
  }

  ghost predicate StrongIn(b: Body, h: Heap, s: set<Ref>) {
    SlotsIn(b, h.up, s) && TableIn(b, h.body, s)
  }

  /** `s` is closed under the references that keep objects alive. */
  ghost predicate Closed(h: Heap, s: set<Ref>) {
    forall o :: o in s && o in h.body ==> StrongIn(h.body[o], h, s)
  }

  /** `s` is closed under every reference. */
  ghost predicate ClosedAll(h: Heap, s: set<Ref>) {
    forall o :: o in s && o in h.body ==> HeldIn(h.body[o], h.up, s)
  }

  /** Strong reachability is the least closed set over the roots. */
  ghost predicate StronglyReachable(h: Heap, roots: seq<Value>, r: Ref) {
    forall s: set<Ref> :: Closed(h, s) && AllIn(roots, s) ==> r in s
  }

  /** What the program can get hold of by following references of any kind. */
  ghost predicate Accessible(h: Heap, roots: seq<Value>, r: Ref) {
    forall s: set<Ref> :: ClosedAll(h, s) && AllIn(roots, s) ==> r in s
  }

  ghost function Reach(h: Heap, roots: seq<Value>): set<Ref> {
    set r | r in h.body && StronglyReachable(h, roots, r)
  }

  // ----- monotonicity -----

  lemma HeldMono(b: Body, up: map<Cell, Value>, s: set<Ref>, t: set<Ref>)
    requires HeldIn(b, up, s) && s <= t
    ensures HeldIn(b, up, t)
  {
  }

  lemma HeldStrong(b: Body, h: Heap, s: set<Ref>)
    requires HeldIn(b, h.up, s)
    ensures StrongIn(b, h, s)
  {
  }

  lemma ClosedAllClosed(h: Heap, s: set<Ref>)
    requires ClosedAll(h, s)
    ensures Closed(h, s)
  {
    forall o | o in s && o in h.body ensures StrongIn(h.body[o], h, s) {
      HeldStrong(h.body[o], h, s);
    }
  }

  // ----- the least closed set -----

  /** A closed set over the roots holds everything strongly reachable. */
  lemma ReachLeast(h: Heap, roots: seq<Value>, s: set<Ref>)
    requires Closed(h, s) && AllIn(roots, s)
    ensures Reach(h, roots) <= s
  {
  }

  /** `b` and `b'` hold the same references: at most, empty entries of a table that
      is not all-weak got dead keys. */
  ghost predicate SameContents(b: Body, b': Body) {
    || b == b'
    || (b.Table? && !b.mode.AllWeak? && b'.Table? && b' == b.(node := b'.node) && |b'.node| == |b.node|
        && forall i :: 0 <= i < |b.node| ==>
             b'.node[i] == b.node[i] || (b.node[i].val == Nil && b'.node[i] == Entry(DeadKey, Nil)))
  }

  lemma SameContentsHeld(b: Body, b': Body, up: map<Cell, Value>, s: set<Ref>)
    requires SameContents(b, b')
    ensures HeldIn(b, up, s) <==> HeldIn(b', up, s)
    ensures SlotsIn(b, up, s) <==> SlotsIn(b', up, s)
  {
  }

  /** `b'` holds no reference that `b` does not: elements became nil, entries empty. */
  ghost predicate Reduced(b: Body, b': Body) {
    || b == b'
    || (b.Table? && b'.Table? && b'.meta == b.meta && b'.mode == b.mode
        && |b'.arr| == |b.arr| && |b'.node| == |b.node|
        && (forall i :: 0 <= i < |b.arr| ==> b'.arr[i] == b.arr[i] || b'.arr[i] == Nil)
        && (forall i :: 0 <= i < |b.node| && b'.node[i].val != Nil ==> b'.node[i] == b.node[i]))
  }

  lemma SameContentsReduced(b: Body, b': Body)
    requires SameContents(b, b')
    ensures Reduced(b, b')
  {
  }

  lemma ReducedHeld(b: Body, b': Body, up: map<Cell, Value>, s: set<Ref>)
    requires Reduced(b, b') && HeldIn(b, up, s)
    ensures HeldIn(b', up, s)
  {
  }

  lemma ReducedStrong(b: Body, b': Body, h: Heap, h': Heap, s: set<Ref>)
    requires Reduced(b, b') && h.up == h'.up
    requires forall v :: IsStr(v, h'.body) == IsStr(v, h.body)
    requires StrongIn(b, h, s)
    ensures StrongIn(b', h', s)
  {
  }

  /** Within a set that is closed under all references, strong reachability
      depends only on the objects of that set. */
  lemma StrongInMeet(b: Body, h: Heap, h': Heap, x: set<Ref>, n: set<Ref>)
    requires StrongIn(b, h', x) && HeldIn(b, h.up, n) && h.up == h'.up
    requires n <= h.body.Keys && n <= h'.body.Keys
    requires forall r :: r in n ==> h.body[r].Str? == h'.body[r].Str?
    ensures StrongIn(b, h, x * n)
  {
    forall v: Value | In(v, n) ensures IsStr(v, h.body) == IsStr(v, h'.body) {}
    if b.Table? {
      assert ContentsIn(b.mode, b.arr, b.node, h.body, x * n);
    }
  }

  lemma ReachFrame(h: Heap, h': Heap, roots: seq<Value>, n: set<Ref>)
    requires h.up == h'.up && n <= h.body.Keys && n <= h'.body.Keys
    requires forall r :: r in n ==> h.body[r] == h'.body[r]
    requires ClosedAll(h, n) && AllIn(roots, n)
    ensures Reach(h, roots) <= Reach(h', roots)
  {
    ClosedAllClosed(h, n);
    ReachLeast(h, roots, n);
    forall r | r in Reach(h, roots) ensures StronglyReachable(h', roots, r) {
      forall x: set<Ref> | Closed(h', x) && AllIn(roots, x) ensures r in x {
        forall o | o in x * n && o in h.body ensures StrongIn(h.body[o], h, x * n) {
          StrongInMeet(h.body[o], h, h', x, n);
        }
        assert Closed(h, x * n);
        assert AllIn(roots, x * n);
      }
    }
  }

  /** The least closed set is itself closed. */
  lemma ReachClosed(h: Heap, roots: seq<Value>, n: set<Ref>)
    requires n <= h.body.Keys && ClosedAll(h, n) && AllIn(roots, n)
    ensures Closed(h, Reach(h, roots)) && AllIn(roots, Reach(h, roots)) && Reach(h, roots) <= n
  {
    ClosedAllClosed(h, n);
    ReachLeast(h, roots, n);
    forall o | o in Reach(h, roots) ensures StrongIn(h.body[o], h, Reach(h, roots)) {
      assert HeldIn(h.body[o], h.up, n);
    }
  }
}
