/** The ordered tree. Its nodes are rotated in place; the heights that guide the
    rotations may be stale after a removal. */
module OrderedTree {
  import opened TreeItems
  import opened TreeHeights
  import opened Options

  // ----- nodes -----

  class Node {
    var key: int
    var val: int
    var height: int
    var left: Node?
    var right: Node?
    ghost var repr: set<Node>     // the nodes of the tree rooted here
    ghost var items: seq<Item>    // their items, in order
    ghost var shape: Shape        // their recorded heights

    /** A proper tree. The heights are only known to be positive: removal leaves them stale. */
    ghost predicate Valid()
      reads this, repr
      decreases repr
    {
      && this in repr && height >= 1
      && (left != null ==> left in repr && left.repr <= repr && this !in left.repr && left.Valid())
      && (right != null ==> right in repr && right.repr <= repr && this !in right.repr && right.Valid())
      && (left != null && right != null ==> left.repr !! right.repr)
      && repr == {this} + ReprOf(left) + ReprOf(right)
      && items == ItemsOf(left) + [Item(key, val)] + ItemsOf(right) && shape == Shape(height, ShapeOf(left), ShapeOf(right))
    }

    /** What one node must satisfy, given that its subtrees are proper. */
    ghost predicate Linked()
      reads this, left, right
    {
      && height >= 1 && this !in ReprOf(left) && this !in ReprOf(right) && ReprOf(left) !! ReprOf(right)
      && (left != null ==> left in left.repr) && (right != null ==> right in right.repr)
      && repr == {this} + ReprOf(left) + ReprOf(right)
      && items == ItemsOf(left) + [Item(key, val)] + ItemsOf(right) && shape == Shape(height, ShapeOf(left), ShapeOf(right))
    }

    lemma Parts()
      requires Valid()
      ensures Linked() && ValidTree(left) && ValidTree(right) && this in repr && ReprOf(left) < repr && ReprOf(right) < repr
      ensures left != null ==> left.shape.Shape? && left.shape.height == left.height >= 1
      ensures right != null ==> right.shape.Shape? && right.shape.height == right.height >= 1
    {
    }

    lemma Whole()
      requires Linked() && ValidTree(left) && ValidTree(right)
      ensures Valid()
    {
    }

    constructor (k: int, v: int)
      ensures Valid() && fresh(this) && repr == {this} && items == [Item(k, v)] && left == null && right == null && height == 1
    {
      key, val, height, left, right := k, v, 1, null, null;
      repr, items, shape := {this}, [Item(k, v)], Over(Empty, Empty);
    }
  }

  ghost function ReprOf(n: Node?): set<Node>
    reads n
  {
    if n == null then {} else n.repr
  }

  ghost function ItemsOf(n: Node?): seq<Item>
    reads n
  {
    if n == null then [] else n.items
  }

  ghost function ShapeOf(n: Node?): Shape
    reads n
  {
    if n == null then Empty else n.shape
  }

  ghost predicate ValidTree(n: Node?)
    reads n, ReprOf(n)
  {
    n == null || n.Valid()
  }

  lemma ShapeParts(n: Node)
    requires n.Valid()
    ensures Levels(n.shape, n, if n.left == null then 0 else n.left.height, if n.right == null then 0 else n.right.height)
  {
    hide Node.Valid;
    n.Parts();
  }

  method Height(n: Node?) returns (h: int)
    ensures h == if n == null then 0 else n.height
  {
    h := if n == null then 0 else n.height;
  }

  /** btree_recalc_height */
  method RecalcHeight(i: Node)
    requires i.Valid()
    modifies i`height, i`shape
    ensures i.Valid() && i.shape == Over(old(ShapeOf(i.left)), old(ShapeOf(i.right)))
    ensures i.left == null && i.right == null ==> i.height == 1
    ensures i.left != null && (i.right == null || i.left.height >= i.right.height) ==> i.height == 1 + i.left.height
    ensures i.right != null && (i.left == null || i.right.height >= i.left.height) ==> i.height == 1 + i.right.height
  {
    hide Node.Valid;
    i.Parts();
    var l := Height(i.left);
    var r := Height(i.right);
    i.height := (if l > r then l else r) + 1;
    i.shape := Over(ShapeOf(i.left), ShapeOf(i.right));
    i.Whole();
  }

  /** Sets the subtrees of `i`. */
  method Relink(i: Node, l: Node?, r: Node?)
    requires ValidTree(l) && ValidTree(r) && i !in ReprOf(l) && i !in ReprOf(r) && ReprOf(l) !! ReprOf(r) && i.height >= 1
    modifies i
    ensures i.Valid() && i.left == l && i.right == r && i.key == old(i.key) && i.val == old(i.val)
    ensures i.repr == {i} + ReprOf(l) + ReprOf(r) && i.items == ItemsOf(l) + [Item(i.key, i.val)] + ItemsOf(r)
    ensures i.shape == Shape(old(i.height), old(ShapeOf(l)), old(ShapeOf(r)))
  {
    hide Node.Valid;
    if l != null { l.Parts(); }
    if r != null { r.Parts(); }
    i.left := l;
    i.right := r;
    i.repr := {i} + ReprOf(l) + ReprOf(r);
    i.items := ItemsOf(l) + [Item(i.key, i.val)] + ItemsOf(r);
    i.shape := Shape(i.height, ShapeOf(l), ShapeOf(r));
    i.Whole();
  }

  /** Regrouping `x`, `i` and the three subtrees around them. */
  lemma Regroup(x: Node, i: Node, a: set<Node>, b: set<Node>, c: set<Node>, la: seq<Item>, lx: seq<Item>, lb: seq<Item>, li: seq<Item>, lc: seq<Item>)
    ensures {i} + ({x} + a + b) + c == {x} + a + ({i} + b + c)
    ensures (la + lx + lb) + li + lc == la + lx + (lb + li + lc)
  {
  }

  /** btree_rotate_left */
  method RotateLeft(i: Node) returns (r: Node)
    requires i.Valid()
    modifies i.repr
    ensures r.Valid() && r.repr == old(i.repr) && r.items == old(i.items)
    ensures r.shape == TurnLeft(old(i.shape))
    ensures old(i.left) != null ==> ReprOf(r.left) < old(ReprOf(i.left))
  {
    hide Node.Valid;
    i.Parts();
    var x := i.left;
    if x == null { return i; }
    x.Parts();
    var a, b, c := x.left, x.right, i.right;
    Regroup(x, i, ReprOf(a), ReprOf(b), ReprOf(c), ItemsOf(a), [Item(x.key, x.val)], ItemsOf(b), [Item(i.key, i.val)], ItemsOf(c));
    Relink(i, b, c);
    RecalcHeight(i);
    Relink(x, a, i);
    RecalcHeight(x);
    r := x;
  }

  /** btree_rotate_right */
  method RotateRight(i: Node) returns (r: Node)
    requires i.Valid()
    modifies i.repr
    ensures r.Valid() && r.repr == old(i.repr) && r.items == old(i.items)
    ensures r.shape == TurnRight(old(i.shape))
    ensures old(i.right) != null ==> ReprOf(r.right) < old(ReprOf(i.right))
  {
    hide Node.Valid;
    i.Parts();
    var y := i.right;
    if y == null { return i; }
    y.Parts();
    var x, a, b := i.left, y.left, y.right;
    Regroup(i, y, ReprOf(x), ReprOf(a), ReprOf(b), ItemsOf(x), [Item(i.key, i.val)], ItemsOf(a), [Item(y.key, y.val)], ItemsOf(b));
    Relink(i, x, a);
    RecalcHeight(i);
    Relink(y, i, b);
    RecalcHeight(y);
    r := y;
  }

  /** `hl` and `hr` are the recorded heights of the sides of `r`. */
  ghost predicate Levels(s: Shape, r: Node, hl: int, hr: int)
    reads r, r.left, r.right
  {
    && s.Shape? && (s.left.Shape? <==> r.left != null) && (s.right.Shape? <==> r.right != null)
    && 0 <= Ht(s.left) == hl == (if r.left == null then 0 else r.left.height)
    && 0 <= Ht(s.right) == hr == (if r.right == null then 0 else r.right.height)
  }

  /** btree_equilibrate: ends although the heights may be stale, because each rotation
      moves nodes out of the side that seems too high. */
  method Equilibrate(i: Node) returns (r: Node)
    requires i.Valid()
    modifies i.repr
    ensures r.Valid() && r.repr == old(i.repr) && r.items == old(i.items)
    ensures r.shape == Equilibrated(old(i.shape))
    ensures r.right != null ==> r.right.height - (if r.left == null then 0 else r.left.height) <= 1
    ensures old(True(i.shape)) ==> True(r.shape) && (Even(r.shape) <==> old(Outward(i.shape)))
    ensures old(Even(i.shape)) ==> r == i
  {
    hide Node.Valid, TurnLeft, TurnRight, LowerLeft, LowerRight, True, Outward;
    if True(i.shape) {
      EvenExactly(i.shape);
      EquilibratedTrue(i.shape);
    }
    r := i;
    ghost var s, t := i.shape, i.shape;
    var hl := Height(r.left);
    var hr := Height(r.right);
    ShapeParts(r);
    while hl - hr >= 2
      invariant r.Valid() && r.repr == old(i.repr) && r.items == old(i.items)
      invariant t == r.shape && Levels(t, r, hl, hr) && LowerLeft(t) == LowerLeft(s) && (Even(s) ==> r == i && t == s)
      decreases ReprOf(r.left)
    {
      LowerLeftStep(t);
      t := TurnLeft(t);
      r := RotateLeft(r);
      hl := Height(r.left);
      hr := Height(r.right);
      ShapeParts(r);
    }
    LowerLeftStep(t);
    while hr - hl >= 2
      invariant r.Valid() && r.repr == old(i.repr) && r.items == old(i.items)
      invariant t == r.shape && Levels(t, r, hl, hr) && LowerRight(t) == Equilibrated(s) && (Even(s) ==> r == i && t == s)
      decreases ReprOf(r.right)
    {
      LowerRightStep(t);
      t := TurnRight(t);
      r := RotateRight(r);
      hl := Height(r.left);
      hr := Height(r.right);
      ShapeParts(r);
    }
    LowerRightStep(t);
  }

  /** A new node over two subtrees. */
  method NodeOver(k: int, l: Node?, r: Node?) returns (n: Node)
    requires ValidTree(l) && ValidTree(r) && ReprOf(l) !! ReprOf(r)
    ensures n.Valid() && fresh(n) && n.repr == {n} + ReprOf(l) + ReprOf(r)
    ensures n.items == ItemsOf(l) + [Item(k, 0)] + ItemsOf(r) && n.shape == Over(ShapeOf(l), ShapeOf(r))
  {
    hide Node.Valid, Over;
    n := new Node(k, 0);
    Relink(n, l, r);
    RecalcHeight(n);
  }

  /** The last insertion of 1, 3 and 2, in this order: 2 is below 3, 3 below 1. One
      rotation turns a tree that is too high on the right into one too high on the left. */
  method LeanIn() returns (r: Node)
    ensures r.Valid() && True(r.shape) && r.items == [Item(1, 0), Item(2, 0), Item(3, 0)]
    ensures r.left != null && r.left.height == 2 && r.right == null
  {
    hide Node.Valid, Over, True, Equilibrated;
    LeansIn();
    var n2 := NodeOver(2, null, null);
    var n3 := NodeOver(3, n2, null);
    var n1 := NodeOver(1, null, n3);
    r := Equilibrate(n1);
    ShapeParts(r);
  }

  // ----- insertion -----

  /** _btree_insert */
  method Insert(cf: Comparison, root: Node?, i: Node) returns (r: Node)
    requires ValidTree(root) && i.Valid() && i.repr == {i} && i.items == [Item(i.key, i.val)] && i !in ReprOf(root)
    requires Orders(cf) && Sorted(cf, ItemsOf(root))
    modifies ReprOf(root), i
    ensures r.Valid() && r.repr == old(ReprOf(root)) + {i}
    ensures r.items == Added(cf, old(ItemsOf(root)), old(Item(i.key, i.val)))
    ensures old(True(ShapeOf(root)) && i.height == 1) ==> True(r.shape)
    decreases ReprOf(root), 1
  {
    hide Node.Valid, Sorted;
    i.Parts();
    if root == null { return i; }
    root.Parts();
    ghost var x, y := Item(i.key, i.val), Item(root.key, root.val);
    AddedAt(cf, ItemsOf(root.left), y, ItemsOf(root.right), x);
    SortedParts(cf, ItemsOf(root.left), y, ItemsOf(root.right));
    InsertBelow(cf, root, i);
    RecalcHeight(root);
    r := Equilibrate(root);
  }

  /** Inserts into one of the subtrees of `root`. */
  method InsertBelow(cf: Comparison, root: Node, i: Node)
    requires root.Valid() && i.Valid() && i.repr == {i} && i.items == [Item(i.key, i.val)] && i !in root.repr
    requires Orders(cf) && Sorted(cf, ItemsOf(root.left)) && Sorted(cf, ItemsOf(root.right))
    modifies root.repr, i
    ensures root.Valid() && root.repr == old(root.repr) + {i} && root.key == old(root.key) && root.val == old(root.val)
    ensures root.items == var l, y, r := old(ItemsOf(root.left)), Item(root.key, root.val), old(ItemsOf(root.right));
                          var x := old(Item(i.key, i.val));
                          if cf(x.key, y.key) <= 0 then Added(cf, l, x) + [y] + r else l + [y] + Added(cf, r, x)
    ensures old(True(root.shape) && i.height == 1) ==> True(ShapeOf(root.left)) && True(ShapeOf(root.right))
    decreases root.repr, 0
  {
    hide Node.Valid, Sorted, Orders;
    root.Parts();
    var left, right := root.left, root.right;
    if cf(i.key, root.key) <= 0 {
      var l := Insert(cf, left, i);
      Relink(root, l, right);
    } else {
      var r := Insert(cf, right, i);
      Relink(root, left, r);
    }
  }

  // ----- removal -----

  lemma Prepend(x: Item, l: seq<Item>, y: seq<Item>, r: seq<Item>)
    ensures ([x] + l) + y + r == [x] + (l + y + r)
  {
  }

  /** _btree_extract_smallest */
  method ExtractSmallest(i: Node) returns (r: Node?, smallest: Node)
    requires i.Valid()
    modifies i.repr
    ensures ValidTree(r) && ReprOf(r) == old(i.repr) - {smallest} && smallest in old(i.repr) && smallest.height >= 1
    ensures old(i.items) == [Item(smallest.key, smallest.val)] + ItemsOf(r)
    decreases i.repr
  {
    hide Node.Valid;
    i.Parts();
    var left, right := i.left, i.right;
    if left == null {
      assert [] + [Item(i.key, i.val)] == [Item(i.key, i.val)];
      return right, i;
    }
    var l;
    l, smallest := ExtractSmallest(left);
    Prepend(Item(smallest.key, smallest.val), ItemsOf(l), [Item(i.key, i.val)], ItemsOf(right));
    Relink(i, l, right);
    RecalcHeight(i);
    r := Equilibrate(i);
  }

  /** The tree without its root: what `remove` puts in the root's place. */
  method Uproot(i: Node) returns (r: Node?)
    requires i.Valid()
    modifies i.repr
    ensures ValidTree(r) && ReprOf(r) == old(i.repr) - {i} && i.key == old(i.key) && i.val == old(i.val)
    ensures ItemsOf(r) == old(ItemsOf(i.left)) + old(ItemsOf(i.right))
  {
    hide Node.Valid;
    i.Parts();
    var left, right := i.left, i.right;
    if right == null || left == null {
      r := if right == null then left else right;
    } else {
      var rest, smallest := ExtractSmallest(right);
      Relink(smallest, left, rest);
      RecalcHeight(smallest);
      r := Equilibrate(smallest);
    }
  }

  /** What is left when some items have been taken out, and what was taken out. */
  ghost predicate Parted(cf: Comparison, s: seq<Item>, key: int, byVal: bool, val: int, s': seq<Item>, out: seq<Item>) {
    && s' == Without(cf, s, key, byVal, val)
    && multiset(s) == multiset(s') + multiset(out)
  }

  lemma PartedLeft(cf: Comparison, l: seq<Item>, y: Item, r: seq<Item>, key: int, byVal: bool, val: int, l': seq<Item>, out: seq<Item>)
    requires Orders(cf) && Sorted(cf, l + [y] + r) && cf(key, y.key) < 0 && Parted(cf, l, key, byVal, val, l', out)
    ensures Parted(cf, l + [y] + r, key, byVal, val, l' + [y] + r, out)
  {
    SideOf(cf, l, y, r, key);
    WithoutNone(cf, r, key, byVal, val);
    WithoutConcat(cf, l + [y], r, key, byVal, val);
    WithoutConcat(cf, l, [y], key, byVal, val);
    assert Without(cf, [y], key, byVal, val) == [y];
  }

  lemma PartedRight(cf: Comparison, l: seq<Item>, y: Item, r: seq<Item>, key: int, byVal: bool, val: int, r': seq<Item>, out: seq<Item>)
    requires Orders(cf) && Sorted(cf, l + [y] + r) && cf(key, y.key) > 0 && Parted(cf, r, key, byVal, val, r', out)
    ensures Parted(cf, l + [y] + r, key, byVal, val, l + [y] + r', out)
  {
    SideOf(cf, l, y, r, key);
    WithoutNone(cf, l, key, byVal, val);
    WithoutConcat(cf, l + [y], r, key, byVal, val);
    WithoutConcat(cf, l, [y], key, byVal, val);
    assert Without(cf, [y], key, byVal, val) == [y];
  }

  /** The root goes; the rest is treated the same way. */
  lemma PartedRoot(cf: Comparison, l: seq<Item>, y: Item, r: seq<Item>, key: int, byVal: bool, val: int, s': seq<Item>, out: seq<Item>)
    requires Matches(cf, y, key, byVal, val) && Parted(cf, l + r, key, byVal, val, s', out)
    ensures Parted(cf, l + [y] + r, key, byVal, val, s', [y] + out)
  {
    RootItems(l, y, r, s', out);
    WithoutRoot(cf, l, y, r, key, byVal, val);
  }

  lemma WithoutRoot(cf: Comparison, l: seq<Item>, y: Item, r: seq<Item>, key: int, byVal: bool, val: int)
    requires Matches(cf, y, key, byVal, val)
    ensures Without(cf, l + [y] + r, key, byVal, val) == Without(cf, l + r, key, byVal, val)
  {
    WithoutConcat(cf, l + [y], r, key, byVal, val);
    WithoutConcat(cf, l, [y], key, byVal, val);
    WithoutConcat(cf, l, r, key, byVal, val);
    assert Without(cf, [y], key, byVal, val) == [];
  }

  lemma RootItems(l: seq<Item>, y: Item, r: seq<Item>, s': seq<Item>, out: seq<Item>)
    requires multiset(l + r) == multiset(s') + multiset(out)
    ensures multiset(l + [y] + r) == multiset(s') + multiset([y] + out)
  {
    assert multiset(l + [y] + r) == multiset(l) + multiset{y} + multiset(r);
    assert multiset(l) + multiset{y} + multiset(r) == multiset(l + r) + multiset{y};
    assert multiset([y] + out) == multiset{y} + multiset(out);
    assert multiset(s') + multiset(out) + multiset{y} == multiset(s') + (multiset{y} + multiset(out));
  }

  /** The root has the key but another value. */
  lemma PartedBoth(cf: Comparison, l: seq<Item>, y: Item, r: seq<Item>, key: int, val: int,
                   l': seq<Item>, out: seq<Item>, r': seq<Item>, out': seq<Item>)
    requires !Matches(cf, y, key, true, val) && Parted(cf, l, key, true, val, l', out) && Parted(cf, r, key, true, val, r', out')
    ensures Parted(cf, l + [y] + r, key, true, val, l' + [y] + r', out + out')
  {
    WithoutConcat(cf, l + [y], r, key, true, val);
    WithoutConcat(cf, l, [y], key, true, val);
    assert Without(cf, [y], key, true, val) == [y];
  }

  lemma SortedJoin(cf: Comparison, l: seq<Item>, y: Item, r: seq<Item>)
    requires Orders(cf) && Sorted(cf, l + [y] + r)
    ensures Sorted(cf, l + r)
  {
    var s, u := l + [y] + r, l + r;
    forall i, j | 0 <= i < j < |u| ensures cf(u[i].key, u[j].key) <= 0 {
      assert u[i] == s[if i < |l| then i else i + 1] && u[j] == s[if j < |l| then j else j + 1];
    }
  }

  /** _btree_remove_aux, or with `byVal` _btree_remove_aux_v. `out` lists the released
      items in the order of their release. */
  method RemoveAux(cf: Comparison, i: Node?, key: int, byVal: bool, val: int) returns (r: Node?, out: seq<Item>)
    requires ValidTree(i) && Orders(cf) && Sorted(cf, ItemsOf(i))
    modifies ReprOf(i)
    ensures ValidTree(r) && ReprOf(r) <= old(ReprOf(i))
    ensures Parted(cf, old(ItemsOf(i)), key, byVal, val, ItemsOf(r), out)
    decreases ReprOf(i), 1
  {
    hide Node.Valid, Sorted, Parted, Matches;
    if i == null {
      PartedNone(cf, key, byVal, val);
      return null, [];
    }
    i.Parts();
    var c := cf(key, i.key);
    if c != 0 {
      r, out := RemoveBelow(cf, i, key, byVal, val);
    } else if !byVal || i.val == val {
      MatchesIs(cf, Item(i.key, i.val), key, byVal, val);
      r, out := RemoveRoot(cf, i, key, byVal, val);
    } else {
      MatchesIs(cf, Item(i.key, i.val), key, byVal, val);
      r, out := RemoveBoth(cf, i, key, val);
    }
  }

  /** The key is not that of the root: one side is searched. The heights are left stale. */
  method RemoveBelow(cf: Comparison, i: Node, key: int, byVal: bool, val: int) returns (r: Node?, out: seq<Item>)
    requires i.Valid() && Orders(cf) && Sorted(cf, i.items) && cf(key, i.key) != 0
    modifies i.repr
    ensures ValidTree(r) && ReprOf(r) <= old(i.repr) && Parted(cf, old(i.items), key, byVal, val, ItemsOf(r), out)
    decreases i.repr, 0
  {
    hide Node.Valid, Sorted, Parted;
    i.Parts();
    var left, right := i.left, i.right;
    ghost var y, ll, rr := Item(i.key, i.val), ItemsOf(left), ItemsOf(right);
    SortedParts(cf, ll, y, rr);
    if cf(key, i.key) < 0 {
      var l;
      l, out := RemoveAux(cf, left, key, byVal, val);
      PartedLeft(cf, ll, y, rr, key, byVal, val, ItemsOf(l), out);
      Relink(i, l, right);
    } else {
      var rt;
      rt, out := RemoveAux(cf, right, key, byVal, val);
      PartedRight(cf, ll, y, rr, key, byVal, val, ItemsOf(rt), out);
      Relink(i, left, rt);
    }
    r := Equilibrate(i);
  }

  /** The root is removed and released; then the rest is searched again. */
  method RemoveRoot(cf: Comparison, i: Node, key: int, byVal: bool, val: int) returns (r: Node?, out: seq<Item>)
    requires i.Valid() && Orders(cf) && Sorted(cf, i.items) && Matches(cf, Item(i.key, i.val), key, byVal, val)
    modifies i.repr
    ensures ValidTree(r) && ReprOf(r) <= old(i.repr) && Parted(cf, old(i.items), key, byVal, val, ItemsOf(r), out)
    decreases i.repr, 0
  {
    hide Node.Valid, Sorted, Parted, Matches;
    i.Parts();
    ghost var y, ll, rr := Item(i.key, i.val), ItemsOf(i.left), ItemsOf(i.right);
    SortedJoin(cf, ll, y, rr);
    var u := Uproot(i);
    r, out := RemoveAux(cf, u, key, byVal, val);
    PartedRoot(cf, ll, y, rr, key, byVal, val, ItemsOf(r), out);
    out := [Item(i.key, i.val)] + out;
  }

  /** The root has the key but another value: both sides are searched. */
  method RemoveBoth(cf: Comparison, i: Node, key: int, val: int) returns (r: Node?, out: seq<Item>)
    requires i.Valid() && Orders(cf) && Sorted(cf, i.items) && !Matches(cf, Item(i.key, i.val), key, true, val)
    modifies i.repr
    ensures ValidTree(r) && ReprOf(r) <= old(i.repr) && Parted(cf, old(i.items), key, true, val, ItemsOf(r), out)
    decreases i.repr, 0, 1
  {
    hide Node.Valid, Sorted, Parted, Matches;
    i.Parts();
    ghost var y, ll, rr := Item(i.key, i.val), ItemsOf(i.left), ItemsOf(i.right);
    SortedParts(cf, ll, y, rr);
    var l, rt;
    l, rt, out := RemoveSides(cf, i, key, val);
    Relink(i, l, rt);
    RecalcHeight(i);
    r := Equilibrate(i);
  }

  /** Both subtrees of `i` are searched. */
  method RemoveSides(cf: Comparison, i: Node, key: int, val: int) returns (l: Node?, r: Node?, out: seq<Item>)
    requires i.Valid() && Orders(cf) && Sorted(cf, ItemsOf(i.left)) && Sorted(cf, ItemsOf(i.right))
    requires !Matches(cf, Item(i.key, i.val), key, true, val)
    modifies ReprOf(i.left) + ReprOf(i.right)
    ensures ValidTree(l) && ValidTree(r) && ReprOf(l) !! ReprOf(r) && i !in ReprOf(l) && i !in ReprOf(r)
    ensures {i} + ReprOf(l) + ReprOf(r) <= old(i.repr) && i.height == old(i.height) && i.key == old(i.key) && i.val == old(i.val)
    ensures Parted(cf, old(i.items), key, true, val, ItemsOf(l) + [Item(i.key, i.val)] + ItemsOf(r), out)
    decreases i.repr, 0, 0
  {
    hide Node.Valid, Sorted, Parted, Matches;
    i.Parts();
    var left, right := i.left, i.right;
    ghost var y, ll, rr := Item(i.key, i.val), ItemsOf(left), ItemsOf(right);
    var out1, out2;
    l, out1 := RemoveAux(cf, left, key, true, val);
    ghost var li := ItemsOf(l);
    if l != null { l.Parts(); }
    r, out2 := RemoveAux(cf, right, key, true, val);
    PartedBoth(cf, ll, y, rr, key, val, li, out1, ItemsOf(r), out2);
    out := out1 + out2;
  }

  lemma PartedNone(cf: Comparison, key: int, byVal: bool, val: int)
    ensures Parted(cf, [], key, byVal, val, [], [])
  {
  }

  lemma MatchesIs(cf: Comparison, y: Item, key: int, byVal: bool, val: int)
    requires cf(key, y.key) == 0
    ensures Matches(cf, y, key, byVal, val) <==> !byVal || y.val == val
  {
  }

  // ----- looking up -----

  /** Around a root: an item is the root's, or on one side. */
  lemma AtRoot(l: seq<Item>, y: Item, r: seq<Item>)
    ensures forall x :: x in l + [y] + r <==> x in l || x == y || x in r
  {
  }

  lemma SideIn(cf: Comparison, l: seq<Item>, y: Item, r: seq<Item>, key: int)
    requires Orders(cf) && Sorted(cf, l + [y] + r)
    ensures cf(key, y.key) < 0 ==> forall x :: x in r ==> cf(key, x.key) < 0
    ensures cf(key, y.key) > 0 ==> forall x :: x in l ==> cf(key, x.key) > 0
    ensures (forall x :: x in l ==> cf(x.key, y.key) <= 0) && (forall x :: x in r ==> cf(y.key, x.key) <= 0)
  {
    SideOf(cf, l, y, r, key);
    SortedParts(cf, l, y, r);
  }

  /** btree_find: some item with the key, if there is one. */
  method Find(cf: Comparison, i: Node?, key: int) returns (x: Option<Item>)
    requires ValidTree(i) && Orders(cf) && Sorted(cf, ItemsOf(i))
    ensures x.None? ==> forall y :: y in ItemsOf(i) ==> cf(key, y.key) != 0
    ensures x.Some? ==> x.value in ItemsOf(i) && cf(key, x.value.key) == 0
    decreases ReprOf(i)
  {
    hide Node.Valid, Sorted, Orders;
    if i == null { return None; }
    i.Parts();
    ghost var y, l, r := Item(i.key, i.val), ItemsOf(i.left), ItemsOf(i.right);
    AtRoot(l, y, r);
    SideIn(cf, l, y, r, key);
    SortedParts(cf, l, y, r);
    var c := cf(key, i.key);
    if c == 0 { x := Some(Item(i.key, i.val)); }
    else if c < 0 { x := Find(cf, i.left, key); }
    else { x := Find(cf, i.right, key); }
  }

  /** No item at or below the key lies above this one. */
  ghost predicate IsLower(cf: Comparison, s: seq<Item>, key: int, x: Option<Item>) {
    if x.None? then forall y :: y in s ==> cf(key, y.key) < 0
    else x.value in s && cf(key, x.value.key) >= 0 && forall y :: y in s && cf(key, y.key) >= 0 ==> cf(y.key, x.value.key) <= 0
  }

  /** No item at or above the key lies below this one. */
  ghost predicate IsUpper(cf: Comparison, s: seq<Item>, key: int, x: Option<Item>) {
    if x.None? then forall y :: y in s ==> cf(key, y.key) > 0
    else x.value in s && cf(key, x.value.key) <= 0 && forall y :: y in s && cf(key, y.key) <= 0 ==> cf(x.value.key, y.key) <= 0
  }

  lemma LowerAt(cf: Comparison, l: seq<Item>, y: Item, r: seq<Item>, key: int, x: Option<Item>)
    requires Orders(cf) && Sorted(cf, l + [y] + r)
    ensures cf(key, y.key) == 0 ==> IsLower(cf, l + [y] + r, key, Some(y))
    ensures cf(key, y.key) < 0 && IsLower(cf, l, key, x) ==> IsLower(cf, l + [y] + r, key, x)
    ensures cf(key, y.key) > 0 && IsLower(cf, r, key, x) ==> IsLower(cf, l + [y] + r, key, if x.None? then Some(y) else x)
  {
    hide Sorted;
    AtRoot(l, y, r);
    SideIn(cf, l, y, r, key);
  }

  lemma UpperAt(cf: Comparison, l: seq<Item>, y: Item, r: seq<Item>, key: int, x: Option<Item>)
    requires Orders(cf) && Sorted(cf, l + [y] + r)
    ensures cf(key, y.key) == 0 ==> IsUpper(cf, l + [y] + r, key, Some(y))
    ensures cf(key, y.key) > 0 && IsUpper(cf, r, key, x) ==> IsUpper(cf, l + [y] + r, key, x)
    ensures cf(key, y.key) < 0 && IsUpper(cf, l, key, x) ==> IsUpper(cf, l + [y] + r, key, if x.None? then Some(y) else x)
  {
    hide Sorted;
    AtRoot(l, y, r);
    SideIn(cf, l, y, r, key);
  }

  /** btree_lower: an item with the greatest key at or below `key`. */
  method Lower(cf: Comparison, i: Node?, key: int) returns (x: Option<Item>)
    requires ValidTree(i) && Orders(cf) && Sorted(cf, ItemsOf(i))
    ensures IsLower(cf, ItemsOf(i), key, x)
    decreases ReprOf(i)
  {
    if i == null { return None; }
    hide Node.Valid, Sorted, Orders, IsLower;
    i.Parts();
    ghost var y, l, r := Item(i.key, i.val), ItemsOf(i.left), ItemsOf(i.right);
    SortedParts(cf, l, y, r);
    var c := cf(key, i.key);
    if c == 0 {
      LowerAt(cf, l, y, r, key, None);
      x := Some(Item(i.key, i.val));
    } else if c < 0 {
      x := Lower(cf, i.left, key);
      LowerAt(cf, l, y, r, key, x);
    } else {
      x := Lower(cf, i.right, key);
      LowerAt(cf, l, y, r, key, x);
      if x.None? { x := Some(Item(i.key, i.val)); }
    }
  }

  /** btree_upper: an item with the least key at or above `key`. */
  method Upper(cf: Comparison, i: Node?, key: int) returns (x: Option<Item>)
    requires ValidTree(i) && Orders(cf) && Sorted(cf, ItemsOf(i))
    ensures IsUpper(cf, ItemsOf(i), key, x)
    decreases ReprOf(i)
  {
    if i == null { return None; }
    hide Node.Valid, Sorted, Orders, IsUpper;
    i.Parts();
    ghost var y, l, r := Item(i.key, i.val), ItemsOf(i.left), ItemsOf(i.right);
    SortedParts(cf, l, y, r);
    var c := cf(key, i.key);
    if c == 0 {
      UpperAt(cf, l, y, r, key, None);
      x := Some(Item(i.key, i.val));
    } else if c < 0 {
      x := Upper(cf, i.left, key);
      UpperAt(cf, l, y, r, key, x);
      if x.None? { x := Some(Item(i.key, i.val)); }
    } else {
      x := Upper(cf, i.right, key);
      UpperAt(cf, l, y, r, key, x);
    }
  }

  /** btree_iter: every item, in order. `out` lists the calls of the iterator. */
  method Iter(i: Node?) returns (out: seq<Item>)
    requires ValidTree(i)
    ensures out == ItemsOf(i)
    decreases ReprOf(i)
  {
    if i == null { return []; }
    hide Node.Valid;
    i.Parts();
    var l := Iter(i.left);
    var r := Iter(i.right);
    out := l + [Item(i.key, i.val)] + r;
  }

  lemma OnlyAt(cf: Comparison, l: seq<Item>, y: Item, r: seq<Item>, key: int)
    requires Orders(cf) && Sorted(cf, l + [y] + r)
    ensures Only(cf, l + [y] + r, key) ==
            if cf(key, y.key) == 0 then Only(cf, l, key) + [y] + Only(cf, r, key)
            else if cf(key, y.key) < 0 then Only(cf, l, key) else Only(cf, r, key)
  {
    SideOf(cf, l, y, r, key);
    OnlyConcat(cf, l + [y], r, key);
    OnlyConcat(cf, l, [y], key);
    assert Only(cf, [y], key) == if cf(key, y.key) == 0 then [y] else [];
    if cf(key, y.key) < 0 { WithoutNone(cf, r, key, false, 0); }
    if cf(key, y.key) > 0 { WithoutNone(cf, l, key, false, 0); }
  }

  /** btree_iter_on: exactly the items with the key, in order, though they may lie on
      both sides of a node. */
  method IterOn(cf: Comparison, i: Node?, key: int) returns (out: seq<Item>)
    requires ValidTree(i) && Orders(cf) && Sorted(cf, ItemsOf(i))
    ensures out == Only(cf, ItemsOf(i), key)
    decreases ReprOf(i)
  {
    if i == null { return []; }
    hide Node.Valid, Sorted, Orders;
    i.Parts();
    ghost var y, l, r := Item(i.key, i.val), ItemsOf(i.left), ItemsOf(i.right);
    SortedParts(cf, l, y, r);
    OnlyAt(cf, l, y, r, key);
    var c := cf(key, i.key);
    if c == 0 {
      var a := IterOn(cf, i.left, key);
      var b := IterOn(cf, i.right, key);
      out := a + [Item(i.key, i.val)] + b;
    } else if c < 0 {
      out := IterOn(cf, i.left, key);
    } else {
      out := IterOn(cf, i.right, key);
    }
  }

  /** delete_btree: every item is released once, children first. */
  method DeleteItems(i: Node?) returns (out: seq<Item>)
    requires ValidTree(i)
    ensures Permutes(out, ItemsOf(i))
    decreases ReprOf(i)
  {
    if i == null { return []; }
    hide Node.Valid, Permutes;
    i.Parts();
    var l := DeleteItems(i.left);
    var r := DeleteItems(i.right);
    out := l + r + [Item(i.key, i.val)];
    PostOrder(ItemsOf(i.left), Item(i.key, i.val), ItemsOf(i.right), l, r);
  }

  ghost predicate Permutes(s: seq<Item>, u: seq<Item>) {
    multiset(s) == multiset(u)
  }

  lemma PostOrder(l: seq<Item>, y: Item, r: seq<Item>, l': seq<Item>, r': seq<Item>)
    requires Permutes(l', l) && Permutes(r', r)
    ensures Permutes(l' + r' + [y], l + [y] + r)
  {
    assert multiset(l' + r' + [y]) == multiset(l') + multiset(r') + multiset{y};
    assert multiset(l + [y] + r) == multiset(l) + multiset{y} + multiset(r);
  }

  // ----- the tree -----

  class BTree {
    const cf: Comparison
    var root: Node?
    var nitems: int
    var released: seq<Item>   // the calls of the release function so far

    ghost function Items(): seq<Item>
      reads this, root
    {
      ItemsOf(root)
    }

    ghost predicate Valid()
      reads this, root, ReprOf(root)
    {
      ValidTree(root) && Orders(cf) && Sorted(cf, Items()) && nitems == |Items()|
    }

    constructor (compare: Comparison)
      requires Orders(compare)
      ensures Valid() && Items() == [] && released == [] && cf == compare
    {
      cf, root, nitems, released := compare, null, 0, [];
    }

    /** btree_add */
    method Add(key: int, val: int)
      requires Valid()
      modifies this, ReprOf(root)
      ensures Valid() && Items() == Added(cf, old(Items()), Item(key, val)) && released == old(released)
      ensures fresh(ReprOf(root) - old(ReprOf(root)))
      ensures old(True(ShapeOf(root))) ==> True(ShapeOf(root))
    {
      hide Node.Valid, Sorted, Orders, True;
      var x := new Node(key, val);
      x.Parts();
      AddedSorted(cf, Items(), Item(key, val));
      AddedItems(cf, Items(), Item(key, val));
      AddedLength(cf, Items(), Item(key, val));
      root := Insert(cf, root, x);
      nitems := nitems + 1;
    }

    /** btree_remove: the items with that key go, all of them, and each is released once. */
    method Remove(key: int)
      requires Valid()
      modifies this, ReprOf(root)
      ensures Valid() && Items() == Without(cf, old(Items()), key, false, 0)
      ensures old(released) <= released
      ensures multiset(old(Items())) == multiset(Items()) + multiset(released[|old(released)|..])
    {
      RemoveItems(key, false, 0);
    }

    /** btree_remove_v: of those, only the ones with that value. */
    method RemoveV(key: int, val: int)
      requires Valid()
      modifies this, ReprOf(root)
      ensures Valid() && Items() == Without(cf, old(Items()), key, true, val)
      ensures old(released) <= released
      ensures multiset(old(Items())) == multiset(Items()) + multiset(released[|old(released)|..])
    {
      RemoveItems(key, true, val);
    }

    method RemoveItems(key: int, byVal: bool, val: int)
      requires Valid()
      modifies this, ReprOf(root)
      ensures Valid() && Items() == Without(cf, old(Items()), key, byVal, val)
      ensures old(released) <= released
      ensures multiset(old(Items())) == multiset(Items()) + multiset(released[|old(released)|..])
    {
      hide Node.Valid, Sorted, Orders, Without, Parted, Permutes;
      ghost var s := Items();
      var r, out := RemoveAux(cf, root, key, byVal, val);
      PartedMeans(cf, s, key, byVal, val, ItemsOf(r), out);
      root := r;
      nitems := nitems - |out|;
      released := released + out;
      assert released[|old(released)|..] == out;
    }

    /** delete_btree */
    method Delete()
      requires Valid()
      modifies this
      ensures multiset(released) == multiset(old(released)) + multiset(old(Items()))
    {
      var out := DeleteItems(root);
      released := released + out;
    }
  }

  lemma AddedLength(cf: Comparison, s: seq<Item>, x: Item)
    ensures |Added(cf, s, x)| == |s| + 1
  {
    AddedItems(cf, s, x);
    assert |multiset(Added(cf, s, x))| == |s| + 1;
  }

  lemma PartedMeans(cf: Comparison, s: seq<Item>, key: int, byVal: bool, val: int, s': seq<Item>, out: seq<Item>)
    requires Sorted(cf, s) && Parted(cf, s, key, byVal, val, s', out)
    ensures s' == Without(cf, s, key, byVal, val) && Sorted(cf, s')
    ensures multiset(s) == multiset(s') + multiset(out) && |s| == |s'| + |out|
  {
    WithoutSorted(cf, s, key, byVal, val);
    hide Without, Sorted;
    assert |multiset(s)| == |multiset(s')| + |multiset(out)|;
  }
}
