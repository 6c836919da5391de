/** Items in order: adding one, taking some out, and the sides of a tree's root. */
module TreeItems {

  datatype Item = Item(key: int, val: int)

  /** A three-way comparison of keys. */
  type Comparison = (int, int) -> int

  /** The comparison orders keys; different keys may compare equal. */
  ghost predicate Orders(cf: Comparison) {
    && (forall a, b :: cf(a, b) > 0 <==> cf(b, a) < 0)
    && (forall a, b, c :: cf(a, b) <= 0 && cf(b, c) <= 0 ==> cf(a, c) <= 0)
  }

  ghost predicate Sorted(cf: Comparison, s: seq<Item>) {
    forall i, j :: 0 <= i < j < |s| ==> cf(s[i].key, s[j].key) <= 0
  }

  /** The items with other keys; with `byVal`, also those with another value. */
  function Without(cf: Comparison, s: seq<Item>, key: int, byVal: bool, val: int): seq<Item> {
    if s == [] then []
    else (if Matches(cf, s[0], key, byVal, val) then [] else [s[0]]) + Without(cf, s[1..], key, byVal, val)
  }

  predicate Matches(cf: Comparison, x: Item, key: int, byVal: bool, val: int) {
    cf(key, x.key) == 0 && (byVal ==> x.val == val)
  }

  /** The items with that key, in order. */
  function Only(cf: Comparison, s: seq<Item>, key: int): seq<Item> {
    if s == [] then [] else (if cf(key, s[0].key) == 0 then [s[0]] else []) + Only(cf, s[1..], key)
  }

  lemma Associative(a: seq<Item>, b: seq<Item>, c: seq<Item>)
    ensures a + b + c == a + (b + c)
  {
  }

  lemma {:induction false} WithoutConcat(cf: Comparison, s: seq<Item>, u: seq<Item>, key: int, byVal: bool, val: int)
    ensures Without(cf, s + u, key, byVal, val) == Without(cf, s, key, byVal, val) + Without(cf, u, key, byVal, val)
  {
    if s == [] {
      assert s + u == u;
    } else {
      hide Matches;
      WithoutConcat(cf, s[1..], u, key, byVal, val);
      var first := if Matches(cf, s[0], key, byVal, val) then [] else [s[0]];
      assert (s + u)[1..] == s[1..] + u && (s + u)[0] == s[0];
      Associative(first, Without(cf, s[1..], key, byVal, val), Without(cf, u, key, byVal, val));
    }
  }

  lemma {:induction false} OnlyConcat(cf: Comparison, s: seq<Item>, u: seq<Item>, key: int)
    ensures Only(cf, s + u, key) == Only(cf, s, key) + Only(cf, u, key)
  {
    if s == [] {
      assert s + u == u;
    } else {
      OnlyConcat(cf, s[1..], u, key);
      assert (s + u)[1..] == s[1..] + u && (s + u)[0] == s[0];
      Associative(if cf(key, s[0].key) == 0 then [s[0]] else [], Only(cf, s[1..], key), Only(cf, u, key));
    }
  }

  lemma {:induction false} WithoutNone(cf: Comparison, s: seq<Item>, key: int, byVal: bool, val: int)
    requires forall i :: 0 <= i < |s| ==> cf(key, s[i].key) != 0
    ensures Without(cf, s, key, byVal, val) == s && Only(cf, s, key) == []
  {
    if s != [] { WithoutNone(cf, s[1..], key, byVal, val); }
  }

  /** A sorted sequence around one of its items. */
  lemma SortedParts(cf: Comparison, l: seq<Item>, x: Item, r: seq<Item>)
    requires Sorted(cf, l + [x] + r)
    ensures Sorted(cf, l) && Sorted(cf, r)
    ensures forall i :: 0 <= i < |l| ==> cf(l[i].key, x.key) <= 0
    ensures forall i :: 0 <= i < |r| ==> cf(x.key, r[i].key) <= 0
  {
    var s := l + [x] + r;
    assert forall i :: 0 <= i < |l| ==> s[i] == l[i];
    assert s[|l|] == x;
    assert forall i :: 0 <= i < |r| ==> s[|l| + 1 + i] == r[i];
  }

  /** A key below that of `x` is not to the right of `x`, one above not to the left. */
  lemma SideOf(cf: Comparison, l: seq<Item>, x: Item, r: seq<Item>, key: int)
    requires Orders(cf) && Sorted(cf, l + [x] + r)
    ensures cf(key, x.key) < 0 ==> forall i :: 0 <= i < |r| ==> cf(key, r[i].key) < 0
    ensures cf(key, x.key) > 0 ==> forall i :: 0 <= i < |l| ==> cf(key, l[i].key) > 0
  {
    SortedParts(cf, l, x, r);
    if cf(key, x.key) < 0 {
      forall i | 0 <= i < |r| ensures cf(key, r[i].key) < 0 {
        assert cf(r[i].key, key) <= 0 ==> cf(x.key, key) <= 0;
      }
    }
    if cf(key, x.key) > 0 {
      forall i | 0 <= i < |l| ensures cf(key, l[i].key) > 0 {
        assert cf(key, l[i].key) <= 0 ==> cf(key, x.key) <= 0;
      }
    }
  }

  lemma {:induction false} WithoutElems(cf: Comparison, s: seq<Item>, key: int, byVal: bool, val: int)
    ensures forall x :: x in Without(cf, s, key, byVal, val) <==> x in s && !Matches(cf, x, key, byVal, val)
  {
    hide Matches;
    if s != [] {
      WithoutElems(cf, s[1..], key, byVal, val);
      assert s == [s[0]] + s[1..];
    }
  }

  lemma {:induction false} WithoutSorted(cf: Comparison, s: seq<Item>, key: int, byVal: bool, val: int)
    requires Sorted(cf, s)
    ensures Sorted(cf, Without(cf, s, key, byVal, val))
    ensures forall x :: x in Without(cf, s, key, byVal, val) <==> x in s && !Matches(cf, x, key, byVal, val)
  {
    WithoutElems(cf, s, key, byVal, val);
    if s != [] {
      WithoutSorted(cf, s[1..], key, byVal, val);
      var w := Without(cf, s[1..], key, byVal, val);
      forall i | 0 <= i < |w| ensures cf(s[0].key, w[i].key) <= 0 {
        assert w[i] in s[1..];
        var j :| 0 <= j < |s| - 1 && s[1..][j] == w[i];
      }
    }
  }

  /** Adding an item: before the first one that is not below it. */
  function Added(cf: Comparison, s: seq<Item>, x: Item): seq<Item> {
    if s == [] || cf(x.key, s[0].key) <= 0 then [x] + s else [s[0]] + Added(cf, s[1..], x)
  }

  lemma {:induction false} AddedFront(cf: Comparison, s: seq<Item>, u: seq<Item>, x: Item)
    requires u == [] || cf(x.key, u[0].key) <= 0
    ensures Added(cf, s + u, x) == Added(cf, s, x) + u
  {
    if s == [] {
      assert s + u == u;
    } else {
      AddedFront(cf, s[1..], u, x);
      assert (s + u)[1..] == s[1..] + u;
    }
  }

  lemma {:induction false} AddedBack(cf: Comparison, s: seq<Item>, u: seq<Item>, x: Item)
    requires forall i :: 0 <= i < |s| ==> cf(x.key, s[i].key) > 0
    ensures Added(cf, s + u, x) == s + Added(cf, u, x)
  {
    if s == [] {
      assert s + u == u;
    } else {
      AddedBack(cf, s[1..], u, x);
      assert (s + u)[1..] == s[1..] + u;
    }
  }

  /** Adding at a node is adding to one side. */
  lemma AddedAt(cf: Comparison, l: seq<Item>, y: Item, r: seq<Item>, x: Item)
    requires Orders(cf) && Sorted(cf, l + [y] + r)
    ensures Added(cf, l + [y] + r, x) == if cf(x.key, y.key) <= 0 then Added(cf, l, x) + [y] + r else l + [y] + Added(cf, r, x)
  {
    SideOf(cf, l, y, r, x.key);
    assert l + [y] + r == l + ([y] + r);
    if cf(x.key, y.key) <= 0 {
      AddedFront(cf, l, [y] + r, x);
    } else {
      AddedBack(cf, l, [y] + r, x);
      assert ([y] + r)[1..] == r;
    }
  }

  lemma SortedCons(cf: Comparison, x: Item, s: seq<Item>)
    requires Sorted(cf, s) && forall y :: y in s ==> cf(x.key, y.key) <= 0
    ensures Sorted(cf, [x] + s)
  {
    var u := [x] + s;
    forall i, j | 0 <= i < j < |u| ensures cf(u[i].key, u[j].key) <= 0 {
      assert u[j] == s[j - 1] && s[j - 1] in s;
    }
  }

  lemma SortedTail(cf: Comparison, s: seq<Item>)
    requires Sorted(cf, s) && s != []
    ensures Sorted(cf, s[1..]) && s == [s[0]] + s[1..] && forall y :: y in s[1..] ==> cf(s[0].key, y.key) <= 0
  {
  }

  lemma {:induction false} AddedItems(cf: Comparison, s: seq<Item>, x: Item)
    ensures multiset(Added(cf, s, x)) == multiset(s) + multiset{x}
  {
    if s != [] && cf(x.key, s[0].key) > 0 {
      AddedItems(cf, s[1..], x);
      assert s == [s[0]] + s[1..];
    }
  }

  /** The new item comes after all that are below it and before all others, those with
      an equal key included; these stay as they are. */
  lemma AddedPlace(cf: Comparison, s: seq<Item>, x: Item) returns (k: nat)
    requires Orders(cf) && Sorted(cf, s)
    ensures k <= |s| && Added(cf, s, x) == s[..k] + [x] + s[k..]
    ensures forall i :: 0 <= i < k ==> cf(s[i].key, x.key) < 0
    ensures forall i :: k <= i < |s| ==> cf(s[i].key, x.key) >= 0
  {
    hide Added;
    k := AddedBefore(cf, s, x);
    forall i | k <= i < |s| ensures cf(s[i].key, x.key) >= 0 {
      assert i == k || cf(s[k].key, s[i].key) <= 0;
      assert cf(x.key, s[i].key) <= 0;
    }
  }

  lemma {:induction false} AddedBefore(cf: Comparison, s: seq<Item>, x: Item) returns (k: nat)
    ensures k <= |s| && Added(cf, s, x) == s[..k] + [x] + s[k..]
    ensures (forall i :: 0 <= i < k ==> cf(x.key, s[i].key) > 0) && (k < |s| ==> cf(x.key, s[k].key) <= 0)
  {
    if s == [] || cf(x.key, s[0].key) <= 0 {
      k := 0;
    } else {
      var m := AddedBefore(cf, s[1..], x);
      k := m + 1;
      assert s[..k] == [s[0]] + s[1..][..m] && s[k..] == s[1..][m..];
      forall i | 0 <= i < k ensures cf(x.key, s[i].key) > 0 { assert i == 0 || s[i] == s[1..][i - 1]; }
    }
  }

  lemma {:induction false} AddedSorted(cf: Comparison, s: seq<Item>, x: Item)
    requires Orders(cf) && Sorted(cf, s)
    ensures Sorted(cf, Added(cf, s, x))
  {
    if s != [] {
      SortedTail(cf, s);
      if cf(x.key, s[0].key) > 0 {
        AddedSorted(cf, s[1..], x);
        AddedItems(cf, s[1..], x);
        forall y | y in Added(cf, s[1..], x) ensures cf(s[0].key, y.key) <= 0 {
          assert y in multiset(Added(cf, s[1..], x));
          if y != x { assert y in s[1..]; }
        }
        SortedCons(cf, s[0], Added(cf, s[1..], x));
      } else {
        SortedCons(cf, x, s);
      }
    }
  }
}
