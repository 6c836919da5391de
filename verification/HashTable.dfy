/** The hash table: an array of chains that refines a map keyed by an equality function,
    and grows and shrinks with the number of its items. */
module HashTable {
  import opened Options

  datatype Entry = Entry(key: int, val: int)

  type Buckets = seq<seq<Entry>>

  const INIT_SIZE: nat := 16

  /** The chain of a hash, in 32-bit arithmetic. */
  function Slot(h: nat, n: nat): (s: nat)
    requires n > 0
    ensures s < n
  {
    (h * 21179) % 0x1_0000_0000 % n
  }

  /** Keys are compared by an equivalence, and equal keys hash equally. */
  ghost predicate Agree(ef: (int, int) -> bool, hf: int -> nat) {
    && (forall a :: ef(a, a)) && (forall a, b :: ef(a, b) ==> ef(b, a) && hf(a) == hf(b))
    && (forall a, b, c :: ef(a, b) && ef(b, c) ==> ef(a, c))
  }

  // ----- chains -----

  ghost predicate Holds(bs: Buckets, e: Entry) {
    exists s :: 0 <= s < |bs| && e in bs[s]
  }

  ghost predicate OneEach(ef: (int, int) -> bool, c: seq<Entry>) {
    forall i, j :: 0 <= i < j < |c| ==> !ef(c[i].key, c[j].key)
  }

  /** Every item is in the chain of its hash, and no chain has two items with equal keys. */
  ghost predicate Placed(ef: (int, int) -> bool, hf: int -> nat, bs: Buckets) {
    && |bs| > 0
    && (forall s, e :: 0 <= s < |bs| && e in bs[s] ==> Slot(hf(e.key), |bs|) == s)
    && (forall s :: 0 <= s < |bs| ==> OneEach(ef, bs[s]))
  }

  /** The number of chained items. */
  function Count(bs: Buckets): nat {
    if bs == [] then 0 else Count(bs[..|bs| - 1]) + |bs[|bs| - 1]|
  }

  lemma {:induction false} CountUpdate(bs: Buckets, s: nat, c: seq<Entry>)
    requires s < |bs|
    ensures Count(bs[s := c]) == Count(bs) - |bs[s]| + |c|
  {
    var cs, n := bs[s := c], |bs| - 1;
    if s < n {
      CountUpdate(bs[..n], s, c);
      assert cs[..n] == bs[..n][s := c];
    } else {
      assert cs[..n] == bs[..n];
    }
  }

  lemma {:induction false} CountNone(bs: Buckets)
    requires forall s :: 0 <= s < |bs| ==> bs[s] == []
    ensures Count(bs) == 0 && forall e :: !Holds(bs, e)
  {
    if bs != [] { CountNone(bs[..|bs| - 1]); }
  }

  /** Equal keys meet in one chain. */
  lemma InChain(ef: (int, int) -> bool, hf: int -> nat, bs: Buckets, k: int, e: Entry)
    requires Agree(ef, hf) && Placed(ef, hf, bs) && Holds(bs, e) && ef(e.key, k)
    ensures e in bs[Slot(hf(k), |bs|)]
  {
  }

  /** A table has at most one item for each key. */
  lemma Unique(ef: (int, int) -> bool, hf: int -> nat, bs: Buckets, e: Entry, e': Entry)
    requires Agree(ef, hf) && Placed(ef, hf, bs) && Holds(bs, e) && Holds(bs, e') && ef(e.key, e'.key)
    ensures e == e'
  {
    InChain(ef, hf, bs, e'.key, e);
    InChain(ef, hf, bs, e'.key, e');
    var c := bs[Slot(hf(e'.key), |bs|)];
    var i :| 0 <= i < |c| && c[i] == e;
    var j :| 0 <= j < |c| && c[j] == e';
  }

  // ----- the map -----

  /** What the table maps a key to. */
  ghost function Lookup(ef: (int, int) -> bool, bs: Buckets, k: int): Option<int> {
    if exists e :: Holds(bs, e) && ef(e.key, k) then
      var e :| Holds(bs, e) && ef(e.key, k);
      Some(e.val)
    else None
  }

  lemma LookupIs(ef: (int, int) -> bool, hf: int -> nat, bs: Buckets, k: int)
    requires Agree(ef, hf) && Placed(ef, hf, bs)
    ensures forall e :: Holds(bs, e) && ef(e.key, k) ==> Lookup(ef, bs, k) == Some(e.val)
    ensures (forall e :: Holds(bs, e) ==> !ef(e.key, k)) ==> Lookup(ef, bs, k) == None
  {
    hide Holds, Placed;
    forall e | Holds(bs, e) && ef(e.key, k) ensures Lookup(ef, bs, k) == Some(e.val) {
      var e' :| Holds(bs, e') && ef(e'.key, k) && Lookup(ef, bs, k) == Some(e'.val);
      assert ef(k, e'.key);
      Unique(ef, hf, bs, e, e');
    }
  }

  /** The same items make the same map. */
  lemma SameMap(ef: (int, int) -> bool, hf: int -> nat, bs: Buckets, bs': Buckets)
    requires Agree(ef, hf) && Placed(ef, hf, bs) && Placed(ef, hf, bs') && forall e :: Holds(bs', e) <==> Holds(bs, e)
    ensures forall q :: Lookup(ef, bs', q) == Lookup(ef, bs, q)
  {
    hide Holds, Placed, Lookup;
    forall q ensures Lookup(ef, bs', q) == Lookup(ef, bs, q) {
      LookupIs(ef, hf, bs, q);
      LookupIs(ef, hf, bs', q);
    }
  }

  /** Without the item of a key. */
  lemma MapWithout(ef: (int, int) -> bool, hf: int -> nat, bs: Buckets, bs': Buckets, k: int)
    requires Agree(ef, hf) && Placed(ef, hf, bs) && Placed(ef, hf, bs') && forall e :: Holds(bs', e) <==> Holds(bs, e) && !ef(e.key, k)
    ensures forall q :: Lookup(ef, bs', q) == if ef(k, q) then None else Lookup(ef, bs, q)
  {
    hide Holds, Placed, Lookup;
    forall q ensures Lookup(ef, bs', q) == if ef(k, q) then None else Lookup(ef, bs, q) {
      LookupIs(ef, hf, bs, q);
      LookupIs(ef, hf, bs', q);
    }
  }

  /** With a new item for a key that has none. */
  lemma MapWith(ef: (int, int) -> bool, hf: int -> nat, bs: Buckets, bs': Buckets, x: Entry)
    requires Agree(ef, hf) && Placed(ef, hf, bs) && Placed(ef, hf, bs') && forall e :: Holds(bs', e) <==> Holds(bs, e) || e == x
    ensures forall q :: Lookup(ef, bs', q) == if ef(x.key, q) then Some(x.val) else Lookup(ef, bs, q)
  {
    hide Holds, Placed, Lookup;
    assert Holds(bs', x);
    forall q ensures Lookup(ef, bs', q) == if ef(x.key, q) then Some(x.val) else Lookup(ef, bs, q) {
      LookupIs(ef, hf, bs, q);
      LookupIs(ef, hf, bs', q);
    }
  }

  // ----- steps on the chains -----

  ghost predicate Elsewhere(bs: Buckets, s: nat, e: Entry) {
    exists t :: 0 <= t < |bs| && t != s && e in bs[t]
  }

  lemma HoldsUpdate(bs: Buckets, s: nat, c: seq<Entry>, e: Entry)
    requires s < |bs|
    ensures Holds(bs, e) <==> e in bs[s] || Elsewhere(bs, s, e)
    ensures Holds(bs[s := c], e) <==> e in c || Elsewhere(bs, s, e)
  {
    var bs': Buckets := bs[s := c];
    assert bs'[s] == c;
    if t :| 0 <= t < |bs| && t != s && e in bs[t] { assert e in bs'[t]; }
  }

  /** Items of other chains have other keys. */
  lemma OtherKeys(ef: (int, int) -> bool, hf: int -> nat, bs: Buckets, s: nat, e: Entry, k: int)
    requires Agree(ef, hf) && Placed(ef, hf, bs) && s < |bs| && Elsewhere(bs, s, e) && Slot(hf(k), |bs|) == s
    ensures !ef(e.key, k)
  {
    hide Slot;
  }

  lemma PlacedUpdate(ef: (int, int) -> bool, hf: int -> nat, bs: Buckets, s: nat, c: seq<Entry>)
    requires Placed(ef, hf, bs) && s < |bs| && OneEach(ef, c) && forall e :: e in c ==> Slot(hf(e.key), |bs|) == s
    ensures Placed(ef, hf, bs[s := c])
  {
    hide Slot, OneEach;
  }

  /** A chain gets one more item in front. */
  lemma Pushed(ef: (int, int) -> bool, hf: int -> nat, bs: Buckets, x: Entry)
    requires Agree(ef, hf) && Placed(ef, hf, bs) && forall e :: Holds(bs, e) ==> !ef(e.key, x.key)
    ensures var s := Slot(hf(x.key), |bs|); var bs' := bs[s := [x] + bs[s]];
            Placed(ef, hf, bs') && Count(bs') == Count(bs) + 1 && forall e :: Holds(bs', e) <==> Holds(bs, e) || e == x
  {
    hide Slot, Holds, Elsewhere;
    var s := Slot(hf(x.key), |bs|);
    var c := [x] + bs[s];
    CountUpdate(bs, s, c);
    forall e ensures Holds(bs[s := c], e) <==> Holds(bs, e) || e == x {
      HoldsUpdate(bs, s, c, e);
    }
    forall i, j | 0 <= i < j < |c| ensures !ef(c[i].key, c[j].key) {
      HoldsUpdate(bs, s, c, c[j]);
      assert c[j] in bs[s];
    }
    PlacedUpdate(ef, hf, bs, s, c);
  }

  /** A chain loses its `i`-th item. */
  lemma Pulled(ef: (int, int) -> bool, hf: int -> nat, bs: Buckets, s: nat, i: nat)
    requires Agree(ef, hf) && Placed(ef, hf, bs) && s < |bs| && i < |bs[s]|
    ensures var bs' := bs[s := bs[s][..i] + bs[s][i + 1..]];
            Placed(ef, hf, bs') && Count(bs') == Count(bs) - 1 && Holds(bs, bs[s][i])
            && forall e :: Holds(bs', e) <==> Holds(bs, e) && !ef(e.key, bs[s][i].key)
  {
    hide Slot, Holds, Elsewhere;
    var c, x := bs[s][..i] + bs[s][i + 1..], bs[s][i];
    CountUpdate(bs, s, c);
    Deleted(bs[s], i);
    assert x in bs[s];
    PlacedUpdate(ef, hf, bs, s, c);
    HoldsUpdate(bs, s, c, x);
    forall e ensures Holds(bs[s := c], e) <==> Holds(bs, e) && !ef(e.key, x.key) {
      HoldsUpdate(bs, s, c, e);
      if Elsewhere(bs, s, e) { OtherKeys(ef, hf, bs, s, e, x.key); }
      OneLeft(ef, bs[s], i, e);
    }
  }

  lemma OneLeft(ef: (int, int) -> bool, c: seq<Entry>, i: nat, e: Entry)
    requires OneEach(ef, c) && i < |c| && ef(c[i].key, c[i].key) && forall a, b :: ef(a, b) ==> ef(b, a)
    ensures e in c[..i] + c[i + 1..] <==> e in c && !ef(e.key, c[i].key)
  {
    var d := c[..i] + c[i + 1..];
    if e in d {
      var j :| 0 <= j < |d| && d[j] == e;
      assert c[if j < i then j else j + 1] == e;
    }
    if e in c && !ef(e.key, c[i].key) {
      var j :| 0 <= j < |c| && c[j] == e;
      assert d[if j < i then j else j - 1] == e;
    }
  }

  lemma Deleted(c: seq<Entry>, i: nat)
    requires i < |c|
    ensures var d := c[..i] + c[i + 1..]; forall e :: e in d ==> e in c
    ensures var d := c[..i] + c[i + 1..]; forall e :: e in c && e != c[i] ==> e in d
    ensures var d := c[..i] + c[i + 1..]; forall j :: 0 <= j < |d| ==> d[j] == c[if j < i then j else j + 1]
  {
  }

  /** An item's value changes. */
  lemma Changed(ef: (int, int) -> bool, hf: int -> nat, bs: Buckets, s: nat, i: nat, v: int)
    requires Agree(ef, hf) && Placed(ef, hf, bs) && s < |bs| && i < |bs[s]|
    ensures var x := Entry(bs[s][i].key, v); var bs' := bs[s := bs[s][i := x]];
            Placed(ef, hf, bs') && Count(bs') == Count(bs) && Holds(bs, bs[s][i])
            && forall e :: Holds(bs', e) <==> e == x || (Holds(bs, e) && !ef(e.key, x.key))
  {
    hide Slot, Holds, Elsewhere;
    var y := bs[s][i];
    var x := Entry(y.key, v);
    var c := bs[s][i := x];
    CountUpdate(bs, s, c);
    assert y in bs[s];
    forall e ensures e in c <==> e == x || (e in bs[s] && !ef(e.key, x.key)) { OneChanged(ef, bs[s], i, v, e); }
    PlacedUpdate(ef, hf, bs, s, c);
    HoldsUpdate(bs, s, c, y);
    forall e ensures Holds(bs[s := c], e) <==> e == x || (Holds(bs, e) && !ef(e.key, x.key)) {
      HoldsUpdate(bs, s, c, e);
      if Elsewhere(bs, s, e) { OtherKeys(ef, hf, bs, s, e, x.key); }
    }
  }

  /** The item `x` has the value `v` now; all others stay. */
  ghost predicate Replaced(ef: (int, int) -> bool, bs: Buckets, bs': Buckets, x: Entry, v: int) {
    && Holds(bs, x)
    && forall e :: Holds(bs', e) <==> e == Entry(x.key, v) || (Holds(bs, e) && !ef(e.key, x.key))
  }

  lemma OneChanged(ef: (int, int) -> bool, c: seq<Entry>, i: nat, v: int, e: Entry)
    requires OneEach(ef, c) && i < |c| && ef(c[i].key, c[i].key) && forall a, b :: ef(a, b) ==> ef(b, a)
    ensures var x := Entry(c[i].key, v); e in c[i := x] <==> e == x || (e in c && !ef(e.key, x.key))
  {
    var x := Entry(c[i].key, v);
    var d := c[i := x];
    assert d[i] == x;
    if e in d {
      var j :| 0 <= j < |d| && d[j] == e;
      assert j != i ==> c[j] == e;
    }
    if e in c && !ef(e.key, x.key) {
      var j :| 0 <= j < |c| && c[j] == e;
      assert d[j] == e;
    }
  }

  // ----- the size -----

  /** The size after hashtbl_check_size, if there is memory. */
  function NextSize(size: nat, n: nat): nat {
    var wanted := if 4 * n > 3 * size then size * 2 else if 4 * n < size then size / 2 else 0;
    if wanted >= INIT_SIZE then wanted else size
  }

  function Pow2(k: nat): nat {
    if k == 0 then 1 else 2 * Pow2(k - 1)
  }

  ghost predicate SizeOk(size: nat) {
    exists k :: size == INIT_SIZE * Pow2(k)
  }

  /** At least a quarter full, unless as small as can be, and at most three quarters. */
  predicate Balanced(size: nat, n: nat) {
    4 * n <= 3 * size && (size == INIT_SIZE || 4 * n >= size)
  }

  /** Sizes stay powers of two, 16 or more. */
  lemma SizeStays(size: nat, n: nat)
    requires SizeOk(size)
    ensures size >= INIT_SIZE && SizeOk(NextSize(size, n))
  {
    var k: nat :| size == INIT_SIZE * Pow2(k);
    PowPositive(k);
    assert size * 2 == INIT_SIZE * Pow2(k + 1);
    if k > 0 { assert size / 2 == INIT_SIZE * Pow2(k - 1); }
  }

  lemma SizeFacts(size: nat)
    requires SizeOk(size)
    ensures size >= 16 && (size > 16 ==> size % 2 == 0 && size / 2 >= 16)
  {
    var k: nat :| size == INIT_SIZE * Pow2(k);
    hide Pow2;
    var q := PowHalf(k);
    assert size == 16 || size == 32 * q;
  }

  lemma PowHalf(k: nat) returns (q: nat)
    ensures if k == 0 then Pow2(k) == 1 else Pow2(k) == 2 * q && q >= 1
  {
    q := 0;
    if k > 0 {
      q := Pow2(k - 1);
      PowPositive(k - 1);
    }
  }

  lemma PowPositive(k: nat)
    ensures Pow2(k) >= 1
  {
  }

  /** One resizing is enough after one item more or less. */
  lemma OneResize(size: nat, n: nat, n': nat)
    requires SizeOk(size) && -1 <= n' - n <= 1
    ensures Balanced(size, n) ==> Balanced(NextSize(size, n'), n')
  {
    var k: nat :| size == INIT_SIZE * Pow2(k);
    PowPositive(k);
    if k > 0 { PowPositive(k - 1); }
  }

  // ----- moving to another array -----

  /** No key is in both. */
  ghost predicate KeysApart(ef: (int, int) -> bool, bs: Buckets, cs: Buckets) {
    forall e, e' :: Holds(bs, e) && Holds(cs, e') ==> !ef(e.key, e'.key)
  }

  /** While items move from `bs`, which held those of `old`, to `cs`. */
  ghost predicate Moving(ef: (int, int) -> bool, hf: int -> nat, was: Buckets, bs: Buckets, cs: Buckets) {
    && Placed(ef, hf, bs) && Placed(ef, hf, cs) && KeysApart(ef, bs, cs)
    && Count(bs) + Count(cs) == Count(was)
    && forall e :: Holds(was, e) <==> Holds(bs, e) || Holds(cs, e)
  }

  lemma MovingStarts(ef: (int, int) -> bool, hf: int -> nat, bs: Buckets, cs: Buckets)
    requires Placed(ef, hf, bs) && |cs| > 0 && forall s :: 0 <= s < |cs| ==> cs[s] == []
    ensures Moving(ef, hf, bs, bs, cs)
  {
    CountNone(cs);
  }

  lemma MovingStep(ef: (int, int) -> bool, hf: int -> nat, was: Buckets, bs: Buckets, cs: Buckets, i: nat)
    requires Agree(ef, hf) && Moving(ef, hf, was, bs, cs) && i < |bs| && bs[i] != [] && |cs| > 0
    ensures var x := bs[i][0]; var s := Slot(hf(x.key), |cs|);
            Moving(ef, hf, was, bs[i := bs[i][1..]], cs[s := [x] + cs[s]])
  {
    hide Placed, Holds, Slot;
    var x := bs[i][0];
    var s := Slot(hf(x.key), |cs|);
    Pulled(ef, hf, bs, i, 0);
    assert bs[i][..0] + bs[i][0 + 1..] == bs[i][1..];
    forall e | Holds(cs, e) ensures !ef(e.key, x.key) { assert !ef(x.key, e.key); }
    Pushed(ef, hf, cs, x);
    AtMost(ef, hf, bs, x);
  }

  /** An item of a table is the only one with its key. */
  lemma AtMost(ef: (int, int) -> bool, hf: int -> nat, bs: Buckets, x: Entry)
    requires Agree(ef, hf) && Placed(ef, hf, bs) && Holds(bs, x)
    ensures forall e :: Holds(bs, e) && ef(e.key, x.key) ==> e == x
  {
    hide Placed, Holds;
    forall e | Holds(bs, e) && ef(e.key, x.key) ensures e == x { Unique(ef, hf, bs, e, x); }
  }

  lemma MovingEnds(ef: (int, int) -> bool, hf: int -> nat, was: Buckets, bs: Buckets, cs: Buckets)
    requires Agree(ef, hf) && Placed(ef, hf, was) && Moving(ef, hf, was, bs, cs) && forall s :: 0 <= s < |bs| ==> bs[s] == []
    ensures Placed(ef, hf, cs) && Count(cs) == Count(was) && forall e :: Holds(cs, e) <==> Holds(was, e)
  {
    CountNone(bs);
  }

  /** All items, chain after chain. */
  function Flat(bs: Buckets): seq<Entry> {
    if bs == [] then [] else Flat(bs[..|bs| - 1]) + bs[|bs| - 1]
  }

  lemma {:induction false} FlatAre(bs: Buckets)
    ensures |Flat(bs)| == Count(bs) && forall e :: e in Flat(bs) <==> Holds(bs, e)
  {
    if bs != [] {
      var n := |bs| - 1;
      FlatAre(bs[..n]);
      forall e ensures e in Flat(bs) <==> Holds(bs, e) {
        if t :| 0 <= t < |bs| && e in bs[t] { if t < n { assert e in bs[..n][t]; } }
        if t :| 0 <= t < n && e in bs[..n][t] { assert e in bs[t]; }
        if e in bs[n] { assert Holds(bs, e); }
      }
    }
  }

  lemma FlatNext(bs: Buckets, s: nat)
    requires s < |bs|
    ensures Flat(bs[..s + 1]) == Flat(bs[..s]) + bs[s]
  {
    assert bs[..s + 1][..s] == bs[..s];
  }

  class HashTable {
    const ef: (int, int) -> bool
    const hf: int -> nat
    var nitems: int
    var items: array<seq<Entry>>
    var released: seq<Entry>     // the calls of the release function so far

    ghost predicate Valid()
      reads this, items
    {
      Agree(ef, hf) && Placed(ef, hf, items[..]) && nitems == Count(items[..]) && SizeOk(items.Length)
    }

    ghost function Map(k: int): Option<int>
      reads this, items
    {
      Lookup(ef, items[..], k)
    }

    /** create_hashtbl, with memory for the array. */
    constructor (equal: (int, int) -> bool, hash: int -> nat)
      requires Agree(equal, hash)
      ensures Valid() && fresh(items) && nitems == 0 && items.Length == 16 && released == []
      ensures ef == equal && hf == hash && forall k :: Map(k) == None
    {
      ef, hf, nitems, released := equal, hash, 0, [];
      items := new seq<Entry>[INIT_SIZE](i => []);
      new;
      CountNone(items[..]);
      assert INIT_SIZE == INIT_SIZE * Pow2(0);
    }

    /** The loops of hashtbl_check_size that move every item to a new array. */
    method Rehash(nsize: nat)
      requires Valid() && nsize > 0
      modifies this`items, items
      ensures fresh(items) && items.Length == nsize && Placed(ef, hf, items[..]) && Count(items[..]) == nitems
      ensures forall e :: Holds(items[..], e) <==> Holds(old(items[..]), e)
    {
      hide Agree, Placed, Holds, Moving, SizeOk, Slot;
      ghost var was := items[..];
      var news := new seq<Entry>[nsize](i => []);
      MovingStarts(ef, hf, was, news[..]);
      var i := 0;
      while i < items.Length
        modifies items, news
        invariant i <= items.Length && Moving(ef, hf, was, items[..], news[..])
        invariant forall s :: 0 <= s < i ==> items[s] == []
      {
        while items[i] != []
          modifies items, news
          invariant Moving(ef, hf, was, items[..], news[..]) && forall s :: 0 <= s < i ==> items[s] == []
          decreases |items[i]|
        {
          ghost var bs, cs := items[..], news[..];
          MovingStep(ef, hf, was, bs, cs, i);
          var x := items[i][0];
          items[i] := items[i][1..];
          var slot := Slot(hf(x.key), nsize);
          news[slot] := [x] + news[slot];
          assert items[..] == bs[i := bs[i][1..]] && news[..] == cs[slot := [x] + cs[slot]];
        }
        i := i + 1;
      }
      MovingEnds(ef, hf, was, items[..], news[..]);
      items := news;
    }

    /** hashtbl_check_size: the map stays; the size becomes the next one, if there is
        memory (`ok`). */
    method CheckSize(ok: bool)
      requires Valid()
      modifies this`items, items
      ensures Valid() && (items == old(items) || fresh(items))
      ensures items.Length == if ok then NextSize(old(items.Length), nitems) else old(items.Length)
      ensures ok && 4 * nitems > 3 * old(items.Length) ==> items.Length == 2 * old(items.Length)
      ensures ok && 4 * nitems < old(items.Length) && old(items.Length) > 16 ==> 2 * items.Length == old(items.Length)
      ensures old(items.Length) <= 4 * nitems <= 3 * old(items.Length) ==> items == old(items)
      ensures forall e :: Holds(items[..], e) <==> Holds(old(items[..]), e)
      ensures forall k :: Map(k) == old(Map(k))
    {
      hide Agree, Placed, Holds, Count, SizeOk, Lookup;
      SizeFacts(items.Length);
      var size := items.Length;
      var nsize := 0;
      if 4 * nitems < size { nsize := size / 2; }
      if 4 * nitems > 3 * size { nsize := size * 2; }
      if nsize != 0 && nsize >= INIT_SIZE {
        if !ok { return; }
        SizeStays(size, nitems);
        Rehash(nsize);
        SameMap(ef, hf, old(items[..]), items[..]);
      }
    }

    /** The place of a key in its chain, or the end of the chain. */
    method Locate(k: int) returns (slot: nat, i: nat)
      requires Valid()
      ensures slot < items.Length && i <= |items[slot]|
      ensures i < |items[slot]| ==> Holds(items[..], items[slot][i]) && ef(items[slot][i].key, k)
      ensures i == |items[slot]| ==> forall e :: Holds(items[..], e) ==> !ef(e.key, k)
      ensures slot == Slot(hf(k), items.Length) == (hf(k) * 21179) % 0x1_0000_0000 % items.Length
    {
      hide Count, SizeOk;
      slot := Slot(hf(k), items.Length);
      i := 0;
      while i < |items[slot]| && !ef(items[slot][i].key, k)
        invariant i <= |items[slot]| && forall j :: 0 <= j < i ==> !ef(items[slot][j].key, k)
      {
        i := i + 1;
      }
      if i < |items[slot]| {
        assert items[slot][i] in items[..][slot];
      } else {
        forall e | Holds(items[..], e) ensures !ef(e.key, k) {
          if ef(e.key, k) { InChain(ef, hf, items[..], k, e); }
        }
      }
    }

    /** hashtbl_find */
    method Find(k: int) returns (r: Option<int>)
      requires Valid()
      ensures r == Map(k)
    {
      hide Placed, Holds, Count, SizeOk, Slot, Lookup, Agree;
      var slot, i := Locate(k);
      LookupIs(ef, hf, items[..], k);
      r := if i < |items[slot]| then Some(items[slot][i].val) else None;
    }

    /** hashtbl_change: only a key that is present gets the value; nothing is released. */
    method Change(k: int, v: int) returns (found: bool)
      requires Valid()
      modifies items
      ensures Valid() && found == old(Map(k)).Some?
      ensures forall q :: Map(q) == if found && ef(k, q) then Some(v) else old(Map(q))
      ensures !found ==> items[..] == old(items[..])
      ensures found ==> exists x: Entry :: ef(x.key, k) && Replaced(ef, old(items[..]), items[..], x, v)
    {
      hide Placed, Holds, Count, SizeOk, Slot, Lookup, Agree;
      ghost var bs := items[..];
      var slot, i := Locate(k);
      LookupIs(ef, hf, bs, k);
      found := i < |items[slot]|;
      if found {
        var x := Entry(items[slot][i].key, v);
        Changed(ef, hf, bs, slot, i, v);
        items[slot] := items[slot][i := x];
        assert items[..] == bs[slot := bs[slot][i := x]];
        MapChanged(ef, hf, bs, items[..], k, x);
        assert Replaced(ef, bs, items[..], bs[slot][i], v);
      }
    }

    /** hashtbl_remove: the item of the key goes and is released; all others stay. */
    method Remove(k: int, ok: bool)
      requires Valid()
      modifies this`items, this`nitems, this`released, items
      ensures Valid() && (items == old(items) || fresh(items))
      ensures forall q :: Map(q) == if ef(k, q) then None else old(Map(q))
      ensures forall e :: Holds(items[..], e) <==> Holds(old(items[..]), e) && !ef(e.key, k)
      ensures nitems == old(nitems) - (if old(Map(k)).Some? then 1 else 0)
      ensures if old(Map(k)).Some?
              then exists e :: Holds(old(items[..]), e) && ef(e.key, k) && released == old(released) + [e]
              else released == old(released)
      ensures ok && old(4 * nitems <= 3 * items.Length && (items.Length == 16 || 4 * nitems >= items.Length)) ==>
                4 * nitems <= 3 * items.Length && (items.Length == 16 || 4 * nitems >= items.Length)
    {
      hide Placed, Holds, Count, SizeOk, Slot, Lookup, Agree, NextSize;
      ghost var bs := items[..];
      LookupIs(ef, hf, bs, k);
      var slot, i := Locate(k);
      if items[slot] == [] {
        MapWithout(ef, hf, bs, bs, k);
        return;
      }
      if i < |items[slot]| {
        var x := items[slot][i];
        Pulled(ef, hf, bs, slot, i);
        SameClass(ef, hf, x.key, k);
        items[slot] := items[slot][..i] + items[slot][i + 1..];
        assert items[..] == bs[slot := bs[slot][..i] + bs[slot][i + 1..]];
        nitems := nitems - 1;
        released := released + [x];
      }
      OneResize(items.Length, old(nitems), nitems);
      MapWithout(ef, hf, bs, items[..], k);
      CheckSize(ok);
    }

    /** hashtbl_add: the key gets the value, instead of the one it had, if any; with no
        memory for an item nothing happens. `memory` tells for each allocation whether
        it succeeds. */
    method Add(k: int, v: int, memory: (bool, bool, bool)) returns (done: bool)
      requires Valid()
      modifies this`items, this`nitems, this`released, items
      ensures Valid() && done == memory.0 && (items == old(items) || fresh(items))
      ensures !done ==> nitems == old(nitems) && released == old(released) && items == old(items) && items[..] == old(items[..])
      ensures done ==> forall q :: Map(q) == if ef(k, q) then Some(v) else old(Map(q))
      ensures done ==> nitems == old(nitems) + (if old(Map(k)).Some? then 0 else 1)
      ensures done ==> if old(Map(k)).Some?
                       then exists e :: Holds(old(items[..]), e) && ef(e.key, k) && released == old(released) + [e]
                       else released == old(released)
      ensures memory == (true, true, true) && old(4 * nitems <= 3 * items.Length && (items.Length == 16 || 4 * nitems >= items.Length)) ==>
                4 * nitems <= 3 * items.Length && (items.Length == 16 || 4 * nitems >= items.Length)
      ensures done ==> forall e :: Holds(items[..], e) <==> e == Entry(k, v) || (Holds(old(items[..]), e) && !ef(e.key, k))
    {
      hide Placed, Holds, Count, SizeOk, Slot, Lookup, Agree, NextSize;
      done := memory.0;
      if !done { return; }
      Remove(k, memory.1);
      ghost var bs := items[..];
      SizeStays(items.Length, nitems);
      var slot := Slot(hf(k), items.Length);
      var x := Entry(k, v);
      Pushed(ef, hf, bs, x);
      OneResize(items.Length, nitems, nitems + 1);
      items[slot] := [x] + items[slot];
      assert items[..] == bs[slot := [x] + bs[slot]];
      nitems := nitems + 1;
      MapWith(ef, hf, bs, items[..], x);
      CheckSize(memory.2);
    }

    /** hashtbl_iter: every item once. `out` lists the calls of the iterator. */
    method Iter() returns (out: seq<Entry>)
      requires Valid()
      ensures out == Flat(items[..]) && |out| == nitems && forall e :: e in out <==> Holds(items[..], e)
    {
      FlatAre(items[..]);
      out := [];
      var s := 0;
      while s < items.Length
        invariant s <= items.Length && out == Flat(items[..][..s])
      {
        FlatNext(items[..], s);
        var i := 0;
        while i < |items[s]|
          invariant i <= |items[s]| && out == Flat(items[..][..s]) + items[s][..i]
        {
          out := out + [items[s][i]];
          i := i + 1;
        }
        s := s + 1;
      }
      assert items[..][..s] == items[..];
    }

    /** delete_hashtbl: every item is released once. */
    method Delete()
      requires Valid()
      modifies this`released, items
      ensures released == old(released) + Flat(old(items[..]))
    {
      ghost var bs := items[..];
      var s := 0;
      while s < items.Length
        invariant s <= items.Length && released == old(released) + Flat(bs[..s])
        invariant forall t :: s <= t < items.Length ==> items[t] == bs[t]
      {
        FlatNext(bs, s);
        ghost var i, sofar := 0, released;
        while items[s] != []
          invariant 0 <= i <= |bs[s]| && items[s] == bs[s][i..] && released == sofar + bs[s][..i]
          invariant forall t :: s < t < items.Length ==> items[t] == bs[t]
          decreases |items[s]|
        {
          var x := items[s][0];
          items[s] := items[s][1..];
          released := released + [x];
          i := i + 1;
        }
        s := s + 1;
      }
      assert bs[..s] == bs;
    }
  }

  /** Equal keys compare alike with every other key. */
  lemma SameClass(ef: (int, int) -> bool, hf: int -> nat, a: int, b: int)
    requires Agree(ef, hf) && ef(a, b)
    ensures forall k :: ef(k, a) <==> ef(k, b)
    ensures forall k :: ef(a, k) <==> ef(b, k)
  {
  }

  lemma MapChanged(ef: (int, int) -> bool, hf: int -> nat, bs: Buckets, bs': Buckets, k: int, x: Entry)
    requires Agree(ef, hf) && Placed(ef, hf, bs) && Placed(ef, hf, bs') && ef(x.key, k)
    requires forall e :: Holds(bs', e) <==> e == x || (Holds(bs, e) && !ef(e.key, x.key))
    ensures forall q :: Lookup(ef, bs', q) == if ef(k, q) then Some(x.val) else Lookup(ef, bs, q)
  {
    SameClass(ef, hf, x.key, k);
    hide Holds, Placed, Lookup;
    assert Holds(bs', x);
    forall q ensures Lookup(ef, bs', q) == if ef(k, q) then Some(x.val) else Lookup(ef, bs, q) {
      LookupIs(ef, hf, bs, q);
      LookupIs(ef, hf, bs', q);
    }
  }
}
