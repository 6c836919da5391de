/** The by-size list of free regions with its `first_bigger` skip links. */
module RegionLists {

  type Desc = nat   // address of a region descriptor

  datatype Link = Null | To(desc: Desc)

  ghost predicate NoDup(l: seq<Desc>) {
    forall i, j :: 0 <= i < j < |l| ==> l[i] != l[j]
  }

  ghost predicate Known(l: seq<Desc>, size: map<Desc, nat>) {
    forall i :: 0 <= i < |l| ==> l[i] in size
  }

  ghost predicate Ascending(l: seq<Desc>, size: map<Desc, nat>)
    requires Known(l, size)
  {
    forall i, j :: 0 <= i <= j < |l| ==> size[l[i]] <= size[l[j]]
  }

  function At(l: seq<Desc>, i: nat): Link {
    if i < |l| then To(l[i]) else Null
  }

  function Without(l: seq<Desc>, k: nat): seq<Desc>
    requires k < |l|
  {
    l[..k] + l[k+1..]
  }

  function Insert(l: seq<Desc>, k: nat, d: Desc): seq<Desc>
    requires k <= |l|
  {
    l[..k] + [d] + l[k..]
  }

  /** The first position from `k` on that holds a region larger than `v`. */
  ghost function FirstAbove(l: seq<Desc>, size: map<Desc, nat>, v: nat, k: nat): (j: nat)
    requires k <= |l| && Known(l, size)
    ensures k <= j <= |l|
    ensures forall m :: k <= m < j ==> size[l[m]] <= v
    ensures j < |l| ==> size[l[j]] > v
    decreases |l| - k
  {
    if k == |l| || size[l[k]] > v then k else FirstAbove(l, size, v, k + 1)
  }

  lemma FirstAboveIs(l: seq<Desc>, size: map<Desc, nat>, v: nat, k: nat, j: nat)
    requires k <= j <= |l| && Known(l, size)
    requires forall m :: k <= m < j ==> size[l[m]] <= v
    requires j < |l| ==> size[l[j]] > v
    ensures FirstAbove(l, size, v, k) == j
  {
  }

  /** Every skip link leads to the first strictly larger region. */
  ghost predicate SkipsOk(l: seq<Desc>, size: map<Desc, nat>, bigger: map<Desc, Link>) {
    && Known(l, size)
    && forall i :: 0 <= i < |l| ==> l[i] in bigger && bigger[l[i]] == At(l, FirstAbove(l, size, size[l[i]], i + 1))
  }

  ghost predicate SizeListOk(l: seq<Desc>, size: map<Desc, nat>, bigger: map<Desc, Link>) {
    NoDup(l) && Known(l, size) && Ascending(l, size) && SkipsOk(l, size, bigger)
  }

  // ----- searching along the skip links -----

  /** Following only skip links reaches the first region of at least the size
      asked for, as a scan of the whole list would. */
  ghost function FirstFit(l: seq<Desc>, size: map<Desc, nat>, n: nat, k: nat): (j: nat)
    requires k <= |l| && Known(l, size)
    ensures k <= j <= |l|
    ensures forall m :: k <= m < j ==> size[l[m]] < n
    ensures j < |l| ==> size[l[j]] >= n
    decreases |l| - k
  {
    if k == |l| || size[l[k]] >= n then k else FirstFit(l, size, n, k + 1)
  }

  /** A skip passes over no region that is large enough. */
  lemma SkipMissesNothing(l: seq<Desc>, size: map<Desc, nat>, n: nat, k: nat)
    requires k < |l| && Known(l, size) && size[l[k]] < n
    ensures FirstFit(l, size, n, k) == FirstFit(l, size, n, FirstAbove(l, size, size[l[k]], k + 1))
  {
    FitSkips(l, size, n, k + 1, FirstAbove(l, size, size[l[k]], k + 1));
  }

  lemma FitSkips(l: seq<Desc>, size: map<Desc, nat>, n: nat, k: nat, j: nat)
    requires k <= j <= |l| && Known(l, size) && forall m :: k <= m < j ==> size[l[m]] < n
    ensures FirstFit(l, size, n, k) == FirstFit(l, size, n, j)
    decreases j - k
  {
    if k < j { FitSkips(l, size, n, k + 1, j); }
  }

  // ----- removal -----

  /** The skip links after removing position `k`: those that led to it lead on. */
  ghost predicate RemovedSkips(l: seq<Desc>, k: nat, bigger: map<Desc, Link>, bigger': map<Desc, Link>)
    requires k < |l|
  {
    forall i :: 0 <= i < |l| && i != k && l[i] in bigger ==>
      l[i] in bigger' && bigger'[l[i]] == if i < k && bigger[l[i]] == To(l[k]) then At(l, k + 1) else bigger[l[i]]
  }

  lemma WithoutIndex(l: seq<Desc>, k: nat)
    requires k < |l|
    ensures |Without(l, k)| == |l| - 1
    ensures forall i :: 0 <= i < k ==> Without(l, k)[i] == l[i]
    ensures forall i :: k <= i < |l| - 1 ==> Without(l, k)[i] == l[i + 1]
  {
  }

  lemma RemoveKeeps(l: seq<Desc>, size: map<Desc, nat>, bigger: map<Desc, Link>, k: nat, bigger': map<Desc, Link>)
    requires SizeListOk(l, size, bigger) && k < |l| && RemovedSkips(l, k, bigger, bigger')
    ensures SizeListOk(Without(l, k), size, bigger')
  {
    hide Without, FirstAbove, NoDup, Ascending, SkipsOk;
    WithoutIndex(l, k);
    RemovedList(l, size, k);
    assert SkipsOk(Without(l, k), size, bigger') by {
      forall i | 0 <= i < |l| - 1 ensures SkipAt(Without(l, k), size, bigger', i) {
        RemovedSkip(l, size, bigger, k, bigger', i);
      }
      AllSkips(Without(l, k), size, bigger');
    }
  }

  /** The skip link at one position. */
  ghost predicate SkipAt(l: seq<Desc>, size: map<Desc, nat>, bigger: map<Desc, Link>, i: nat)
    requires Known(l, size)
  {
    i < |l| && l[i] in bigger && bigger[l[i]] == At(l, FirstAbove(l, size, size[l[i]], i + 1))
  }

  lemma AllSkips(l: seq<Desc>, size: map<Desc, nat>, bigger: map<Desc, Link>)
    requires Known(l, size) && forall i :: 0 <= i < |l| ==> SkipAt(l, size, bigger, i)
    ensures SkipsOk(l, size, bigger)
  {
    hide FirstAbove;
    forall i | 0 <= i < |l| ensures l[i] in bigger && bigger[l[i]] == At(l, FirstAbove(l, size, size[l[i]], i + 1)) {
      assert SkipAt(l, size, bigger, i);
    }
  }

  lemma OneSkip(l: seq<Desc>, size: map<Desc, nat>, bigger: map<Desc, Link>, i: nat)
    requires Known(l, size) && SkipsOk(l, size, bigger) && i < |l|
    ensures SkipAt(l, size, bigger, i)
  {
    hide FirstAbove;
  }

  lemma RemovedList(l: seq<Desc>, size: map<Desc, nat>, k: nat)
    requires NoDup(l) && Known(l, size) && Ascending(l, size) && k < |l|
    ensures NoDup(Without(l, k)) && Known(Without(l, k), size) && Ascending(Without(l, k), size)
  {
    hide Without;
    WithoutIndex(l, k);
  }

  lemma RemovedSkip(l: seq<Desc>, size: map<Desc, nat>, bigger: map<Desc, Link>, k: nat, bigger': map<Desc, Link>, i: nat)
    requires SizeListOk(l, size, bigger) && k < |l| && RemovedSkips(l, k, bigger, bigger') && i < |l| - 1
    requires Known(Without(l, k), size)
    ensures SkipAt(Without(l, k), size, bigger', i)
  {
    hide Without, FirstAbove, NoDup, SkipsOk;
    WithoutIndex(l, k);
    OneSkip(l, size, bigger, if i < k then i else i + 1);
    var w, p := Without(l, k), if i < k then i else i + 1;
    var j := FirstAbove(l, size, size[l[p]], p + 1);
    assert w[i] == l[p];
    assert j < |l| && l[j] == l[k] ==> j == k by { Distinct(l, j, k); }
    FirstAboveIs(w, size, size[w[i]], i + 1, if j <= k then j else j - 1);
  }

  lemma Distinct(l: seq<Desc>, i: nat, j: nat)
    requires NoDup(l) && j < |l|
    ensures i < |l| && l[i] == l[j] ==> i == j
  {
  }

  // ----- insertion -----

  /** The skip links after inserting `d` at position `k`. */
  ghost predicate InsertedSkips(l: seq<Desc>, size: map<Desc, nat>, k: nat, d: Desc, bigger: map<Desc, Link>, bigger': map<Desc, Link>)
    requires k <= |l| && Known(l, size) && d in size
  {
    && (forall i :: k <= i < |l| && l[i] in bigger ==> l[i] in bigger' && bigger'[l[i]] == bigger[l[i]])
    && (forall i :: 0 <= i < k && l[i] in bigger ==>
          l[i] in bigger' && bigger'[l[i]] == if TakesOver(size, bigger[l[i]], size[d]) then To(d) else bigger[l[i]])
    && d in bigger'
    && (if k == |l| then bigger'[d] == Null
        else if size[l[k]] > size[d] then bigger'[d] == To(l[k])
        else l[k] in bigger && bigger'[d] == bigger[l[k]])
  }

  /** `d`, of size `n`, becomes the first larger region of one that skipped past it. */
  predicate TakesOver(size: map<Desc, nat>, link: Link, n: nat) {
    link.Null? || (link.desc in size && size[link.desc] >= n)
  }

  lemma InsertIndex(l: seq<Desc>, k: nat, d: Desc)
    requires k <= |l|
    ensures |Insert(l, k, d)| == |l| + 1 && Insert(l, k, d)[k] == d
    ensures forall i :: 0 <= i < k ==> Insert(l, k, d)[i] == l[i]
    ensures forall i :: k < i <= |l| ==> Insert(l, k, d)[i] == l[i - 1]
  {
  }

  lemma InsertKeeps(l: seq<Desc>, size: map<Desc, nat>, bigger: map<Desc, Link>, k: nat, d: Desc, bigger': map<Desc, Link>)
    requires SizeListOk(l, size, bigger) && k <= |l| && d in size && d !in l
    requires forall i :: 0 <= i < k ==> size[l[i]] < size[d]
    requires k < |l| ==> size[l[k]] >= size[d]
    requires InsertedSkips(l, size, k, d, bigger, bigger')
    ensures SizeListOk(Insert(l, k, d), size, bigger')
  {
    hide Insert, FirstAbove, NoDup, Ascending, SkipsOk, InsertedSkips;
    InsertIndex(l, k, d);
    InsertedList(l, size, k, d);
    forall i | 0 <= i < |l| + 1 ensures SkipAt(Insert(l, k, d), size, bigger', i) {
      if i == k {
        InsertedOwn(l, size, bigger, k, d, bigger');
      } else {
        InsertedOther(l, size, bigger, k, d, bigger', i);
      }
    }
    AllSkips(Insert(l, k, d), size, bigger');
  }

  lemma InsertedList(l: seq<Desc>, size: map<Desc, nat>, k: nat, d: Desc)
    requires NoDup(l) && Known(l, size) && Ascending(l, size) && k <= |l| && d in size && d !in l
    requires forall i :: 0 <= i < k ==> size[l[i]] < size[d]
    requires k < |l| ==> size[l[k]] >= size[d]
    ensures NoDup(Insert(l, k, d)) && Known(Insert(l, k, d), size) && Ascending(Insert(l, k, d), size)
  {
    hide Insert;
    InsertIndex(l, k, d);
  }

  lemma InsertedOwn(l: seq<Desc>, size: map<Desc, nat>, bigger: map<Desc, Link>, k: nat, d: Desc, bigger': map<Desc, Link>)
    requires SizeListOk(l, size, bigger) && k <= |l| && d in size
    requires k < |l| ==> size[l[k]] >= size[d]
    requires InsertedSkips(l, size, k, d, bigger, bigger') && Known(Insert(l, k, d), size)
    ensures SkipAt(Insert(l, k, d), size, bigger', k)
  {
    hide Insert, FirstAbove, NoDup, SkipsOk;
    var w := Insert(l, k, d);
    InsertIndex(l, k, d);
    if k < |l| { OneSkip(l, size, bigger, k); }
    FirstAboveIs(w, size, size[d], k + 1,
                 if k == |l| then |w| else if size[l[k]] > size[d] then k + 1 else FirstAbove(l, size, size[l[k]], k + 1) + 1);
  }

  lemma InsertedOther(l: seq<Desc>, size: map<Desc, nat>, bigger: map<Desc, Link>, k: nat, d: Desc, bigger': map<Desc, Link>, i: nat)
    requires SizeListOk(l, size, bigger) && k <= |l| && d in size && i <= |l| && i != k
    requires forall m :: 0 <= m < k ==> size[l[m]] < size[d]
    requires k < |l| ==> size[l[k]] >= size[d]
    requires InsertedSkips(l, size, k, d, bigger, bigger') && Known(Insert(l, k, d), size)
    ensures SkipAt(Insert(l, k, d), size, bigger', i)
  {
    hide Insert, FirstAbove, NoDup, Ascending, SkipsOk;
    var w := Insert(l, k, d);
    InsertIndex(l, k, d);
    OneSkip(l, size, bigger, if i < k then i else i - 1);
    var p := if i < k then i else i - 1;
    var j := FirstAbove(l, size, size[l[p]], p + 1);
    assert w[i] == l[p];
    if i > k {
      FirstAboveIs(w, size, size[w[i]], i + 1, j + 1);
    } else if j < k {
      FirstAboveIs(w, size, size[w[i]], i + 1, j);
    } else {
      assert k < |l| ==> j == k;
      FirstAboveIs(w, size, size[w[i]], i + 1, k);
    }
  }

  // ----- frames -----

  ghost predicate SameSizes(l: seq<Desc>, size: map<Desc, nat>, size': map<Desc, nat>) {
    forall i :: 0 <= i < |l| ==> l[i] in size && l[i] in size' && size[l[i]] == size'[l[i]]
  }

  lemma FirstAboveFrame(l: seq<Desc>, size: map<Desc, nat>, size': map<Desc, nat>, v: nat, k: nat)
    requires k <= |l| && SameSizes(l, size, size') && Known(l, size) && Known(l, size')
    ensures FirstAbove(l, size, v, k) == FirstAbove(l, size', v, k)
    decreases |l| - k
  {
    if k < |l| { FirstAboveFrame(l, size, size', v, k + 1); }
  }

  /** Sizes of descriptors outside the list do not matter to it. */
  lemma SizeListFrame(l: seq<Desc>, size: map<Desc, nat>, size': map<Desc, nat>, bigger: map<Desc, Link>)
    requires SizeListOk(l, size, bigger) && SameSizes(l, size, size')
    ensures SizeListOk(l, size', bigger)
  {
    hide FirstAbove, SkipsOk;
    forall i | 0 <= i < |l| ensures SkipAt(l, size', bigger, i) {
      OneSkip(l, size, bigger, i);
      FirstAboveFrame(l, size, size', size[l[i]], i + 1);
    }
    AllSkips(l, size', bigger);
  }
}
