/** The lists of the region allocator as values: what makes them well formed, the
    regions they describe, and how list surgery changes those. */
module RegionState {
  import opened RegionLists
  import opened RegionSets

  /** A used region with the type its owner gave it. */
  datatype Info = Info(region: Region, typ: string)

  function IndexOf(l: seq<Desc>, d: Desc): (i: nat)
    ensures i <= |l| && (i < |l| ==> l[i] == d) && (d in l ==> i < |l|)
    ensures forall j :: 0 <= j < i ==> l[j] != d
  {
    if l == [] || l[0] == d then 0 else 1 + IndexOf(l[1..], d)
  }

  ghost predicate Described(l: seq<Desc>, addr: map<Desc, nat>, size: map<Desc, nat>) {
    forall d :: d in l ==> d in addr && d in size
  }

  ghost function Regions(l: seq<Desc>, addr: map<Desc, nat>, size: map<Desc, nat>): set<Region> {
    set d | d in l && d in addr && d in size :: Region(addr[d], size[d])
  }

  ghost function Infos(l: seq<Desc>, addr: map<Desc, nat>, size: map<Desc, nat>, typ: map<Desc, string>): set<Info> {
    set d | d in l && d in addr && d in size && d in typ :: Info(Region(addr[d], size[d]), typ[d])
  }

  /** By address; no region touches the next. */
  ghost predicate FreeSorted(l: seq<Desc>, addr: map<Desc, nat>, size: map<Desc, nat>)
    requires Described(l, addr, size)
  {
    && (forall i :: 0 <= i < |l| ==> size[l[i]] > 0)
    && (forall i, j :: 0 <= i < j < |l| ==> addr[l[i]] + size[l[i]] < addr[l[j]])
  }

  /** By address; no region overlaps the next. */
  ghost predicate UsedSorted(l: seq<Desc>, addr: map<Desc, nat>, size: map<Desc, nat>)
    requires Described(l, addr, size)
  {
    && (forall i :: 0 <= i < |l| ==> size[l[i]] > 0)
    && (forall i, j :: 0 <= i < j < |l| ==> addr[l[i]] + size[l[i]] <= addr[l[j]])
  }

  ghost predicate SameElems(l: seq<Desc>, m: seq<Desc>) {
    forall d :: d in l <==> d in m
  }

  /** Both free lists hold the same regions, one by address, one by size. */
  ghost predicate FreeOk(byAddr: seq<Desc>, bySize: seq<Desc>, addr: map<Desc, nat>, size: map<Desc, nat>, bigger: map<Desc, Link>) {
    && Described(byAddr, addr, size) && FreeSorted(byAddr, addr, size)
    && SizeListOk(bySize, size, bigger) && SameElems(byAddr, bySize)
  }

  ghost predicate UsedOk(used: seq<Desc>, addr: map<Desc, nat>, size: map<Desc, nat>, typ: map<Desc, string>) {
    && Described(used, addr, size) && UsedSorted(used, addr, size)
    && forall d :: d in used ==> d in typ
  }

  ghost predicate DisjointLists(l: seq<Desc>, m: seq<Desc>) {
    forall d :: d in l ==> d !in m
  }

  /** A descriptor is free, used or unused, and listed once. */
  ghost predicate RolesOk(byAddr: seq<Desc>, used: seq<Desc>, unused: seq<Desc>) {
    && NoDup(unused) && DisjointLists(byAddr, used) && DisjointLists(byAddr, unused) && DisjointLists(used, unused)
  }

  ghost predicate SameOn(l: seq<Desc>, m: map<Desc, nat>, m': map<Desc, nat>) {
    forall d :: d in l ==> d in m && d in m' && m[d] == m'[d]
  }

  // ----- what well-formed lists describe -----

  lemma SortedSeparate(l: seq<Desc>, addr: map<Desc, nat>, size: map<Desc, nat>)
    requires Described(l, addr, size) && FreeSorted(l, addr, size)
    ensures AllSeparate(Regions(l, addr, size)) && NoDup(l)
    ensures forall r :: r in Regions(l, addr, size) ==> r.size > 0
  {
  }

  /** As many regions as descriptors. */
  lemma {:induction false} RegionCount(l: seq<Desc>, addr: map<Desc, nat>, size: map<Desc, nat>)
    requires Described(l, addr, size) && UsedSorted(l, addr, size)
    ensures |Regions(l, addr, size)| == |l|
  {
    if l == [] {
      assert Regions(l, addr, size) == {};
    } else {
      hide Regions;
      LastRegion(l, addr, size);
      RegionCount(l[..|l| - 1], addr, size);
    }
  }

  lemma LastRegion(l: seq<Desc>, addr: map<Desc, nat>, size: map<Desc, nat>)
    requires Described(l, addr, size) && UsedSorted(l, addr, size) && l != []
    ensures var m, d := l[..|l| - 1], l[|l| - 1];
            && Described(m, addr, size) && UsedSorted(m, addr, size)
            && Regions(l, addr, size) == Regions(m, addr, size) + {Region(addr[d], size[d])}
            && Region(addr[d], size[d]) !in Regions(m, addr, size)
  {
    var m, d := l[..|l| - 1], l[|l| - 1];
    LastElem(l);
    assert forall i :: 0 <= i < |m| ==> m[i] == l[i];
    forall e | e in m ensures addr[e] < addr[d] {
      var i :| 0 <= i < |m| && m[i] == e;
    }
  }

  lemma LastElem(l: seq<Desc>)
    requires l != []
    ensures forall e :: e in l <==> e in l[..|l| - 1] || e == l[|l| - 1]
  {
    assert l == l[..|l| - 1] + [l[|l| - 1]];
  }

  lemma FreeIsUsedSorted(l: seq<Desc>, addr: map<Desc, nat>, size: map<Desc, nat>)
    requires Described(l, addr, size) && FreeSorted(l, addr, size)
    ensures UsedSorted(l, addr, size)
  {
  }

  // ----- frames -----

  lemma FreeFrame(byAddr: seq<Desc>, bySize: seq<Desc>, addr: map<Desc, nat>, size: map<Desc, nat>, bigger: map<Desc, Link>,
                  addr': map<Desc, nat>, size': map<Desc, nat>)
    requires FreeOk(byAddr, bySize, addr, size, bigger) && SameOn(byAddr, addr, addr') && SameOn(byAddr, size, size')
    ensures FreeOk(byAddr, bySize, addr', size', bigger)
    ensures Regions(byAddr, addr', size') == Regions(byAddr, addr, size)
  {
    hide SizeListOk;
    assert SameSizes(bySize, size, size') by {
      forall i | 0 <= i < |bySize| ensures bySize[i] in size && bySize[i] in size' && size[bySize[i]] == size'[bySize[i]] {
        assert bySize[i] in byAddr;
      }
    }
    SizeListFrame(bySize, size, size', bigger);
  }

  lemma UsedFrame(used: seq<Desc>, addr: map<Desc, nat>, size: map<Desc, nat>, typ: map<Desc, string>,
                  addr': map<Desc, nat>, size': map<Desc, nat>, typ': map<Desc, string>)
    requires UsedOk(used, addr, size, typ) && SameOn(used, addr, addr') && SameOn(used, size, size')
    requires forall d :: d in used ==> d in typ' && typ'[d] == typ[d]
    ensures UsedOk(used, addr', size', typ')
    ensures Regions(used, addr', size') == Regions(used, addr, size)
    ensures Infos(used, addr', size', typ') == Infos(used, addr, size, typ)
  {
  }

  // ----- list surgery -----

  lemma WithoutElems(l: seq<Desc>, k: nat)
    requires k < |l| && NoDup(l)
    ensures forall d :: d in Without(l, k) <==> d in l && d != l[k]
  {
    var w := Without(l, k);
    hide Without;
    WithoutIndex(l, k);
    forall d | d in l && d != l[k] ensures d in w {
      var i :| 0 <= i < |l| && l[i] == d;
      assert w[if i < k then i else i - 1] == d;
    }
    forall d | d in w ensures d in l && d != l[k] {
      var i :| 0 <= i < |w| && w[i] == d;
      assert d == l[if i < k then i else i + 1];
    }
  }

  lemma WithoutFree(l: seq<Desc>, addr: map<Desc, nat>, size: map<Desc, nat>, k: nat)
    requires Described(l, addr, size) && FreeSorted(l, addr, size) && k < |l|
    ensures Described(Without(l, k), addr, size) && FreeSorted(Without(l, k), addr, size)
    ensures Regions(Without(l, k), addr, size) == Regions(l, addr, size) - {Region(addr[l[k]], size[l[k]])}
    ensures forall d :: d in Without(l, k) <==> d in l && d != l[k]
    ensures |Without(l, k)| == |l| - 1
  {
    hide Regions;
    var w := Without(l, k);
    FreeIsUsedSorted(l, addr, size);
    SortedDistinct(l, addr, size);
    WithoutElems(l, k);
    hide Without;
    WithoutIndex(l, k);
    RegionsWithout(l, w, addr, size, l[k]);
  }

  lemma RegionsWithout(l: seq<Desc>, w: seq<Desc>, addr: map<Desc, nat>, size: map<Desc, nat>, d: Desc)
    requires Described(l, addr, size) && d in l && forall e :: e in w <==> e in l && e != d
    requires forall e :: e in l && e != d ==> Region(addr[e], size[e]) != Region(addr[d], size[d])
    ensures Regions(w, addr, size) == Regions(l, addr, size) - {Region(addr[d], size[d])}
  {
  }

  lemma InfosWithout(l: seq<Desc>, w: seq<Desc>, addr: map<Desc, nat>, size: map<Desc, nat>, typ: map<Desc, string>, d: Desc)
    requires Described(l, addr, size) && d in l && (forall e :: e in l ==> e in typ) && forall e :: e in w <==> e in l && e != d
    requires forall e :: e in l && e != d ==> Region(addr[e], size[e]) != Region(addr[d], size[d])
    ensures Infos(w, addr, size, typ) == Infos(l, addr, size, typ) - {Info(Region(addr[d], size[d]), typ[d])}
  {
  }

  lemma SortedDistinct(l: seq<Desc>, addr: map<Desc, nat>, size: map<Desc, nat>)
    requires Described(l, addr, size) && UsedSorted(l, addr, size)
    ensures NoDup(l) && forall d, e :: d in l && e in l && d != e ==> Region(addr[d], size[d]) != Region(addr[e], size[e])
  {
  }

  lemma WithoutUsed(l: seq<Desc>, addr: map<Desc, nat>, size: map<Desc, nat>, typ: map<Desc, string>, k: nat)
    requires UsedOk(l, addr, size, typ) && k < |l|
    ensures UsedOk(Without(l, k), addr, size, typ)
    ensures Regions(Without(l, k), addr, size) == Regions(l, addr, size) - {Region(addr[l[k]], size[l[k]])}
    ensures Infos(Without(l, k), addr, size, typ) == Infos(l, addr, size, typ) - {Info(Region(addr[l[k]], size[l[k]]), typ[l[k]])}
    ensures forall d :: d in Without(l, k) <==> d in l && d != l[k]
    ensures |Without(l, k)| == |l| - 1
  {
    hide Regions, Infos;
    var w := Without(l, k);
    SortedDistinct(l, addr, size);
    WithoutElems(l, k);
    hide Without;
    WithoutIndex(l, k);
    RegionsWithout(l, w, addr, size, l[k]);
    InfosWithout(l, w, addr, size, typ, l[k]);
  }

  lemma InsertFree(l: seq<Desc>, addr: map<Desc, nat>, size: map<Desc, nat>, k: nat, d: Desc)
    requires Described(l, addr, size) && FreeSorted(l, addr, size) && k <= |l| && d in addr && d in size && size[d] > 0
    requires forall i :: 0 <= i < k ==> addr[l[i]] + size[l[i]] < addr[d]
    requires forall i :: k <= i < |l| ==> addr[d] + size[d] < addr[l[i]]
    ensures Described(Insert(l, k, d), addr, size) && FreeSorted(Insert(l, k, d), addr, size)
    ensures Regions(Insert(l, k, d), addr, size) == Regions(l, addr, size) + {Region(addr[d], size[d])}
    ensures forall e :: e in Insert(l, k, d) <==> e in l || e == d
    ensures |Insert(l, k, d)| == |l| + 1
  {
    InsertElems(l, k, d);
    hide Insert;
    InsertIndex(l, k, d);
  }

  lemma InsertUsed(l: seq<Desc>, addr: map<Desc, nat>, size: map<Desc, nat>, typ: map<Desc, string>, k: nat, d: Desc)
    requires UsedOk(l, addr, size, typ) && k <= |l| && d in addr && d in size && d in typ && size[d] > 0
    requires forall i :: 0 <= i < k ==> addr[l[i]] + size[l[i]] <= addr[d]
    requires forall i :: k <= i < |l| ==> addr[d] + size[d] <= addr[l[i]]
    ensures UsedOk(Insert(l, k, d), addr, size, typ)
    ensures Regions(Insert(l, k, d), addr, size) == Regions(l, addr, size) + {Region(addr[d], size[d])}
    ensures Infos(Insert(l, k, d), addr, size, typ) == Infos(l, addr, size, typ) + {Info(Region(addr[d], size[d]), typ[d])}
    ensures forall e :: e in Insert(l, k, d) <==> e in l || e == d
    ensures |Insert(l, k, d)| == |l| + 1
  {
    InsertElems(l, k, d);
    hide Insert;
    InsertIndex(l, k, d);
  }

  lemma InsertElems(l: seq<Desc>, k: nat, d: Desc)
    requires k <= |l|
    ensures forall e :: e in Insert(l, k, d) <==> e in l || e == d
  {
    var w := Insert(l, k, d);
    hide Insert;
    InsertIndex(l, k, d);
    forall e | e in l ensures e in w {
      var i :| 0 <= i < |l| && l[i] == e;
      assert w[if i < k then i else i + 1] == e;
    }
    forall e | e in w ensures e in l || e == d {
      var i :| 0 <= i < |w| && w[i] == e;
      if i != k { assert e == l[if i < k then i else i - 1]; }
    }
    assert w[k] == d;
  }

  // ----- the skip links while a region is inserted -----

  /** The skip links while `d` is on its way into the list: the first `n` regions
      have had the chance to take it over. */
  ghost predicate Skipping(l: seq<Desc>, size: map<Desc, nat>, d: Desc, b0: map<Desc, Link>, b: map<Desc, Link>, n: nat)
    requires d in size
  {
    forall j :: 0 <= j < |l| && l[j] in b0 ==>
      l[j] in b && b[l[j]] == if j < n && TakesOver(size, b0[l[j]], size[d]) then To(d) else b0[l[j]]
  }

  lemma SkippingStart(l: seq<Desc>, size: map<Desc, nat>, d: Desc, b: map<Desc, Link>)
    requires d in size
    ensures Skipping(l, size, d, b, b, 0)
  {
  }

  lemma SkippingKnows(l: seq<Desc>, size: map<Desc, nat>, d: Desc, b0: map<Desc, Link>, b: map<Desc, Link>, n: nat)
    requires d in size && Skipping(l, size, d, b0, b, n) && forall j :: 0 <= j < |l| ==> l[j] in b0
    ensures forall j :: 0 <= j < |l| ==> l[j] in b
    ensures forall j :: n <= j < |l| ==> b[l[j]] == b0[l[j]]
  {
  }

  lemma SkippingStep(l: seq<Desc>, size: map<Desc, nat>, d: Desc, b0: map<Desc, Link>, b: map<Desc, Link>, n: nat)
    requires d in size && n < |l| && NoDup(l) && Skipping(l, size, d, b0, b, n) && l[n] in b0 && l[n] in b
    ensures Skipping(l, size, d, b0, if TakesOver(size, b[l[n]], size[d]) then b[l[n] := To(d)] else b, n + 1)
  {
  }

  lemma InsertedFrom(l: seq<Desc>, size: map<Desc, nat>, d: Desc, b0: map<Desc, Link>, b: map<Desc, Link>, k: nat, b': map<Desc, Link>)
    requires Known(l, size) && d in size && d !in l && k <= |l| && Skipping(l, size, d, b0, b, k)
    requires forall j :: 0 <= j < |l| ==> l[j] in b0 && l[j] in b
    requires b' == b[d := if k == |l| then Null else if size[l[k]] > size[d] then To(l[k]) else b[l[k]]]
    ensures InsertedSkips(l, size, k, d, b0, b')
  {
  }

  lemma FirstSkip(l: seq<Desc>, size: map<Desc, nat>, bigger: map<Desc, Link>)
    requires SizeListOk(l, size, bigger) && l != []
    ensures SkipAt(l, size, bigger, 0)
  {
    hide SkipsOk, FirstAbove;
    OneSkip(l, size, bigger, 0);
  }

  /** How the skip links of neighbours are related. */
  lemma NextSkip(l: seq<Desc>, size: map<Desc, nat>, bigger: map<Desc, Link>, p: nat)
    requires SizeListOk(l, size, bigger) && p < |l|
    ensures l[p] in bigger && (p + 1 == |l| ==> bigger[l[p]] == Null)
    ensures p + 1 < |l| ==> SkipAt(l, size, bigger, p + 1) && size[l[p]] <= size[l[p + 1]]
    ensures p + 1 < |l| && size[l[p + 1]] == size[l[p]] ==> bigger[l[p + 1]] == bigger[l[p]]
    ensures p + 1 < |l| && size[l[p + 1]] > size[l[p]] ==> bigger[l[p]] == To(l[p + 1])
  {
    hide SkipsOk;
    OneSkip(l, size, bigger, p);
    if p + 1 < |l| { OneSkip(l, size, bigger, p + 1); }
  }

  lemma SizeListFacts(l: seq<Desc>, size: map<Desc, nat>, bigger: map<Desc, Link>)
    requires SizeListOk(l, size, bigger)
    ensures NoDup(l) && Known(l, size) && Ascending(l, size) && forall i :: 0 <= i < |l| ==> l[i] in bigger
  {
  }

  // ----- merging -----

  /** Merged with a neighbour, a region stays clear of the other free ones. */
  lemma MergeClear(free: set<Region>, p: Region, r: Region)
    requires AllSeparate(free) && p in free && Clear(r, free) && r.size > 0 && p.size > 0
    ensures End(p) == r.addr ==> Clear(Region(p.addr, p.size + r.size), free - {p})
    ensures p.addr == End(r) ==> Clear(Region(r.addr, r.size + p.size), free - {p})
  {
    forall f | f in free && f != p
      ensures Apart(r, f) && Separate(p, f)
    {
    }
  }

  lemma AloneSeparate(free: set<Region>, r: Region)
    requires Clear(r, free) && NoneEndsAt(free, r.addr) && NoneStartsAt(free, End(r))
    ensures forall f :: f in free ==> Separate(f, r)
  {
    forall f | f in free ensures Separate(f, r) { assert Apart(r, f); }
  }

  /** Taking `d` out of both free lists. */
  lemma TakenOut(byAddr: seq<Desc>, bySize: seq<Desc>, addr: map<Desc, nat>, size: map<Desc, nat>, bigger: map<Desc, Link>, d: Desc,
                 byAddr': seq<Desc>, bySize': seq<Desc>, bigger': map<Desc, Link>)
    requires FreeOk(byAddr, bySize, addr, size, bigger) && d in byAddr && byAddr' == Without(byAddr, IndexOf(byAddr, d))
    requires SizeListOk(bySize', size, bigger') && SameElems(byAddr', bySize')
    ensures FreeOk(byAddr', bySize', addr, size, bigger') && |byAddr'| == |byAddr| - 1
    ensures Regions(byAddr', addr, size) == Regions(byAddr, addr, size) - {Region(addr[d], size[d])}
    ensures Region(addr[d], size[d]) in Regions(byAddr, addr, size)
    ensures forall e :: e in byAddr' <==> e in byAddr && e != d
  {
    hide SizeListOk;
    WithoutFree(byAddr, addr, size, IndexOf(byAddr, d));
  }

  lemma FreeFacts(byAddr: seq<Desc>, bySize: seq<Desc>, addr: map<Desc, nat>, size: map<Desc, nat>, bigger: map<Desc, Link>)
    requires FreeOk(byAddr, bySize, addr, size, bigger)
    ensures SizeListOk(bySize, size, bigger) && SameElems(byAddr, bySize) && NoDup(byAddr)
    ensures forall d :: d in byAddr ==> d in addr && d in size && size[d] > 0
    ensures AllSeparate(Regions(byAddr, addr, size))
    ensures forall d :: d in byAddr ==> Region(addr[d], size[d]) in Regions(byAddr, addr, size)
    ensures forall r :: r in Regions(byAddr, addr, size) ==> r.size > 0
  {
    hide SizeListOk;
    SortedSeparate(byAddr, addr, size);
  }

  /** The place of `d` by address: between the last region not above it and the next. */
  lemma PlaceByAddr(l: seq<Desc>, addr: map<Desc, nat>, size: map<Desc, nat>, k: nat, d: Desc)
    requires Described(l, addr, size) && FreeSorted(l, addr, size) && k <= |l| && d in addr && d in size && size[d] > 0
    requires forall i :: 0 <= i < |l| ==> Separate(Region(addr[l[i]], size[l[i]]), Region(addr[d], size[d]))
    requires k > 0 ==> addr[l[k - 1]] <= addr[d]
    requires k < |l| ==> addr[l[k]] > addr[d]
    ensures forall i :: 0 <= i < k ==> addr[l[i]] + size[l[i]] < addr[d]
    ensures forall i :: k <= i < |l| ==> addr[d] + size[d] < addr[l[i]]
  {
    forall i | 0 <= i < |l| ensures if i < k then addr[l[i]] <= addr[d] else addr[l[i]] > addr[d] {
      if i < k - 1 { assert addr[l[i]] + size[l[i]] < addr[l[k - 1]]; }
      if i > k { assert addr[l[k]] + size[l[k]] < addr[l[i]]; }
    }
  }

  lemma UsedFacts(l: seq<Desc>, addr: map<Desc, nat>, size: map<Desc, nat>, typ: map<Desc, string>)
    requires UsedOk(l, addr, size, typ)
    ensures forall d :: d in l ==> d in addr && d in size && d in typ && size[d] > 0
    ensures forall i, j :: 0 <= i <= j < |l| ==> addr[l[i]] <= addr[l[j]]
    ensures forall d :: d in l ==> Region(addr[d], size[d]) in Regions(l, addr, size)
  {
  }

  /** A new region does not start where a used one does. */
  lemma UsedPlace(l: seq<Desc>, addr: map<Desc, nat>, size: map<Desc, nat>, typ: map<Desc, string>, i: nat, d: Desc)
    requires UsedOk(l, addr, size, typ) && i < |l| && d in addr && d in size && size[d] > 0
    requires forall q :: q in Regions(l, addr, size) ==> Apart(q, Region(addr[d], size[d]))
    ensures addr[l[i]] != addr[d]
  {
    UsedFacts(l, addr, size, typ);
    assert Apart(Region(addr[l[i]], size[l[i]]), Region(addr[d], size[d]));
  }

  lemma PlaceUsed(l: seq<Desc>, addr: map<Desc, nat>, size: map<Desc, nat>, typ: map<Desc, string>, k: nat, d: Desc)
    requires UsedOk(l, addr, size, typ) && k <= |l| && d in addr && d in size && size[d] > 0
    requires forall q :: q in Regions(l, addr, size) ==> Apart(q, Region(addr[d], size[d]))
    requires k > 0 ==> addr[l[k - 1]] <= addr[d]
    requires k < |l| ==> addr[l[k]] > addr[d]
    ensures forall i :: 0 <= i < k ==> addr[l[i]] + size[l[i]] <= addr[d]
    ensures forall i :: k <= i < |l| ==> addr[d] + size[d] <= addr[l[i]]
  {
    UsedFacts(l, addr, size, typ);
    hide UsedOk, Regions;
    forall i | 0 <= i < |l| ensures Apart(Region(addr[l[i]], size[l[i]]), Region(addr[d], size[d])) { assert l[i] in l; }
  }

  lemma FirstOut(l: seq<Desc>, k: nat)
    requires k < |l| && k == 0
    ensures l[1..] == Without(l, k)
  {
  }

  lemma MiddleOut(l: seq<Desc>, k: nat)
    requires 0 < k < |l|
    ensures l[..k] + l[k + 1..] == Without(l, k)
  {
  }
}
