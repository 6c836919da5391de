/** How the blocks handed out change when a cache or a region does. */
module SlabBlocks {
  import opened SlabState
  import opened SlabSteps

  /** Some object of the cache is in use. */
  ghost predicate InUse(t: SlabType, c: Cache) {
    TypeOk(t) && c.nFree < Capacity(t)
  }

  ghost predicate Busy(types: seq<SlabType>, slabs: seq<seq<Cache>>) {
    forall i, j :: 0 <= i < |slabs| && i < |types| && 0 <= j < |slabs[i]| ==> InUse(types[i], slabs[i][j])
  }

  lemma StateParts(types: seq<SlabType>, slabs: seq<seq<Cache>>, regions: seq<Reg>, freeDescs: seq<nat>, home: nat, held: map<nat, Page>, roles: map<nat, Role>)
    requires StateOk(types, slabs, regions, freeDescs, home, held, roles)
    ensures TypesOk(types) && |slabs| == |types| && CachesOk(types, slabs, held, roles) && RegionsOk(regions, held, roles)
    ensures HeldApart(held) && Housed(home, regions, held, roles) && home in held && held[home] == Page(PAGE_SIZE, home) && home !in roles
    ensures UnusedOk(freeDescs, roles) && Recorded(home, types, slabs, regions, held)
  {
    hide CacheOk;
  }

  lemma StateFirst(types: seq<SlabType>, slabs: seq<seq<Cache>>, regions: seq<Reg>, freeDescs: seq<nat>, home: nat, held: map<nat, Page>, roles: map<nat, Role>)
    requires StateOk(types, slabs, regions, freeDescs, home, held, roles)
    ensures TypesOk(types) && |slabs| == |types|
  {
  }

  lemma TypeAt(types: seq<SlabType>, i: nat)
    requires TypesOk(types) && i < |types|
    ensures TypeOk(types[i])
  {
  }

  lemma PageOutside(types: seq<SlabType>, slabs: seq<seq<Cache>>, regions: seq<Reg>, held: map<nat, Page>, roles: map<nat, Role>, p: nat, size: nat)
    requires TypesOk(types) && CachesOk(types, slabs, held, roles) && RegionsOk(regions, held, roles) && Fresh(held, p, size)
    ensures |slabs| == |types| && forall a: nat, n: nat :: Live(types, slabs, regions, a, n) ==> Apart(a, n, p, size)
  {
    hide Live, Fresh, RegionsOk, CacheOk;
    forall a: nat, n: nat | Live(types, slabs, regions, a, n) ensures Apart(a, n, p, size) {
      FreshOutside(types, slabs, regions, held, roles, p, size, a, n);
    }
  }

  lemma DescsFirst(p: nat)
    ensures Descs(p, DESCS_PER_PAGE) != [] && Descs(p, DESCS_PER_PAGE)[0] == LastDesc(p) && Descs(p, DESCS_PER_PAGE)[1..] == Descs(p, DESCS_PER_PAGE - 1)
    ensures Descs(p, DESCS_PER_PAGE - 1) != []
  {
    DescsAre(p, DESCS_PER_PAGE - 1);
  }

  lemma FreshIsNew(held: map<nat, Page>, p: nat, n: nat)
    requires Fresh(held, p, n)
    ensures p !in held && p > 0 && n > 0
  {
  }

  /** Recording a page of descriptors hands out nothing. */
  lemma HoldsNothing(types: seq<SlabType>, slabs: seq<seq<Cache>>, regions: seq<Reg>, r: Reg)
    requires TypesOk(types) && |slabs| == |types| && r.holds
    ensures SameBlocks(types, slabs, regions, slabs, [r] + regions)
  {
    forall a: nat, n: nat ensures Live(types, slabs, [r] + regions, a, n) <==> Live(types, slabs, regions, a, n) {
      RegionAdded(regions, r, a, n);
    }
  }

  /** There is room for one more object exactly when there are fewer than the capacity. */
  lemma RoomFor(t: SlabType, addr: nat, k: nat)
    requires TypeOk(t) && ObjectAt(t, addr, k) + t.objSize <= addr + CacheSize(t)
    ensures k < Capacity(t)
  {
    Quotient(CacheSize(t), t.objSize);
    assert (k + 1) * t.objSize == k * t.objSize + t.objSize;
    NextMultiple(Capacity(t), k + 1, t.objSize);
  }

  lemma FullCache(t: SlabType, c: Cache)
    requires TypeOk(t) && c.free == Objects(t, c.addr, Capacity(t)) && c.nFree == Capacity(t)
    ensures CacheOk(t, c) && c.free != [] && forall a, n :: !LiveIn(t, c, a, n)
  {
    ObjectsAre(t, c.addr, Capacity(t));
    AtLeastOne(t);
    hide Objects;
  }

  /** A cache without an object in use hands out nothing. */
  lemma FreeCacheBlocks(types: seq<SlabType>, slabs: seq<seq<Cache>>, regions: seq<Reg>, i: nat, c: Cache)
    requires TypesOk(types) && |slabs| == |types| && i < |slabs| && forall a, n :: !LiveIn(types[i], c, a, n)
    ensures SameBlocks(types, slabs, regions, slabs[i := [c] + slabs[i]], regions)
  {
    hide LiveIn;
    forall a: nat, n: nat ensures Live(types, slabs[i := [c] + slabs[i]], regions, a, n) <==> Live(types, slabs, regions, a, n) {
      CacheAdded(types, slabs, i, c, a, n);
    }
  }

  /** The same blocks are handed out, with the same contents. */
  ghost predicate Undisturbed(types: seq<SlabType>, slabs: seq<seq<Cache>>, regions: seq<Reg>, mem: nat -> int,
                              slabs': seq<seq<Cache>>, regions': seq<Reg>, mem': nat -> int)
    requires TypesOk(types) && |slabs| == |types| == |slabs'|
  {
    SameBlocks(types, slabs, regions, slabs', regions') && KeepsBlocks(types, slabs, regions, mem, mem')
  }

  lemma UndisturbedTwice(types: seq<SlabType>, slabs: seq<seq<Cache>>, regions: seq<Reg>, mem: nat -> int,
                         slabs1: seq<seq<Cache>>, regions1: seq<Reg>, mem1: nat -> int, slabs2: seq<seq<Cache>>, regions2: seq<Reg>, mem2: nat -> int)
    requires TypesOk(types) && |slabs| == |types| == |slabs1| == |slabs2|
    requires Undisturbed(types, slabs, regions, mem, slabs1, regions1, mem1) && Undisturbed(types, slabs1, regions1, mem1, slabs2, regions2, mem2)
    ensures Undisturbed(types, slabs, regions, mem, slabs2, regions2, mem2)
  {
    hide Live;
  }

  lemma NothingHappened(types: seq<SlabType>, slabs: seq<seq<Cache>>, regions: seq<Reg>, mem: nat -> int)
    requires TypesOk(types) && |slabs| == |types|
    ensures Undisturbed(types, slabs, regions, mem, slabs, regions, mem)
  {
  }

  /** Every cache but one is known to have an object in use. */
  ghost predicate BusyBut(types: seq<SlabType>, slabs: seq<seq<Cache>>, i: nat, j: nat) {
    forall k, l :: 0 <= k < |slabs| && k < |types| && 0 <= l < |slabs[k]| && (k != i || l != j) ==> InUse(types[k], slabs[k][l])
  }

  lemma TakenCache(t: SlabType, c: Cache)
    requires TypeOk(t) && CacheOk(t, c) && c.free != []
    ensures CacheOk(t, c.(free := c.free[1..], nFree := c.nFree - 1)) && InUse(t, c.(free := c.free[1..], nFree := c.nFree - 1))
  {
    FirstOut(c.free);
  }

  lemma TakenLive(t: SlabType, c: Cache, a: nat, n: nat)
    requires TypeOk(t) && CacheOk(t, c) && c.free != []
    ensures LiveIn(t, c.(free := c.free[1..], nFree := c.nFree - 1), a, n) <==> LiveIn(t, c, a, n) || (a == c.free[0] && n == t.objSize)
  {
    FirstOut(c.free);
    assert c.free[0] in c.free;
  }

  lemma FirstOut(l: seq<nat>)
    requires l != [] && NoDup(l)
    ensures NoDup(l[1..]) && l[0] !in l[1..] && forall a: nat :: a in l <==> a == l[0] || a in l[1..]
  {
    assert l == [l[0]] + l[1..];
  }

  lemma ObjectPositive(t: SlabType, c: Cache, held: map<nat, Page>, x: nat)
    requires TypeOk(t) && CacheOk(t, c) && CacheHeld(t, c, held) && HeldApart(held) && x in c.free
    ensures x > 0
  {
    IsMultiple(t, c.addr, x);
  }

  /** No object is in two caches. */
  lemma OtherCache(types: seq<SlabType>, slabs: seq<seq<Cache>>, held: map<nat, Page>, roles: map<nat, Role>, i: nat, j: nat, k: nat, l: nat, a: nat, n: nat)
    requires TypesOk(types) && CachesOk(types, slabs, held, roles) && HeldApart(held)
    requires i < |slabs| && j < |slabs[i]| && k < |slabs| && l < |slabs[k]| && (k != i || l != j) && LiveIn(types[k], slabs[k][l], a, n)
    ensures !IsObject(types[i], slabs[i][j].addr, a)
  {
    hide CacheOk;
    var c, c2 := slabs[i][j], slabs[k][l];
    IsMultiple(types[k], c2.addr, a);
    assert c.desc != c2.desc;
    PagesApart(held, c.addr, c2.addr);
    NotBoth(types[i], c.addr, a, types[k], c2.addr);
  }

  lemma NotBoth(t: SlabType, p: nat, a: nat, u: SlabType, q: nat)
    requires TypeOk(t) && TypeOk(u) && Apart(p, CacheSize(t), q, CacheSize(u)) && q <= a && a + u.objSize <= q + CacheSize(u)
    ensures !IsObject(t, p, a)
  {
    forall k | 0 <= k < Capacity(t) ensures a != ObjectAt(t, p, k) {
      ObjectIn(t, p, k);
    }
  }

  lemma ReplacedBlocks(types: seq<SlabType>, slabs: seq<seq<Cache>>, regions: seq<Reg>, held: map<nat, Page>, roles: map<nat, Role>,
                       i: nat, j: nat, c: Cache, a: nat, n: nat)
    requires TypesOk(types) && CachesOk(types, slabs, held, roles) && HeldApart(held) && i < |slabs| && j < |slabs[i]| && c.addr == slabs[i][j].addr
    ensures |slabs| == |types|
    ensures Live(types, slabs[i := slabs[i][j := c]], regions, a, n) <==>
              InRegions(regions, a, n) || (InCaches(types, slabs, a, n) && !LiveIn(types[i], slabs[i][j], a, n)) || LiveIn(types[i], c, a, n)
  {
    hide CacheOk, HeldApart, CacheHeld, IsObject;
    forall k: nat, l: nat | k < |slabs| && l < |slabs[k]| && (k != i || l != j) && LiveIn(types[k], slabs[k][l], a, n)
      ensures !LiveIn(types[i], slabs[i][j], a, n) && !LiveIn(types[i], c, a, n)
    {
      OtherCache(types, slabs, held, roles, i, j, k, l, a, n);
    }
    hide LiveIn;
    CacheReplaced(types, slabs, i, j, c, a, n);
  }

  lemma TakenBlocks(types: seq<SlabType>, slabs: seq<seq<Cache>>, regions: seq<Reg>, freeDescs: seq<nat>, home: nat, held: map<nat, Page>, roles: map<nat, Role>,
                    i: nat, j: nat, c: Cache)
    requires StateOk(types, slabs, regions, freeDescs, home, held, roles) && i < |slabs| && j < |slabs[i]| && i < |types| && |slabs| == |types|
    requires slabs[i][j].free != [] && c == slabs[i][j].(free := slabs[i][j].free[1..], nFree := slabs[i][j].nFree - 1)
    requires BusyBut(types, slabs, i, j)
    ensures AddsBlock(types, slabs, regions, slabs[i := slabs[i][j := c]], regions, slabs[i][j].free[0], types[i].objSize)
    ensures Busy(types, slabs[i := slabs[i][j := c]])
  {
    hide StateOk, LiveIn, CacheOk, CachesOk, HeldApart, RegionsOk, Housed, UnusedOk, Recorded, Live, Busy, BusyBut;
    var x, size := slabs[i][j].free[0], types[i].objSize;
    var ss: seq<seq<Cache>> := slabs[i := slabs[i][j := c]];
    StateParts(types, slabs, regions, freeDescs, home, held, roles);
    CacheFacts(types, slabs, held, roles, i, j);
    TakenCache(types[i], slabs[i][j]);
    NotYetLive(types, slabs, regions, held, roles, i, j, x);
    ReplaceCache(types, slabs, regions, freeDescs, home, held, roles, i, j, c);
    BusyAgain(types, slabs, i, j, c);
    forall a: nat, n: nat
      ensures Live(types, ss, regions, a, n) <==> Live(types, slabs, regions, a, n) || (a == x && n == size)
      ensures Live(types, slabs, regions, a, n) ==> Apart(a, n, x, size)
    {
      TakenLive(types[i], slabs[i][j], a, n);
      TakenLive(types[i], slabs[i][j], x, size);
      TakenOne(types, slabs, regions, freeDescs, home, held, roles, i, j, c, a, n);
    }
  }

  lemma BusyAgain(types: seq<SlabType>, slabs: seq<seq<Cache>>, i: nat, j: nat, c: Cache)
    requires BusyBut(types, slabs, i, j) && i < |types| && i < |slabs| && j < |slabs[i]| && InUse(types[i], c)
    ensures Busy(types, slabs[i := slabs[i][j := c]])
  {
    hide InUse;
    var ss: seq<seq<Cache>> := slabs[i := slabs[i][j := c]];
    forall k, l | 0 <= k < |ss| && k < |types| && 0 <= l < |ss[k]| ensures InUse(types[k], ss[k][l]) {
      if k != i || l != j { assert ss[k][l] == slabs[k][l]; }
    }
  }

  lemma TakenOne(types: seq<SlabType>, slabs: seq<seq<Cache>>, regions: seq<Reg>, freeDescs: seq<nat>, home: nat, held: map<nat, Page>, roles: map<nat, Role>,
                 i: nat, j: nat, c: Cache, a: nat, n: nat)
    requires StateOk(types, slabs, regions, freeDescs, home, held, roles) && i < |slabs| && j < |slabs[i]| && |slabs| == |types|
    requires slabs[i][j].free != [] && c.addr == slabs[i][j].addr
    requires LiveIn(types[i], c, a, n) <==> LiveIn(types[i], slabs[i][j], a, n) || (a == slabs[i][j].free[0] && n == types[i].objSize)
    requires LiveIn(types[i], c, slabs[i][j].free[0], types[i].objSize)
    requires StateOk(types, slabs[i := slabs[i][j := c]], regions, freeDescs, home, held, roles)
    requires !Live(types, slabs, regions, slabs[i][j].free[0], types[i].objSize)
    ensures Live(types, slabs[i := slabs[i][j := c]], regions, a, n) <==>
              Live(types, slabs, regions, a, n) || (a == slabs[i][j].free[0] && n == types[i].objSize)
    ensures Live(types, slabs, regions, a, n) ==> Apart(a, n, slabs[i][j].free[0], types[i].objSize)
  {
    hide StateOk, LiveIn, CacheOk, CachesOk, HeldApart, RegionsOk;
    var x, size := slabs[i][j].free[0], types[i].objSize;
    var ss: seq<seq<Cache>> := slabs[i := slabs[i][j := c]];
    StateParts(types, slabs, regions, freeDescs, home, held, roles);
    StateParts(types, ss, regions, freeDescs, home, held, roles);
    ReplacedBlocks(types, slabs, regions, held, roles, i, j, c, a, n);
    ReplacedBlocks(types, slabs, regions, held, roles, i, j, c, x, size);
    if LiveIn(types[i], slabs[i][j], a, n) { assert InCaches(types, slabs, a, n); }
    if Live(types, slabs, regions, a, n) { LiveApart(types, ss, regions, held, roles, a, n, x, size); }
  }

  /** A free object is not handed out. */
  lemma NotYetLive(types: seq<SlabType>, slabs: seq<seq<Cache>>, regions: seq<Reg>, held: map<nat, Page>, roles: map<nat, Role>, i: nat, j: nat, x: nat)
    requires TypesOk(types) && CachesOk(types, slabs, held, roles) && RegionsOk(regions, held, roles) && HeldApart(held)
    requires i < |slabs| && j < |slabs[i]| && x in slabs[i][j].free
    ensures |slabs| == |types| && forall n: nat :: !Live(types, slabs, regions, x, n)
  {
    var c := slabs[i][j];
    IsMultiple(types[i], c.addr, x);
    forall k: nat, l: nat, n: nat | k < |slabs| && l < |slabs[k]| ensures !LiveIn(types[k], slabs[k][l], x, n) {
      if LiveIn(types[k], slabs[k][l], x, n) && (k != i || l != j) { OtherCache(types, slabs, held, roles, i, j, k, l, x, n); }
    }
    forall k: nat | k < |regions| ensures regions[k].addr != x {
      PagesApart2(held, c.addr, regions[k].addr);
    }
  }

  lemma PagesApart2(held: map<nat, Page>, p: nat, q: nat)
    requires HeldApart(held) && p in held && q in held
    ensures p != q ==> Apart(p, held[p].size, q, held[q].size) && held[q].size > 0
  {
  }

  // ----- creation -----

  /** The end of the allocator's own record and its table of lists, in the first page. */
  function SlabTable(page: nat, types: seq<SlabType>): nat {
    page + 24 + 4 * |types|
  }

  lemma StartsOk(types: seq<SlabType>, slabs: seq<seq<Cache>>, home: nat, k: nat, roles: map<nat, Role>)
    requires TypesOk(types) && home > 0 && slabs == seq(|types|, i => [])
    requires SlabTable(home, types) + DESC_SIZE * k <= home + PAGE_SIZE
    requires roles == map e | e in Elems(Descs(SlabTable(home, types), k)) :: Role(Unused, home)
    ensures StateOk(types, slabs, [], Descs(SlabTable(home, types), k), home, map[home := Page(PAGE_SIZE, home)], roles)
    ensures Busy(types, slabs) && forall a: nat, n: nat :: !Live(types, slabs, [], a, n)
  {
    var p := SlabTable(home, types);
    DescsAre(p, k);
    forall d | d in Descs(p, k) ensures home < d && d + DESC_SIZE <= home + PAGE_SIZE {
      var m :| 0 <= m < k && d == p + DESC_SIZE * m;
    }
  }

  // ----- allocation -----

  /** The size a request comes to: the first object size it fits in, or itself. */
  function SizeFrom(types: seq<SlabType>, i: nat, sz: nat): nat
    decreases |types| - i
  {
    if i >= |types| then sz else if sz <= types[i].objSize then types[i].objSize else SizeFrom(types, i + 1, sz)
  }

  function SizeFor(types: seq<SlabType>, sz: nat): nat {
    SizeFrom(types, 0, sz)
  }

  /** It is large enough, and the least object size that is. */
  lemma {:induction false} SizeFits(types: seq<SlabType>, i: nat, sz: nat)
    requires TypesOk(types) && i <= |types|
    ensures sz <= SizeFrom(types, i, sz)
    ensures forall k :: i <= k < |types| && sz <= types[k].objSize ==> SizeFrom(types, i, sz) <= types[k].objSize
    ensures SizeFrom(types, i, sz) != sz ==> exists k :: i <= k < |types| && types[k].objSize == SizeFrom(types, i, sz)
    decreases |types| - i
  {
    if i < |types| && sz > types[i].objSize { SizeFits(types, i + 1, sz); }
  }

  /** Counters equal lengths. */
  lemma FreeCounts(types: seq<SlabType>, slabs: seq<seq<Cache>>, held: map<nat, Page>, roles: map<nat, Role>, i: nat)
    requires TypesOk(types) && CachesOk(types, slabs, held, roles) && i < |slabs|
    ensures |slabs| == |types| && forall j :: 0 <= j < |slabs[i]| ==> slabs[i][j].nFree == |slabs[i][j].free|
  {
    forall j | 0 <= j < |slabs[i]| ensures slabs[i][j].nFree == |slabs[i][j].free| {
      CacheFacts(types, slabs, held, roles, i, j);
    }
  }

  lemma BusyAll(types: seq<SlabType>, slabs: seq<seq<Cache>>, i: nat, j: nat)
    requires Busy(types, slabs)
    ensures BusyBut(types, slabs, i, j)
  {
    hide InUse;
  }

  lemma BusyAdded(types: seq<SlabType>, slabs: seq<seq<Cache>>, i: nat, c: Cache)
    requires Busy(types, slabs) && i < |slabs| && i < |types|
    ensures BusyBut(types, slabs[i := [c] + slabs[i]], i, 0)
  {
    hide InUse;
    var ss: seq<seq<Cache>> := slabs[i := [c] + slabs[i]];
    forall k, l | 0 <= k < |ss| && k < |types| && 0 <= l < |ss[k]| && (k != i || l != 0) ensures InUse(types[k], ss[k][l]) {
      assert ss[k][l] == slabs[k][if k == i then l - 1 else l];
    }
  }

  lemma AddsAfter(types: seq<SlabType>, slabs: seq<seq<Cache>>, regions: seq<Reg>, slabs1: seq<seq<Cache>>, regions1: seq<Reg>,
                  slabs2: seq<seq<Cache>>, regions2: seq<Reg>, p: nat, n: nat)
    requires TypesOk(types) && |slabs| == |types| == |slabs1| == |slabs2|
    requires SameBlocks(types, slabs, regions, slabs1, regions1) && AddsBlock(types, slabs1, regions1, slabs2, regions2, p, n)
    ensures AddsBlock(types, slabs, regions, slabs2, regions2, p, n)
  {
    hide Live;
  }

  lemma WholeBlock(types: seq<SlabType>, slabs: seq<seq<Cache>>, regions: seq<Reg>, held: map<nat, Page>, roles: map<nat, Role>, r: Reg)
    requires TypesOk(types) && CachesOk(types, slabs, held, roles) && RegionsOk(regions, held, roles) && Fresh(held, r.addr, r.size) && !r.holds
    ensures |slabs| == |types| && AddsBlock(types, slabs, regions, slabs, [r] + regions, r.addr, r.size)
  {
    hide CachesOk, RegionsOk, Fresh, LiveIn;
    PageOutside(types, slabs, regions, held, roles, r.addr, r.size);
    forall a: nat, n: nat ensures Live(types, slabs, [r] + regions, a, n) <==> Live(types, slabs, regions, a, n) || (a == r.addr && n == r.size) {
      RegionAdded(regions, r, a, n);
    }
  }

  // ----- release -----

  predicate Contains(t: SlabType, c: Cache, a: nat) {
    c.addr <= a < c.addr + CacheSize(t)
  }

  function Put(c: Cache, addr: nat): Cache {
    c.(free := [addr] + c.free, nFree := c.nFree + 1)
  }

  /** The object put back was the only one in use. */
  ghost predicate LastOne(t: SlabType, c: Cache, addr: nat)
    requires TypeOk(t)
  {
    forall x, n :: LiveIn(t, c, x, n) ==> x == addr
  }

  lemma {:induction false} DistinctCount(l: seq<nat>)
    requires NoDup(l)
    ensures |Elems(l)| == |l|
  {
    if l != [] {
      DistinctCount(l[1..]);
      assert l == [l[0]] + l[1..];
      assert Elems(l) == {l[0]} + Elems(l[1..]);
    }
  }

  lemma SubsetCount(s: set<nat>, t: set<nat>)
    requires s <= t
    ensures |s| <= |t| && (|s| == |t| ==> s == t)
  {
    if s != t { assert |t - s| == |t| - |s|; assert t - s != {}; }
  }

  /** No more objects than the capacity; that many are all of them. */
  lemma ObjectsFit(t: SlabType, addr: nat, l: seq<nat>)
    requires TypeOk(t) && NoDup(l) && forall x :: x in l ==> IsObject(t, addr, x)
    ensures |l| <= Capacity(t) && (|l| == Capacity(t) ==> forall x :: IsObject(t, addr, x) ==> x in l)
  {
    var all := Objects(t, addr, Capacity(t));
    ObjectsAre(t, addr, Capacity(t));
    DistinctCount(l);
    DistinctCount(all);
    forall x | x in Elems(l) ensures x in Elems(all) { assert IsObject(t, addr, x); }
    SubsetCount(Elems(l), Elems(all));
    if |l| == Capacity(t) {
      forall x | IsObject(t, addr, x) ensures x in l { assert x in all; assert x in Elems(all); }
    }
  }

  ghost function UsedIn(t: SlabType, c: Cache): set<nat>
    requires TypeOk(t)
  {
    set x | x in Objects(t, c.addr, Capacity(t)) && x !in c.free
  }

  /** The count of free objects is the capacity minus the objects handed out. */
  lemma Counted(t: SlabType, c: Cache)
    requires TypeOk(t) && CacheOk(t, c)
    ensures c.nFree == Capacity(t) - |UsedIn(t, c)|
    ensures forall a, n :: LiveIn(t, c, a, n) <==> a in UsedIn(t, c) && n == t.objSize
  {
    var all := Objects(t, c.addr, Capacity(t));
    ObjectsAre(t, c.addr, Capacity(t));
    DistinctCount(c.free);
    DistinctCount(all);
    forall x | x in Elems(c.free) ensures x in Elems(all) { assert IsObject(t, c.addr, x); }
    assert UsedIn(t, c) == Elems(all) - Elems(c.free);
    assert |Elems(all) - Elems(c.free)| == |Elems(all)| - |Elems(c.free)|;
  }

  lemma PutCache(t: SlabType, c: Cache, addr: nat, n: nat)
    requires TypeOk(t) && CacheOk(t, c) && LiveIn(t, c, addr, n)
    ensures CacheOk(t, Put(c, addr))
    ensures n == t.objSize && addr >= c.addr && n >= 4
  {
    hide IsObject;
    forall i | 0 <= i < |c.free| ensures c.free[i] != addr { assert c.free[i] in c.free; }
    ObjectsFit(t, c.addr, [addr] + c.free);
    IsMultiple(t, c.addr, addr);
  }

  lemma PutLive(t: SlabType, c: Cache, addr: nat, a: nat, n: nat)
    requires TypeOk(t)
    ensures LiveIn(t, Put(c, addr), a, n) <==> LiveIn(t, c, a, n) && a != addr
  {
  }

  /** No region starts at an object of a cache. */
  lemma RegionNotObject(types: seq<SlabType>, slabs: seq<seq<Cache>>, regions: seq<Reg>, held: map<nat, Page>, roles: map<nat, Role>, i: nat, j: nat, x: nat, n: nat)
    requires TypesOk(types) && CachesOk(types, slabs, held, roles) && RegionsOk(regions, held, roles) && HeldApart(held)
    requires i < |slabs| && j < |slabs[i]| && LiveIn(types[i], slabs[i][j], x, n)
    ensures !InRegions(regions, x, n)
  {
    var c := slabs[i][j];
    IsMultiple(types[i], c.addr, x);
    forall k: nat | k < |regions| ensures regions[k].addr != x {
      PagesApart2(held, c.addr, regions[k].addr);
    }
  }

  lemma FreedBlocks(types: seq<SlabType>, slabs: seq<seq<Cache>>, regions: seq<Reg>, held: map<nat, Page>, roles: map<nat, Role>, i: nat, j: nat, addr: nat, n: nat)
    requires TypesOk(types) && CachesOk(types, slabs, held, roles) && RegionsOk(regions, held, roles) && HeldApart(held)
    requires i < |slabs| && j < |slabs[i]| && LiveIn(types[i], slabs[i][j], addr, n)
    ensures |slabs| == |types| && DropsBlock(types, slabs, regions, slabs[i := slabs[i][j := Put(slabs[i][j], addr)]], regions, addr, n)
  {
    hide LiveIn, CacheOk, CachesOk, RegionsOk, HeldApart;
    SlabCount(types, slabs, held, roles);
    var c := slabs[i][j];
    var ss: seq<seq<Cache>> := slabs[i := slabs[i][j := Put(c, addr)]];
    RegionNotObject(types, slabs, regions, held, roles, i, j, addr, n);
    forall a: nat, m: nat ensures Live(types, ss, regions, a, m) <==> Live(types, slabs, regions, a, m) && !(a == addr && m == n) {
      ReplacedBlocks(types, slabs, regions, held, roles, i, j, Put(c, addr), a, m);
      PutLive(types[i], c, addr, a, m);
      SizeIs(types[i], c, a, m, addr, n);
      if LiveIn(types[i], c, a, m) { assert InCaches(types, slabs, a, m); }
    }
  }

  lemma SizeIs(t: SlabType, c: Cache, a: nat, m: nat, b: nat, n: nat)
    requires TypeOk(t)
    ensures LiveIn(t, c, a, m) && LiveIn(t, c, b, n) ==> m == n
  {
  }

  /** What is left lies apart from the block freed. */
  lemma FreedOutside(types: seq<SlabType>, slabs: seq<seq<Cache>>, slabs': seq<seq<Cache>>, regions: seq<Reg>, held: map<nat, Page>, roles: map<nat, Role>,
                     i: nat, j: nat, addr: nat, n: nat)
    requires TypesOk(types) && CachesOk(types, slabs, held, roles) && RegionsOk(regions, held, roles) && HeldApart(held)
    requires i < |slabs| && j < |slabs[i]| && LiveIn(types[i], slabs[i][j], addr, n)
    requires |slabs| == |types| == |slabs'| && DropsBlock(types, slabs, regions, slabs', regions, addr, n)
    ensures forall a: nat, m: nat :: Live(types, slabs', regions, a, m) ==> Apart(a, m, addr, n)
  {
    assert Live(types, slabs, regions, addr, n);
    hide CachesOk, RegionsOk, HeldApart, Live, LiveIn;
    forall a: nat, m: nat | Live(types, slabs', regions, a, m) ensures Apart(a, m, addr, n) {
      LiveApart(types, slabs, regions, held, roles, a, m, addr, n);
    }
  }

  lemma WithinKeeps(types: seq<SlabType>, slabs: seq<seq<Cache>>, regions: seq<Reg>, mem: nat -> int, mem': nat -> int, p: nat, size: nat)
    requires TypesOk(types) && |slabs| == |types| && size >= 4
    requires forall a: nat, n: nat :: Live(types, slabs, regions, a, n) ==> Apart(a, n, p, size)
    requires forall x: nat :: !(p <= x < p + 4) ==> mem'(x) == mem(x)
    ensures KeepsBlocks(types, slabs, regions, mem, mem')
  {
    OutsideKeeps(types, slabs, regions, mem, mem', p, size);
  }

  lemma AllFree(t: SlabType, c: Cache)
    requires TypeOk(t) && CacheOk(t, c) && c.nFree == Capacity(t)
    ensures forall a, n :: !LiveIn(t, c, a, n)
  {
    ObjectsFit(t, c.addr, c.free);
    hide IsObject;
  }

  lemma DropBlocks(types: seq<SlabType>, slabs: seq<seq<Cache>>, regions: seq<Reg>, mem: nat -> int, i: nat, j: nat)
    requires TypesOk(types) && |slabs| == |types| && i < |slabs| && j < |slabs[i]| && CacheOk(types[i], slabs[i][j]) && slabs[i][j].nFree == Capacity(types[i])
    ensures Undisturbed(types, slabs, regions, mem, slabs[i := RemoveAt(slabs[i], j)], regions, mem)
  {
    AllFree(types[i], slabs[i][j]);
    hide LiveIn, CacheOk, RemoveAt;
    forall a: nat, n: nat ensures Live(types, slabs[i := RemoveAt(slabs[i], j)], regions, a, n) <==> Live(types, slabs, regions, a, n) {
      CacheRemoved(types, slabs, i, j, a, n);
    }
  }

  lemma NowUnused(roles: map<nat, Role>, d: nat)
    requires d in roles
    ensures d in WithKind(roles, d, Unused) && WithKind(roles, d, Unused)[d].kind == Unused
  {
  }

  /** The last object in use is put back exactly when the cache becomes full. */
  lemma LastObject(types: seq<SlabType>, slabs: seq<seq<Cache>>, held: map<nat, Page>, roles: map<nat, Role>, freeDescs: seq<nat>, home: nat, regions: seq<Reg>,
                   i: nat, j: nat, addr: nat, n: nat)
    requires StateOk(types, slabs, regions, freeDescs, home, held, roles) && |slabs| == |types| && i < |slabs| && j < |slabs[i]| && TypeOk(types[i])
    requires LiveIn(types[i], slabs[i][j], addr, n)
    ensures LastOne(types[i], slabs[i][j], addr) <==> slabs[i][j].nFree + 1 == CacheSize(types[i]) / types[i].objSize
  {
    hide StateOk, CacheOk, CachesOk, RegionsOk, HeldApart, Housed, UnusedOk, Recorded, IsObject, LiveIn;
    StateParts(types, slabs, regions, freeDescs, home, held, roles);
    CacheFacts(types, slabs, held, roles, i, j);
    LastInCache(types[i], slabs[i][j], addr, n);
  }

  lemma LastInCache(t: SlabType, c: Cache, addr: nat, n: nat)
    requires TypeOk(t) && CacheOk(t, c) && LiveIn(t, c, addr, n)
    ensures LastOne(t, c, addr) <==> c.nFree + 1 == Capacity(t)
  {
    PutCache(t, c, addr, n);
    if c.nFree + 1 == Capacity(t) {
      AllFree(t, Put(c, addr));
      forall x, m | LiveIn(t, c, x, m) ensures x == addr { PutLive(t, c, addr, x, m); }
    } else {
      var all := Objects(t, c.addr, Capacity(t));
      ObjectsAre(t, c.addr, Capacity(t));
      SomeMissing(all, Put(c, addr).free);
      var x :| x in all && x !in Put(c, addr).free;
      assert IsObject(t, c.addr, x) && LiveIn(t, c, x, t.objSize) && x != addr;
    }
  }

  lemma SomeMissing(all: seq<nat>, l: seq<nat>)
    requires NoDup(all) && |l| < |all| && NoDup(l)
    ensures exists x :: x in all && x !in l
  {
    DistinctCount(all);
    DistinctCount(l);
    if forall x :: x in all ==> x in l {
      assert Elems(all) <= Elems(l);
      SubsetCount(Elems(all), Elems(l));
    }
  }

  /** A cache with fewer free objects than its capacity is in use. */
  lemma StillUsed(types: seq<SlabType>, slabs: seq<seq<Cache>>, held: map<nat, Page>, roles: map<nat, Role>, freeDescs: seq<nat>, home: nat, regions: seq<Reg>, i: nat, j: nat)
    requires StateOk(types, slabs, regions, freeDescs, home, held, roles) && i < |slabs| && i < |types| && j < |slabs[i]| && TypeOk(types[i])
    requires slabs[i][j].nFree != CacheSize(types[i]) / types[i].objSize
    ensures InUse(types[i], slabs[i][j])
  {
    hide StateOk, CachesOk, RegionsOk, HeldApart, Housed, UnusedOk, Recorded, IsObject;
    StateParts(types, slabs, regions, freeDescs, home, held, roles);
    CacheFacts(types, slabs, held, roles, i, j);
  }

  lemma BusyDropped(types: seq<SlabType>, slabs: seq<seq<Cache>>, i: nat, j: nat, c: Cache)
    requires BusyBut(types, slabs, i, j) && i < |slabs| && i < |types| && j < |slabs[i]|
    ensures var ss: seq<seq<Cache>> := slabs[i := slabs[i][j := c]]; Busy(types, ss[i := RemoveAt(ss[i], j)])
  {
    hide InUse, RemoveAt;
    var l1 := slabs[i][j := c];
    RemovedIndex(l1, j);
    var ss: seq<seq<Cache>> := slabs[i := l1];
    var s2: seq<seq<Cache>> := ss[i := RemoveAt(ss[i], j)];
    forall k, l | 0 <= k < |s2| && k < |types| && 0 <= l < |s2[k]| ensures InUse(types[k], s2[k][l]) {
      assert s2[k][l] == slabs[k][if k == i && l >= j then l + 1 else l];
    }
  }

  lemma DropsThen(types: seq<SlabType>, slabs: seq<seq<Cache>>, regions: seq<Reg>, mem: nat -> int, slabs1: seq<seq<Cache>>, mem1: nat -> int,
                  slabs2: seq<seq<Cache>>, regions2: seq<Reg>, mem2: nat -> int, addr: nat, n: nat)
    requires TypesOk(types) && |slabs| == |types| == |slabs1| == |slabs2|
    requires DropsBlock(types, slabs, regions, slabs1, regions, addr, n) && KeepsBlocks(types, slabs1, regions, mem, mem1)
    requires Undisturbed(types, slabs1, regions, mem1, slabs2, regions2, mem2)
    ensures DropsBlock(types, slabs, regions, slabs2, regions2, addr, n) && KeepsBlocks(types, slabs2, regions2, mem, mem2)
  {
    hide Live;
  }

  /** A block in no cache is a region. */
  lemma InNoCache(types: seq<SlabType>, slabs: seq<seq<Cache>>, regions: seq<Reg>, addr: nat, n: nat)
    requires TypesOk(types) && |slabs| == |types| && Live(types, slabs, regions, addr, n)
    requires forall k, l :: 0 <= k < |slabs| && 0 <= l < |slabs[k]| ==> !Contains(types[k], slabs[k][l], addr)
    ensures InRegions(regions, addr, n) && exists k :: 0 <= k < |regions| && regions[k].addr == addr
    ensures forall m: nat :: !InCaches(types, slabs, addr, m)
  {
    forall m: nat, k: nat, l: nat | k < |slabs| && l < |slabs[k]| ensures !LiveIn(types[k], slabs[k][l], addr, m) {
      if LiveIn(types[k], slabs[k][l], addr, m) { IsMultiple(types[k], slabs[k][l].addr, addr); }
    }
  }

  /** The region that starts at a block handed out whole is that block. */
  lemma WholeFreed(types: seq<SlabType>, slabs: seq<seq<Cache>>, regions: seq<Reg>, held: map<nat, Page>, roles: map<nat, Role>, k: nat, addr: nat, n: nat)
    requires TypesOk(types) && |slabs| == |types| && RegionsOk(regions, held, roles) && InRegions(regions, addr, n) && k < |regions| && regions[k].addr == addr
    requires forall m: nat :: !InCaches(types, slabs, addr, m)
    ensures !regions[k].holds && regions[k].size == n && addr in held
    ensures DropsBlock(types, slabs, regions, slabs, RemoveAt(regions, k), addr, n)
  {
    hide RemoveAt, LiveIn;
    var i :| 0 <= i < |regions| && !regions[i].holds && regions[i].addr == addr && regions[i].size == n;
    assert i == k;
    forall a: nat, m: nat ensures Live(types, slabs, RemoveAt(regions, k), a, m) <==> Live(types, slabs, regions, a, m) && !(a == addr && m == n) {
      RegionRemoved(regions, k, a, m);
      assert Live(types, slabs, regions, a, m) <==> InCaches(types, slabs, a, m) || InRegions(regions, a, m);
    }
  }

  lemma UndisturbedKeeps(types: seq<SlabType>, slabs: seq<seq<Cache>>, regions: seq<Reg>, mem: nat -> int, mem': nat -> int)
    requires TypesOk(types) && |slabs| == |types| && Undisturbed(types, slabs, regions, mem, slabs, regions, mem')
    ensures KeepsBlocks(types, slabs, regions, mem, mem')
  {
  }

  /** A block at an address inside a cache is an object of that cache. */
  lemma FoundCache(types: seq<SlabType>, slabs: seq<seq<Cache>>, regions: seq<Reg>, held: map<nat, Page>, roles: map<nat, Role>, i: nat, j: nat, addr: nat, n: nat)
    requires TypesOk(types) && CachesOk(types, slabs, held, roles) && RegionsOk(regions, held, roles) && HeldApart(held)
    requires i < |slabs| && j < |slabs[i]| && i < |types| && Contains(types[i], slabs[i][j], addr) && Live(types, slabs, regions, addr, n)
    ensures TypeOk(types[i]) && LiveIn(types[i], slabs[i][j], addr, n) && n == types[i].objSize
    ensures addr >= slabs[i][j].addr && (addr - slabs[i][j].addr) % types[i].objSize == 0 && addr !in slabs[i][j].free
  {
    hide Live, IsObject;
    var p := LiveLies(types, slabs, regions, held, roles, addr, n);
    var c := slabs[i][j];
    CacheFacts(types, slabs, held, roles, i, j);
    LiveSize(types, slabs, regions, held, roles, addr, n);
    hide CachesOk, RegionsOk;
    if p != c.addr { PagesApart(held, p, c.addr); }
    var l :| 0 <= l < |slabs[i]| && slabs[i][l].addr == p && slabs[i][l].desc == held[p].desc && LiveIn(types[i], slabs[i][l], addr, n);
    OneCache(types, slabs, held, roles, i, j, l);
    IsMultiple(types[i], c.addr, addr);
  }

  lemma LiveSize(types: seq<SlabType>, slabs: seq<seq<Cache>>, regions: seq<Reg>, held: map<nat, Page>, roles: map<nat, Role>, addr: nat, n: nat)
    requires TypesOk(types) && CachesOk(types, slabs, held, roles) && RegionsOk(regions, held, roles) && HeldApart(held) && Live(types, slabs, regions, addr, n)
    ensures n > 0
  {
    hide CacheOk;
  }

  lemma OneCache(types: seq<SlabType>, slabs: seq<seq<Cache>>, held: map<nat, Page>, roles: map<nat, Role>, i: nat, j: nat, l: nat)
    requires TypesOk(types) && CachesOk(types, slabs, held, roles) && i < |slabs| && j < |slabs[i]| && l < |slabs[i]| && slabs[i][j].desc == slabs[i][l].desc
    ensures j == l
  {
    hide CacheOk;
  }

  // ----- reallocation -----

  lemma SizeStep(types: seq<SlabType>, i: nat, sz: nat)
    ensures SizeFrom(types, i, sz) == if i >= |types| then sz else if sz <= types[i].objSize then types[i].objSize else SizeFrom(types, i + 1, sz)
    ensures SizeFor(types, sz) == SizeFrom(types, 0, sz)
  {
  }

  /** The first `k` bytes at `q` are copied to `p`, and nothing else is written. */
  ghost predicate Copied(mem: nat -> int, mem': nat -> int, q: nat, p: nat, k: nat) {
    && (forall x: nat :: p <= x < p + k ==> mem'(x) == mem(q + (x - p)))
    && (forall x: nat :: !(p <= x < p + k) ==> mem'(x) == mem(x))
  }

  lemma CopyStep(mem: nat -> int, mem1: nat -> int, mem2: nat -> int, q: nat, p: nat, k: nat, n: nat)
    requires Copied(mem, mem1, q, p, k) && k < n && Apart(p, n, q, n)
    requires forall x: nat :: mem2(x) == if x == p + k then mem1(q + k) else mem1(x)
    ensures Copied(mem, mem2, q, p, k + 1)
  {
    assert mem1(q + k) == mem(q + k);
  }

  /** The block of `n` bytes at `ptr` is now the one of `m` bytes at `p`, with its first
      `len` bytes; nothing else changed. */
  ghost predicate Moved(types: seq<SlabType>, slabs: seq<seq<Cache>>, regions: seq<Reg>, mem: nat -> int,
                        slabs': seq<seq<Cache>>, regions': seq<Reg>, mem': nat -> int, ptr: nat, n: nat, p: nat, m: nat, len: nat)
    requires TypesOk(types) && |slabs| == |types| == |slabs'|
  {
    && p != ptr && len <= n && len <= m
    && (forall a: nat, k: nat :: Live(types, slabs', regions', a, k) <==>
          (Live(types, slabs, regions, a, k) && !(a == ptr && k == n)) || (a == p && k == m))
    && (forall x: nat :: p <= x < p + len ==> mem'(x) == mem(ptr + (x - p)))
    && (forall a: nat, k: nat, x: nat :: Live(types, slabs, regions, a, k) && !(a == ptr && k == n) && a <= x < a + k ==> mem'(x) == mem(x))
  }

  lemma NewApart(types: seq<SlabType>, slabs: seq<seq<Cache>>, regions: seq<Reg>, slabs': seq<seq<Cache>>, regions': seq<Reg>,
                 ptr: nat, n: nat, p: nat, m: nat, len: nat)
    requires TypesOk(types) && |slabs| == |types| == |slabs'| && AddsBlock(types, slabs, regions, slabs', regions', p, m)
    requires Live(types, slabs, regions, ptr, n) && len <= n && len <= m
    ensures Apart(p, len, ptr, len) && Live(types, slabs', regions', ptr, n)
  {
    hide Live;
  }

  lemma MovedBlock(types: seq<SlabType>, slabs: seq<seq<Cache>>, regions: seq<Reg>, mem: nat -> int, slabs1: seq<seq<Cache>>, regions1: seq<Reg>, mem1: nat -> int,
                   mem2: nat -> int, slabs3: seq<seq<Cache>>, regions3: seq<Reg>, mem3: nat -> int, ptr: nat, n: nat, p: nat, m: nat, len: nat)
    requires TypesOk(types) && |slabs| == |types| == |slabs1| == |slabs3| && 0 < len <= n && len <= m
    requires AddsBlock(types, slabs, regions, slabs1, regions1, p, m) && Live(types, slabs, regions, ptr, n)
    requires KeepsBlocks(types, slabs, regions, mem, mem1)
    requires Copied(mem1, mem2, ptr, p, len)
    requires DropsBlock(types, slabs1, regions1, slabs3, regions3, ptr, n) && KeepsBlocks(types, slabs3, regions3, mem2, mem3)
    ensures Moved(types, slabs, regions, mem, slabs3, regions3, mem3, ptr, n, p, m, len)
  {
    hide Live;
    assert Live(types, slabs3, regions3, p, m);
    forall x: nat | p <= x < p + len ensures mem3(x) == mem(ptr + (x - p)) {}
    forall a: nat, k: nat, x: nat | Live(types, slabs, regions, a, k) && !(a == ptr && k == n) && a <= x < a + k ensures mem3(x) == mem(x) {
      assert Live(types, slabs3, regions3, a, k) && Apart(a, k, p, m);
    }
  }

  // ----- the end -----

  ghost predicate Shrunk(held: map<nat, Page>, held': map<nat, Page>) {
    forall a :: a in held' ==> a in held && held'[a] == held[a]
  }

  /** Before list `i` is at cache `j`: what came earlier is gone, the rest is held. */
  ghost predicate Pending(home: nat, slabs: seq<seq<Cache>>, regions: seq<Reg>, roles: map<nat, Role>, held: map<nat, Page>, held': map<nat, Page>, i: nat, j: nat) {
    && Shrunk(held, held') && home in held'
    && (forall k :: 0 <= k < |regions| ==> regions[k].addr in held')
    && (forall k, l :: 0 <= k < |slabs| && 0 <= l < |slabs[k]| ==> (slabs[k][l].addr in held' <==> (k > i || (k == i && l >= j))))
  }

  /** What is left: the first page and the regions. */
  ghost predicate RegionsLeft(home: nat, regions: seq<Reg>, roles: map<nat, Role>, held: map<nat, Page>) {
    && home in held && (forall k :: 0 <= k < |regions| ==> regions[k].addr in held)
    && (forall a :: a in held && a != home ==> exists k :: 0 <= k < |regions| && regions[k].addr == a)
  }

  lemma PendingAll(types: seq<SlabType>, slabs: seq<seq<Cache>>, regions: seq<Reg>, freeDescs: seq<nat>, home: nat, held: map<nat, Page>, roles: map<nat, Role>)
    requires StateOk(types, slabs, regions, freeDescs, home, held, roles)
    ensures Pending(home, slabs, regions, roles, held, held, 0, 0)
  {
    hide CacheOk, Housed, HeldApart, Recorded, UnusedOk;
  }

  lemma PendingHome(home: nat, slabs: seq<seq<Cache>>, regions: seq<Reg>, roles: map<nat, Role>, held: map<nat, Page>, held': map<nat, Page>, i: nat, j: nat)
    requires Pending(home, slabs, regions, roles, held, held', i, j)
    ensures home in held'
  {
  }

  /** The page with a descriptor is still held, as no cache's page holds one. */
  lemma PendingAt(types: seq<SlabType>, slabs: seq<seq<Cache>>, regions: seq<Reg>, freeDescs: seq<nat>, home: nat, held: map<nat, Page>, roles: map<nat, Role>,
                  held': map<nat, Page>, i: nat, j: nat)
    requires StateOk(types, slabs, regions, freeDescs, home, held, roles) && Pending(home, slabs, regions, roles, held, held', i, j)
    requires i < |slabs| && j < |slabs[i]|
    ensures slabs[i][j].desc in roles && roles[slabs[i][j].desc].page in held' && roles[slabs[i][j].desc].page != slabs[i][j].addr && slabs[i][j].addr in held'
  {
    hide CacheOk, HeldApart, Recorded, UnusedOk;
    assert CacheHeld(types[i], slabs[i][j], held);
    var p := roles[slabs[i][j].desc].page;
    assert HoldsDescs(home, regions, p);
  }

  lemma PendingNext(types: seq<SlabType>, slabs: seq<seq<Cache>>, regions: seq<Reg>, freeDescs: seq<nat>, home: nat, held: map<nat, Page>, roles: map<nat, Role>,
                    held': map<nat, Page>, i: nat, j: nat)
    requires StateOk(types, slabs, regions, freeDescs, home, held, roles) && i < |slabs| && j < |slabs[i]|
    requires Pending(home, slabs, regions, roles, held, held', i, j)
    ensures Pending(home, slabs, regions, roles, held, held' - {slabs[i][j].addr}, i, j + 1)
  {
    hide CacheOk, HeldApart, Recorded, UnusedOk, Housed;
    var c := slabs[i][j];
    assert CacheHeld(types[i], c, held);
    forall k | 0 <= k < |regions| ensures regions[k].addr != c.addr { assert RegHeld(regions[k], held); }
    forall k, l | 0 <= k < |slabs| && 0 <= l < |slabs[k]| && (k != i || l != j) ensures slabs[k][l].addr != c.addr {
      assert CacheHeld(types[k], slabs[k][l], held);
    }
  }

  lemma PendingRow(home: nat, slabs: seq<seq<Cache>>, regions: seq<Reg>, roles: map<nat, Role>, held: map<nat, Page>, held': map<nat, Page>, i: nat)
    requires i < |slabs| && Pending(home, slabs, regions, roles, held, held', i, |slabs[i]|)
    ensures Pending(home, slabs, regions, roles, held, held', i + 1, 0)
  {
  }

  lemma PendingDone(types: seq<SlabType>, slabs: seq<seq<Cache>>, regions: seq<Reg>, freeDescs: seq<nat>, home: nat, held: map<nat, Page>, roles: map<nat, Role>, held': map<nat, Page>)
    requires StateOk(types, slabs, regions, freeDescs, home, held, roles) && Pending(home, slabs, regions, roles, held, held', |types|, 0)
    ensures Shrunk(held, held') && RegionsLeft(home, regions, roles, held')
  {
    hide CacheOk, HeldApart, UnusedOk, Housed;
    forall a | a in held' && a != home ensures exists k :: 0 <= k < |regions| && regions[k].addr == a {
      assert RecordedBy(slabs, regions, a);
    }
  }

  /** Of the regions before the `i`-th only those that hold descriptors are left. */
  ghost predicate Left(home: nat, regions: seq<Reg>, held: map<nat, Page>, i: nat) {
    && home in held
    && (forall k :: 0 <= k < |regions| ==> (regions[k].addr in held <==> (k >= i || regions[k].holds)))
    && (forall a :: a in held && a != home ==> exists k :: 0 <= k < |regions| && regions[k].addr == a)
  }

  /** The first `i` regions that hold descriptors, the last first. */
  function Holding(regions: seq<Reg>, i: nat): seq<Reg>
    requires i <= |regions|
  {
    if i == 0 then [] else if regions[i - 1].holds then [regions[i - 1]] + Holding(regions, i - 1) else Holding(regions, i - 1)
  }

  ghost predicate OwnDescs(s: seq<Reg>) {
    forall k, l :: 0 <= k < l < |s| ==> s[k].desc != s[l].desc
  }

  lemma {:induction false} HoldingAre(regions: seq<Reg>, i: nat)
    requires i <= |regions| && forall k, l :: 0 <= k < l < |regions| ==> regions[k].desc != regions[l].desc
    ensures forall r :: r in Holding(regions, i) <==> exists k :: 0 <= k < i && regions[k] == r && r.holds
    ensures OwnDescs(Holding(regions, i))
  {
    if i > 0 {
      HoldingAre(regions, i - 1);
      var rest := Holding(regions, i - 1);
      forall k | 0 <= k < |rest| ensures rest[k].desc != regions[i - 1].desc {
        assert rest[k] in rest;
        var m :| 0 <= m < i - 1 && regions[m] == rest[k];
      }
      var s := Holding(regions, i);
      forall k, l | 0 <= k < l < |s| ensures s[k].desc != s[l].desc {
        if regions[i - 1].holds {
          assert s[l] == rest[l - 1];
          if k > 0 { assert s[k] == rest[k - 1]; } else { assert s[k] == regions[i - 1]; }
        }
      }
      forall r ensures r in Holding(regions, i) <==> exists k :: 0 <= k < i && regions[k] == r && r.holds {
        if r in Holding(regions, i) {
          if r in rest { var k :| 0 <= k < i - 1 && regions[k] == r && r.holds; } else { assert regions[i - 1] == r; }
        }
        if k :| 0 <= k < i && regions[k] == r && r.holds { if k < i - 1 { assert r in rest; } }
      }
    }
  }

  ghost function Addresses(dr: seq<Reg>): set<nat> {
    set r | r in dr :: r.addr
  }

  lemma FirstAddress(dr: seq<Reg>)
    requires dr != [] && forall k, l :: 0 <= k < l < |dr| ==> dr[k].addr != dr[l].addr
    ensures Addresses(dr) == Addresses(dr[1..]) + {dr[0].addr} && dr[0].addr !in Addresses(dr[1..])
  {
    assert dr == [dr[0]] + dr[1..];
  }

  lemma LeftAll(home: nat, regions: seq<Reg>, held: map<nat, Page>, roles: map<nat, Role>, held': map<nat, Page>)
    requires RegionsLeft(home, regions, roles, held')
    ensures Left(home, regions, held', 0)
  {
  }

  /** The pages of descriptors are still held. */
  lemma LeftAt(home: nat, regions: seq<Reg>, held: map<nat, Page>, roles: map<nat, Role>, held': map<nat, Page>, i: nat)
    requires RegionsOk(regions, held, roles) && Housed(home, regions, held, roles) && Left(home, regions, held', i) && i < |regions|
    ensures regions[i].desc in roles && roles[regions[i].desc].page in held' && regions[i].addr in held'
  {
    assert HoldsDescs(home, regions, roles[regions[i].desc].page);
  }

  lemma LeftHolding(home: nat, regions: seq<Reg>, held: map<nat, Page>, i: nat)
    requires Left(home, regions, held, i) && i < |regions| && regions[i].holds
    ensures Left(home, regions, held, i + 1)
  {
  }

  /** Stated before region `i` goes. */
  lemma LeftNext(home: nat, regions: seq<Reg>, held: map<nat, Page>, roles: map<nat, Role>, held': map<nat, Page>, i: nat)
    requires RegionsOk(regions, held, roles) && home in held && held[home].desc == home && home !in roles
    requires Left(home, regions, held', i) && i < |regions| && !regions[i].holds
    ensures Left(home, regions, held' - {regions[i].addr}, i + 1) && Shrunk(held', held' - {regions[i].addr})
  {
    forall k | 0 <= k < |regions| ensures regions[k].addr == regions[i].addr <==> k == i {
      assert RegHeld(regions[k], held) && RegHeld(regions[i], held);
    }
    assert RegHeld(regions[i], held);
  }

  lemma ToStack(home: nat, regions: seq<Reg>, held: map<nat, Page>, roles: map<nat, Role>, held': map<nat, Page>)
    requires RegionsOk(regions, held, roles) && Housed(home, regions, held, roles) && home in held && held[home].desc == home && home !in roles
    requires Left(home, regions, held', |regions|)
    ensures var dr := Holding(regions, |regions|);
            && (forall k :: 0 <= k < |dr| ==> dr[k].addr in held' && dr[k].desc in roles && roles[dr[k].desc].page in held')
            && (forall k, l :: 0 <= k < l < |dr| ==> dr[k].addr != dr[l].addr && dr[k].desc != dr[l].desc)
            && home in held' - Addresses(dr) && held' - Addresses(dr) - {home} == map[]
  {
    var dr := Holding(regions, |regions|);
    HoldingAre(regions, |regions|);
    forall k | 0 <= k < |dr| ensures dr[k].addr in held' && dr[k].desc in roles && roles[dr[k].desc].page in held' && RegHeld(dr[k], held) && dr[k].addr != home {
      assert dr[k] in dr;
      var m :| 0 <= m < |regions| && regions[m] == dr[k] && dr[k].holds;
      LeftPage(home, regions, held, roles, held', m);
    }
    forall a | a in held' && a != home ensures a in Addresses(dr) {
      var k :| 0 <= k < |regions| && regions[k].addr == a;
      assert regions[k] in dr;
    }
  }

  lemma LeftPage(home: nat, regions: seq<Reg>, held: map<nat, Page>, roles: map<nat, Role>, held': map<nat, Page>, m: nat)
    requires RegionsOk(regions, held, roles) && Housed(home, regions, held, roles) && Left(home, regions, held', |regions|) && m < |regions|
    ensures RegHeld(regions[m], held) && regions[m].desc in roles && roles[regions[m].desc].page in held'
  {
    assert HoldsDescs(home, regions, roles[regions[m].desc].page);
  }
}
