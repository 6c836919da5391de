/** The slab allocator's records as values: caches of equal objects, regions handed out
    whole, the descriptors that record them and the pages they come from. */
module SlabState {

  const PAGE_SIZE: nat := 0x1000

  /** A descriptor: four 32-bit words. */
  const DESC_SIZE: nat := 16

  datatype SlabType = SlabType(objSize: nat, pages: nat)

  /** A cache, recorded in the descriptor at `desc`. */
  datatype Cache = Cache(desc: nat, addr: nat, free: seq<nat>, nFree: int)

  /** A region handed out whole, or (`holds`) a page of descriptors. */
  datatype Reg = Reg(desc: nat, addr: nat, size: nat, holds: bool)

  /** A piece of memory got from the page source, and the descriptor that records it. */
  datatype Page = Page(size: nat, desc: nat)

  /** What a descriptor records, and the page it lies in. */
  datatype Kind = Unused | ForCache(i: nat) | ForRegion

  datatype Role = Role(kind: Kind, page: nat)

  function CacheSize(t: SlabType): nat {
    t.pages * PAGE_SIZE
  }

  /** An object size fits its cache and has room for a link. */
  predicate TypeOk(t: SlabType) {
    4 <= t.objSize <= CacheSize(t)
  }

  /** Sizes increase strictly. */
  ghost predicate TypesOk(types: seq<SlabType>) {
    && (forall i :: 0 <= i < |types| ==> TypeOk(types[i]))
    && (forall i, j :: 0 <= i < j < |types| ==> types[i].objSize < types[j].objSize)
  }

  ghost predicate NoDup(l: seq<nat>) {
    forall i, j :: 0 <= i < j < |l| ==> l[i] != l[j]
  }

  // ----- the objects of a cache -----

  function Capacity(t: SlabType): nat
    requires TypeOk(t)
  {
    CacheSize(t) / t.objSize
  }

  function ObjectAt(t: SlabType, addr: nat, k: nat): nat {
    addr + k * t.objSize
  }

  ghost predicate IsObject(t: SlabType, addr: nat, x: nat)
    requires TypeOk(t)
  {
    exists k :: 0 <= k < Capacity(t) && x == ObjectAt(t, addr, k)
  }

  /** Its objects lie inside the cache. */
  lemma ObjectIn(t: SlabType, addr: nat, k: nat)
    requires TypeOk(t) && k < Capacity(t)
    ensures addr <= ObjectAt(t, addr, k) && ObjectAt(t, addr, k) + t.objSize <= addr + CacheSize(t)
  {
    Multiples(k + 1, Capacity(t), t.objSize);
    Quotient(CacheSize(t), t.objSize);
    assert (k + 1) * t.objSize == k * t.objSize + t.objSize;
  }

  lemma Multiples(a: nat, b: nat, n: nat)
    requires a <= b
    ensures a * n <= b * n
  {
  }

  lemma Quotient(x: nat, n: nat)
    requires n > 0
    ensures (x / n) * n <= x < (x / n + 1) * n
  {
  }

  lemma AtLeastOne(t: SlabType)
    requires TypeOk(t)
    ensures Capacity(t) >= 1
  {
    Quotient(CacheSize(t), t.objSize);
    assert (0 + 1) * t.objSize == t.objSize;
  }

  /** Different objects of a cache do not overlap. */
  lemma ObjectsApart(t: SlabType, addr: nat, k: nat, m: nat)
    requires k < m
    ensures ObjectAt(t, addr, k) + t.objSize <= ObjectAt(t, addr, m)
  {
    Multiples(k + 1, m, t.objSize);
    assert (k + 1) * t.objSize == k * t.objSize + t.objSize;
  }

  /** A place inside the cache, at a multiple of the object size, is an object. */
  lemma IsMultiple(t: SlabType, addr: nat, x: nat)
    requires TypeOk(t) && IsObject(t, addr, x)
    ensures addr <= x && x + t.objSize <= addr + CacheSize(t) && (x - addr) % t.objSize == 0
  {
    var k :| 0 <= k < Capacity(t) && x == ObjectAt(t, addr, k);
    ObjectIn(t, addr, k);
    Divides(k, t.objSize);
  }

  lemma Divides(k: nat, n: nat)
    requires n > 0
    ensures (k * n) % n == 0
  {
    ModUnique(k * n, n, k, 0);
  }

  lemma ModUnique(x: nat, n: nat, q: nat, r: nat)
    requires r < n && x == q * n + r
    ensures x / n == q && x % n == r
  {
    Quotient(x, n);
    assert (q + 1) * n == q * n + n;
    assert (x / n + 1) * n == (x / n) * n + n;
    NextMultiple(q, x / n, n);
    NextMultiple(x / n, q, n);
  }

  lemma NextMultiple(a: nat, b: nat, n: nat)
    ensures a < b ==> (a + 1) * n <= b * n
  {
    if a < b { Multiples(a + 1, b, n); }
  }

  ghost predicate CacheOk(t: SlabType, c: Cache)
    requires TypeOk(t)
  {
    && NoDup(c.free) && c.nFree == |c.free| <= Capacity(t)
    && forall x :: x in c.free ==> IsObject(t, c.addr, x)
  }

  /** The first `n` objects of a fresh cache, the last first. */
  function Objects(t: SlabType, addr: nat, n: nat): seq<nat> {
    if n == 0 then [] else [ObjectAt(t, addr, n - 1)] + Objects(t, addr, n - 1)
  }

  lemma {:induction false} ObjectsAre(t: SlabType, addr: nat, n: nat)
    requires TypeOk(t)
    ensures |Objects(t, addr, n)| == n && NoDup(Objects(t, addr, n))
    ensures forall x :: x in Objects(t, addr, n) <==> exists k :: 0 <= k < n && x == ObjectAt(t, addr, k)
  {
    if n > 0 {
      ObjectsAre(t, addr, n - 1);
      var rest := Objects(t, addr, n - 1);
      forall x | x in rest ensures x != ObjectAt(t, addr, n - 1) {
        var k :| 0 <= k < n - 1 && x == ObjectAt(t, addr, k);
        ObjectsApart(t, addr, k, n - 1);
      }
      assert forall i :: 0 <= i < |rest| ==> rest[i] in rest;
    }
  }

  // ----- the whole state -----

  /** A cache's objects and pages are its own. */
  ghost predicate CacheHeld(t: SlabType, c: Cache, held: map<nat, Page>) {
    c.addr in held && held[c.addr] == Page(CacheSize(t), c.desc)
  }

  ghost predicate RegHeld(r: Reg, held: map<nat, Page>) {
    r.addr in held && held[r.addr] == Page(r.size, r.desc) && (r.holds ==> r.size == PAGE_SIZE)
  }

  /** Each list of caches is in order, each cache recorded in a descriptor of its own. */
  ghost predicate CachesOk(types: seq<SlabType>, slabs: seq<seq<Cache>>, held: map<nat, Page>, roles: map<nat, Role>)
    requires TypesOk(types)
  {
    && |slabs| == |types|
    && (forall i, j :: 0 <= i < |slabs| && 0 <= j < |slabs[i]| ==>
          CacheOk(types[i], slabs[i][j]) && CacheHeld(types[i], slabs[i][j], held)
          && slabs[i][j].desc in roles && roles[slabs[i][j].desc].kind == ForCache(i))
    && (forall i, j, k :: 0 <= i < |slabs| && 0 <= j < k < |slabs[i]| ==> slabs[i][j].desc != slabs[i][k].desc)
  }

  ghost predicate RegionsOk(regions: seq<Reg>, held: map<nat, Page>, roles: map<nat, Role>) {
    && (forall i :: 0 <= i < |regions| ==>
          RegHeld(regions[i], held) && regions[i].desc in roles && roles[regions[i].desc].kind == ForRegion)
    && (forall i, j :: 0 <= i < j < |regions| ==> regions[i].desc != regions[j].desc)
  }

  ghost predicate UnusedOk(freeDescs: seq<nat>, roles: map<nat, Role>) {
    NoDup(freeDescs) && forall d :: d in freeDescs ==> d in roles && roles[d].kind == Unused
  }

  ghost predicate Apart(a: nat, n: nat, b: nat, m: nat) {
    a + n <= b || b + m <= a
  }

  /** The pages held do not overlap. */
  ghost predicate HeldApart(held: map<nat, Page>) {
    && (forall a :: a in held ==> a > 0 && held[a].size > 0)
    && (forall a, b :: a in held && b in held && a != b ==> Apart(a, held[a].size, b, held[b].size))
  }

  /** A page that holds descriptors: the first one, or a region of them. */
  ghost predicate HoldsDescs(home: nat, regions: seq<Reg>, p: nat) {
    p == home || exists i :: 0 <= i < |regions| && regions[i].holds && regions[i].addr == p
  }

  /** Every descriptor lies in a page that holds descriptors. */
  ghost predicate Housed(home: nat, regions: seq<Reg>, held: map<nat, Page>, roles: map<nat, Role>) {
    forall d :: d in roles ==>
      && roles[d].page in held && HoldsDescs(home, regions, roles[d].page)
      && roles[d].page <= d && d + DESC_SIZE <= roles[d].page + held[roles[d].page].size
  }

  /** Every page held is the first one, or recorded by a cache or a region. */
  ghost predicate Recorded(home: nat, types: seq<SlabType>, slabs: seq<seq<Cache>>, regions: seq<Reg>, held: map<nat, Page>) {
    forall a :: a in held && a != home ==> RecordedBy(slabs, regions, a)
  }

  ghost predicate RecordedBy(slabs: seq<seq<Cache>>, regions: seq<Reg>, a: nat) {
    || (exists i, j :: 0 <= i < |slabs| && 0 <= j < |slabs[i]| && slabs[i][j].addr == a)
    || (exists i :: 0 <= i < |regions| && regions[i].addr == a)
  }

  /** A block of `n` bytes at `a` is handed out: an object not on its cache's free
      list, or a region. */
  ghost predicate Live(types: seq<SlabType>, slabs: seq<seq<Cache>>, regions: seq<Reg>, a: nat, n: nat)
    requires TypesOk(types) && |slabs| == |types|
  {
    || (exists i, j :: 0 <= i < |slabs| && 0 <= j < |slabs[i]| && LiveIn(types[i], slabs[i][j], a, n))
    || (exists i :: 0 <= i < |regions| && !regions[i].holds && regions[i].addr == a && regions[i].size == n)
  }

  ghost predicate LiveIn(t: SlabType, c: Cache, a: nat, n: nat)
    requires TypeOk(t)
  {
    IsObject(t, c.addr, a) && a !in c.free && n == t.objSize
  }

  ghost predicate StateOk(types: seq<SlabType>, slabs: seq<seq<Cache>>, regions: seq<Reg>, freeDescs: seq<nat>, home: nat,
                          held: map<nat, Page>, roles: map<nat, Role>) {
    && TypesOk(types) && CachesOk(types, slabs, held, roles) && RegionsOk(regions, held, roles) && UnusedOk(freeDescs, roles)
    && HeldApart(held) && Housed(home, regions, held, roles) && Recorded(home, types, slabs, regions, held)
    && home in held && held[home] == Page(PAGE_SIZE, home) && home !in roles
  }

  // ----- handed-out blocks do not overlap -----

  /** No block is at address 0. */
  lemma BlockPositive(types: seq<SlabType>, slabs: seq<seq<Cache>>, regions: seq<Reg>, held: map<nat, Page>, roles: map<nat, Role>, a: nat, n: nat)
    requires TypesOk(types) && CachesOk(types, slabs, held, roles) && RegionsOk(regions, held, roles) && HeldApart(held)
    requires Live(types, slabs, regions, a, n)
    ensures a > 0
  {
    hide TypesOk, CachesOk, RegionsOk, Live;
    var p := LiveLies(types, slabs, regions, held, roles, a, n);
  }

  /** A live block lies in a page held, recorded by a descriptor of its own. */
  ghost predicate LiesIn(held: map<nat, Page>, roles: map<nat, Role>, p: nat, a: nat, n: nat) {
    && p in held && p <= a && a + n <= p + held[p].size
    && held[p].desc in roles && roles[held[p].desc].kind != Unused
  }

  lemma LiveLies(types: seq<SlabType>, slabs: seq<seq<Cache>>, regions: seq<Reg>, held: map<nat, Page>, roles: map<nat, Role>, a: nat, n: nat)
      returns (p: nat)
    requires TypesOk(types) && CachesOk(types, slabs, held, roles) && RegionsOk(regions, held, roles) && Live(types, slabs, regions, a, n)
    ensures LiesIn(held, roles, p, a, n)
    ensures if roles[held[p].desc].kind == ForRegion
            then exists i :: 0 <= i < |regions| && !regions[i].holds && regions[i] == Reg(held[p].desc, a, n, false) && p == a
            else roles[held[p].desc].kind.ForCache? && var i := roles[held[p].desc].kind.i;
                 i < |slabs| && exists j :: 0 <= j < |slabs[i]| && slabs[i][j].addr == p && slabs[i][j].desc == held[p].desc && LiveIn(types[i], slabs[i][j], a, n)
  {
    if i, j :| 0 <= i < |slabs| && 0 <= j < |slabs[i]| && LiveIn(types[i], slabs[i][j], a, n) {
      p := slabs[i][j].addr;
      IsMultiple(types[i], p, a);
    } else {
      var i :| 0 <= i < |regions| && !regions[i].holds && regions[i].addr == a && regions[i].size == n;
      p := a;
    }
  }

  /** Two blocks handed out are the same or do not overlap. */
  lemma LiveApart(types: seq<SlabType>, slabs: seq<seq<Cache>>, regions: seq<Reg>, held: map<nat, Page>, roles: map<nat, Role>,
                  a: nat, n: nat, b: nat, m: nat)
    requires TypesOk(types) && CachesOk(types, slabs, held, roles) && RegionsOk(regions, held, roles) && HeldApart(held)
    requires Live(types, slabs, regions, a, n) && Live(types, slabs, regions, b, m)
    ensures (a == b && n == m) || Apart(a, n, b, m)
  {
    hide Live, HeldApart, CacheOk, LiveIn;
    var p := LiveLies(types, slabs, regions, held, roles, a, n);
    var q := LiveLies(types, slabs, regions, held, roles, b, m);
    if p != q {
      PagesApart(held, p, q);
    } else if roles[held[p].desc].kind != ForRegion {
      var i := roles[held[p].desc].kind.i;
      var j :| 0 <= j < |slabs[i]| && slabs[i][j].addr == p && slabs[i][j].desc == held[p].desc && LiveIn(types[i], slabs[i][j], a, n);
      var k :| 0 <= k < |slabs[i]| && slabs[i][k].addr == p && slabs[i][k].desc == held[p].desc && LiveIn(types[i], slabs[i][k], b, m);
      assert j == k;
      SameCacheApart(types[i], slabs[i][j], a, n, b, m);
    }
  }

  lemma PagesApart(held: map<nat, Page>, p: nat, q: nat)
    requires HeldApart(held) && p in held && q in held && p != q
    ensures Apart(p, held[p].size, q, held[q].size)
  {
  }

  lemma SameCacheApart(t: SlabType, c: Cache, a: nat, n: nat, b: nat, m: nat)
    requires TypeOk(t) && LiveIn(t, c, a, n) && LiveIn(t, c, b, m)
    ensures (a == b && n == m) || Apart(a, n, b, m)
  {
    var k :| 0 <= k < Capacity(t) && a == ObjectAt(t, c.addr, k);
    var l :| 0 <= l < Capacity(t) && b == ObjectAt(t, c.addr, l);
    if k < l { ObjectsApart(t, c.addr, k, l); }
    if l < k { ObjectsApart(t, c.addr, l, k); }
  }

  // ----- what lies outside every block -----

  /** Fresh from the page source: apart from every page held. */
  predicate Fresh(held: map<nat, Page>, p: nat, n: nat) {
    p > 0 && n > 0 && p !in held && forall q :: q in held ==> p + n <= q || q + held[q].size <= p
  }

  lemma FreshOutside(types: seq<SlabType>, slabs: seq<seq<Cache>>, regions: seq<Reg>, held: map<nat, Page>, roles: map<nat, Role>,
                     p: nat, size: nat, a: nat, n: nat)
    requires TypesOk(types) && CachesOk(types, slabs, held, roles) && RegionsOk(regions, held, roles) && Fresh(held, p, size)
    requires Live(types, slabs, regions, a, n)
    ensures Apart(a, n, p, size)
  {
    hide Live;
    var q := LiveLies(types, slabs, regions, held, roles, a, n);
  }

  /** Descriptors lie outside every block handed out. */
  lemma DescOutside(types: seq<SlabType>, slabs: seq<seq<Cache>>, regions: seq<Reg>, freeDescs: seq<nat>, home: nat,
                    held: map<nat, Page>, roles: map<nat, Role>, d: nat, a: nat, n: nat)
    requires StateOk(types, slabs, regions, freeDescs, home, held, roles) && d in roles && Live(types, slabs, regions, a, n)
    ensures Apart(a, n, d, DESC_SIZE)
  {
    hide Live, HeldApart;
    var p := LiveLies(types, slabs, regions, held, roles, a, n);
    var h := roles[d].page;
    assert p != h;
    PagesApart(held, p, h);
  }

  ghost predicate KeepsBlocks(types: seq<SlabType>, slabs: seq<seq<Cache>>, regions: seq<Reg>, mem: nat -> int, mem': nat -> int)
    requires TypesOk(types) && |slabs| == |types|
  {
    forall a: nat, n: nat, x: nat :: Live(types, slabs, regions, a, n) && a <= x < a + n ==> mem'(x) == mem(x)
  }

  /** Writing outside every block keeps their contents. */
  lemma OutsideKeeps(types: seq<SlabType>, slabs: seq<seq<Cache>>, regions: seq<Reg>, mem: nat -> int, mem': nat -> int, p: nat, size: nat)
    requires TypesOk(types) && |slabs| == |types|
    requires forall a, n :: Live(types, slabs, regions, a, n) ==> Apart(a, n, p, size)
    requires forall x: nat :: !(p <= x < p + size) ==> mem'(x) == mem(x)
    ensures KeepsBlocks(types, slabs, regions, mem, mem')
  {
    hide Live;
  }

  // ----- a page of descriptors -----

  /** The descriptors in the first `n` places of a page. */
  ghost predicate IsDesc(p: nat, n: nat, d: nat) {
    exists k :: 0 <= k < n && d == p + DESC_SIZE * k
  }

  /** `n` descriptors, the last first. */
  function Descs(p: nat, n: nat): seq<nat> {
    if n == 0 then [] else [p + DESC_SIZE * (n - 1)] + Descs(p, n - 1)
  }

  lemma {:induction false} DescsAre(p: nat, n: nat)
    ensures NoDup(Descs(p, n)) && |Descs(p, n)| == n && forall d :: d in Descs(p, n) <==> IsDesc(p, n, d)
  {
    if n > 0 {
      DescsAre(p, n - 1);
      var rest := Descs(p, n - 1);
      forall i | 0 <= i < |rest| ensures rest[i] < p + DESC_SIZE * (n - 1) {
        assert rest[i] in rest;
        var k :| 0 <= k < n - 1 && rest[i] == p + DESC_SIZE * k;
      }
      forall d ensures d in Descs(p, n) <==> IsDesc(p, n, d) {
        if d in rest { assert IsDesc(p, n - 1, d); }
        if IsDesc(p, n, d) {
          var k :| 0 <= k < n && d == p + DESC_SIZE * k;
          if k < n - 1 { assert IsDesc(p, n - 1, d); }
        }
      }
    }
  }

  /** The roles with the descriptors of a fresh page at `p`, all unused but the last,
      which records the page. */
  ghost function PageRoles(roles: map<nat, Role>, p: nat, n: nat): map<nat, Role>
    requires n > 0
  {
    map d | d in roles.Keys + Elems(Descs(p, n)) ::
      if d in Descs(p, n) then Role(if d == p + DESC_SIZE * (n - 1) then ForRegion else Unused, p) else roles[d]
  }

  ghost function Elems(l: seq<nat>): set<nat> {
    set d | d in l
  }

  const DESCS_PER_PAGE: nat := 256

  /** The descriptor that records a page of descriptors is the last one in it. */
  function LastDesc(p: nat): nat {
    p + DESC_SIZE * (DESCS_PER_PAGE - 1)
  }

  ghost predicate Grows<V>(m: map<nat, V>, m': map<nat, V>) {
    forall a :: a in m ==> a in m' && m'[a] == m[a]
  }

  lemma NewDescs(home: nat, regions: seq<Reg>, held: map<nat, Page>, roles: map<nat, Role>, p: nat)
    requires Housed(home, regions, held, roles) && HeldApart(held) && Fresh(held, p, PAGE_SIZE)
    ensures forall d :: d in Descs(p, DESCS_PER_PAGE) ==> d !in roles && p <= d && d + DESC_SIZE <= p + PAGE_SIZE
  {
    DescsAre(p, DESCS_PER_PAGE);
    forall e | e in roles ensures e + DESC_SIZE <= p || p + PAGE_SIZE <= e { assert roles[e].page in held; }
    forall d | d in Descs(p, DESCS_PER_PAGE) ensures d !in roles && p <= d && d + DESC_SIZE <= p + PAGE_SIZE {
      var k :| 0 <= k < DESCS_PER_PAGE && d == p + DESC_SIZE * k;
    }
  }

  lemma PageGrows(held: map<nat, Page>, roles: map<nat, Role>, p: nat)
    requires p !in held && forall d :: d in Descs(p, DESCS_PER_PAGE) ==> d !in roles
    ensures Grows(held, held[p := Page(PAGE_SIZE, LastDesc(p))]) && Grows(roles, PageRoles(roles, p, DESCS_PER_PAGE))
    ensures LastDesc(p) in PageRoles(roles, p, DESCS_PER_PAGE) && PageRoles(roles, p, DESCS_PER_PAGE)[LastDesc(p)] == Role(ForRegion, p)
    ensures forall d :: d in Descs(p, DESCS_PER_PAGE - 1) ==>
              d in PageRoles(roles, p, DESCS_PER_PAGE) && PageRoles(roles, p, DESCS_PER_PAGE)[d] == Role(Unused, p)
    ensures LastDesc(p) in Descs(p, DESCS_PER_PAGE) && LastDesc(p) !in Descs(p, DESCS_PER_PAGE - 1)
    ensures forall d :: d in PageRoles(roles, p, DESCS_PER_PAGE) <==> d in roles || d in Descs(p, DESCS_PER_PAGE)
  {
    DescsAre(p, DESCS_PER_PAGE);
    DescsAre(p, DESCS_PER_PAGE - 1);
    forall d | d in Descs(p, DESCS_PER_PAGE - 1) ensures d in Descs(p, DESCS_PER_PAGE) && d < LastDesc(p) {
      var k :| 0 <= k < DESCS_PER_PAGE - 1 && d == p + DESC_SIZE * k;
      assert IsDesc(p, DESCS_PER_PAGE, d);
    }
    assert IsDesc(p, DESCS_PER_PAGE, LastDesc(p));
  }

  lemma CachesGrow(types: seq<SlabType>, slabs: seq<seq<Cache>>, held: map<nat, Page>, roles: map<nat, Role>, held': map<nat, Page>, roles': map<nat, Role>)
    requires TypesOk(types) && CachesOk(types, slabs, held, roles) && Grows(held, held') && Grows(roles, roles')
    ensures CachesOk(types, slabs, held', roles')
  {
    hide CacheOk;
  }

  lemma RegionsGrow(regions: seq<Reg>, held: map<nat, Page>, roles: map<nat, Role>, held': map<nat, Page>, roles': map<nat, Role>, r: Reg)
    requires RegionsOk(regions, held, roles) && Grows(held, held') && Grows(roles, roles')
    requires RegHeld(r, held') && r.desc in roles' && roles'[r.desc].kind == ForRegion
    requires forall i :: 0 <= i < |regions| ==> regions[i].desc != r.desc
    ensures RegionsOk([r] + regions, held', roles')
  {
  }

  lemma HeldGrows(held: map<nat, Page>, p: nat, page: Page)
    requires HeldApart(held) && Fresh(held, p, page.size)
    ensures HeldApart(held[p := page])
  {
  }

  lemma RecordedGrows(home: nat, types: seq<SlabType>, slabs: seq<seq<Cache>>, regions: seq<Reg>, held: map<nat, Page>, r: Reg, page: Page)
    requires Recorded(home, types, slabs, regions, held)
    ensures Recorded(home, types, slabs, [r] + regions, held[r.addr := page])
  {
    var rs := [r] + regions;
    forall a | a in held[r.addr := page] && a != home
      ensures RecordedBy(slabs, rs, a)
    {
      if a == r.addr {
        assert rs[0].addr == a;
      } else if i :| 0 <= i < |regions| && regions[i].addr == a {
        assert rs[i + 1].addr == a;
      }
    }
  }

  lemma HoldsGrow(home: nat, regions: seq<Reg>, r: Reg)
    ensures forall p :: HoldsDescs(home, regions, p) ==> HoldsDescs(home, [r] + regions, p)
    ensures r.holds ==> HoldsDescs(home, [r] + regions, r.addr)
  {
    var rs := [r] + regions;
    forall p | HoldsDescs(home, regions, p) ensures HoldsDescs(home, rs, p) {
      if p != home {
        var i :| 0 <= i < |regions| && regions[i].holds && regions[i].addr == p;
        assert rs[i + 1].addr == p;
      }
    }
    assert rs[0] == r;
  }

  /** The state after take_descriptor has got a page. */
  lemma PageAdded(types: seq<SlabType>, slabs: seq<seq<Cache>>, regions: seq<Reg>, home: nat, held: map<nat, Page>, roles: map<nat, Role>, p: nat)
    requires StateOk(types, slabs, regions, [], home, held, roles) && Fresh(held, p, PAGE_SIZE)
    ensures StateOk(types, slabs, [Reg(LastDesc(p), p, PAGE_SIZE, true)] + regions, Descs(p, DESCS_PER_PAGE - 1), home,
                    held[p := Page(PAGE_SIZE, LastDesc(p))], PageRoles(roles, p, DESCS_PER_PAGE))
  {
    hide CachesOk, RegionsOk, Housed, HeldApart, Recorded, Fresh, PageRoles, Grows, HoldsDescs, Descs;
    var held', roles', r := held[p := Page(PAGE_SIZE, LastDesc(p))], PageRoles(roles, p, DESCS_PER_PAGE), Reg(LastDesc(p), p, PAGE_SIZE, true);
    NewDescs(home, regions, held, roles, p);
    FreshNew(held, p);
    PageGrows(held, roles, p);
    CachesGrow(types, slabs, held, roles, held', roles');
    RegionDescs(regions, held, roles);
    RegionsGrow(regions, held, roles, held', roles', r);
    HeldGrows(held, p, held'[p]);
    RecordedGrows(home, types, slabs, regions, held, r, held'[p]);
    DescsAre(p, DESCS_PER_PAGE - 1);
    HousedPage(home, regions, held, roles, p);
    GrowsAt(held, held', home);
    HomeOutside(held, home, p);
  }

  lemma FreshNew(held: map<nat, Page>, p: nat)
    requires Fresh(held, p, PAGE_SIZE)
    ensures p !in held
  {
  }

  lemma RegionDescs(regions: seq<Reg>, held: map<nat, Page>, roles: map<nat, Role>)
    requires RegionsOk(regions, held, roles)
    ensures forall i :: 0 <= i < |regions| ==> regions[i].desc in roles
  {
  }

  lemma GrowsAt(held: map<nat, Page>, held': map<nat, Page>, a: nat)
    requires Grows(held, held') && a in held
    ensures a in held' && held'[a] == held[a]
  {
  }

  lemma HomeOutside(held: map<nat, Page>, home: nat, p: nat)
    requires home in held && held[home].size == PAGE_SIZE && Fresh(held, p, PAGE_SIZE)
    ensures home !in Descs(p, DESCS_PER_PAGE)
  {
    DescsAre(p, DESCS_PER_PAGE);
    forall d | d in Descs(p, DESCS_PER_PAGE) ensures p <= d < p + PAGE_SIZE {
      var k :| 0 <= k < DESCS_PER_PAGE && d == p + DESC_SIZE * k;
    }
  }

  lemma HousedPage(home: nat, regions: seq<Reg>, held: map<nat, Page>, roles: map<nat, Role>, p: nat)
    requires Housed(home, regions, held, roles) && p !in held
    requires forall d :: d in Descs(p, DESCS_PER_PAGE) ==> d !in roles && p <= d && d + DESC_SIZE <= p + PAGE_SIZE
    ensures Housed(home, [Reg(LastDesc(p), p, PAGE_SIZE, true)] + regions, held[p := Page(PAGE_SIZE, LastDesc(p))], PageRoles(roles, p, DESCS_PER_PAGE))
  {
    hide HoldsDescs, Descs;
    HoldsGrow(home, regions, Reg(LastDesc(p), p, PAGE_SIZE, true));
  }

  // ----- how the blocks handed out change -----

  ghost predicate SameBlocks(types: seq<SlabType>, slabs: seq<seq<Cache>>, regions: seq<Reg>, slabs': seq<seq<Cache>>, regions': seq<Reg>)
    requires TypesOk(types) && |slabs| == |types| == |slabs'|
  {
    forall a: nat, n: nat :: Live(types, slabs', regions', a, n) <==> Live(types, slabs, regions, a, n)
  }

  ghost predicate AddsBlock(types: seq<SlabType>, slabs: seq<seq<Cache>>, regions: seq<Reg>, slabs': seq<seq<Cache>>, regions': seq<Reg>, p: nat, size: nat)
    requires TypesOk(types) && |slabs| == |types| == |slabs'|
  {
    && (forall a: nat, n: nat :: Live(types, slabs', regions', a, n) <==> Live(types, slabs, regions, a, n) || (a == p && n == size))
    && (forall a: nat, n: nat :: Live(types, slabs, regions, a, n) ==> Apart(a, n, p, size))
  }

  ghost predicate DropsBlock(types: seq<SlabType>, slabs: seq<seq<Cache>>, regions: seq<Reg>, slabs': seq<seq<Cache>>, regions': seq<Reg>, p: nat, size: nat)
    requires TypesOk(types) && |slabs| == |types| == |slabs'|
  {
    forall a: nat, n: nat :: Live(types, slabs', regions', a, n) <==> Live(types, slabs, regions, a, n) && !(a == p && n == size)
  }

  /** Some block lies in one of the caches. */
  ghost predicate InCaches(types: seq<SlabType>, slabs: seq<seq<Cache>>, a: nat, n: nat)
    requires TypesOk(types) && |slabs| == |types|
  {
    exists i, j :: 0 <= i < |slabs| && 0 <= j < |slabs[i]| && LiveIn(types[i], slabs[i][j], a, n)
  }

  ghost predicate InRegions(regions: seq<Reg>, a: nat, n: nat) {
    exists i :: 0 <= i < |regions| && !regions[i].holds && regions[i].addr == a && regions[i].size == n
  }

  lemma RegionAdded(regions: seq<Reg>, r: Reg, a: nat, n: nat)
    ensures InRegions([r] + regions, a, n) <==> InRegions(regions, a, n) || (!r.holds && r.addr == a && r.size == n)
  {
    var rs := [r] + regions;
    if InRegions(regions, a, n) {
      var i :| 0 <= i < |regions| && !regions[i].holds && regions[i].addr == a && regions[i].size == n;
      assert rs[i + 1] == regions[i];
    }
    if !r.holds && r.addr == a && r.size == n { assert rs[0] == r; }
  }

  function RemoveAt<T>(l: seq<T>, k: nat): seq<T>
    requires k < |l|
  {
    l[..k] + l[k + 1..]
  }

  lemma RemovedIndex<T>(l: seq<T>, k: nat)
    requires k < |l|
    ensures |RemoveAt(l, k)| == |l| - 1
    ensures forall i :: 0 <= i < |l| - 1 ==> RemoveAt(l, k)[i] == l[if i < k then i else i + 1]
    ensures forall i :: 0 <= i < |l| && i != k ==> RemoveAt(l, k)[if i < k then i else i - 1] == l[i]
  {
  }

  lemma RegionRemoved(regions: seq<Reg>, k: nat, a: nat, n: nat)
    requires k < |regions| && forall i, j :: 0 <= i < j < |regions| ==> regions[i].addr != regions[j].addr
    ensures InRegions(RemoveAt(regions, k), a, n) <==> InRegions(regions, a, n) && a != regions[k].addr
  {
    var rs := RemoveAt(regions, k);
    RemovedIndex(regions, k);
    hide RemoveAt;
    if InRegions(regions, a, n) && a != regions[k].addr {
      var i :| 0 <= i < |regions| && !regions[i].holds && regions[i].addr == a && regions[i].size == n;
      assert rs[if i < k then i else i - 1] == regions[i];
    }
  }

  /** Replacing one cache. */
  lemma CacheReplaced(types: seq<SlabType>, slabs: seq<seq<Cache>>, i: nat, j: nat, c: Cache, a: nat, n: nat)
    requires TypesOk(types) && |slabs| == |types| && i < |slabs| && j < |slabs[i]|
    requires forall k, l :: 0 <= k < |slabs| && 0 <= l < |slabs[k]| && (k != i || l != j) && LiveIn(types[k], slabs[k][l], a, n) ==>
               !LiveIn(types[i], slabs[i][j], a, n) && !LiveIn(types[i], c, a, n)
    ensures InCaches(types, slabs[i := slabs[i][j := c]], a, n) <==>
              (InCaches(types, slabs, a, n) && !LiveIn(types[i], slabs[i][j], a, n)) || LiveIn(types[i], c, a, n)
  {
    hide LiveIn;
    var ss := slabs[i := slabs[i][j := c]];
    if LiveIn(types[i], c, a, n) { assert ss[i][j] == c; }
    if InCaches(types, slabs, a, n) && !LiveIn(types[i], slabs[i][j], a, n) {
      var k, l :| 0 <= k < |slabs| && 0 <= l < |slabs[k]| && LiveIn(types[k], slabs[k][l], a, n);
      assert ss[k][l] == slabs[k][l];
    }
    if InCaches(types, ss, a, n) {
      var k, l :| 0 <= k < |ss| && 0 <= l < |ss[k]| && LiveIn(types[k], ss[k][l], a, n);
      if k != i || l != j { assert ss[k][l] == slabs[k][l]; }
    }
  }

  /** A new cache in front of its list. */
  lemma CacheAdded(types: seq<SlabType>, slabs: seq<seq<Cache>>, i: nat, c: Cache, a: nat, n: nat)
    requires TypesOk(types) && |slabs| == |types| && i < |slabs|
    ensures InCaches(types, slabs[i := [c] + slabs[i]], a, n) <==> InCaches(types, slabs, a, n) || LiveIn(types[i], c, a, n)
  {
    hide LiveIn;
    var ss := slabs[i := [c] + slabs[i]];
    if LiveIn(types[i], c, a, n) { assert ss[i][0] == c; }
    if InCaches(types, slabs, a, n) {
      var k, l :| 0 <= k < |slabs| && 0 <= l < |slabs[k]| && LiveIn(types[k], slabs[k][l], a, n);
      assert ss[k][if k == i then l + 1 else l] == slabs[k][l];
    }
    if InCaches(types, ss, a, n) {
      var k, l :| 0 <= k < |ss| && 0 <= l < |ss[k]| && LiveIn(types[k], ss[k][l], a, n);
      if k == i && l > 0 { assert ss[k][l] == slabs[k][l - 1]; }
    }
  }

  /** A cache leaves its list. */
  lemma CacheRemoved(types: seq<SlabType>, slabs: seq<seq<Cache>>, i: nat, j: nat, a: nat, n: nat)
    requires TypesOk(types) && |slabs| == |types| && i < |slabs| && j < |slabs[i]| && !LiveIn(types[i], slabs[i][j], a, n)
    ensures InCaches(types, slabs[i := RemoveAt(slabs[i], j)], a, n) <==> InCaches(types, slabs, a, n)
  {
    RemovedIndex(slabs[i], j);
    hide LiveIn, RemoveAt;
    var ss: seq<seq<Cache>> := slabs[i := RemoveAt(slabs[i], j)];
    if InCaches(types, slabs, a, n) {
      var k, l :| 0 <= k < |slabs| && 0 <= l < |slabs[k]| && LiveIn(types[k], slabs[k][l], a, n);
      CacheStays(ss, slabs, types, k, if k == i && l > j then l - 1 else l, l, a, n);
    }
    if InCaches(types, ss, a, n) {
      var k, l :| 0 <= k < |ss| && 0 <= l < |ss[k]| && LiveIn(types[k], ss[k][l], a, n);
      CacheStays(slabs, ss, types, k, if k == i && l >= j then l + 1 else l, l, a, n);
    }
  }

  lemma CacheStays(ss: seq<seq<Cache>>, slabs: seq<seq<Cache>>, types: seq<SlabType>, k: nat, m: nat, l: nat, a: nat, n: nat)
    requires TypesOk(types) && |ss| == |slabs| == |types| && k < |types| && m < |ss[k]| && l < |slabs[k]|
    requires ss[k][m] == slabs[k][l] && LiveIn(types[k], slabs[k][l], a, n)
    ensures InCaches(types, ss, a, n)
  {
  }
}
