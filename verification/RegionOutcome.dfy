/** What an allocation and a release do to the sets of free and used regions, and
    what holds over every sequence of them. */
module RegionOutcome {
  import opened RegionLists
  import opened RegionSets
  import opened RegionState

  ghost function Spans(used: set<Info>): set<Region> {
    set i | i in used :: i.region
  }

  /** The smallest free region that is large enough. */
  ghost predicate Fits(free: set<Region>, n: nat, f: Region) {
    f in free && f.size >= n && forall g :: g in free && g.size >= n ==> f.size <= g.size
  }

  /** An allocation of `n` bytes: a best-fitting region is carved and the piece's
      address returned. Without a spare descriptor only an exact fit will do; 0
      comes back, and nothing changes, only when no best fit can be used. */
  ghost predicate Allocated(free: set<Region>, used: set<Info>, n: nat, typ: string, spare: bool,
                            p: nat, free': set<Region>, used': set<Info>) {
    if p == 0 then
      free' == free && used' == used && forall f :: Fits(free, n, f) ==> f.size > n && !spare
    else
      exists f :: Fits(free, n, f) && (f.size == n || spare) && p == Taken(f, n).addr
                  && free' == FreeAfter(free, f, n) && used' == used + {Info(Taken(f, n), typ)}
  }

  /** Where an allocation comes from: the front of a smallest region that is large
      enough, or, below 16 KiB, its end. Exactly its bytes stop being free. */
  lemma AllocatedWhere(free: set<Region>, used: set<Info>, n: nat, typ: string, spare: bool, p: nat, free': set<Region>, used': set<Info>)
    requires Allocated(free, used, n, typ, spare, p, free', used') && p != 0 && AllSeparate(free)
    ensures exists f :: f in free && f.size >= n && (forall g :: g in free && g.size >= n ==> f.size <= g.size)
              && p == (if n >= 0x4000 then f.addr else f.addr + f.size - n)
    ensures used' == used + {Info(Region(p, n), typ)}
    ensures forall x: nat :: Covered(x, free') <==> Covered(x, free) && !(p <= x < p + n)
  {
    var f :| Fits(free, n, f) && p == Taken(f, n).addr && free' == FreeAfter(free, f, n) && used' == used + {Info(Taken(f, n), typ)};
    assert Taken(f, n) == Region(p, n);
    forall x: nat ensures Covered(x, free') <==> Covered(x, free) && !(p <= x < p + n) {
      CarvedCovers(free, f, n, x);
    }
  }

  lemma CarvedCovers(free: set<Region>, f: Region, n: nat, x: nat)
    requires AllSeparate(free) && f in free && n <= f.size
    ensures Covered(x, FreeAfter(free, f, n)) <==> Covered(x, free) && !Contains(Taken(f, n), x)
  {
    var free' := FreeAfter(free, f, n);
    if Covered(x, free') {
      var r :| r in free' && Contains(r, x);
      if r in free && r != f { assert Separate(r, f); } else { assert Contains(f, x); }
    }
    if Covered(x, free) && !Contains(Taken(f, n), x) {
      var r :| r in free && Contains(r, x);
      if r != f { assert r in free'; } else { assert Rest(f, n) in free' && Contains(Rest(f, n), x); }
    }
  }

  /** When 0 comes back: with a spare descriptor only if every free region is smaller,
      without one exactly if none has the very size. */
  lemma NoneFits(free: set<Region>, used: set<Info>, n: nat, typ: string, spare: bool, p: nat, free': set<Region>, used': set<Info>)
    requires Allocated(free, used, n, typ, spare, p, free', used')
    ensures spare ==> (p == 0 <==> forall f :: f in free ==> f.size < n)
    ensures !spare ==> (p == 0 <==> forall f :: f in free ==> f.size != n)
    ensures p == 0 ==> free' == free && used' == used
  {
    if p == 0 {
      if f :| f in free && f.size == n { assert Fits(free, n, f); }
      var large := set f | f in free && f.size >= n;
      if large != {} {
        var f := Smallest(large);
        assert forall g :: g in free && g.size >= n ==> g in large;
        assert Fits(free, n, f);
      }
      assert forall f :: f in free && f.size >= n ==> f in large;
    }
  }

  lemma {:induction false} Smallest(s: set<Region>) returns (f: Region)
    requires s != {}
    ensures f in s && forall g :: g in s ==> f.size <= g.size
  {
    f :| f in s;
    if s != {f} {
      var g := Smallest(s - {f});
      if g.size < f.size { f := g; }
    }
  }

  ghost predicate Owned(used: set<Info>, p: nat) {
    exists i :: i in used && Contains(i.region, p)
  }

  /** The region holding `p`, if any, leaves the used ones and joins the free ones. */
  ghost predicate Released(free: set<Region>, used: set<Info>, p: nat, free': set<Region>, used': set<Info>) {
    if Owned(used, p) then
      exists i :: i in used && Contains(i.region, p) && Joined(free, i.region, free') && used' == used - {i}
    else
      free' == free && used' == used
  }

  /** A used region is listed once. */
  ghost predicate OneInfo(used: set<Info>) {
    forall i, j :: i in used && j in used && i.region == j.region ==> i == j
  }

  ghost predicate Tiled(free: set<Region>, used: set<Info>, begin: nat, end: nat) {
    Partition(free, Spans(used), begin, end) && OneInfo(used)
  }

  // ----- one step -----

  lemma AllocatedKeeps(free: set<Region>, used: set<Info>, begin: nat, end: nat, n: nat, typ: string, spare: bool,
                       p: nat, free': set<Region>, used': set<Info>)
    requires Tiled(free, used, begin, end) && n > 0 && PageAligned(n) && Allocated(free, used, n, typ, spare, p, free', used')
    ensures Tiled(free', used', begin, end)
  {
    hide Partition;
    if p != 0 {
      var f :| Fits(free, n, f) && free' == FreeAfter(free, f, n) && used' == used + {Info(Taken(f, n), typ)};
      AllocKeeps(free, Spans(used), begin, end, f, n);
      assert Spans(used') == Spans(used) + {Taken(f, n)};
      TakenIsNew(free, Spans(used), begin, end, f, n);
    }
  }

  lemma TakenIsNew(free: set<Region>, used: set<Region>, begin: nat, end: nat, f: Region, n: nat)
    requires Partition(free, used, begin, end) && f in free && 0 < n <= f.size
    ensures forall u :: u in used ==> Apart(u, Taken(f, n)) && u != Taken(f, n)
  {
    forall u | u in used ensures Apart(u, Taken(f, n)) && u != Taken(f, n) { assert Apart(f, u); }
  }

  lemma ReleasedKeeps(free: set<Region>, used: set<Info>, begin: nat, end: nat, p: nat, free': set<Region>, used': set<Info>)
    requires Tiled(free, used, begin, end) && Released(free, used, p, free', used')
    ensures Tiled(free', used', begin, end)
  {
    hide Partition, Joined;
    if Owned(used, p) {
      var i :| i in used && Contains(i.region, p) && Joined(free, i.region, free') && used' == used - {i};
      FreeKeeps(free, Spans(used), begin, end, i.region, free');
      assert Spans(used') == Spans(used) - {i.region};
    }
  }

  /** What one allocation hands out, the release of that address takes back: free
      and used regions are exactly what they were. */
  lemma AllocThenFree(free: set<Region>, used: set<Info>, begin: nat, end: nat, n: nat, typ: string, spare: bool,
                      p: nat, free1: set<Region>, used1: set<Info>, free2: set<Region>, used2: set<Info>)
    requires Tiled(free, used, begin, end) && n > 0 && p != 0 && Allocated(free, used, n, typ, spare, p, free1, used1)
    requires Released(free1, used1, p, free2, used2)
    ensures free2 == free && used2 == used
  {
    hide Partition, Joined;
    var f :| Fits(free, n, f) && p == Taken(f, n).addr && free1 == FreeAfter(free, f, n) && used1 == used + {Info(Taken(f, n), typ)};
    var t := Info(Taken(f, n), typ);
    assert t in used1 && Contains(t.region, p);
    TakenIsNew(free, Spans(used), begin, end, f, n);
    var i :| i in used1 && Contains(i.region, p) && Joined(free1, i.region, free2) && used2 == used1 - {i};
    assert forall j :: j in used ==> j.region in Spans(used);
    assert forall j :: j in used ==> Apart(j.region, t.region) && j.region != t.region;
    assert i == t;
    RoundTrip(free, Spans(used), begin, end, f, n, free2);
  }

  // ----- whole runs -----

  datatype Call = Alloc(n: nat, typ: string, spare: bool, result: nat) | Release(p: nat)

  datatype Sets = Sets(free: set<Region>, used: set<Info>)

  ghost predicate Step(s: Sets, c: Call, s': Sets) {
    match c
    case Alloc(n, typ, spare, p) => n > 0 && PageAligned(n) && Allocated(s.free, s.used, n, typ, spare, p, s'.free, s'.used)
    case Release(p) => Released(s.free, s.used, p, s'.free, s'.used)
  }

  ghost predicate Run(states: seq<Sets>, calls: seq<Call>) {
    |states| == |calls| + 1 && forall k :: 0 <= k < |calls| ==> Step(states[k], calls[k], states[k + 1])
  }

  /** Over any run of allocations and releases, used and free regions tile
      `[begin, end)`, and free regions never touch. */
  lemma {:induction false} RunTiled(states: seq<Sets>, calls: seq<Call>, begin: nat, end: nat, k: nat)
    requires Run(states, calls) && Tiled(states[0].free, states[0].used, begin, end) && k < |states|
    ensures Tiled(states[k].free, states[k].used, begin, end)
  {
    hide Tiled, Allocated, Released;
    if k > 0 {
      RunTiled(states, calls, begin, end, k - 1);
      assert Step(states[k - 1], calls[k - 1], states[k]);
      match calls[k - 1] {
        case Alloc(n, typ, spare, p) =>
          AllocatedKeeps(states[k - 1].free, states[k - 1].used, begin, end, n, typ, spare, p, states[k].free, states[k].used);
        case Release(p) =>
          ReleasedKeeps(states[k - 1].free, states[k - 1].used, begin, end, p, states[k].free, states[k].used);
      }
    }
  }

  // ----- where the descriptors live -----

  /** A descriptor lies in no free region, and in no used one except those set
      aside for descriptors. */
  ghost predicate Housed(d: Desc, free: set<Region>, used: set<Region>, homes: set<Region>) {
    forall r :: (r in free || r in used) && Contains(r, d) ==> r in homes
  }

  lemma HousedTaken(d: Desc, free: set<Region>, used: set<Region>, homes: set<Region>, begin: nat, end: nat, f: Region, n: nat)
    requires Partition(free, used, begin, end) && homes <= used && f in free && 0 < n <= f.size && Housed(d, free, used, homes)
    ensures Housed(d, FreeAfter(free, f, n), used + {Taken(f, n)}, homes)
    ensures !Contains(Taken(f, n), d)
  {
    NotInFree(d, free, used, homes, begin, end);
    assert !Contains(f, d);
  }

  lemma NotInFree(d: Desc, free: set<Region>, used: set<Region>, homes: set<Region>, begin: nat, end: nat)
    requires Partition(free, used, begin, end) && homes <= used && Housed(d, free, used, homes)
    ensures !Covered(d, free)
  {
    forall r | r in free ensures !Contains(r, d) {
      assert Clear(r, used) && r.size > 0;
      assert r !in used;
    }
  }

  lemma HousedReleased(d: Desc, free: set<Region>, used: set<Region>, homes: set<Region>, begin: nat, end: nat, u: Region, free': set<Region>)
    requires Partition(free, used, begin, end) && homes <= used && Housed(d, free, used, homes)
    requires u in used && u !in homes && Joined(free, u, free')
    ensures Housed(d, free', used - {u}, homes)
  {
    NotInFree(d, free, used, homes, begin, end);
    var lo: nat, hi: nat :| JoinedAs(free, u, free', lo, hi);
    assert !Contains(u, d);
    assert lo < u.addr ==> !Contains(Region(lo, u.addr - lo), d);
    assert End(u) < hi ==> !Contains(Region(End(u), hi - End(u)), d);
    assert !Contains(Region(lo, hi - lo), d);
    forall r | r in free' ensures !Contains(r, d) {
      JoinedMember(free, u, free', lo, hi, r);
    }
  }

  /** A page of fresh descriptors becomes one of their homes. */
  lemma HousedPage(d: Desc, free: set<Region>, used: set<Region>, homes: set<Region>, begin: nat, end: nat, page: Region)
    requires Partition(free, used, begin, end) && page in used && (Contains(page, d) || Housed(d, free, used, homes))
    ensures Housed(d, free, used, homes + {page})
  {
    if Contains(page, d) {
      forall r | (r in free || r in used) && Contains(r, d) ensures r == page {
        assert Clear(page, free - {page}) by { forall q | q in free ensures Apart(page, q) { assert Apart(q, page); } }
        assert AllApart(used);
      }
    }
  }

  /** A region that touches nothing joins nothing. */
  lemma JoinNothing(free: set<Region>, r: Region, free': set<Region>)
    requires Joined(free, r, free') && NoneEndsAt(free, r.addr) && NoneStartsAt(free, End(r)) && r.size > 0
    requires forall f :: f in free ==> f.size > 0
    ensures free' == free + {r}
  {
    var lo: nat, hi: nat :| JoinedAs(free, r, free', lo, hi);
    assert forall f :: f in free ==> End(f) != r.addr;
    assert lo == r.addr && hi == End(r);
  }

  /** What is left of a carved region touches no other free one. */
  lemma RestAlone(free: set<Region>, f: Region, n: nat)
    requires AllSeparate(free) && f in free && 0 < n < f.size && forall g :: g in free ==> g.size > 0
    ensures Clear(Rest(f, n), free - {f})
    ensures NoneEndsAt(free - {f}, Rest(f, n).addr) && NoneStartsAt(free - {f}, End(Rest(f, n)))
    ensures forall free' :: Joined(free - {f}, Rest(f, n), free') ==> free' == FreeAfter(free, f, n)
  {
    forall g | g in free && g != f ensures Separate(f, g) {}
    forall free' | Joined(free - {f}, Rest(f, n), free') ensures free' == FreeAfter(free, f, n) {
      JoinNothing(free - {f}, Rest(f, n), free');
    }
  }

  // ----- the allocator's invariant -----

  ghost predicate ListsOk(byAddr: seq<Desc>, bySize: seq<Desc>, used: seq<Desc>, unused: seq<Desc>,
                          addr: map<Desc, nat>, size: map<Desc, nat>, typ: map<Desc, string>, bigger: map<Desc, Link>) {
    && FreeOk(byAddr, bySize, addr, size, bigger) && UsedOk(used, addr, size, typ) && RolesOk(byAddr, used, unused)
  }

  ghost predicate HomesOk(byAddr: seq<Desc>, used: seq<Desc>, unused: seq<Desc>, free: set<Region>, taken: set<Region>, homes: set<Region>) {
    && homes <= taken
    && forall d :: d in byAddr || d in used || d in unused ==> Housed(d, free, taken, homes)
  }

  lemma UsedSpans(used: seq<Desc>, addr: map<Desc, nat>, size: map<Desc, nat>, typ: map<Desc, string>)
    requires UsedOk(used, addr, size, typ)
    ensures Spans(Infos(used, addr, size, typ)) == Regions(used, addr, size)
    ensures OneInfo(Infos(used, addr, size, typ))
  {
    var infos := Infos(used, addr, size, typ);
    assert forall d :: d in used ==> Info(Region(addr[d], size[d]), typ[d]) in infos;
    forall i, j | i in infos && j in infos && i.region == j.region ensures i == j {
      var d :| d in used && i == Info(Region(addr[d], size[d]), typ[d]);
      var e :| e in used && j == Info(Region(addr[e], size[e]), typ[e]);
      assert d == e;
    }
  }

  /** The descriptor first reached along the skip links describes a best fit. */
  lemma FirstFitFits(byAddr: seq<Desc>, bySize: seq<Desc>, addr: map<Desc, nat>, size: map<Desc, nat>, bigger: map<Desc, Link>, n: nat)
    requires FreeOk(byAddr, bySize, addr, size, bigger) && Known(bySize, size)
    ensures var l := At(bySize, FirstFit(bySize, size, n, 0)); if l.Null? then forall f :: f in Regions(byAddr, addr, size) ==> f.size < n
            else l.desc in byAddr && l.desc in addr && l.desc in size && Fits(Regions(byAddr, addr, size), n, Region(addr[l.desc], size[l.desc]))
  {
    hide SkipsOk, FreeSorted, NoDup;
    var j := FirstFit(bySize, size, n, 0);
    forall d | d in byAddr ensures d in size && (size[d] < n || (j < |bySize| && size[bySize[j]] <= size[d])) {
      var k :| 0 <= k < |bySize| && bySize[k] == d;
    }
    if j < |bySize| { assert bySize[j] in byAddr; }
  }

  lemma InfoOf(used: seq<Desc>, addr: map<Desc, nat>, size: map<Desc, nat>, typ: map<Desc, string>)
    requires UsedOk(used, addr, size, typ)
    ensures forall d :: d in used ==> d in addr && d in size && d in typ && Info(Region(addr[d], size[d]), typ[d]) in Infos(used, addr, size, typ)
    ensures forall i :: i in Infos(used, addr, size, typ) ==> i.region in Regions(used, addr, size)
  {
  }

  lemma UsedClear(free: set<Region>, used: set<Region>, begin: nat, end: nat, u: Region)
    requires Partition(free, used, begin, end) && u in used
    ensures Clear(u, free) && u.size > 0
  {
    forall f | f in free ensures Apart(u, f) { assert Apart(f, u); }
  }

  lemma HomesReleased(byAddr: seq<Desc>, used: seq<Desc>, unused: seq<Desc>, free: set<Region>, taken: set<Region>, homes: set<Region>,
                      begin: nat, end: nat, u: Region, free': set<Region>,
                      byAddr': seq<Desc>, used': seq<Desc>, unused': seq<Desc>)
    requires HomesOk(byAddr, used, unused, free, taken, homes) && Partition(free, taken, begin, end)
    requires u in taken && u !in homes && Joined(free, u, free')
    requires forall d :: d in byAddr' || d in used' || d in unused' ==> d in byAddr || d in used || d in unused
    ensures HomesOk(byAddr', used', unused', free', taken - {u}, homes)
  {
    hide Partition, Joined, Housed;
    forall d | d in byAddr' || d in used' || d in unused' ensures Housed(d, free', taken - {u}, homes) {
      HousedReleased(d, free, taken, homes, begin, end, u, free');
    }
  }

  lemma HomesTaken(byAddr: seq<Desc>, used: seq<Desc>, unused: seq<Desc>, free: set<Region>, taken: set<Region>, homes: set<Region>,
                   begin: nat, end: nat, f: Region, n: nat,
                   byAddr': seq<Desc>, used': seq<Desc>, unused': seq<Desc>)
    requires HomesOk(byAddr, used, unused, free, taken, homes) && Partition(free, taken, begin, end)
    requires f in free && 0 < n <= f.size
    requires forall d :: d in byAddr' || d in used' || d in unused' ==> d in byAddr || d in used || d in unused
    ensures HomesOk(byAddr', used', unused', FreeAfter(free, f, n), taken + {Taken(f, n)}, homes)
  {
    hide Partition, Housed, Taken, FreeAfter;
    forall d | d in byAddr' || d in used' || d in unused' ensures Housed(d, FreeAfter(free, f, n), taken + {Taken(f, n)}, homes) {
      HousedTaken(d, free, taken, homes, begin, end, f, n);
    }
  }

  lemma FitHere(l: seq<Desc>, size: map<Desc, nat>, n: nat, j: nat)
    requires j <= |l| && Known(l, size) && (j < |l| ==> size[l[j]] >= n)
    ensures FirstFit(l, size, n, j) == j
  {
  }

  lemma RestSize(f: Region, n: nat)
    requires 0 < n < f.size
    ensures Rest(f, n).size > 0
  {
  }

  lemma SameBySize(byAddr: seq<Desc>, bySize: seq<Desc>, size: map<Desc, nat>, size': map<Desc, nat>)
    requires SameElems(byAddr, bySize) && SameOn(byAddr, size, size')
    ensures SameSizes(bySize, size, size')
  {
    forall i | 0 <= i < |bySize| ensures bySize[i] in byAddr { assert bySize[i] in bySize; }
  }

  ghost function AllDescs(byAddr: seq<Desc>, used: seq<Desc>, unused: seq<Desc>): set<Desc> {
    (set d | d in byAddr) + (set d | d in used) + (set d | d in unused)
  }

  lemma SameDescs(byAddr: seq<Desc>, used: seq<Desc>, unused: seq<Desc>, byAddr': seq<Desc>, used': seq<Desc>, unused': seq<Desc>)
    requires forall e :: e in byAddr' || e in used' || e in unused' <==> e in byAddr || e in used || e in unused
    ensures AllDescs(byAddr', used', unused') == AllDescs(byAddr, used, unused)
  {
  }

  /** Best fits all have the same size. */
  lemma OnlyBestFits(free: set<Region>, n: nat, f: Region)
    requires Fits(free, n, f)
    ensures forall g :: Fits(free, n, g) ==> g.size == f.size
  {
  }

  lemma TakenPositive(free: set<Region>, used: set<Region>, begin: nat, end: nat, f: Region, n: nat)
    requires Partition(free, used, begin, end) && f in free && 0 < n <= f.size && begin > 0
    ensures Taken(f, n).addr > 0 && Taken(f, n).size == n
  {
  }

  lemma TakenNotHome(byAddr: seq<Desc>, used: seq<Desc>, unused: seq<Desc>, free: set<Region>, taken: set<Region>, homes: set<Region>,
                     begin: nat, end: nat, f: Region, n: nat)
    requires HomesOk(byAddr, used, unused, free, taken, homes) && Partition(free, taken, begin, end) && f in free && 0 < n <= f.size
    ensures forall d :: d in AllDescs(byAddr, used, unused) ==> !Contains(Taken(f, n), d)
  {
    hide Partition, Housed, Taken;
    forall d | d in AllDescs(byAddr, used, unused) ensures !Contains(Taken(f, n), d) {
      HousedTaken(d, free, taken, homes, begin, end, f, n);
    }
  }

  // ----- a page of fresh descriptors -----

  /** The first `k` descriptors of the page at `q`, of 20 bytes each. */
  ghost function PageDescs(q: nat, k: nat): set<Desc> {
    set j | 0 <= j < k :: q + 20 * j
  }

  lemma PageStep(q: nat, k: nat)
    ensures PageDescs(q, k + 1) == PageDescs(q, k) + {q + 20 * k} && q + 20 * k !in PageDescs(q, k)
    ensures 20 * k + 20 <= PAGE_SIZE ==> Contains(Region(q, PAGE_SIZE), q + 20 * k)
  {
  }

  lemma PageIn(q: nat)
    ensures forall d :: d in PageDescs(q, 204) ==> Contains(Region(q, PAGE_SIZE), d)
  {
  }

  lemma DescsSplit(byAddr: seq<Desc>, used: seq<Desc>, unused: seq<Desc>, page: Region)
    requires forall d :: d in AllDescs(byAddr, used, unused) ==> !Contains(page, d)
    ensures forall d :: d in byAddr || d in used || d in unused ==> !Contains(page, d)
  {
    forall d | d in byAddr || d in used || d in unused ensures d in AllDescs(byAddr, used, unused) {}
  }

  lemma HomesPage(byAddr: seq<Desc>, used: seq<Desc>, unused: seq<Desc>, unused': seq<Desc>, free: set<Region>, taken: set<Region>,
                  homes: set<Region>, begin: nat, end: nat, page: Region, added: set<Desc>)
    requires HomesOk(byAddr, used, unused, free, taken, homes) && Partition(free, taken, begin, end) && page in taken
    requires forall d :: d in unused' <==> d in unused || d in added
    requires forall d :: d in added ==> Contains(page, d)
    ensures HomesOk(byAddr, used, unused', free, taken, homes + {page})
    ensures AllDescs(byAddr, used, unused') == AllDescs(byAddr, used, unused) + added
  {
    hide Partition, Housed, Contains;
    forall d | d in byAddr || d in used || d in unused' ensures Housed(d, free, taken, homes + {page}) {
      HousedPage(d, free, taken, homes, begin, end, page);
    }
  }

  /** Any free region has room for a page. */
  lemma PageFits(byAddr: seq<Desc>, bySize: seq<Desc>, used: seq<Desc>, unused: seq<Desc>,
                 addr: map<Desc, nat>, size: map<Desc, nat>, typ: map<Desc, string>, bigger: map<Desc, Link>, begin: nat, end: nat)
    requires ListsOk(byAddr, bySize, used, unused, addr, size, typ, bigger) && byAddr != []
    requires Partition(Regions(byAddr, addr, size), Regions(used, addr, size), begin, end)
    ensures exists f :: Fits(Regions(byAddr, addr, size), PAGE_SIZE, f)
  {
    hide SizeListOk, FreeOk, UsedOk, RolesOk, Regions;
    FreeFacts(byAddr, bySize, addr, size, bigger);
    SizeListFacts(bySize, size, bigger);
    FirstFitFits(byAddr, bySize, addr, size, bigger, PAGE_SIZE);
    var d := byAddr[0];
    var r := Region(addr[d], size[d]);
    assert r in Regions(byAddr, addr, size) && Sound(r, begin, end);
    assert r.size >= PAGE_SIZE;
  }

  /** So a page of descriptors is always found. */
  lemma PageFound(free: set<Region>, used: set<Info>, q: nat, free': set<Region>, used': set<Info>)
    requires Allocated(free, used, PAGE_SIZE, "Region descriptors", true, q, free', used')
    requires exists f :: Fits(free, PAGE_SIZE, f)
    ensures q != 0
  {
    var f :| Fits(free, PAGE_SIZE, f);
    assert q == 0 ==> !true;
  }

  /** An allocation after the pool of descriptors was refilled from the page at `q`. */
  ghost predicate Refilled(free: set<Region>, used: set<Info>, q: nat, n: nat, typ: string, p: nat, free': set<Region>, used': set<Info>) {
    exists free1, used1 ::
      q != 0 && Allocated(free, used, PAGE_SIZE, "Region descriptors", true, q, free1, used1) && Allocated(free1, used1, n, typ, true, p, free', used')
  }

  lemma RefilledAs(free: set<Region>, used: set<Info>, q: nat, free1: set<Region>, used1: set<Info>, n: nat, typ: string,
                   p: nat, free': set<Region>, used': set<Info>)
    requires q != 0 && Allocated(free, used, PAGE_SIZE, "Region descriptors", true, q, free1, used1)
    requires Allocated(free1, used1, n, typ, true, p, free', used')
    ensures Refilled(free, used, q, n, typ, p, free', used')
  {
  }

  lemma HomesIn(byAddr: seq<Desc>, used: seq<Desc>, unused: seq<Desc>, free: set<Region>, taken: set<Region>, homes: set<Region>)
    requires HomesOk(byAddr, used, unused, free, taken, homes)
    ensures homes <= taken
  {
  }

  lemma NotHome(homes: set<Region>, taken: set<Region>, q: nat)
    requires homes <= taken && forall u :: u in taken ==> Apart(u, Region(q, PAGE_SIZE))
    ensures forall h :: h in homes ==> !Contains(h, q)
  {
  }

  lemma ListsTiled(byAddr: seq<Desc>, bySize: seq<Desc>, used: seq<Desc>, unused: seq<Desc>,
                   addr: map<Desc, nat>, size: map<Desc, nat>, typ: map<Desc, string>, bigger: map<Desc, Link>, begin: nat, end: nat)
    requires ListsOk(byAddr, bySize, used, unused, addr, size, typ, bigger)
    requires Partition(Regions(byAddr, addr, size), Regions(used, addr, size), begin, end)
    ensures Tiled(Regions(byAddr, addr, size), Infos(used, addr, size, typ), begin, end)
  {
    hide FreeOk, UsedOk, Partition, Regions, Infos;
    UsedSpans(used, addr, size, typ);
  }

  /** Equal free and used sets take equally many descriptors. */
  lemma Counts(byAddr: seq<Desc>, bySize: seq<Desc>, used: seq<Desc>, unused: seq<Desc>,
               addr: map<Desc, nat>, size: map<Desc, nat>, typ: map<Desc, string>, bigger: map<Desc, Link>)
    requires ListsOk(byAddr, bySize, used, unused, addr, size, typ, bigger)
    ensures |byAddr| == |Regions(byAddr, addr, size)| && |used| == |Spans(Infos(used, addr, size, typ))|
  {
    hide Regions, Infos, SizeListOk, Spans;
    FreeIsUsedSorted(byAddr, addr, size);
    RegionCount(byAddr, addr, size);
    RegionCount(used, addr, size);
    UsedSpans(used, addr, size, typ);
  }

  lemma EmptyLists(addr: map<Desc, nat>, size: map<Desc, nat>, typ: map<Desc, string>, bigger: map<Desc, Link>)
    ensures FreeOk([], [], addr, size, bigger) && UsedOk([], addr, size, typ)
    ensures Regions([], addr, size) == {} && Infos([], addr, size, typ) == {}
  {
  }

  lemma OneUsed(d: Desc, addr: map<Desc, nat>, size: map<Desc, nat>, typ: map<Desc, string>)
    requires d in addr && d in size && d in typ && size[d] > 0
    ensures UsedOk([d], addr, size, typ)
    ensures Regions([d], addr, size) == {Region(addr[d], size[d])} && Infos([d], addr, size, typ) == {Info(Region(addr[d], size[d]), typ[d])}
  {
    assert forall e :: e in [d] <==> e == d;
  }

  /** What lies below the free region at the start. */
  function Reserved(lo: nat, rsvdEnd: nat): set<Region>
    requires lo <= rsvdEnd
  {
    if lo < rsvdEnd then {Region(lo, rsvdEnd - lo)} else {}
  }

  function ReservedInfos(lo: nat, rsvdEnd: nat): set<Info>
    requires lo <= rsvdEnd
  {
    set r | r in Reserved(lo, rsvdEnd) :: Info(r, "Reserved")
  }

  ghost function Elems(l: seq<Desc>): set<Desc> {
    set d | d in l
  }

  lemma FirstPartition(lo: nat, rsvdEnd: nat, hi: nat, free: set<Region>, taken: set<Region>)
    requires lo <= rsvdEnd < hi && PageAligned(lo) && PageAligned(rsvdEnd) && PageAligned(hi)
    requires free == {Region(rsvdEnd, hi - rsvdEnd)} && taken == Reserved(lo, rsvdEnd)
    ensures Partition(free, taken, lo, hi)
  {
    var f, u := Region(rsvdEnd, hi - rsvdEnd), Region(lo, rsvdEnd - lo);
    forall p | lo <= p < hi ensures Covered(p, free) || Covered(p, taken) {
      if p >= rsvdEnd { assert Contains(f, p); } else { assert Contains(u, p) && u in taken; }
    }
  }

  lemma FirstHomes(byAddr: seq<Desc>, used: seq<Desc>, unused: seq<Desc>, base: seq<Desc>, lo: nat, rsvdEnd: nat, hi: nat,
                   free: set<Region>, taken: set<Region>)
    requires lo <= rsvdEnd < hi && free == {Region(rsvdEnd, hi - rsvdEnd)}
    requires forall d :: d in byAddr || d in used || d in unused <==> d in base
    requires forall d :: d in base ==> !(rsvdEnd <= d < hi)
    ensures HomesOk(byAddr, used, unused, free, taken, taken)
    ensures AllDescs(byAddr, used, unused) == Elems(base)
  {
  }
}
