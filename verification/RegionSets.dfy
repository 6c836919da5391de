/** Free and used regions as sets of intervals: the partition they form, and what
    carving a region out and giving it back do to it. */
module RegionSets {

  datatype Region = Region(addr: nat, size: nat)

  const PAGE_SIZE := 0x1000

  predicate PageAligned(x: nat) {
    x % PAGE_SIZE == 0
  }

  function PageAlignUp(x: nat): nat {
    if PageAligned(x) then x else x - x % PAGE_SIZE + PAGE_SIZE
  }

  lemma AlignUp(x: nat)
    ensures PageAligned(PageAlignUp(x)) && PageAlignUp(x) % 0x1000 == 0 && x <= PageAlignUp(x) < x + 0x1000
  {
  }

  function End(r: Region): nat {
    r.addr + r.size
  }

  predicate Contains(r: Region, p: nat) {
    r.addr <= p < End(r)
  }

  predicate Apart(r: Region, q: Region) {
    End(r) <= q.addr || End(q) <= r.addr
  }

  /** Apart, and not even touching. */
  predicate Separate(r: Region, q: Region) {
    End(r) < q.addr || End(q) < r.addr
  }

  predicate Sound(r: Region, begin: nat, end: nat) {
    PageAligned(r.addr) && PageAligned(r.size) && r.size > 0 && begin <= r.addr && End(r) <= end
  }

  ghost predicate AllSeparate(free: set<Region>) {
    forall r, q :: r in free && q in free && r != q ==> Separate(r, q)
  }

  ghost predicate AllApart(used: set<Region>) {
    forall r, q :: r in used && q in used && r != q ==> Apart(r, q)
  }

  ghost predicate Clear(r: Region, s: set<Region>) {
    forall q :: q in s ==> Apart(r, q)
  }

  ghost predicate Covered(p: nat, s: set<Region>) {
    exists r :: r in s && Contains(r, p)
  }

  /** Free and used regions tile `[begin, end)`, and no two free ones touch. */
  ghost predicate Partition(free: set<Region>, used: set<Region>, begin: nat, end: nat) {
    && (forall r :: r in free || r in used ==> Sound(r, begin, end))
    && AllSeparate(free) && AllApart(used)
    && (forall r :: r in free ==> Clear(r, used))
    && (forall p :: begin <= p < end ==> Covered(p, free) || Covered(p, used))
  }

  // ----- giving a region back -----

  ghost predicate NoneEndsAt(free: set<Region>, p: nat) {
    forall f :: f in free ==> End(f) != p
  }

  ghost predicate NoneStartsAt(free: set<Region>, p: nat) {
    forall f :: f in free ==> f.addr != p
  }

  /** `free'` is `free` with `r` merged with the free regions it touches, if any;
      the merged region is `[lo, hi)`. */
  ghost predicate JoinedAs(free: set<Region>, r: Region, free': set<Region>, lo: nat, hi: nat) {
    && lo <= r.addr && End(r) <= hi
    && (if lo == r.addr then NoneEndsAt(free, r.addr) else Region(lo, r.addr - lo) in free)
    && (if hi == End(r) then NoneStartsAt(free, End(r)) else Region(End(r), hi - End(r)) in free)
    && free' == free - {Region(lo, r.addr - lo), Region(End(r), hi - End(r))} + {Region(lo, hi - lo)}
  }

  ghost predicate Joined(free: set<Region>, r: Region, free': set<Region>) {
    exists lo: nat, hi: nat :: JoinedAs(free, r, free', lo, hi)
  }

  /** A region that touches nothing is just added. */
  lemma JoinAlone(free: set<Region>, r: Region)
    requires r.size > 0 && (forall f :: f in free ==> f.size > 0)
    requires NoneEndsAt(free, r.addr) && NoneStartsAt(free, End(r))
    ensures Joined(free, r, free + {r})
  {
    assert JoinedAs(free, r, free + {r}, r.addr, End(r));
  }

  /** Merging with the free region before first. */
  lemma JoinPrev(free: set<Region>, p: Region, r: Region, free': set<Region>)
    requires AllSeparate(free) && p in free && End(p) == r.addr && r.size > 0 && (forall f :: f in free ==> f.size > 0)
    requires Joined(free - {p}, Region(p.addr, p.size + r.size), free')
    ensures Joined(free, r, free')
  {
    var m := Region(p.addr, p.size + r.size);
    var lo: nat, hi: nat :| JoinedAs(free - {p}, m, free', lo, hi);
    assert forall f :: f in free && f != p ==> Separate(f, p);
    assert lo == p.addr;
    assert free - {p} - {Region(lo, m.addr - lo), Region(End(m), hi - End(m))}
        == free - {Region(lo, r.addr - lo), Region(End(r), hi - End(r))};
    if hi == End(r) {
      forall f | f in free ensures f.addr != End(r) { if f == p {} }
    }
    assert JoinedAs(free, r, free', lo, hi);
  }

  /** Merging with the free region after first. */
  lemma JoinNext(free: set<Region>, q: Region, r: Region, free': set<Region>)
    requires AllSeparate(free) && q in free && q.addr == End(r) && r.size > 0 && (forall f :: f in free ==> f.size > 0)
    requires Joined(free - {q}, Region(r.addr, r.size + q.size), free')
    ensures Joined(free, r, free')
  {
    var m := Region(r.addr, r.size + q.size);
    var lo: nat, hi: nat :| JoinedAs(free - {q}, m, free', lo, hi);
    assert forall f :: f in free && f != q ==> Separate(q, f);
    assert hi == End(q);
    assert free - {q} - {Region(lo, m.addr - lo), Region(End(m), hi - End(m))}
        == free - {Region(lo, r.addr - lo), Region(End(r), hi - End(r))};
    if lo == r.addr {
      forall f | f in free ensures End(f) != r.addr { if f == q {} }
    }
    assert JoinedAs(free, r, free', lo, hi);
  }

  lemma JoinCovers(free: set<Region>, r: Region, free': set<Region>, p: nat)
    requires Joined(free, r, free')
    ensures Covered(p, free) || Contains(r, p) ==> Covered(p, free')
  {
    var lo: nat, hi: nat :| JoinedAs(free, r, free', lo, hi);
    var m := Region(lo, hi - lo);
    assert m in free';
    if Covered(p, free) {
      var f :| f in free && Contains(f, p);
      if f in free' { } else { assert Contains(m, p); }
    } else if Contains(r, p) {
      assert Contains(m, p);
    }
  }

  /** The merged region lies within what was free, or `r`. */
  lemma JoinedMember(free: set<Region>, r: Region, free': set<Region>, lo: nat, hi: nat, f: Region)
    requires JoinedAs(free, r, free', lo, hi) && f in free'
    ensures f in free || f == Region(lo, hi - lo)
  {
  }

  lemma JoinSeparate(free: set<Region>, r: Region, free': set<Region>)
    requires AllSeparate(free) && Clear(r, free) && Joined(free, r, free') && r.size > 0
    requires forall f :: f in free ==> f.size > 0
    ensures AllSeparate(free')
  {
    var lo: nat, hi: nat :| JoinedAs(free, r, free', lo, hi);
    var m, a, b := Region(lo, hi - lo), Region(lo, r.addr - lo), Region(End(r), hi - End(r));
    forall f | f in free && f != a && f != b ensures f == m || Separate(f, m) {
      assert Apart(r, f);
      if lo != r.addr { assert Separate(a, f); }
      if hi != End(r) { assert Separate(b, f); }
    }
    forall f, g | f in free' && g in free' && f != g ensures Separate(f, g) {
      JoinedMember(free, r, free', lo, hi, f);
      JoinedMember(free, r, free', lo, hi, g);
    }
  }

  lemma JoinSound(free: set<Region>, r: Region, free': set<Region>, used: set<Region>, begin: nat, end: nat)
    requires Joined(free, r, free') && Sound(r, begin, end) && Clear(r, used)
    requires forall f :: f in free ==> Sound(f, begin, end) && Clear(f, used)
    requires forall u :: u in used ==> u.size > 0
    ensures forall f :: f in free' ==> Sound(f, begin, end) && Clear(f, used)
  {
    var lo: nat, hi: nat :| JoinedAs(free, r, free', lo, hi);
    var m := Region(lo, hi - lo);
    assert Sound(m, begin, end);
    forall u | u in used ensures Apart(m, u) {
      assert Apart(r, u);
      if lo != r.addr { assert Apart(Region(lo, r.addr - lo), u); }
      if hi != End(r) { assert Apart(Region(End(r), hi - End(r)), u); }
    }
    forall f | f in free' ensures Sound(f, begin, end) && Clear(f, used) {
      JoinedMember(free, r, free', lo, hi, f);
    }
  }

  /** Freeing a used region keeps the tiling, and no two free regions touch. */
  lemma FreeKeeps(free: set<Region>, used: set<Region>, begin: nat, end: nat, u: Region, free': set<Region>)
    requires Partition(free, used, begin, end) && u in used && Joined(free, u, free')
    ensures Partition(free', used - {u}, begin, end)
  {
    forall f | f in free ensures Apart(u, f) { assert Apart(f, u); }
    JoinSeparate(free, u, free');
    JoinSound(free, u, free', used - {u}, begin, end);
    forall p | begin <= p < end ensures Covered(p, free') || Covered(p, used - {u}) {
      JoinCovers(free, u, free', p);
      if Covered(p, used) && !Contains(u, p) {
        var r :| r in used && Contains(r, p);
        assert r in used - {u};
      }
    }
  }

  // ----- carving a region out -----

  /** Large requests are cut from the front of a free region, small ones from its end. */
  function Taken(f: Region, n: nat): Region
    requires n <= f.size
  {
    if n == f.size || n >= 0x4000 then Region(f.addr, n) else Region(End(f) - n, n)
  }

  function Rest(f: Region, n: nat): Region
    requires n <= f.size
  {
    if n >= 0x4000 then Region(f.addr + n, f.size - n) else Region(f.addr, f.size - n)
  }

  function FreeAfter(free: set<Region>, f: Region, n: nat): set<Region>
    requires n <= f.size
  {
    if n == f.size then free - {f} else free - {f} + {Rest(f, n)}
  }

  lemma AllocKeeps(free: set<Region>, used: set<Region>, begin: nat, end: nat, f: Region, n: nat)
    requires Partition(free, used, begin, end) && f in free && 0 < n <= f.size && PageAligned(n)
    ensures Partition(FreeAfter(free, f, n), used + {Taken(f, n)}, begin, end)
  {
    var free', t := FreeAfter(free, f, n), Taken(f, n);
    assert Sound(t, begin, end) && Sound(f, begin, end);
    if n < f.size { assert Sound(Rest(f, n), begin, end); }
    forall u | u in used ensures Apart(t, u) && Apart(u, t) && (n < f.size ==> Apart(Rest(f, n), u)) { assert Apart(f, u); }
    forall g | g in free && g != f ensures Apart(g, t) && (n < f.size ==> Separate(g, Rest(f, n)) && Separate(Rest(f, n), g)) {
      assert Separate(f, g);
    }
    AllocCovers(free, used, begin, end, f, n);
  }

  lemma AllocCovers(free: set<Region>, used: set<Region>, begin: nat, end: nat, f: Region, n: nat)
    requires Partition(free, used, begin, end) && f in free && 0 < n <= f.size
    ensures forall p :: begin <= p < end ==> Covered(p, FreeAfter(free, f, n)) || Covered(p, used + {Taken(f, n)})
  {
    var free', t := FreeAfter(free, f, n), Taken(f, n);
    forall p | begin <= p < end ensures Covered(p, free') || Covered(p, used + {t}) {
      if Covered(p, used) {
        var u :| u in used && Contains(u, p);
        assert u in used + {t};
      } else {
        var g :| g in free && Contains(g, p);
        if g != f { assert g in free'; }
        else if Contains(t, p) { assert t in used + {t}; }
        else { assert Rest(f, n) in free' && Contains(Rest(f, n), p); }
      }
    }
  }

  /** The only free region a carved-out region touches is what was left of its origin. */
  lemma TakenTouches(free: set<Region>, f: Region, n: nat, q: Region)
    requires AllSeparate(free) && f in free && 0 < n <= f.size && q in FreeAfter(free, f, n) && q.size > 0
    ensures End(q) == Taken(f, n).addr ==> n < f.size && n < 0x4000 && q == Rest(f, n)
    ensures q.addr == End(Taken(f, n)) ==> n < f.size && n >= 0x4000 && q == Rest(f, n)
  {
    if q in free && q != f { assert Separate(q, f); }
  }

  /** Allocating and then freeing gives back exactly the free regions there were. */
  lemma RoundTrip(free: set<Region>, used: set<Region>, begin: nat, end: nat, f: Region, n: nat, free': set<Region>)
    requires Partition(free, used, begin, end) && f in free && 0 < n <= f.size
    requires Joined(FreeAfter(free, f, n), Taken(f, n), free')
    ensures free' == free
  {
    var g, t := FreeAfter(free, f, n), Taken(f, n);
    var lo: nat, hi: nat :| JoinedAs(g, t, free', lo, hi);
    RoundTripEnds(free, f, n, free', lo, hi);
    forall r ensures r in free' <==> r in free {
      if r in free && r != f { assert Separate(r, f); }
    }
  }

  /** The merged region is the one that was carved. */
  lemma RoundTripEnds(free: set<Region>, f: Region, n: nat, free': set<Region>, lo: nat, hi: nat)
    requires AllSeparate(free) && f in free && 0 < n <= f.size && forall r :: r in free ==> r.size > 0
    requires JoinedAs(FreeAfter(free, f, n), Taken(f, n), free', lo, hi)
    ensures lo == f.addr && hi == End(f)
  {
    var g, t := FreeAfter(free, f, n), Taken(f, n);
    assert forall q :: q in g ==> q.size > 0;
    forall q | q in g
      ensures End(q) == t.addr ==> n < f.size && n < 0x4000 && q == Rest(f, n)
      ensures q.addr == End(t) ==> n < f.size && n >= 0x4000 && q == Rest(f, n)
    {
      TakenTouches(free, f, n, q);
    }
    if n < f.size { assert Rest(f, n) in g; }
  }
}
