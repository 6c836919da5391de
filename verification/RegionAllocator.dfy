/** The virtual-memory region allocator: descriptors move between the two free
    lists, the list of used regions and the stack of unused descriptors. */
module RegionAllocator {
  import opened RegionLists
  import opened RegionSets
  import opened RegionState
  import opened RegionOutcome

  /** Always keep at least this many unused descriptors. */
  const N_RESERVE_DESCRIPTORS := 2

  /** Bytes of a descriptor: five 32-bit words. */
  const DESCRIPTOR_SIZE: nat := 20

  const DESCRIPTORS_PER_PAGE: nat := PAGE_SIZE / DESCRIPTOR_SIZE

  /** Descriptors there is memory for from the start. */
  const N_BASE_DESCRIPTORS: nat := 12

  class Allocator {
    var addr: map<Desc, nat>
    var size: map<Desc, nat>
    var typ: map<Desc, string>
    var bigger: map<Desc, Link>
    var byAddr: seq<Desc>
    var bySize: seq<Desc>
    var used: seq<Desc>
    var unused: seq<Desc>
    var nUnused: int
    ghost var begin: nat
    ghost var end: nat
    ghost var homes: set<Region>   // used regions whose memory holds descriptors
    ghost var mapped: seq<nat>     // the pages the mapping function was asked for

    ghost function Free(): set<Region>
      reads this
    {
      Regions(byAddr, addr, size)
    }

    ghost function InUse(): set<Region>
      reads this
    {
      Regions(used, addr, size)
    }

    ghost function Used(): set<Info>
      reads this
    {
      Infos(used, addr, size, typ)
    }

    ghost function Descs(): set<Desc>
      reads this
    {
      AllDescs(byAddr, used, unused)
    }

    ghost function Total(): nat
      reads this
    {
      |byAddr| + |used| + |unused|
    }

    /** Free and used regions tile the range; both free lists are in order; each
        descriptor has one role; the counter counts the unused descriptors. */
    ghost predicate Tiled()
      reads this
    {
      && ListsOk(byAddr, bySize, used, unused, addr, size, typ, bigger)
      && Partition(Free(), InUse(), begin, end)
      && nUnused == |unused| && 0 < begin
    }

    /** ... and each descriptor lives in no region that could be handed out. */
    ghost predicate Valid()
      reads this
    {
      Tiled() && HomesOk(byAddr, used, unused, Free(), InUse(), homes)
    }

    /** region_allocator_init: one free region from `rsvdEnd` to `hi`, and what lies
        below it, if anything, reserved. The base descriptors lie outside the free region. */
    constructor (lo: nat, rsvdEnd: nat, hi: nat, base: seq<Desc>)
      requires 0 < lo <= rsvdEnd < hi && PageAligned(lo) && PageAligned(rsvdEnd) && PageAligned(hi)
      requires |base| == N_BASE_DESCRIPTORS && NoDup(base) && forall d :: d in base ==> !(rsvdEnd <= d < hi)
      ensures Valid() && begin == lo && end == hi && Total() == 12 && |unused| >= 10 && mapped == []
      ensures Free() == {Region(rsvdEnd, hi - rsvdEnd)}
      ensures InUse() == Reserved(lo, rsvdEnd) && Used() == ReservedInfos(lo, rsvdEnd)
      ensures Descs() == Elems(base) && homes == InUse()
    {
      nUnused, unused, byAddr, bySize, used := 0, [], [], [], [];
      addr, size, typ, bigger := map[], map[], map[], map[];
      begin, end, homes, mapped := lo, hi, Reserved(lo, rsvdEnd), [];
      new;
      Init(lo, rsvdEnd, hi, base);
    }

    method Init(lo: nat, rsvdEnd: nat, hi: nat, base: seq<Desc>)
      requires 0 < lo <= rsvdEnd < hi && PageAligned(lo) && PageAligned(rsvdEnd) && PageAligned(hi)
      requires |base| == N_BASE_DESCRIPTORS && NoDup(base) && forall d :: d in base ==> !(rsvdEnd <= d < hi)
      requires unused == [] && nUnused == 0 && byAddr == [] && bySize == [] && used == []
      requires begin == lo && end == hi && homes == Reserved(lo, rsvdEnd)
      modifies this`byAddr, this`bySize, this`bigger, this`addr, this`size, this`typ, this`unused, this`nUnused, this`used
      ensures Valid() && Total() == 12 && |unused| >= 10 && Free() == {Region(rsvdEnd, hi - rsvdEnd)}
      ensures InUse() == Reserved(lo, rsvdEnd) && Used() == ReservedInfos(lo, rsvdEnd) && Descs() == Elems(base)
    {
      hide FreeOk, UsedOk, Partition, HomesOk, Regions, Infos, Joined, AllDescs, PageAligned, Reserved, ReservedInfos, Elems, ListsOk;
      LayOut(lo, rsvdEnd, hi, base);
      FirstPartition(lo, rsvdEnd, hi, Free(), InUse());
      FirstHomes(byAddr, used, unused, base, lo, rsvdEnd, hi, Free(), InUse());
    }

    /** The lists after the start. */
    method LayOut(lo: nat, rsvdEnd: nat, hi: nat, base: seq<Desc>)
      requires lo <= rsvdEnd < hi && |base| == N_BASE_DESCRIPTORS && NoDup(base)
      requires unused == [] && nUnused == 0 && byAddr == [] && bySize == [] && used == []
      modifies this`byAddr, this`bySize, this`bigger, this`addr, this`size, this`typ, this`unused, this`nUnused, this`used
      ensures ListsOk(byAddr, bySize, used, unused, addr, size, typ, bigger)
      ensures Free() == {Region(rsvdEnd, hi - rsvdEnd)} && InUse() == Reserved(lo, rsvdEnd) && Used() == ReservedInfos(lo, rsvdEnd)
      ensures forall d :: d in byAddr || d in used || d in unused <==> d in base
      ensures nUnused == |unused| >= 10 && Total() == 12
    {
      hide FreeOk, UsedOk, RolesOk, Regions, Infos, Joined, Reserved, ReservedInfos, ListsOk;
      StackBase(base);
      AddFirst(lo, rsvdEnd, hi);
      AddReserved(lo, rsvdEnd);
    }

    /** Puts the base descriptors on the stack. */
    method StackBase(base: seq<Desc>)
      requires unused == [] && nUnused == 0 && NoDup(base)
      modifies this`unused, this`nUnused
      ensures |unused| == |base| && nUnused == |unused| && NoDup(unused) && forall d :: d in unused <==> d in base
    {
      var i := 0;
      while i < |base|
        invariant 0 <= i <= |base| && |unused| == i && nUnused == i && NoDup(unused)
        invariant forall d :: d in unused <==> d in base[..i]
      {
        assert base[i] !in base[..i];
        AddUnused(base[i]);
        i := i + 1;
      }
      assert base[..i] == base;
    }

    /** Makes `[rsvdEnd, hi)` the only free region. */
    method AddFirst(lo: nat, rsvdEnd: nat, hi: nat)
      requires rsvdEnd < hi && unused != [] && NoDup(unused) && byAddr == [] && bySize == []
      modifies this`byAddr, this`bySize, this`bigger, this`addr, this`size, this`unused, this`nUnused
      ensures FreeOk(byAddr, bySize, addr, size, bigger) && Free() == {Region(rsvdEnd, hi - rsvdEnd)}
      ensures NoDup(unused) && DisjointLists(byAddr, unused)
      ensures forall e :: e in byAddr || e in unused <==> e in old(unused)
      ensures |unused| >= |old(unused)| - 1 && nUnused - |unused| == old(nUnused - |unused|)
      ensures |byAddr| + |unused| == |old(unused)|
    {
      hide FreeOk, Regions, Joined;
      var f0 := GetUnused();
      addr, size := addr[f0 := rsvdEnd], size[f0 := hi - rsvdEnd];
      EmptyLists(addr, size, typ, bigger);
      AddFree(f0);
      JoinNothing({}, Region(rsvdEnd, hi - rsvdEnd), Free());
    }

    /** Makes `[lo, rsvdEnd)` the only used region, unless it is empty. */
    method AddReserved(lo: nat, rsvdEnd: nat)
      requires FreeOk(byAddr, bySize, addr, size, bigger) && lo <= rsvdEnd && unused != [] && used == []
      requires NoDup(unused) && DisjointLists(byAddr, unused)
      modifies this`addr, this`size, this`typ, this`unused, this`nUnused, this`used
      ensures ListsOk(byAddr, bySize, used, unused, addr, size, typ, bigger)
      ensures Free() == old(Free()) && InUse() == Reserved(lo, rsvdEnd) && Used() == ReservedInfos(lo, rsvdEnd)
      ensures forall e :: e in used || e in unused <==> e in old(unused)
      ensures |unused| >= |old(unused)| - 1 && nUnused - |unused| == old(nUnused - |unused|)
      ensures |used| + |unused| == |old(unused)|
    {
      hide FreeOk, UsedOk, Regions, Infos;
      EmptyLists(addr, size, typ, bigger);
      if lo < rsvdEnd {
        FreeFacts(byAddr, bySize, addr, size, bigger);
        var u0 := GetUnused();
        addr, size, typ := addr[u0 := lo], size[u0 := rsvdEnd - lo], typ[u0 := "Reserved"];
        used := [u0];
        FreeFrame(byAddr, bySize, old(addr), old(size), bigger, addr, size);
        OneUsed(u0, addr, size, typ);
      }
    }

    // ----- unused descriptors -----

    method AddUnused(d: Desc)
      modifies this`unused, this`nUnused
      ensures unused == [d] + old(unused) && nUnused == old(nUnused) + 1
    {
      nUnused := nUnused + 1;
      unused := [d] + unused;
    }

    method GetUnused() returns (d: Desc)
      requires unused != []
      modifies this`unused, this`nUnused
      ensures d == old(unused)[0] && unused == old(unused)[1..] && nUnused == old(nUnused) - 1
    {
      d := unused[0];
      unused := unused[1..];
      nUnused := nUnused - 1;
    }

    // ----- the free lists -----

    /** remove_free_region, the by-size list: links that led to `d` lead to the next one. */
    method RemoveBySize(d: Desc)
      requires SizeListOk(bySize, size, bigger) && d in bySize
      modifies this`bySize, this`bigger
      ensures SizeListOk(bySize, size, bigger)
      ensures bySize == Without(old(bySize), IndexOf(old(bySize), d))
    {
      hide SizeListOk;
      ghost var l, k, b0 := bySize, IndexOf(bySize, d), bigger;
      hide Ascending;
      SizeListFacts(l, size, bigger);
      var next := At(bySize, IndexOf(bySize, d) + 1);
      if bySize[0] == d {
        bySize := bySize[1..];
        assert bySize == Without(l, k);
      } else {
        var i := 0;
        while bySize[i + 1] != d
          invariant bySize == l && 0 <= i < k
          invariant forall j :: 0 <= j < |l| ==> l[j] in bigger
          invariant forall j :: 0 <= j < |l| ==> bigger[l[j]] == if j < i && b0[l[j]] == To(d) then next else b0[l[j]]
          decreases k - i
        {
          if bigger[bySize[i]] == To(d) { bigger := bigger[bySize[i] := next]; }
          i := i + 1;
        }
        if bigger[bySize[i]] == To(d) { bigger := bigger[bySize[i] := next]; }
        bySize := bySize[..i + 1] + bySize[i + 2..];
        assert i + 1 == k && bySize == Without(l, k);
      }
      assert RemovedSkips(l, k, b0, bigger);
      RemoveKeeps(l, size, b0, k, bigger);
    }

    /** remove_free_region */
    method RemoveFree(d: Desc)
      requires SizeListOk(bySize, size, bigger) && SameElems(byAddr, bySize) && NoDup(byAddr) && d in byAddr
      modifies this`byAddr, this`bySize, this`bigger
      ensures SizeListOk(bySize, size, bigger) && SameElems(byAddr, bySize)
      ensures byAddr == Without(old(byAddr), IndexOf(old(byAddr), d))
    {
      hide SizeListOk;
      ghost var l, k := byAddr, IndexOf(byAddr, d);
      ghost var m := bySize;
      SizeListFacts(m, size, bigger);
      RemoveBySize(d);
      WithoutElems(m, IndexOf(m, d));
      WithoutElems(l, k);
      if byAddr[0] == d {
        byAddr := byAddr[1..];
        assert byAddr == Without(l, k);
      } else {
        var i := 0;
        while byAddr[i + 1] != d
          invariant byAddr == l && 0 <= i < k
          invariant forall j :: 0 <= j <= i ==> byAddr[j] != d
          decreases k - i
        {
          i := i + 1;
        }
        byAddr := byAddr[..i + 1] + byAddr[i + 2..];
        assert i + 1 == k && byAddr == Without(l, k);
      }
    }

    /** The check that follows every insertion: each run of equal sizes skips to the
        first region of the next run. Its assertions never fire. */
    method CheckFirstBigger()
      requires SizeListOk(bySize, size, bigger) && bySize != []
    {
      hide SkipsOk, FirstAbove;
      var i := 0;
      FirstSkip(bySize, size, bigger);
      var supposed, sz := bigger[bySize[0]], size[bySize[0]];
      while i < |bySize|
        invariant 0 <= i <= |bySize|
        invariant i < |bySize| ==> SkipAt(bySize, size, bigger, i) && supposed == bigger[bySize[i]] && sz == size[bySize[i]]
      {
        ghost var p := i;
        i := i + 1;
        NextSkip(bySize, size, bigger, p);
        if i == |bySize| {
          assert supposed == Null;
        } else if size[bySize[i]] == sz {
          assert bigger[bySize[i]] == supposed;
        } else {
          assert size[bySize[i]] > sz;
          assert supposed == To(bySize[i]);
          supposed, sz := bigger[bySize[i]], size[bySize[i]];
        }
      }
    }

    /** Where a region of the size of `d` goes in the by-size list when the head is
        smaller: the walk turns the skip links that now lead to `d`. */
    method WalkBySize(d: Desc) returns (k: nat)
      requires SizeListOk(bySize, size, bigger) && d in size && d !in bySize && bySize != [] && size[bySize[0]] < size[d]
      modifies this`bigger
      ensures k <= |bySize| && Skipping(bySize, size, d, old(bigger), bigger, k)
      ensures forall j :: 0 <= j < k ==> bySize[j] in size && size[bySize[j]] < size[d]
      ensures k < |bySize| ==> bySize[k] in size && size[bySize[k]] >= size[d]
    {
      hide SizeListOk, Skipping;
      ghost var b0 := bigger;
      SizeListFacts(bySize, size, bigger);
      SkippingStart(bySize, size, d, b0);
      var i := 0;
      while true
        invariant 0 <= i < |bySize|
        invariant forall j :: 0 <= j <= i ==> size[bySize[j]] < size[d]
        invariant forall j :: 0 <= j < |bySize| ==> bySize[j] in bigger
        invariant Skipping(bySize, size, d, b0, bigger, i)
        decreases |bySize| - i
      {
        SkippingStep(bySize, size, d, b0, bigger, i);
        if TakesOver(size, bigger[bySize[i]], size[d]) { bigger := bigger[bySize[i] := To(d)]; }
        if i + 1 == |bySize| || size[bySize[i + 1]] >= size[d] { break; }
        i := i + 1;
      }
      k := i + 1;
    }

    /** The by-size half of `add_free_region`: before the first region that is at
        least as large. */
    method InsertBySize(d: Desc)
      requires SizeListOk(bySize, size, bigger) && d in size && d !in bySize
      modifies this`bySize, this`bigger
      ensures SizeListOk(bySize, size, bigger)
      ensures forall e :: e in bySize <==> e in old(bySize) || e == d
    {
      hide SizeListOk, Skipping, InsertedSkips;
      ghost var l, b0 := bySize, bigger;
      hide Ascending;
      SizeListFacts(l, size, bigger);
      SkippingStart(bySize, size, d, b0);
      ghost var k := 0;
      if bySize == [] {
        bigger := bigger[d := Null];
        InsertedFrom(l, size, d, b0, b0, 0, bigger);
        bySize := [d];
      } else if size[bySize[0]] >= size[d] {
        bigger := bigger[d := if size[bySize[0]] > size[d] then To(bySize[0]) else bigger[bySize[0]]];
        InsertedFrom(l, size, d, b0, b0, 0, bigger);
        bySize := [d] + bySize;
      } else {
        var i := WalkBySize(d);
        k := i;
        SkippingKnows(l, size, d, b0, bigger, k);
        ghost var b := bigger;
        if i == |bySize| {
          bigger := bigger[d := Null];
        } else {
          var next := bySize[i];
          bigger := bigger[d := if size[next] > size[d] then To(next) else bigger[next]];
        }
        InsertedFrom(l, size, d, b0, b, k, bigger);
        bySize := bySize[..i] + [d] + bySize[i..];
      }
      assert bySize == Insert(l, k, d);
      InsertKeeps(l, size, b0, k, d, bigger);
      InsertElems(l, k, d);
    }

    /** Whether a free region ends where `d` begins or begins where `d` ends. */
    method Neighbour(d: Desc) returns (n: Side)
      requires Described(byAddr, addr, size) && FreeSorted(byAddr, addr, size) && d in addr && d in size && size[d] > 0
      requires Clear(Region(addr[d], size[d]), Regions(byAddr, addr, size))
      ensures n.Before? ==> n.p in byAddr && addr[n.p] + size[n.p] == addr[d]
      ensures n.After? ==> n.q in byAddr && addr[n.q] == addr[d] + size[d]
      ensures n.Alone? ==> NoneEndsAt(Regions(byAddr, addr, size), addr[d]) && NoneStartsAt(Regions(byAddr, addr, size), addr[d] + size[d])
    {
      var i := 0;
      while i < |byAddr|
        invariant 0 <= i <= |byAddr|
        invariant forall j :: 0 <= j < i ==> addr[byAddr[j]] + size[byAddr[j]] != addr[d] && addr[byAddr[j]] != addr[d] + size[d]
      {
        var it := byAddr[i];
        if addr[it] + size[it] == addr[d] {
          return Before(it);
        } else if addr[it] == addr[d] + size[d] {
          return After(it);
        } else if addr[it] > addr[d] {
          assert Region(addr[it], size[it]) in Regions(byAddr, addr, size);
          assert addr[it] > addr[d] + size[d];
          break;
        }
        i := i + 1;
      }
      assert forall j :: 0 <= j < |byAddr| ==> addr[byAddr[j]] + size[byAddr[j]] != addr[d] && addr[byAddr[j]] != addr[d] + size[d];
      n := Alone;
    }

    /** The by-address half of `add_free_region`. */
    method InsertByAddr(d: Desc)
      requires Described(byAddr, addr, size) && FreeSorted(byAddr, addr, size) && d in addr && d in size && size[d] > 0
      requires forall i :: 0 <= i < |byAddr| ==> Separate(Region(addr[byAddr[i]], size[byAddr[i]]), Region(addr[d], size[d]))
      modifies this`byAddr
      ensures Described(byAddr, addr, size) && FreeSorted(byAddr, addr, size)
      ensures Regions(byAddr, addr, size) == old(Regions(byAddr, addr, size)) + {Region(addr[d], size[d])}
      ensures forall e :: e in byAddr <==> e in old(byAddr) || e == d
      ensures |byAddr| == |old(byAddr)| + 1
    {
      hide FreeSorted, Regions, Separate;
      ghost var l, k := byAddr, 0;
      if byAddr == [] || addr[byAddr[0]] > addr[d] {
        byAddr := [d] + byAddr;
      } else {
        var i := 0;
        while i + 1 < |byAddr| && addr[byAddr[i + 1]] <= addr[d]
          invariant byAddr == l && 0 <= i < |byAddr| && addr[byAddr[i]] <= addr[d]
        {
          i := i + 1;
        }
        k := i + 1;
        byAddr := byAddr[..i + 1] + [d] + byAddr[i + 1..];
      }
      assert byAddr == Insert(l, k, d);
      PlaceByAddr(l, addr, size, k, d);
      InsertFree(l, addr, size, k, d);
    }

    /** add_free_region: coalesces with the neighbours, then enters both lists. */
    method AddFree(d: Desc)
      requires FreeOk(byAddr, bySize, addr, size, bigger)
      requires d in addr && d in size && size[d] > 0 && d !in byAddr && d !in unused
      requires Clear(Region(addr[d], size[d]), Regions(byAddr, addr, size))
      requires NoDup(unused) && DisjointLists(byAddr, unused)
      modifies this`byAddr, this`bySize, this`bigger, this`size, this`unused, this`nUnused
      ensures FreeOk(byAddr, bySize, addr, size, bigger)
      ensures Joined(old(Regions(byAddr, addr, size)), old(Region(addr[d], size[d])), Regions(byAddr, addr, size))
      ensures NoDup(unused) && DisjointLists(byAddr, unused)
      ensures forall e :: e in byAddr || e in unused <==> e in old(byAddr) || e in old(unused) || e == d
      ensures |byAddr| + |unused| == old(|byAddr| + |unused|) + 1 && nUnused - |unused| == old(nUnused - |unused|)
      ensures |unused| >= |old(unused)|
      ensures forall e :: e in old(size) ==> e in size
      ensures forall e :: e in old(size) && e !in old(byAddr) && e != d ==> size[e] == old(size)[e]
      decreases |byAddr|
    {
      hide FreeOk, SizeListOk, FreeSorted, Regions, Joined, Clear, Ascending;
      FreeFacts(byAddr, bySize, addr, size, bigger);
      FreeLists(byAddr, bySize, addr, size, bigger);
      ghost var free, r := Regions(byAddr, addr, size), Region(addr[d], size[d]);
      var n := Neighbour(d);
      if n.Before? {
        var p := n.p;
        ghost var q := Region(addr[p], size[p]);
        Absorb(p, d);
        AddUnused(d);
        MergeClear(free, q, r);
        AddFree(p);
        JoinPrev(free, q, r, Regions(byAddr, addr, size));
      } else if n.After? {
        var p := n.q;
        ghost var q := Region(addr[p], size[p]);
        RemoveInto(p, d);
        AddUnused(p);
        MergeClear(free, q, r);
        AddFree(d);
        JoinNext(free, q, r, Regions(byAddr, addr, size));
      } else {
        AloneSeparate(free, r);
        JoinAlone(free, r);
        EnterLists(d);
      }
    }

    /** Enters a region that touches no other into both lists. */
    method EnterLists(d: Desc)
      requires FreeOk(byAddr, bySize, addr, size, bigger)
      requires d in addr && d in size && size[d] > 0 && d !in byAddr
      requires forall f :: f in Regions(byAddr, addr, size) ==> Separate(f, Region(addr[d], size[d]))
      modifies this`byAddr, this`bySize, this`bigger
      ensures FreeOk(byAddr, bySize, addr, size, bigger)
      ensures Regions(byAddr, addr, size) == old(Regions(byAddr, addr, size)) + {Region(addr[d], size[d])}
      ensures |byAddr| == |old(byAddr)| + 1 && forall e :: e in byAddr <==> e in old(byAddr) || e == d
    {
      hide FreeOk, SizeListOk, FreeSorted, Regions;
      FreeFacts(byAddr, bySize, addr, size, bigger);
      FreeLists(byAddr, bySize, addr, size, bigger);
      InsertByAddr(d);
      InsertBySize(d);
      CheckFirstBigger();
      InsertedBoth(byAddr, bySize, addr, size, bigger);
    }

    /** Takes `p` off the free lists and grows it by the size of `d`. */
    method Absorb(p: Desc, d: Desc)
      requires FreeOk(byAddr, bySize, addr, size, bigger) && p in byAddr && d in size
      modifies this`byAddr, this`bySize, this`bigger, this`size
      ensures FreeOk(byAddr, bySize, addr, size, bigger)
      ensures Regions(byAddr, addr, size) == old(Regions(byAddr, addr, size)) - {old(Region(addr[p], size[p]))}
      ensures size == old(size)[p := old(size)[p] + old(size)[d]]
      ensures |byAddr| == |old(byAddr)| - 1 && forall e :: e in byAddr <==> e in old(byAddr) && e != p
    {
      hide FreeOk, SizeListOk, Without;
      FreeFacts(byAddr, bySize, addr, size, bigger);
      RemoveFree(p);
      TakenOut(old(byAddr), old(bySize), addr, size, old(bigger), p, byAddr, bySize, bigger);
      size := size[p := size[p] + size[d]];
      FreeFrame(byAddr, bySize, addr, old(size), bigger, addr, size);
    }

    /** Takes `p` off the free lists and adds its size to that of `d`. */
    method RemoveInto(p: Desc, d: Desc)
      requires FreeOk(byAddr, bySize, addr, size, bigger) && p in byAddr && d in size && d !in byAddr
      modifies this`byAddr, this`bySize, this`bigger, this`size
      ensures FreeOk(byAddr, bySize, addr, size, bigger)
      ensures Regions(byAddr, addr, size) == old(Regions(byAddr, addr, size)) - {old(Region(addr[p], size[p]))}
      ensures size == old(size)[d := old(size)[d] + old(size)[p]]
      ensures |byAddr| == |old(byAddr)| - 1 && forall e :: e in byAddr <==> e in old(byAddr) && e != p
    {
      hide FreeOk, SizeListOk, Without;
      FreeFacts(byAddr, bySize, addr, size, bigger);
      RemoveFree(p);
      TakenOut(old(byAddr), old(bySize), addr, size, old(bigger), p, byAddr, bySize, bigger);
      size := size[d := size[d] + size[p]];
      FreeFrame(byAddr, bySize, addr, old(size), bigger, addr, size);
    }

    // ----- the used list -----

    /** find_used_region */
    method FindUsed(p: nat) returns (r: Link)
      requires UsedOk(used, addr, size, typ)
      ensures r.To? ==> r.desc in used && Contains(Region(addr[r.desc], size[r.desc]), p)
      ensures r.Null? ==> forall q :: q in Regions(used, addr, size) ==> !Contains(q, p)
    {
      var i := 0;
      while i < |used|
        invariant 0 <= i <= |used|
        invariant forall j :: 0 <= j < i ==> addr[used[j]] + size[used[j]] <= p
      {
        var d := used[i];
        if addr[d] <= p < addr[d] + size[d] { return To(d); }
        if addr[d] > p {
          assert forall j :: i <= j < |used| ==> addr[used[j]] > p;
          break;
        }
        i := i + 1;
      }
      assert forall j :: 0 <= j < |used| ==> !Contains(Region(addr[used[j]], size[used[j]]), p);
      r := Null;
    }

    /** add_used_region; its assertions hold. */
    method AddUsed(d: Desc)
      requires UsedOk(used, addr, size, typ) && d in addr && d in size && d in typ && size[d] > 0
      requires forall q :: q in Regions(used, addr, size) ==> Apart(q, Region(addr[d], size[d]))
      modifies this`used
      ensures UsedOk(used, addr, size, typ)
      ensures Regions(used, addr, size) == old(Regions(used, addr, size)) + {Region(addr[d], size[d])}
      ensures Infos(used, addr, size, typ) == old(Infos(used, addr, size, typ)) + {Info(Region(addr[d], size[d]), typ[d])}
      ensures forall e :: e in used <==> e in old(used) || e == d
      ensures |used| == |old(used)| + 1
    {
      hide UsedOk, UsedSorted, Regions, Infos;
      ghost var l, k := used, 0;
      UsedFacts(l, addr, size, typ);
      if used == [] || addr[d] < addr[used[0]] {
        used := [d] + used;
      } else {
        var i := 0;
        assert addr[used[i]] < addr[d] by { UsedPlace(l, addr, size, typ, 0, d); }
        while i + 1 < |used| && addr[used[i + 1]] <= addr[d]
          invariant used == l && 0 <= i < |used| && addr[used[i]] < addr[d]
        {
          UsedPlace(l, addr, size, typ, i + 1, d);
          i := i + 1;
        }
        k := i + 1;
        used := used[..i + 1] + [d] + used[i + 1..];
      }
      assert used == Insert(l, k, d);
      PlaceUsed(l, addr, size, typ, k, d);
      InsertUsed(l, addr, size, typ, k, d);
    }

    /** remove_used_region; the walk never passes the region it looks for. */
    method RemoveUsed(d: Desc)
      requires UsedOk(used, addr, size, typ) && d in used
      modifies this`used
      ensures UsedOk(used, addr, size, typ)
      ensures Regions(used, addr, size) == old(Regions(used, addr, size)) - {Region(addr[d], size[d])}
      ensures Infos(used, addr, size, typ) == old(Infos(used, addr, size, typ)) - {Info(Region(addr[d], size[d]), typ[d])}
      ensures forall e :: e in used <==> e in old(used) && e != d
      ensures |used| == |old(used)| - 1
    {
      hide UsedOk, UsedSorted, Regions, Infos, Without;
      ghost var l, k := used, IndexOf(used, d);
      UsedFacts(l, addr, size, typ);
      if used[0] == d {
        used := used[1..];
        FirstOut(l, k);
      } else {
        var i := 0;
        while used[i + 1] != d
          invariant used == l && 0 <= i < k
          invariant forall j :: 0 <= j <= i ==> used[j] != d
          decreases k - i
        {
          assert addr[used[i]] <= addr[d];
          i := i + 1;
        }
        used := used[..i + 1] + used[i + 2..];
        assert i + 1 == k;
        MiddleOut(l, k);
      }
      WithoutUsed(l, addr, size, typ, k);
    }

    // ----- giving a region back -----

    /** Moves the descriptor of a used region to the free lists. */
    method MoveToFree(d: Desc)
      requires ListsOk(byAddr, bySize, used, unused, addr, size, typ, bigger)
      requires d in used && d in addr && d in size && d in typ && size[d] > 0 && Clear(Region(addr[d], size[d]), Free())
      modifies this`byAddr, this`bySize, this`bigger, this`size, this`unused, this`nUnused, this`used
      ensures ListsOk(byAddr, bySize, used, unused, addr, size, typ, bigger)
      ensures Joined(old(Free()), old(Region(addr[d], size[d])), Free())
      ensures InUse() == old(InUse()) - {old(Region(addr[d], size[d]))}
      ensures Used() == old(Used()) - {old(Info(Region(addr[d], size[d]), typ[d]))}
      ensures forall e :: e in byAddr || e in used || e in unused <==> e in old(byAddr) || e in old(used) || e in old(unused)
      ensures Total() == old(Total()) && |unused| >= |old(unused)| && nUnused - |unused| == old(nUnused - |unused|)
    {
      hide FreeOk, UsedOk, Joined, Regions, Infos;
      FreeFacts(byAddr, bySize, addr, size, bigger);
      RemoveUsed(d);
      UsedFacts(used, addr, size, typ);
      AddFree(d);
      UsedFrame(used, addr, old(size), typ, addr, size, typ);
    }

    /** region_free_inner. Whatever is given back, the regions tile the range as before;
        the descriptors stay out of what can be handed out if the memory given back
        holds none. */
    method FreeInner(p: nat)
      requires Tiled()
      modifies this
      ensures Tiled() && begin == old(begin) && end == old(end) && homes == old(homes) && mapped == old(mapped)
      ensures old(Valid()) && (forall h :: h in homes ==> !Contains(h, p)) ==> Valid()
      ensures Released(old(Free()), old(Used()), p, Free(), Used())
      ensures Descs() == old(Descs()) && Total() == old(Total()) && |unused| >= |old(unused)|
    {
      hide FreeOk, UsedOk, RolesOk, Partition, HomesOk, AllDescs, Joined, Regions, Infos;
      InfoOf(used, addr, size, typ);
      var u := FindUsed(p);
      if u.Null? { return; }
      ghost var r := Region(addr[u.desc], size[u.desc]);
      assert Info(r, typ[u.desc]) in Used();
      UsedClear(Free(), InUse(), begin, end, r);
      MoveToFree(u.desc);
      FreeKeeps(old(Free()), old(InUse()), begin, end, r, Free());
      SameDescs(old(byAddr), old(used), old(unused), byAddr, used, unused);
      if old(Valid()) && forall h :: h in homes ==> !Contains(h, p) {
        HomesReleased(old(byAddr), old(used), old(unused), old(Free()), old(InUse()), homes, begin, end, r, Free(), byAddr, used, unused);
      }
    }

    // ----- carving a region out -----

    /** The search of `region_alloc_inner`, from skip link to skip link. */
    method Search(n: nat) returns (i: Link)
      requires SizeListOk(bySize, size, bigger) && Known(bySize, size)
      ensures i == At(bySize, FirstFit(bySize, size, n, 0))
    {
      hide SkipsOk, NoDup, Ascending, FirstFit, FirstAbove;
      ghost var j := 0;
      i := At(bySize, 0);
      while i.To? && size[i.desc] < n
        invariant 0 <= j <= |bySize| && i == At(bySize, j) && FirstFit(bySize, size, n, 0) == FirstFit(bySize, size, n, j)
        decreases |bySize| - j
      {
        SkipMissesNothing(bySize, size, n, j);
        OneSkip(bySize, size, bigger, j);
        j := FirstAbove(bySize, size, size[bySize[j]], j + 1);
        i := bigger[i.desc];
      }
      FitHere(bySize, size, n, j);
    }

    /** Writes what is left of the region of `i` into a fresh descriptor. */
    method Split(i: Desc, n: nat) returns (x: Desc)
      requires i in addr && i in size && 0 < n < size[i] && unused != [] && i !in unused
      modifies this`addr, this`size, this`unused, this`nUnused
      ensures x == old(unused)[0] && unused == old(unused)[1..] && nUnused == old(nUnused) - 1
      ensures i in addr && addr[i] == Taken(old(Region(addr[i], size[i])), n).addr
      ensures x in addr && x in size && Region(addr[x], size[x]) == Rest(old(Region(addr[i], size[i])), n)
      ensures forall e :: e != x ==> (e in size <==> e in old(size)) && (e in size ==> size[e] == old(size)[e])
      ensures forall e :: e != x && e != i ==> (e in addr <==> e in old(addr)) && (e in addr ==> addr[e] == old(addr)[e])
    {
      x := GetUnused();
      assert i != x;
      size := size[x := size[i] - n];
      if n >= 0x4000 {
        addr := addr[x := addr[i] + n];
      } else {
        addr := addr[x := addr[i]];
        addr := addr[i := addr[i] + size[x]];
      }
    }

    /** Removes `i` from the free lists after its address may have moved. */
    method RemoveCarved(i: Desc, ghost addr0: map<Desc, nat>, ghost size0: map<Desc, nat>)
      requires FreeOk(byAddr, bySize, addr0, size0, bigger) && i in byAddr && i in addr0 && i in size0
      requires SameOn(byAddr, size0, size) && forall d :: d in byAddr && d != i ==> d in addr && d in addr0 && addr[d] == addr0[d]
      modifies this`byAddr, this`bySize, this`bigger
      ensures FreeOk(byAddr, bySize, addr, size, bigger)
      ensures Regions(byAddr, addr, size) == old(Regions(byAddr, addr0, size0)) - {Region(addr0[i], size0[i])}
      ensures forall e :: e in byAddr <==> e in old(byAddr) && e != i
      ensures |byAddr| == |old(byAddr)| - 1
    {
      hide FreeOk, SizeListOk, Regions, Without;
      FreeFacts(byAddr, bySize, addr0, size0, bigger);
      SameBySize(byAddr, bySize, size0, size);
      SizeListFrame(bySize, size0, size, bigger);
      RemoveFree(i);
      WithoutElems(old(byAddr), IndexOf(old(byAddr), i));
      SameBySize(byAddr, bySize, size, size0);
      SizeListFrame(bySize, size, size0, bigger);
      TakenOut(old(byAddr), old(bySize), addr0, size0, old(bigger), i, byAddr, bySize, bigger);
      FreeFrame(byAddr, bySize, addr0, size0, bigger, addr, size);
    }

    /** Replaces the free region of `i` by what is left of it after `n` bytes are
        carved out; the descriptor keeps the carved-out address. */
    method TakeFromFree(i: Desc, n: nat)
      requires FreeOk(byAddr, bySize, addr, size, bigger) && i in byAddr && i in addr && i in size
      requires NoDup(unused) && DisjointLists(byAddr, unused) && 0 < n <= size[i] && (n < size[i] ==> unused != [])
      modifies this`byAddr, this`bySize, this`bigger, this`addr, this`size, this`unused, this`nUnused
      ensures FreeOk(byAddr, bySize, addr, size, bigger) && NoDup(unused) && DisjointLists(byAddr, unused)
      ensures Free() == FreeAfter(old(Free()), old(Region(addr[i], size[i])), n)
      ensures i in addr && addr[i] == Taken(old(Region(addr[i], size[i])), n).addr
      ensures i !in byAddr && i !in unused
      ensures forall e :: e in byAddr || e in unused <==> e != i && (e in old(byAddr) || e in old(unused))
      ensures |byAddr| + |unused| == old(|byAddr| + |unused|) - 1 && nUnused - |unused| == old(nUnused - |unused|)
      ensures |unused| >= |old(unused)| - (if n < old(size)[i] then 1 else 0)
      ensures forall e :: e !in old(byAddr) && e !in old(unused) && e in old(addr) ==> e in addr && addr[e] == old(addr)[e]
      ensures forall e :: e !in old(byAddr) && e !in old(unused) && e in old(size) ==> e in size && size[e] == old(size)[e]
    {
      hide FreeOk, Regions, Joined, Clear, Rest;
      ghost var f := Region(addr[i], size[i]);
      ghost var free := Free();
      FreeFacts(byAddr, bySize, addr, size, bigger);
      if size[i] > n {
        RestAlone(free, f, n);
        RestSize(f, n);
        var x := Split(i, n);
        RemoveCarved(i, old(addr), old(size));
        AddFree(x);
      } else {
        RemoveCarved(i, addr, size);
      }
    }

    /** Moves the descriptor of a free region, cut to `n` bytes, to the used list. */
    method MoveToUsed(i: Desc, n: nat, t: string)
      requires ListsOk(byAddr, bySize, used, unused, addr, size, typ, bigger)
      requires i in byAddr && i in addr && i in size && 0 < n <= size[i] && (n < size[i] ==> unused != [])
      requires forall q :: q in InUse() ==> Apart(q, Taken(Region(addr[i], size[i]), n))
      modifies this`byAddr, this`bySize, this`bigger, this`addr, this`size, this`typ, this`unused, this`nUnused, this`used
      ensures ListsOk(byAddr, bySize, used, unused, addr, size, typ, bigger)
      ensures Free() == FreeAfter(old(Free()), old(Region(addr[i], size[i])), n)
      ensures InUse() == old(InUse()) + {Taken(old(Region(addr[i], size[i])), n)}
      ensures Used() == old(Used()) + {Info(Taken(old(Region(addr[i], size[i])), n), t)}
      ensures i in addr && addr[i] == Taken(old(Region(addr[i], size[i])), n).addr
      ensures |unused| >= |old(unused)| - (if n < old(size)[i] then 1 else 0)
      ensures forall e :: e in byAddr || e in used || e in unused <==> e in old(byAddr) || e in old(used) || e in old(unused)
      ensures Total() == old(Total()) && nUnused - |unused| == old(nUnused - |unused|)
    {
      hide FreeOk, UsedOk, UsedSorted, Regions, Infos, FreeAfter;
      UsedFacts(used, addr, size, typ);
      TakeFromFree(i, n);
      ghost var size1 := size;
      size := size[i := n];
      typ := typ[i := t];
      FreeFacts(byAddr, bySize, addr, size1, bigger);
      FreeFrame(byAddr, bySize, addr, size1, bigger, addr, size);
      UsedFrame(used, old(addr), old(size), old(typ), addr, size, typ);
      AddUsed(i);
    }

    /** The allocation itself, once the region has been found. */
    method Carve(i: Desc, n: nat, t: string)
      requires Valid() && i in byAddr && i in addr && i in size && 0 < n <= size[i] && PageAligned(n)
      requires n < size[i] ==> unused != []
      modifies this
      ensures Valid() && begin == old(begin) && end == old(end) && homes == old(homes) && mapped == old(mapped)
      ensures Free() == FreeAfter(old(Free()), old(Region(addr[i], size[i])), n)
      ensures InUse() == old(InUse()) + {Taken(old(Region(addr[i], size[i])), n)}
      ensures Used() == old(Used()) + {Info(Taken(old(Region(addr[i], size[i])), n), t)}
      ensures i in addr && addr[i] == Taken(old(Region(addr[i], size[i])), n).addr
      ensures |unused| >= |old(unused)| - (if n < old(size)[i] then 1 else 0)
      ensures Descs() == old(Descs()) && Total() == old(Total())
    {
      hide FreeOk, UsedOk, RolesOk, Partition, HomesOk, AllDescs, Regions, Infos, FreeAfter, RegionSets.Taken;
      ghost var f := Region(addr[i], size[i]);
      FreeFacts(byAddr, bySize, addr, size, bigger);
      AllocKeeps(Free(), InUse(), begin, end, f, n);
      TakenIsNew(Free(), InUse(), begin, end, f, n);
      MoveToUsed(i, n, t);
      SameDescs(old(byAddr), old(used), old(unused), byAddr, used, unused);
      HomesTaken(old(byAddr), old(used), old(unused), old(Free()), old(InUse()), homes, begin, end, f, n, byAddr, used, unused);
    }

    /** region_alloc_inner: 0 when no free region is large enough, or when the best
        fit would have to be split and the spare descriptors are not to be used. */
    method AllocInner(request: nat, t: string, useReserve: bool) returns (p: nat)
      requires Valid() && request > 0 && (useReserve ==> unused != [])
      modifies this
      ensures Valid() && begin == old(begin) && end == old(end) && homes == old(homes) && mapped == old(mapped)
      ensures Allocated(old(Free()), old(Used()), PageAlignUp(request), t, useReserve || old(|unused|) > 2, p, Free(), Used())
      ensures p == 0 ==> |unused| == |old(unused)|
      ensures |unused| >= |old(unused)| - 1
      ensures !useReserve && |old(unused)| >= 2 ==> |unused| >= 2
      ensures Descs() == old(Descs()) && Total() == old(Total())
      ensures p != 0 ==> InUse() == old(InUse()) + {Region(p, PageAlignUp(request))}
      ensures p != 0 ==> forall u :: u in old(InUse()) ==> Apart(u, Region(p, PageAlignUp(request)))
      ensures p != 0 ==> forall d :: d in Descs() ==> !Contains(Region(p, PageAlignUp(request)), d)
    {
      hide FreeOk, UsedOk, RolesOk, Partition, HomesOk, AllDescs, Regions, Infos, FreeAfter, FirstFit;
      AlignUp(request);
      var n := PageAlignUp(request);
      hide PageAlignUp, PageAligned;
      FreeFacts(byAddr, bySize, addr, size, bigger);
      SizeListFacts(bySize, size, bigger);
      FirstFitFits(byAddr, bySize, addr, size, bigger, n);
      var i := Search(n);
      if i.Null? { return 0; }
      var d := i.desc;
      ghost var f := Region(addr[d], size[d]);
      OnlyBestFits(Free(), n, f);
      if size[d] > n && nUnused <= N_RESERVE_DESCRIPTORS && !useReserve { return 0; }
      TakenPositive(Free(), InUse(), begin, end, f, n);
      TakenIsNew(Free(), InUse(), begin, end, f, n);
      TakenNotHome(byAddr, used, unused, Free(), InUse(), homes, begin, end, f, n);
      Carve(d, n, t);
      p := addr[d];
    }

    // ----- the public operations -----

    /** The refill loop of `region_alloc`: every descriptor that fits in the page. */
    method AddPage(q: nat)
      requires Valid() && Region(q, PAGE_SIZE) in InUse() && forall d :: d in Descs() ==> !Contains(Region(q, PAGE_SIZE), d)
      modifies this`unused, this`nUnused, this`homes
      ensures Valid() && homes == old(homes) + {Region(q, PAGE_SIZE)}
      ensures |unused| == |old(unused)| + 204
      ensures Descs() == old(Descs()) + PageDescs(q, 204)
    {
      hide FreeOk, UsedOk, Partition, HomesOk, Regions, Infos, Contains;
      ghost var page, k := Region(q, PAGE_SIZE), 0;
      DescsSplit(byAddr, used, unused, page);
      var d := q;
      while d + DESCRIPTOR_SIZE <= q + PAGE_SIZE
        decreases q + PAGE_SIZE - d
        invariant homes == old(homes) && d == q + DESCRIPTOR_SIZE * k && k <= DESCRIPTORS_PER_PAGE
        invariant |unused| == |old(unused)| + k && nUnused == |unused| && NoDup(unused)
        invariant forall e :: e in unused <==> e in old(unused) || e in PageDescs(q, k)
      {
        PageStep(q, k);
        assert d !in unused;
        AddUnused(d);
        d := d + DESCRIPTOR_SIZE;
        k := k + 1;
      }
      homes := homes + {page};
      PageIn(q);
      HomesPage(byAddr, used, old(unused), unused, Free(), InUse(), old(homes), begin, end, page, PageDescs(q, k));
    }

    /** Asks for the page at `q`, which succeeds if `ok`. */
    method MapPage(q: nat, ok: bool) returns (r: bool)
      modifies this`mapped
      ensures r == ok && mapped == old(mapped) + [q]
    {
      mapped := mapped + [q];
      r := ok;
    }

    /** region_alloc. `mapOk` is what mapping the page of new descriptors returns; it is
        asked for exactly when two descriptors are unused. If that fails, only a free
        region of the very size will do. Two descriptors always stay unused. */
    method Alloc(request: nat, t: string, mapOk: bool) returns (p: nat)
      requires Valid() && request > 0 && |unused| >= 2
      requires |unused| == 2 ==> byAddr != []   // room for a page of descriptors
      modifies this
      ensures Valid() && begin == old(begin) && end == old(end) && |unused| >= 2
      ensures if old(|unused|) > 2 then mapped == old(mapped) else exists q :: mapped == old(mapped) + [q]
      ensures old(|unused|) > 2 || !mapOk ==>
        && Allocated(old(Free()), old(Used()), PageAlignUp(request), t, old(|unused|) > 2, p, Free(), Used())
        && Descs() == old(Descs()) && homes == old(homes)
      ensures old(|unused|) > 2 ==> (p == 0 <==> forall f :: f in old(Free()) ==> f.size < PageAlignUp(request))
      ensures old(|unused|) == 2 && !mapOk ==> (p == 0 <==> forall f :: f in old(Free()) ==> f.size != PageAlignUp(request))
      ensures (old(|unused|) > 2 || !mapOk) && p == 0 ==> Free() == old(Free()) && Used() == old(Used())
      ensures old(|unused|) == 2 && mapOk ==> exists q ::
        && Refilled(old(Free()), old(Used()), q, PageAlignUp(request), t, p, Free(), Used())
        && Descs() == old(Descs()) + PageDescs(q, 204) && homes == old(homes) + {Region(q, 0x1000)}
        && mapped == old(mapped) + [q]
    {
      hide ListsOk, HomesOk, Partition, Allocated, Regions, Infos, AllDescs, Contains, Refilled, PageDescs;
      if nUnused <= N_RESERVE_DESCRIPTORS {
        PageFits(byAddr, bySize, used, unused, addr, size, typ, bigger, begin, end);
        HomesIn(byAddr, used, unused, Free(), InUse(), homes);
        var q := AllocInner(PAGE_SIZE, "Region descriptors", true);
        PageFound(old(Free()), old(Used()), q, Free(), Used());
        assert q != 0;
        var ok := MapPage(q, mapOk);
        if !ok {
          ghost var free1, used1 := Free(), Used();
          NotHome(homes, old(InUse()), q);
          FreeInner(q);
          ListsTiled(old(byAddr), old(bySize), old(used), old(unused), old(addr), old(size), old(typ), old(bigger), begin, end);
          AllocThenFree(old(Free()), old(Used()), begin, end, PAGE_SIZE, "Region descriptors", true, q, free1, used1, Free(), Used());
          Counts(old(byAddr), old(bySize), old(used), old(unused), old(addr), old(size), old(typ), old(bigger));
          Counts(byAddr, bySize, used, unused, addr, size, typ, bigger);
        } else {
          ghost var free1, used1 := Free(), Used();
          AddPage(q);
          p := AllocInner(request, t, false);
          RefilledAs(old(Free()), old(Used()), q, free1, used1, PageAlignUp(request), t, p, Free(), Used());
          return;
        }
      }
      p := AllocInner(request, t, false);
      NoneFits(old(Free()), old(Used()), PageAlignUp(request), t, old(|unused|) > 2, p, Free(), Used());
    }

    /** region_free */
    method FreeAt(p: nat)
      requires Tiled() && |unused| >= 2
      modifies this
      ensures Tiled() && begin == old(begin) && end == old(end) && homes == old(homes) && |unused| >= 2
      ensures old(Valid()) && (forall h :: h in homes ==> !Contains(h, p)) ==> Valid()
      ensures Released(old(Free()), old(Used()), p, Free(), Used()) && Descs() == old(Descs())
    {
      hide Valid, Tiled, Released, AllDescs, Regions, Infos, Contains;
      FreeInner(p);
    }

    /** find_region */
    method Find(p: nat) returns (found: bool, info: Info)
      requires Valid()
      ensures found <==> Owned(Used(), p)
      ensures found ==> info in Used() && Contains(info.region, p)
    {
      hide FreeOk, UsedOk, RolesOk, Partition, HomesOk, Regions, Infos;
      InfoOf(used, addr, size, typ);
      var u := FindUsed(p);
      if u.Null? { return false, Info(Region(0, 0), ""); }
      var d := u.desc;
      return true, Info(Region(addr[d], size[d]), typ[d]);
    }
  }

  datatype Side = Alone | Before(p: Desc) | After(q: Desc)

  lemma FreeLists(byAddr: seq<Desc>, bySize: seq<Desc>, addr: map<Desc, nat>, size: map<Desc, nat>, bigger: map<Desc, Link>)
    requires FreeOk(byAddr, bySize, addr, size, bigger)
    ensures Described(byAddr, addr, size) && FreeSorted(byAddr, addr, size)
  {
  }

  lemma InsertedBoth(byAddr: seq<Desc>, bySize: seq<Desc>, addr: map<Desc, nat>, size: map<Desc, nat>, bigger: map<Desc, Link>)
    requires Described(byAddr, addr, size) && FreeSorted(byAddr, addr, size)
    requires SizeListOk(bySize, size, bigger) && SameElems(byAddr, bySize)
    ensures FreeOk(byAddr, bySize, addr, size, bigger)
  {
  }
}
