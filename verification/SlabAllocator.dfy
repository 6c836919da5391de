/** The slab allocator: caches of equal objects on top of a source of pages, with its
    own descriptors in pages from the same source. */
module SlabAllocator {
  import opened SlabState
  import opened SlabSteps
  import opened SlabBlocks

  /** A request to the page source, and its answer: 0 when there is no memory. */
  datatype Request = Request(bytes: nat, given: nat)

  /** Since `asked0`, the page source refused a request exactly if not `ok`. */
  ghost predicate Answered(asked0: seq<Request>, asked: seq<Request>, ok: bool) {
    asked0 <= asked && (ok <==> forall k :: |asked0| <= k < |asked| ==> asked[k].given != 0)
  }

  lemma AnsweredNext(asked0: seq<Request>, asked: seq<Request>, r: Request)
    requires Answered(asked0, asked, true)
    ensures Answered(asked0, asked + [r], r.given != 0)
  {
    assert (asked + [r])[|asked|] == r;
  }

  ghost predicate HasRoom(cs: seq<Cache>) {
    exists j :: 0 <= j < |cs| && cs[j].free != []
  }

  /** The first cache with a free object. */
  ghost predicate IsFirstRoom(cs: seq<Cache>, j: nat) {
    j < |cs| && cs[j].free != [] && forall l :: 0 <= l < j ==> cs[l].free == []
  }

  /** The first type whose objects are large enough. */
  ghost predicate Chosen(types: seq<SlabType>, i: nat, sz: nat) {
    i < |types| && sz <= types[i].objSize && forall k :: 0 <= k < i ==> types[k].objSize < sz
  }

  class Slab {
    const types: seq<SlabType>
    var home: nat                  // the page with the allocator itself
    var slabs: seq<seq<Cache>>     // the caches of each type
    var regions: seq<Reg>          // all_regions
    var freeDescs: seq<nat>
    var mem: nat -> int            // the bytes of memory
    var held: map<nat, Page>       // what the page source has given and not got back
    ghost var roles: map<nat, Role>
    ghost var asked: seq<Request>  // what the page source was asked for

    /** create_slab_allocator, on a page got from the source: no cache, no region and no
        block; the rest of the page after the table of lists is unused descriptors. */
    constructor (ts: seq<SlabType>, page: nat, bytes: nat -> int)
      requires TypesOk(ts) && page > 0 && SlabTable(page, ts) <= page + PAGE_SIZE
      ensures Valid() && types == ts && held == map[page := Page(PAGE_SIZE, page)] && asked == [Request(0x1000, page)]
      ensures slabs == seq(|ts|, k => []) && regions == [] && forall a: nat, n: nat :: !Block(a, n)
      ensures |freeDescs| == (0x1000 - 24 - 4 * |ts|) / 16
    {
      types := ts;
      home, slabs, regions, freeDescs, mem := page, [], [], [], bytes;
      held, roles, asked := map[page := Page(PAGE_SIZE, page)], map[], [Request(PAGE_SIZE, page)];
      new;
      Init();
    }

    method Init()
      requires TypesOk(types) && home > 0 && SlabTable(home, types) <= home + PAGE_SIZE
      requires slabs == [] && regions == [] && freeDescs == [] && held == map[home := Page(PAGE_SIZE, home)]
      modifies this`slabs, this`freeDescs, this`mem, this`roles
      ensures Valid() && slabs == seq(|types|, k => []) && forall a: nat, n: nat :: !Block(a, n)
      ensures |freeDescs| == (0x1000 - 24 - 4 * |types|) / 16
    {
      hide StateOk, Busy, Live;
      var t := 0;
      while t < |types|
        invariant t <= |types| && slabs == seq(t, k => [])
        invariant freeDescs == []
      {
        assert types[t].objSize >= 4;
        slabs := slabs + [[]];
        t := t + 1;
      }
      var d := SlabTable(home, types);
      ghost var k: nat := 0;
      while d + DESC_SIZE <= home + PAGE_SIZE
        invariant d == SlabTable(home, types) + DESC_SIZE * k && freeDescs == Descs(SlabTable(home, types), k) && slabs == seq(|types|, k => [])
        invariant d <= home + PAGE_SIZE
        decreases home + PAGE_SIZE - d
      {
        AddFreeDescriptor(d);
        d := d + DESC_SIZE;
        k := k + 1;
      }
      DescsAre(SlabTable(home, types), k);
      roles := map e | e in Elems(freeDescs) :: Role(Unused, home);
      StartsOk(types, slabs, home, k, roles);
    }

    ghost predicate Ok()
      reads this
    {
      StateOk(types, slabs, regions, freeDescs, home, held, roles)
    }

    /** Also, no cache is kept without an object in use. */
    ghost predicate Valid()
      reads this
    {
      Ok() && Busy(types, slabs)
    }

    ghost predicate Block(a: nat, n: nat)
      requires TypesOk(types) && |slabs| == |types|
      reads this
    {
      Live(types, slabs, regions, a, n)
    }

    // ----- the outside -----

    /** The page source: nothing, or memory apart from all it has given. */
    method AllocPages(bytes: nat) returns (p: nat)
      modifies this`asked
      ensures p == 0 || Fresh(held, p, bytes)
      ensures asked == old(asked) + [Request(bytes, p)]
    {
      var q: nat := *;
      p := if Fresh(held, q, bytes) then q else 0;
      asked := asked + [Request(bytes, p)];
    }

    method FreePages(p: nat)
      requires p in held
      modifies this`held
      ensures held == old(held) - {p}
    {
      held := held - {p};
    }

    /** Writes something of the allocator's own into memory. */
    method Scribble(p: nat, n: nat)
      modifies this`mem
      ensures forall x: nat :: !(p <= x < p + n) ==> mem(x) == old(mem)(x)
    {
      var m := mem;
      var w: nat -> int := *;
      mem := (x: nat) => if p <= x < p + n then w(x) else m(x);
    }

    // ----- descriptors -----

    /** add_free_descriptor */
    method AddFreeDescriptor(d: nat)
      modifies this`freeDescs, this`mem
      ensures freeDescs == [d] + old(freeDescs)
      ensures forall x: nat :: !(d <= x < d + DESC_SIZE) ==> mem(x) == old(mem)(x)
    {
      Scribble(d, DESC_SIZE);
      freeDescs := [d] + freeDescs;
    }

    /** The loop of take_descriptor over a fresh page. */
    method AddPage(p: nat)
      requires freeDescs == []
      modifies this`freeDescs, this`mem
      ensures freeDescs == Descs(p, DESCS_PER_PAGE)
      ensures forall x: nat :: !(p <= x < p + PAGE_SIZE) ==> mem(x) == old(mem)(x)
    {
      ghost var k := 0;
      var i := p;
      while i + DESC_SIZE <= p + PAGE_SIZE
        invariant k <= DESCS_PER_PAGE && i == p + DESC_SIZE * k && freeDescs == Descs(p, k)
        invariant forall x: nat :: !(p <= x < p + PAGE_SIZE) ==> mem(x) == old(mem)(x)
        decreases p + PAGE_SIZE - i
      {
        AddFreeDescriptor(i);
        i := i + DESC_SIZE;
        k := k + 1;
      }
    }

    /** take_descriptor */
    method TakeDescriptor() returns (ok: bool, d: nat)
      requires Ok()
      modifies this`regions, this`freeDescs, this`held, this`roles, this`mem, this`asked
      ensures Ok() && Undisturbed(types, slabs, old(regions), old(mem), slabs, regions, mem)
      ensures Answered(old(asked), asked, ok)
      ensures if old(freeDescs) != [] then asked == old(asked) else |asked| == |old(asked)| + 1 && asked[|old(asked)|].bytes == 0x1000
      ensures ok ==> d in roles && roles[d].kind == Unused && d !in freeDescs
      ensures ok ==> |freeDescs| == if old(freeDescs) == [] then 254 else |old(freeDescs)| - 1
      ensures Grows(old(held), held) && (!ok ==> held == old(held))
    {
      hide StateOk, Live, Fresh, Descs, PageRoles;
      StateParts(types, slabs, regions, freeDescs, home, held, roles);
      d := 0;
      if freeDescs == [] {
        var p := AllocPages(PAGE_SIZE);
        AnsweredNext(old(asked), old(asked), Request(PAGE_SIZE, p));
        if p == 0 { return false, 0; }
        PageAdded(types, slabs, regions, home, held, roles, p);
        PageOutside(types, slabs, regions, held, roles, p, PAGE_SIZE);
        AddPage(p);
        OutsideKeeps(types, slabs, regions, old(mem), mem, p, PAGE_SIZE);
        DescsFirst(p);
        DescsAre(p, DESCS_PER_PAGE);
        FreshIsNew(held, p, PAGE_SIZE);
        var dd := freeDescs[0];
        freeDescs := freeDescs[1..];
        var r := Reg(dd, p, PAGE_SIZE, true);
        HoldsNothing(types, slabs, regions, r);
        regions := [r] + regions;
        held := held[p := Page(PAGE_SIZE, dd)];
        roles := PageRoles(roles, p, DESCS_PER_PAGE);
      }
      PopDesc(types, slabs, regions, freeDescs, home, held, roles);
      ok, d := true, freeDescs[0];
      freeDescs := freeDescs[1..];
    }

    // ----- allocation -----

    /** The loop that threads the objects of a new cache: the free list and its length. */
    method ThreadObjects(t: SlabType, addr: nat) returns (free: seq<nat>, n: int)
      requires TypeOk(t)
      modifies this`mem
      ensures free == Objects(t, addr, Capacity(t)) && n == Capacity(t)
      ensures forall x: nat :: !(addr <= x < addr + CacheSize(t)) ==> mem(x) == old(mem)(x)
    {
      free, n := [], 0;
      var p := addr;
      ghost var k: nat := 0;
      while p + t.objSize <= addr + CacheSize(t)
        invariant k <= Capacity(t) && p == ObjectAt(t, addr, k) && free == Objects(t, addr, k) && n == k
        invariant forall x: nat :: !(addr <= x < addr + CacheSize(t)) ==> mem(x) == old(mem)(x)
        decreases addr + CacheSize(t) - p
      {
        RoomFor(t, addr, k);
        Scribble(p, 4);
        free := [p] + free;
        n := n + 1;
        assert (k + 1) * t.objSize == k * t.objSize + t.objSize;
        p := p + t.objSize;
        k := k + 1;
      }
      if k < Capacity(t) { ObjectIn(t, addr, k); }
    }

    /** Makes a fresh piece of memory a cache in front of its list, all its objects free. */
    method FillCache(i: nat, d: nat, addr: nat)
      requires Ok() && i < |types| && d in roles && roles[d].kind == Unused && d !in freeDescs && Fresh(held, addr, CacheSize(types[i]))
      modifies this`slabs, this`held, this`roles, this`mem
      ensures Ok() && Undisturbed(types, old(slabs), regions, old(mem), slabs, regions, mem)
      ensures exists c :: slabs == old(slabs)[i := [c] + old(slabs)[i]] && CacheOk(types[i], c) && c.free != []
                          && |c.free| == types[i].pages * 0x1000 / types[i].objSize
    {
      hide StateOk, Live, Fresh, CacheOk, Objects, TypesOk, CachesOk, RegionsOk, HeldApart, Housed, UnusedOk, Recorded;
      StateParts(types, slabs, regions, freeDescs, home, held, roles);
      TypeAt(types, i);
      var t := types[i];
      PageOutside(types, slabs, regions, held, roles, addr, CacheSize(t));
      var free, n := ThreadObjects(t, addr);
      OutsideKeeps(types, slabs, regions, old(mem), mem, addr, CacheSize(t));
      var c := Cache(d, addr, free, n);
      FullCache(t, c);
      ObjectsAre(t, addr, Capacity(t));
      LinkCache(types, slabs, regions, freeDescs, home, held, roles, i, c);
      FreeCacheBlocks(types, slabs, regions, i, c);
      held := held[addr := Page(CacheSize(t), d)];
      roles := WithKind(roles, d, ForCache(i));
      slabs := slabs[i := [c] + slabs[i]];
    }

    /** A new cache in front of its list, all its objects free. */
    method NewCache(i: nat) returns (ok: bool)
      requires Ok() && i < |types|
      modifies this`slabs, this`regions, this`freeDescs, this`held, this`roles, this`mem, this`asked
      ensures Ok() && Undisturbed(types, old(slabs), old(regions), old(mem), slabs, regions, mem)
      ensures Answered(old(asked), asked, ok) && |asked| > |old(asked)|
      ensures ok ==> asked[|asked| - 1].bytes == types[i].pages * 0x1000
      ensures ok ==> exists c :: slabs == old(slabs)[i := [c] + old(slabs)[i]] && CacheOk(types[i], c) && c.free != []
                                 && |c.free| == types[i].pages * 0x1000 / types[i].objSize
      ensures !ok ==> slabs == old(slabs)
    {
      hide StateOk, Live, Fresh, CacheOk, Objects, TypesOk, Undisturbed;
      StateFirst(types, slabs, regions, freeDescs, home, held, roles);
      var d;
      ok, d := TakeDescriptor();
      if !ok { return; }
      StateFirst(types, slabs, regions, freeDescs, home, held, roles);
      ghost var m1, regs, asked1 := mem, regions, asked;
      var addr := AllocPages(CacheSize(types[i]));
      AnsweredNext(old(asked), asked1, Request(CacheSize(types[i]), addr));
      ok := addr != 0;
      if ok { FillCache(i, d, addr); } else { GiveBack(d); }
      StateFirst(types, slabs, regions, freeDescs, home, held, roles);
      UndisturbedTwice(types, old(slabs), old(regions), old(mem), old(slabs), regs, m1, slabs, regions, mem);
    }

    /** Puts a descriptor that was taken back. */
    method GiveBack(d: nat)
      requires Ok() && d in roles && roles[d].kind == Unused && d !in freeDescs
      modifies this`freeDescs, this`mem
      ensures Ok() && Undisturbed(types, slabs, regions, old(mem), slabs, regions, mem)
    {
      hide StateOk, Live;
      StateParts(types, slabs, regions, freeDescs, home, held, roles);
      PushDesc(types, slabs, regions, freeDescs, home, held, roles, d);
      forall a: nat, n: nat | Live(types, slabs, regions, a, n) ensures Apart(a, n, d, DESC_SIZE) {
        DescOutside(types, slabs, regions, freeDescs, home, held, roles, d, a, n);
      }
      AddFreeDescriptor(d);
      OutsideKeeps(types, slabs, regions, old(mem), mem, d, DESC_SIZE);
    }

    /** Takes the first free object of a cache. */
    method TakeObject(i: nat, j: nat) returns (x: nat)
      requires Ok() && i < |types| && i < |slabs| && j < |slabs[i]| && slabs[i][j].free != []
      requires BusyBut(types, slabs, i, j)
      modifies this`slabs
      ensures Valid() && AddsBlock(types, old(slabs), regions, slabs, regions, x, types[i].objSize) && x != 0
      ensures x == old(slabs)[i][j].free[0]
      ensures slabs == old(slabs)[i := old(slabs)[i][j := old(slabs)[i][j].(free := old(slabs)[i][j].free[1..], nFree := old(slabs)[i][j].nFree - 1)]]
    {
      hide StateOk, Live, CacheOk, LiveIn, CachesOk, RegionsOk, Housed, HeldApart, UnusedOk, Recorded, Busy, BusyBut, CacheHeld, AddsBlock;
      StateParts(types, slabs, regions, freeDescs, home, held, roles);
      CacheFacts(types, slabs, held, roles, i, j);
      var c := slabs[i][j];
      x := c.free[0];
      var c' := c.(free := c.free[1..], nFree := c.nFree - 1);
      TakenCache(types[i], c);
      ReplaceCache(types, slabs, regions, freeDescs, home, held, roles, i, j, c');
      TakenBlocks(types, slabs, regions, freeDescs, home, held, roles, i, j, c');
      ObjectPositive(types[i], c, held, x);
      slabs := slabs[i := slabs[i][j := c']];
    }

    /** The first cache of a list with a free object, or the end of the list. */
    method FindRoom(i: nat) returns (j: nat)
      requires Ok() && i < |slabs|
      ensures |slabs| == |types| && j <= |slabs[i]| && (j < |slabs[i]| ==> slabs[i][j].free != [])
      ensures forall l :: 0 <= l < j ==> slabs[i][l].nFree == 0 && slabs[i][l].free == []
    {
      hide StateOk, CachesOk, CacheOk, TypesOk, RegionsOk, HeldApart, Housed, UnusedOk, Recorded;
      StateParts(types, slabs, regions, freeDescs, home, held, roles);
      FreeCounts(types, slabs, held, roles, i);
      j := 0;
      while j < |slabs[i]| && slabs[i][j].nFree == 0
        modifies {}
        invariant j <= |slabs[i]| && forall l :: 0 <= l < j ==> slabs[i][l].nFree == 0 && slabs[i][l].free == []
      {
        assert slabs[i][j].free == [];
        j := j + 1;
      }
    }

    /** slab_alloc, from the caches of one type. */
    method AllocObject(i: nat) returns (p: nat)
      requires Valid() && i < |types|
      modifies this`slabs, this`regions, this`freeDescs, this`held, this`roles, this`mem, this`asked
      ensures Valid() && KeepsBlocks(types, old(slabs), old(regions), old(mem), mem)
      ensures p == 0 ==> SameBlocks(types, old(slabs), old(regions), slabs, regions)
      ensures p != 0 ==> AddsBlock(types, old(slabs), old(regions), slabs, regions, p, types[i].objSize)
      ensures Answered(old(asked), asked, p != 0)
      ensures i < |old(slabs)| && (asked == old(asked) <==> HasRoom(old(slabs)[i]))
      ensures forall j: nat :: IsFirstRoom(old(slabs)[i], j) ==> p == old(slabs)[i][j].free[0]
    {
      hide StateOk, Live, CacheOk, TypesOk, Busy, BusyBut, AddsBlock, SameBlocks, KeepsBlocks;
      StateFirst(types, slabs, regions, freeDescs, home, held, roles);
      NothingHappened(types, slabs, regions, mem);
      var j := FindRoom(i);
      BusyAll(types, slabs, i, j);
      if j == |slabs[i]| {
        var ok := NewCache(i);
        StateFirst(types, slabs, regions, freeDescs, home, held, roles);
        if !ok { return 0; }
        j := 0;
        ghost var c :| slabs == old(slabs)[i := [c] + old(slabs)[i]] && CacheOk(types[i], c) && c.free != [];
        BusyAdded(types, old(slabs), i, c);
      }
      ghost var slabs1 := slabs;
      p := TakeObject(i, j);
      StateFirst(types, slabs, regions, freeDescs, home, held, roles);
      AddsAfter(types, old(slabs), old(regions), slabs1, regions, slabs, regions, p, types[i].objSize);
    }

    /** slab_alloc, for a size above every type. */
    method AllocWhole(sz: nat) returns (p: nat)
      requires Valid()
      modifies this`slabs, this`regions, this`freeDescs, this`held, this`roles, this`mem, this`asked
      ensures Valid() && KeepsBlocks(types, old(slabs), old(regions), old(mem), mem)
      ensures p == 0 ==> SameBlocks(types, old(slabs), old(regions), slabs, regions)
      ensures p != 0 ==> AddsBlock(types, old(slabs), old(regions), slabs, regions, p, sz)
      ensures Answered(old(asked), asked, p != 0)
      ensures p != 0 ==> |asked| > |old(asked)| && asked[|asked| - 1] == Request(sz, p)
    {
      hide StateOk, Live, CacheOk, TypesOk, Busy, AddsBlock, SameBlocks, KeepsBlocks, Fresh, CachesOk, RegionsOk, HeldApart, Housed, UnusedOk, Recorded;
      StateFirst(types, slabs, regions, freeDescs, home, held, roles);
      var ok, d := TakeDescriptor();
      StateParts(types, slabs, regions, freeDescs, home, held, roles);
      if !ok { return 0; }
      ghost var m1, regs, asked1 := mem, regions, asked;
      p := AllocPages(sz);
      AnsweredNext(old(asked), asked1, Request(sz, p));
      if p == 0 {
        GiveBack(d);
        UndisturbedTwice(types, old(slabs), old(regions), old(mem), slabs, regs, m1, slabs, regions, mem);
        StateFirst(types, slabs, regions, freeDescs, home, held, roles);
        return;
      }
      var r := Reg(d, p, sz, false);
      LinkRegion(types, slabs, regions, freeDescs, home, held, roles, r);
      WholeBlock(types, slabs, regions, held, roles, r);
      AddsAfter(types, slabs, old(regions), slabs, regions, slabs, [r] + regions, p, sz);
      regions := [r] + regions;
      held := held[p := Page(sz, d)];
      roles := WithKind(roles, d, ForRegion);
    }

    /** slab_alloc: a new block of the size the request comes to, apart from every
        block handed out, or nothing; the contents of the other blocks stay. */
    method Alloc(sz: nat) returns (p: nat)
      requires Valid()
      modifies this`slabs, this`regions, this`freeDescs, this`held, this`roles, this`mem, this`asked
      ensures Valid() && KeepsBlocks(types, old(slabs), old(regions), old(mem), mem)
      ensures p == 0 ==> SameBlocks(types, old(slabs), old(regions), slabs, regions)
      ensures p != 0 ==> AddsBlock(types, old(slabs), old(regions), slabs, regions, p, SizeFor(types, sz))
      ensures Answered(old(asked), asked, p != 0)
      ensures forall i: nat :: Chosen(types, i, sz) && i < |old(slabs)| && HasRoom(old(slabs)[i]) ==> p != 0 && asked == old(asked)
    {
      hide StateOk, TypesOk, Busy, AddsBlock, SameBlocks, KeepsBlocks;
      StateFirst(types, slabs, regions, freeDescs, home, held, roles);
      var i := 0;
      while i < |types|
        invariant i <= |types| && SizeFor(types, sz) == SizeFrom(types, i, sz)
        invariant slabs == old(slabs) && regions == old(regions) && freeDescs == old(freeDescs)
        invariant held == old(held) && roles == old(roles) && mem == old(mem) && asked == old(asked)
        invariant forall k :: 0 <= k < i ==> types[k].objSize < sz
      {
        if sz <= types[i].objSize {
          p := AllocObject(i);
          assert forall k: nat :: Chosen(types, k, sz) ==> k == i;
          return;
        }
        i := i + 1;
      }
      p := AllocWhole(sz);
    }

    // ----- release -----

    /** The cache whose memory holds an address, the first one in the order of the lists. */
    method FindCache(addr: nat) returns (found: bool, i: nat, j: nat)
      requires |slabs| == |types|
      ensures found ==> i < |slabs| && j < |slabs[i]| && Contains(types[i], slabs[i][j], addr)
      ensures !found ==> forall k, l :: 0 <= k < |slabs| && 0 <= l < |slabs[k]| ==> !Contains(types[k], slabs[k][l], addr)
    {
      i := 0;
      while i < |types|
        invariant i <= |types|
        invariant forall k, l :: 0 <= k < i && 0 <= l < |slabs[k]| ==> !Contains(types[k], slabs[k][l], addr)
      {
        j := 0;
        while j < |slabs[i]|
          invariant j <= |slabs[i]| && forall l :: 0 <= l < j ==> !Contains(types[i], slabs[i][l], addr)
        {
          if slabs[i][j].addr <= addr < slabs[i][j].addr + CacheSize(types[i]) { return true, i, j; }
          j := j + 1;
        }
        i := i + 1;
      }
      found, j := false, 0;
    }

    /** Puts an object back on the free list of its cache. */
    method PutObject(i: nat, j: nat, addr: nat, ghost n: nat)
      requires Ok() && |slabs| == |types| && i < |slabs| && j < |slabs[i]| && TypeOk(types[i]) && LiveIn(types[i], slabs[i][j], addr, n)
      modifies this`slabs, this`mem
      ensures Ok() && KeepsBlocks(types, slabs, regions, old(mem), mem)
      ensures DropsBlock(types, old(slabs), regions, slabs, regions, addr, n)
      ensures slabs == old(slabs)[i := old(slabs)[i][j := Put(old(slabs)[i][j], addr)]]
    {
      hide StateOk, Live, CacheOk, TypesOk, LiveIn, CachesOk, RegionsOk, HeldApart, Housed, UnusedOk, Recorded, DropsBlock;
      StateParts(types, slabs, regions, freeDescs, home, held, roles);
      CacheFacts(types, slabs, held, roles, i, j);
      var c := Put(slabs[i][j], addr);
      PutCache(types[i], slabs[i][j], addr, n);
      ReplaceCache(types, slabs, regions, freeDescs, home, held, roles, i, j, c);
      FreedBlocks(types, slabs, regions, held, roles, i, j, addr, n);
      FreedOutside(types, slabs, slabs[i := slabs[i][j := c]], regions, held, roles, i, j, addr, n);
      slabs := slabs[i := slabs[i][j := c]];
      Scribble(addr, 4);
      WithinKeeps(types, slabs, regions, old(mem), mem, addr, n);
    }

    /** A cache without an object in use goes: its memory back to the page source, its
        descriptor to the unused ones. */
    method DropCache(i: nat, j: nat)
      requires Ok() && |slabs| == |types| && i < |slabs| && j < |slabs[i]| && TypeOk(types[i]) && slabs[i][j].nFree == Capacity(types[i])
      modifies this`slabs, this`freeDescs, this`held, this`roles, this`mem
      ensures Ok() && Undisturbed(types, old(slabs), regions, old(mem), slabs, regions, mem)
      ensures slabs == old(slabs)[i := RemoveAt(old(slabs)[i], j)] && held == old(held) - {old(slabs)[i][j].addr}
    {
      hide StateOk, Live, CacheOk, TypesOk, LiveIn, CachesOk, RegionsOk, HeldApart, Housed, UnusedOk, Recorded, RemoveAt, WithKind, Undisturbed;
      StateParts(types, slabs, regions, freeDescs, home, held, roles);
      CacheFacts(types, slabs, held, roles, i, j);
      var c := slabs[i][j];
      DropBlocks(types, slabs, regions, mem, i, j);
      UnlinkCache(types, slabs, regions, freeDescs, home, held, roles, i, j);
      NowUnused(roles, c.desc);
      slabs := slabs[i := RemoveAt(slabs[i], j)];
      roles := WithKind(roles, c.desc, Unused);
      FreePages(c.addr);
      GiveBack(c.desc);
      UndisturbedTwice(types, old(slabs), regions, old(mem), slabs, regions, old(mem), slabs, regions, mem);
    }

    /** slab_free, for an object of a cache: the cache's pages go back exactly when
        this was its last object in use. */
    method FreeObject(i: nat, j: nat, addr: nat, ghost n: nat)
      requires Valid() && |slabs| == |types| && i < |slabs| && j < |slabs[i]| && TypeOk(types[i]) && LiveIn(types[i], slabs[i][j], addr, n)
      modifies this`slabs, this`freeDescs, this`held, this`roles, this`mem
      ensures Valid() && DropsBlock(types, old(slabs), regions, slabs, regions, addr, n)
      ensures KeepsBlocks(types, slabs, regions, old(mem), mem)
      ensures held == if LastOne(types[i], old(slabs)[i][j], addr) then old(held) - {old(slabs)[i][j].addr} else old(held)
    {
      hide StateOk, Live, CacheOk, TypesOk, LiveIn, DropsBlock, RemoveAt, KeepsBlocks, Busy, BusyBut, SameBlocks, LastOne, InUse;
      StateFirst(types, slabs, regions, freeDescs, home, held, roles);
      BusyAll(types, slabs, i, j);
      ghost var c := slabs[i][j];
      LastObject(types, slabs, held, roles, freeDescs, home, regions, i, j, addr, n);
      PutObject(i, j, addr, n);
      ghost var slabs1, m1 := slabs, mem;
      if slabs[i][j].nFree == CacheSize(types[i]) / types[i].objSize {
        BusyDropped(types, old(slabs), i, j, Put(c, addr));
        DropCache(i, j);
        StateFirst(types, slabs, regions, freeDescs, home, held, roles);
        DropsThen(types, old(slabs), regions, old(mem), slabs1, m1, slabs, regions, mem, addr, n);
      } else {
        StillUsed(types, slabs, held, roles, freeDescs, home, regions, i, j);
        BusyAgain(types, old(slabs), i, j, Put(c, addr));
      }
    }

    /** slab_free, for a block handed out whole. */
    method FreeWhole(addr: nat, ghost n: nat)
      requires Valid() && Block(addr, n)
      requires forall k, l :: 0 <= k < |slabs| && 0 <= l < |slabs[k]| ==> !Contains(types[k], slabs[k][l], addr)
      modifies this`regions, this`freeDescs, this`held, this`roles, this`mem
      ensures Valid() && DropsBlock(types, slabs, old(regions), slabs, regions, addr, n)
      ensures KeepsBlocks(types, slabs, regions, old(mem), mem) && held == old(held) - {addr}
    {
      hide StateOk, CacheOk, TypesOk, LiveIn, CachesOk, RegionsOk, HeldApart, Housed, UnusedOk, Recorded, RemoveAt, WithKind, Undisturbed, Busy, Contains, DropsBlock, Live;
      StateParts(types, slabs, regions, freeDescs, home, held, roles);
      InNoCache(types, slabs, regions, addr, n);
      var k := 0;
      while k < |regions| && regions[k].addr != addr
        invariant k <= |regions| && forall i :: 0 <= i < k ==> regions[i].addr != addr
      {
        k := k + 1;
      }
      assert k < |regions|;
      WholeFreed(types, slabs, regions, held, roles, k, addr, n);
      var r := regions[k];
      UnlinkRegion(types, slabs, regions, freeDescs, home, held, roles, k);
      NowUnused(roles, r.desc);
      FreePages(addr);
      regions := RemoveAt(regions, k);
      roles := WithKind(roles, r.desc, Unused);
      ghost var regs := regions;
      GiveBack(r.desc);
      StateFirst(types, slabs, regions, freeDescs, home, held, roles);
      UndisturbedKeeps(types, slabs, regions, old(mem), mem);
    }

    /** slab_free: exactly the block goes, and the contents of the others stay. */
    method Free(addr: nat, ghost n: nat)
      requires Valid() && Block(addr, n)
      modifies this`slabs, this`regions, this`freeDescs, this`held, this`roles, this`mem
      ensures Valid() && DropsBlock(types, old(slabs), old(regions), slabs, regions, addr, n)
      ensures KeepsBlocks(types, slabs, regions, old(mem), mem)
    {
      hide StateOk, CacheOk, TypesOk, LiveIn, CachesOk, RegionsOk, HeldApart, Housed, UnusedOk, Recorded, Busy, DropsBlock, Live, KeepsBlocks, Contains;
      StateParts(types, slabs, regions, freeDescs, home, held, roles);
      var found, i, j := FindCache(addr);
      if found {
        FoundCache(types, slabs, regions, held, roles, i, j, addr, n);
        assert (addr - slabs[i][j].addr) % types[i].objSize == 0 && addr !in slabs[i][j].free;
        FreeObject(i, j, addr, n);
      } else {
        FreeWhole(addr, n);
      }
    }

    /** slab_find_getsize */
    method FindGetSize(addr: nat, ghost n: nat) returns (size: nat)
      requires Valid() && Block(addr, n)
      ensures size == n
    {
      hide StateOk, CacheOk, TypesOk, LiveIn, CachesOk, RegionsOk, HeldApart, Housed, UnusedOk, Recorded, Busy, Live, Contains;
      StateParts(types, slabs, regions, freeDescs, home, held, roles);
      var found, i, j := FindCache(addr);
      if found {
        FoundCache(types, slabs, regions, held, roles, i, j, addr, n);
        return types[i].objSize;
      }
      InNoCache(types, slabs, regions, addr, n);
      var k := 0;
      while k < |regions| && regions[k].addr != addr
        invariant k <= |regions| && forall i :: 0 <= i < k ==> regions[i].addr != addr
      {
        k := k + 1;
      }
      assert k < |regions|;
      WholeFreed(types, slabs, regions, held, roles, k, addr, n);
      size := regions[k].size;
    }

    /** memcpy, between pieces of memory that do not overlap. */
    method Memcpy(p: nat, q: nat, n: nat)
      requires Apart(p, n, q, n)
      modifies this`mem
      ensures Copied(old(mem), mem, q, p, n)
    {
      var k: nat := 0;
      while k < n
        invariant k <= n && Copied(old(mem), mem, q, p, k)
      {
        var m, kk := mem, k;
        mem := (x: nat) => if x == p + kk then m(q + kk) else m(x);
        CopyStep(old(mem), m, mem, q, p, k, n);
        k := k + 1;
      }
    }

    /** slab_realloc of a block to a size that is not 0: it stays where it is when its size
        would not change; otherwise it moves, with the common prefix of its contents, or,
        when there is no memory, everything stays. */
    method Realloc(ptr: nat, sz: nat, ghost n: nat) returns (p: nat)
      requires Valid() && Block(ptr, n) && sz > 0
      modifies this`slabs, this`regions, this`freeDescs, this`held, this`roles, this`mem, this`asked
      ensures Valid() && Answered(old(asked), asked, p != 0)
      ensures n == SizeFor(types, sz) ==> asked == old(asked)
      ensures n == SizeFor(types, sz) ==> p == ptr && Undisturbed(types, old(slabs), old(regions), old(mem), slabs, regions, mem)
      ensures n != SizeFor(types, sz) && p == 0 ==> Undisturbed(types, old(slabs), old(regions), old(mem), slabs, regions, mem)
      ensures n != SizeFor(types, sz) && p != 0 ==>
                Moved(types, old(slabs), old(regions), old(mem), slabs, regions, mem, ptr, n, p, SizeFor(types, sz), if n < sz then n else sz)
    {
      hide StateOk, TypesOk, Busy, AddsBlock, SameBlocks, KeepsBlocks, Live, Moved, SizeFrom, DropsBlock, CachesOk, RegionsOk, HeldApart, Housed, UnusedOk, Recorded;
      StateParts(types, slabs, regions, freeDescs, home, held, roles);
      LiveSize(types, slabs, regions, held, roles, ptr, n);
      NothingHappened(types, slabs, regions, mem);
      var oldSize := FindGetSize(ptr, n);
      var newSize: nat := 0;
      var i := 0;
      while i < |types|
        modifies {}
        invariant i <= |types| && newSize == 0 && SizeFor(types, sz) == SizeFrom(types, i, sz)
      {
        SizeStep(types, i, sz);
        if sz <= types[i].objSize { newSize := types[i].objSize; break; }
        i := i + 1;
      }
      SizeStep(types, i, sz);
      if newSize == 0 { newSize := sz; }
      BlockPositive(types, slabs, regions, held, roles, ptr, n);
      if oldSize == newSize { return ptr; }
      p := Alloc(sz);
      StateFirst(types, slabs, regions, freeDescs, home, held, roles);
      if p == 0 { return; }
      ghost var slabs1, regions1, mem1 := slabs, regions, mem;
      var least := if oldSize < sz then oldSize else sz;
      SizeFits(types, 0, sz);
      NewApart(types, old(slabs), old(regions), slabs, regions, ptr, n, p, newSize, least);
      Memcpy(p, ptr, least);
      ghost var mem2 := mem;
      Free(ptr, n);
      StateFirst(types, slabs, regions, freeDescs, home, held, roles);
      MovedBlock(types, old(slabs), old(regions), old(mem), slabs1, regions1, mem1, mem2, slabs, regions, mem, ptr, n, p, newSize, least);
    }

    /** slab_realloc */
    method Reallocate(ptr: nat, sz: nat, ghost n: nat) returns (p: nat)
      requires Valid() && (ptr != 0 ==> Block(ptr, n))
      modifies this`slabs, this`regions, this`freeDescs, this`held, this`roles, this`mem, this`asked
      ensures Valid()
      ensures if ptr != 0 && sz == 0 then asked == old(asked) else Answered(old(asked), asked, p != 0)
      ensures ptr == 0 ==> KeepsBlocks(types, old(slabs), old(regions), old(mem), mem)
      ensures ptr == 0 && p == 0 ==> SameBlocks(types, old(slabs), old(regions), slabs, regions)
      ensures ptr == 0 && p != 0 ==> AddsBlock(types, old(slabs), old(regions), slabs, regions, p, SizeFor(types, sz))
      ensures ptr != 0 && sz == 0 ==> p == 0 && DropsBlock(types, old(slabs), old(regions), slabs, regions, ptr, n)
      ensures ptr != 0 && sz == 0 ==> KeepsBlocks(types, slabs, regions, old(mem), mem)
      ensures ptr != 0 && sz != 0 && (p == 0 || n == SizeFor(types, sz)) ==>
                (p == 0 || p == ptr) && Undisturbed(types, old(slabs), old(regions), old(mem), slabs, regions, mem)
      ensures ptr != 0 && sz != 0 && p != 0 && n != SizeFor(types, sz) ==>
                Moved(types, old(slabs), old(regions), old(mem), slabs, regions, mem, ptr, n, p, SizeFor(types, sz), if n < sz then n else sz)
    {
      hide StateOk, TypesOk, Busy, AddsBlock, SameBlocks, KeepsBlocks, Live, Moved, SizeFrom, DropsBlock;
      StateFirst(types, slabs, regions, freeDescs, home, held, roles);
      if ptr == 0 {
        p := Alloc(sz);
      } else if sz == 0 {
        Free(ptr, n);
        p := 0;
      } else {
        p := Realloc(ptr, sz, n);
      }
      StateFirst(types, slabs, regions, freeDescs, home, held, roles);
    }

    // ----- the end -----

    /** Reads a cache's record, in a page still held. */
    method ReadCache(i: nat, j: nat) returns (addr: nat)
      requires i < |slabs| && j < |slabs[i]| && slabs[i][j].desc in roles && roles[slabs[i][j].desc].page in held
      ensures addr == slabs[i][j].addr
    {
      addr := slabs[i][j].addr;
    }

    /** Reads the link to the next cache, in a page still held. */
    method NextCache(i: nat, j: nat) returns (l: nat)
      requires i < |slabs| && j < |slabs[i]| && slabs[i][j].desc in roles && roles[slabs[i][j].desc].page in held
      ensures l == j + 1
    {
      l := j + 1;
    }

    /** Reads or relinks a region's record, in a page still held. */
    method ReadRegion(r: Reg) returns (addr: nat)
      requires r.desc in roles && roles[r.desc].page in held
      ensures addr == r.addr
    {
      addr := r.addr;
    }

    /** The first loop of destroy_slab_allocator: the pages of every cache go back. */
    method DestroyCaches()
      requires Ok()
      modifies this`held
      ensures Shrunk(old(held), held) && RegionsLeft(home, regions, roles, held)
    {
      hide StateOk, CacheOk, TypesOk, CachesOk, RegionsOk, HeldApart, Housed, UnusedOk, Recorded, RegionsLeft, Shrunk, Pending;
      StateParts(types, slabs, regions, freeDescs, home, held, roles);
      PendingAll(types, slabs, regions, freeDescs, home, held, roles);
      var i := 0;
      while i < |types|
        invariant i <= |types| && |slabs| == |types| && Pending(home, slabs, regions, roles, old(held), held, i, 0)
      {
        var j := 0;
        PendingHome(home, slabs, regions, roles, old(held), held, i, j);
        while j < |slabs[i]|
          invariant j <= |slabs[i]| && Pending(home, slabs, regions, roles, old(held), held, i, j)
        {
          PendingAt(types, slabs, regions, freeDescs, home, old(held), roles, held, i, j);
          var addr := ReadCache(i, j);
          PendingNext(types, slabs, regions, freeDescs, home, old(held), roles, held, i, j);
          FreePages(addr);
          j := NextCache(i, j);
        }
        PendingRow(home, slabs, regions, roles, old(held), held, i);
        i := i + 1;
      }
      PendingDone(types, slabs, regions, freeDescs, home, old(held), roles, held);
    }

    /** stack_and_destroy_regions: every record is read before any of the pages goes. */
    method StackAndDestroy(dr: seq<Reg>)
      requires forall k :: 0 <= k < |dr| ==> dr[k].addr in held && dr[k].desc in roles && roles[dr[k].desc].page in held
      requires forall k, l :: 0 <= k < l < |dr| ==> dr[k].addr != dr[l].addr && dr[k].desc != dr[l].desc
      modifies this`held
      ensures held == old(held) - Addresses(dr)
      decreases |dr|
    {
      if dr == [] { return; }
      var addr := ReadRegion(dr[0]);
      assert |dr| > 1 ==> dr[0].desc != dr[1].desc;
      FirstAddress(dr);
      StackAndDestroy(dr[1..]);
      FreePages(addr);
    }

    /** destroy_slab_allocator: every page held goes back to the page source, once each,
        and no record is read after its page went. */
    method Destroy()
      requires Ok()
      modifies this`held
      ensures held == map[]
    {
      hide StateOk, CacheOk, TypesOk, CachesOk, RegionsOk, HeldApart, Housed, UnusedOk, Recorded, RegionsLeft, Shrunk, Left, Addresses;
      StateParts(types, slabs, regions, freeDescs, home, held, roles);
      DestroyCaches();
      LeftAll(home, regions, old(held), roles, held);
      var dr: seq<Reg> := [];
      var i := 0;
      while i < |regions|
        invariant i <= |regions| && dr == Holding(regions, i) && Left(home, regions, held, i)
      {
        LeftAt(home, regions, old(held), roles, held, i);
        var r := regions[i];
        var addr := ReadRegion(r);
        if r.holds {
          dr := [r] + dr;
          LeftHolding(home, regions, held, i);
        } else {
          LeftNext(home, regions, old(held), roles, held, i);
          FreePages(addr);
        }
        i := i + 1;
      }
      ToStack(home, regions, old(held), roles, held);
      StackAndDestroy(dr);
      FreePages(home);
    }
  }
}
