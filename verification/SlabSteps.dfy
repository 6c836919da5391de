/** The steps of the slab allocator keep its state in order. */
module SlabSteps {
  import opened SlabState

  function WithKind(roles: map<nat, Role>, d: nat, k: Kind): map<nat, Role>
    requires d in roles
  {
    roles[d := Role(k, roles[d].page)]
  }

  /** Everything but the list of unused descriptors. */
  lemma PopDesc(types: seq<SlabType>, slabs: seq<seq<Cache>>, regions: seq<Reg>, freeDescs: seq<nat>, home: nat, held: map<nat, Page>, roles: map<nat, Role>)
    requires StateOk(types, slabs, regions, freeDescs, home, held, roles) && freeDescs != []
    ensures StateOk(types, slabs, regions, freeDescs[1..], home, held, roles)
    ensures var d := freeDescs[0]; d in roles && roles[d].kind == Unused && d !in freeDescs[1..]
  {
    hide CachesOk, RegionsOk, Housed, HeldApart, Recorded;
    assert freeDescs[0] in freeDescs;
  }

  lemma PushDesc(types: seq<SlabType>, slabs: seq<seq<Cache>>, regions: seq<Reg>, freeDescs: seq<nat>, home: nat, held: map<nat, Page>, roles: map<nat, Role>, d: nat)
    requires StateOk(types, slabs, regions, freeDescs, home, held, roles) && d in roles && roles[d].kind == Unused && d !in freeDescs
    ensures StateOk(types, slabs, regions, [d] + freeDescs, home, held, roles)
  {
    hide CachesOk, RegionsOk, Housed, HeldApart, Recorded;
    forall i | 0 <= i < |freeDescs| ensures freeDescs[i] != d { assert freeDescs[i] in freeDescs; }
  }

  // ----- a change of role -----

  lemma CachesRole(types: seq<SlabType>, slabs: seq<seq<Cache>>, held: map<nat, Page>, roles: map<nat, Role>, d: nat, k: Kind)
    requires TypesOk(types) && CachesOk(types, slabs, held, roles) && d in roles && !roles[d].kind.ForCache?
    ensures CachesOk(types, slabs, held, WithKind(roles, d, k))
  {
    hide CacheOk;
  }

  lemma RegionsRole(regions: seq<Reg>, held: map<nat, Page>, roles: map<nat, Role>, d: nat, k: Kind)
    requires RegionsOk(regions, held, roles) && d in roles && roles[d].kind != ForRegion
    ensures RegionsOk(regions, held, WithKind(roles, d, k))
  {
  }

  lemma HousedRole(home: nat, regions: seq<Reg>, held: map<nat, Page>, roles: map<nat, Role>, d: nat, k: Kind)
    requires Housed(home, regions, held, roles) && d in roles
    ensures Housed(home, regions, held, WithKind(roles, d, k))
  {
    hide HoldsDescs;
  }

  lemma UnusedRole(freeDescs: seq<nat>, roles: map<nat, Role>, d: nat, k: Kind)
    requires UnusedOk(freeDescs, roles) && d in roles && d !in freeDescs
    ensures UnusedOk(freeDescs, WithKind(roles, d, k))
  {
  }

  // ----- pages come and go -----

  lemma HousedHeld(home: nat, regions: seq<Reg>, held: map<nat, Page>, roles: map<nat, Role>, p: nat, page: Page)
    requires Housed(home, regions, held, roles) && p !in held
    ensures Housed(home, regions, held[p := page], roles)
  {
    hide HoldsDescs;
  }

  lemma RegionsHeld(regions: seq<Reg>, held: map<nat, Page>, roles: map<nat, Role>, p: nat, page: Page)
    requires RegionsOk(regions, held, roles) && p !in held
    ensures RegionsOk(regions, held[p := page], roles)
  {
  }

  lemma CachesHeld(types: seq<SlabType>, slabs: seq<seq<Cache>>, held: map<nat, Page>, roles: map<nat, Role>, p: nat, page: Page)
    requires TypesOk(types) && CachesOk(types, slabs, held, roles) && p !in held
    ensures CachesOk(types, slabs, held[p := page], roles)
  {
    hide CacheOk;
  }

  // ----- a new cache -----

  lemma CachesLinked(types: seq<SlabType>, slabs: seq<seq<Cache>>, held: map<nat, Page>, roles: map<nat, Role>, i: nat, c: Cache)
    requires TypesOk(types) && CachesOk(types, slabs, held, roles) && i < |slabs| && c.desc in roles && roles[c.desc].kind == Unused
    requires CacheOk(types[i], c) && CacheHeld(types[i], c, held)
    ensures CachesOk(types, slabs[i := [c] + slabs[i]], held, WithKind(roles, c.desc, ForCache(i)))
  {
    hide CacheOk, CacheHeld;
    var ss, rs := slabs[i := [c] + slabs[i]], WithKind(roles, c.desc, ForCache(i));
    forall k, l | 0 <= k < |ss| && 0 <= l < |ss[k]|
      ensures CacheOk(types[k], ss[k][l]) && CacheHeld(types[k], ss[k][l], held) && ss[k][l].desc in rs && rs[ss[k][l].desc].kind == ForCache(k)
    {
      if k != i || l > 0 { assert ss[k][l] == slabs[k][if k == i then l - 1 else l]; }
    }
    forall k, l, m | 0 <= k < |ss| && 0 <= l < m < |ss[k]| ensures ss[k][l].desc != ss[k][m].desc {
      if k == i {
        assert ss[k][m] == slabs[k][m - 1];
        if l > 0 { assert ss[k][l] == slabs[k][l - 1]; }
      } else {
        assert ss[k][l] == slabs[k][l] && ss[k][m] == slabs[k][m];
      }
    }
  }

  lemma RecordedCache(home: nat, types: seq<SlabType>, slabs: seq<seq<Cache>>, regions: seq<Reg>, held: map<nat, Page>, i: nat, c: Cache, page: Page)
    requires Recorded(home, types, slabs, regions, held) && i < |slabs|
    ensures Recorded(home, types, slabs[i := [c] + slabs[i]], regions, held[c.addr := page])
  {
    var ss: seq<seq<Cache>> := slabs[i := [c] + slabs[i]];
    forall a | a in held[c.addr := page] && a != home ensures RecordedBy(ss, regions, a) {
      if a == c.addr {
        assert ss[i][0].addr == a;
      } else if k, l :| 0 <= k < |slabs| && 0 <= l < |slabs[k]| && slabs[k][l].addr == a {
        assert ss[k][if k == i then l + 1 else l].addr == a;
      }
    }
  }

  /** A new cache, recorded in an unused descriptor, with a fresh page. */
  lemma LinkCache(types: seq<SlabType>, slabs: seq<seq<Cache>>, regions: seq<Reg>, freeDescs: seq<nat>, home: nat, held: map<nat, Page>, roles: map<nat, Role>,
                  i: nat, c: Cache)
    requires StateOk(types, slabs, regions, freeDescs, home, held, roles) && i < |types|
    requires c.desc in roles && roles[c.desc].kind == Unused && c.desc !in freeDescs && CacheOk(types[i], c) && Fresh(held, c.addr, CacheSize(types[i]))
    ensures StateOk(types, slabs[i := [c] + slabs[i]], regions, freeDescs, home,
                    held[c.addr := Page(CacheSize(types[i]), c.desc)], WithKind(roles, c.desc, ForCache(i)))
  {
    hide CachesOk, RegionsOk, Housed, HeldApart, Recorded, CacheOk, UnusedOk;
    var page := Page(CacheSize(types[i]), c.desc);
    SlabCount(types, slabs, held, roles);
    CachesHeld(types, slabs, held, roles, c.addr, page);
    CachesLinked(types, slabs, held[c.addr := page], roles, i, c);
    RegionsHeld(regions, held, roles, c.addr, page);
    RegionsRole(regions, held[c.addr := page], roles, c.desc, ForCache(i));
    HousedHeld(home, regions, held, roles, c.addr, page);
    HousedRole(home, regions, held[c.addr := page], roles, c.desc, ForCache(i));
    UnusedRole(freeDescs, roles, c.desc, ForCache(i));
    HeldGrows(held, c.addr, page);
    RecordedCache(home, types, slabs, regions, held, i, c, page);
  }

  lemma SlabCount(types: seq<SlabType>, slabs: seq<seq<Cache>>, held: map<nat, Page>, roles: map<nat, Role>)
    requires TypesOk(types) && CachesOk(types, slabs, held, roles)
    ensures |slabs| == |types|
  {
  }

  // ----- a new region -----

  lemma RegionsLinked(regions: seq<Reg>, held: map<nat, Page>, roles: map<nat, Role>, r: Reg)
    requires RegionsOk(regions, held, roles) && r.desc in roles && roles[r.desc].kind == Unused && RegHeld(r, held)
    ensures RegionsOk([r] + regions, held, WithKind(roles, r.desc, ForRegion))
  {
    var rs := [r] + regions;
    forall i | 0 < i < |rs| ensures rs[i] == regions[i - 1] {}
  }

  lemma HousedRegion(home: nat, regions: seq<Reg>, held: map<nat, Page>, roles: map<nat, Role>, r: Reg)
    requires Housed(home, regions, held, roles)
    ensures Housed(home, [r] + regions, held, roles)
  {
    hide HoldsDescs;
    HoldsGrow(home, regions, r);
  }

  lemma LinkRegion(types: seq<SlabType>, slabs: seq<seq<Cache>>, regions: seq<Reg>, freeDescs: seq<nat>, home: nat, held: map<nat, Page>, roles: map<nat, Role>, r: Reg)
    requires StateOk(types, slabs, regions, freeDescs, home, held, roles)
    requires r.desc in roles && roles[r.desc].kind == Unused && r.desc !in freeDescs && Fresh(held, r.addr, r.size) && !r.holds
    ensures StateOk(types, slabs, [r] + regions, freeDescs, home, held[r.addr := Page(r.size, r.desc)], WithKind(roles, r.desc, ForRegion))
  {
    hide CachesOk, RegionsOk, Housed, HeldApart, Recorded, UnusedOk;
    var page := Page(r.size, r.desc);
    CachesHeld(types, slabs, held, roles, r.addr, page);
    CachesRole(types, slabs, held[r.addr := page], roles, r.desc, ForRegion);
    RegionsHeld(regions, held, roles, r.addr, page);
    RegionsLinked(regions, held[r.addr := page], roles, r);
    HousedHeld(home, regions, held, roles, r.addr, page);
    HousedRole(home, regions, held[r.addr := page], roles, r.desc, ForRegion);
    HousedRegion(home, regions, held[r.addr := page], WithKind(roles, r.desc, ForRegion), r);
    UnusedRole(freeDescs, roles, r.desc, ForRegion);
    HeldGrows(held, r.addr, page);
    RecordedGrows(home, types, slabs, regions, held, r, page);
  }

  // ----- a cache changes -----

  lemma ReplaceCache(types: seq<SlabType>, slabs: seq<seq<Cache>>, regions: seq<Reg>, freeDescs: seq<nat>, home: nat, held: map<nat, Page>, roles: map<nat, Role>,
                     i: nat, j: nat, c: Cache)
    requires StateOk(types, slabs, regions, freeDescs, home, held, roles) && i < |slabs| && j < |slabs[i]| && i < |types|
    requires CacheOk(types[i], c) && c.addr == slabs[i][j].addr && c.desc == slabs[i][j].desc
    ensures StateOk(types, slabs[i := slabs[i][j := c]], regions, freeDescs, home, held, roles)
  {
    hide RegionsOk, Housed, HeldApart, CacheOk, UnusedOk;
    var ss: seq<seq<Cache>> := slabs[i := slabs[i][j := c]];
    forall k: nat, l: nat | k < |ss| && l < |ss[k]| ensures ss[k][l].addr == slabs[k][l].addr && ss[k][l].desc == slabs[k][l].desc {}
    forall a | a in held && a != home ensures RecordedBy(ss, regions, a) {
      assert RecordedBy(slabs, regions, a);
      if k, l :| 0 <= k < |slabs| && 0 <= l < |slabs[k]| && slabs[k][l].addr == a { assert ss[k][l].addr == a; }
    }
  }

  // ----- a cache or a region goes -----

  lemma HeldShrinks(held: map<nat, Page>, p: nat)
    requires HeldApart(held)
    ensures HeldApart(held - {p})
  {
  }

  lemma CachesUnlinked(types: seq<SlabType>, slabs: seq<seq<Cache>>, held: map<nat, Page>, roles: map<nat, Role>, i: nat, j: nat)
    requires TypesOk(types) && CachesOk(types, slabs, held, roles) && i < |slabs| && j < |slabs[i]|
    ensures slabs[i][j].desc in roles
    ensures CachesOk(types, slabs[i := RemoveAt(slabs[i], j)], held - {slabs[i][j].addr}, WithKind(roles, slabs[i][j].desc, Unused))
  {
    hide CacheOk, RemoveAt;
    RemovedIndex(slabs[i], j);
    var ss, d := slabs[i := RemoveAt(slabs[i], j)], slabs[i][j].desc;
    forall k, l | 0 <= k < |ss| && 0 <= l < |ss[k]| ensures ss[k][l] == slabs[k][if k == i && l >= j then l + 1 else l] && ss[k][l].desc != d {}
  }

  /** A page with an owner that holds no descriptors houses none. */
  lemma NotHousing(home: nat, regions: seq<Reg>, held: map<nat, Page>, roles: map<nat, Role>, p: nat)
    requires RegionsOk(regions, held, roles) && p in held && p != home
    requires forall i :: 0 <= i < |regions| && regions[i].holds ==> regions[i].desc != held[p].desc
    ensures !HoldsDescs(home, regions, p)
  {
  }

  lemma HousedShrinks(home: nat, regions: seq<Reg>, held: map<nat, Page>, roles: map<nat, Role>, p: nat)
    requires Housed(home, regions, held, roles) && !HoldsDescs(home, regions, p)
    ensures Housed(home, regions, held - {p}, roles)
  {
    hide HoldsDescs;
  }

  lemma RegionsShrink(regions: seq<Reg>, held: map<nat, Page>, roles: map<nat, Role>, p: nat)
    requires RegionsOk(regions, held, roles) && p in held && forall i :: 0 <= i < |regions| ==> regions[i].desc != held[p].desc
    ensures RegionsOk(regions, held - {p}, roles)
  {
  }

  lemma RecordedUnlinked(home: nat, types: seq<SlabType>, slabs: seq<seq<Cache>>, regions: seq<Reg>, held: map<nat, Page>, i: nat, j: nat)
    requires Recorded(home, types, slabs, regions, held) && i < |slabs| && j < |slabs[i]|
    ensures Recorded(home, types, slabs[i := RemoveAt(slabs[i], j)], regions, held - {slabs[i][j].addr})
  {
    hide RemoveAt;
    RemovedIndex(slabs[i], j);
    var ss: seq<seq<Cache>> := slabs[i := RemoveAt(slabs[i], j)];
    forall a | a in held - {slabs[i][j].addr} && a != home ensures RecordedBy(ss, regions, a) {
      assert RecordedBy(slabs, regions, a);
      if k, l :| 0 <= k < |slabs| && 0 <= l < |slabs[k]| && slabs[k][l].addr == a {
        assert ss[k][if k == i && l > j then l - 1 else l].addr == a;
      }
    }
  }

  /** A cache leaves its list, its page is given back and its descriptor is unused. */
  lemma UnlinkCache(types: seq<SlabType>, slabs: seq<seq<Cache>>, regions: seq<Reg>, freeDescs: seq<nat>, home: nat, held: map<nat, Page>, roles: map<nat, Role>,
                    i: nat, j: nat)
    requires StateOk(types, slabs, regions, freeDescs, home, held, roles) && i < |slabs| && j < |slabs[i]|
    ensures var c := slabs[i][j]; c.addr in held && c.addr != home && c.desc in roles && c.desc !in freeDescs
    ensures var c := slabs[i][j];
            StateOk(types, slabs[i := RemoveAt(slabs[i], j)], regions, freeDescs, home, held - {c.addr}, WithKind(roles, c.desc, Unused))
  {
    hide CachesOk, RegionsOk, Housed, HeldApart, Recorded, UnusedOk, RemoveAt, HoldsDescs, CacheOk, TypesOk, WithKind;
    var c := slabs[i][j];
    CacheFacts(types, slabs, held, roles, i, j);
    OthersDesc(regions, freeDescs, held, roles, c.desc);
    KeepsHome(home, held, c.addr, roles, c.desc, Unused);
    CachesUnlinked(types, slabs, held, roles, i, j);
    NotHousing(home, regions, held, roles, c.addr);
    RegionsShrink(regions, held, roles, c.addr);
    RegionsRole(regions, held - {c.addr}, roles, c.desc, Unused);
    HousedShrinks(home, regions, held, roles, c.addr);
    HousedRole(home, regions, held - {c.addr}, roles, c.desc, Unused);
    UnusedRole(freeDescs, roles, c.desc, Unused);
    HeldShrinks(held, c.addr);
    RecordedUnlinked(home, types, slabs, regions, held, i, j);
  }

  /** The first page stays, and its address is no descriptor. */
  lemma KeepsHome(home: nat, held: map<nat, Page>, p: nat, roles: map<nat, Role>, d: nat, k: Kind)
    requires home in held && p in held && held[p].desc == d && held[home].desc == home && home !in roles && d in roles
    ensures p != home && home in held - {p} && (held - {p})[home] == held[home] && home !in WithKind(roles, d, k)
  {
  }

  lemma CacheFacts(types: seq<SlabType>, slabs: seq<seq<Cache>>, held: map<nat, Page>, roles: map<nat, Role>, i: nat, j: nat)
    requires TypesOk(types) && CachesOk(types, slabs, held, roles) && i < |slabs| && j < |slabs[i]|
    ensures |slabs| == |types| && CacheOk(types[i], slabs[i][j]) && CacheHeld(types[i], slabs[i][j], held)
    ensures slabs[i][j].desc in roles && roles[slabs[i][j].desc].kind == ForCache(i)
  {
    hide CacheOk;
  }

  /** A cache's descriptor is neither a region's nor unused. */
  lemma OthersDesc(regions: seq<Reg>, freeDescs: seq<nat>, held: map<nat, Page>, roles: map<nat, Role>, d: nat)
    requires RegionsOk(regions, held, roles) && UnusedOk(freeDescs, roles) && d in roles && roles[d].kind.ForCache?
    ensures d !in freeDescs && forall i :: 0 <= i < |regions| ==> regions[i].desc != d
  {
  }

  lemma RegionsUnlinked(regions: seq<Reg>, held: map<nat, Page>, roles: map<nat, Role>, k: nat)
    requires RegionsOk(regions, held, roles) && k < |regions|
    ensures regions[k].desc in roles
    ensures RegionsOk(RemoveAt(regions, k), held - {regions[k].addr}, WithKind(roles, regions[k].desc, Unused))
  {
    hide RemoveAt;
    RemovedIndex(regions, k);
    var rs := RemoveAt(regions, k);
    forall i | 0 <= i < |rs| ensures rs[i] == regions[if i < k then i else i + 1] && rs[i].desc != regions[k].desc {}
  }

  lemma HoldsUnlinked(home: nat, regions: seq<Reg>, k: nat)
    requires k < |regions| && !regions[k].holds
    ensures forall p :: HoldsDescs(home, RemoveAt(regions, k), p) <==> HoldsDescs(home, regions, p)
  {
    hide RemoveAt;
    RemovedIndex(regions, k);
    var rs := RemoveAt(regions, k);
    forall p ensures HoldsDescs(home, rs, p) <==> HoldsDescs(home, regions, p) {
      if p != home && HoldsDescs(home, regions, p) {
        var i :| 0 <= i < |regions| && regions[i].holds && regions[i].addr == p;
        assert rs[if i < k then i else i - 1].addr == p;
      }
    }
  }

  lemma HousedUnlinked(home: nat, regions: seq<Reg>, held: map<nat, Page>, roles: map<nat, Role>, k: nat)
    requires Housed(home, regions, held, roles) && k < |regions| && !regions[k].holds
    ensures Housed(home, RemoveAt(regions, k), held, roles)
  {
    HoldsUnlinked(home, regions, k);
    hide HoldsDescs, RemoveAt;
  }

  lemma RecordedRegion(home: nat, types: seq<SlabType>, slabs: seq<seq<Cache>>, regions: seq<Reg>, held: map<nat, Page>, k: nat)
    requires Recorded(home, types, slabs, regions, held) && k < |regions|
    ensures Recorded(home, types, slabs, RemoveAt(regions, k), held - {regions[k].addr})
  {
    hide RemoveAt;
    RemovedIndex(regions, k);
    var rs := RemoveAt(regions, k);
    forall a | a in held - {regions[k].addr} && a != home ensures RecordedBy(slabs, rs, a) {
      assert RecordedBy(slabs, regions, a);
      if i :| 0 <= i < |regions| && regions[i].addr == a { assert rs[if i < k then i else i - 1].addr == a; }
    }
  }

  /** A region goes back whole. */
  lemma UnlinkRegion(types: seq<SlabType>, slabs: seq<seq<Cache>>, regions: seq<Reg>, freeDescs: seq<nat>, home: nat, held: map<nat, Page>, roles: map<nat, Role>, k: nat)
    requires StateOk(types, slabs, regions, freeDescs, home, held, roles) && k < |regions| && !regions[k].holds
    ensures var r := regions[k]; r.addr in held && r.addr != home && r.desc in roles && r.desc !in freeDescs
    ensures var r := regions[k];
            StateOk(types, slabs, RemoveAt(regions, k), freeDescs, home, held - {r.addr}, WithKind(roles, r.desc, Unused))
  {
    hide CachesOk, RegionsOk, Housed, HeldApart, Recorded, UnusedOk, RemoveAt, HoldsDescs, TypesOk, WithKind;
    var r := regions[k];
    RegionFacts(regions, freeDescs, held, roles, k);
    KeepsHome(home, held, r.addr, roles, r.desc, Unused);
    CachesShrink(types, slabs, held, roles, r.addr);
    CachesRole(types, slabs, held - {r.addr}, roles, r.desc, Unused);
    NotHousing(home, regions, held, roles, r.addr);
    RegionsUnlinked(regions, held, roles, k);
    HousedShrinks(home, regions, held, roles, r.addr);
    HousedRole(home, regions, held - {r.addr}, roles, r.desc, Unused);
    HousedUnlinked(home, regions, held - {r.addr}, WithKind(roles, r.desc, Unused), k);
    UnusedRole(freeDescs, roles, r.desc, Unused);
    HeldShrinks(held, r.addr);
    RecordedRegion(home, types, slabs, regions, held, k);
  }

  lemma RegionFacts(regions: seq<Reg>, freeDescs: seq<nat>, held: map<nat, Page>, roles: map<nat, Role>, k: nat)
    requires RegionsOk(regions, held, roles) && UnusedOk(freeDescs, roles) && k < |regions|
    ensures var r := regions[k]; RegHeld(r, held) && r.desc in roles && roles[r.desc].kind == ForRegion && r.desc !in freeDescs
    ensures forall i :: 0 <= i < |regions| && regions[i].desc == regions[k].desc ==> regions[i] == regions[k]
  {
  }

  lemma CachesShrink(types: seq<SlabType>, slabs: seq<seq<Cache>>, held: map<nat, Page>, roles: map<nat, Role>, p: nat)
    requires TypesOk(types) && CachesOk(types, slabs, held, roles) && p in held && held[p].desc in roles && roles[held[p].desc].kind == ForRegion
    ensures CachesOk(types, slabs, held - {p}, roles)
  {
    hide CacheOk;
  }
}
