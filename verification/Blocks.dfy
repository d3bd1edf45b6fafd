/** The program's view: blocks are disjoint, and writing to one disturbs
    neither another nor the allocator's own words. */
module Blocks {
  import opened Word32
  import opened MallocSizes
  import opened ChunkMemory
  import opened Chunks
  import opened HeapState
  import opened HeapLists
  import opened HeapMerge
  import opened HeapMaps

  /** User areas of different blocks do not meet. */
  lemma BlocksApart(h: Heap, p: int, q: int)
    requires Inv(h) && p in h.live && q in h.live && p < q
    ensures h.live[p].end <= q + 4
  {
    assert LiveSound(h, p) && LiveSound(h, q);
    if p in h.mm && q in h.mm {
      assert MapSound(h, p) && MapSound(h, q) && MapsApart(h, p, q);
      assert AreasApart(h, h.mm[p].base, h.mm[q].base) && AreasApart(h, h.mm[q].base, h.mm[p].base);
    } else if p in h.mm {
      assert Sound(h.c, q) && Contained(h.regions, q, h.c[q]);
      MapOutsideRegion(h, p, h.c[q].reg);
    } else if q in h.mm {
      InRegionWithNext(h, p);
      MapOutsideRegion(h, q, h.c[p].reg);
    } else {
      assert Apart(h.c, p, q);
    }
  }

  lemma InRegionWithNext(h: Heap, p: int)
    requires Inv(h) && p in h.c && h.c[p].kind.Used?
    ensures var n := Next(h.c, p);
      && n in h.c && h.c[n].psize == 0 && n % 8 == 0 && p + 16 <= n
      && h.c[p].reg in h.regions && h.c[p].reg <= p && n + 8 <= h.c[p].reg + h.regions[h.c[p].reg]
  {
    assert Sound(h.c, p);
    var n := Next(h.c, p);
    assert Sound(h.c, n) && Contained(h.regions, n, h.c[n]);
  }

  /** A word of a block is inside its own chunk or is the unused foot after it. */
  lemma UserWordPlace(h: Heap, p: int, a: int, q: int)
    requires Inv(h) && p in h.live && p + 8 <= a < h.live[p].end && q in h.c
    ensures a != q + 4 && (h.c[q].psize != 0 ==> a != q)
    ensures h.c[q].kind.Fence? ==> a != q + 8
    ensures q !in h.live && MINSIZE <= h.c[q].size ==> a != q + 8 && a != q + 12
  {
    assert LiveSound(h, p) && Sound(h.c, q);
    if p in h.mm {
      assert Contained(h.regions, q, h.c[q]) && MapSound(h, p);
      MapOutsideRegion(h, p, h.c[q].reg);
    } else {
      InRegionWithNext(h, p);
      var n := Next(h.c, p);
      assert Apart(h.c, p, q) && Apart(h.c, q, p) && Apart(h.c, n, q) && Apart(h.c, q, n);
    }
  }

  lemma UserWriteHeads(m: Mem, h: Heap, p: int, a: int, v: int)
    requires Inv(h) && HeadsOk(m, h.c) && p in h.live && p + 8 <= a < h.live[p].end
    ensures HeadsOk(m[a := v], h.c)
  {
    forall q | q in h.c ensures HeadOk(m[a := v], q, h.c[q]) {
      assert HeadOk(m, q, h.c[q]);
      UserWordPlace(h, p, a, q);
    }
  }

  lemma UserWriteAbove(h: Heap, p: int)
    requires Inv(h) && p in h.live
    ensures LOW <= p
  {
    assert LiveSound(h, p);
    if p in h.mm { assert MapSound(h, p) && AreaOk(h, h.mm[p].base); } else { assert Sound(h.c, p); }
  }

  lemma BlockBelowWord(h: Heap, p: int)
    requires Inv(h) && p in h.live
    ensures h.live[p].end <= WORD
  {
    assert LiveSound(h, p);
    if p in h.mm {
      assert MapSound(h, p) && AreaOk(h, h.mm[p].base);
    } else {
      InRegionWithNext(h, p);
      assert RegionOk(h, h.c[p].reg) && AreaOk(h, h.c[p].reg);
    }
  }

  lemma UserWriteBins(m: Mem, h: Heap, p: int, a: int, v: int)
    requires Inv(h) && BinLists(m, h.bins) && p in h.live && p + 8 <= a < h.live[p].end
    ensures BinLists(m[a := v], h.bins)
  {
    UserWriteAbove(h, p);
    forall i | 1 <= i < |h.bins| ensures ListRep(m[a := v], BinAt(i), h.bins[i]) {
      assert ListRep(m, BinAt(i), h.bins[i]);
      var s := h.bins[i];
      forall j | 0 <= j < |s| ensures Fd(m[a := v], s[j]) == Fd(m, s[j]) && Bk(m[a := v], s[j]) == Bk(m, s[j]) {
        InBin(h, i, j);
        assert Sound(h.c, s[j]);
        UserWordPlace(h, p, a, s[j]);
      }
      ListFrame(m, m[a := v], BinAt(i), s);
    }
  }

  lemma UserWriteFast(m: Mem, h: Heap, heads: seq<int>, p: int, a: int, v: int)
    requires Inv(h) && FastLists(m, h.fast, heads) && p in h.live && p + 8 <= a < h.live[p].end
    ensures FastLists(m[a := v], h.fast, heads)
  {
    forall i | 0 <= i < |h.fast| ensures FastRep(m[a := v], heads[i], h.fast[i]) {
      assert FastRep(m, heads[i], h.fast[i]);
      var s := h.fast[i];
      forall j | 0 <= j < |s| ensures Fd(m[a := v], s[j]) == Fd(m, s[j]) {
        InFast(h, i, j);
        assert Sound(h.c, s[j]);
        UserWordPlace(h, p, a, s[j]);
      }
      FastFrame(m, m[a := v], heads[i], s);
    }
  }

  lemma UserWriteMaps(m: Mem, h: Heap, p: int, a: int, v: int)
    requires Inv(h) && MapHeads(m, h.mm) && p in h.live && p + 8 <= a < h.live[p].end
    ensures MapHeads(m[a := v], h.mm)
  {
    forall q | q in h.mm ensures MapHead(m[a := v], q, h.mm[q]) {
      assert MapHead(m, q, h.mm[q]) && MapSound(h, q) && LiveSound(h, p) && LiveSound(h, q);
      if p in h.mm {
        assert MapSound(h, p) && MapsApart(h, p, q);
        assert AreasApart(h, h.mm[p].base, h.mm[q].base) && AreasApart(h, h.mm[q].base, h.mm[p].base);
      } else {
        InRegionWithNext(h, p);
        MapOutsideRegion(h, q, h.c[p].reg);
      }
    }
  }

  /** The program may write any word of its own blocks. */
  lemma UserWrite(m: Mem, h: Heap, heads: seq<int>, p: int, a: int, v: int)
    requires Inv(h) && Rep(m, h, heads) && p in h.live && p + 8 <= a < h.live[p].end
    ensures Rep(m[a := v], h, heads) && UserSame(h.live - {p}, m, m[a := v])
  {
    UserWriteAbove(h, p);
    UserWriteHeads(m, h, p, a, v);
    UserWriteBins(m, h, p, a, v);
    UserWriteFast(m, h, heads, p, a, v);
    UserWriteMaps(m, h, p, a, v);
    var rest := h.live - {p};
    forall q, b | q in rest && q + 8 <= b < rest[q].end ensures Rd(m[a := v], b) == Rd(m, b) {
      if p < q { BlocksApart(h, p, q); } else { BlocksApart(h, q, p); }
    }
  }
}
