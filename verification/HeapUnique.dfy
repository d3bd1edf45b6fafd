/** Merged free space is unique: the blocks, the segments and the walls leave
    only one way to arrange the rest of the heap. */
module HeapUnique {
  import opened MallocSizes
  import opened Chunks
  import opened HeapState
  import opened HeapLists
  import opened HeapMerge
  import opened HeapTheory
  import opened HeapFacts

  ghost predicate NoFast(h: Heap) { forall i :: 0 <= i < |h.fast| ==> h.fast[i] == [] }

  /** Two settled heaps without fastbin chunks that hold the same blocks and walls. */
  ghost predicate Twins(h: Heap, g: Heap) {
    && Inv(h) && StableBut(h, {}) && NoFast(h) && Inv(g) && StableBut(g, {}) && NoFast(g)
    && g.live == h.live && g.mm == h.mm && g.regions == h.regions && WallsKept(h.c, g.c)
  }

  /** Used chunks are blocks, walls are given: both are the same in a twin. */
  lemma FixedSame(h: Heap, g: Heap, p: int)
    requires Twins(h, g) && p in h.c && (h.c[p].kind.Used? || IsWall(h.c[p].kind))
    ensures p in g.c && g.c[p].kind == h.c[p].kind && g.c[p].size == h.c[p].size
  {
    if h.c[p].kind.Used? {
      ChunkNotMapped(h, p);
      assert Settled(h, p) && LiveSound(h, p) && LiveSound(g, p);
    } else {
      assert p in KindAt(g.c, h.c[p].kind) by { assert p in KindAt(h.c, h.c[p].kind); }
      assert Sound(h.c, p) && Sound(g.c, p);
    }
  }

  lemma NotFast(h: Heap, p: int)
    requires Inv(h) && NoFast(h) && p in h.c
    ensures !h.c[p].kind.Fast?
  {
    assert InFastbin(h.c, h.fast, p);
  }

  /** The chunk before p, unless p starts its segment. */
  lemma Before(h: Heap, p: int) returns (q: int)
    requires Inv(h) && p in h.c && p !in h.regions
    ensures q in h.c && q + h.c[q].size == p && h.c[q].reg == h.c[p].reg && !Ends(h.c[q])
  {
    var r := h.c[p].reg;
    assert Sound(h.c, p) && Contained(h.regions, p, h.c[p]);
    RegionHasNoPrevious(h, r);
    q := WalkTo(h, r, p - 1);
    assert Apart(h.c, q, p) && Contained(h.regions, q, h.c[q]);
  }

  lemma StartsSame(h: Heap, g: Heap, p: int)
    requires Twins(h, g) && p in h.c
    ensures p in g.c
  {
    if p !in h.regions {
      var q := Before(h, p);
      NotFast(h, p);
      NotFast(h, q);
      assert Sound(h.c, p) && Sound(h.c, q);
      if h.c[p].kind.Free? || h.c[p].kind.Top? {
        FixedSame(h, g, q);
        assert Sound(g.c, q);
      } else {
        FixedSame(h, g, p);
      }
    }
  }

  lemma RegionSame(h: Heap, g: Heap, p: int)
    requires Twins(h, g) && p in h.c && p in g.c
    ensures g.c[p].reg == h.c[p].reg
  {
    var r, s := h.c[p].reg, g.c[p].reg;
    assert Sound(h.c, p) && Sound(g.c, p) && Contained(h.regions, p, h.c[p]) && Contained(g.regions, p, g.c[p]);
    assert RegionOk(h, r) && RegionOk(h, s) && AreasApart(h, r, s) && AreasApart(h, s, r);
  }

  lemma NoLarger(h: Heap, g: Heap, p: int)
    requires Twins(h, g) && p in h.c && p in g.c
    ensures g.c[p].size <= h.c[p].size
  {
    RegionSame(h, g, p);
    assert Sound(h.c, p) && Contained(h.regions, p, h.c[p]) && Contained(g.regions, p, g.c[p]);
    if !Ends(h.c[p]) {
      StartsSame(h, g, p + h.c[p].size);
      assert Apart(g.c, p, p + h.c[p].size);
    }
  }

  lemma SizeSame(h: Heap, g: Heap, p: int)
    requires Twins(h, g) && p in h.c
    ensures p in g.c && g.c[p].size == h.c[p].size && g.c[p].reg == h.c[p].reg
  {
    StartsSame(h, g, p);
    RegionSame(h, g, p);
    NoLarger(h, g, p);
    NoLarger(g, h, p);
  }

  lemma InnerChunk(h: Heap, p: int)
    requires Inv(h) && p in h.c && !Ends(h.c[p])
    ensures h.c[p].reg in h.regions && p + h.c[p].size < h.c[p].reg + h.regions[h.c[p].reg]
  {
    assert Sound(h.c, p);
    var n := p + h.c[p].size;
    assert Sound(h.c, n) && Contained(h.regions, n, h.c[n]);
  }

  lemma TopSame(h: Heap, g: Heap, p: int)
    requires Twins(h, g) && p in h.c && h.c[p].kind.Top?
    ensures p in g.c && g.c[p].kind.Top?
  {
    SizeSame(h, g, p);
    NotFast(g, p);
    assert Sound(g.c, p) && Contained(h.regions, p, h.c[p]);
    if !Ends(g.c[p]) {
      InnerChunk(g, p);
    } else if g.c[p].kind.Fence? {
      FixedSame(g, h, p);
    }
  }

  lemma KindSame(h: Heap, g: Heap, p: int)
    requires Twins(h, g) && p in h.c
    ensures p in g.c && (if h.c[p].kind.Free? then g.c[p].kind.Free? else g.c[p].kind == h.c[p].kind)
  {
    NotFast(h, p);
    if h.c[p].kind.Top? {
      TopSame(h, g, p);
    } else if h.c[p].kind.Free? {
      SizeSame(h, g, p);
      NotFast(g, p);
      if g.c[p].kind.Top? {
        TopSame(g, h, p);
      } else if !g.c[p].kind.Free? {
        FixedSame(g, h, p);
      }
    } else {
      FixedSame(h, g, p);
    }
  }

  lemma TagSame(h: Heap, g: Heap, p: int)
    requires Twins(h, g) && p in h.c && p in g.c && h.c[p].psize != 0
    ensures g.c[p].psize == h.c[p].psize
  {
    var q := p - h.c[p].psize;
    assert Sound(h.c, p);
    SizeSame(h, g, q);
    KindSame(h, g, q);
    assert Sound(g.c, q);
  }

  /** There is only one way to merge all free space. */
  lemma MergedIsUnique(h: Heap, g: Heap)
    requires Twins(h, g)
    ensures SameShape(h.c, g.c) && g.top == h.top
  {
    forall p ensures p in h.c <==> p in g.c {
      if p in h.c { StartsSame(h, g, p); }
      if p in g.c { StartsSame(g, h, p); }
    }
    forall p | p in h.c ensures SameChunk(h.c[p], g.c[p]) {
      SizeSame(h, g, p);
      KindSame(h, g, p);
      if h.c[p].psize != 0 { TagSame(h, g, p); }
      if g.c[p].psize != 0 { TagSame(g, h, p); }
    }
    if h.top in h.c {
      TopSame(h, g, h.top);
      assert OnlyTop(g, h.top);
    }
  }
}
