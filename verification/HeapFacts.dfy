/** What the heap invariant means for a reader: the segments are tiled without
    gaps, free space is fully merged, and every free chunk is in one place. */
module HeapFacts {
  import opened MallocSizes
  import opened ChunkMemory
  import opened Chunks
  import opened HeapState
  import opened HeapLists
  import opened HeapMerge
  import opened HeapTheory

  ghost predicate Covers(c: Arena, p: int, x: int) {
    p in c && p <= x < p + c[p].size
  }

  lemma {:induction false} WalkTo(h: Heap, p: int, x: int) returns (q: int)
    requires Inv(h) && p in h.c && h.c[p].reg in h.regions
    requires p <= x < h.c[p].reg + h.regions[h.c[p].reg]
    ensures Covers(h.c, q, x) && h.c[q].reg == h.c[p].reg
    decreases x - p
  {
    assert Sound(h.c, p) && Contained(h.regions, p, h.c[p]);
    if x < p + h.c[p].size {
      q := p;
    } else {
      q := WalkTo(h, p + h.c[p].size, x);
    }
  }

  /** Every byte of every segment belongs to exactly one chunk. */
  lemma SegmentsTiled(h: Heap, r: int, x: int) returns (q: int)
    requires Inv(h) && r in h.regions && r <= x < r + h.regions[r]
    ensures Covers(h.c, q, x) && forall p :: Covers(h.c, p, x) ==> p == q
  {
    assert Sound(h.c, r) && Contained(h.regions, r, h.c[r]);
    RegionHasNoPrevious(h, r);
    q := WalkTo(h, r, x);
    forall p | Covers(h.c, p, x) ensures p == q { assert Apart(h.c, p, q) && Apart(h.c, q, p); }
  }

  /** Between operations free space is merged: no free chunk borders another one
      or top, and the boundary tag after it gives its size. */
  lemma FreeSpaceMerged(m: Mem, h: Heap, heads: seq<int>, p: int)
    requires Inv(h) && Rep(m, h, heads) && p in h.c && h.c[p].kind.Free?
    ensures var n := Next(h.c, p);
      && n in h.c && !h.c[n].kind.Free? && n != h.top
      && !PrevInuse(m, n) && Foot(m, n) == h.c[p].size == ChunkSize(m, p) && PrevInuse(m, p)
  {
    var n := Next(h.c, p);
    assert Sound(h.c, p) && Sound(h.c, n);
    TagsRead(m, h.c, p);
    TagsRead(m, h.c, n);
  }

  /** Between operations every free chunk sits at one place in one bin. */
  lemma FreeInOneBin(h: Heap, p: int) returns (i: nat, k: nat)
    requires Inv(h) && StableBut(h, {}) && p in h.c && h.c[p].kind.Free?
    ensures 1 <= i < |h.bins| && k < |h.bins[i]| && h.bins[i][k] == p
    ensures forall i', k' :: 0 <= i' < |h.bins| && 0 <= k' < |h.bins[i']| && h.bins[i'][k'] == p ==> i' == i && k' == k
  {
    assert Settled(h, p);
    i := h.c[p].kind.bin;
    k := BinPosition(h, p);
    forall i', k' | 0 <= i' < |h.bins| && 0 <= k' < |h.bins[i']| && h.bins[i'][k'] == p ensures i' == i && k' == k {
      assert BinSound(h.c, h.bins[i'], i') && BinMember(h.c, h.bins[i'][k'], i');
      assert BinSound(h.c, h.bins[i], i);
    }
  }
}
