/** Splitting and merging chunks: each step keeps the heap invariant, and the
    tag writes of the source represent it. */
module HeapSteps {
  import opened MallocSizes
  import opened ChunkMemory
  import opened Chunks
  import opened HeapState

  /** A chunk the allocator may reshape: nobody owns it, no list holds it. */
  ghost predicate Loose(h: Heap, p: int) {
    p in h.c && p !in h.live && (h.c[p].kind.Used? || h.c[p].kind == Free(0))
  }

  lemma SameSizesTiled(h: Heap, c': Arena)
    requires Tiled(h.c, h.regions) && c'.Keys == h.c.Keys
    requires forall x :: x in c' ==> c'[x].size == h.c[x].size && c'[x].reg == h.c[x].reg && Ends(c'[x]) == Ends(h.c[x])
    ensures Tiled(c', h.regions)
  {
    forall x | x in c' ensures Contained(h.regions, x, c'[x]) {
      assert Contained(h.regions, x, h.c[x]);
    }
  }

  // ----- a detached free chunk is taken whole -----

  lemma TakeWindow(h: Heap, p: int)
    requires Inv(h) && Loose(h, p) && h.c[p].kind.Free?
    ensures Next(h.c, p) in h.c && Window(h, Take(h.c, p), p, Next(h.c, p))
  {
    assert Sound(h.c, p);
    var n, c' := Next(h.c, p), Take(h.c, p);
    forall x ensures Outside(h, c', p, n, x) {
      assert Apart(h.c, p, x);
    }
  }

  ghost function TakeStep(h: Heap, p: int): Heap
    requires p in h.c && Next(h.c, p) in h.c
  {
    h.(c := Take(h.c, p))
  }

  lemma TakeInv(h: Heap, p: int)
    requires Inv(h) && Loose(h, p) && h.c[p].kind.Free?
    ensures Next(h.c, p) in h.c && Inv(TakeStep(h, p))
  {
    TakeWindow(h, p);
    TakeWf(h.c, p);
    var c' := Take(h.c, p);
    assert c'.Keys == h.c.Keys;
    SameSizesTiled(h, c');
    forall x ensures OnlyTop(h.(c := c'), x) { assert OnlyTop(h, x); }
    assert Sound(h.c, p);
    assert Sound(h.c, h.top) by { assert p in h.c; }
    WindowInv(h, c', h.top, p, Next(h.c, p));
  }

  /** set_inuse_bit_at_offset(p, size) */
  lemma TakeRep(m: Mem, h: Heap, heads: seq<int>, p: int)
    requires Inv(h) && Rep(m, h, heads) && Loose(h, p) && h.c[p].kind.Free?
    ensures Next(h.c, p) in h.c
    ensures var n := Next(h.c, p); var m' := m[n + 4 := WithPrevInuse(Head(m, n))];
      Rep(m', TakeStep(h, p), heads) && UserSame(h.live, m, m')
  {
    TakeWindow(h, p);
    var n := Next(h.c, p);
    var m', c' := m[n + 4 := WithPrevInuse(Head(m, n))], Take(h.c, p);
    assert Sound(h.c, p) && Sound(h.c, n) && Contained(h.regions, n, h.c[n]);
    assert HeadOk(m, p, h.c[p]) && HeadOk(m, n, h.c[n]);
    forall x | x in c' && p <= x <= n ensures HeadOk(m', x, c'[x]) {
      assert Apart(h.c, p, x);
    }
    WindowRep(m, m', h, c', h.top, p, n, n + 8, heads);
  }

  // ----- a detached free chunk is split; the tail stays detached -----

  ghost function SplitFree(c: Arena, p: int, nb: int): Arena
    requires p in c && Next(c, p) in c
  {
    var n, rest := Next(c, p), c[p].size - nb;
    c[p := c[p].(size := nb, kind := Used)][p + nb := Chunk(rest, 0, Free(0), c[p].reg)][n := c[n].(psize := rest)]
  }

  ghost function SplitStep(h: Heap, p: int, nb: int): Heap
    requires p in h.c && Next(h.c, p) in h.c
  {
    h.(c := SplitFree(h.c, p, nb))
  }

  ghost predicate Splittable(h: Heap, p: int, nb: int) {
    && Loose(h, p) && h.c[p].kind.Free?
    && nb % 8 == 0 && MINSIZE <= nb && nb + MINSIZE <= h.c[p].size
  }

  lemma SplitWf(h: Heap, p: int, nb: int)
    requires Inv(h) && Splittable(h, p, nb)
    ensures Next(h.c, p) in h.c && p + nb !in h.c && Wf(SplitFree(h.c, p, nb))
  {
    assert Sound(h.c, p);
    var n := Next(h.c, p);
    TakeWf(h.c, p);
    var c1 := Take(h.c, p);
    CutWf(c1, p, nb);
    var c2 := Cut(c1, p, nb);
    assert Sound(c1, p) && Sound(h.c, n);
    UntakeWf(c2, p + nb);
    assert SplitFree(h.c, p, nb) == Untake(c2, p + nb);
  }

  lemma SplitWindow(h: Heap, p: int, nb: int)
    requires Inv(h) && Splittable(h, p, nb)
    ensures Next(h.c, p) in h.c && Window(h, SplitFree(h.c, p, nb), p, Next(h.c, p))
  {
    assert Sound(h.c, p);
    var n, c' := Next(h.c, p), SplitFree(h.c, p, nb);
    forall x ensures Outside(h, c', p, n, x) {
      assert Apart(h.c, p, x);
    }
  }

  lemma SplitTiled(h: Heap, p: int, nb: int)
    requires Inv(h) && Splittable(h, p, nb) && Next(h.c, p) in h.c
    ensures Tiled(SplitFree(h.c, p, nb), h.regions)
  {
    var c' := SplitFree(h.c, p, nb);
    assert Contained(h.regions, p, h.c[p]);
    forall x | x in c' ensures Contained(h.regions, x, c'[x]) {
      if x in h.c { assert Contained(h.regions, x, h.c[x]); }
    }
  }

  lemma SplitInv(h: Heap, p: int, nb: int)
    requires Inv(h) && Splittable(h, p, nb)
    ensures Next(h.c, p) in h.c && p + nb !in h.c && Inv(SplitStep(h, p, nb))
  {
    SplitWf(h, p, nb);
    SplitWindow(h, p, nb);
    SplitTiled(h, p, nb);
    var c' := SplitFree(h.c, p, nb);
    assert Sound(h.c, p) && Sound(h.c, h.top);
    forall x ensures OnlyTop(h.(c := c'), x) { assert OnlyTop(h, x); }
    WindowInv(h, c', h.top, p, Next(h.c, p));
  }

  /** set_head(p, nb|1), set_head(r, rest|1), set_foot(r, rest) */
  lemma SplitRep(m: Mem, h: Heap, heads: seq<int>, p: int, nb: int)
    requires Inv(h) && Rep(m, h, heads) && Splittable(h, p, nb)
    ensures Next(h.c, p) in h.c
    ensures var rest := h.c[p].size - nb;
      var m' := m[p + 4 := nb + 1][p + nb + 4 := rest + 1][p + nb + rest := rest];
      Rep(m', SplitStep(h, p, nb), heads) && UserSame(h.live, m, m')
  {
    SplitWindow(h, p, nb);
    SplitWf(h, p, nb);
    var n, rest, c' := Next(h.c, p), h.c[p].size - nb, SplitFree(h.c, p, nb);
    var m' := m[p + 4 := nb + 1][p + nb + 4 := rest + 1][p + nb + rest := rest];
    assert Sound(h.c, p) && Sound(h.c, n) && Contained(h.regions, n, h.c[n]);
    assert HeadOk(m, p, h.c[p]) && HeadOk(m, n, h.c[n]);
    forall x | x in c' && p <= x <= n ensures HeadOk(m', x, c'[x]) {
      assert Apart(c', p, x) && Apart(c', p + nb, x);
    }
    WindowRep(m, m', h, c', h.top, p, n, n + 8, heads);
  }

  // ----- the front of top is handed out -----

  ghost function SplitTopStep(h: Heap, nb: int): Heap
    requires h.top in h.c
  {
    h.(c := Cut(h.c, h.top, nb), top := h.top + nb)
  }

  ghost predicate TopSplittable(h: Heap, nb: int) {
    && h.top in h.c && h.c[h.top].kind.Top?
    && nb % 8 == 0 && MINSIZE <= nb && nb + MINSIZE <= h.c[h.top].size
  }

  lemma TopNotLive(h: Heap)
    requires Inv(h) && h.top in h.c && h.c[h.top].kind.Top?
    ensures h.top !in h.live
  {
    if h.top in h.live {
      assert LiveSound(h, h.top) && OnlyTop(h, h.top);
      if h.top in h.mm {
        assert Sound(h.c, h.top) && Contained(h.regions, h.top, h.c[h.top]);
        MapOutsideRegion(h, h.top, h.c[h.top].reg);
      }
    }
  }

  lemma SplitTopWindow(h: Heap, nb: int)
    requires Inv(h) && TopSplittable(h, nb)
    ensures Window(h, Cut(h.c, h.top, nb), h.top, Next(h.c, h.top))
  {
    TopNotLive(h);
    var p := h.top;
    var n, c' := Next(h.c, p), Cut(h.c, p, nb);
    assert Sound(h.c, p);
    forall x ensures Outside(h, c', p, n, x) {
      assert Apart(h.c, p, x);
    }
  }

  lemma SplitTopTop(h: Heap, nb: int)
    requires Inv(h) && TopSplittable(h, nb)
    ensures TopOk(SplitTopStep(h, nb))
  {
    var h' := SplitTopStep(h, nb);
    assert Sound(h.c, h.top);
    forall x ensures OnlyTop(h', x) { assert OnlyTop(h, x); }
  }

  lemma CutTiled(c: Arena, regions: map<int, int>, p: int, nb: int)
    requires Tiled(c, regions) && p in c && 0 < nb < c[p].size
    ensures Tiled(Cut(c, p, nb), regions)
  {
    var c' := Cut(c, p, nb);
    forall x | x in c' ensures Contained(regions, x, c'[x]) {
      assert Contained(regions, p, c[p]);
      if x in c { assert Contained(regions, x, c[x]); }
    }
  }

  lemma SplitTopInv(h: Heap, nb: int)
    requires Inv(h) && TopSplittable(h, nb)
    ensures h.top + nb !in h.c && Inv(SplitTopStep(h, nb))
  {
    var p := h.top;
    var c' := Cut(h.c, p, nb);
    CutWf(h.c, p, nb);
    SplitTopWindow(h, nb);
    CutTiled(h.c, h.regions, p, nb);
    SplitTopTop(h, nb);
    WindowInv(h, c', p + nb, p, Next(h.c, p));
  }

  /** set_head(p, nb|1), set_head(p + nb, rest|1) */
  lemma SplitTopRep(m: Mem, h: Heap, heads: seq<int>, nb: int)
    requires Inv(h) && Rep(m, h, heads) && TopSplittable(h, nb)
    ensures var m' := m[h.top + 4 := nb + 1][h.top + nb + 4 := h.c[h.top].size - nb + 1];
      Rep(m', SplitTopStep(h, nb), heads) && UserSame(h.live, m, m')
  {
    var p, c' := h.top, Cut(h.c, h.top, nb);
    var n := Next(h.c, p);
    var m' := m[p + 4 := nb + 1][p + nb + 4 := h.c[p].size - nb + 1];
    CutWf(h.c, p, nb);
    SplitTopWindow(h, nb);
    assert Sound(h.c, p) && Contained(h.regions, p, h.c[p]);
    forall x | x in c' && p <= x <= n ensures HeadOk(m', x, c'[x]) {
      assert Apart(c', p, x) && Apart(c', p + nb, x);
      if x == n { assert HeadOk(m, x, h.c[x]) && Sound(h.c, x); }
    }
    WindowRep(m, m', h, c', p + nb, p, n, n, heads);
  }
}
