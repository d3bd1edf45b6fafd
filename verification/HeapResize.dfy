/** Resizing a used chunk in place, and the program's own list of blocks. */
module HeapResize {
  import opened MallocSizes
  import opened ChunkMemory
  import opened Chunks
  import opened HeapState
  import opened HeapSteps
  import opened HeapMerge
  import opened HeapGrow

  /** c1 is the arena with chunk p stretched up to e, over loose chunks only. */
  ghost predicate Stretched(h: Heap, c1: Arena, p: int, e: int) {
    && Loose(h, p) && h.c[p].kind.Used? && p in c1 && p < e
    && c1[p] == h.c[p].(size := e - p)
    && e in h.c && e in c1 && c1[e] == h.c[e].(psize := 0) && h.c[e].reg == h.c[p].reg
    && (forall x {:trigger x in c1} {:trigger x in h.c} :: x < p || e < x ==>
      (x in c1 <==> x in h.c) && (x in c1 ==> c1[x] == h.c[x]))
    && (forall x {:trigger x in c1} :: p < x < e ==> x !in c1)
    && (forall x {:trigger x in h.c} :: p <= x < e && x in h.c ==>
      Plain(h.c[x]) && x !in h.live && !h.c[x].kind.Top? && x !in h.regions - {p})
    && Wf(c1)
  }

  lemma StretchNone(h: Heap, p: int)
    requires Inv(h) && Loose(h, p) && h.c[p].kind.Used?
    ensures Stretched(h, h.c, p, Next(h.c, p))
  {
    var e := Next(h.c, p);
    assert Sound(h.c, p);
    forall x | p < x < e ensures x !in h.c { assert Apart(h.c, p, x); }
  }

  /** Over the free successor, which is already off its bin. */
  lemma StretchFree(h: Heap, p: int)
    requires Inv(h) && Loose(h, p) && h.c[p].kind.Used?
    requires Next(h.c, p) in h.c && h.c[Next(h.c, p)].kind == Free(0)
    ensures Next(h.c, Next(h.c, p)) in h.c
    ensures Stretched(h, ForwardMerge(h.c, p), p, Next(h.c, Next(h.c, p)))
  {
    var n := Next(h.c, p);
    ForwardMergeWf(h.c, p);
    assert Sound(h.c, p) && Sound(h.c, n);
    var e, c1 := Next(h.c, n), ForwardMerge(h.c, p);
    FreeNotLive(h, n);
    if n in h.regions { RegionHasNoPrevious(h, n); }
    forall x | p < x < e ensures x in h.c ==> x == n { assert Apart(h.c, p, x) && Apart(h.c, n, x); }
    forall x | p < x < e ensures x !in c1 { assert Apart(c1, p, x); }
  }

  /** Over a used successor that nobody owns. */
  lemma StretchUsed(h: Heap, p: int)
    requires Inv(h) && Loose(h, p) && h.c[p].kind.Used?
    requires Loose(h, Next(h.c, p)) && h.c[Next(h.c, p)].kind.Used?
    ensures Stretched(h, Join(h.c, p), p, Next(h.c, Next(h.c, p)))
  {
    var n := Next(h.c, p);
    JoinWf(h.c, p);
    assert Sound(h.c, p) && Sound(h.c, n);
    var e, c1 := Next(h.c, n), Join(h.c, p);
    if n in h.regions { RegionHasNoPrevious(h, n); }
    forall x | p < x < e ensures x in h.c ==> x == n { assert Apart(h.c, p, x) && Apart(h.c, n, x); }
    forall x | p < x < e ensures x !in c1 { assert Apart(c1, p, x); }
  }

  lemma StretchedInv(h: Heap, c1: Arena, p: int, e: int)
    requires Inv(h) && Stretched(h, c1, p, e)
    ensures Inv(h.(c := c1)) && Window(h, c1, p, e)
  {
    forall x ensures Outside(h, c1, p, e, x) { }
    StretchedTiled(h, c1, p, e);
    var h' := h.(c := c1);
    forall x ensures OnlyTop(h', x) { assert OnlyTop(h, x); }
    assert Sound(h.c, p) && Sound(h.c, h.top);
    WindowInv(h, c1, h.top, p, e);
  }

  lemma StretchedTiled(h: Heap, c1: Arena, p: int, e: int)
    requires Inv(h) && Stretched(h, c1, p, e)
    ensures Tiled(c1, h.regions)
  {
    assert Contained(h.regions, e, h.c[e]) && Sound(h.c, e);
    forall x | x in c1 ensures Contained(h.regions, x, c1[x]) {
      if x != p { assert Contained(h.regions, x, h.c[x]); }
    }
    forall r | r in h.regions ensures r in c1 { assert r in h.c; }
  }

  /** What the tags at both ends of a stretched chunk say. */
  lemma StretchedSpan(m: Mem, h: Heap, c1: Arena, p: int, e: int)
    requires Inv(h) && HeadsOk(m, h.c) && Stretched(h, c1, p, e)
    ensures WindowLimit(h, p, e, e + 8) && p + 16 <= e
    ensures Head(m, p) % 2 == if h.c[p].psize == 0 then 1 else 0
    ensures h.c[p].psize != 0 ==> Foot(m, p) == h.c[p].psize
    ensures WithPrevInuse(Head(m, e)) == HeadWord(c1[e])
    ensures c1[e].kind.Fence? ==> Rd(m, e + 8) == 5
  {
    TagsRead(m, h.c, p);
    TagsRead(m, h.c, e);
    assert HeadOk(m, e, h.c[e]) && Sound(c1, p) && Sound(h.c, e);
    assert Contained(h.regions, e, h.c[e]);
  }

  /** set_head_size(p, s), set_inuse_bit_at_offset(p, s) */
  lemma StretchedRep(m: Mem, m': Mem, h: Heap, heads: seq<int>, c1: Arena, p: int, e: int)
    requires Inv(h) && Rep(m, h, heads) && Stretched(h, c1, p, e)
    requires m' == m[p + 4 := e - p + Head(m, p) % 2][e + 4 := WithPrevInuse(Head(m, e))]
    ensures Rep(m', h.(c := c1), heads) && UserSame(h.live, m, m')
  {
    StretchedInv(h, c1, p, e);
    StretchedSpan(m, h, c1, p, e);
    assert HeadOk(m', p, c1[p]) && HeadOk(m', e, c1[e]);
    assert MemWindow(m, m', p, e + 8);
    WindowRep(m, m', h, c1, h.top, p, e, e + 8, heads);
  }

  /** A stretched chunk is cut after nb bytes; the tail is a used chunk nobody owns. */
  lemma CutStretchedInv(h: Heap, c1: Arena, p: int, e: int, nb: int)
    requires Inv(h) && Stretched(h, c1, p, e)
    requires nb % 8 == 0 && MINSIZE <= nb && nb + MINSIZE <= e - p
    ensures p + nb !in c1 && Inv(h.(c := Cut(c1, p, nb))) && Window(h, Cut(c1, p, nb), p, e)
    ensures p + nb !in h.live
  {
    var c2 := Cut(c1, p, nb);
    StretchedTiled(h, c1, p, e);
    CutWf(c1, p, nb);
    CutTiled(c1, h.regions, p, nb);
    forall x ensures Outside(h, c2, p, e, x) { }
    CutStretchedTop(h, c1, p, e, nb);
    WindowInv(h, c2, h.top, p, e);
    LooseSpot(h, c1, p, e, p + nb);
  }

  lemma CutStretchedTop(h: Heap, c1: Arena, p: int, e: int, nb: int)
    requires Inv(h) && Stretched(h, c1, p, e) && 0 < nb < e - p
    ensures TopOk(h.(c := Cut(c1, p, nb)))
  {
    var h' := h.(c := Cut(c1, p, nb));
    assert Sound(h.c, p) && Sound(h.c, h.top);
    forall x ensures OnlyTop(h', x) { assert OnlyTop(h, x); }
  }

  lemma LooseSpot(h: Heap, c1: Arena, p: int, e: int, x: int)
    requires Inv(h) && Stretched(h, c1, p, e) && p < x < e
    ensures x !in h.live
  {
    if x in h.live {
      assert LiveSound(h, x);
      if x in h.mm {
        assert Sound(h.c, p) && Contained(h.regions, p, h.c[p]) && Contained(h.regions, e, h.c[e]);
        assert Sound(h.c, e);
        MapOutsideRegion(h, x, h.c[p].reg);
      }
    }
  }

  lemma CutStretchedRep(m: Mem, m': Mem, h: Heap, heads: seq<int>, c1: Arena, p: int, e: int, nb: int)
    requires Inv(h) && Rep(m, h, heads) && Stretched(h, c1, p, e)
    requires nb % 8 == 0 && MINSIZE <= nb && nb + MINSIZE <= e - p
    requires m' == m[p + 4 := nb + Head(m, p) % 2][p + nb + 4 := e - p - nb + 1][e + 4 := WithPrevInuse(Head(m, e))]
    ensures Rep(m', h.(c := Cut(c1, p, nb)), heads) && UserSame(h.live, m, m')
  {
    CutStretchedInv(h, c1, p, e, nb);
    var c2 := Cut(c1, p, nb);
    StretchedSpan(m, h, c1, p, e);
    assert HeadOk(m', p, c2[p]) && HeadOk(m', p + nb, c2[p + nb]) && HeadOk(m', e, c2[e]);
    assert MemWindow(m, m', p, e + 8);
    WindowRep(m, m', h, c2, h.top, p, e, e + 8, heads);
  }

  // ----- a used chunk takes the front of top -----

  ghost function ShiftTop(c: Arena, p: int, nb: int): Arena
    requires p in c && Next(c, p) in c
  {
    var n := Next(c, p);
    (c - {n})[p := c[p].(size := nb)][p + nb := Chunk(n + c[n].size - p - nb, 0, Top, c[p].reg)]
  }

  ghost predicate Shiftable(h: Heap, p: int, nb: int) {
    && Loose(h, p) && h.c[p].kind.Used? && Next(h.c, p) in h.c && Next(h.c, p) == h.top && h.c[h.top].kind.Top?
    && nb % 8 == 0 && h.c[p].size < nb && nb + MINSIZE <= h.c[p].size + h.c[h.top].size
  }

  lemma ShiftTopSound(h: Heap, p: int, nb: int, q: int)
    requires Inv(h) && Shiftable(h, p, nb) && q in ShiftTop(h.c, p, nb)
    ensures Sound(ShiftTop(h.c, p, nb), q)
  {
    var n := Next(h.c, p);
    assert Sound(h.c, p) && Sound(h.c, n);
    if q == p {
      ShiftTopFront(h, p, nb);
    } else if q == p + nb {
      RestOfEights(p, n + h.c[n].size, nb);
    } else {
      ShiftTopOther(h, p, nb, q);
    }
  }

  lemma RestOfEights(p: int, e: int, nb: int)
    requires p % 8 == 0 && e % 8 == 0 && nb % 8 == 0
    ensures (p + nb) % 8 == 0 && (e - p - nb) % 8 == 0
  {
  }

  lemma ShiftTopFront(h: Heap, p: int, nb: int)
    requires Inv(h) && Shiftable(h, p, nb)
    ensures Sound(ShiftTop(h.c, p, nb), p)
  {
    assert Sound(h.c, p) && Sound(h.c, Next(h.c, p));
  }

  lemma ShiftTopOther(h: Heap, p: int, nb: int, q: int)
    requires Inv(h) && Shiftable(h, p, nb) && q in h.c && q != p && q != p + nb && q != h.top
    ensures Sound(ShiftTop(h.c, p, nb), q)
  {
    var n := Next(h.c, p);
    assert Sound(h.c, p) && Sound(h.c, n);
    assert Sound(h.c, q);
    assert Apart(h.c, q, p) && Apart(h.c, p, q) && Apart(h.c, q, n) && Apart(h.c, n, q);
    var x := q - h.c[q].psize;
    assert Apart(h.c, p, x) && Apart(h.c, n, x);
  }

  lemma ShiftTopApart(h: Heap, p: int, nb: int, x: int, y: int)
    requires Inv(h) && Shiftable(h, p, nb)
    ensures Apart(ShiftTop(h.c, p, nb), x, y)
  {
    var n := Next(h.c, p);
    assert Sound(h.c, p) && Sound(h.c, n);
    assert Apart(h.c, x, y) && Apart(h.c, n, y) && Apart(h.c, p, y) && Apart(h.c, x, p) && Apart(h.c, n, x) &&
      Apart(h.c, p, x);
  }

  lemma ShiftTopWf(h: Heap, p: int, nb: int)
    requires Inv(h) && Shiftable(h, p, nb)
    ensures Wf(ShiftTop(h.c, p, nb))
  {
    var c' := ShiftTop(h.c, p, nb);
    forall q | q in c' ensures Sound(c', q) { ShiftTopSound(h, p, nb, q); }
    forall x, y ensures Apart(c', x, y) { ShiftTopApart(h, p, nb, x, y); }
  }

  lemma ShiftTopWindow(h: Heap, p: int, nb: int)
    requires Inv(h) && Shiftable(h, p, nb)
    ensures Window(h, ShiftTop(h.c, p, nb), p, Next(h.c, h.top))
  {
    var n, c' := h.top, ShiftTop(h.c, p, nb);
    assert Sound(h.c, p) && Sound(h.c, n);
    TopNotLive(h);
    forall x ensures Outside(h, c', p, Next(h.c, n), x) {
      assert Apart(h.c, p, x) && Apart(h.c, n, x);
    }
  }

  lemma ShiftTopTiled(h: Heap, p: int, nb: int)
    requires Inv(h) && Shiftable(h, p, nb)
    ensures Tiled(ShiftTop(h.c, p, nb), h.regions)
  {
    var c' := ShiftTop(h.c, p, nb);
    assert Sound(h.c, p) && Sound(h.c, h.top) && Contained(h.regions, h.top, h.c[h.top]);
    forall x | x in c' ensures Contained(h.regions, x, c'[x]) {
      if x != p + nb { assert Contained(h.regions, x, h.c[x]); }
    }
    forall r | r in h.regions ensures r in c' {
      if r == h.top { RegionHasNoPrevious(h, r); }
    }
  }

  lemma ShiftTopInv(h: Heap, p: int, nb: int)
    requires Inv(h) && Shiftable(h, p, nb)
    ensures Inv(h.(c := ShiftTop(h.c, p, nb), top := p + nb))
  {
    var c' := ShiftTop(h.c, p, nb);
    ShiftTopWf(h, p, nb);
    ShiftTopWindow(h, p, nb);
    ShiftTopTiled(h, p, nb);
    var h' := h.(c := c', top := p + nb);
    assert Sound(h.c, p);
    forall x ensures OnlyTop(h', x) { assert OnlyTop(h, x); }
    WindowInv(h, c', p + nb, p, Next(h.c, h.top));
  }

  lemma ShiftTopHeads(m: Mem, h: Heap, p: int, nb: int)
    requires Inv(h) && HeadsOk(m, h.c) && Shiftable(h, p, nb)
    ensures var e, c' := Next(h.c, h.top), ShiftTop(h.c, p, nb);
      var m' := m[p + 4 := nb + Head(m, p) % 2][p + nb + 4 := e - p - nb + 1];
      && (forall x {:trigger HeadOk(m', x, c'[x])} :: x in c' && p <= x <= e ==> HeadOk(m', x, c'[x]))
      && MemWindow(m, m', p, e)
  {
    var n, e, c' := h.top, Next(h.c, h.top), ShiftTop(h.c, p, nb);
    var m' := m[p + 4 := nb + Head(m, p) % 2][p + nb + 4 := e - p - nb + 1];
    TagsRead(m, h.c, p);
    assert Sound(h.c, p) && Sound(h.c, n);
    ShiftTopWf(h, p, nb);
    forall x | x in c' && p <= x <= e ensures HeadOk(m', x, c'[x]) {
      assert Apart(c', p, x) && Apart(c', p + nb, x);
      if x == e { assert HeadOk(m, x, h.c[x]) && Sound(h.c, x); }
    }
  }

  /** set_head_size(p, nb), set_head(p + nb, rest|1) */
  lemma ShiftTopRep(m: Mem, h: Heap, heads: seq<int>, p: int, nb: int)
    requires Inv(h) && Rep(m, h, heads) && Shiftable(h, p, nb)
    ensures var e := Next(h.c, h.top);
      var m' := m[p + 4 := nb + Head(m, p) % 2][p + nb + 4 := e - p - nb + 1];
      Rep(m', h.(c := ShiftTop(h.c, p, nb), top := p + nb), heads) && UserSame(h.live, m, m')
  {
    var n, e, c' := h.top, Next(h.c, h.top), ShiftTop(h.c, p, nb);
    var m' := m[p + 4 := nb + Head(m, p) % 2][p + nb + 4 := e - p - nb + 1];
    ShiftTopWindow(h, p, nb);
    ShiftTopHeads(m, h, p, nb);
    assert Sound(h.c, p) && Sound(h.c, n) && Contained(h.regions, n, h.c[n]);
    WindowRep(m, m', h, c', p + nb, p, e, e, heads);
  }

  // ----- the program's blocks -----

  ghost function AddLive(h: Heap, p: int, req: int): Heap
    requires p in h.c
  {
    h.(live := h.live[p := Block(req, p + h.c[p].size + 4)])
  }

  ghost function DropLive(h: Heap, p: int): Heap { h.(live := h.live - {p}) }

  lemma AddLiveInv(h: Heap, p: int, req: int)
    requires Inv(h) && p in h.c && h.c[p].kind.Used? && 0 <= req && req + 4 <= h.c[p].size
    ensures p !in h.mm && Inv(AddLive(h, p, req))
  {
    assert p !in h.mm by {
      if p in h.mm { assert Sound(h.c, p) && Contained(h.regions, p, h.c[p]); MapOutsideRegion(h, p, h.c[p].reg); }
    }
    var h' := AddLive(h, p, req);
    forall q | q in h'.live ensures LiveSound(h', q) { if q != p { assert LiveSound(h, q); } }
    SameOs(h, h');
    forall x ensures OnlyTop(h', x) { assert OnlyTop(h, x); }
  }

  lemma DropLiveInv(h: Heap, p: int)
    requires Inv(h) && p !in h.mm
    ensures Inv(DropLive(h, p))
  {
    var h' := DropLive(h, p);
    forall q | q in h'.live ensures LiveSound(h', q) { assert LiveSound(h, q); }
    forall a | a in h'.os ensures AreaOk(h', a) { assert AreaOk(h, a); }
    forall a, b ensures AreasApart(h', a, b) { assert AreasApart(h, a, b); }
    forall r | r in h'.regions ensures RegionOk(h', r) { assert RegionOk(h, r); }
    forall q | q in h'.mm ensures MapSound(h', q) { assert MapSound(h, q); }
    forall x, y ensures MapsApart(h', x, y) { assert MapsApart(h, x, y); }
    forall x ensures OnlyTop(h', x) { assert OnlyTop(h, x); }
  }
}
