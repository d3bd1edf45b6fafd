/** Growing the heap: a fresh region becomes top, the old top is retired
    behind two fenceposts; and chunks mapped on their own. */
module HeapGrow {
  import opened Word32
  import opened MallocSizes
  import opened ChunkMemory
  import opened Chunks
  import opened HeapState
  import opened HeapSteps
  import opened HeapMerge

  // ----- areas obtained from and returned to the system -----

  /** mmap may return any page-aligned area that overlaps nothing mapped. */
  predicate FreshArea(os: map<int, int>, a: int, len: int) {
    && a % PAGE == 0 && len % PAGE == 0 && LOW <= a && 0 < len && a + len <= WORD
    && forall b :: b in os ==> b + os[b] <= a || a + len <= b
  }

  ghost function MapArea(h: Heap, a: int, len: int): Heap {
    h.(os := h.os[a := len])
  }

  lemma MapAreaInv(h: Heap, a: int, len: int)
    requires Inv(h) && FreshArea(h.os, a, len)
    ensures a !in h.os && Inv(MapArea(h, a, len))
  {
    var h' := MapArea(h, a, len);
    forall b | b in h.os ensures b != a { assert AreaOk(h, b); }
    forall b | b in h'.os ensures AreaOk(h', b) { if b != a { assert AreaOk(h, b); } }
    forall b, d ensures AreasApart(h', b, d) {
      assert AreasApart(h, b, d);
      if d in h.os { assert AreaOk(h, d); }
      if b in h.os { assert AreaOk(h, b); }
    }
    forall r | r in h'.regions ensures RegionOk(h', r) { assert RegionOk(h, r); }
    forall p | p in h'.mm ensures MapSound(h', p) { assert MapSound(h, p); }
    forall p, q ensures MapsApart(h', p, q) { assert MapsApart(h, p, q); }
    forall p | p in h'.live ensures LiveSound(h', p) { assert LiveSound(h, p); }
    forall p ensures OnlyTop(h', p) { assert OnlyTop(h, p); }
  }

  // ----- retiring the old top -----

  ghost function Retire(c: Arena, p: int): Arena
    requires p in c
  {
    var s := c[p].size;
    if s == 16 then c[p := c[p].(kind := Fence)]
    else
      var kept := c[p].(size := s - 16, kind := if s == 24 then Dead else Used);
      c[p := kept][p + s - 16 := Chunk(16, 0, Fence, c[p].reg)]
  }

  lemma RetireWf(c: Arena, p: int)
    requires Wf(c) && p in c && c[p].kind.Top?
    ensures Wf(Retire(c, p))
  {
    var c', s := Retire(c, p), c[p].size;
    assert Sound(c, p) && Apart(c, p, p + s - 16);
    forall q | q in c' ensures Sound(c', q) {
      RetireSound(c, p, q);
    }
    forall x, y ensures Apart(c', x, y) { RetireApart(c, p, x, y); }
  }

  lemma RetireApart(c: Arena, p: int, x: int, y: int)
    requires Wf(c) && p in c && c[p].kind.Top?
    ensures Apart(Retire(c, p), x, y)
  {
    assert Sound(c, p);
    assert Apart(c, x, y) && Apart(c, p, y) && Apart(c, x, p) && Apart(c, p, x);
  }

  lemma RetireSound(c: Arena, p: int, q: int)
    requires Wf(c) && p in c && c[p].kind.Top? && q in Retire(c, p)
    ensures Sound(Retire(c, p), q)
  {
    var s := c[p].size;
    assert Sound(c, p) && Apart(c, p, p + s - 16);
    if q in c && q != p {
      assert Sound(c, q) && Apart(c, q, p) && Apart(c, p, q);
    }
  }

  lemma RetireWindow(h: Heap)
    requires Inv(h) && h.top in h.c
    ensures Window(h, Retire(h.c, h.top), h.top, Next(h.c, h.top))
  {
    var p := h.top;
    assert Sound(h.c, p);
    TopNotLive(h);
    forall x ensures Outside(h, Retire(h.c, p), p, Next(h.c, p), x) {
      assert Apart(h.c, p, x);
    }
  }

  lemma RetireTiled(h: Heap)
    requires Inv(h) && h.top in h.c
    ensures Tiled(Retire(h.c, h.top), h.regions)
  {
    var c' := Retire(h.c, h.top);
    assert Sound(h.c, h.top);
    forall x | x in c' ensures Contained(h.regions, x, c'[x]) {
      assert Contained(h.regions, h.top, h.c[h.top]);
      if x in h.c { assert Contained(h.regions, x, h.c[x]); }
    }
  }

  /** The shrunken old top, then the two fenceposts, over one another if need be. */
  ghost function RetireWrites(m: Mem, p: int, s: int): Mem {
    m[p + 4 := s - 16 + 1][p + s - 16 + 4 := 5][p + s - 16 + 8 := 5]
  }

  lemma RetireHeads(m: Mem, h: Heap)
    requires Inv(h) && HeadsOk(m, h.c) && h.top in h.c
    ensures var p, c' := h.top, Retire(h.c, h.top);
      var m', e := RetireWrites(m, p, h.c[p].size), Next(h.c, p);
      && (forall x {:trigger HeadOk(m', x, c'[x])} :: x in c' && p <= x <= e ==> HeadOk(m', x, c'[x]))
      && MemWindow(m, m', p, e)
  {
    var p, c' := h.top, Retire(h.c, h.top);
    var s := h.c[p].size;
    var m', e := RetireWrites(m, p, s), Next(h.c, p);
    assert Sound(h.c, p);
    forall x | x in c' && p <= x <= e ensures HeadOk(m', x, c'[x]) {
      assert Apart(h.c, p, x);
      if x == e { assert HeadOk(m, x, h.c[x]) && Sound(h.c, x); }
    }
  }

  // ----- installing the new top -----

  ghost function NewTop(h: Heap, a: int, len: int): Heap {
    h.(c := h.c[a := Chunk(len, 0, Top, a)], regions := h.regions[a := len], top := a)
  }

  /** An area no chunk or mapping uses yet. */
  ghost predicate SpareArea(h: Heap, a: int, len: int) {
    && a in h.os && h.os[a] == len && a !in h.regions
    && (forall p :: p in h.mm ==> h.mm[p].base != a)
  }

  lemma SpareApart(h: Heap, a: int, len: int, x: int)
    requires Wf(h.c) && Tiled(h.c, h.regions) && OsOk(h) && SpareArea(h, a, len) && x in h.c
    ensures x + h.c[x].size <= a || a + len <= x
    ensures 0 < h.c[x].size
  {
    assert Contained(h.regions, x, h.c[x]) && Sound(h.c, x);
    var r := h.c[x].reg;
    assert RegionOk(h, r) && AreasApart(h, r, a) && AreasApart(h, a, r);
  }

  lemma NewTopWf(h: Heap, a: int, len: int)
    requires Wf(h.c) && Tiled(h.c, h.regions) && OsOk(h) && SpareArea(h, a, len)
    ensures a !in h.c && Wf(NewTop(h, a, len).c) && Tiled(NewTop(h, a, len).c, NewTop(h, a, len).regions)
  {
    var c' := NewTop(h, a, len).c;
    SpareNotChunk(h, a, len);
    forall q | q in c' ensures Sound(c', q) { NewTopSound(h, a, len, q); }
    forall x, y ensures Apart(c', x, y) { NewTopApart(h, a, len, x, y); }
    forall x | x in c' ensures Contained(h.regions[a := len], x, c'[x]) {
      if x != a { assert Contained(h.regions, x, h.c[x]); }
    }
  }

  lemma PageAligned(x: int)
    requires x % PAGE == 0
    ensures x % 8 == 0 && (0 < x ==> PAGE <= x)
  {
    var k := x / PAGE;
    assert x == 8 * (512 * k);
    DivUnique(x, 8, 512 * k, 0);
  }

  lemma SpareNotChunk(h: Heap, a: int, len: int)
    requires Wf(h.c) && Tiled(h.c, h.regions) && OsOk(h) && SpareArea(h, a, len)
    ensures a !in h.c && a % 8 == 0 && LOW <= a && len % 8 == 0 && 16 <= len
  {
    assert AreaOk(h, a);
    PageAligned(a);
    PageAligned(len);
    forall x | x in h.c ensures x != a { SpareApart(h, a, len, x); }
  }

  lemma NewTopSound(h: Heap, a: int, len: int, q: int)
    requires Wf(h.c) && a !in h.c && a % 8 == 0 && LOW <= a && len % 8 == 0 && 16 <= len
    requires q in NewTop(h, a, len).c
    ensures Sound(NewTop(h, a, len).c, q)
  {
    if q != a { assert Sound(h.c, q); }
  }

  lemma NewTopApart(h: Heap, a: int, len: int, x: int, y: int)
    requires Wf(h.c) && Tiled(h.c, h.regions) && OsOk(h) && SpareArea(h, a, len)
    ensures Apart(NewTop(h, a, len).c, x, y)
  {
    assert Apart(h.c, x, y) && AreaOk(h, a);
    if x in h.c && x != a { SpareApart(h, a, len, x); assert Sound(h.c, x); }
    if y in h.c && y != a { SpareApart(h, a, len, y); assert Sound(h.c, y); }
  }

  lemma NewTopLists(h: Heap, a: int, len: int)
    requires BinsOk(h.c, h.bins) && FastOk(h.c, h.fast) && a !in h.c
    ensures BinsOk(NewTop(h, a, len).c, h.bins) && FastOk(NewTop(h, a, len).c, h.fast)
  {
    var c' := NewTop(h, a, len).c;
    forall i: nat | i < NBINS ensures BinSound(c', h.bins[i], i) {
      assert BinSound(h.c, h.bins[i], i);
      forall k | 0 <= k < |h.bins[i]| ensures BinMember(c', h.bins[i][k], i) { assert BinMember(h.c, h.bins[i][k], i); }
    }
    forall p ensures Binned(c', h.bins, p) { assert Binned(h.c, h.bins, p); }
    forall i: nat | i < NFASTBINS ensures FastSound(c', h.fast[i], i) {
      assert FastSound(h.c, h.fast[i], i);
      forall k | 0 <= k < |h.fast[i]| ensures FastMember(c', h.fast[i][k], i) {
        assert FastMember(h.c, h.fast[i][k], i);
      }
    }
    forall p ensures InFastbin(c', h.fast, p) { assert InFastbin(h.c, h.fast, p); }
  }

  lemma NewTopOs(h: Heap, a: int, len: int)
    requires OsOk(h) && SpareArea(h, a, len)
    ensures OsOk(NewTop(h, a, len))
  {
    var h' := NewTop(h, a, len);
    forall b | b in h'.os ensures AreaOk(h', b) { assert AreaOk(h, b); }
    forall b, d ensures AreasApart(h', b, d) { assert AreasApart(h, b, d); }
    forall r | r in h'.regions ensures RegionOk(h', r) { if r != a { assert RegionOk(h, r); } }
    forall p | p in h'.mm ensures MapSound(h', p) { assert MapSound(h, p); }
    forall p, q ensures MapsApart(h', p, q) { assert MapsApart(h, p, q); }
  }

  /** The whole growth step: retire the old top, if any, and install the new. */
  ghost function Retired(h: Heap): Heap {
    if h.top in h.c then h.(c := Retire(h.c, h.top)) else h
  }

  ghost function GrowStep(h: Heap, a: int, len: int): Heap {
    NewTop(Retired(h), a, len)
  }

  /** The invariant but for the existence of a top. */
  ghost predicate CoreOk(h: Heap) {
    && Wf(h.c) && Tiled(h.c, h.regions) && BinsOk(h.c, h.bins) && FastOk(h.c, h.fast) && OsOk(h)
    && (forall p {:trigger LiveSound(h, p)} :: p in h.live ==> LiveSound(h, p))
  }

  lemma RetiredInv(h: Heap)
    requires Inv(h)
    ensures CoreOk(Retired(h)) && forall p :: p in Retired(h).c ==> !Retired(h).c[p].kind.Top?
  {
    var h' := Retired(h);
    if h.top in h.c {
      RetireWf(h.c, h.top);
      RetireWindow(h);
      RetireTiled(h);
      WindowBins(h, h'.c, h.top, Next(h.c, h.top));
      WindowFast(h, h'.c, h.top, Next(h.c, h.top));
      SameOs(h, h');
      RetiredLive(h);
    }
    forall p | p in h'.c ensures !h'.c[p].kind.Top? { assert OnlyTop(h, p); }
  }

  lemma RetiredLive(h: Heap)
    requires Inv(h) && h.top in h.c && Window(h, Retired(h).c, h.top, Next(h.c, h.top))
    ensures forall p {:trigger LiveSound(Retired(h), p)} :: p in h.live ==> LiveSound(Retired(h), p)
  {
    var h' := Retired(h);
    forall p | p in h'.live ensures LiveSound(h', p) {
      assert LiveSound(h, p) && Outside(h, h'.c, h.top, Next(h.c, h.top), p);
    }
  }

  lemma GrowInv(h: Heap, a: int, len: int)
    requires Inv(h) && SpareArea(h, a, len)
    ensures Inv(GrowStep(h, a, len)) && a !in Retired(h).c
  {
    RetiredInv(h);
    var g := Retired(h);
    NewTopWf(g, a, len);
    NewTopLists(g, a, len);
    NewTopOs(g, a, len);
    var h' := GrowStep(h, a, len);
    forall p | p in h'.live ensures LiveSound(h', p) { assert LiveSound(g, p); }
    assert AreaOk(h, a);
    forall p ensures OnlyTop(h', p) { }
  }

  // ----- the writes of a growth step -----

  /** A word of an area nobody uses yet is none of the words that matter. */
  lemma SpareWriteLists(m: Mem, h: Heap, heads: seq<int>, a: int, len: int, w: int, v: int)
    requires CoreOk(h) && BinLists(m, h.bins) && FastLists(m, h.fast, heads) && SpareArea(h, a, len) && a <= w < a + len
    ensures BinLists(m[w := v], h.bins) && FastLists(m[w := v], h.fast, heads)
  {
    var m' := m[w := v];
    assert AreaOk(h, a);
    forall i | 1 <= i < |h.bins| ensures ListRep(m', BinAt(i), h.bins[i]) {
      assert ListRep(m, BinAt(i), h.bins[i]) && BinSound(h.c, h.bins[i], i);
      var s := h.bins[i];
      forall j | 0 <= j < |s| ensures Fd(m', s[j]) == Fd(m, s[j]) && Bk(m', s[j]) == Bk(m, s[j]) {
        assert BinMember(h.c, s[j], i) && Sound(h.c, s[j]);
        SpareApart(h, a, len, s[j]);
      }
      ListFrame(m, m', BinAt(i), s);
    }
    forall i | 0 <= i < |h.fast| ensures FastRep(m', heads[i], h.fast[i]) {
      assert FastRep(m, heads[i], h.fast[i]) && FastSound(h.c, h.fast[i], i);
      var s := h.fast[i];
      forall j | 0 <= j < |s| ensures Fd(m', s[j]) == Fd(m, s[j]) {
        assert FastMember(h.c, s[j], i) && Sound(h.c, s[j]);
        SpareApart(h, a, len, s[j]);
      }
      FastFrame(m, m', heads[i], s);
    }
  }

  lemma SpareApartMap(h: Heap, a: int, len: int, p: int)
    requires OsOk(h) && SpareArea(h, a, len) && p in h.mm
    ensures h.mm[p].base <= p && p + 12 <= h.mm[p].base + h.mm[p].len
    ensures h.mm[p].base + h.mm[p].len <= a || a + len <= h.mm[p].base
  {
    assert MapSound(h, p);
    var b := h.mm[p].base;
    assert AreasApart(h, a, b) && AreasApart(h, b, a);
  }

  lemma SpareWriteRest(m: Mem, h: Heap, a: int, len: int, w: int, v: int)
    requires CoreOk(h) && HeadsOk(m, h.c) && MapHeads(m, h.mm) && SpareArea(h, a, len) && a <= w < a + len
    ensures HeadsOk(m[w := v], h.c) && MapHeads(m[w := v], h.mm) && UserSame(h.live, m, m[w := v])
  {
    var m' := m[w := v];
    forall x | x in h.c ensures HeadOk(m', x, h.c[x]) {
      assert HeadOk(m, x, h.c[x]) && Sound(h.c, x);
      SpareApart(h, a, len, x);
    }
    forall p | p in h.mm ensures MapHead(m', p, h.mm[p]) {
      assert MapHead(m, p, h.mm[p]);
      SpareApartMap(h, a, len, p);
    }
    forall p, b | p in h.live && p + 8 <= b < h.live[p].end ensures Rd(m', b) == Rd(m, b) {
      SpareApartLive(h, a, len, p);
    }
  }

  lemma SpareApartLive(h: Heap, a: int, len: int, p: int)
    requires CoreOk(h) && SpareArea(h, a, len) && p in h.live
    ensures h.live[p].end <= a || a + len <= p
  {
    assert LiveSound(h, p) && AreaOk(h, a);
    if p in h.mm {
      SpareApartMap(h, a, len, p);
    } else {
      assert Sound(h.c, p) && Contained(h.regions, p, h.c[p]);
      assert p + h.c[p].size in h.c;
      SpareApart(h, a, len, p);
      SpareApart(h, a, len, p + h.c[p].size);
      assert Sound(h.c, p + h.c[p].size);
    }
  }

  lemma RetiredRep(m: Mem, h: Heap, heads: seq<int>)
    requires Inv(h) && Rep(m, h, heads) && h.top in h.c
    ensures var m' := RetireWrites(m, h.top, h.c[h.top].size);
      Rep(m', Retired(h), heads) && UserSame(h.live, m, m')
  {
    var p, e := h.top, Next(h.c, h.top);
    RetireWindow(h);
    RetireHeads(m, h);
    assert Sound(h.c, p) && Contained(h.regions, p, h.c[p]);
    WindowRep(m, RetireWrites(m, p, h.c[p].size), h, Retire(h.c, p), h.top, p, e, e, heads);
  }

  /** Head of the new top written first, then the fenceposts, as in sYSMALLOc. */
  ghost function GrowWrites(m: Mem, h: Heap, a: int, len: int): Mem {
    if h.top in h.c then RetireWrites(m[a + 4 := len + 1], h.top, h.c[h.top].size) else m[a + 4 := len + 1]
  }

  lemma WritesCommute(m: Mem, h: Heap, a: int, len: int)
    requires Inv(h) && SpareArea(h, a, len) && h.top in h.c
    ensures GrowWrites(m, h, a, len) == RetireWrites(m, h.top, h.c[h.top].size)[a + 4 := len + 1]
  {
    assert AreaOk(h, a) && Sound(h.c, h.top);
    SpareApart(h, a, len, h.top);
  }

  lemma GrowRep(m: Mem, h: Heap, heads: seq<int>, a: int, len: int)
    requires Inv(h) && Rep(m, h, heads) && SpareArea(h, a, len)
    ensures var m' := GrowWrites(m, h, a, len);
      Rep(m', GrowStep(h, a, len), heads) && UserSame(h.live, m, m')
  {
    var g := Retired(h);
    RetiredInv(h);
    var m1 := if h.top in h.c then RetireWrites(m, h.top, h.c[h.top].size) else m;
    assert Rep(m1, g, heads) && UserSame(h.live, m, m1) by {
      if h.top in h.c { RetiredRep(m, h, heads); }
    }
    assert m1[a + 4 := len + 1] == GrowWrites(m, h, a, len) by {
      if h.top in h.c { WritesCommute(m, h, a, len); }
    }
    assert AreaOk(h, a) && AreaOk(g, a);
    NewTopRep(m1, g, heads, a, len);
    forall p, b | p in h.live && p + 8 <= b < h.live[p].end ensures Rd(m1[a + 4 := len + 1], b) == Rd(m, b) {
      assert Rd(m1, b) == Rd(m, b);
    }
  }

  /** The head of the new top in an arena without one. */
  lemma NewTopRep(m: Mem, g: Heap, heads: seq<int>, a: int, len: int)
    requires CoreOk(g) && Rep(m, g, heads) && SpareArea(g, a, len) && AreaOk(g, a)
    ensures var m' := m[a + 4 := len + 1];
      Rep(m', NewTop(g, a, len), heads) && UserSame(g.live, m, m')
  {
    var m' := m[a + 4 := len + 1];
    SpareWriteLists(m, g, heads, a, len, a + 4, len + 1);
    SpareWriteRest(m, g, a, len, a + 4, len + 1);
    NewTopWf(g, a, len);
    var c' := NewTop(g, a, len).c;
    forall x | x in c' ensures HeadOk(m', x, c'[x]) {
      if x != a { assert HeadOk(m', x, g.c[x]); }
    }
  }
}
