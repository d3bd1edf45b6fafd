/** Chunks that sit in a mapping of their own. */
module HeapMaps {
  import opened MallocSizes
  import opened ChunkMemory
  import opened Chunks
  import opened HeapState
  import opened HeapSteps
  import opened HeapMerge
  import opened HeapGrow

  /** Chunk p of a spare area goes to the program. */
  ghost function MapChunk(h: Heap, p: int, a: int, len: int, req: int): Heap {
    h.(mm := h.mm[p := Mapping(a, len)], live := h.live[p := Block(req, a + len)])
  }

  ghost predicate Mappable(h: Heap, p: int, a: int, len: int, req: int) {
    SpareArea(h, a, len) && p % 8 == 0 && a <= p && p + MAX_FAST < a + len && 0 <= req && p + 8 + req <= a + len
  }

  lemma SpareNotLive(h: Heap, a: int, len: int, p: int)
    requires Inv(h) && SpareArea(h, a, len) && a <= p < a + len
    ensures p !in h.live && p !in h.mm && p !in h.c
  {
    forall q | q in h.live ensures q != p { SpareApartLive(h, a, len, q); LiveNonEmpty(h, q); }
    forall q | q in h.mm ensures q != p { assert MapSound(h, q); }
    forall q | q in h.c ensures q != p { SpareApart(h, a, len, q); }
  }

  lemma LiveNonEmpty(h: Heap, p: int)
    requires Inv(h) && p in h.live
    ensures p + 8 <= h.live[p].end
  {
    assert LiveSound(h, p);
    if p !in h.mm { assert Sound(h.c, p); }
  }

  lemma MapChunkInv(h: Heap, p: int, a: int, len: int, req: int)
    requires Inv(h) && Mappable(h, p, a, len, req)
    ensures p !in h.live && p !in h.mm && Inv(MapChunk(h, p, a, len, req))
  {
    SpareNotLive(h, a, len, p);
    var h' := MapChunk(h, p, a, len, req);
    forall q | q in h'.live ensures LiveSound(h', q) { if q != p { assert LiveSound(h, q); } }
    forall b | b in h'.os ensures AreaOk(h', b) { assert AreaOk(h, b); }
    forall b, d ensures AreasApart(h', b, d) { assert AreasApart(h, b, d); }
    forall r | r in h'.regions ensures RegionOk(h', r) { assert RegionOk(h, r); }
    forall q | q in h'.mm ensures MapSound(h', q) { if q != p { assert MapSound(h, q); } }
    forall x, y ensures MapsApart(h', x, y) { assert MapsApart(h, x, y); }
    forall x ensures OnlyTop(h', x) { assert OnlyTop(h, x); }
  }

  /** p->prev_size = offset, set_head(p, size|IS_MMAPPED) */
  lemma MapChunkRep(m: Mem, h: Heap, heads: seq<int>, p: int, a: int, len: int, req: int)
    requires Inv(h) && Rep(m, h, heads) && Mappable(h, p, a, len, req)
    ensures var m' := m[p := p - a][p + 4 := a + len - p + 2];
      Rep(m', MapChunk(h, p, a, len, req), heads) && UserSame(h.live, m, m')
  {
    SpareNotLive(h, a, len, p);
    var m1 := m[p := p - a];
    var m2 := m1[p + 4 := a + len - p + 2];
    SpareWriteLists(m, h, heads, a, len, p, p - a);
    SpareWriteRest(m, h, a, len, p, p - a);
    SpareWriteLists(m1, h, heads, a, len, p + 4, a + len - p + 2);
    SpareWriteRest(m1, h, a, len, p + 4, a + len - p + 2);
    var h' := MapChunk(h, p, a, len, req);
    forall q | q in h'.mm ensures MapHead(m2, q, h'.mm[q]) { if q != p { assert MapHead(m2, q, h.mm[q]); } }
    assert AreaOk(h, a);
    forall q, b | q in h.live && q + 8 <= b < h.live[q].end ensures Rd(m2, b) == Rd(m, b) {
      assert Rd(m1, b) == Rd(m, b);
    }
  }

  /** The program gives a mapped chunk back; its area is spare again. */
  ghost function DropMap(h: Heap, p: int): Heap {
    h.(mm := h.mm - {p}, live := h.live - {p})
  }

  lemma DropMapInv(h: Heap, p: int)
    requires Inv(h) && p in h.mm
    ensures Inv(DropMap(h, p)) && SpareArea(DropMap(h, p), h.mm[p].base, h.mm[p].len)
  {
    var h' := DropMap(h, p);
    assert MapSound(h, p);
    forall q | q in h'.live ensures LiveSound(h', q) { assert LiveSound(h, q); }
    forall b | b in h'.os ensures AreaOk(h', b) { assert AreaOk(h, b); }
    forall b, d ensures AreasApart(h', b, d) { assert AreasApart(h, b, d); }
    forall r | r in h'.regions ensures RegionOk(h', r) { assert RegionOk(h, r); }
    forall q | q in h'.mm ensures MapSound(h', q) { assert MapSound(h, q); }
    forall x, y ensures MapsApart(h', x, y) { assert MapsApart(h, x, y); }
    forall x ensures OnlyTop(h', x) { assert OnlyTop(h, x); }
    forall q | q in h'.mm ensures h'.mm[q].base != h.mm[p].base { assert MapsApart(h, p, q); }
  }

  lemma DropMapRep(m: Mem, h: Heap, heads: seq<int>, p: int)
    requires Rep(m, h, heads)
    ensures Rep(m, DropMap(h, p), heads)
  {
    var h' := DropMap(h, p);
    forall q | q in h'.mm ensures MapHead(m, q, h'.mm[q]) { assert MapHead(m, q, h.mm[q]); }
  }

  ghost function UnmapArea(h: Heap, a: int): Heap { h.(os := h.os - {a}) }

  lemma UnmapAreaInv(h: Heap, a: int, len: int)
    requires Inv(h) && SpareArea(h, a, len)
    ensures Inv(UnmapArea(h, a))
  {
    var h' := UnmapArea(h, a);
    forall q | q in h'.live ensures LiveSound(h', q) { assert LiveSound(h, q); }
    forall b | b in h'.os ensures AreaOk(h', b) { assert AreaOk(h, b); }
    forall b, d ensures AreasApart(h', b, d) { assert AreasApart(h, b, d); }
    forall r | r in h'.regions ensures RegionOk(h', r) { assert RegionOk(h, r); }
    forall q | q in h'.mm ensures MapSound(h', q) { assert MapSound(h, q); }
    forall x, y ensures MapsApart(h', x, y) { assert MapsApart(h, x, y); }
    forall x ensures OnlyTop(h', x) { assert OnlyTop(h, x); }
  }
}
