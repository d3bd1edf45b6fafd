/** Freeing a chunk: coalescing with free neighbours, or with top. */
module HeapMerge {
  import opened MallocSizes
  import opened ChunkMemory
  import opened Chunks
  import opened HeapState
  import opened HeapSteps

  /** Where the merged chunk starts and stops. */
  ghost function Start(c: Arena, p: int): int
    requires p in c
  {
    p - c[p].psize
  }

  ghost function Stop(c: Arena, p: int): int
    requires p in c
  {
    var n := Next(c, p);
    if n in c && c[n].kind.Free? then Next(c, n) else n
  }

  /** A used chunk nobody owns, whose free neighbours are off their bins. */
  ghost predicate Releasable(h: Heap, p: int) {
    && Loose(h, p) && h.c[p].kind.Used?
    && Next(h.c, p) in h.c
    && (h.c[Next(h.c, p)].kind.Free? ==> h.c[Next(h.c, p)].kind == Free(0))
    && (h.c[p].psize != 0 ==> Start(h.c, p) in h.c && h.c[Start(h.c, p)].kind == Free(0))
  }

  /** The arena once the chunk has swallowed its free predecessor. */
  ghost function BackMerged(c: Arena, p: int): Arena
    requires p in c && Start(c, p) in c
  {
    if c[p].psize != 0 then BackMerge(c, p) else c
  }

  lemma BackMergedShape(h: Heap, p: int)
    requires Inv(h) && Releasable(h, p)
    ensures Start(h.c, p) in h.c && Wf(BackMerged(h.c, p))
    ensures var c1, s := BackMerged(h.c, p), Start(h.c, p);
      && s in c1 && c1[s] == Chunk(Next(h.c, p) - s, 0, Used, h.c[p].reg)
      && (forall x :: x != s && x != p ==> (x in c1 <==> x in h.c) && (x in c1 ==> c1[x] == h.c[x]))
      && (s != p ==> p !in c1)
    ensures Start(h.c, p) <= p
  {
    var s := Start(h.c, p);
    assert Sound(h.c, p);
    if h.c[p].psize != 0 {
      BackMergeWf(h.c, p);
      assert Sound(h.c, s);
    }
  }

  /** ... and its free successor, if it has one. */
  ghost function Merged(c: Arena, p: int): Arena
    requires p in c && Start(c, p) in c && Next(c, p) in c && Stop(c, p) in c
  {
    var c1, s, n, e := BackMerged(c, p), Start(c, p), Next(c, p), Stop(c, p);
    if c[n].kind.Free? then (c1 - {n})[s := Chunk(e - s, 0, Used, c[p].reg)][e := c[e].(psize := 0)]
    else c1
  }

  lemma MergedShape(h: Heap, p: int)
    requires Inv(h) && Releasable(h, p) && !h.c[Next(h.c, p)].kind.Top?
    ensures Start(h.c, p) in h.c && Stop(h.c, p) in h.c && Start(h.c, p) <= p < Next(h.c, p) <= Stop(h.c, p)
    ensures Wf(Merged(h.c, p))
    ensures var c2, s, e := Merged(h.c, p), Start(h.c, p), Stop(h.c, p);
      && s in c2 && c2[s] == Chunk(e - s, 0, Used, h.c[p].reg)
      && e in c2 && c2[e] == h.c[e].(psize := 0)
      && (forall x :: x < s || e < x ==> (x in c2 <==> x in h.c) && (x in c2 ==> c2[x] == h.c[x]))
  {
    BackMergedShape(h, p);
    var c1, s, n := BackMerged(h.c, p), Start(h.c, p), Next(h.c, p);
    assert Sound(h.c, p) && Sound(h.c, n);
    assert n in c1 && c1[n] == h.c[n];
    if h.c[n].kind.Free? {
      MergedForward(h, p, c1, s, n);
    } else {
      assert h.c[n].psize == 0;
    }
  }

  /** The case of a free successor n, with the predecessor merged already. */
  lemma MergedForward(h: Heap, p: int, c1: Arena, s: int, n: int)
    requires Inv(h) && Releasable(h, p) && Start(h.c, p) in h.c && n == Next(h.c, p) && h.c[n].kind.Free?
    requires c1 == BackMerged(h.c, p) && s == Start(h.c, p) <= p && Wf(c1)
    requires s in c1 && c1[s] == Chunk(n - s, 0, Used, h.c[p].reg)
    requires forall x :: x != s && x != p ==> (x in c1 <==> x in h.c) && (x in c1 ==> c1[x] == h.c[x])
    ensures Next(h.c, n) in h.c && Wf(Merged(h.c, p)) && p < n <= Next(h.c, n)
    ensures var c2, e := Merged(h.c, p), Next(h.c, n);
      && s in c2 && c2[s] == Chunk(e - s, 0, Used, h.c[p].reg)
      && e in c2 && c2[e] == h.c[e].(psize := 0)
      && (forall x :: x < s || e < x ==> (x in c2 <==> x in h.c) && (x in c2 ==> c2[x] == h.c[x]))
  {
    assert Sound(h.c, p) && Sound(h.c, n);
    var e := Next(h.c, n);
    assert e in c1 && c1[e] == h.c[e];
    ForwardMergeWf(c1, s);
    assert ForwardMerge(c1, s) == Merged(h.c, p);
  }

  lemma MergedStop(h: Heap, p: int)
    requires Inv(h) && Releasable(h, p) && !h.c[Next(h.c, p)].kind.Top? && Stop(h.c, p) in h.c
    ensures !h.c[Stop(h.c, p)].kind.Free? && !h.c[Stop(h.c, p)].kind.Top?
    ensures h.c[Stop(h.c, p)].reg == h.c[p].reg
    ensures h.c[Next(h.c, p)].kind.Free? ==> h.c[Stop(h.c, p)].psize != 0
  {
    var n, e := Next(h.c, p), Stop(h.c, p);
    assert Sound(h.c, p) && Sound(h.c, n) && Sound(h.c, e);
  }

  ghost function ReleaseStep(h: Heap, p: int): Heap
    requires p in h.c && Start(h.c, p) in h.c && Next(h.c, p) in h.c && Stop(h.c, p) in h.c
    requires Start(h.c, p) in Merged(h.c, p) && Next(Merged(h.c, p), Start(h.c, p)) in Merged(h.c, p)
  {
    h.(c := Untake(Merged(h.c, p), Start(h.c, p)))
  }

  /** What releasing does to the arena, chunk by chunk. */
  ghost predicate Released(c: Arena, c': Arena, p: int)
    requires p in c
  {
    var s, e := Start(c, p), Stop(c, p);
    && s in c' && c'[s] == Chunk(e - s, 0, Free(0), c[p].reg)
    && e in c && e in c' && c'[e] == c[e].(psize := e - s)
    && (forall x {:trigger x in c'} {:trigger x in c} :: x < s || e < x ==>
      (x in c' <==> x in c) && (x in c' ==> c'[x] == c[x]))
    && (forall x :: s < x < e ==> x !in c')
  }

  lemma ReleaseShape(h: Heap, p: int)
    requires Inv(h) && Releasable(h, p) && !h.c[Next(h.c, p)].kind.Top?
    ensures Start(h.c, p) in h.c && Stop(h.c, p) in h.c && Start(h.c, p) <= p < Next(h.c, p) <= Stop(h.c, p)
    ensures Start(h.c, p) in Merged(h.c, p) && Next(Merged(h.c, p), Start(h.c, p)) in Merged(h.c, p)
    ensures Wf(ReleaseStep(h, p).c) && Released(h.c, ReleaseStep(h, p).c, p)
  {
    MergedShape(h, p);
    MergedStop(h, p);
    var c2, s, e := Merged(h.c, p), Start(h.c, p), Stop(h.c, p);
    UntakeWf(c2, s);
    NothingInside(Untake(c2, s), s, e);
  }

  lemma NothingInside(c: Arena, s: int, e: int)
    requires Wf(c) && s in c && s + c[s].size == e
    ensures forall x :: s < x < e ==> x !in c
  {
    forall x | s < x < e ensures x !in c { assert Apart(c, s, x); }
  }

  /** Nothing but the chunk and its detached neighbours starts in the merged span. */
  lemma SpanIsLoose(h: Heap, p: int, x: int)
    requires Inv(h) && Releasable(h, p) && x in h.c && Start(h.c, p) <= x < Next(h.c, p)
    ensures Plain(h.c[x]) && x !in h.live && !h.c[x].kind.Top?
  {
    var s := Start(h.c, p);
    assert Sound(h.c, p) && Apart(h.c, p, x);
    if h.c[p].psize != 0 {
      assert Apart(h.c, s, x);
      if x == s { FreeNotLive(h, x); }
    }
  }

  lemma FreeNotLive(h: Heap, x: int)
    requires Inv(h) && x in h.c && h.c[x].kind.Free?
    ensures x !in h.live
  {
    if x in h.live {
      assert LiveSound(h, x);
      if x in h.mm {
        assert Sound(h.c, x) && Contained(h.regions, x, h.c[x]);
        MapOutsideRegion(h, x, h.c[x].reg);
      }
    }
  }

  lemma ReleaseWindow(h: Heap, p: int, c': Arena)
    requires Inv(h) && Releasable(h, p) && !h.c[Next(h.c, p)].kind.Top? && Released(h.c, c', p)
    requires Start(h.c, p) in h.c
    ensures Window(h, c', Start(h.c, p), Stop(h.c, p))
  {
    var s, n, e := Start(h.c, p), Next(h.c, p), Stop(h.c, p);
    forall x ensures Outside(h, c', s, e, x) {
      if x in h.c && s <= x < e {
        if x < n {
          SpanIsLoose(h, p, x);
        } else {
          assert Apart(h.c, n, x);
          FreeNotLive(h, x);
        }
      }
    }
  }

  lemma ReleaseTiled(h: Heap, p: int, c': Arena)
    requires Inv(h) && Releasable(h, p) && !h.c[Next(h.c, p)].kind.Top? && Released(h.c, c', p)
    requires Start(h.c, p) in h.c && Start(h.c, p) <= p < Stop(h.c, p)
    ensures Tiled(c', h.regions)
  {
    var s, e := Start(h.c, p), Stop(h.c, p);
    MergedStop(h, p);
    assert Contained(h.regions, e, h.c[e]) && Sound(h.c, e);
    forall x | x in c' ensures Contained(h.regions, x, c'[x]) {
      if x < s || e < x { assert Contained(h.regions, x, h.c[x]); }
    }
    forall r | r in h.regions ensures r in c' {
      RegionStarts(h, p, r);
    }
  }

  /** A region never starts inside the merged span, except at its start. */
  lemma RegionStarts(h: Heap, p: int, r: int)
    requires Inv(h) && Releasable(h, p) && r in h.regions && Start(h.c, p) in h.c
    ensures r <= Start(h.c, p) || Stop(h.c, p) <= r
  {
    var s, n := Start(h.c, p), Next(h.c, p);
    assert r in h.c && Sound(h.c, p) && Sound(h.c, s) && Sound(h.c, r) && Sound(h.c, n);
    assert Apart(h.c, s, r) && Apart(h.c, p, r) && Apart(h.c, n, r);
    if r == p && s != p {
      RegionHasNoPrevious(h, r);
    } else if r == n {
      RegionHasNoPrevious(h, r);
    }
  }

  /** The chunk at a region's base belongs to that region. */
  lemma RegionHasNoPrevious(h: Heap, r: int)
    requires Inv(h) && r in h.regions && r in h.c
    ensures h.c[r].reg == r && h.c[r].psize == 0
  {
    assert Sound(h.c, r) && Contained(h.regions, r, h.c[r]);
    var g := h.c[r].reg;
    assert RegionOk(h, r) && RegionOk(h, g) && AreaOk(h, r);
    assert AreasApart(h, g, r);
    PreviousInRegion(h.c, r);
  }

  lemma PreviousInRegion(c: Arena, p: int)
    requires Wf(c) && p in c
    ensures c[p].psize != 0 ==> c[p].reg <= p - c[p].psize
  {
    assert Sound(c, p);
    if c[p].psize != 0 { assert Sound(c, p - c[p].psize); }
  }

  lemma ReleaseInv(h: Heap, p: int)
    requires Inv(h) && Releasable(h, p) && !h.c[Next(h.c, p)].kind.Top?
    ensures Start(h.c, p) in h.c && Stop(h.c, p) in h.c
    ensures Start(h.c, p) in Merged(h.c, p) && Next(Merged(h.c, p), Start(h.c, p)) in Merged(h.c, p)
    ensures Inv(ReleaseStep(h, p))
  {
    ReleaseShape(h, p);
    var h' := ReleaseStep(h, p);
    ReleaseWindow(h, p, h'.c);
    ReleaseTiled(h, p, h'.c);
    ReleaseTop(h, p);
    WindowInv(h, h'.c, h.top, Start(h.c, p), Stop(h.c, p));
  }

  lemma ReleaseTop(h: Heap, p: int)
    requires Inv(h) && Releasable(h, p) && !h.c[Next(h.c, p)].kind.Top? && Stop(h.c, p) in h.c && Start(h.c, p) in h.c
    requires Start(h.c, p) in Merged(h.c, p) && Next(Merged(h.c, p), Start(h.c, p)) in Merged(h.c, p)
    requires Released(h.c, ReleaseStep(h, p).c, p) && Start(h.c, p) <= p < Stop(h.c, p)
    ensures TopOk(ReleaseStep(h, p))
  {
    var h', s, n, e := ReleaseStep(h, p), Start(h.c, p), Next(h.c, p), Stop(h.c, p);
    assert h.c != map[];
    MergedStop(h, p);
    assert Apart(h.c, n, h.top);
    if s <= h.top < n { SpanIsLoose(h, p, h.top); }
    forall x ensures OnlyTop(h', x) { assert OnlyTop(h, x); }
  }

  /** The tags the source writes when it frees a chunk not next to top. */
  ghost function ReleaseWrites(m: Mem, n: int, s: int, total: int): Mem {
    m[n + 4 := ChunkSize(m, n)][s + 4 := total + 1][s + total := total]
  }

  lemma ReleaseRep(m: Mem, h: Heap, heads: seq<int>, p: int)
    requires Inv(h) && Rep(m, h, heads) && Releasable(h, p) && !h.c[Next(h.c, p)].kind.Top?
    ensures Start(h.c, p) in h.c && Stop(h.c, p) in h.c
    ensures Start(h.c, p) in Merged(h.c, p) && Next(Merged(h.c, p), Start(h.c, p)) in Merged(h.c, p)
    ensures var s, e := Start(h.c, p), Stop(h.c, p);
      var m' := ReleaseWrites(m, Next(h.c, p), s, e - s);
      Rep(m', ReleaseStep(h, p), heads) && UserSame(h.live, m, m')
  {
    ReleaseShape(h, p);
    var h', s, n, e := ReleaseStep(h, p), Start(h.c, p), Next(h.c, p), Stop(h.c, p);
    var m' := ReleaseWrites(m, n, s, e - s);
    ReleaseWindow(h, p, h'.c);
    MergedStop(h, p);
    assert Sound(h.c, e) && Contained(h.regions, e, h.c[e]);
    ReleaseHeads(m, h, p, h'.c);
    StartRegion(h, p);
    WindowRep(m, m', h, h'.c, h.top, s, e, e + 8, heads);
  }

  lemma StartRegion(h: Heap, p: int)
    requires Inv(h) && p in h.c && Start(h.c, p) in h.c
    ensures h.c[Start(h.c, p)].reg == h.c[p].reg && h.c[p].reg in h.regions
  {
    assert Sound(h.c, p) && Sound(h.c, Start(h.c, p)) && Contained(h.regions, p, h.c[p]);
  }

  lemma ReleaseHeads(m: Mem, h: Heap, p: int, c': Arena)
    requires Inv(h) && HeadsOk(m, h.c) && Releasable(h, p) && !h.c[Next(h.c, p)].kind.Top?
    requires Start(h.c, p) in h.c && Stop(h.c, p) in h.c && Start(h.c, p) <= p < Next(h.c, p) <= Stop(h.c, p)
    requires Released(h.c, c', p)
    ensures var s, e := Start(h.c, p), Stop(h.c, p);
      var m' := ReleaseWrites(m, Next(h.c, p), s, e - s);
      && (forall x {:trigger HeadOk(m', x, c'[x])} :: x in c' && s <= x <= e ==> HeadOk(m', x, c'[x]))
      && MemWindow(m, m', s, e + 8)
  {
    var s, n, e := Start(h.c, p), Next(h.c, p), Stop(h.c, p);
    var m' := ReleaseWrites(m, n, s, e - s);
    assert Sound(h.c, p);
    assert MemWindow(m, m', s, e + 8);
    assert HeadOk(m', s, c'[s]);
    ReleaseStopHead(m, h, p, c');
  }

  lemma ReleaseStopHead(m: Mem, h: Heap, p: int, c': Arena)
    requires Inv(h) && HeadsOk(m, h.c) && Releasable(h, p) && !h.c[Next(h.c, p)].kind.Top?
    requires Start(h.c, p) in h.c && Stop(h.c, p) in h.c && Start(h.c, p) <= p < Next(h.c, p) <= Stop(h.c, p)
    requires Released(h.c, c', p)
    ensures var s, e := Start(h.c, p), Stop(h.c, p);
      HeadOk(ReleaseWrites(m, Next(h.c, p), s, e - s), e, c'[e])
  {
    var s, n, e := Start(h.c, p), Next(h.c, p), Stop(h.c, p);
    MergedStop(h, p);
    assert Sound(h.c, n) && Sound(h.c, e) && Sound(h.c, s);
    assert HeadOk(m, e, h.c[e]);
    if e == n {
      TagsRead(m, h.c, n);
    } else {
      assert Apart(h.c, n, e);
    }
  }

  // ----- freeing a chunk that borders top -----

  ghost function ReleaseTopStep(h: Heap, p: int): Heap
    requires p in h.c && Start(h.c, p) in h.c && Start(h.c, p) in BackMerged(h.c, p)
    requires Next(BackMerged(h.c, p), Start(h.c, p)) in BackMerged(h.c, p)
  {
    h.(c := Join(BackMerged(h.c, p), Start(h.c, p)), top := Start(h.c, p))
  }

  ghost predicate BordersTop(h: Heap, p: int) {
    Releasable(h, p) && h.c[Next(h.c, p)].kind.Top?
  }

  ghost predicate ToppedUp(c: Arena, c': Arena, p: int)
    requires p in c && Next(c, p) in c
  {
    var s, n := Start(c, p), Next(c, p);
    var e := n + c[n].size;
    && s in c' && c'[s] == Chunk(e - s, 0, Top, c[p].reg)
    && (forall x {:trigger x in c'} {:trigger x in c} :: x < s || e <= x ==>
      (x in c' <==> x in c) && (x in c' ==> c'[x] == c[x]))
    && (forall x :: s < x < e ==> x !in c')
  }

  lemma ReleaseTopShape(h: Heap, p: int)
    requires Inv(h) && BordersTop(h, p)
    ensures Start(h.c, p) in h.c && Start(h.c, p) <= p && Start(h.c, p) in BackMerged(h.c, p)
    ensures Next(BackMerged(h.c, p), Start(h.c, p)) == Next(h.c, p) && Next(h.c, p) in BackMerged(h.c, p)
    ensures Wf(ReleaseTopStep(h, p).c) && ToppedUp(h.c, ReleaseTopStep(h, p).c, p)
    ensures h.top == Next(h.c, p)
  {
    BackMergedShape(h, p);
    var c1, s, n := BackMerged(h.c, p), Start(h.c, p), Next(h.c, p);
    assert OnlyTop(h, n);
    assert Sound(h.c, p) && Sound(h.c, n);
    assert n in c1 && c1[n] == h.c[n];
    JoinWf(c1, s);
    var c', e := Join(c1, s), n + h.c[n].size;
    forall x | s < x < e ensures x !in c' { assert Apart(c', s, x); }
  }

  lemma ReleaseTopWindow(h: Heap, p: int, c': Arena)
    requires Inv(h) && BordersTop(h, p) && ToppedUp(h.c, c', p) && Start(h.c, p) in h.c
    ensures Window(h, c', Start(h.c, p), Next(h.c, Next(h.c, p)))
  {
    var s, n := Start(h.c, p), Next(h.c, p);
    var e := Next(h.c, n);
    assert OnlyTop(h, n);
    TopNotLive(h);
    forall x ensures Outside(h, c', s, e, x) {
      if x in h.c && s <= x < e {
        if x < n {
          SpanIsLoose(h, p, x);
        } else {
          assert Apart(h.c, n, x);
        }
      }
    }
  }

  lemma ReleaseTopTiled(h: Heap, p: int, c': Arena)
    requires Inv(h) && BordersTop(h, p) && ToppedUp(h.c, c', p) && Start(h.c, p) in h.c
    ensures Tiled(c', h.regions)
  {
    var s, n := Start(h.c, p), Next(h.c, p);
    var e := Next(h.c, n);
    assert Contained(h.regions, n, h.c[n]) && Sound(h.c, p) && Sound(h.c, n);
    forall x | x in c' ensures Contained(h.regions, x, c'[x]) {
      if x < s || e <= x { assert Contained(h.regions, x, h.c[x]); }
    }
    forall r | r in h.regions ensures r in c' {
      RegionStarts(h, p, r);
      assert r in h.c && Apart(h.c, n, r);
      if r == n { RegionHasNoPrevious(h, r); }
    }
  }

  lemma ReleaseTopInv(h: Heap, p: int)
    requires Inv(h) && BordersTop(h, p)
    ensures Start(h.c, p) in h.c && Start(h.c, p) in BackMerged(h.c, p)
    ensures Next(BackMerged(h.c, p), Start(h.c, p)) in BackMerged(h.c, p)
    ensures Inv(ReleaseTopStep(h, p))
  {
    ReleaseTopShape(h, p);
    var h', s := ReleaseTopStep(h, p), Start(h.c, p);
    ReleaseTopWindow(h, p, h'.c);
    ReleaseTopTiled(h, p, h'.c);
    ReleaseTopTop(h, p);
    WindowInv(h, h'.c, s, s, Next(h.c, Next(h.c, p)));
  }

  lemma ReleaseTopTop(h: Heap, p: int)
    requires Inv(h) && BordersTop(h, p) && Start(h.c, p) in h.c && Start(h.c, p) in BackMerged(h.c, p)
    requires Next(BackMerged(h.c, p), Start(h.c, p)) in BackMerged(h.c, p)
    requires ToppedUp(h.c, ReleaseTopStep(h, p).c, p)
    ensures TopOk(ReleaseTopStep(h, p))
  {
    var h', s, n := ReleaseTopStep(h, p), Start(h.c, p), Next(h.c, p);
    assert Sound(h.c, s) && Sound(h.c, p) && Sound(h.c, n) && OnlyTop(h, n);
    forall x ensures OnlyTop(h', x) { assert OnlyTop(h, x); }
  }

  lemma ReleaseTopHeads(m: Mem, h: Heap, p: int, c': Arena)
    requires Inv(h) && HeadsOk(m, h.c) && BordersTop(h, p) && ToppedUp(h.c, c', p)
    requires Start(h.c, p) in h.c && Start(h.c, p) <= p
    ensures var s, e := Start(h.c, p), Next(h.c, Next(h.c, p));
      var m' := m[s + 4 := e - s + 1];
      && (forall x {:trigger HeadOk(m', x, c'[x])} :: x in c' && s <= x <= e ==> HeadOk(m', x, c'[x]))
      && MemWindow(m, m', s, e)
  {
    var s, n := Start(h.c, p), Next(h.c, p);
    var e := Next(h.c, n);
    var m' := m[s + 4 := e - s + 1];
    assert Sound(h.c, p) && Sound(h.c, n);
    assert HeadOk(m', s, c'[s]);
    if e in c' { assert HeadOk(m, e, h.c[e]) && HeadOk(m', e, c'[e]); }
  }

  lemma ReleaseTopRep(m: Mem, h: Heap, heads: seq<int>, p: int)
    requires Inv(h) && Rep(m, h, heads) && BordersTop(h, p)
    ensures Start(h.c, p) in h.c && Start(h.c, p) in BackMerged(h.c, p)
    ensures Next(BackMerged(h.c, p), Start(h.c, p)) in BackMerged(h.c, p)
    ensures var s, n := Start(h.c, p), Next(h.c, p);
      var m' := m[s + 4 := n + h.c[n].size - s + 1];
      Rep(m', ReleaseTopStep(h, p), heads) && UserSame(h.live, m, m')
  {
    ReleaseTopShape(h, p);
    var h', s, n := ReleaseTopStep(h, p), Start(h.c, p), Next(h.c, p);
    var e := Next(h.c, n);
    var m' := m[s + 4 := e - s + 1];
    ReleaseTopWindow(h, p, h'.c);
    ReleaseTopHeads(m, h, p, h'.c);
    StartRegion(h, p);
    assert Sound(h.c, p) && Sound(h.c, n) && Contained(h.regions, n, h.c[n]);
    WindowRep(m, m', h, h'.c, s, s, e, e, heads);
  }
}
